/**
 * The parsed `.travis.yml` tree and the few Python operations the
 * interpreter applies to it. A mapping keeps its entries in document order;
 * `Scalar` stands for every scalar that is neither a string nor null
 * (numbers, booleans, dates), which the interpreter never inspects.
 */
module Yaml {
  import opened Wrappers
  import opened Text

  datatype Node =
    | Str(s: string)
    | Seq(items: seq<Node>)
    | Map(entries: seq<(string, Node)>)
    | Scalar
    | Null

  /** `d.get(key)` on a mapping: the value of the first entry under `key` (the model takes a mapping's keys to be distinct). */
  function Get(entries: seq<(string, Node)>, key: string): (r: Option<Node>)
    ensures r.None? <==> forall i :: 0 <= i < |entries| ==> entries[i].0 != key
    ensures r.Some? ==> exists i :: 0 <= i < |entries| && entries[i] == (key, r.value)
    decreases |entries|
  {
    if entries == [] then None
    else if entries[0].0 == key then Some(entries[0].1)
    else
      var r := Get(entries[1..], key);
      assert forall i :: 1 <= i < |entries| ==> entries[i] == entries[1..][i - 1];
      r
  }

  /** `d.get(key) is not None` on a mapping: the value, unless the key is absent or holds null. */
  function Field(n: Node, key: string): (r: Option<Node>)
    requires n.Map?
    ensures r.Some? <==> Get(n.entries, key).Some? && Get(n.entries, key).value != Null
    ensures r.Some? ==> r == Get(n.entries, key)
  {
    match Get(n.entries, key)
    case Some(v) => if v == Null then None else Some(v)
    case None => None
  }

  /**
   * What `for x in n` visits: the characters of a string (each as a
   * one-character string), the items of a list, the keys of a mapping.
   * `None` when Python raises `TypeError` (a number, a boolean, null).
   */
  function Iterate(n: Node): (r: Option<seq<Node>>)
    ensures r.None? <==> n.Scalar? || n.Null?
    ensures n.Str? ==> r.Some? && |r.value| == |n.s| && forall i :: 0 <= i < |n.s| ==> r.value[i] == Str([n.s[i]])
    ensures n.Seq? ==> r == Some(n.items)
    ensures n.Map? ==> r.Some? && |r.value| == |n.entries| && forall i :: 0 <= i < |n.entries| ==> r.value[i] == Str(n.entries[i].0)
  {
    match n
    case Str(s) => Some(seq(|s|, i requires 0 <= i < |s| => Str([s[i]])))
    case Seq(items) => Some(items)
    case Map(entries) => Some(seq(|entries|, i requires 0 <= i < |entries| => Str(entries[i].0)))
    case Scalar => None
    case Null => None
  }

  /**
   * Python's `key in n`: a substring test on a string, membership on a list,
   * a key test on a mapping; `None` when Python raises `TypeError`.
   */
  function HasMember(n: Node, key: string): (r: Option<bool>)
    ensures r.None? <==> n.Scalar? || n.Null?
    ensures n.Str? ==> r == Some(Contains(n.s, key))
    ensures n.Seq? ==> r == Some(Str(key) in n.items)
    ensures n.Map? ==> r == Some(Get(n.entries, key).Some?)
  {
    match n
    case Str(s) => Some(Contains(s, key))
    case Seq(items) => Some(Str(key) in items)
    case Map(entries) => Some(Get(entries, key).Some?)
    case Scalar => None
    case Null => None
  }

  /** `n.get(key) == value` on a mapping, where only a string can equal `value`. */
  predicate Matches(n: Node, key: string, value: string)
    requires n.Map?
  {
    Get(n.entries, key) == Some(Str(value))
  }
}
