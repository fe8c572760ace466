/**
 * The string operations of Python that the interpreter relies on:
 * `str.split(sep)` with a one-character separator, `pat in s`,
 * `re.search` of a literal pattern, slicing past the end, and the POSIX
 * `os.path.join` / `os.path.basename` of two paths.
 */
module Text {
  import opened Wrappers

  /** `pat` occurs in `s` starting at position `k`. */
  predicate OccursAt(pat: string, s: string, k: nat) {
    k + |pat| <= |s| && s[k..k + |pat|] == pat
  }

  /** Python's `pat in s` on strings. */
  predicate Contains(s: string, pat: string) {
    exists k: nat :: k <= |s| && OccursAt(pat, s, k)
  }

  /** The first position at or after `from` where `pat` occurs in `s`. */
  function FindFrom(pat: string, s: string, from: nat): (r: Option<nat>)
    ensures r.Some? ==> from <= r.value && OccursAt(pat, s, r.value)
    ensures r.Some? ==> forall j: nat :: from <= j < r.value ==> !OccursAt(pat, s, j)
    ensures r.None? ==> forall j: nat :: from <= j ==> !OccursAt(pat, s, j)
    decreases |s| - from
  {
    if from + |pat| > |s| then None
    else if s[from..from + |pat|] == pat then Some(from)
    else FindFrom(pat, s, from + 1)
  }

  /** The start of the first occurrence of `pat` in `s`, as `re.search` finds it for a literal pattern. */
  function Find(pat: string, s: string): (r: Option<nat>)
    ensures r.None? <==> !Contains(s, pat)
    ensures r.Some? ==> OccursAt(pat, s, r.value)
    ensures r.Some? ==> forall j: nat :: j < r.value ==> !OccursAt(pat, s, j)
  {
    FindFrom(pat, s, 0)
  }

  /** Python's `s[n:]`: empty once `n` reaches the end. */
  function Suffix(s: string, n: nat): (r: string)
    ensures n <= |s| ==> r == s[n..]
    ensures n >= |s| ==> r == []
  {
    if n <= |s| then s[n..] else []
  }

  /** Python's `s.split(sep)`: the pieces between occurrences of `sep`, empty pieces kept. */
  function Split(s: string, sep: char): (parts: seq<string>)
    ensures |parts| >= 1
    ensures forall i :: 0 <= i < |parts| ==> sep !in parts[i]
    decreases |s|
  {
    if s == [] then [""]
    else
      var rest := Split(s[1..], sep);
      if s[0] == sep then [""] + rest
      else [[s[0]] + rest[0]] + rest[1..]
  }

  /** Python's `sep.join(parts)`. */
  function Join(parts: seq<string>, sep: char): string
    decreases |parts|
  {
    if parts == [] then ""
    else if |parts| == 1 then parts[0]
    else parts[0] + [sep] + Join(parts[1..], sep)
  }

  /** Splitting and joining again gives back the original string. */
  lemma {:induction false} JoinSplit(s: string, sep: char)
    ensures Join(Split(s, sep), sep) == s
    decreases |s|
  {
    if s != [] {
      var rest := Split(s[1..], sep);
      JoinSplit(s[1..], sep);
      if s[0] == sep {
        assert Split(s, sep) == [""] + rest;
        assert ([""] + rest)[1..] == rest;
      } else {
        var parts := Split(s, sep);
        assert parts == [[s[0]] + rest[0]] + rest[1..];
        if |rest| == 1 {
          assert parts == [[s[0]] + rest[0]];
        } else {
          assert parts[1..] == rest[1..];
          assert Join(rest, sep) == rest[0] + [sep] + Join(rest[1..], sep);
        }
        assert s == [s[0]] + s[1..];
      }
    }
  }

  /** A piece free of the separator, followed by the separator, splits off as one part. */
  lemma {:induction false} SplitPrefix(a: string, sep: char, t: string)
    requires sep !in a
    ensures Split(a + [sep] + t, sep) == [a] + Split(t, sep)
    decreases |a|
  {
    if a == [] {
      assert [] + [sep] + t == [sep] + t;
      assert ([sep] + t)[1..] == t;
    } else {
      SplitPrefix(a[1..], sep, t);
      assert (a + [sep] + t)[1..] == a[1..] + [sep] + t;
      assert [a[0]] + a[1..] == a;
    }
  }

  /** A string free of the separator does not split. */
  lemma {:induction false} SplitNone(a: string, sep: char)
    requires sep !in a
    ensures Split(a, sep) == [a]
    decreases |a|
  {
    if a != [] {
      SplitNone(a[1..], sep);
      assert [a[0]] + a[1..] == a;
    }
  }

  /** Joining separator-free parts and splitting again gives back the parts. */
  lemma {:induction false} SplitJoin(parts: seq<string>, sep: char)
    requires |parts| >= 1
    requires forall i :: 0 <= i < |parts| ==> sep !in parts[i]
    ensures Split(Join(parts, sep), sep) == parts
    decreases |parts|
  {
    if |parts| == 1 {
      SplitNone(parts[0], sep);
    } else {
      SplitJoin(parts[1..], sep);
      SplitPrefix(parts[0], sep, Join(parts[1..], sep));
      assert [parts[0]] + parts[1..] == parts;
    }
  }

  /** A string splits into two or more parts exactly when it holds the separator. */
  lemma {:induction false} SplitCount(s: string, sep: char)
    ensures |Split(s, sep)| >= 2 <==> sep in s
    decreases |s|
  {
    if s != [] {
      SplitCount(s[1..], sep);
      assert s == [s[0]] + s[1..];
    }
  }

  /** POSIX `os.path.join(a, b)`: an absolute `b` replaces `a`; a separator is added unless `a` is empty or ends in one. */
  function PathJoin(a: string, b: string): (r: string)
    ensures |b| > 0 && b[0] == '/' ==> r == b
    ensures (|b| == 0 || b[0] != '/') && |a| > 0 && a[|a| - 1] != '/' ==> r == a + "/" + b
    ensures (|b| == 0 || b[0] != '/') && (|a| == 0 || a[|a| - 1] == '/') ==> r == a + b
  {
    if |b| > 0 && b[0] == '/' then b
    else if |a| == 0 || a[|a| - 1] == '/' then a + b
    else a + "/" + b
  }

  /** Where the last path component of `p` starts: just after its last `/`, or 0. */
  function LastComponentStart(p: string): (k: nat)
    ensures k <= |p|
    ensures forall i :: k <= i < |p| ==> p[i] != '/'
    ensures k > 0 ==> p[k - 1] == '/'
    decreases |p|
  {
    if p == [] then 0
    else if p[|p| - 1] == '/' then |p|
    else LastComponentStart(p[..|p| - 1])
  }

  /** POSIX `os.path.basename(p)`: the text after the last `/`. */
  function Basename(p: string): (r: string)
    ensures '/' !in r
    ensures |r| <= |p| && r == p[|p| - |r|..]
    ensures |r| < |p| ==> p[|p| - |r| - 1] == '/'
  {
    p[LastComponentStart(p)..]
  }
}
