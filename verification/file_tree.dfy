/**
 * An abstract directory tree: regular files with their sizes, symbolic
 * links (to a file, to a directory, or dangling) and directories with their
 * entries in listing order. Paths are not modelled inside a tree; a
 * directory listing is a sequence of entries.
 */
module FileTree {
  import opened Text

  datatype LinkTarget = ToFile | ToDir | Dangling

  datatype Entry =
    | File(name: string, size: nat)
    | Link(name: string, target: LinkTarget)
    | Dir(name: string, children: seq<Entry>)

  /** `os.path.isdir` on the entry: it follows links. */
  predicate IsDirLike(e: Entry) {
    e.Dir? || (e.Link? && e.target == ToDir)
  }

  /** `os.path.isfile` on the entry: it follows links. */
  predicate IsFileLike(e: Entry) {
    e.File? || (e.Link? && e.target == ToFile)
  }

  /** The names listed in a directory. */
  function Names(es: seq<Entry>): (r: set<string>)
    ensures forall i :: 0 <= i < |es| ==> es[i].name in r
    ensures forall n :: n in r ==> exists i :: 0 <= i < |es| && es[i].name == n
  {
    set i | 0 <= i < |es| :: es[i].name
  }

  // ---------------------------------------------------------------- sizes

  /** Bytes and number of the files a walk counts. */
  datatype Usage = Usage(bytes: nat, files: nat)

  function Plus(a: Usage, b: Usage): Usage {
    Usage(a.bytes + b.bytes, a.files + b.files)
  }

  /**
   * What `get_dir_size` accumulates over a listing: every regular file adds
   * its size and one to the count; links add nothing; directories add what
   * their entries add.
   */
  function UsageOf(es: seq<Entry>): Usage
    decreases es, 1
  {
    if es == [] then Usage(0, 0)
    else
      Plus(HeadUsage(es), UsageOf(es[1..]))
  }

  /** What the first entry of a non-empty listing contributes. */
  function HeadUsage(es: seq<Entry>): Usage
    requires es != []
    decreases es, 0
  {
    match es[0]
    case File(_, size) => Usage(size, 1)
    case Link(_, _) => Usage(0, 0)
    case Dir(_, children) => UsageOf(children)
  }

  /** Independent reference: the sizes of the regular files of a tree, in walk order. */
  function FileSizes(es: seq<Entry>): seq<nat>
    decreases es, 1
  {
    if es == [] then [] else HeadSizes(es) + FileSizes(es[1..])
  }

  /** The file sizes under the first entry of a non-empty listing. */
  function HeadSizes(es: seq<Entry>): seq<nat>
    requires es != []
    decreases es, 0
  {
    match es[0]
    case File(_, size) => [size]
    case Link(_, _) => []
    case Dir(_, children) => FileSizes(children)
  }

  function Sum(xs: seq<nat>): nat {
    if xs == [] then 0 else xs[0] + Sum(xs[1..])
  }

  lemma {:induction false} SumAppend(a: seq<nat>, b: seq<nat>)
    ensures Sum(a + b) == Sum(a) + Sum(b)
  {
    if a == [] {
      assert a + b == b;
    } else {
      assert (a + b)[1..] == a[1..] + b;
      SumAppend(a[1..], b);
    }
  }

  /** The size pair is the total and the number of regular files, symbolic links excluded. */
  lemma {:induction false} UsageIsFileTotal(es: seq<Entry>)
    ensures UsageOf(es) == Usage(Sum(FileSizes(es)), |FileSizes(es)|)
    decreases es, 1
  {
    if es != [] {
      UsageIsFileTotal(es[1..]);
      HeadUsageIsFileTotal(es);
      SumAppend(HeadSizes(es), FileSizes(es[1..]));
    }
  }

  lemma {:induction false} HeadUsageIsFileTotal(es: seq<Entry>)
    requires es != []
    ensures HeadUsage(es) == Usage(Sum(HeadSizes(es)), |HeadSizes(es)|)
    decreases es, 0
  {
    match es[0]
    case File(_, size) =>
      assert Sum([size]) == size + Sum([]);
    case Link(_, _) =>
    case Dir(_, children) =>
      UsageIsFileTotal(children);
  }

  /** The usage of two listings walked one after the other adds up. */
  lemma {:induction false} UsageAppend(a: seq<Entry>, b: seq<Entry>)
    ensures UsageOf(a + b) == Plus(UsageOf(a), UsageOf(b))
    decreases a
  {
    if a == [] {
      assert a + b == b;
    } else {
      assert (a + b)[0] == a[0];
      assert (a + b)[1..] == a[1..] + b;
      assert HeadUsage(a + b) == HeadUsage(a);
      UsageAppend(a[1..], b);
    }
  }

  // ------------------------------------------------------------ retention

  /** Whether a file name is one the retention step keeps: a log file or the per-project output record. */
  predicate KeepsName(name: string) {
    Contains(name, ".log") || name == "output.json"
  }

  /**
   * Whether an entry of the build directory survives retention: directories
   * go; a link to a directory stays (removing it through the tree remover
   * fails and the failure is ignored); any other entry stays only with a kept
   * name.
   */
  predicate Survives(e: Entry) {
    match e
    case Dir(_, _) => false
    case Link(name, target) => target == ToDir || KeepsName(name)
    case File(name, _) => KeepsName(name)
  }

  /** The listing left after retention. */
  function Retained(es: seq<Entry>): (r: seq<Entry>)
    ensures |r| <= |es|
    decreases |es|
  {
    if es == [] then []
    else if Survives(es[0]) then [es[0]] + Retained(es[1..])
    else Retained(es[1..])
  }

  /** The retained listing holds exactly the surviving entries of the original. */
  lemma {:induction false} RetainedMembers(es: seq<Entry>, e: Entry)
    ensures e in Retained(es) <==> e in es && Survives(e)
    decreases |es|
  {
    if es != [] {
      RetainedMembers(es[1..], e);
      assert es == [es[0]] + es[1..];
    }
  }

  /** A plain file survives exactly when its name contains `.log` or is `output.json`; no directory survives. */
  lemma RetainedFiles(es: seq<Entry>, e: Entry)
    requires e in es
    ensures e.File? ==> (e in Retained(es) <==> KeepsName(e.name))
    ensures e.Dir? ==> e !in Retained(es)
  {
    RetainedMembers(es, e);
  }

  /** Retention is idempotent: a second run removes nothing further. */
  lemma {:induction false} RetainedIdempotent(es: seq<Entry>)
    ensures Retained(Retained(es)) == Retained(es)
    decreases |es|
  {
    if es != [] {
      RetainedIdempotent(es[1..]);
      if Survives(es[0]) {
        assert ([es[0]] + Retained(es[1..]))[1..] == Retained(es[1..]);
      }
    }
  }

  /** Retention keeps the surviving entries in their listing order. */
  lemma {:induction false} RetainedAppend(a: seq<Entry>, b: seq<Entry>)
    ensures Retained(a + b) == Retained(a) + Retained(b)
    decreases |a|
  {
    if a == [] {
      assert a + b == b;
    } else {
      assert (a + b)[1..] == a[1..] + b;
      RetainedAppend(a[1..], b);
    }
  }
}
