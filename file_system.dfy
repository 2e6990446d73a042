/**
 * The part of the file system the preview reads, as a tree of entries,
 * and `calculateDeepSize`, which adds up the sizes reported by a deep
 * enumeration of a directory.
 */
module FileSystem {
  import opened Wrappers

  /**
   * The resource values of an entry. Each key may be absent on its own
   * (`values.isDirectory` and the others are optionals).
   */
  datatype Metadata = Metadata(
    isDirectory: Option<bool>,
    modificationDate: Option<int>,
    fileSize: Option<nat>,
    typeDescription: Option<string>)

  /**
   * One entry of the file system. `metadata` is `None` when reading the
   * entry's resource values fails; `listable` is false when its contents
   * cannot be listed (not a directory, or not readable); `children` are
   * its contents in the order the file system lists them.
   */
  datatype Node = Node(
    name: string,
    hidden: bool,
    metadata: Option<Metadata>,
    listable: bool,
    children: seq<Node>)

  /**
   * What a deep `FileManager` enumerator yields under `n`: every entry in
   * pre-order, hidden ones included (the enumerator is created with no
   * options); a directory it cannot read yields nothing.
   */
  function Enumerate(n: Node): (r: seq<Node>)
    ensures !n.listable ==> r == []
    ensures n.listable ==> forall c | c in n.children :: c in r
    decreases n
  {
    if n.listable then EnumerateAll(n.children) else []
  }

  function EnumerateAll(cs: seq<Node>): (r: seq<Node>)
    ensures forall c | c in cs :: c in r
    ensures |r| >= |cs|
    decreases cs
  {
    if cs == [] then []
    else [cs[0]] + Enumerate(cs[0]) + EnumerateAll(cs[1..])
  }

  /** The size an entry reports: its file size, or 0 when the value cannot be read. */
  function ReportedSize(n: Node): (r: nat)
    ensures n.metadata.Some? && n.metadata.value.fileSize.Some? ==> r == n.metadata.value.fileSize.value
    ensures n.metadata.None? || n.metadata.value.fileSize.None? ==> r == 0
  {
    match n.metadata
    case None => 0
    case Some(m) => m.fileSize.GetOr(0)
  }

  function SumReported(s: seq<Node>): nat {
    if s == [] then 0 else ReportedSize(s[0]) + SumReported(s[1..])
  }

  /**
   * The deep size of a directory, defined on the tree itself: each listed
   * child adds its own reported size and the deep size of what it holds.
   */
  function DeepSize(n: Node): nat
    decreases n
  {
    if n.listable then ChildrenDeepSize(n.children) else 0
  }

  function ChildrenDeepSize(cs: seq<Node>): nat
    decreases cs
  {
    if cs == [] then 0
    else ReportedSize(cs[0]) + DeepSize(cs[0]) + ChildrenDeepSize(cs[1..])
  }

  lemma {:induction false} SumReportedConcat(a: seq<Node>, b: seq<Node>)
    ensures SumReported(a + b) == SumReported(a) + SumReported(b)
    decreases |a|
  {
    if a == [] {
      assert a + b == b;
    } else {
      var ab := a + b;
      assert ab[0] == a[0] && ab[1..] == a[1..] + b;
      SumReportedConcat(a[1..], b);
    }
  }

  /** Adding up what the enumerator yields gives the deep size of the tree. */
  lemma {:induction false} EnumerationSum(n: Node)
    ensures SumReported(Enumerate(n)) == DeepSize(n)
    decreases n
  {
    if n.listable {
      EnumerationSumAll(n.children);
    }
  }

  lemma {:induction false} EnumerationSumAll(cs: seq<Node>)
    ensures SumReported(EnumerateAll(cs)) == ChildrenDeepSize(cs)
    decreases cs
  {
    if cs != [] {
      EnumerationSum(cs[0]);
      EnumerationSumAll(cs[1..]);
      SumReportedConcat([cs[0]] + Enumerate(cs[0]), EnumerateAll(cs[1..]));
      SumReportedConcat([cs[0]], Enumerate(cs[0]));
    }
  }

  /** A directory's deep size counts each of its children's reported sizes. */
  lemma {:induction false} DeepSizeCoversChildren(n: Node, i: nat)
    requires n.listable && i < |n.children|
    ensures ReportedSize(n.children[i]) + DeepSize(n.children[i]) <= DeepSize(n)
  {
    ChildrenDeepSizeCovers(n.children, i);
  }

  lemma {:induction false} ChildrenDeepSizeCovers(cs: seq<Node>, i: nat)
    requires i < |cs|
    ensures ReportedSize(cs[i]) + DeepSize(cs[i]) <= ChildrenDeepSize(cs)
    decreases i
  {
    if i > 0 {
      ChildrenDeepSizeCovers(cs[1..], i - 1);
    }
  }

  /**
   * `calculateDeepSize`: walk the enumeration of `dir`, adding the file
   * size of every entry that reports one.
   */
  method CalculateDeepSize(dir: Node) returns (total: nat)
    ensures total == DeepSize(dir)
    ensures total == SumReported(Enumerate(dir))
  {
    var entries := Enumerate(dir);
    total := 0;
    var i := 0;
    while i < |entries|
      invariant 0 <= i <= |entries|
      invariant total == SumReported(entries[..i])
    {
      var e := entries[i];
      if e.metadata.Some? && e.metadata.value.fileSize.Some? {
        total := total + e.metadata.value.fileSize.value;
      }
      assert entries[..i + 1] == entries[..i] + [e];
      SumReportedConcat(entries[..i], [e]);
      i := i + 1;
    }
    assert entries[..i] == entries;
    EnumerationSum(dir);
  }
}
