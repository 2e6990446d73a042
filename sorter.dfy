/**
 * The recursive sorter `sortItems`: order one level (folders first when
 * "keep folders on top" is set), then sort every folder's children the
 * same way.
 */
module Sorter {
  import opened FileItems
  import opened Comparators
  import opened Sequences

  /** What `sortItems` reads: the `keepFoldersOnTop` preference and the table's sort order. */
  datatype SortConfig = SortConfig(keepFoldersOnTop: bool, sortOrder: seq<KeyComparator>)

  predicate Sorted(order: seq<KeyComparator>, s: seq<FileItem>) {
    forall i, j :: 0 <= i < j < |s| ==> InOrder(order, s[i], s[j])
  }

  /** Every directory of `s` stands before every non-directory. */
  predicate FoldersFirst(s: seq<FileItem>) {
    forall i, j :: 0 <= i < j < |s| && s[j].isDirectory ==> s[i].isDirectory
  }

  /** The test of the two filters in `sortItems`. */
  predicate IsFolder(x: FileItem) {
    x.isDirectory
  }

  predicate IsNotFolder(x: FileItem) {
    !x.isDirectory
  }

  /** Insert `x` before the first item it may precede. */
  function Insert(order: seq<KeyComparator>, x: FileItem, s: seq<FileItem>): (r: seq<FileItem>)
    ensures |r| == |s| + 1
    ensures multiset(r) == multiset(s) + multiset{x}
  {
    if s == [] then [x]
    else if InOrder(order, x, s[0]) then [x] + s
    else
      assert s == [s[0]] + s[1..];
      [s[0]] + Insert(order, x, s[1..])
  }

  /** Inserting into a sorted list keeps it sorted. */
  lemma {:induction false} InsertSorted(order: seq<KeyComparator>, x: FileItem, s: seq<FileItem>)
    requires Sorted(order, s)
    ensures Sorted(order, Insert(order, x, s))
  {
    if s == [] {
    } else if InOrder(order, x, s[0]) {
      forall j | 0 < j < |s| ensures InOrder(order, x, s[j]) {
        InOrderTransitive(order, x, s[0], s[j]);
      }
    } else {
      InOrderTotal(order, x, s[0]);
      var rest := Insert(order, x, s[1..]);
      InsertSorted(order, x, s[1..]);
      assert s == [s[0]] + s[1..];
      forall j | 0 <= j < |rest| ensures InOrder(order, s[0], rest[j]) {
        assert rest[j] in multiset(rest);
      }
    }
  }

  /**
   * One level sorted by the sort order. Foundation's `sort(using:)` is
   * stood for by an insertion sort; only its result being an ordered
   * permutation of the input is relied on.
   */
  function SortLevel(order: seq<KeyComparator>, s: seq<FileItem>): (r: seq<FileItem>)
    ensures |r| == |s|
    ensures multiset(r) == multiset(s)
    ensures Sorted(order, r)
  {
    if s == [] then []
    else
      assert s == [s[0]] + s[1..];
      InsertSorted(order, s[0], SortLevel(order, s[1..]));
      Insert(order, s[0], SortLevel(order, s[1..]))
  }

  /**
   * `sortItems`. With `keepFoldersOnTop` the directories and the other
   * items are sorted apart and the directories' children re-sorted; the
   * other items are kept as they are. Otherwise the whole level is sorted
   * and every item's children re-sorted.
   */
  function SortItems(cfg: SortConfig, items: seq<FileItem>): (r: seq<FileItem>)
    ensures |r| == |items|
    decreases items, 1
  {
    if cfg.keepFoldersOnTop then
      var folders := SortLevel(cfg.sortOrder, Filtered(IsFolder, items));
      var files := SortLevel(cfg.sortOrder, Rejected(IsFolder, items));
      FilterPartition(IsFolder, items);
      SortedLevelMembers(cfg.sortOrder, Filtered(IsFolder, items), items);
      SortChildrenOfEach(cfg, folders, items) + files
    else
      var sorted := SortLevel(cfg.sortOrder, items);
      SortedLevelMembers(cfg.sortOrder, items, items);
      SortChildrenOfEach(cfg, sorted, items)
  }

  /** Sorting a part of a level keeps its items members of the part and of the level. */
  lemma SortedLevelMembers(order: seq<KeyComparator>, part: seq<FileItem>, s: seq<FileItem>)
    requires forall x | x in part :: x in s
    ensures forall x | x in SortLevel(order, part) :: x in part && x in s
  {
    forall x | x in SortLevel(order, part) ensures x in part {
      assert x in multiset(SortLevel(order, part));
    }
  }

  /**
   * The `map` step of `sortItems`: every item of `level` with its children
   * sorted. `within` is the level being sorted, of which every item of
   * `level` is a member; it only serves the termination argument.
   */
  function SortChildrenOfEach(cfg: SortConfig, level: seq<FileItem>, ghost within: seq<FileItem>): (r: seq<FileItem>)
    requires forall x | x in level :: x in within
    ensures |r| == |level|
    decreases within, 0, |level|
  {
    if level == [] then []
    else
      assert level[0] in within;
      [WithSortedChildren(cfg, level[0])] + SortChildrenOfEach(cfg, level[1..], within)
  }

  /**
   * One item with its children, when present, replaced by their sorted
   * form; nothing else about the item changes.
   */
  function WithSortedChildren(cfg: SortConfig, x: FileItem): (r: FileItem)
    ensures r == x.(children := r.children)
    ensures r.children.NoChildren? <==> x.children.NoChildren?
    ensures r.children.Listed? ==> |r.children.items| == |x.children.items|
    decreases x
  {
    match x.children
    case NoChildren => x
    case Listed(kids) => x.(children := Listed(SortItems(cfg, kids)))
  }
}

/** What `sortItems` guarantees: a permutation of each level, folders first, each part in the sort order. */
module SorterProperties {
  import opened FileItems
  import opened Comparators
  import opened Sequences
  import opened Sorter

  /** How `sortItems` leaves one item of a level: re-sorted children, except for a non-folder when folders are kept on top. */
  function Resorted(cfg: SortConfig, x: FileItem): (r: FileItem)
    ensures r == x.(children := r.children)
    ensures r.children.NoChildren? <==> x.children.NoChildren?
  {
    if cfg.keepFoldersOnTop && !x.isDirectory then x else WithSortedChildren(cfg, x)
  }

  function WithSortedChildrenOf(cfg: SortConfig): FileItem -> FileItem {
    x => WithSortedChildren(cfg, x)
  }

  /** The items of one level as `sortItems` leaves them, in their original order. */
  function ResortedAll(cfg: SortConfig, s: seq<FileItem>): (r: seq<FileItem>)
    ensures |r| == |s|
    ensures forall i | 0 <= i < |s| :: r[i] == Resorted(cfg, s[i])
  {
    Mapped(x => Resorted(cfg, x), s)
  }

  lemma {:induction false} SortChildrenOfEachAt(cfg: SortConfig, level: seq<FileItem>, within: seq<FileItem>)
    requires forall x | x in level :: x in within
    ensures SortChildrenOfEach(cfg, level, within) == Mapped(WithSortedChildrenOf(cfg), level)
    decreases |level|
  {
    if level != [] {
      SortChildrenOfEachAt(cfg, level[1..], within);
    }
  }

  /**
   * `sortItems` neither adds, drops nor duplicates an item: its result is
   * a permutation of the level, each item as `Resorted` leaves it.
   */
  lemma SortItemsPermutes(cfg: SortConfig, items: seq<FileItem>)
    ensures multiset(SortItems(cfg, items)) == multiset(ResortedAll(cfg, items))
  {
    if cfg.keepFoldersOnTop {
      KeptSortPermutes(cfg, items);
    } else {
      MixedSortPermutes(cfg, items);
    }
  }

  lemma KeptSortPermutes(cfg: SortConfig, items: seq<FileItem>)
    requires cfg.keepFoldersOnTop
    ensures multiset(SortItems(cfg, items)) == multiset(ResortedAll(cfg, items))
  {
    var f := WithSortedChildrenOf(cfg);
    var folders := SortLevel(cfg.sortOrder, Filtered(IsFolder, items));
    SortedLevelMembers(cfg.sortOrder, Filtered(IsFolder, items), items);
    SortChildrenOfEachAt(cfg, folders, items);
    MappedPermutation(f, folders, Filtered(IsFolder, items));
    MappedPartition(f, IsFolder, items);
    assert ResortedAll(cfg, items) == Mapped(Choose(IsFolder, f), items);
  }

  lemma MixedSortPermutes(cfg: SortConfig, items: seq<FileItem>)
    requires !cfg.keepFoldersOnTop
    ensures multiset(SortItems(cfg, items)) == multiset(ResortedAll(cfg, items))
  {
    var f := WithSortedChildrenOf(cfg);
    var sorted := SortLevel(cfg.sortOrder, items);
    SortedLevelMembers(cfg.sortOrder, items, items);
    SortChildrenOfEachAt(cfg, sorted, items);
    MappedPermutation(f, sorted, items);
    assert ResortedAll(cfg, items) == Mapped(f, items);
  }

  /** Every item of the result is an item of the level as `Resorted` leaves it. */
  lemma SortItemsMember(cfg: SortConfig, items: seq<FileItem>, x: FileItem)
    requires x in SortItems(cfg, items)
    ensures exists y :: y in items && x == Resorted(cfg, y)
  {
    SortItemsPermutes(cfg, items);
    assert x in multiset(ResortedAll(cfg, items));
    var i :| 0 <= i < |items| && ResortedAll(cfg, items)[i] == x;
    assert items[i] in items;
  }

  /** One level in the order `sortItems` promises. */
  predicate ArrangedLevel(cfg: SortConfig, s: seq<FileItem>) {
    if cfg.keepFoldersOnTop then
      FoldersFirst(s) && Sorted(cfg.sortOrder, Filtered(IsFolder, s)) && Sorted(cfg.sortOrder, Rejected(IsFolder, s))
    else
      Sorted(cfg.sortOrder, s)
  }

  /** Every level of a tree in that order, down every list of children `sortItems` visits. */
  predicate Arranged(cfg: SortConfig, s: seq<FileItem>)
    decreases s
  {
    ArrangedLevel(cfg, s) &&
    forall x | x in s && (!cfg.keepFoldersOnTop || x.isDirectory) && x.children.Listed? ::
      Arranged(cfg, x.children.items)
  }

  lemma SortedIgnoresChildren(order: seq<KeyComparator>, a: seq<FileItem>, b: seq<FileItem>)
    requires |a| == |b| && forall i | 0 <= i < |a| :: SameSortKeys(a[i], b[i])
    requires Sorted(order, a)
    ensures Sorted(order, b)
  {
    forall i, j | 0 <= i < j < |b| ensures InOrder(order, b[i], b[j]) {
      CompareIgnoresChildren(order, a[i], b[i], a[j], b[j]);
    }
  }

  /** The part of a level whose items `sortItems` re-sorts the children of. */
  function Resortable(cfg: SortConfig, items: seq<FileItem>): (r: seq<FileItem>)
    ensures forall x | x in r :: x in items
  {
    if cfg.keepFoldersOnTop then Filtered(IsFolder, items) else items
  }

  /** That part sorted: it heads the result of `sortItems`. */
  function Head(cfg: SortConfig, items: seq<FileItem>): (r: seq<FileItem>)
    ensures forall x | x in r :: x in items
  {
    SortedLevelMembers(cfg.sortOrder, Resortable(cfg, items), items);
    SortLevel(cfg.sortOrder, Resortable(cfg, items))
  }

  /**
   * The result of `sortItems` starts with the sorted re-sortable part, each
   * item with its children sorted; what follows (with folders on top) are
   * the non-folders.
   */
  lemma SortItemsShape(cfg: SortConfig, items: seq<FileItem>)
    ensures |Head(cfg, items)| <= |SortItems(cfg, items)|
    ensures forall i | 0 <= i < |Head(cfg, items)| ::
      SortItems(cfg, items)[i] == WithSortedChildren(cfg, Head(cfg, items)[i])
    ensures forall i | |Head(cfg, items)| <= i < |SortItems(cfg, items)| ::
      cfg.keepFoldersOnTop && !SortItems(cfg, items)[i].isDirectory
  {
    var level := Head(cfg, items);
    SortChildrenOfEachAt(cfg, level, items);
    if cfg.keepFoldersOnTop {
      KeptShape(cfg, items, level, SortChildrenOfEach(cfg, level, items));
    }
  }

  lemma KeptShape(cfg: SortConfig, items: seq<FileItem>, level: seq<FileItem>, heads: seq<FileItem>)
    requires cfg.keepFoldersOnTop && level == Head(cfg, items)
    requires heads == SortChildrenOfEach(cfg, level, items)
    ensures forall i | |heads| <= i < |SortItems(cfg, items)| :: !SortItems(cfg, items)[i].isDirectory
  {
    assert level == SortLevel(cfg.sortOrder, Filtered(IsFolder, items));
    var files := SortLevel(cfg.sortOrder, Rejected(IsFolder, items));
    var r := SortItems(cfg, items);
    assert r == heads + files;
    SortedLevelMembers(cfg.sortOrder, Rejected(IsFolder, items), items);
    ConcatTail(IsNotFolder, heads, files);
  }

  /** Folders followed by non-folders. */
  lemma FoldersThenFiles(a: seq<FileItem>, b: seq<FileItem>)
    requires forall x | x in a :: IsFolder(x)
    requires forall x | x in b :: !IsFolder(x)
    ensures FoldersFirst(a + b)
  {
    var r := a + b;
    forall k | |a| <= k < |r| ensures !r[k].isDirectory {
      assert r[k] == b[k - |a|] && b[k - |a|] in b;
    }
    forall k | 0 <= k < |a| ensures r[k].isDirectory {
      assert r[k] == a[k] && a[k] in a;
    }
  }

  /** The top level of `sortItems`'s result is in the promised order. */
  lemma SortItemsLevelArranged(cfg: SortConfig, items: seq<FileItem>)
    ensures ArrangedLevel(cfg, SortItems(cfg, items))
  {
    var level := Head(cfg, items);
    var sortedLevel := SortChildrenOfEach(cfg, level, items);
    SortChildrenOfEachAt(cfg, level, items);
    SortedIgnoresChildren(cfg.sortOrder, level, sortedLevel);
    if cfg.keepFoldersOnTop {
      KeptLevelArranged(cfg, items, sortedLevel);
    }
  }

  lemma KeptLevelArranged(cfg: SortConfig, items: seq<FileItem>, sortedLevel: seq<FileItem>)
    requires cfg.keepFoldersOnTop
    requires sortedLevel == SortChildrenOfEach(cfg, Head(cfg, items), items)
    requires sortedLevel == Mapped(WithSortedChildrenOf(cfg), Head(cfg, items))
    requires Sorted(cfg.sortOrder, sortedLevel)
    ensures ArrangedLevel(cfg, SortItems(cfg, items))
  {
    var r := SortItems(cfg, items);
    var level := Head(cfg, items);
    assert level == SortLevel(cfg.sortOrder, Filtered(IsFolder, items));
    var files := SortLevel(cfg.sortOrder, Rejected(IsFolder, items));
    assert r == sortedLevel + files;
    SortedLevelMembers(cfg.sortOrder, Filtered(IsFolder, items), items);
    SortedLevelMembers(cfg.sortOrder, Rejected(IsFolder, items), items);
    forall x | x in sortedLevel ensures IsFolder(x) {
      var i :| 0 <= i < |sortedLevel| && sortedLevel[i] == x;
      assert level[i] in level;
    }
    FilterSplit(IsFolder, sortedLevel, files);
    FoldersThenFiles(sortedLevel, files);
  }

  /**
   * With "keep folders on top" every folder precedes every other item at
   * every level, and each part is in the sort order; without it every
   * level is in the sort order.
   */
  lemma {:induction false} SortItemsArranges(cfg: SortConfig, items: seq<FileItem>)
    ensures Arranged(cfg, SortItems(cfg, items))
    decreases items
  {
    var r := SortItems(cfg, items);
    var level := Head(cfg, items);
    SortItemsLevelArranged(cfg, items);
    SortItemsShape(cfg, items);
    forall x | x in r && (!cfg.keepFoldersOnTop || x.isDirectory) && x.children.Listed?
      ensures Arranged(cfg, x.children.items)
    {
      var i :| 0 <= i < |r| && r[i] == x;
      var y := level[i];
      assert y in items;
      SortItemsArranges(cfg, y.children.items);
    }
  }
}
