/**
 * `fetchItems`: list a directory, turn every readable entry into a
 * `FileItem`, and descend into directories until the configured depth.
 */
module Walker {
  import opened Wrappers
  import opened FileItems
  import opened FileSystem
  import opened Sequences
  import opened Sorter

  /** The preferences `fetchItems` reads. */
  datatype WalkConfig = WalkConfig(showHiddenFiles: bool, folderDepth: int, sort: SortConfig)

  const FolderKind: string := "Folder"
  const FileKind: string := "File"

  /** The entries `fetchItems` turns into items: readable ones, and hidden ones only when shown. */
  predicate Kept(cfg: WalkConfig, e: Node) {
    e.metadata.Some? && (cfg.showHiddenFiles || !e.hidden)
  }

  function KeptOf(cfg: WalkConfig): Node -> bool {
    e => Kept(cfg, e)
  }

  /**
   * `fetchItems(at:currentDepth:)`. A directory that cannot be listed
   * yields no items.
   */
  function FetchItems(cfg: WalkConfig, now: int, dir: Node, url: Url, currentDepth: int): (r: seq<FileItem>)
    ensures !dir.listable ==> r == []
    ensures |r| <= |dir.children|
    decreases dir, 1
  {
    if dir.listable then FetchEntries(cfg, now, dir.children, url, currentDepth) else []
  }

  /**
   * The `compactMap` over the directory's contents, with the hidden
   * entries skipped when they are not shown.
   */
  function FetchEntries(cfg: WalkConfig, now: int, entries: seq<Node>, url: Url, currentDepth: int): (r: seq<FileItem>)
    ensures |r| <= |entries|
    decreases entries, 0
  {
    if entries == [] then []
    else
      var rest := FetchEntries(cfg, now, entries[1..], url, currentDepth);
      if !cfg.showHiddenFiles && entries[0].hidden then rest
      else
        match MakeItem(cfg, now, entries[0], url, currentDepth)
        case None => rest
        case Some(item) => [item] + rest
  }

  /**
   * The closure of the `compactMap`: no item when the resource values
   * cannot be read; otherwise a directory is sized by its deep size and,
   * below the depth limit, gets its sorted children.
   */
  function MakeItem(cfg: WalkConfig, now: int, e: Node, url: Url, currentDepth: int): (r: Option<FileItem>)
    ensures r.None? <==> e.metadata.None?
    ensures r.Some? ==> r.value.url == r.value.id == url + [e.name]
    ensures r.Some? ==> r.value.isDirectory == e.metadata.value.isDirectory.GetOr(false)
    ensures r.Some? ==> r.value.modificationDate == e.metadata.value.modificationDate.GetOr(now)
    ensures r.Some? && r.value.isDirectory ==> r.value.fileSize == Some(DeepSize(e))
    ensures r.Some? && !r.value.isDirectory ==> r.value.fileSize == e.metadata.value.fileSize
    ensures r.Some? ==> r.value.kind == e.metadata.value.typeDescription.GetOr(if r.value.isDirectory then FolderKind else FileKind)
    ensures r.Some? ==> (r.value.children.Listed? <==> r.value.isDirectory && currentDepth < cfg.folderDepth)
    ensures r.Some? && r.value.children.Listed? ==>
      r.value.children.items == SortItems(cfg.sort, FetchItems(cfg, now, e, url + [e.name], currentDepth + 1))
    decreases e, 2
  {
    match e.metadata
    case None => None
    case Some(values) =>
      var isDir := values.isDirectory.GetOr(false);
      var date := values.modificationDate.GetOr(now);
      var size := if isDir then Some(DeepSize(e)) else values.fileSize;
      var kind := values.typeDescription.GetOr(if isDir then FolderKind else FileKind);
      var fileUrl := url + [e.name];
      var children :=
        if isDir && currentDepth < cfg.folderDepth then
          Listed(SortItems(cfg.sort, FetchItems(cfg, now, e, fileUrl, currentDepth + 1)))
        else NoChildren;
      Some(FileItem(fileUrl, fileUrl, children, date, size, kind, isDir))
  }
}

/** What `fetchItems` guarantees about the listing and the tree it builds. */
module WalkerProperties {
  import opened Wrappers
  import opened FileItems
  import opened FileSystem
  import opened Sequences
  import opened Sorter
  import opened SorterProperties
  import opened Walker

  /**
   * The items are the kept entries, one each, in listing order, each
   * made by `MakeItem`: unreadable entries, and hidden ones when hidden
   * files are not shown, are left out and nothing else is.
   */
  lemma {:induction false} FetchEntriesListing(cfg: WalkConfig, now: int, entries: seq<Node>, url: Url, d: int)
    ensures |FetchEntries(cfg, now, entries, url, d)| == |Filtered(KeptOf(cfg), entries)|
    ensures forall i | 0 <= i < |Filtered(KeptOf(cfg), entries)| ::
      MakeItem(cfg, now, Filtered(KeptOf(cfg), entries)[i], url, d) == Some(FetchEntries(cfg, now, entries, url, d)[i])
    decreases |entries|
  {
    if entries != [] {
      FetchEntriesListing(cfg, now, entries[1..], url, d);
      var kept := Filtered(KeptOf(cfg), entries);
      var keptRest := Filtered(KeptOf(cfg), entries[1..]);
      if Kept(cfg, entries[0]) {
        assert kept == [entries[0]] + keptRest;
      } else {
        assert kept == keptRest;
      }
    }
  }

  lemma FetchItemsListing(cfg: WalkConfig, now: int, dir: Node, url: Url, d: int)
    requires dir.listable
    ensures |FetchItems(cfg, now, dir, url, d)| == |Filtered(KeptOf(cfg), dir.children)|
    ensures forall i | 0 <= i < |Filtered(KeptOf(cfg), dir.children)| ::
      MakeItem(cfg, now, Filtered(KeptOf(cfg), dir.children)[i], url, d) == Some(FetchItems(cfg, now, dir, url, d)[i])
  {
    FetchEntriesListing(cfg, now, dir.children, url, d);
  }

  /** Every fetched item comes from a kept child entry of the directory. */
  lemma FetchedFrom(cfg: WalkConfig, now: int, dir: Node, url: Url, d: int, x: FileItem)
    requires x in FetchItems(cfg, now, dir, url, d)
    ensures exists e :: e in dir.children && Kept(cfg, e) && MakeItem(cfg, now, e, url, d) == Some(x)
  {
    FetchItemsListing(cfg, now, dir, url, d);
    var kept := Filtered(KeptOf(cfg), dir.children);
    var i :| 0 <= i < |FetchItems(cfg, now, dir, url, d)| && FetchItems(cfg, now, dir, url, d)[i] == x;
    assert kept[i] in kept;
  }

  /**
   * At every level, starting from depth `d`: an item has children exactly
   * when it is a directory and the level is above `depth`.
   */
  predicate DepthShaped(items: seq<FileItem>, d: int, depth: int)
    decreases items
  {
    forall x | x in items ::
      (x.children.Listed? <==> x.isDirectory && d < depth) &&
      (x.children.Listed? ==> DepthShaped(x.children.items, d + 1, depth))
  }

  /** At most `h` levels of items: none at all when `h` is 0. */
  predicate WithinLevels(items: seq<FileItem>, h: nat)
    decreases items
  {
    forall x | x in items ::
      h >= 1 && (x.children.Listed? ==> WithinLevels(x.children.items, h - 1))
  }

  /** Sorting neither adds nor removes a list of children anywhere in the tree. */
  lemma {:induction false} SortKeepsShape(cfg: SortConfig, items: seq<FileItem>, d: int, depth: int)
    requires DepthShaped(items, d, depth)
    ensures DepthShaped(SortItems(cfg, items), d, depth)
    decreases items
  {
    forall x | x in SortItems(cfg, items)
      ensures (x.children.Listed? <==> x.isDirectory && d < depth)
      ensures x.children.Listed? ==> DepthShaped(x.children.items, d + 1, depth)
    {
      SortItemsMember(cfg, items, x);
      var y :| y in items && x == Resorted(cfg, y);
      if x.children.Listed? && x != y {
        SortKeepsShape(cfg, y.children.items, d + 1, depth);
      }
    }
  }

  /** `fetchItems` builds children exactly for the directories above the depth limit, at every level. */
  lemma {:induction false} FetchItemsShaped(cfg: WalkConfig, now: int, dir: Node, url: Url, d: int)
    ensures DepthShaped(FetchItems(cfg, now, dir, url, d), d, cfg.folderDepth)
    decreases dir, 1
  {
    forall x | x in FetchItems(cfg, now, dir, url, d)
      ensures (x.children.Listed? <==> x.isDirectory && d < cfg.folderDepth)
      ensures x.children.Listed? ==> DepthShaped(x.children.items, d + 1, cfg.folderDepth)
    {
      FetchedFrom(cfg, now, dir, url, d, x);
      var e :| e in dir.children && Kept(cfg, e) && MakeItem(cfg, now, e, url, d) == Some(x);
      if x.children.Listed? {
        ChildrenShaped(cfg, now, e, url + [e.name], d);
      }
    }
  }

  /** The sorted children a directory entry gets are shaped from the next depth on. */
  lemma {:induction false} ChildrenShaped(cfg: WalkConfig, now: int, e: Node, fileUrl: Url, d: int)
    ensures DepthShaped(SortItems(cfg.sort, FetchItems(cfg, now, e, fileUrl, d + 1)), d + 1, cfg.folderDepth)
    decreases e, 2
  {
    FetchItemsShaped(cfg, now, e, fileUrl, d + 1);
    SortKeepsShape(cfg.sort, FetchItems(cfg, now, e, fileUrl, d + 1), d + 1, cfg.folderDepth);
  }

  /** A tree shaped by the depth limit has no more levels than the limit leaves. */
  lemma {:induction false} ShapedWithinLevels(items: seq<FileItem>, d: int, depth: int)
    requires DepthShaped(items, d, depth)
    ensures WithinLevels(items, if d < depth then depth - d + 1 else 1)
    decreases items
  {
    forall x | x in items
      ensures x.children.Listed? ==> WithinLevels(x.children.items, (if d < depth then depth - d + 1 else 1) - 1)
    {
      if x.children.Listed? {
        ShapedWithinLevels(x.children.items, d + 1, depth);
      }
    }
  }

  /**
   * Fetched from depth `d` with depth limit `D`, the tree has at most
   * `D - d + 1` levels (one when `d` is already at the limit).
   */
  lemma FetchItemsDepthBounded(cfg: WalkConfig, now: int, dir: Node, url: Url, d: int)
    ensures WithinLevels(FetchItems(cfg, now, dir, url, d), if d < cfg.folderDepth then cfg.folderDepth - d + 1 else 1)
  {
    FetchItemsShaped(cfg, now, dir, url, d);
    ShapedWithinLevels(FetchItems(cfg, now, dir, url, d), d, cfg.folderDepth);
  }

  /** Every list of children `fetchItems` builds is already sorted as `sortItems` leaves it. */
  lemma FetchedChildrenArranged(cfg: WalkConfig, now: int, dir: Node, url: Url, d: int, x: FileItem)
    requires x in FetchItems(cfg, now, dir, url, d) && x.children.Listed?
    ensures Arranged(cfg.sort, x.children.items)
  {
    FetchedFrom(cfg, now, dir, url, d, x);
    var e :| e in dir.children && Kept(cfg, e) && MakeItem(cfg, now, e, url, d) == Some(x);
    SortItemsArranges(cfg.sort, FetchItems(cfg, now, e, url + [e.name], d + 1));
  }

  function NameOf(e: Node): string {
    e.name
  }

  function IdOf(x: FileItem): Url {
    x.id
  }

  /** No directory of the tree holds two entries of the same name, as in a real file system. */
  predicate DistinctNames(n: Node)
    decreases n
  {
    DistinctBy(NameOf, n.children) && forall c | c in n.children :: DistinctNames(c)
  }

  /**
   * At every level below `url`: each item's `id` is `url` extended by one
   * component, no two items of the level share an `id`, and the children
   * of an item lie below its own `id`. The table keys its rows by `id`.
   */
  predicate UniqueIds(items: seq<FileItem>, url: Url)
    decreases items
  {
    && DistinctBy(IdOf, items)
    && forall x | x in items ::
      |x.id| == |url| + 1 && url <= x.id &&
      (x.children.Listed? ==> UniqueIds(x.children.items, x.id))
  }

  /** `sortItems` moves items but leaves every `id` as it was. */
  lemma {:induction false} SortKeepsIds(cfg: SortConfig, items: seq<FileItem>, url: Url)
    requires UniqueIds(items, url)
    ensures UniqueIds(SortItems(cfg, items), url)
    decreases items
  {
    var r, res := SortItems(cfg, items), ResortedAll(cfg, items);
    SortItemsPermutes(cfg, items);
    forall i, j | 0 <= i < j < |res| ensures IdOf(res[i]) != IdOf(res[j]) {
      assert res[i].id == items[i].id && res[j].id == items[j].id;
    }
    DistinctByPermutation(IdOf, res, r);
    forall x | x in r
      ensures |x.id| == |url| + 1 && url <= x.id
      ensures x.children.Listed? ==> UniqueIds(x.children.items, x.id)
    {
      SortItemsMember(cfg, items, x);
      var y :| y in items && x == Resorted(cfg, y);
      if x.children.Listed? && x != y {
        SortKeepsIds(cfg, y.children.items, y.id);
      }
    }
  }

  /** In a tree whose sibling names differ, `fetchItems` gives every item its own `id`. */
  lemma {:induction false} FetchItemsUniqueIds(cfg: WalkConfig, now: int, dir: Node, url: Url, d: int)
    requires DistinctNames(dir)
    ensures UniqueIds(FetchItems(cfg, now, dir, url, d), url)
    decreases dir, 1
  {
    var r := FetchItems(cfg, now, dir, url, d);
    if dir.listable {
      FetchItemsListing(cfg, now, dir, url, d);
      var kept := Filtered(KeptOf(cfg), dir.children);
      FilteredDistinctBy(KeptOf(cfg), NameOf, dir.children);
      forall i, j | 0 <= i < j < |r| ensures IdOf(r[i]) != IdOf(r[j]) {
        assert r[i].id == url + [kept[i].name] && r[j].id == url + [kept[j].name];
        assert NameOf(kept[i]) != NameOf(kept[j]);
        assert r[i].id[|url|] == kept[i].name && r[j].id[|url|] == kept[j].name;
      }
    }
    forall x | x in r
      ensures |x.id| == |url| + 1 && url <= x.id
      ensures x.children.Listed? ==> UniqueIds(x.children.items, x.id)
    {
      FetchedFrom(cfg, now, dir, url, d, x);
      var e :| e in dir.children && Kept(cfg, e) && MakeItem(cfg, now, e, url, d) == Some(x);
      if x.children.Listed? {
        ChildrenUniqueIds(cfg, now, e, url + [e.name], d);
      }
    }
  }

  /** The sorted children a directory entry gets have their own ids below the entry's. */
  lemma {:induction false} ChildrenUniqueIds(cfg: WalkConfig, now: int, e: Node, fileUrl: Url, d: int)
    requires DistinctNames(e)
    ensures UniqueIds(SortItems(cfg.sort, FetchItems(cfg, now, e, fileUrl, d + 1)), fileUrl)
    decreases e, 2
  {
    FetchItemsUniqueIds(cfg, now, e, fileUrl, d + 1);
    SortKeepsIds(cfg.sort, FetchItems(cfg, now, e, fileUrl, d + 1), fileUrl);
  }

  /** A directory below the limit whose contents cannot be listed shows as an empty folder, not a leaf. */
  lemma UnlistableFolderIsEmpty(cfg: WalkConfig, now: int, e: Node, url: Url, d: int)
    requires e.metadata.Some? && e.metadata.value.isDirectory == Some(true) && !e.listable
    requires d < cfg.folderDepth
    ensures MakeItem(cfg, now, e, url, d).Some?
    ensures MakeItem(cfg, now, e, url, d).value.children == Listed([])
    ensures MakeItem(cfg, now, e, url, d).value.fileSize == Some(0)
  {
  }
}
