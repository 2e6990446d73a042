/**
 * The state of `FolderPreviewView`: the stored preferences it reads, the
 * table's sort order, and the `@State` fields `items` and
 * `totalFolderSize` that loading and sorting assign.
 */
module Preview {
  import opened FileItems
  import opened FileSystem
  import opened Comparators
  import opened Sorter
  import opened SorterProperties
  import opened Walker
  import opened PreviewSettings

  /** The `viewStyle` value that shows the icon grid instead of the table. */
  const IconsStyle: string := "icons"

  class FolderPreview {
    const folderUrl: Url
    var viewStyle: string
    var rowHeight: string
    var showHiddenFiles: bool
    var keepFoldersOnTop: bool
    var expandChildFolders: bool
    var folderDepth: int
    var sortOrder: seq<KeyComparator>
    var items: seq<FileItem>
    var totalFolderSize: nat

    /** A fresh view with every preference at its default. */
    constructor (folderUrl: Url)
      ensures this.folderUrl == folderUrl
      ensures viewStyle == "list" && rowHeight == "small"
      ensures !showHiddenFiles && keepFoldersOnTop && expandChildFolders
      ensures folderDepth == DefaultFolderDepth
      ensures sortOrder == DefaultSortOrder
      ensures items == [] && totalFolderSize == 0
    {
      this.folderUrl := folderUrl;
      viewStyle := "list";
      rowHeight := "small";
      showHiddenFiles := false;
      keepFoldersOnTop := true;
      expandChildFolders := true;
      folderDepth := DefaultFolderDepth;
      sortOrder := DefaultSortOrder;
      items := [];
      totalFolderSize := 0;
    }

    function SortCfg(): SortConfig
      reads this
    {
      SortConfig(keepFoldersOnTop, sortOrder)
    }

    function WalkCfg(): WalkConfig
      reads this
    {
      WalkConfig(showHiddenFiles, folderDepth, SortCfg())
    }

    /** The table (and with it its own sort-order handler) is on screen. */
    predicate TableShown()
      reads this
    {
      items != [] && viewStyle != IconsStyle
    }

    /** `rowHeightValue`. */
    function RowHeight(): (r: int)
      reads this
      ensures r == 22 || r == 30 || r == 40
    {
      RowHeightValue(rowHeight)
    }

    /** `applySort`: re-sort the items in the current sort order. */
    method ApplySort()
      modifies this
      ensures items == SortItems(SortCfg(), old(items))
      ensures Arranged(SortCfg(), items)
      ensures multiset(items) == multiset(ResortedAll(SortCfg(), old(items)))
      ensures sortOrder == old(sortOrder) && totalFolderSize == old(totalFolderSize)
      ensures viewStyle == old(viewStyle) && rowHeight == old(rowHeight)
      ensures showHiddenFiles == old(showHiddenFiles) && keepFoldersOnTop == old(keepFoldersOnTop)
      ensures expandChildFolders == old(expandChildFolders) && folderDepth == old(folderDepth)
    {
      SortItemsArranges(SortCfg(), items);
      SortItemsPermutes(SortCfg(), items);
      items := SortItems(SortCfg(), items);
    }

    /**
     * `loadContents`: list the folder from depth 1, sort the result, and
     * set the total to the folder's deep size. `folder` is the file system
     * under `folderUrl`; `now` stands for `Date()`.
     */
    method LoadContents(folder: Node, now: int)
      modifies this
      ensures items == SortItems(SortCfg(), FetchItems(WalkCfg(), now, folder, folderUrl, 1))
      ensures Arranged(SortCfg(), items)
      ensures totalFolderSize == DeepSize(folder)
      ensures sortOrder == old(sortOrder)
      ensures viewStyle == old(viewStyle) && rowHeight == old(rowHeight)
      ensures showHiddenFiles == old(showHiddenFiles) && keepFoldersOnTop == old(keepFoldersOnTop)
      ensures expandChildFolders == old(expandChildFolders) && folderDepth == old(folderDepth)
    {
      var cfg := WalkCfg();
      items := FetchItems(cfg, now, folder, folderUrl, 1);
      ghost var fetched := items;
      ApplySort();
      assert WalkCfg() == cfg;
      assert items == SortItems(cfg.sort, fetched);
      var size := CalculateDeepSize(folder);
      totalFolderSize := size;
    }

    /**
     * A new sort order from the table's column headers. Both the view's
     * and the table's `onChange(of: sortOrder)` handlers run `applySort`,
     * the latter only while the table is on screen; neither runs when the
     * order is the one already set.
     */
    method SetSortOrder(order: seq<KeyComparator>)
      modifies this
      ensures sortOrder == order
      ensures order == old(sortOrder) ==> items == old(items)
      ensures order != old(sortOrder) && old(TableShown()) ==>
        items == SortItems(SortCfg(), SortItems(SortCfg(), old(items))) && Arranged(SortCfg(), items)
      ensures order != old(sortOrder) && !old(TableShown()) ==>
        items == SortItems(SortCfg(), old(items)) && Arranged(SortCfg(), items)
      ensures totalFolderSize == old(totalFolderSize)
      ensures viewStyle == old(viewStyle) && rowHeight == old(rowHeight)
      ensures showHiddenFiles == old(showHiddenFiles) && keepFoldersOnTop == old(keepFoldersOnTop)
      ensures expandChildFolders == old(expandChildFolders) && folderDepth == old(folderDepth)
    {
      if order != sortOrder {
        var shown := TableShown();
        sortOrder := order;
        ApplySort();
        if shown {
          ApplySort();
        }
      }
    }

    /** A change of `showHiddenFiles` reloads the contents; assigning the value it already has does nothing. */
    method SetShowHiddenFiles(value: bool, folder: Node, now: int)
      modifies this
      ensures showHiddenFiles == value
      ensures value == old(showHiddenFiles) ==> items == old(items) && totalFolderSize == old(totalFolderSize)
      ensures value != old(showHiddenFiles) ==>
        && items == SortItems(SortCfg(), FetchItems(WalkCfg(), now, folder, folderUrl, 1))
        && Arranged(SortCfg(), items)
        && totalFolderSize == DeepSize(folder)
      ensures viewStyle == old(viewStyle) && rowHeight == old(rowHeight)
      ensures sortOrder == old(sortOrder) && keepFoldersOnTop == old(keepFoldersOnTop)
      ensures expandChildFolders == old(expandChildFolders) && folderDepth == old(folderDepth)
    {
      if value != showHiddenFiles {
        showHiddenFiles := value;
        LoadContents(folder, now);
      }
    }

    /** A change of `keepFoldersOnTop` reloads the contents; assigning the value it already has does nothing. */
    method SetKeepFoldersOnTop(value: bool, folder: Node, now: int)
      modifies this
      ensures keepFoldersOnTop == value
      ensures value == old(keepFoldersOnTop) ==> items == old(items) && totalFolderSize == old(totalFolderSize)
      ensures value != old(keepFoldersOnTop) ==>
        && items == SortItems(SortCfg(), FetchItems(WalkCfg(), now, folder, folderUrl, 1))
        && Arranged(SortCfg(), items)
        && totalFolderSize == DeepSize(folder)
      ensures viewStyle == old(viewStyle) && rowHeight == old(rowHeight)
      ensures sortOrder == old(sortOrder) && showHiddenFiles == old(showHiddenFiles)
      ensures expandChildFolders == old(expandChildFolders) && folderDepth == old(folderDepth)
    {
      if value != keepFoldersOnTop {
        keepFoldersOnTop := value;
        LoadContents(folder, now);
      }
    }

    /** A change of `expandChildFolders` reloads the contents; assigning the value it already has does nothing. */
    method SetExpandChildFolders(value: bool, folder: Node, now: int)
      modifies this
      ensures expandChildFolders == value
      ensures value == old(expandChildFolders) ==> items == old(items) && totalFolderSize == old(totalFolderSize)
      ensures value != old(expandChildFolders) ==>
        && items == SortItems(SortCfg(), FetchItems(WalkCfg(), now, folder, folderUrl, 1))
        && Arranged(SortCfg(), items)
        && totalFolderSize == DeepSize(folder)
      ensures viewStyle == old(viewStyle) && rowHeight == old(rowHeight)
      ensures sortOrder == old(sortOrder) && showHiddenFiles == old(showHiddenFiles)
      ensures keepFoldersOnTop == old(keepFoldersOnTop) && folderDepth == old(folderDepth)
    {
      if value != expandChildFolders {
        expandChildFolders := value;
        LoadContents(folder, now);
      }
    }

    /** A change of `folderDepth` reloads the contents; assigning the value it already has does nothing. */
    method SetFolderDepth(value: int, folder: Node, now: int)
      modifies this
      ensures folderDepth == value
      ensures value == old(folderDepth) ==> items == old(items) && totalFolderSize == old(totalFolderSize)
      ensures value != old(folderDepth) ==>
        && items == SortItems(SortCfg(), FetchItems(WalkCfg(), now, folder, folderUrl, 1))
        && Arranged(SortCfg(), items)
        && totalFolderSize == DeepSize(folder)
      ensures viewStyle == old(viewStyle) && rowHeight == old(rowHeight)
      ensures sortOrder == old(sortOrder) && showHiddenFiles == old(showHiddenFiles)
      ensures keepFoldersOnTop == old(keepFoldersOnTop) && expandChildFolders == old(expandChildFolders)
    {
      if value != folderDepth {
        folderDepth := value;
        LoadContents(folder, now);
      }
    }
  }
}
