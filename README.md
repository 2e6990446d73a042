# FolderPreview, modelled in Dafny

FolderPreview is a macOS Quick Look extension that previews a folder. Its
view, `FolderPreviewView`, lists the folder's contents in a table or an icon
grid. It descends into sub-folders up to a configurable depth. It sorts each
level by the table's sort order, optionally keeping folders on top. Each
folder is sized by the sizes of everything beneath it. A path bar shows one
breadcrumb per component of the folder's path.

This project models that view's logic:

- `wrappers.dfy`: `Option`.
- `file_item.dfy`: `FileItem`, with the Size column's sort key and the
  missing-size text. A URL is represented by its path components.
- `preview_settings.dfy`: the `rowHeight` preference's sizes and the
  default folder depth.
- `comparators.dfy`: the four table columns as sort keys, each
  `KeyPathComparator` with its direction, and the lexicographic comparison
  a sort order defines. It proves that this comparison is a total preorder.
- `sequences.dfy`: generic facts about `filter` and `map`.
- `sorter.dfy`: `sortItems`, and what it guarantees:
  - each level is a permutation of its input;
  - with "keep folders on top", folders come first at every level it visits;
  - each part is in the sort order.
- `file_system.dfy`: the file system as a tree of entries, with the
  resource values that may be missing and the directories that cannot be
  listed. It holds the deep enumeration and `calculateDeepSize`.
- `walker.dfy`: `fetchItems`, and what it builds:
  - the kept entries, in listing order;
  - directories sized by their deep size;
  - children present exactly above the depth limit, already sorted.
- `breadcrumbs.dfy`: `pathComponents`.
- `preview.dfy`: the view's state as a class:
  - the preferences, the sort order, and the `@State` fields `items` and
    `totalFolderSize`;
  - `loadContents`, `applySort` and the `onChange` handlers that call them.

Inputs the code reads from the outside world are parameters:

- the file system under the folder (`Node`);
- the current time (`now`, for `Date()`);
- the byte-count formatter (`format`).

Two things the code does not do:

- There is no switch that turns the depth limit off. The settings screen
  (FolderPreview/SettingsView.swift:42-48) offers only a stepper for
  `folderDepth`, so the limit always applies.
- The folder preview has no ZIP archive handling. The app's instructions
  (FolderPreview/HomeView.swift:54) send archives to a separate
  "Archive Preview" extension.

## Model

| member | source | states |
|---|---|---|
| FileItems.SizeForSorting | FolderPreviewExtension/PreviewViewController.swift:72-74 | The Size column's key is the file size, or 0 when it is unknown. |
| FileItems.FileSizeString | FolderPreviewExtension/PreviewViewController.swift:76-79 | An unknown size reads "--"; a known size reads as the formatter renders it. |
| FileItems.LastPathComponent | FolderPreviewExtension/PreviewViewController.swift:253 | The Name column's key is the URL's last component ("" for an empty path). |
| FileItems.UnknownSizeSortsAsEmpty | FolderPreviewExtension/PreviewViewController.swift:72-79 | An item of unknown size sorts like an empty file but shows a different text. |
| PreviewSettings.RowHeightValue | FolderPreviewExtension/PreviewViewController.swift:44-50 | "small" gives 22 points, "large" 40, anything else 30, each in both directions. |
| Comparators.CompareStrings | FolderPreviewExtension/PreviewViewController.swift:253-277 | String keys compare as equal exactly when the strings are equal. |
| Comparators.Compare | FolderPreviewExtension/PreviewViewController.swift:331-332 | The sort order's verdict is a tie exactly when every comparator ties. Otherwise it is the verdict of a comparator before which all others tie, so the first comparator that tells the items apart decides. |
| Comparators.CompareFlip | FolderPreviewExtension/PreviewViewController.swift:58-59 | Swapping two items flips their comparison under any sort order. |
| Comparators.CompareTransitive | FolderPreviewExtension/PreviewViewController.swift:58-59 | The comparison of a sort order is transitive, and equal-at-the-ends forces equal in the middle. |
| Comparators.InOrderTotal | FolderPreviewExtension/PreviewViewController.swift:331-332 | Of two items, one may always precede the other: the order the sort needs is total. |
| Comparators.CompareIgnoresChildren | FolderPreviewExtension/PreviewViewController.swift:253-277 | Items that agree on URL, date, size and kind compare alike, whatever their children. |
| Sorter.SortLevel | FolderPreviewExtension/PreviewViewController.swift:355 | One level sorted by the sort order is an ordered permutation of its input. |
| Sorter.Insert | FolderPreviewExtension/PreviewViewController.swift:355 | Inserting one item adds exactly that item. |
| Sorter.InsertSorted | FolderPreviewExtension/PreviewViewController.swift:355 | Inserting into a sorted level keeps it sorted. |
| Sorter.WithSortedChildren | FolderPreviewExtension/PreviewViewController.swift:343-349 | Re-sorting an item's children changes only its children, keeps a nil list nil, and keeps the list's length. |
| Sorter.SortItems | FolderPreviewExtension/PreviewViewController.swift:325-368 | `sortItems` keeps the number of items. Order, permutation and the children are stated by the SorterProperties rows that follow. |
| Sorter.SortChildrenOfEach | FolderPreviewExtension/PreviewViewController.swift:344-350 | The `map` that re-sorts each item's children keeps the number of items. SorterProperties.SortChildrenOfEachAt gives its items. |
| SorterProperties.SortChildrenOfEachAt | FolderPreviewExtension/PreviewViewController.swift:344-350 | The `map` step is `WithSortedChildren` applied to each item in place, the same item by item for lines 358-364. |
| SorterProperties.SortItemsPermutes | FolderPreviewExtension/PreviewViewController.swift:325-368 | `sortItems` returns a permutation of its input: each folder with re-sorted children, and each other item re-sorted only without "keep folders on top". |
| SorterProperties.SortItemsMember | FolderPreviewExtension/PreviewViewController.swift:325-368 | Every item of the result is an input item with only its children re-sorted. |
| SorterProperties.SortItemsShape | FolderPreviewExtension/PreviewViewController.swift:340-352 | The result starts with the sorted re-sortable part, each item with sorted children; after it come only non-folders. |
| SorterProperties.SortItemsLevelArranged | FolderPreviewExtension/PreviewViewController.swift:327-352 | With folders on top, every folder precedes every non-folder and each part is sorted; otherwise the level is sorted. |
| SorterProperties.SortItemsArranges | FolderPreviewExtension/PreviewViewController.swift:325-368 | That order holds at every level `sortItems` descends into. |
| FileSystem.ReportedSize | FolderPreviewExtension/PreviewViewController.swift:314 | An entry's size is its file size when the read gives one, and 0 otherwise. The entry then adds nothing to the total. |
| FileSystem.Enumerate | FolderPreviewExtension/PreviewViewController.swift:310-313 | The deep enumeration yields every child of a listable directory, and nothing for an unlistable one. |
| FileSystem.EnumerationSum | FolderPreviewExtension/PreviewViewController.swift:309-319 | Adding up the sizes the enumeration yields (0 for unknown) gives the tree's deep size. |
| FileSystem.DeepSizeCoversChildren | FolderPreviewExtension/PreviewViewController.swift:309-319 | A directory's deep size counts each child's own size and deep size. |
| FileSystem.CalculateDeepSize | FolderPreviewExtension/PreviewViewController.swift:309-319 | The loop's total is the deep size of the directory, i.e. the sum of the sizes its enumeration reports. |
| Walker.FetchItems | FolderPreviewExtension/PreviewViewController.swift:370-418 | A directory that cannot be listed yields no items; otherwise there are no more items than entries. |
| Walker.FetchEntries | FolderPreviewExtension/PreviewViewController.swift:373-413 | The `compactMap` over a listing gives at most one item per entry. WalkerProperties.FetchEntriesListing states which entries become which items. |
| Walker.MakeItem | FolderPreviewExtension/PreviewViewController.swift:381-412 | An entry with unreadable resource values gives no item. Otherwise the item has the entry's URL, the directory flag (default false), the date (default now), the deep size for a directory and the reported size for a file, the kind (default "Folder"/"File"), and sorted children exactly when it is a directory above the depth limit. |
| WalkerProperties.FetchEntriesListing | FolderPreviewExtension/PreviewViewController.swift:371-382 | The items are exactly the entries that are readable and, unless hidden files are shown, not hidden. There is one item each, in listing order. |
| WalkerProperties.FetchItemsListing | FolderPreviewExtension/PreviewViewController.swift:370-418 | The same for a listable directory. |
| WalkerProperties.FetchedFrom | FolderPreviewExtension/PreviewViewController.swift:381-412 | Every fetched item is made from a kept child entry of the directory. |
| WalkerProperties.SortKeepsShape | FolderPreviewExtension/PreviewViewController.swift:325-368 | Sorting neither adds nor removes a list of children anywhere in the tree. |
| WalkerProperties.FetchItemsShaped | FolderPreviewExtension/PreviewViewController.swift:397-402 | At every level, an item has children exactly when it is a directory and its level is above `folderDepth`. |
| WalkerProperties.ChildrenShaped | FolderPreviewExtension/PreviewViewController.swift:398-402 | The sorted children of a directory entry have that shape from the next depth on. |
| WalkerProperties.ShapedWithinLevels | FolderPreviewExtension/PreviewViewController.swift:397-402 | A tree with that shape from depth `d` has at most `folderDepth - d + 1` levels, or just one at or below the limit. |
| WalkerProperties.FetchItemsDepthBounded | FolderPreviewExtension/PreviewViewController.swift:296-297 | Fetched from depth `d`, the tree has at most `folderDepth - d + 1` levels. |
| WalkerProperties.FetchedChildrenArranged | FolderPreviewExtension/PreviewViewController.swift:398-402 | Every list of children `fetchItems` builds is already in the order `sortItems` promises. |
| WalkerProperties.UnlistableFolderIsEmpty | FolderPreviewExtension/PreviewViewController.swift:393-417 | A readable directory above the limit whose contents cannot be listed shows as an empty folder of size 0, not as a leaf. |
| WalkerProperties.FetchItemsUniqueIds | FolderPreviewExtension/PreviewViewController.swift:381-411 | When no directory holds two entries of the same name, every fetched item's `id` is its parent's URL plus its own name. No two items on a level share an `id`, and this holds at every level. The `Table` at line 252 keys items by this `id`. |
| WalkerProperties.ChildrenUniqueIds | FolderPreviewExtension/PreviewViewController.swift:398-402 | The sorted children of a directory entry have distinct ids, each one component below the entry's URL. |
| WalkerProperties.SortKeepsIds | FolderPreviewExtension/PreviewViewController.swift:325-368 | Sorting keeps distinct ids distinct, at every level of the tree. |
| Breadcrumbs.Extend | FolderPreviewExtension/PreviewViewController.swift:187-191 | A component's path extends the current one, and is longer except when appending "" to "/". |
| Breadcrumbs.ChainedAbsolute | FolderPreviewExtension/PreviewViewController.swift:183-196 | A chain of breadcrumbs whose first path starts at "/" has every path starting at "/". |
| Breadcrumbs.ChainedGrowing | FolderPreviewExtension/PreviewViewController.swift:183-196 | A chain of non-empty names never repeats a path. |
| Breadcrumbs.PathComponents | FolderPreviewExtension/PreviewViewController.swift:178-199 | The crumbs are: ("Macintosh HD", "/") for a leading "/", then one per other non-"/" component. Each path extends the previous one by its name; a path without the root starts with "/" + name. Every path is absolute, and no two share a path when no component is empty. |
| Preview.FolderPreview.constructor | FolderPreviewExtension/PreviewViewController.swift:40-59 | A new view has every preference at its stored default, the name-forward sort order, no items and a total of 0. |
| Preview.FolderPreview.RowHeight | FolderPreviewExtension/PreviewViewController.swift:44-50 | The row height is one of 22, 30 and 40. |
| Preview.FolderPreview.ApplySort | FolderPreviewExtension/PreviewViewController.swift:321-323 | `items` becomes `sortItems(items)`, arranged and a permutation as above; nothing else changes. |
| Preview.FolderPreview.LoadContents | FolderPreviewExtension/PreviewViewController.swift:296-307 | `items` becomes the sorted fetch from depth 1 and `totalFolderSize` the folder's deep size; the preferences do not change. |
| Preview.FolderPreview.SetSortOrder | FolderPreviewExtension/PreviewViewController.swift:109-111 | A new sort order re-sorts the items, a second time while the table is shown (it has its own handler, lines 279-281). Setting the order already in place changes nothing. |
| Preview.FolderPreview.SetShowHiddenFiles | FolderPreviewExtension/PreviewViewController.swift:103 | A change of the preference reloads the contents under the new value. The items come out in `sortItems` order and the total becomes the folder's deep size. Assigning the value already set leaves the items and the total as they were, since `onChange` fires only on a change. The other preferences, the view style and the row height keep their values. |
| Preview.FolderPreview.SetKeepFoldersOnTop | FolderPreviewExtension/PreviewViewController.swift:104 | A change of the preference reloads the contents under the new value. The items come out in `sortItems` order and the total becomes the folder's deep size. Assigning the value already set leaves the items and the total as they were, since `onChange` fires only on a change. The other preferences, the view style and the row height keep their values. |
| Preview.FolderPreview.SetExpandChildFolders | FolderPreviewExtension/PreviewViewController.swift:105-107 | A change of the preference reloads the contents under the new value. The items come out in `sortItems` order and the total becomes the folder's deep size. Assigning the value already set leaves the items and the total as they were, since `onChange` fires only on a change. The other preferences, the view style and the row height keep their values. |
| Preview.FolderPreview.SetFolderDepth | FolderPreviewExtension/PreviewViewController.swift:108 | A change of the depth reloads the contents under the new value. The items come out in `sortItems` order and the total becomes the folder's deep size. Assigning the value already set leaves the items and the total as they were, since `onChange` fires only on a change. The other preferences, the view style and the row height keep their values. |

## Left out

- Real file-system access is not modelled. `FileManager`, resource values and hidden-file flags are fields of the `Node` tree.
- The `DispatchQueue` work is not modelled. `loadContents` computes the total on a background queue and assigns it on the main queue; the model assigns it in line, so no interleaving with other updates is modelled.
- `Date()` is not modelled. Each `values.contentModificationDate ?? Date()` reads the clock; the model takes one `now` for the whole fetch.
- Foundation's `sort(using:)` is stood for by an insertion sort. Only "sorted by the comparator and a permutation" is claimed, with no stability or idempotence. The second sort that `SetSortOrder` performs while the table is shown is therefore not claimed to be a no-op.
- String order is not modelled. The Name and Kind keys compare strings by code point, not by Foundation's string comparison; only the total-preorder properties the sort needs are relied on.
- CalculateDeepSize: sizes are unbounded naturals. Swift's `Int64` addition in `total += Int64(s)` would trap on overflow, which is not modelled.
- One `metadata` value stands for two separate reads of an entry's resource values: the four-key read in `fetchItems` (FolderPreviewExtension/PreviewViewController.swift:382) and the `.fileSizeKey` read in `calculateDeepSize` (line 314). The model lets both succeed or both fail together; an entry whose two reads disagree is not modelled.
- One `listable` flag stands for two separate calls on a directory: the shallow `contentsOfDirectory` listing in `fetchItems` (FolderPreviewExtension/PreviewViewController.swift:379) and the deep `enumerator(at:)` in `calculateDeepSize` (line 310). The model lets both succeed or both fail together. When they fail, the directory has no items and a deep size of 0; UnlistableFolderIsEmpty rests on this. A directory where one call succeeds and the other fails is not modelled. A readable empty directory is a listable `Node` with no children.
- FileSizeString: `ByteCountFormatter` is a foreign call and is a parameter; only the "--" case is fixed.
- The date formatter (`dateString`), `statusDescription`, icons, thumbnails and all SwiftUI layout are presentation and are not modelled.
- The `viewStyle` preference is modelled only as far as it decides whether the table, and so the table's sort-order handler, is on screen.
- `showPathBar` and `AutoExpandView` only affect presentation. The app's other screens hold no folder-preview logic.
- SetFolderDepth: takes any depth. The settings stepper keeps `folderDepth` within 1...20 (FolderPreview/SettingsView.swift:44), but no property here depends on that range.
- FetchItemsUniqueIds: assumes sibling names are distinct (`DistinctNames`), as a file system guarantees. A `Node` tree with two siblings of the same name would give two items the same `id`.
- Preview.FolderPreview.constructor: stands for a view with nothing stored yet. Each `@AppStorage` property reads the value stored in the app group, if there is one, and falls back to its declared default otherwise. Stored values other than the defaults are reached by assigning the fields.
- Dates are integers. `modificationDate` and `now` stand for Foundation's `Date`, a floating-point time interval. The model only compares dates for equality and order, so nothing it states depends on the representation.
- `PreviewViewController` only hosts the view and is not modelled.
