/**
 * The item model of the folder preview: one `FileItem` per directory entry,
 * with the display helpers that read it.
 */
module FileItems {
  import opened Wrappers

  /** A file URL, represented by its path components (`URL.pathComponents`). */
  type Url = seq<string>

  /**
   * A `FileItem`. `children` stands for Swift's `[FileItem]?`: `NoChildren`
   * is `nil` (a file, or a folder at the depth cutoff) and `Listed` is a
   * present, possibly empty, list.
   */
  datatype FileItem = FileItem(
    id: Url,
    url: Url,
    children: ChildList,
    modificationDate: int,
    fileSize: Option<nat>,
    kind: string,
    isDirectory: bool)

  datatype ChildList = NoChildren | Listed(items: seq<FileItem>)

  /** `URL.lastPathComponent`: the final component, or "" for an empty path. */
  function LastPathComponent(url: Url): (r: string)
    ensures |url| > 0 ==> r == url[|url| - 1]
    ensures |url| == 0 ==> r == ""
  {
    if |url| == 0 then "" else url[|url| - 1]
  }

  /** The key of the Size column: a missing size sorts as 0. */
  function SizeForSorting(item: FileItem): (r: nat)
    ensures item.fileSize.Some? ==> r == item.fileSize.value
    ensures item.fileSize.None? ==> r == 0
  {
    item.fileSize.GetOr(0)
  }

  /** The text shown for a missing size. */
  const UnknownSizeText: string := "--"

  /**
   * The Size column's text. The byte-count formatter is a foreign call and
   * is passed in as `format`; only the missing-size case is fixed here.
   */
  function FileSizeString(item: FileItem, format: nat -> string): (r: string)
    ensures item.fileSize.None? ==> r == UnknownSizeText
    ensures item.fileSize.Some? ==> r == format(item.fileSize.value)
  {
    match item.fileSize
    case None => UnknownSizeText
    case Some(size) => format(size)
  }

  /** An item of unknown size and an item of size 0 sort alike but read differently. */
  lemma {:induction false} UnknownSizeSortsAsEmpty(unknown: FileItem, empty: FileItem, format: nat -> string)
    requires unknown.fileSize.None? && empty.fileSize == Some(0)
    requires format(0) != UnknownSizeText
    ensures SizeForSorting(unknown) == SizeForSorting(empty)
    ensures FileSizeString(unknown, format) != FileSizeString(empty, format)
  {
  }
}
