/** The stored preferences the preview reads, with their defaults. */
module PreviewSettings {

  /** Default of the `folderDepth` preference. */
  const DefaultFolderDepth: int := 7

  /**
   * Row height in points for the `rowHeight` preference: "small" and
   * "large" are recognised, anything else is medium.
   */
  function RowHeightValue(rowHeight: string): (r: int)
    ensures r == 22 <==> rowHeight == "small"
    ensures r == 40 <==> rowHeight == "large"
    ensures r == 30 <==> (rowHeight != "small" && rowHeight != "large")
  {
    if rowHeight == "small" then 22
    else if rowHeight == "large" then 40
    else 30
  }
}
