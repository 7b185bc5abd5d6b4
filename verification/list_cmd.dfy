/** The table helper of the `list` command (`cmd/list.go`). */
module ListCmd {
  import opened Text

  /** Column widths of the subscription table. */
  const NameColumn: int := 20
  const UrlColumn: int := 40

  /** `truncateString`: a string longer than `maxLen` bytes is cut to
      `maxLen - 3` bytes followed by "...". Go panics on the slice when the
      string is too long and `maxLen < 3`, hence the requirement. */
  function TruncateString(s: string, maxLen: int): (r: string)
    requires |s| <= maxLen || 3 <= maxLen
    ensures |r| <= |s|
    ensures |s| <= maxLen ==> r == s
    ensures |s| > maxLen ==> |r| == maxLen && HasPrefix(s, r[..maxLen - 3]) && r[maxLen - 3..] == "..."
  {
    if |s| <= maxLen then s else s[..maxLen - 3] + "..."
  }

  /** A truncated string fits and is left alone by a second truncation. */
  lemma TruncateIdempotent(s: string, maxLen: int)
    requires |s| <= maxLen || 3 <= maxLen
    ensures |TruncateString(s, maxLen)| <= maxLen
    ensures TruncateString(TruncateString(s, maxLen), maxLen) == TruncateString(s, maxLen)
  {
  }

  /** The name and url cells of a table row never exceed their columns. */
  lemma CellsFitColumns(name: string, url: string)
    ensures |TruncateString(name, NameColumn)| <= NameColumn
    ensures |TruncateString(url, UrlColumn)| <= UrlColumn
  {
  }
}
