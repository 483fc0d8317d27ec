/** The note card: the content preview and the date line. */
module NoteCard {
  import opened Wrappers
  import opened Text

  const PreviewLength := 120

  /** `contentPreview`: a content of at most 120 characters is shown whole; a longer one is cut
      to a 123-character text made of its first 120 characters and an ellipsis. */
  function ContentPreview(content: string): (r: string)
    ensures |content| <= 120 ==> r == content
    ensures |content| > 120 ==> |r| == 123 && StartsWith(r, content[..120]) && StartsWith(content, r[..120])
    ensures |r| <= 123
  {
    if |content| > PreviewLength then content[..PreviewLength] + "..." else content
  }

  /** The date line: none, the update date, or the creation date, each with the raw value it
      formats. */
  datatype DateLine = NoDate | Updated(raw: string) | Created(raw: string)

  /** A date string counts as present when it is neither null nor "". */
  predicate Present(d: Option<string>) {
    d.Some? && d.value != ""
  }

  /** The update date wins when present, the creation date is used only without it, there is
      no line only when both are absent, and the value formatted is never empty. */
  function DateLineOf(createdAt: Option<string>, updatedAt: Option<string>): (r: DateLine)
    ensures r == NoDate <==> !Present(createdAt) && !Present(updatedAt)
    ensures Present(updatedAt) ==> r == Updated(updatedAt.value)
    ensures r.Created? ==> (!Present(updatedAt) && r.raw == createdAt.value)
    ensures !r.NoDate? ==> r.raw != ""
  {
    if !(Present(createdAt) || Present(updatedAt)) then NoDate
    else if Present(updatedAt) then Updated(updatedAt.value)
    else Created(createdAt.value)
  }
}
