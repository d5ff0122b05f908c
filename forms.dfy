// What every form screen does with a text field: the "required" check on its
// trimmed text, and a blank optional text stored as null.
module FormFields {
  import opened Wrappers
  import opened Text

  /** Kotlin's `text.trim().isEmpty()`. */
  function TrimsToEmpty(text: string): (b: bool)
    ensures b <==> IsBlank(text)
  {
    TrimEmptyIffBlank(text);
    Trim(text) == []
  }

  /** A check whose else-branch clears the layout's error: the message when the text is blank, null otherwise. */
  function RequiredError(text: string, message: string): (e: Option<string>)
    ensures e.Some? <==> IsBlank(text)
    ensures e.Some? ==> e.value == message
  {
    if TrimsToEmpty(text) then Some(message) else None
  }

  /** A check with no else-branch: a blank text sets the message, any other text leaves the error shown before. */
  function StickyRequiredError(text: string, message: string, shown: Option<string>): (e: Option<string>)
    ensures IsBlank(text) ==> e == Some(message)
    ensures !IsBlank(text) ==> e == shown
  {
    if TrimsToEmpty(text) then Some(message) else shown
  }

  /** `text.trim().ifEmpty { null }`: the trimmed text, or null when trimming leaves nothing. */
  function BlankToNull(text: string): (r: Option<string>)
    ensures r.None? <==> IsBlank(text)
    ensures r.Some? ==> r.value != [] && Trimmed(r.value) && r.value == Trim(text)
  {
    TrimEmptyIffBlank(text);
    TrimIsTrimmed(text);
    if Trim(text) == [] then None else Some(Trim(text))
  }

  /** A present value that is non-empty and trimmed survives being shown as text (`?: ""`) and read back. */
  lemma BlankToNullKeeps(v: Option<string>)
    requires v.Some? ==> v.value != [] && Trimmed(v.value)
    ensures BlankToNull(v.GetOr("")) == v
  {
    if v.Some? {
      TrimIsTrimmed(v.value);
    }
  }
}
