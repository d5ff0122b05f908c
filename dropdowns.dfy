// The worker and site dropdowns: each entry reads "<id>: <name>", and the
// screens recover the id as `substringBefore(":").trim().toLong()`.
module Dropdowns {
  import opened Wrappers
  import opened Text

  /** `"${id}: ${name}"`. */
  function EncodeItem(id: int, name: string): (item: string)
    ensures |item| > 0 && (item[0] == '-' || IsDigit(item[0]))
  {
    LongToString(id) + ": " + name
  }

  /** The id an entry names; None where toLong() throws. */
  function DecodeItem(item: string): (r: Option<int>)
    ensures r.Some? ==> IsLong(r.value)
  {
    ParseLong(Trim(SubstringBefore(item, ':')))
  }

  /** Decoding an entry gives back its id, whatever the name, colons included. */
  lemma DecodeEncode(id: int, name: string)
    requires IsLong(id)
    ensures DecodeItem(EncodeItem(id, name)) == Some(id)
  {
    var digits := LongToString(id);
    assert ':' !in digits;
    assert EncodeItem(id, name) == digits + [':'] + (" " + name);
    SubstringBeforeSeparator(digits, ':', " " + name);
    assert !IsWhitespace(digits[0]) && !IsWhitespace(digits[|digits| - 1]);
    TrimUntouched(digits);
    ParseLongToString(id);
  }

  /** Different ids give different entries. */
  lemma EncodeInjective(a: int, b: int, na: string, nb: string)
    requires IsLong(a) && IsLong(b)
    requires EncodeItem(a, na) == EncodeItem(b, nb)
    ensures a == b
  {
    DecodeEncode(a, na);
    DecodeEncode(b, nb);
  }

  /** No entry is mistaken for the "All ..." choice, which starts with a letter. */
  lemma EncodedIsNotAllChoice(id: int, name: string)
    ensures EncodeItem(id, name) != "All Workers"
    ensures EncodeItem(id, name) != "All Sites"
  {
    assert "All Workers"[0] == 'A' && "All Sites"[0] == 'A';
  }
}
