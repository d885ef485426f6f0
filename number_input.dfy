/** The numeric input boxes of the settings panels: what they show for a
    stored value and the number they store for typed text. */
module NumberInput {
  import opened Outcomes
  import opened Text
  import opened Types

  /** The text shown: an empty setting as `0`, then `String(...)` without
      its leading zeros. */
  function Shown(v: Value): (r: string)
    ensures v == Str("") ==> r == "0"
  {
    StripLeadingZeros(if v == Str("") then "0" else ValueText(v))
  }

  /** The number stored for typed text: leading zeros dropped, then
      `parseInt(val) || 0`. */
  function Typed(text: string): int
  {
    OrZero(ParseInt(StripLeadingZeros(text)))
  }

  /** The decimal text of a number has no leading zero to strip. */
  lemma StripIntToString(n: int)
    ensures StripLeadingZeros(IntToString(n)) == IntToString(n)
  {
  }

  /** Retyping what a box shows for a stored number stores that number again. */
  lemma ShownTypedRoundTrip(n: int)
    ensures Typed(Shown(Num(n))) == n
  {
    StripIntToString(n);
    IntToStringParse(n);
  }

  /** Leading zeros never change the number stored ("007" and "7" both
      give 7, "000" gives 0), and text without digits stores 0. */
  lemma TypedIgnoresLeadingZeros(text: string)
    requires NumberInputText(text)
    ensures Typed(text) == OrZero(ParseInt(text))
    ensures ParseInt(text).None? ==> Typed(text) == 0
  {
    StripLeadingZerosKeepsValue(text);
  }
}
