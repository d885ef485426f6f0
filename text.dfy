/** The JavaScript string built-ins the application relies on: `String(n)` for
    integers, `trim`, ASCII case mapping, `includes`/`endsWith`, `split` on a
    character class, `parseInt`, `Number` and the `/^0+(?!$)/` leading-zero
    replacement used by the numeric inputs. */
module Text {
  import opened Outcomes

  predicate IsDigit(c: char) { '0' <= c <= '9' }

  predicate AllDigits(s: string) { forall i :: 0 <= i < |s| ==> IsDigit(s[i]) }

  function DigitValue(c: char): nat
    requires IsDigit(c)
  {
    (c as int - '0' as int) as nat
  }

  function DigitChar(d: nat): (c: char)
    requires d < 10
    ensures IsDigit(c) && DigitValue(c) == d
  {
    (('0' as int) + d) as char
  }

  /** The number a run of decimal digits denotes. */
  function DigitsValue(s: string): nat
    requires AllDigits(s)
  {
    if s == [] then 0 else DigitsValue(s[..|s| - 1]) * 10 + DigitValue(s[|s| - 1])
  }

  /** `String(n)` for a non-negative integer: decimal digits without a leading zero. */
  function NatToString(n: nat): (s: string)
    ensures |s| >= 1 && AllDigits(s)
    ensures s[0] == '0' <==> n == 0
  {
    if n < 10 then [DigitChar(n)] else NatToString(n / 10) + [DigitChar(n % 10)]
  }

  /** `String(i)` for any integer. */
  function IntToString(i: int): (s: string)
    ensures |s| >= 1
    ensures s[0] == '-' <==> i < 0
  {
    if i < 0 then "-" + NatToString(-i) else NatToString(i)
  }

  /** Reading back the decimal text of `n` gives `n`. */
  lemma {:induction false} NatToStringValue(n: nat)
    ensures DigitsValue(NatToString(n)) == n
    decreases n
  {
    if n >= 10 {
      var s := NatToString(n);
      assert s[..|s| - 1] == NatToString(n / 10);
      NatToStringValue(n / 10);
    }
  }

  /** Distinct numbers have distinct decimal texts (so ids `q_<n>` never collide). */
  lemma NatToStringInjective(m: nat, n: nat)
    requires NatToString(m) == NatToString(n)
    ensures m == n
  {
    NatToStringValue(m);
    NatToStringValue(n);
  }

  /** `Number("-" + d)` for a run of digits `d`. */
  lemma NegativeNumber(d: string)
    requires d != [] && AllDigits(d)
    ensures ToNumber("-" + d) == Some(-(DigitsValue(d) as int))
  {
    var s := "-" + d;
    VisibleNotSpace(s[0]);
    assert s[|s| - 1] == d[|d| - 1];
    VisibleNotSpace(s[|s| - 1]);
    assert Unpadded(s);
    assert s[1..] == d;
  }

  /** `Number(String(i))` gives back `i`. */
  lemma IntToStringNumber(i: int)
    ensures ToNumber(IntToString(i)) == Some(i)
  {
    var n: nat := if i < 0 then -i else i;
    var d := NatToString(n);
    NatToStringValue(n);
    if i < 0 {
      assert IntToString(i) == "-" + d;
      NegativeNumber(d);
    } else {
      assert IntToString(i) == d;
      assert ToNumber(d) == Some(DigitsValue(d));
    }
  }

  /** A leading zero does not change the value of a digit run. */
  lemma {:induction false} LeadingZeroValue(d: string)
    requires AllDigits(d)
    ensures AllDigits("0" + d) && DigitsValue("0" + d) == DigitsValue(d)
    decreases |d|
  {
    if d != [] {
      var z := "0" + d;
      assert z[..|z| - 1] == "0" + d[..|d| - 1];
      LeadingZeroValue(d[..|d| - 1]);
    }
  }

  /** `String.fromCharCode(code)`: the UTF-16 unit `code` modulo 2^16.  A
      lone surrogate is not a character here and is shown as `?`. */
  function FromCharCode(code: nat): (c: char)
    ensures code % 0x1_0000 < 0xD800 ==> c as int == code % 0x1_0000
    ensures 0xE000 <= code % 0x1_0000 ==> c as int == code % 0x1_0000
  {
    var unit := code % 0x1_0000;
    if unit < 0xD800 || 0xE000 <= unit then unit as char else '?'
  }

  // ---------------------------------------------------------------------
  // White space and trimming

  /** The characters JavaScript's `trim` and `\s` treat as white space
      (WhiteSpace and LineTerminator of ECMA-262). */
  predicate IsSpace(c: char)
  {
    c == '\t' || c == '\n' || c == '\U{B}' || c == '\U{C}' || c == '\r' || c == ' '
    || c == '\U{A0}' || c == '\U{1680}' || ('\U{2000}' <= c <= '\U{200A}')
    || c == '\U{2028}' || c == '\U{2029}' || c == '\U{202F}' || c == '\U{205F}'
    || c == '\U{3000}' || c == '\U{FEFF}'
  }

  predicate AllSpace(s: string) { forall i :: 0 <= i < |s| ==> IsSpace(s[i]) }

  function TrimStart(s: string): (r: string)
    ensures |r| <= |s| && r == s[|s| - |r|..]
    ensures AllSpace(s[..|s| - |r|])
    ensures r == [] || !IsSpace(r[0])
  {
    if s != [] && IsSpace(s[0]) then TrimStart(s[1..]) else s
  }

  function TrimEnd(s: string): (r: string)
    ensures |r| <= |s| && r == s[..|r|]
    ensures AllSpace(s[|r|..])
    ensures r == [] || !IsSpace(r[|r| - 1])
  {
    if s != [] && IsSpace(s[|s| - 1]) then TrimEnd(s[..|s| - 1]) else s
  }

  /** Neither end is white space. */
  predicate Unpadded(s: string)
  {
    s == [] || (!IsSpace(s[0]) && !IsSpace(s[|s| - 1]))
  }

  /** `s.trim()`: the text without its leading and trailing white space. */
  function Trim(s: string): (r: string)
    ensures |r| <= |s|
    ensures Unpadded(r)
    ensures r == [] <==> AllSpace(s)
    ensures Unpadded(s) ==> r == s
  {
    var t := TrimStart(s);
    var r := TrimEnd(t);
    assert r == [] ==> AllSpace(s) by {
      if r == [] {
        assert s == s[..|s| - |t|] + t;
        assert AllSpace(t[|r|..]);
      }
    }
    r
  }

  /** `parts.map(p => p.trim())`. */
  function Trims(parts: seq<string>): (r: seq<string>)
    ensures |r| == |parts|
  {
    if parts == [] then []
    else Trims(parts[..|parts| - 1]) + [Trim(parts[|parts| - 1])]
  }

  lemma TrimsSnoc(parts: seq<string>, x: string)
    ensures Trims(parts + [x]) == Trims(parts) + [Trim(x)]
  {
    assert (parts + [x])[..|parts|] == parts;
  }

  /** `parts.join(sep)`. */
  function Join(parts: seq<string>, sep: string): (r: string)
    ensures parts == [] ==> r == ""
    ensures |parts| == 1 ==> r == parts[0]
  {
    if parts == [] then ""
    else if |parts| == 1 then parts[0]
    else Join(parts[..|parts| - 1], sep) + sep + parts[|parts| - 1]
  }

  // ---------------------------------------------------------------------
  // Case mapping (ASCII letters)

  function LowerChar(c: char): char
  {
    if 'A' <= c <= 'Z' then ((c as int) + 32) as char else c
  }

  function UpperChar(c: char): char
  {
    if 'a' <= c <= 'z' then ((c as int) - 32) as char else c
  }

  /** `s.toLowerCase()` on ASCII letters. */
  function Lower(s: string): (r: string)
    ensures |r| == |s|
  {
    seq(|s|, i requires 0 <= i < |s| => LowerChar(s[i]))
  }

  /** `s.toUpperCase()` on ASCII letters. */
  function Upper(s: string): (r: string)
    ensures |r| == |s|
  {
    seq(|s|, i requires 0 <= i < |s| => UpperChar(s[i]))
  }

  // ---------------------------------------------------------------------
  // Searching

  predicate StartsWith(s: string, p: string)
  {
    |p| <= |s| && s[..|p|] == p
  }

  predicate EndsWith(s: string, p: string)
  {
    |p| <= |s| && s[|s| - |p|..] == p
  }

  /** `s.includes(p)`. */
  predicate Contains(s: string, p: string)
  {
    StartsWith(s, p) || (s != [] && Contains(s[1..], p))
  }

  /** A text holds every piece it is built around. */
  lemma {:induction false} ContainsMiddle(a: string, p: string, b: string)
    ensures Contains(a + p + b, p)
    decreases |a|
  {
    if a == [] {
      assert a + p + b == p + b;
      assert (p + b)[..|p|] == p;
    } else {
      ContainsMiddle(a[1..], p, b);
      assert (a + p + b)[1..] == a[1..] + p + b;
    }
  }

  /** A text that holds `p` still holds it with more text after it. */
  lemma {:induction false} ContainsExtended(s: string, p: string, t: string)
    requires Contains(s, p)
    ensures Contains(s + t, p)
    decreases |s|
  {
    if !StartsWith(s, p) {
      ContainsExtended(s[1..], p, t);
      assert (s + t)[1..] == s[1..] + t;
    } else {
      assert (s + t)[..|p|] == s[..|p|];
    }
  }

  /** Text built with `+=` from a list of pieces. */
  function Concat(parts: seq<string>): string
  {
    if parts == [] then "" else Concat(parts[..|parts| - 1]) + parts[|parts| - 1]
  }

  /** The built text holds each of its pieces ... */
  lemma {:induction false} ConcatHolds(parts: seq<string>, k: nat)
    requires k < |parts|
    ensures Contains(Concat(parts), parts[k])
    decreases |parts|
  {
    if k == |parts| - 1 {
      ContainsMiddle(Concat(parts[..k]), parts[k], "");
      assert Concat(parts[..k]) + parts[k] + "" == Concat(parts);
    } else {
      ConcatHolds(parts[..|parts| - 1], k);
      ContainsExtended(Concat(parts[..|parts| - 1]), parts[k], parts[|parts| - 1]);
    }
  }

  /** ... and opens with the first one. */
  lemma {:induction false} ConcatOpens(parts: seq<string>, n: nat)
    requires 0 < n <= |parts|
    ensures StartsWith(Concat(parts[..n]), parts[0])
    decreases n
  {
    assert parts[..n][..n - 1] == parts[..n - 1];
    if n > 1 {
      ConcatOpens(parts, n - 1);
    } else {
      assert Concat(parts[..1]) == Concat([]) + parts[0];
    }
  }

  /** `s.replace(p, r)` with a plain-text pattern: the first occurrence of
      `p` is replaced by `r` (replacement patterns such as `$&` are not
      interpreted). */
  function ReplaceFirst(s: string, p: string, r: string): string
  {
    if StartsWith(s, p) then r + s[|p|..]
    else if s == [] then s
    else [s[0]] + ReplaceFirst(s[1..], p, r)
  }

  /** Without an occurrence of the pattern, `replace` returns its input. */
  lemma {:induction false} ReplaceFirstAbsent(s: string, p: string, r: string)
    requires !Contains(s, p)
    ensures ReplaceFirst(s, p, r) == s
    decreases |s|
  {
    if s != [] {
      ReplaceFirstAbsent(s[1..], p, r);
      assert s == [s[0]] + s[1..];
    }
  }

  /** `s.split(sep)` where `sep` is a one-character class such as `/[,;]/`:
      the pieces between separators, empty ones included. */
  function Split(s: string, isSep: char -> bool): (pieces: seq<string>)
    ensures |pieces| >= 1
  {
    if s == [] then [""]
    else
      var rest := Split(s[1..], isSep);
      if isSep(s[0]) then [""] + rest else [[s[0]] + rest[0]] + rest[1..]
  }

  /** No piece of a split holds a separator. */
  lemma {:induction false} SplitPieces(s: string, isSep: char -> bool)
    ensures forall i, k :: 0 <= i < |Split(s, isSep)| && 0 <= k < |Split(s, isSep)[i]| ==> !isSep(Split(s, isSep)[i][k])
    decreases |s|
  {
    if s != [] {
      SplitPieces(s[1..], isSep);
      var rest := Split(s[1..], isSep);
      var pieces := Split(s, isSep);
      if !isSep(s[0]) {
        forall i, k | 0 <= i < |pieces| && 0 <= k < |pieces[i]| ensures !isSep(pieces[i][k]) {
          if i == 0 {
            if k > 0 {
              assert pieces[0][k] == rest[0][k - 1];
            }
          } else {
            assert pieces[i] == rest[i];
          }
        }
      } else {
        forall i, k | 0 <= i < |pieces| && 0 <= k < |pieces[i]| ensures !isSep(pieces[i][k]) {
          assert pieces[i] == rest[i - 1];
        }
      }
    }
  }

  // ---------------------------------------------------------------------
  // Numbers from text

  /** The longest prefix of `s` made of decimal digits. */
  function LeadingDigits(s: string): (r: string)
    ensures AllDigits(r) && |r| <= |s| && r == s[..|r|]
    ensures |r| == |s| || !IsDigit(s[|r|])
  {
    if s != [] && IsDigit(s[0]) then [s[0]] + LeadingDigits(s[1..]) else ""
  }

  /** `parseInt(s)` without a radix argument, read as decimal: skip leading
      white space, an optional sign, then the longest digit run; `None` is NaN
      (no digits). A `0x` prefix would switch to hexadecimal, but the number
      boxes that feed this text never accept an `x`, so it is not modelled. */
  function ParseInt(s: string): Option<int>
  {
    var t := TrimStart(s);
    var digits := LeadingDigits(Unsigned(t));
    if digits == [] then None
    else if t[0] == '-' then Some(-(DigitsValue(digits) as int))
    else Some(DigitsValue(digits))
  }

  /** The text after an optional leading sign. */
  function Unsigned(t: string): (r: string)
    ensures |r| <= |t|
    ensures t != [] && (t[0] == '-' || t[0] == '+') ==> r == t[1..]
    ensures t == [] || (t[0] != '-' && t[0] != '+') ==> r == t
  {
    if t != [] && (t[0] == '-' || t[0] == '+') then t[1..] else t
  }

  /** `x || 0` applied to a number: NaN (and 0) become 0. */
  function OrZero(n: Option<int>): int
  {
    match n
    case None => 0
    case Some(v) => v
  }

  /** `Number(s)` for text that is blank or an optionally signed decimal
      integer; `None` stands for NaN. */
  function ToNumber(s: string): (r: Option<int>)
    ensures AllSpace(s) ==> r == Some(0)
    ensures AllDigits(s) && s != [] ==> r == Some(DigitsValue(s))
  {
    var t := Trim(s);
    assert AllDigits(s) && s != [] ==> t == s by {
      if AllDigits(s) && s != [] {
        DigitsTrimmed(s);
      }
    }
    if t == [] then Some(0)
    else
      var negative := t[0] == '-';
      var body := if t[0] == '-' || t[0] == '+' then t[1..] else t;
      if body != [] && AllDigits(body) then Some(if negative then -(DigitsValue(body) as int) else DigitsValue(body))
      else None
  }

  /** A run of digits has nothing to trim. */
  lemma DigitsTrimmed(s: string)
    requires AllDigits(s) && s != []
    ensures Trim(s) == s
  {
    VisibleNotSpace(s[0]);
    VisibleNotSpace(s[|s| - 1]);
    assert Unpadded(s);
  }

  /** A printable ASCII character other than the blank is not white space. */
  lemma VisibleNotSpace(c: char)
    requires '!' <= c <= '~'
    ensures !IsSpace(c)
  {
  }

  /** Trimmed text that starts with neither a sign nor a digit is NaN. */
  lemma NotANumber(s: string)
    requires s != [] && Trim(s) == s
    requires s[0] != '-' && s[0] != '+' && !IsDigit(s[0])
    ensures ToNumber(s) == None
  {
    assert !AllDigits(s);
  }

  /** The text `NaN` reads back as NaN. */
  lemma NaNText()
    ensures ToNumber("NaN") == None
  {
    var s := "NaN";
    VisibleNotSpace(s[0]);
    VisibleNotSpace(s[|s| - 1]);
    assert Unpadded(s);
    NotANumber(s);
  }

  /** A run of digits is its own longest digit prefix. */
  lemma LeadingDigitsAll(d: string)
    requires AllDigits(d)
    ensures LeadingDigits(d) == d
  {
  }

  /** `parseInt(d)` for a run of digits `d`. */
  lemma ParseDigits(d: string)
    requires d != [] && AllDigits(d)
    ensures ParseInt(d) == Some(DigitsValue(d))
  {
    LeadingDigitsAll(d);
    assert !IsSpace(d[0]);
    assert TrimStart(d) == d;
  }

  /** `parseInt("-" + d)` for a run of digits `d`. */
  lemma ParseNegative(d: string)
    requires d != [] && AllDigits(d)
    ensures ParseInt("-" + d) == Some(-(DigitsValue(d) as int))
  {
    var s := "-" + d;
    assert !IsSpace(s[0]);
    var t := TrimStart(s);
    assert t == s;
    assert Unsigned(t) == d;
    LeadingDigitsAll(d);
    assert LeadingDigits(Unsigned(t)) == d && t[0] == '-';
  }

  /** `parseInt(String(i))` gives back `i`. */
  lemma IntToStringParse(i: int)
    ensures ParseInt(IntToString(i)) == Some(i)
  {
    var n: nat := if i < 0 then -i else i;
    var d := NatToString(n);
    NatToStringValue(n);
    if i < 0 {
      assert IntToString(i) == "-" + d;
      ParseNegative(d);
    } else {
      assert IntToString(i) == d;
      ParseDigits(d);
    }
  }

  /** `s.replace(/^0+(?!$)/, '')`: drop the leading zeros, but keep one when
      the text is made of zeros only. */
  function StripLeadingZeros(s: string): (r: string)
    ensures |r| <= |s| && r == s[|s| - |r|..]
    ensures forall k :: 0 <= k < |s| - |r| ==> s[k] == '0'
    ensures r == [] || r == "0" || r[0] != '0'
    ensures s != [] ==> r != []
  {
    if |s| >= 2 && s[0] == '0' then
      var r := StripLeadingZeros(s[1..]);
      assert s[|s| - |r|..] == s[1..][|s| - 1 - |r|..];
      r
    else s
  }

  /** The texts a `type="number"` input can hold: no white space, and a sign
      only at the start or right after an exponent marker. */
  predicate NumberInputText(s: string)
  {
    forall k :: 0 <= k < |s| ==>
      !IsSpace(s[k]) && ((s[k] == '+' || s[k] == '-') ==> k == 0 || s[k - 1] == 'e' || s[k - 1] == 'E')
  }

  lemma ParseIntDropLeadingZero(s: string)
    requires |s| >= 2 && s[0] == '0' && !IsSpace(s[1]) && s[1] != '+' && s[1] != '-'
    ensures OrZero(ParseInt(s)) == OrZero(ParseInt(s[1..]))
  {
    var t := s[1..];
    assert TrimStart(s) == s;
    assert TrimStart(t) == t;
    var d := LeadingDigits(t);
    assert LeadingDigits(s) == "0" + d;
    LeadingZeroValue(d);
  }

  /** Stripping leading zeros before `parseInt(...) || 0` never changes the
      number a numeric input yields ("007" and "7" both give 7, "000" and "0" give 0). */
  lemma {:induction false} StripLeadingZerosKeepsValue(s: string)
    requires NumberInputText(s)
    ensures OrZero(ParseInt(StripLeadingZeros(s))) == OrZero(ParseInt(s))
    decreases |s|
  {
    if |s| >= 2 && s[0] == '0' {
      var t := s[1..];
      assert NumberInputText(t) by {
        forall k | 0 <= k < |t|
          ensures !IsSpace(t[k]) && ((t[k] == '+' || t[k] == '-') ==> k == 0 || t[k - 1] == 'e' || t[k - 1] == 'E')
        {
          assert t[k] == s[k + 1];
        }
      }
      assert s[1] != '+' && s[1] != '-';
      StripLeadingZerosKeepsValue(t);
      ParseIntDropLeadingZero(s);
    }
  }
}
