/**
 * The .NET string and number behaviour the trading core relies on, over
 * `string = seq<char>`: ordinal `Contains`, `Split(c)[1]`, `Replace(pattern, "")`,
 * `int.ToString()`, `int.TryParse` and `decimal.TryParse`.
 */
module Text {
  import opened Wrappers

  predicate MatchesAt(s: string, pat: string, i: int)
  {
    0 <= i && i + |pat| <= |s| && s[i..i + |pat|] == pat
  }

  /** `s.Contains(pat)`, ordinal comparison. */
  predicate Contains(s: string, pat: string)
  {
    exists i | 0 <= i <= |s| - |pat| :: MatchesAt(s, pat, i)
  }

  /** A string lacking the first character of a pattern cannot contain the pattern. */
  lemma NotContainsWithoutFirstChar(s: string, pat: string)
    requires |pat| > 0 && pat[0] !in s
    ensures !Contains(s, pat)
  {
    forall i | 0 <= i <= |s| - |pat|
      ensures !MatchesAt(s, pat, i)
    {
      assert s[i..i + |pat|][0] == s[i];
    }
  }

  /** `s.IndexOf(c)`: the first position of `c`, or -1. */
  function IndexOfChar(s: string, c: char): (r: int)
    ensures -1 <= r < |s|
    ensures r >= 0 ==> s[r] == c
    ensures forall k :: 0 <= k < |s| && (r < 0 || k < r) ==> s[k] != c
  {
    if s == [] then -1
    else if s[0] == c then 0
    else
      var r := IndexOfChar(s[1..], c);
      if r < 0 then -1 else r + 1
  }

  /**
   * `s.Split(sep)[1]`: the text between the first and the second `sep` (or the
   * end). None where the C# indexing throws, i.e. when `sep` does not occur.
   */
  function SecondField(s: string, sep: char): (r: Option<string>)
    ensures r.None? <==> sep !in s
    ensures r.Some? ==> sep !in r.value
  {
    var i := IndexOfChar(s, sep);
    if i < 0 then None
    else
      var rest := s[i + 1..];
      var j := IndexOfChar(rest, sep);
      Some(if j < 0 then rest else rest[..j])
  }

  /** `s.Replace(pat, "")` for a non-empty pattern: occurrences are removed left to right, without overlap. */
  function RemoveAll(s: string, pat: string): (r: string)
    requires |pat| > 0
    ensures |r| <= |s|
    decreases |s|
  {
    if |s| < |pat| then s
    else if s[..|pat|] == pat then RemoveAll(s[|pat|..], pat)
    else [s[0]] + RemoveAll(s[1..], pat)
  }

  /** Removing a one-character pattern leaves no occurrence of that character. */
  lemma {:induction false} RemoveAllChar(s: string, c: char)
    ensures c !in RemoveAll(s, [c])
    decreases |s|
  {
    if |s| >= 1 {
      RemoveAllChar(s[1..], c);
      if s[..1] != [c] {
        assert s[0] != c;
      }
    }
  }

  predicate IsDigit(c: char)
  {
    '0' <= c <= '9'
  }

  predicate AllDigits(s: string)
  {
    forall i | 0 <= i < |s| :: IsDigit(s[i])
  }

  function DigitValue(c: char): nat
    requires IsDigit(c)
  {
    (c as int) - ('0' as int)
  }

  function DigitChar(d: nat): char
    requires d < 10
  {
    (('0' as int) + d) as char
  }

  /** `n.ToString()` for a non-negative integer (invariant culture). */
  function NatToString(n: nat): (s: string)
    ensures |s| > 0 && AllDigits(s)
    decreases n
  {
    if n < 10 then [DigitChar(n)] else NatToString(n / 10) + [DigitChar(n % 10)]
  }

  /** The value of a run of decimal digits. */
  function DigitsValue(s: string): nat
    requires AllDigits(s)
    decreases |s|
  {
    if s == [] then 0 else DigitsValue(s[..|s| - 1]) * 10 + DigitValue(s[|s| - 1])
  }

  lemma {:induction false} DigitsRoundTrip(n: nat)
    ensures DigitsValue(NatToString(n)) == n
    decreases n
  {
    if n >= 10 {
      var s := NatToString(n);
      assert s[..|s| - 1] == NatToString(n / 10);
      DigitsRoundTrip(n / 10);
    }
  }

  function HexDigitChar(d: nat): char
    requires d < 16
  {
    if d < 10 then DigitChar(d) else (('A' as int) + d - 10) as char
  }

  predicate IsHexDigit(c: char)
  {
    IsDigit(c) || 'A' <= c <= 'F'
  }

  function HexDigitValue(c: char): nat
    requires IsHexDigit(c)
  {
    if IsDigit(c) then DigitValue(c) else (c as int) - ('A' as int) + 10
  }

  /** `n.ToString("X")` for a non-negative integer: upper-case hexadecimal, no leading zeros. */
  function HexString(n: nat): (s: string)
    ensures |s| > 0
    ensures forall i | 0 <= i < |s| :: IsHexDigit(s[i])
    decreases n
  {
    if n < 16 then [HexDigitChar(n)] else HexString(n / 16) + [HexDigitChar(n % 16)]
  }

  /** The value of a run of hexadecimal digits. */
  function HexValue(s: string): nat
    requires forall i | 0 <= i < |s| :: IsHexDigit(s[i])
    decreases |s|
  {
    if s == [] then 0 else HexValue(s[..|s| - 1]) * 16 + HexDigitValue(s[|s| - 1])
  }

  lemma {:induction false} HexRoundTrip(n: nat)
    ensures HexValue(HexString(n)) == n
    decreases n
  {
    if n >= 16 {
      var s := HexString(n);
      assert s[..|s| - 1] == HexString(n / 16);
      HexRoundTrip(n / 16);
    }
  }

  /** Distinct numbers render as distinct hexadecimal strings. */
  lemma HexInjective(a: nat, b: nat)
    requires a != b
    ensures HexString(a) != HexString(b)
  {
    HexRoundTrip(a);
    HexRoundTrip(b);
  }

  /** `char.IsWhiteSpace`: the Unicode white-space characters. */
  predicate IsWhiteSpace(c: char)
  {
    ('\t' <= c <= '\r') || c == ' ' || c == '\U{0085}' || c == '\U{00A0}' || c == '\U{1680}'
    || ('\U{2000}' <= c <= '\U{200A}') || c == '\U{2028}' || c == '\U{2029}' || c == '\U{202F}'
    || c == '\U{205F}' || c == '\U{3000}'
  }

  /** `string.IsNullOrWhiteSpace(s)` for a non-null string: empty or white space only. */
  predicate IsBlank(s: string)
  {
    forall i | 0 <= i < |s| :: IsWhiteSpace(s[i])
  }

  /** The white space `int.TryParse` and `decimal.TryParse` skip around a number: U+0009 to U+000D and U+0020. */
  predicate IsNumberWhite(c: char)
  {
    c == ' ' || ('\t' <= c <= '\r')
  }

  function TrimStart(s: string): (r: string)
    ensures r == [] || !IsNumberWhite(r[0])
    ensures |r| <= |s|
  {
    if s != [] && IsNumberWhite(s[0]) then TrimStart(s[1..]) else s
  }

  function TrimEnd(s: string): (r: string)
    ensures r == [] || !IsNumberWhite(r[|r| - 1])
    ensures |r| <= |s|
  {
    if s != [] && IsNumberWhite(s[|s| - 1]) then TrimEnd(s[..|s| - 1]) else s
  }

  function Trim(s: string): string
  {
    TrimEnd(TrimStart(s))
  }

  const Int32Min: int := -0x8000_0000
  const Int32Max: int := 0x7FFF_FFFF

  /** The text after an optional leading sign. */
  function Unsigned(t: string): string
  {
    if |t| > 0 && (t[0] == '+' || t[0] == '-') then t[1..] else t
  }

  /** `int.TryParse(s, out v)`: optional white space, an optional sign, decimal digits, within 32 bits. */
  function ParseInt32(s: string): (r: Option<int>)
    ensures r.Some? ==> Int32Min <= r.value <= Int32Max
  {
    var t := Trim(s);
    var body := Unsigned(t);
    if body == [] || !AllDigits(body) then None
    else
      var v := if t[0] == '-' then -(DigitsValue(body) as int) else DigitsValue(body) as int;
      if Int32Min <= v <= Int32Max then Some(v) else None
  }

  /** Every rendering of a 32-bit non-negative integer parses back to itself. */
  lemma ParseInt32RoundTrip(n: nat)
    requires n <= Int32Max
    ensures ParseInt32(NatToString(n)) == Some(n)
  {
    var s := NatToString(n);
    assert !IsNumberWhite(s[0]) && !IsNumberWhite(s[|s| - 1]);
    assert TrimStart(s) == s;
    assert Trim(s) == s;
    assert Unsigned(s) == s;
    DigitsRoundTrip(n);
  }

  function Pow10(n: nat): (p: nat)
    ensures p >= 1
  {
    if n == 0 then 1 else 10 * Pow10(n - 1)
  }

  /** A sign character, as `NumberStyles.Number` accepts it before or after the digits. */
  predicate IsSign(c: char)
  {
    c == '+' || c == '-'
  }

  /**
   * The sign of a trimmed numeral and the text without it: `NumberStyles.Number`
   * takes one sign either right before the digits or after them, where white
   * space may come between the digits and the sign.
   */
  function SplitSign(t: string): (r: (bool, string))
    ensures |r.1| <= |t|
  {
    if |t| > 0 && IsSign(t[0]) then (t[0] == '-', t[1..])
    else if |t| > 0 && IsSign(t[|t| - 1]) then (t[|t| - 1] == '-', TrimEnd(t[..|t| - 1]))
    else (false, t)
  }

  /** Digits with at most one '.', and at least one digit. */
  function ParseUnsignedDecimal(body: string): Option<real>
  {
    var dot := IndexOfChar(body, '.');
    var whole := if dot < 0 then body else body[..dot];
    var fraction := if dot < 0 then [] else body[dot + 1..];
    if (whole == [] && fraction == []) || !AllDigits(whole) || !AllDigits(fraction) then None
    else Some(DigitsValue(whole) as real + DigitsValue(fraction) as real / Pow10(|fraction|) as real)
  }

  /**
   * `decimal.TryParse(s, out v)`, whose default styles allow optional white
   * space, one sign either before or after the digits, and digits with at most
   * one '.'.
   */
  function ParseDecimal(s: string): Option<real>
  {
    var (negative, body) := SplitSign(Trim(s));
    Signed(negative, ParseUnsignedDecimal(body))
  }

  /** The magnitude negated for a '-' sign. */
  function Signed(negative: bool, magnitude: Option<real>): (r: Option<real>)
    ensures r.Some? <==> magnitude.Some?
    ensures r.Some? ==> r.value == (if negative then -magnitude.value else magnitude.value)
  {
    match magnitude
    case None => None
    case Some(v) => Some(if negative then -v else v)
  }

  /** A '-' after a numeral reads as a '-' before it: "1.5-" is -1.5. */
  lemma TrailingMinus(t: string)
    requires t != [] && !IsNumberWhite(t[0]) && !IsNumberWhite(t[|t| - 1])
    requires !IsSign(t[0]) && !IsSign(t[|t| - 1])
    ensures ParseDecimal(t + "-") == ParseDecimal("-" + t) == Signed(true, ParseUnsignedDecimal(t))
  {
    SignsSplit(t);
    TrimKeeps(t + "-");
    ParseTrimmed(t + "-");
    TrimKeeps("-" + t);
    ParseTrimmed("-" + t);
  }

  /** "1.5-", with the sign after the digits, reads as -1.5. */
  lemma TrailingMinusExample()
    ensures ParseDecimal("1.5-") == Some(-1.5)
  {
    var t := "1.5";
    assert !IsSign(t[0]) && !IsNumberWhite(t[0]) && !IsSign(t[2]) && !IsNumberWhite(t[2]);
    TrailingMinus(t);
    assert t + "-" == "1.5-";
    OnePointFive();
  }

  lemma OnePointFive()
    ensures ParseUnsignedDecimal("1.5") == Some(1.5)
  {
    var t := "1.5";
    assert IndexOfChar(t, '.') == 1 by {
      assert t[0] != '.' && t[1] == '.';
    }
    assert t[..1] == "1" && t[2..] == "5";
    assert AllDigits("1") && AllDigits("5");
    assert DigitsValue("1") == 1 && DigitsValue("5") == 5 && Pow10(1) == 10;
  }

  /** A '+' after a numeral reads as a '+' before it, and as no sign at all. */
  lemma TrailingPlus(t: string)
    requires t != [] && !IsNumberWhite(t[0]) && !IsNumberWhite(t[|t| - 1])
    requires !IsSign(t[0]) && !IsSign(t[|t| - 1])
    ensures ParseDecimal(t + "+") == ParseDecimal("+" + t) == ParseDecimal(t) == ParseUnsignedDecimal(t)
  {
    SignsSplit(t);
    TrimKeeps(t + "+");
    ParseTrimmed(t + "+");
    TrimKeeps("+" + t);
    ParseTrimmed("+" + t);
    TrimKeeps(t);
    ParseTrimmed(t);
  }

  /** Text that is its own trim parses as its sign applied to the rest. */
  lemma ParseTrimmed(u: string)
    requires Trim(u) == u
    ensures ParseDecimal(u) == Signed(SplitSign(u).0, ParseUnsignedDecimal(SplitSign(u).1))
  {
  }

  /** A numeral's sign is found on either side of it. */
  lemma SignsSplit(t: string)
    requires t != [] && !IsSign(t[0]) && !IsSign(t[|t| - 1]) && !IsNumberWhite(t[|t| - 1])
    ensures SplitSign(t + "-") == SplitSign("-" + t) == (true, t)
    ensures SplitSign(t + "+") == SplitSign("+" + t) == SplitSign(t) == (false, t)
  {
    assert (t + "-")[..|t|] == t && (t + "+")[..|t|] == t && ("-" + t)[1..] == t && ("+" + t)[1..] == t;
  }

  /** White space between a numeral and its trailing sign is skipped: "1.5 -" is -1.5. */
  lemma WhiteBeforeTrailingSign(t: string, w: string, c: char)
    requires t != [] && !IsNumberWhite(t[0]) && !IsNumberWhite(t[|t| - 1]) && !IsSign(t[0])
    requires forall i | 0 <= i < |w| :: IsNumberWhite(w[i])
    requires IsSign(c)
    ensures ParseDecimal(t + w + [c]) == ParseDecimal(t + [c])
  {
    var u, v := t + w + [c], t + [c];
    assert u[0] == t[0] && u[|u| - 1] == c && u[..|u| - 1] == t + w;
    assert v[0] == t[0] && v[|v| - 1] == c && v[..|v| - 1] == t;
    TrimKeeps(u);
    TrimKeeps(v);
    TrimEndWhite(t, w);
    TrimEndWhite(t, []);
    assert t + [] == t;
    ParseTrimmed(u);
    ParseTrimmed(v);
  }

  /** TrimEnd removes exactly the white space appended to a numeral. */
  lemma {:induction false} TrimEndWhite(t: string, w: string)
    requires t == [] || !IsNumberWhite(t[|t| - 1])
    requires forall i | 0 <= i < |w| :: IsNumberWhite(w[i])
    ensures TrimEnd(t + w) == t
  {
    if w == [] {
      assert t + w == t;
    } else {
      var w' := w[..|w| - 1];
      assert (t + w)[..|t + w| - 1] == t + w';
      assert (t + w)[|t + w| - 1] == w[|w| - 1];
      TrimEndWhite(t, w');
    }
  }

  /** Text that neither starts nor ends with white space is its own trim. */
  lemma TrimKeeps(t: string)
    requires t != [] && !IsNumberWhite(t[0]) && !IsNumberWhite(t[|t| - 1])
    ensures Trim(t) == t
  {
    assert TrimStart(t) == t;
  }
}
