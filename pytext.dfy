/**
 * The three Python string built-ins the form encoder relies on:
 * `str.strip()`, `str.lower()` and `float(str)`, restricted to ASCII.
 */
module PyText {

  datatype Option<+T> = None | Some(value: T)

  /** The ASCII characters that `str.strip()` and `float()` treat as whitespace. */
  predicate IsSpace(c: char) {
    c == ' ' || 9 <= c as int <= 13 || 28 <= c as int <= 31
  }

  /** `s` with its trailing whitespace removed. */
  function StripRight(s: string): (r: string)
    ensures |r| <= |s| && r == s[..|r|]
    ensures r == [] || !IsSpace(r[|r| - 1])
    ensures forall i :: |r| <= i < |s| ==> IsSpace(s[i])
  {
    if s != [] && IsSpace(s[|s| - 1]) then StripRight(s[..|s| - 1]) else s
  }

  /** The number of whitespace characters `s` starts with. */
  function LeadingSpaces(s: string): (n: nat)
    ensures n <= |s|
    ensures forall i :: 0 <= i < n ==> IsSpace(s[i])
    ensures n == |s| || !IsSpace(s[n])
  {
    if s != [] && IsSpace(s[0]) then 1 + LeadingSpaces(s[1..]) else 0
  }

  /**
   * `s.strip()`: the slice of `s` that starts after its leading whitespace
   * and stops before its trailing whitespace.
   */
  function Strip(s: string): (r: string)
    ensures LeadingSpaces(s) + |r| <= |s|
    ensures r == s[LeadingSpaces(s)..LeadingSpaces(s) + |r|]
    ensures forall i :: LeadingSpaces(s) + |r| <= i < |s| ==> IsSpace(s[i])
    ensures r == [] || (!IsSpace(r[0]) && !IsSpace(r[|r| - 1]))
  {
    var lo := LeadingSpaces(s);
    var r := StripRight(s[lo..]);
    assert forall i :: lo + |r| <= i < |s| ==> s[i] == s[lo..][i - lo];
    r
  }

  predicate IsUpper(c: char) {
    'A' <= c <= 'Z'
  }

  function LowerChar(c: char): (d: char)
    ensures !IsUpper(d)
    ensures IsUpper(c) ==> d as int == c as int + 32
    ensures !IsUpper(c) ==> d == c
  {
    if IsUpper(c) then (c as int + 32) as char else c
  }

  /** `s.lower()` on ASCII: every upper-case letter replaced by its lower-case form. */
  function Lower(s: string): (r: string)
    ensures |r| == |s|
    ensures forall i :: 0 <= i < |s| ==> r[i] == LowerChar(s[i])
  {
    seq(|s|, i requires 0 <= i < |s| => LowerChar(s[i]))
  }

  predicate IsDigit(c: char) {
    '0' <= c <= '9'
  }

  predicate AllDigits(s: string) {
    forall i :: 0 <= i < |s| ==> IsDigit(s[i])
  }

  /** The characters a string accepted by `float()` may consist of, once stripped. */
  predicate IsNumeral(c: char) {
    IsDigit(c) || c == '+' || c == '-' || c == '.' || c == 'e' || c == 'E'
  }

  predicate AllNumerals(s: string) {
    forall i :: 0 <= i < |s| ==> IsNumeral(s[i])
  }

  function Pow10(n: nat): (p: nat)
    ensures p >= 1
  {
    if n == 0 then 1 else 10 * Pow10(n - 1)
  }

  /** The value of a run of decimal digits, most significant first. */
  function DigitsValue(s: string): (n: nat)
    requires AllDigits(s)
    ensures n < Pow10(|s|)
  {
    if s == [] then 0
    else
      var init := s[..|s| - 1];
      assert AllDigits(init);
      DigitsValue(init) * 10 + (s[|s| - 1] as int - '0' as int)
  }

  /** The first position of `s` holding `c1` or `c2`, or `|s|` if there is none. */
  function IndexOf(s: string, c1: char, c2: char): (k: nat)
    ensures k <= |s|
    ensures forall j :: 0 <= j < k ==> s[j] != c1 && s[j] != c2
    ensures k < |s| ==> s[k] == c1 || s[k] == c2
  {
    if s == [] || s[0] == c1 || s[0] == c2 then 0 else 1 + IndexOf(s[1..], c1, c2)
  }

  /** An exponent: an optional sign followed by at least one digit. */
  function ParseExponent(s: string): (r: Option<int>)
    ensures r.Some? ==> s != [] && AllNumerals(s)
  {
    if s != [] && (s[0] == '+' || s[0] == '-') then
      var ds := s[1..];
      if ds != [] && AllDigits(ds) then
        var n: int := DigitsValue(ds);
        Some(if s[0] == '-' then -n else n)
      else None
    else if s != [] && AllDigits(s) then Some(DigitsValue(s))
    else None
  }

  /** A mantissa: digits, optionally a point and more digits, with at least one digit in all. */
  function ParseMantissa(s: string): (r: Option<real>)
    ensures r.Some? ==> s != [] && AllNumerals(s)
    ensures r.Some? && AllDigits(s) ==> r.value == DigitsValue(s) as real
  {
    var k := IndexOf(s, '.', '.');
    var whole := s[..k];
    var frac := if k < |s| then s[k + 1..] else [];
    if AllDigits(whole) && AllDigits(frac) && (whole != [] || frac != []) then
      assert forall i :: 0 <= i < |s| && i != k ==> s[i] in whole + frac by {
        forall i | 0 <= i < |s| && i != k ensures s[i] in whole + frac {
          if i < k { assert s[i] == whole[i]; } else { assert s[i] == frac[i - k - 1]; }
        }
      }
      assert AllDigits(s) ==> k == |s| && whole == s && frac == [];
      Some(DecimalValue(whole, frac))
    else None
  }

  /** The value of the numeral `whole.frac`. */
  function DecimalValue(whole: string, frac: string): real
    requires AllDigits(whole) && AllDigits(frac)
  {
    DigitsValue(whole) as real + DigitsValue(frac) as real / Pow10(|frac|) as real
  }

  function Scale(m: real, e: int): real {
    if e >= 0 then m * Pow10(e) as real else m / Pow10(-e) as real
  }

  /** An unsigned number: a mantissa, optionally followed by `e` or `E` and an exponent. */
  function ParseUnsigned(s: string): (r: Option<real>)
    ensures r.Some? ==> s != [] && AllNumerals(s)
    ensures r.Some? && AllDigits(s) ==> r.value == DigitsValue(s) as real
  {
    var k := IndexOf(s, 'e', 'E');
    match ParseMantissa(s[..k])
    case None => None
    case Some(m) =>
      if k == |s| then
        assert s[..k] == s;
        Some(m)
      else
        match ParseExponent(s[k + 1..])
        case None => None
        case Some(e) =>
          assert forall i :: 0 <= i < |s| ==> IsNumeral(s[i]) by {
            forall i | 0 <= i < |s| ensures IsNumeral(s[i]) {
              if i < k { assert s[i] == s[..k][i]; }
              else if i > k { assert s[i] == s[k + 1..][i - k - 1]; }
            }
          }
          Some(Scale(m, e))
  }

  /** A stripped numeral: an optional sign followed by an unsigned number. */
  function ParseNumber(s: string): (r: Option<real>)
    ensures r.Some? ==> s != [] && AllNumerals(s)
    ensures r.Some? && AllDigits(s) ==> r.value == DigitsValue(s) as real
  {
    if s != [] && (s[0] == '+' || s[0] == '-') then
      match ParseUnsigned(s[1..])
      case None => None
      case Some(v) =>
        assert forall i :: 1 <= i < |s| ==> s[i] == s[1..][i - 1];
        Some(if s[0] == '-' then -v else v)
    else ParseUnsigned(s)
  }

  /**
   * `float(s)`: `None` where Python raises `ValueError`. The string is
   * stripped first, as `float()` does.
   */
  function ParseFloat(s: string): (r: Option<real>)
    ensures r.Some? ==> Strip(s) != [] && AllNumerals(Strip(s))
  {
    ParseNumber(Strip(s))
  }

  /** A string of digits, with any surrounding whitespace, parses as the integer it spells. */
  lemma ParseDigits(s: string)
    requires AllDigits(Strip(s)) && Strip(s) != []
    ensures ParseFloat(s) == Some(DigitsValue(Strip(s)) as real)
  {
    var t := Strip(s);
    assert IndexOf(t, 'e', 'E') == |t|;
    assert IndexOf(t, '.', '.') == |t|;
    assert t[..|t|] == t;
  }

  /** A string that neither starts nor ends with whitespace is its own strip. */
  lemma StripUnpadded(s: string)
    requires s != [] && !IsSpace(s[0]) && !IsSpace(s[|s| - 1])
    ensures Strip(s) == s
  {
    assert LeadingSpaces(s) == 0;
  }

  lemma NumberUnsigned(s: string)
    requires s != [] && s[0] != '+' && s[0] != '-'
    ensures ParseNumber(s) == ParseUnsigned(s)
  {
  }

  lemma UnsignedWithoutExponent(s: string)
    requires forall i :: 0 <= i < |s| ==> s[i] != 'e' && s[i] != 'E'
    ensures ParseUnsigned(s) == ParseMantissa(s)
  {
    assert IndexOf(s, 'e', 'E') == |s|;
    assert s[..|s|] == s;
  }

  lemma MantissaWithPoint(w: string, f: string)
    requires AllDigits(w) && AllDigits(f) && w != []
    ensures ParseMantissa(w + "." + f)
              == Some(DecimalValue(w, f))
  {
    var s := w + "." + f;
    assert IndexOf(s, '.', '.') == |w| by {
      assert s[|w|] == '.';
      assert forall j :: 0 <= j < |w| ==> s[j] == w[j];
    }
    assert s[..|w|] == w && s[|w| + 1..] == f;
  }

  /** A plain decimal numeral `w.f` parses as the number it spells. */
  lemma ParseDecimal(w: string, f: string)
    requires AllDigits(w) && AllDigits(f) && w != []
    ensures ParseFloat(w + "." + f)
              == Some(DecimalValue(w, f))
  {
    var s := w + "." + f;
    assert s[0] == w[0];
    assert s[|s| - 1] == '.' || s[|s| - 1] == f[|f| - 1];
    StripUnpadded(s);
    assert forall i :: 0 <= i < |s| ==> IsDigit(s[i]) || s[i] == '.' by {
      forall i | 0 <= i < |s| ensures IsDigit(s[i]) || s[i] == '.' {
        if i < |w| { assert s[i] == w[i]; } else if i > |w| { assert s[i] == f[i - |w| - 1]; }
      }
    }
    NumberUnsigned(s);
    UnsignedWithoutExponent(s);
    MantissaWithPoint(w, f);
  }
}
