/** Character strings as the Python sources use them: stripping, line breaks,
    decimal digits, and the `a or b` choice on nullable columns. */
module Texts {

  datatype Option<+T> = None | Some(value: T)

  /** A nullable text column. */
  type Text = Option<string>

  /** Python truth of a nullable text: present and not empty. */
  predicate Truthy(t: Text) { t.Some? && t.value != "" }

  /** Python `a or b` on nullable texts. */
  function Or(a: Text, b: Text): Text { if Truthy(a) then a else b }

  // ---------------------------------------------------------------- whitespace

  /** The characters at which `str.splitlines` ends a line. */
  predicate IsLineBreak(c: char)
  {
    '\n' <= c <= '\r' || '\U{1C}' <= c <= '\U{1E}' || c == '\U{85}' || c == '\U{2028}' || c == '\U{2029}'
  }

  /** The characters that `str.strip` removes; every line break is one of them. */
  predicate IsSpace(c: char)
  {
    || IsLineBreak(c) || c == ' ' || c == '\t' || c == '\U{1F}' || c == '\U{A0}' || c == '\U{1680}'
    || '\U{2000}' <= c <= '\U{200A}' || c == '\U{202F}' || c == '\U{205F}' || c == '\U{3000}'
  }

  predicate Trimmed(s: string) { s == "" || (!IsSpace(s[0]) && !IsSpace(s[|s| - 1])) }

  predicate OneLine(s: string) { forall i :: 0 <= i < |s| ==> !IsLineBreak(s[i]) }

  function StripLeft(s: string): (r: string)
    ensures r != "" ==> !IsSpace(r[0])
    ensures r <= s || |r| < |s|
    ensures exists k :: 0 <= k <= |s| && r == s[k..]
  {
    if s != "" && IsSpace(s[0]) then
      var r := StripLeft(s[1..]);
      assert exists k :: 0 <= k <= |s[1..]| && r == s[1..][k..] && s[1..][k..] == s[k + 1..];
      r
    else
      assert s == s[0..];
      s
  }

  function StripRight(s: string): (r: string)
    ensures r != "" ==> !IsSpace(r[|r| - 1])
    ensures r <= s
  {
    if s != "" && IsSpace(s[|s| - 1]) then StripRight(s[..|s| - 1]) else s
  }

  /** `str.strip()`. */
  function Strip(s: string): (r: string)
    ensures Trimmed(r)
    ensures Trimmed(s) ==> r == s
    ensures OneLine(s) ==> OneLine(r)
  {
    StripRight(StripLeft(s))
  }

  /** Not blank in the sense of `str(x).strip() != ""`. */
  predicate NonBlank(t: Text) { t.Some? && Strip(t.value) != "" }

  // ---------------------------------------------------------------- digits

  predicate IsDigit(c: char) { '0' <= c <= '9' }

  predicate AllDigits(s: string) { forall i :: 0 <= i < |s| ==> IsDigit(s[i]) }

  function DigitChar(d: nat): (c: char)
    requires d < 10
    ensures IsDigit(c) && c as int - '0' as int == d
  {
    ('0' as int + d) as char
  }

  /** `int(s)` on a string of digits. */
  function DigitsValue(s: string): nat
    requires AllDigits(s)
  {
    if s == "" then 0 else 10 * DigitsValue(s[..|s| - 1]) + (s[|s| - 1] as int - '0' as int)
  }

  /** `str(n)` for a non-negative integer. */
  function NatText(n: nat): (s: string)
    ensures s != "" && AllDigits(s)
    ensures DigitsValue(s) == n
  {
    if n < 10 then [DigitChar(n)]
    else
      var s := NatText(n / 10) + [DigitChar(n % 10)];
      assert s[..|s| - 1] == NatText(n / 10);
      s
  }

  /** `str(n)`. */
  function IntText(n: int): string { if n < 0 then "-" + NatText(-n) else NatText(n) }

  function IndexOf(s: string, c: char): (i: nat)
    ensures i <= |s|
    ensures i < |s| ==> s[i] == c
    ensures forall k :: 0 <= k < i ==> s[k] != c
  {
    if s == "" || s[0] == c then 0 else 1 + IndexOf(s[1..], c)
  }

  function Pow10(n: nat): (p: real)
    ensures p > 0.0
  {
    if n == 0 then 1.0 else 10.0 * Pow10(n - 1)
  }

  function UnsignedDecimal(s: string): Option<real>
  {
    var i := IndexOf(s, '.');
    var whole := s[..i];
    var frac := if i < |s| then s[i + 1..] else "";
    if AllDigits(whole) && AllDigits(frac) && |whole| + |frac| > 0 then
      Some(DigitsValue(whole) as real + DigitsValue(frac) as real / Pow10(|frac|))
    else None
  }

  /** `float(s)` on plain decimal strings; `None` where Python raises `ValueError`. */
  function ParseFloat(s: string): Option<real>
  {
    var t := Strip(s);
    if t == "" then None
    else if t[0] == '-' then
      var u := UnsignedDecimal(t[1..]);
      if u.Some? then Some(-u.value) else None
    else if t[0] == '+' then UnsignedDecimal(t[1..])
    else UnsignedDecimal(t)
  }

  /** Printing an integer price and reading it back loses nothing. */
  lemma {:induction false} ParsePrintedNat(n: nat)
    ensures ParseFloat(NatText(n)) == Some(n as real)
  {
    hide NatText, Strip, IndexOf;
    var s := NatText(n);
    assert IsDigit(s[0]) && IsDigit(s[|s| - 1]);
    assert Trimmed(s);
    var i := IndexOf(s, '.');
    assert !IsDigit('.');
    assert i == |s|;
    assert s[..i] == s;
    assert Pow10(0) == 1.0;
    assert DigitsValue("") == 0;
  }
}
