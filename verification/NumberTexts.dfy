/** How prices are read from texts: decimals, signs, space around them, and separators of
    thousands. */
module NumberTexts {
  import opened Texts
  import opened Prices

  lemma PointAt(w: string, f: string)
    requires AllDigits(w) && AllDigits(f)
    ensures IndexOf(w + "." + f, '.') == |w|
  {
    var s := w + "." + f;
    assert s[|w|] == '.';
    assert forall k :: 0 <= k < |w| ==> s[k] == w[k] && IsDigit(s[k]);
  }

  lemma LastDigit(s: string)
    requires s != "" && AllDigits(s)
    ensures var n := |s| - 1;
            DigitsValue(s) as real == 10.0 * DigitsValue(s[..n]) as real + (s[n] as int - '0' as int) as real
  {
  }

  lemma {:induction false} DigitsOfConcat(w: string, f: string)
    requires AllDigits(w) && AllDigits(f)
    ensures AllDigits(w + f)
    ensures DigitsValue(w + f) as real == DigitsValue(w) as real * Pow10(|f|) + DigitsValue(f) as real
  {
    hide DigitsValue, Pow10;
    if f == "" {
      assert w + f == w;
      NoDigits();
    } else {
      var n := |f| - 1;
      DigitsOfConcat(w, f[..n]);
      assert (w + f)[..|w + f| - 1] == w + f[..n] && (w + f)[|w + f| - 1] == f[n];
      LastDigit(f);
      LastDigit(w + f);
      NextPower(n);
      Scaled(DigitsValue(w) as real, Pow10(n), DigitsValue(f[..n]) as real, (f[n] as int - '0' as int) as real);
    }
  }

  lemma NoDigits()
    ensures DigitsValue("") == 0 && Pow10(0) == 1.0
  {
  }

  lemma NextPower(n: nat)
    ensures Pow10(n + 1) == 10.0 * Pow10(n)
  {
  }

  lemma Scaled(a: real, p: real, b: real, d: real)
    ensures 10.0 * (a * p + b) + d == a * (10.0 * p) + (10.0 * b + d)
  {
  }

  lemma Quotient(a: real, d: real, p: real)
    requires p > 0.0
    ensures (a + d / p) * p == a * p + d
  {
    assert d / p * p == d;
  }

  /** A decimal is its digits, with the point moved: `v` times ten to the number of digits
      after the point is the number without the point. */
  lemma DecimalMeans(w: string, f: string)
    requires AllDigits(w) && AllDigits(f) && |w| + |f| > 0
    ensures var v := UnsignedDecimal(w + "." + f);
            v.Some? && AllDigits(w + f) && v.value * Pow10(|f|) == DigitsValue(w + f) as real
  {
    hide UnsignedDecimal, DigitsValue, Pow10;
    DecimalIs(w, f);
    DigitsOfConcat(w, f);
    Quotient(DigitsValue(w) as real, DigitsValue(f) as real, Pow10(|f|));
  }

  lemma DecimalIs(w: string, f: string)
    requires AllDigits(w) && AllDigits(f) && |w| + |f| > 0
    ensures UnsignedDecimal(w + "." + f) == Some(DigitsValue(w) as real + DigitsValue(f) as real / Pow10(|f|))
  {
    hide IndexOf, DigitsValue, Pow10;
    PointAt(w, f);
    var s := w + "." + f;
    assert s[..|w|] == w && s[|w| + 1..] == f;
  }

  /** The powers are powers of ten. */
  lemma {:induction false} PowersOfTen(m: nat, n: nat)
    ensures Pow10(0) == 1.0 && Pow10(1) == 10.0 && Pow10(m + n) == Pow10(m) * Pow10(n)
  {
    if m > 0 {
      PowersOfTen(m - 1, n);
      assert Pow10(m + n) == 10.0 * Pow10(m - 1 + n);
      assert 10.0 * (Pow10(m - 1) * Pow10(n)) == (10.0 * Pow10(m - 1)) * Pow10(n);
    }
  }

  /** A sign is read, and the other texts are read as they are: what is trimmed, not empty
      and does not start with a sign. */
  lemma SignsAreRead(s: string)
    requires Trimmed(s) && s != "" && s[0] != '-' && s[0] != '+'
    ensures ParseFloat(s) == UnsignedDecimal(s) && ParseFloat("+" + s) == UnsignedDecimal(s)
    ensures ParseFloat("-" + s) ==
            if UnsignedDecimal(s).Some? then Some(0.0 - UnsignedDecimal(s).value) else None
  {
    hide UnsignedDecimal, Strip, IsSpace;
    SignIsNoSpace();
    assert Trimmed("+" + s) && Trimmed("-" + s);
    assert ("+" + s)[1..] == s && ("-" + s)[1..] == s;
  }

  lemma SignIsNoSpace()
    ensures !IsSpace('+') && !IsSpace('-')
  {
  }

  /** Only digits with at most one point among them are numbers. */
  lemma NumbersExactly(s: string)
    ensures UnsignedDecimal(s).Some? <==>
            || (s != "" && AllDigits(s))
            || exists w, f :: s == w + "." + f && AllDigits(w) && AllDigits(f) && |w| + |f| > 0
  {
    hide DigitsValue;
    var i := IndexOf(s, '.');
    if i < |s| {
      assert s == s[..i] + "." + s[i + 1..];
      assert !AllDigits(s) by { assert s[i] == '.'; }
    } else {
      assert s[..i] == s;
    }
    if w, f :| s == w + "." + f && AllDigits(w) && AllDigits(f) && |w| + |f| > 0 {
      DecimalMeans(w, f);
    }
  }

  /** A printed integer is read back, negative ones included. */
  lemma ParsePrintedInt(n: int)
    ensures ParseFloat(IntText(n)) == Some(n as real)
  {
    hide ParseFloat, NatText, UnsignedDecimal, Strip, IsSpace;
    if n < 0 {
      var s := NatText(-n);
      DigitsAreNoSpace();
      assert IsDigit(s[0]) && IsDigit(s[|s| - 1]);
      assert Trimmed(s);
      SignsAreRead(s);
      ParsePrintedNat(-n);
    } else {
      ParsePrintedNat(n);
    }
  }

  lemma AllSpaceLeft(s: string) returns (k: nat)
    ensures k <= |s| && StripLeft(s) == s[k..] && forall i :: 0 <= i < k ==> IsSpace(s[i])
    decreases |s|
  {
    hide IsSpace;
    if s != "" && IsSpace(s[0]) {
      k := AllSpaceLeft(s[1..]);
      assert s[1..][k..] == s[k + 1..];
      forall i | 0 <= i < k + 1 ensures IsSpace(s[i]) {
        if i > 0 { assert s[1..][i - 1] == s[i]; }
      }
      k := k + 1;
    } else {
      k := 0;
    }
  }

  lemma AllSpaceRight(s: string)
    ensures StripRight(s) <= s && forall i :: |StripRight(s)| <= i < |s| ==> IsSpace(s[i])
    decreases |s|
  {
    hide IsSpace;
    if s != "" && IsSpace(s[|s| - 1]) { AllSpaceRight(s[..|s| - 1]); }
  }

  /** Stripping cuts off nothing but space, and all of it. */
  lemma StripMeans(s: string)
    ensures Trimmed(Strip(s))
    ensures exists i, j :: 0 <= i <= j <= |s| && Strip(s) == s[i..j]
                           && (forall k :: 0 <= k < i || j <= k < |s| ==> IsSpace(s[k]))
  {
    hide IsSpace, StripLeft, StripRight;
    var i := AllSpaceLeft(s);
    AllSpaceRight(s[i..]);
    CutBothSides(s, i, Strip(s));
  }

  lemma CutBothSides(s: string, i: nat, r: string)
    requires i <= |s| && r <= s[i..] && forall k :: |r| <= k < |s[i..]| ==> IsSpace(s[i..][k])
    ensures i + |r| <= |s| && r == s[i..i + |r|] && forall k :: i + |r| <= k < |s| ==> IsSpace(s[k])
  {
    hide IsSpace;
    forall k | i + |r| <= k < |s| ensures IsSpace(s[k]) {
      assert s[i..][k - i] == s[k];
    }
  }

  /** The common kinds of space are space, letters, digits and signs are not. */
  lemma SpacesAre()
    ensures IsSpace(' ') && IsSpace('\t') && IsSpace('\n') && IsSpace('\r') && IsSpace('\U{A0}') && IsSpace('\U{3000}')
    ensures forall c :: '!' <= c <= '~' ==> !IsSpace(c)
  {
  }

  // ---------------------------------------------------------------- separators

  lemma {:induction false} CommasOfConcat(a: string, b: string)
    ensures RemoveCommas(a + b) == RemoveCommas(a) + RemoveCommas(b)
  {
    if a == "" {
      assert a + b == b;
    } else {
      assert (a + b)[1..] == a[1..] + b;
      CommasOfConcat(a[1..], b);
    }
  }

  lemma {:induction false} DigitsStay(s: string)
    requires AllDigits(s)
    ensures RemoveCommas(s) == s
  {
    if s != "" {
      assert IsDigit(s[0]);
      DigitsStay(s[1..]);
      assert s == [s[0]] + s[1..];
    }
  }

  /** Either separator between groups of digits is skipped. */
  lemma GroupedPrice(a: string, c: char, b: string)
    requires a != "" && b != "" && AllDigits(a) && AllDigits(b) && (c == ',' || c == '\U{066C}')
    ensures AllDigits(a + b) && ToFloat(Some(a + [c] + b)) == Some(DigitsValue(a + b) as real)
  {
    hide RemoveCommas, StripLeft, StripRight, ParseFloat, DigitsValue;
    var s := a + [c] + b;
    assert IsDigit(s[0]) && IsDigit(s[|s| - 1]) by { assert s[0] == a[0] && s[|s| - 1] == b[|b| - 1]; }
    assert Trimmed(s);
    CommasOfConcat(a, [c] + b);
    CommasOfConcat([c], b);
    assert a + ([c] + b) == s;
    DigitsStay(a);
    DigitsStay(b);
    SeparatorGoes(c);
    assert RemoveCommas(s) == a + b;
    WholeNumber(a + b);
  }

  lemma SeparatorGoes(c: char)
    requires c == ',' || c == '\U{066C}'
    ensures RemoveCommas([c]) == ""
  {
  }

  lemma WholeNumber(s: string)
    requires s != "" && AllDigits(s)
    ensures ParseFloat(s) == Some(DigitsValue(s) as real)
  {
    hide Strip, DigitsValue, Pow10, IsSpace, IndexOf;
    DigitsAreNoSpace();
    assert IsDigit(s[0]) && IsDigit(s[|s| - 1]);
    assert Trimmed(s);
    var i := IndexOf(s, '.');
    assert forall k :: 0 <= k < |s| ==> IsDigit(s[k]) && s[k] != '.';
    assert i == |s| && s[..i] == s;
    NoDigits();
  }

  lemma DigitsAreNoSpace()
    ensures forall c :: IsDigit(c) ==> !IsSpace(c)
  {
  }
}
