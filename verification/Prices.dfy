/** The price comparisons and price-to-stock rules of app/main.py, on exact decimals. */
module Prices {
  import opened Texts

  // ---------------------------------------------------------------- tests on one price

  /** `_is_zero_price`: blank, or a number equal to zero. */
  predicate IsZeroPrice(p: Text)
  {
    !NonBlank(p) || ParseFloat(p.value) == Some(0.0)
  }

  /** `_stock_from_price`. */
  function StockFromPrice(p: Text): (s: string)
    ensures s == "instock" || s == "outofstock"
  {
    if IsZeroPrice(p) then "outofstock" else "instock"
  }

  /** `_is_valid_price`: any numeric text. */
  predicate IsValidPrice(p: Text)
  {
    NonBlank(p) && ParseFloat(p.value).Some?
  }

  function RemoveCommas(s: string): string
  {
    if s == "" then ""
    else (if s[0] == ',' || s[0] == '\U{066C}' then "" else [s[0]]) + RemoveCommas(s[1..])
  }

  /** `validation._to_float` on texts already in ASCII digits. */
  function ToFloat(p: Text): Option<real>
  {
    if NonBlank(p) then ParseFloat(RemoveCommas(Strip(p.value))) else None
  }

  // ---------------------------------------------------------------- comparing two prices

  /** `_prices_equal`: numerically equal where both are numbers, else the same text. */
  predicate PricesEqual(a: Text, b: Text)
  {
    if a.None? || b.None? then a == b
    else
      var x, y := ParseFloat(a.value), ParseFloat(b.value);
      if x.Some? && y.Some? then x.value == y.value else a.value == b.value
  }

  lemma PricesEqualIsEquivalence(a: Text, b: Text, c: Text)
    ensures PricesEqual(a, a)
    ensures PricesEqual(a, b) ==> PricesEqual(b, a)
    ensures PricesEqual(a, b) && PricesEqual(b, c) ==> PricesEqual(a, c)
  {
  }

  predicate SameNumber(a: string, b: string) { ParseFloat(a).Some? && ParseFloat(a) == ParseFloat(b) }

  /** Equal are the same texts, and the same numbers. */
  lemma PricesEqualMeans(a: Text, b: Text)
    ensures PricesEqual(a, b) <==> a == b || (a.Some? && b.Some? && SameNumber(a.value, b.value))
  {
  }

  /** `_price_differs`, with its tolerance of one thousandth. */
  predicate PriceDiffers(was: Text, now: Text)
  {
    if !Truthy(was) && !Truthy(now) then false
    else if !Truthy(was) || !Truthy(now) then true
    else
      var x, y := ParseFloat(was.value), ParseFloat(now.value);
      if x.Some? && y.Some? then x.value - y.value > 0.001 || y.value - x.value > 0.001
      else was != now
  }

  /** Two numbers that differ by at most one thousandth. */
  predicate Close(a: string, b: string)
  {
    var x, y := ParseFloat(a), ParseFloat(b);
    x.Some? && y.Some? && -0.001 <= x.value - y.value <= 0.001
  }

  /** No difference is made between blank texts, the same texts, and close numbers. */
  predicate Agree(a: Text, b: Text)
  {
    if Truthy(a) && Truthy(b) then a == b || Close(a.value, b.value) else !Truthy(a) && !Truthy(b)
  }

  lemma PriceDiffersMeans(was: Text, now: Text)
    ensures PriceDiffers(was, now) <==> !Agree(was, now)
    ensures PriceDiffers(was, now) <==> PriceDiffers(now, was)
  {
  }
}
