/** `_emergency_round` and the four emergency operations: prices on a grid whose step
    changes from 10,000 to 50,000 above 20,000,000. */
module EmergencyRounding {

  const SWITCH := 20_000_000

  function Unit(price: real): int { if price > SWITCH as real then 50_000 else 10_000 }

  /** `_emergency_round`. */
  function Round(price: real): int
  {
    (price / (Unit(price) as real) + 0.5).Floor * Unit(price)
  }

  /** A price that rounding leaves alone. */
  predicate OnGrid(price: real) { Round(price) as real == price }

  /** The rounded price is the one multiple of the unit in the half-open interval of
      one unit around the price, ties going up. */
  lemma RoundIsNearest(price: real, k: int)
    requires price >= 0.0
    ensures var u := Unit(price) as real;
            Round(price) == k * Unit(price) <==> price - u / 2.0 < (k * Unit(price)) as real <= price + u / 2.0
  {
    var u := Unit(price) as real;
    var q := price / u + 0.5;
    assert q * u == price + u / 2.0;
    assert q.Floor == k <==> k as real <= q < k as real + 1.0;
    assert (k as real) * u == (k * Unit(price)) as real;
    assert k as real <= q <==> (k as real) * u <= q * u;
    assert q < k as real + 1.0 <==> q * u < (k as real + 1.0) * u;
    assert Round(price) == q.Floor * Unit(price);
  }

  /** Where a rounded price lands relative to the switch. */
  lemma RoundKeepsSide(price: real)
    requires price >= 0.0
    ensures price <= SWITCH as real ==> 0 <= Round(price) <= SWITCH
    ensures price > SWITCH as real ==> Round(price) >= SWITCH
  {
    var k := (price / (Unit(price) as real) + 0.5).Floor;
    RoundIsNearest(price, k);
    if price <= SWITCH as real {
      assert k * 10_000 < SWITCH + 10_000;
      assert k * 10_000 > -10_000;
    } else {
      assert k * 50_000 > SWITCH - 50_000;
    }
  }

  lemma FloorMonotone(x: real, y: real)
    requires x <= y
    ensures x.Floor <= y.Floor
  {
  }

  /** Rounding never changes the order of two prices, on either side of the switch or
      across it. */
  lemma RoundIsMonotone(a: real, b: real)
    requires 0.0 <= a <= b
    ensures Round(a) <= Round(b)
  {
    RoundKeepsSide(a);
    RoundKeepsSide(b);
    if Unit(a) == Unit(b) {
      var u := Unit(a) as real;
      assert a / u <= b / u;
      FloorMonotone(a / u + 0.5, b / u + 0.5);
    }
  }

  /** Every rounded price is on the grid: rounding twice is rounding once. */
  lemma RoundIsIdempotent(price: real)
    requires price >= 0.0
    ensures OnGrid(Round(price) as real)
  {
    RoundKeepsSide(price);
    var k := (price / (Unit(price) as real) + 0.5).Floor;
    var r := Round(price);
    var m := if Unit(r as real) == Unit(price) then k else 5 * k;
    assert r == m * Unit(r as real);
    RoundIsNearest(r as real, m);
  }

  // ---------------------------------------------------------------- the four operations

  datatype Operation = PctIncrease | PctDecrease | FixedIncrease | FixedDecrease

  /** The bounds the preview request checks. */
  predicate ValidRequest(op: Operation, value: real)
  {
    0.0 < value && (op.PctIncrease? || op.PctDecrease? ==> value <= 100.0)
  }

  /** The new price before rounding. */
  function Raw(op: Operation, value: real, price: real): real
  {
    match op
    case PctIncrease => price * (1.0 + value / 100.0)
    case PctDecrease => price * (1.0 - value / 100.0)
    case FixedIncrease => price + value
    case FixedDecrease => price - value
  }

  /** A positive price gets a new price only if the operation leaves it positive. */
  predicate Priced(op: Operation, value: real, price: real) { price > 0.0 && Raw(op, value, price) > 0.0 }

  function NewPrice(op: Operation, value: real, price: real): int
    requires Priced(op, value, price)
  {
    Round(Raw(op, value, price))
  }

  lemma TimesKeepsOrder(a: real, b: real, f: real)
    requires a <= b && 0.0 <= f
    ensures a * f <= b * f
  {
    assert (b - a) * f >= 0.0;
  }

  lemma RawIsMonotone(op: Operation, value: real, a: real, b: real)
    requires ValidRequest(op, value) && 0.0 < a <= b
    ensures Raw(op, value, a) <= Raw(op, value, b)
  {
    match op {
      case PctIncrease => TimesKeepsOrder(a, b, 1.0 + value / 100.0);
      case PctDecrease => TimesKeepsOrder(a, b, 1.0 - value / 100.0);
      case FixedIncrease =>
      case FixedDecrease =>
    }
  }

  /** All four operations keep the order of any two priced products; and a dearer
      product is never skipped where a cheaper one is priced. */
  lemma OperationsKeepOrder(op: Operation, value: real, a: real, b: real)
    requires ValidRequest(op, value) && a <= b && Priced(op, value, a)
    ensures Priced(op, value, b) && NewPrice(op, value, a) <= NewPrice(op, value, b)
  {
    RawIsMonotone(op, value, a, b);
    RoundIsMonotone(Raw(op, value, a), Raw(op, value, b));
  }

  /** From the grid, an increase never lowers and a decrease never raises. */
  lemma GridPricesMoveTheRightWay(op: Operation, value: real, price: real)
    requires ValidRequest(op, value) && Priced(op, value, price) && OnGrid(price)
    ensures op.PctIncrease? || op.FixedIncrease? ==> NewPrice(op, value, price) as real >= price
    ensures op.PctDecrease? || op.FixedDecrease? ==> NewPrice(op, value, price) as real <= price
  {
    var raw := Raw(op, value, price);
    var move := price * (value / 100.0);
    assert move > 0.0;
    assert price * (1.0 + value / 100.0) == price + move;
    assert price * (1.0 - value / 100.0) == price - move;
    if op.PctIncrease? || op.FixedIncrease? {
      RoundIsMonotone(price, raw);
    } else {
      RoundIsMonotone(raw, price);
    }
  }

  lemma Scale(a: real, b: real, u: real)
    requires u > 0.0
    ensures a <= b <==> a * u <= b * u
  {
    assert (b - a) * u >= 0.0 <==> b - a >= 0.0;
  }

  lemma FloorBounds(price: real, u: real)
    requires u > 0.0
    ensures var k := (price / u).Floor as real; k * u <= price < k * u + u
  {
    var q := price / u;
    var k := q.Floor as real;
    assert k <= q < k + 1.0;
    assert q * u == price;
    var next := k + 1.0;
    Scale(k, q, u);
    Scale(next, q, u);
    assert next * u > q * u;
    assert next * u == k * u + u;
    assert k * u <= price;
    assert price < k * u + u;
    assert k == (price / u).Floor as real;
  }

  /** The greatest multiple of `unit` at or below the price. */
  function FloorTo(price: real, unit: int): (f: int)
    requires unit > 0
    ensures exists k: int :: f == k * unit
    ensures f as real <= price < f as real + unit as real
  {
    var k := (price / unit as real).Floor;
    FloorBounds(price, unit as real);
    assert (k as real) * unit as real == (k * unit) as real;
    k * unit
  }

  /** The least multiple of `unit` at or above the price. */
  function CeilTo(price: real, unit: int): (c: int)
    requires unit > 0
    ensures exists k: int :: c == k * unit
    ensures c as real - unit as real < price <= c as real
  {
    var f := FloorTo(-price, unit);
    assert exists k: int :: -f == k * unit by {
      var k: int :| f == k * unit;
      assert -f == (-k) * unit;
    }
    -f
  }

  /** A rounded price is below a multiple of its unit exactly when the price is, by more
      than half a unit. */
  lemma RoundBelowMultiple(raw: real, k: int)
    ensures Round(raw) < k * Unit(raw) <==> raw + Unit(raw) as real / 2.0 < (k * Unit(raw)) as real
  {
    var u := Unit(raw) as real;
    var q := raw / u + 0.5;
    assert q * u == raw + u / 2.0;
    assert (k as real) * u == (k * Unit(raw)) as real;
    assert q.Floor < k <==> q < k as real;
    assert q < k as real <==> q * u < (k as real) * u;
    assert q.Floor < k <==> q.Floor * Unit(raw) < k * Unit(raw);
  }

  /** Between neighbouring multiples nothing else is a multiple. */
  lemma MultiplesAreApart(m: int, k: int, unit: int)
    requires unit > 0
    ensures m * unit < k * unit <==> m * unit + unit <= k * unit
  {
    var gap := k - m;
    assert k * unit - m * unit == gap * unit;
    if gap >= 1 {
      assert (gap - 1) * unit >= 0;
      assert gap * unit == (gap - 1) * unit + unit;
    } else {
      assert (-gap) * unit >= 0;
      assert gap * unit == -((-gap) * unit);
    }
  }

  /** An increase lowers a price if and only if the raised price lies more than half a
      unit below the next multiple at or above the old one. */
  lemma IncreaseLowersExactlyWhen(op: Operation, value: real, price: real)
    requires ValidRequest(op, value) && Priced(op, value, price) && (op.PctIncrease? || op.FixedIncrease?)
    ensures var raw := Raw(op, value, price);
            NewPrice(op, value, price) as real < price <==>
            raw + Unit(raw) as real / 2.0 < CeilTo(price, Unit(raw)) as real
  {
    RoundBelowExactly(Raw(op, value, price), price);
  }

  lemma RoundBelowExactly(raw: real, price: real)
    ensures Round(raw) as real < price <==> raw + Unit(raw) as real / 2.0 < CeilTo(price, Unit(raw)) as real
  {
    var u, c := Unit(raw), CeilTo(price, Unit(raw));
    var k: int :| c == k * u;
    var m := (raw / u as real + 0.5).Floor;
    MultiplesAreApart(m, k, u);
    RoundBelowMultiple(raw, k);
  }

  /** A decrease raises a price if and only if the lowered price still lies half a unit or
      more above the last multiple at or below the old one. */
  lemma DecreaseRaisesExactlyWhen(op: Operation, value: real, price: real)
    requires ValidRequest(op, value) && Priced(op, value, price) && (op.PctDecrease? || op.FixedDecrease?)
    ensures var raw := Raw(op, value, price);
            NewPrice(op, value, price) as real > price <==>
            raw >= FloorTo(price, Unit(raw)) as real + Unit(raw) as real / 2.0
  {
    RoundAboveExactly(Raw(op, value, price), price);
  }

  lemma RoundAboveExactly(raw: real, price: real)
    ensures Round(raw) as real > price <==> raw >= FloorTo(price, Unit(raw)) as real + Unit(raw) as real / 2.0
  {
    var u, f := Unit(raw), FloorTo(price, Unit(raw));
    var k: int :| f == k * u;
    var m := (raw / u as real + 0.5).Floor;
    MultiplesAreApart(k, m, u);
    RoundBelowMultiple(raw, k + 1);
    assert (k + 1) * u == f + u;
  }

  /** It happens: 14,000 plus one per cent becomes 10,000. */
  lemma IncreaseCanLowerOffGrid()
    ensures !OnGrid(14_000.0)
    ensures Priced(PctIncrease, 1.0, 14_000.0) && NewPrice(PctIncrease, 1.0, 14_000.0) == 10_000
  {
    RoundIsNearest(14_000.0, 1);
    assert Raw(PctIncrease, 1.0, 14_000.0) == 14_140.0;
    RoundIsNearest(14_140.0, 1);
  }

  /** ... and 16,000 less one per cent becomes 20,000. */
  lemma DecreaseCanRaiseOffGrid()
    ensures Priced(PctDecrease, 1.0, 16_000.0) && NewPrice(PctDecrease, 1.0, 16_000.0) == 20_000
  {
    assert Raw(PctDecrease, 1.0, 16_000.0) == 15_840.0;
    RoundIsNearest(15_840.0, 2);
  }

  /** It happens: 4,000 plus one per cent becomes 0. */
  lemma PendingPriceCanBeZero()
    ensures Priced(PctIncrease, 1.0, 4_000.0) && NewPrice(PctIncrease, 1.0, 4_000.0) == 0
  {
    assert Raw(PctIncrease, 1.0, 4_000.0) == 4_040.0;
    PendingPriceIsZeroExactlyBelowHalfUnit(PctIncrease, 1.0, 4_000.0);
  }

  /** The preview's test for a positive price comes before rounding, so a pending item
      can carry the price zero: exactly when the unrounded price is below 5,000. */
  lemma PendingPriceIsZeroExactlyBelowHalfUnit(op: Operation, value: real, price: real)
    requires Priced(op, value, price)
    ensures NewPrice(op, value, price) >= 0
    ensures NewPrice(op, value, price) == 0 <==> Raw(op, value, price) < 5_000.0
  {
    RoundKeepsSide(Raw(op, value, price));
    RoundIsNearest(Raw(op, value, price), 0);
  }
}
