/** app/validation.py: the reusable validation engine. */
module Validation {
  import opened Texts
  import opened Prices
  import opened Tables

  datatype Level = Info | Warning | Error | Critical

  datatype Rule =
    | OutOfStockMarker | NonNumericPrice | NegativePrice | ExtremelyLow | ExtremelyHigh | LargeIncrease
    | InvalidStockStatus | NegativeStockQuantity | MissingWcId | MissingCacheEntry

  /** `ValidationResult`; a number that is the offending value is printed. */
  datatype Finding = Finding(level: Level, rule: Rule, product: int, value: Text)

  const EXTREMELY_LOW := 0.001
  const EXTREMELY_HIGH := 10_000_000_000_000.0
  const LARGE_INCREASE := 10.0

  predicate ValidStockStatus(s: string) { s == "instock" || s == "outofstock" || s == "onbackorder" }

  /** `validate_price`. */
  function ValidatePrice(product: int, price: Text, oldPrice: Text): seq<Finding>
  {
    if !NonBlank(price) then [Finding(Warning, OutOfStockMarker, product, price)]
    else if ToFloat(price).None? then [Finding(Critical, NonNumericPrice, product, price)]
    else
      var v := ToFloat(price).value;
      if v < 0.0 then [Finding(Critical, NegativePrice, product, price)]
      else if v == 0.0 then [Finding(Warning, OutOfStockMarker, product, price)]
      else
        var was := ToFloat(oldPrice);
        (if v < EXTREMELY_LOW then [Finding(Critical, ExtremelyLow, product, price)] else [])
        + (if v > EXTREMELY_HIGH then [Finding(Warning, ExtremelyHigh, product, price)] else [])
        + (if was.Some? && was.value > 0.0 && v > was.value * LARGE_INCREASE
           then [Finding(Warning, LargeIncrease, product, price)] else [])
  }

  /** `validate_stock`, for an integer quantity column. */
  function ValidateStock(product: int, status: Text, quantity: Option<int>): seq<Finding>
  {
    (if NonBlank(status) && !ValidStockStatus(Strip(status.value))
     then [Finding(Critical, InvalidStockStatus, product, status)] else [])
    + (if quantity.Some?
       && quantity.value < 0 then [Finding(Error, NegativeStockQuantity, product, Some(IntText(quantity.value)))]
          else [])
  }

  /** `validate_product`. */
  function ValidateProduct(product: int, cached: bool): seq<Finding>
  {
    if product <= 0 then [Finding(Critical, MissingWcId, product, Some(IntText(product)))]
    else if !cached then [Finding(Warning, MissingCacheEntry, product, Some(IntText(product)))]
    else []
  }

  /** The findings of `validate_items` about one item. */
  function ValidateItem(item: SyncItem, cached: set<int>): seq<Finding>
  {
    ValidateProduct(item.product, item.product in cached)
    + ValidatePrice(item.product, item.newPrice, item.oldPrice)
    + ValidateStock(item.product, item.stockStatus, item.stockQuantity)
  }

  /** What an item without critical findings looks like. */
  predicate Acceptable(item: SyncItem)
  {
    && item.product > 0
    && (NonBlank(item.newPrice) ==>
          ToFloat(item.newPrice).Some?
              && (ToFloat(item.newPrice).value == 0.0 || ToFloat(item.newPrice).value >= EXTREMELY_LOW))
    && (NonBlank(item.stockStatus) ==> ValidStockStatus(Strip(item.stockStatus.value)))
  }

  ghost predicate HasCritical(fs: seq<Finding>) { exists f :: f in fs && f.level == Critical }

  /** The engine raises a critical finding exactly for the items that are not acceptable. */
  lemma CriticalIffUnacceptable(item: SyncItem, cached: set<int>)
    ensures HasCritical(ValidateItem(item, cached)) <==> !Acceptable(item)
  {
    hide ToFloat, Strip;
    var a := ValidateProduct(item.product, item.product in cached);
    var b := ValidatePrice(item.product, item.newPrice, item.oldPrice);
    var c := ValidateStock(item.product, item.stockStatus, item.stockQuantity);
    if item.product <= 0 { assert a[0] in a + b + c; }
    if !(NonBlank(item.newPrice) ==>
           ToFloat(item.newPrice).Some?
               && (ToFloat(item.newPrice).value == 0.0 || ToFloat(item.newPrice).value >= EXTREMELY_LOW)) {
      assert b[0] in a + b + c;
    }
    if NonBlank(item.stockStatus) && !ValidStockStatus(Strip(item.stockStatus.value)) { assert c[0] in a + b + c; }
  }

  /** An item with an error or warning finding: not in the cache, without a price, with an
      implausible price, or with a negative quantity. */
  predicate Doubtful(item: SyncItem, cached: set<int>)
  {
    || (item.product > 0 && item.product !in cached)
    || !NonBlank(item.newPrice)
    || (ToFloat(item.newPrice).Some? &&
        var v, was := ToFloat(item.newPrice).value, ToFloat(item.oldPrice);
        v == 0.0 || v > EXTREMELY_HIGH || (v > 0.0 && was.Some? && was.value > 0.0 && v > was.value * LARGE_INCREASE))
    || (item.stockQuantity.Some? && item.stockQuantity.value < 0)
  }

  ghost predicate HasAdvice(fs: seq<Finding>) { exists f :: f in fs && (f.level.Error? || f.level.Warning?) }

  lemma AdviceOfConcat(a: seq<Finding>, b: seq<Finding>)
    ensures HasAdvice(a + b) <==> HasAdvice(a) || HasAdvice(b)
  {
  }

  lemma PriceAdvice(item: SyncItem)
    ensures HasAdvice(ValidatePrice(item.product, item.newPrice, item.oldPrice)) <==>
            || !NonBlank(item.newPrice)
            || (ToFloat(item.newPrice).Some? &&
                var v, was := ToFloat(item.newPrice).value, ToFloat(item.oldPrice);
                v == 0.0 || v > EXTREMELY_HIGH
                    || (v > 0.0 && was.Some? && was.value > 0.0 && v > was.value * LARGE_INCREASE))
  {
    hide ToFloat, Strip;
    var fs := ValidatePrice(item.product, item.newPrice, item.oldPrice);
    assert |fs| > 0 ==> fs[0] in fs;
    assert |fs| > 1 ==> fs[1] in fs;
    assert |fs| > 2 ==> fs[2] in fs;
  }

  lemma AdviceIffDoubtful(item: SyncItem, cached: set<int>)
    ensures HasAdvice(ValidateItem(item, cached)) <==> Doubtful(item, cached)
  {
    hide ToFloat, Strip, ValidatePrice, HasAdvice;
    var a := ValidateProduct(item.product, item.product in cached);
    var b := ValidatePrice(item.product, item.newPrice, item.oldPrice);
    var c := ValidateStock(item.product, item.stockStatus, item.stockQuantity);
    AdviceOfConcat(a, b);
    AdviceOfConcat(a + b, c);
    PriceAdvice(item);
    StockAndProductAdvice(item, cached);
  }

  lemma StockAndProductAdvice(item: SyncItem, cached: set<int>)
    ensures HasAdvice(ValidateProduct(item.product, item.product in cached)) <==>
              item.product > 0 && item.product !in cached
    ensures HasAdvice(ValidateStock(item.product, item.stockStatus, item.stockQuantity)) <==>
            item.stockQuantity.Some? && item.stockQuantity.value < 0
  {
    hide Strip;
    var a := ValidateProduct(item.product, item.product in cached);
    var c := ValidateStock(item.product, item.stockStatus, item.stockQuantity);
    assert |a| > 0 ==> a[0] in a;
    assert |c| > 0 ==> c[0] in c && c[|c| - 1] in c;
  }

  // ---------------------------------------------------------------- rule by rule

  /** What a rule is about. */
  predicate Cause(item: SyncItem, cached: set<int>, rule: Rule)
  {
    var now, was := ToFloat(item.newPrice), ToFloat(item.oldPrice);
    match rule
    case OutOfStockMarker => !NonBlank(item.newPrice) || now == Some(0.0)
    case NonNumericPrice => NonBlank(item.newPrice) && now == None
    case NegativePrice => now.Some? && now.value < 0.0
    case ExtremelyLow => now.Some? && 0.0 < now.value < 0.001
    case ExtremelyHigh => now.Some? && now.value > 10_000_000_000_000.0
    case LargeIncrease => now.Some? && was.Some? && was.value > 0.0 && now.value > 10.0 * was.value
    case InvalidStockStatus =>
      NonBlank(item.stockStatus) && Strip(item.stockStatus.value) !in ["instock", "outofstock", "onbackorder"]
    case NegativeStockQuantity => item.stockQuantity.Some? && item.stockQuantity.value < 0
    case MissingWcId => item.product <= 0
    case MissingCacheEntry => item.product > 0 && item.product !in cached
  }

  /** How serious it is: critical for what cannot be written at all. */
  function SeverityOf(rule: Rule): Level
  {
    match rule
    case NonNumericPrice => Critical
    case NegativePrice => Critical
    case ExtremelyLow => Critical
    case InvalidStockStatus => Critical
    case MissingWcId => Critical
    case NegativeStockQuantity => Error
    case _ => Warning
  }

  /** The value it points at. */
  function Offender(item: SyncItem, rule: Rule): Text
  {
    match rule
    case InvalidStockStatus => item.stockStatus
    case NegativeStockQuantity => if item.stockQuantity.Some? then Some(IntText(item.stockQuantity.value)) else None
    case MissingWcId => Some(IntText(item.product))
    case MissingCacheEntry => Some(IntText(item.product))
    case _ => item.newPrice
  }

  ghost predicate Explained(item: SyncItem, cached: set<int>, f: Finding)
  {
    f == Finding(SeverityOf(f.rule), f.rule, item.product, Offender(item, f.rule)) && Cause(item, cached, f.rule)
  }

  /** The engine says of an item exactly what is the case, rule by rule, and nothing twice. */
  lemma FindingsMean(item: SyncItem, cached: set<int>, f: Finding)
    ensures f in ValidateItem(item, cached) <==> Explained(item, cached, f)
    ensures multiset(ValidateItem(item, cached))[f] <= 1
  {
    hide ToFloat, Strip, IntText;
    var a := ValidateProduct(item.product, item.product in cached);
    var b := ValidatePrice(item.product, item.newPrice, item.oldPrice);
    var c := ValidateStock(item.product, item.stockStatus, item.stockQuantity);
    ProductFindings(item, cached, f);
    PriceFindings(item, cached, f);
    StockFindings(item, cached, f);
  }

  predicate AboutPrice(rule: Rule)
  {
    rule.OutOfStockMarker? || rule.NonNumericPrice? || rule.NegativePrice? || rule.ExtremelyLow? || rule.ExtremelyHigh?
    || rule.LargeIncrease?
  }

  lemma PriceFindings(item: SyncItem, cached: set<int>, f: Finding)
    ensures var fs := ValidatePrice(item.product, item.newPrice, item.oldPrice);
            (f in fs <==> Explained(item, cached, f) && AboutPrice(f.rule)) && multiset(fs)[f] <= 1
  {
    hide ToFloat, Strip, IntText;
    var now, was := ToFloat(item.newPrice), ToFloat(item.oldPrice);
    BlankIsNoNumber(item.newPrice);
    if now.Some? && now.value > 0.0 {
      PlausiblePrice(item, cached, f, now.value, was);
    }
  }

  function Only(b: bool, f: Finding): seq<Finding> { if b then [f] else [] }

  lemma ThreeAtMost(a: bool, x: Finding, b: bool, y: Finding, c: bool, z: Finding, f: Finding)
    requires x != y && y != z && x != z
    ensures var fs := Only(a, x) + Only(b, y) + Only(c, z);
            && (f in fs <==> (a && f == x) || (b && f == y) || (c && f == z))
            && multiset(fs)[f] <= 1
  {
  }

  /** A positive price. */
  lemma PlausiblePrice(item: SyncItem, cached: set<int>, f: Finding, now: real, was: Option<real>)
    requires NonBlank(item.newPrice) && ToFloat(item.newPrice) == Some(now) && now > 0.0
             && ToFloat(item.oldPrice) == was
    ensures var fs := ValidatePrice(item.product, item.newPrice, item.oldPrice);
            (f in fs <==> Explained(item, cached, f) && AboutPrice(f.rule)) && multiset(fs)[f] <= 1
  {
    hide ToFloat, NonBlank, Only, Explained, ValidatePrice;
    var a, b := now < 0.001, now > 10_000_000_000_000.0;
    var c := was.Some? && was.value > 0.0 && now > 10.0 * was.value;
    var x := Finding(Critical, ExtremelyLow, item.product, item.newPrice);
    var y := Finding(Warning, ExtremelyHigh, item.product, item.newPrice);
    var z := Finding(Warning, LargeIncrease, item.product, item.newPrice);
    ThreeAtMost(a, x, b, y, c, z, f);
    PlausibleList(item, now, was);
    PlausibleCauses(item, cached, f, now, was);
  }

  lemma PlausibleList(item: SyncItem, now: real, was: Option<real>)
    requires NonBlank(item.newPrice) && ToFloat(item.newPrice) == Some(now) && now > 0.0
             && ToFloat(item.oldPrice) == was
    ensures ValidatePrice(item.product, item.newPrice, item.oldPrice) ==
            Only(now < 0.001, Finding(Critical, ExtremelyLow, item.product, item.newPrice))
            + Only(now > 10_000_000_000_000.0, Finding(Warning, ExtremelyHigh, item.product, item.newPrice))
            + Only(was.Some? && was.value > 0.0 && now > 10.0 * was.value,
                   Finding(Warning, LargeIncrease, item.product, item.newPrice))
  {
    hide ToFloat, NonBlank;
  }

  lemma PlausibleCauses(item: SyncItem, cached: set<int>, f: Finding, now: real, was: Option<real>)
    requires NonBlank(item.newPrice) && ToFloat(item.newPrice) == Some(now) && now > 0.0
             && ToFloat(item.oldPrice) == was
    ensures Explained(item, cached, f) && AboutPrice(f.rule) <==>
            || (now < 0.001 && f == Finding(Critical, ExtremelyLow, item.product, item.newPrice))
            || (now > 10_000_000_000_000.0 && f == Finding(Warning, ExtremelyHigh, item.product, item.newPrice))
            || (was.Some? && was.value > 0.0 && now > 10.0 * was.value
                && f == Finding(Warning, LargeIncrease, item.product, item.newPrice))
  {
    hide ToFloat, NonBlank, IntText;
  }

  lemma BlankIsNoNumber(p: Text)
    ensures !NonBlank(p) ==> ToFloat(p) == None
  {
  }

  lemma StockFindings(item: SyncItem, cached: set<int>, f: Finding)
    ensures var fs := ValidateStock(item.product, item.stockStatus, item.stockQuantity);
            && (f in fs <==>
                Explained(item, cached, f) && (f.rule.InvalidStockStatus? || f.rule.NegativeStockQuantity?))
            && multiset(fs)[f] <= 1
  {
    hide ToFloat, Strip, IntText;
  }

  lemma ProductFindings(item: SyncItem, cached: set<int>, f: Finding)
    ensures var fs := ValidateProduct(item.product, item.product in cached);
            && (f in fs <==> Explained(item, cached, f) && (f.rule.MissingWcId? || f.rule.MissingCacheEntry?))
            && multiset(fs)[f] <= 1
  {
    hide ToFloat, Strip, IntText;
  }

  // ---------------------------------------------------------------- the worst level

  function LevelRank(l: Level): nat { match l case Info => 0 case Warning => 1 case Error => 2 case Critical => 3 }

  /** `worst_level`. */
  function WorstLevel(fs: seq<Finding>): Option<Level>
  {
    if fs == [] then None
    else
      var rest := WorstLevel(fs[1..]);
      if rest.Some? && LevelRank(rest.value) > LevelRank(fs[0].level) then rest else Some(fs[0].level)
  }

  ghost predicate Reaches(fs: seq<Finding>, l: Level) { exists f :: f in fs && f.level == l }

  /** The worst level is reached by a finding and exceeded by none: it is critical exactly
      when some finding is, else an error exactly when some finding is, and else a warning
      exactly when some finding is. */
  lemma {:induction false} WorstLevelIsWorst(fs: seq<Finding>)
    ensures WorstLevel(fs).None? <==> fs == []
    ensures fs != [] ==> exists f :: f in fs && f.level == WorstLevel(fs).value
    ensures forall f :: f in fs ==> LevelRank(f.level) <= LevelRank(WorstLevel(fs).value)
    ensures HasCritical(fs) <==> WorstLevel(fs) == Some(Critical)
    ensures WorstLevel(fs) == Some(Error) <==> !HasCritical(fs) && Reaches(fs, Error)
    ensures WorstLevel(fs) == Some(Warning) <==> !HasCritical(fs) && !Reaches(fs, Error) && Reaches(fs, Warning)
  {
    if fs != [] {
      WorstLevelIsWorst(fs[1..]);
      assert fs == [fs[0]] + fs[1..];
      assert fs[0] in fs;
    }
  }
}
