/** The average entry price of a perpetual position, in fixed-point arithmetic that
    rounds down twice and divides by the position's size. */
module EntryPrice {
  import opened Arithmetic
  import opened Types

  /** Eighteen decimals. */
  const PRECISION: U256 := 1_000_000_000_000_000_000

  const TWO_TO_THE_127: int := 0x8000_0000_0000_0000_0000_0000_0000_0000

  type i128 = x: int | -TWO_TO_THE_127 <= x < TWO_TO_THE_127

  datatype Side = Long | Short

  datatype Position = Position(size: i128, entryPrice: U256, leverage: nat, margin: U256, lastFundingIndex: U256)

  // ---------- Machine arithmetic ----------

  function Wrap256(x: nat): (r: U256)
    ensures x < TWO_TO_THE_256 ==> r == x
  {
    x % TWO_TO_THE_256
  }

  function Mul256(a: U256, b: U256): U256 { Wrap256(a * b) }

  function Add256(a: U256, b: U256): U256 { Wrap256(a + b) }

  function Div256(a: U256, b: U256): (r: U256)
    requires b > 0
    ensures r == a / b
  {
    QuotientShrinks(a, b);
    a / b
  }

  lemma QuotientShrinks(a: nat, b: nat)
    requires b > 0
    ensures 0 <= a / b <= a
  {
    RoundDown(a, b);
    ProductGrows(1, b, a / b);
  }

  function Wrap128(x: int): (r: i128)
    ensures -TWO_TO_THE_127 <= x < TWO_TO_THE_127 ==> r == x
  {
    (x + TWO_TO_THE_127) % (2 * TWO_TO_THE_127) - TWO_TO_THE_127
  }

  function UnsignedAbs(x: i128): (r: U256)
    ensures r == if x < 0 then 0 - x else x
  {
    if x < 0 then 0 - x else x
  }

  /** The smallest integer has no positive counterpart. */
  function Abs128(x: i128): i128 {
    if x == -TWO_TO_THE_127 then x else if x < 0 then 0 - x else x
  }

  function Signum(x: int): int {
    if x < 0 then -1 else if x == 0 then 0 else 1
  }

  // ---------- The update ----------

  function RequiredMargin(price: U256, size: U256, leverage: nat): U256
    requires 1 <= leverage <= 100
  {
    Div256(Div256(Mul256(price, size), PRECISION), leverage)
  }

  /** A fill as a change of size; too large a size is cut to the largest. */
  function SizeDelta(side: Side, filled: U256): i128 {
    var size := if filled < TWO_TO_THE_127 then filled else TWO_TO_THE_127 - 1;
    match side case Long => size case Short => -size
  }

  function AverageEntry(size: i128, entry: U256, delta: i128, price: U256): U256 {
    var oldNotional := Div256(Mul256(UnsignedAbs(size), entry), PRECISION);
    var newNotional := Div256(Mul256(UnsignedAbs(delta), price), PRECISION);
    var total := UnsignedAbs(Wrap128(size + delta));
    if total > 0 then Div256(Mul256(Add256(oldNotional, newNotional), PRECISION), total) else 0
  }

  function NewEntry(size: i128, entry: U256, delta: i128, price: U256): U256 {
    if Signum(size) == Signum(delta) then AverageEntry(size, entry, delta, price)
    else if Abs128(Wrap128(size + delta)) < Abs128(size) then entry
    else price
  }

  function UpdatePosition(current: Option<Position>, side: Side, filled: U256, price: U256, leverage: nat): Position
    requires 1 <= leverage <= 100
  {
    var delta := SizeDelta(side, filled);
    match current
    case None => Position(delta, price, leverage, RequiredMargin(price, filled, leverage), 0)
    case Some(p) =>
      var size := Wrap128(p.size + delta);
      var entry := NewEntry(p.size, p.entryPrice, delta, price);
      Position(size, entry, leverage, RequiredMargin(entry, UnsignedAbs(size), leverage), p.lastFundingIndex)
  }

  // ---------- One fill on the same side ----------

  function Max(a: int, b: int): int { if a < b then b else a }
  function Least(a: int, b: int): int { if a < b then a else b }

  /** Rounding down loses less than one unit of the divisor. */
  lemma RoundDown(x: nat, d: nat)
    requires d > 0
    ensures x / d * d <= x < x / d * d + d
  {
  }

  /** The mean of two prices, both notionals rounded down: never above the higher price,
      and below the lower one by less than the rounding lets it. */
  lemma MeanBound(a: nat, x: nat, b: nat, y: nat, s: nat)
    requires s == a + b > 0
    ensures
      var mean := (a * x / PRECISION + b * y / PRECISION) * PRECISION / s;
      && (a * x / PRECISION + b * y / PRECISION) * PRECISION <= a * x + b * y <= s * Max(x, y)
      && mean <= Max(x, y)
      && mean * s <= a * x + b * y < mean * s + s + 2 * PRECISION
      && (Least(x, y) - mean) * s < s + 2 * PRECISION
  {
    var m, h := a * x / PRECISION, b * y / PRECISION;
    var notional := (m + h) * PRECISION;
    var mean := notional / s;
    RoundDown(a * x, PRECISION);
    RoundDown(b * y, PRECISION);
    RoundDown(notional, s);
    Weighted(a, x, b, y);
    QuotientBound(notional, s, Max(x, y));
    assert (Least(x, y) - mean) * s == Least(x, y) * s - mean * s;
  }

  lemma Weighted(a: nat, x: nat, b: nat, y: nat)
    ensures (a + b) * Least(x, y) <= a * x + b * y <= (a + b) * Max(x, y)
  {
    ProductGrows(x, Max(x, y), a);
    ProductGrows(y, Max(x, y), b);
    ProductGrows(Least(x, y), x, a);
    ProductGrows(Least(x, y), y, b);
  }

  lemma QuotientBound(n: nat, s: nat, q: nat)
    requires s > 0 && n <= s * q
    ensures n / s <= q
  {
    RoundDown(n, s);
    assert s * (q + 1) == s * q + s;
    if n / s >= q + 1 {
      ProductGrows(q + 1, n / s, s);
      assert false;
    }
  }

  /** The fill is on the side of the position, and the sizes do not overflow. */
  predicate SameSide(size: i128, side: Side, filled: U256) {
    && size != 0 && 0 < filled
    && Signum(size) == Signum(SizeDelta(side, filled))
    && UnsignedAbs(size) + filled < TWO_TO_THE_127
  }

  /** None of the products of the average leaves 256 bits. */
  predicate AverageFits(a: nat, x: nat, b: nat, y: nat) {
    && a * x < TWO_TO_THE_256 && b * y < TWO_TO_THE_256
    && (a * x / PRECISION + b * y / PRECISION) * PRECISION < TWO_TO_THE_256
  }

  /** A fill on the same side that does not overflow moves the entry price to the mean of
      the two prices, weighted by size, up to the rounding: never above the mean, and below
      it by less than 1 + 2 * 10^18 / S, with S the new size. So it lies between the two
      prices up to as much. */
  lemma SameSideFill(p: Position, side: Side, filled: U256, price: U256, leverage: nat)
    requires 1 <= leverage <= 100 && SameSide(p.size, side, filled)
    requires AverageFits(UnsignedAbs(p.size), p.entryPrice, filled, price)
    ensures
      var r := UpdatePosition(Some(p), side, filled, price, leverage);
      && UnsignedAbs(r.size) == UnsignedAbs(p.size) + filled && Signum(r.size) == Signum(p.size)
      && r.entryPrice * UnsignedAbs(r.size) <= UnsignedAbs(p.size) * p.entryPrice + filled * price
           < r.entryPrice * UnsignedAbs(r.size) + UnsignedAbs(r.size) + 2 * PRECISION
      && r.entryPrice <= Max(p.entryPrice, price)
      && (Least(p.entryPrice, price) - r.entryPrice) * UnsignedAbs(r.size) < UnsignedAbs(r.size) + 2 * PRECISION
      && r.margin * leverage * PRECISION <= r.entryPrice * UnsignedAbs(r.size) < (r.margin + 1) * leverage * PRECISION
      && r.leverage == leverage && r.lastFundingIndex == p.lastFundingIndex
  {
    var a, b, x, y := UnsignedAbs(p.size), filled, p.entryPrice, price;
    var r := UpdatePosition(Some(p), side, filled, price, leverage);
    assert UnsignedAbs(SizeDelta(side, filled)) == b;
    assert r.size == p.size + SizeDelta(side, filled);
    MeanBound(a, x, b, y, a + b);
    AverageIsMean(p.size, x, SizeDelta(side, filled), y);
    RoundDown((a * x / PRECISION + b * y / PRECISION) * PRECISION, a + b);
    MarginBound(r.entryPrice, a + b, leverage);
  }

  /** No step of the average overflows. */
  lemma AverageIsMean(size: i128, entry: U256, delta: i128, price: U256)
    requires 0 < UnsignedAbs(size) + UnsignedAbs(delta) < TWO_TO_THE_127 && Signum(size) == Signum(delta)
    requires AverageFits(UnsignedAbs(size), entry, UnsignedAbs(delta), price)
    ensures AverageEntry(size, entry, delta, price) ==
            (UnsignedAbs(size) * entry / PRECISION + UnsignedAbs(delta) * price / PRECISION) * PRECISION
            / (UnsignedAbs(size) + UnsignedAbs(delta))
  {
    var a, b := UnsignedAbs(size), UnsignedAbs(delta);
    var m, h := a * entry / PRECISION, b * price / PRECISION;
    assert Mul256(a, entry) == a * entry && Mul256(b, price) == b * price;
    assert Add256(m, h) == m + h;
    assert UnsignedAbs(Wrap128(size + delta)) == a + b;
  }

  const MAX_PRICE: int := 2 * TWO_TO_THE_127

  /** Prices below 2^128 never overflow. */
  lemma ModestPricesFit(a: nat, x: nat, b: nat, y: nat)
    requires 0 < a + b < TWO_TO_THE_127 && x < MAX_PRICE && y < MAX_PRICE
    ensures AverageFits(a, x, b, y)
  {
    NoOverflow(a, x);
    NoOverflow(b, y);
    NoOverflow(a + b, Max(x, y));
    MeanBound(a, x, b, y, a + b);
  }

  lemma NoOverflow(size: nat, price: nat)
    requires size < TWO_TO_THE_127 && price < MAX_PRICE
    ensures size * price < TWO_TO_THE_256 && price * size < TWO_TO_THE_256
  {
    ProductGrows(size, TWO_TO_THE_127, price);
    ProductGrows(price, MAX_PRICE, TWO_TO_THE_127);
  }

  /** Rounding down twice loses less than one unit of the margin. */
  lemma MarginBound(price: U256, size: U256, leverage: nat)
    requires 1 <= leverage <= 100 && price * size < TWO_TO_THE_256
    ensures
      var margin := RequiredMargin(price, size, leverage);
      margin * leverage * PRECISION <= price * size < (margin + 1) * leverage * PRECISION
  {
    MarginIsQuotient(price, size, leverage);
    QuotientOfQuotient(price * size, leverage, price * size / PRECISION, RequiredMargin(price, size, leverage));
  }

  lemma MarginIsQuotient(price: U256, size: U256, leverage: nat)
    requires 1 <= leverage <= 100 && price * size < TWO_TO_THE_256
    ensures RequiredMargin(price, size, leverage) == price * size / PRECISION / leverage
  {
  }

  lemma QuotientOfQuotient(x: nat, d: nat, n: nat, m: nat)
    requires d > 0 && n == x / PRECISION && m == n / d
    ensures m * d * PRECISION <= x < (m + 1) * d * PRECISION
  {
    assert n * PRECISION <= x < n * PRECISION + PRECISION;
    assert m * d <= n < m * d + d by { RoundDown(n, d); }
    TwiceRounded(x, n, m, d);
  }

  lemma TwiceRounded(x: nat, n: nat, m: nat, d: nat)
    requires n * PRECISION <= x < n * PRECISION + PRECISION && m * d <= n < m * d + d
    ensures m * d * PRECISION <= x < (m + 1) * d * PRECISION
  {
    ProductOfSum(d, m, 1);
    Between(m * d, n, m * d + d);
  }

  lemma Between(low: nat, n: nat, high: nat)
    requires low <= n < high
    ensures low * PRECISION <= n * PRECISION && n * PRECISION + PRECISION <= high * PRECISION
  {
  }

  /** The first fill opens the position at its own price. A size that does not fit is cut,
      the margin is for all of it. */
  lemma FreshPosition(side: Side, filled: U256, price: U256, leverage: nat)
    requires 1 <= leverage <= 100
    ensures
      var r := UpdatePosition(None, side, filled, price, leverage);
      var held := if filled < TWO_TO_THE_127 then filled else TWO_TO_THE_127 - 1;
      && r.size == (if side == Long then held else 0 - held)
      && r.entryPrice == price && r.leverage == leverage && r.lastFundingIndex == 0
      && (price * filled < TWO_TO_THE_256 ==>
            r.margin * leverage * PRECISION <= price * filled < (r.margin + 1) * leverage * PRECISION)
  {
    if price * filled < TWO_TO_THE_256 { MarginBound(price, filled, leverage); }
  }

  /** Whatever the fill, the funding index stays, the leverage is the new one, and the
      margin is worked out anew. */
  lemma EveryUpdate(p: Position, side: Side, filled: U256, price: U256, leverage: nat)
    requires 1 <= leverage <= 100
    ensures
      var r := UpdatePosition(Some(p), side, filled, price, leverage);
      && r.lastFundingIndex == p.lastFundingIndex && r.leverage == leverage
      && (r.entryPrice * UnsignedAbs(r.size) < TWO_TO_THE_256 ==>
            r.margin * leverage * PRECISION <= r.entryPrice * UnsignedAbs(r.size) < (r.margin + 1) * leverage * PRECISION)
  {
    var r := UpdatePosition(Some(p), side, filled, price, leverage);
    if r.entryPrice * UnsignedAbs(r.size) < TWO_TO_THE_256 { MarginBound(r.entryPrice, UnsignedAbs(r.size), leverage); }
  }

  /** A position that grows beyond what its size can hold comes out on the other side. */
  lemma OversizedWrapsAround(p: Position, side: Side, filled: U256, price: U256, leverage: nat)
    requires 1 <= leverage <= 100 && filled < TWO_TO_THE_127
    ensures
      var sum := p.size + (if side == Long then filled else 0 - filled);
      var r := UpdatePosition(Some(p), side, filled, price, leverage);
      && (-TWO_TO_THE_127 <= sum < TWO_TO_THE_127 ==> r.size == sum)
      && (sum >= TWO_TO_THE_127 ==> r.size == sum - 2 * TWO_TO_THE_127 < 0)
      && (sum < -TWO_TO_THE_127 ==> r.size == sum + 2 * TWO_TO_THE_127 > 0)
  {
    WrapsOnce(p.size + SizeDelta(side, filled));
  }

  lemma WrapsOnce(x: int)
    requires -2 * TWO_TO_THE_127 <= x < 2 * TWO_TO_THE_127
    ensures Wrap128(x) == if x >= TWO_TO_THE_127 then x - 2 * TWO_TO_THE_127
                          else if x < -TWO_TO_THE_127 then x + 2 * TWO_TO_THE_127 else x
  {
  }

  /** An empty position starts over at the price of the fill. A fill of nothing, too, sets
      the entry price to its own price, or to zero if there was no position either. */
  lemma NothingToAverage(p: Position, side: Side, filled: U256, price: U256, leverage: nat)
    requires 1 <= leverage <= 100 && filled < TWO_TO_THE_127
    requires p.size == 0 || filled == 0
    ensures
      var r := UpdatePosition(Some(p), side, filled, price, leverage);
      && r.size == p.size + (if side == Long then filled else 0 - filled)
      && r.entryPrice == if p.size == 0 && filled == 0 then 0 else price
  {
  }

  // ---------- Runs of fills ----------

  datatype Fill = Fill(size: U256, price: U256)

  function Fills(p: Option<Position>, side: Side, fills: seq<Fill>, leverage: nat): Option<Position>
    requires 1 <= leverage <= 100
  {
    if fills == [] then p
    else
      var last := fills[|fills| - 1];
      Some(UpdatePosition(Fills(p, side, fills[..|fills| - 1], leverage), side, last.size, last.price, leverage))
  }

  function TotalSize(fills: seq<Fill>): nat {
    if fills == [] then 0 else TotalSize(fills[..|fills| - 1]) + fills[|fills| - 1].size
  }

  function HighestPrice(fills: seq<Fill>): nat {
    if fills == [] then 0 else Max(HighestPrice(fills[..|fills| - 1]), fills[|fills| - 1].price)
  }

  /** The highest price was paid, and none is higher. */
  lemma {:induction false} HighestIsPaid(fills: seq<Fill>)
    requires fills != []
    ensures exists i :: 0 <= i < |fills| && fills[i].price == HighestPrice(fills)
    ensures forall i :: 0 <= i < |fills| ==> fills[i].price <= HighestPrice(fills)
  {
    var n := |fills| - 1;
    var before := fills[..n];
    assert fills[n] in fills && forall i :: 0 <= i < n ==> before[i] == fills[i];
    if before != [] { HighestIsPaid(before); }
  }

  /** Sizes add up, and no fill overflows on top of those before it. */
  predicate RunFits(side: Side, fills: seq<Fill>, leverage: nat)
    requires 1 <= leverage <= 100
  {
    fills == [] ||
    var before, last := fills[..|fills| - 1], fills[|fills| - 1];
    && RunFits(side, before, leverage)
    && 0 < last.size && TotalSize(fills) < TWO_TO_THE_127
    && match Fills(None, side, before, leverage)
       case None => last.size * last.price < TWO_TO_THE_256
       case Some(p) => AverageFits(UnsignedAbs(p.size), p.entryPrice, last.size, last.price)
  }

  /** After any number of fills on one side of a fresh position, the position holds their
      total and its entry price is no higher than the highest price paid. */
  lemma {:induction false} EntryNeverAboveFills(side: Side, fills: seq<Fill>, leverage: nat)
    requires 1 <= leverage <= 100 && fills != [] && RunFits(side, fills, leverage)
    ensures
      var r := Fills(None, side, fills, leverage);
      && r.Some?
      && r.value.size == (if side == Long then TotalSize(fills) else 0 - TotalSize(fills))
      && TotalSize(fills) > 0
      && r.value.entryPrice <= HighestPrice(fills)
      && r.value.margin * leverage * PRECISION <= r.value.entryPrice * TotalSize(fills) < (r.value.margin + 1) * leverage * PRECISION
      && r.value.leverage == leverage && r.value.lastFundingIndex == 0
    decreases |fills|
  {
    var before, last := fills[..|fills| - 1], fills[|fills| - 1];
    if before == [] {
      FirstFill(side, fills, leverage);
    } else {
      EntryNeverAboveFills(side, before, leverage);
      OneMoreFill(Fills(None, side, before, leverage).value, side, before, last, leverage);
    }
  }

  lemma FirstFill(side: Side, fills: seq<Fill>, leverage: nat)
    requires 1 <= leverage <= 100 && |fills| == 1 && RunFits(side, fills, leverage)
    ensures
      var first := fills[0];
      && Fills(None, side, fills, leverage) == Some(UpdatePosition(None, side, first.size, first.price, leverage))
      && TotalSize(fills) == first.size < TWO_TO_THE_127 && 0 < first.size
      && HighestPrice(fills) == first.price
      && var r := UpdatePosition(None, side, first.size, first.price, leverage);
         && r.size == (if side == Long then first.size else 0 - first.size)
         && r.entryPrice == first.price && r.leverage == leverage && r.lastFundingIndex == 0
         && r.margin * leverage * PRECISION <= first.price * first.size < (r.margin + 1) * leverage * PRECISION
  {
    assert fills[..0] == [];
    FreshPosition(side, fills[0].size, fills[0].price, leverage);
  }

  lemma OneMoreFill(p: Position, side: Side, before: seq<Fill>, last: Fill, leverage: nat)
    requires 1 <= leverage <= 100 && 0 < TotalSize(before) && 0 < last.size && TotalSize(before) + last.size < TWO_TO_THE_127
    requires p.size == (if side == Long then TotalSize(before) else 0 - TotalSize(before))
    requires p.entryPrice <= HighestPrice(before) && AverageFits(UnsignedAbs(p.size), p.entryPrice, last.size, last.price)
    ensures
      var r := UpdatePosition(Some(p), side, last.size, last.price, leverage);
      var total := TotalSize(before) + last.size;
      && r.size == (if side == Long then total else 0 - total)
      && r.entryPrice <= Max(HighestPrice(before), last.price)
      && r.margin * leverage * PRECISION <= r.entryPrice * total < (r.margin + 1) * leverage * PRECISION
      && r.leverage == leverage && r.lastFundingIndex == p.lastFundingIndex
  {
    SameSideFill(p, side, last.size, last.price, leverage);
  }

  /** What a caller can check beforehand: prices below 2^128, sizes below 2^127 in all. */
  lemma {:induction false} ModestRunFits(side: Side, fills: seq<Fill>, leverage: nat)
    requires 1 <= leverage <= 100 && TotalSize(fills) < TWO_TO_THE_127
    requires forall i :: 0 <= i < |fills| ==> 0 < fills[i].size && fills[i].price < MAX_PRICE
    ensures RunFits(side, fills, leverage) && HighestPrice(fills) < MAX_PRICE
    decreases |fills|
  {
    if fills != [] {
      var before, last := fills[..|fills| - 1], fills[|fills| - 1];
      ModestRunFits(side, before, leverage);
      if before == [] {
        NoOverflow(last.size, last.price);
      } else {
        EntryNeverAboveFills(side, before, leverage);
        var p := Fills(None, side, before, leverage).value;
        ModestPricesFit(UnsignedAbs(p.size), p.entryPrice, last.size, last.price);
      }
    }
  }

  // ---------- Fills on the other side ----------

  /** A fill on the other side never averages. It keeps the entry price exactly when the
      position gets smaller, counted without its sign; that includes a flip to the other
      side by less than the old size, although a flip is meant to restart at the fill. */
  lemma OtherSideFill(p: Position, side: Side, filled: U256, price: U256, leverage: nat)
    requires 1 <= leverage <= 100 && 0 < filled < TWO_TO_THE_127
    requires p.size != -TWO_TO_THE_127 && Signum(p.size) == -Signum(SizeDelta(side, filled))
    ensures
      var r := UpdatePosition(Some(p), side, filled, price, leverage);
      var flips := filled > UnsignedAbs(p.size);
      && r.size == p.size + SizeDelta(side, filled)
      && r.entryPrice == (if filled < 2 * UnsignedAbs(p.size) then p.entryPrice else price)
      && (flips <==> Signum(r.size) == -Signum(p.size) )
      && (flips ==> (r.entryPrice == price <==> filled >= 2 * UnsignedAbs(p.size) || p.entryPrice == price))
  {
  }

  /** Ten bought at 100, fifteen sold at 70: five are short at 100. */
  lemma FlipKeepsOldPrice()
    ensures
      var p := Position(10, 100, 1, 0, 0);
      var r := UpdatePosition(Some(p), Short, 15, 70, 1);
      r.size == -5 && r.entryPrice == 100
  {
  }
}
