/** `CalculateTradeCosts` of internal/backtest/charges.go, on exact amounts. */
module Charges {
  datatype Rates = Rates(brokerageRate: real, brokerageCap: real, stt: real, exchangeTxn: real, sebi: real,
                         stampDuty: real, gst: real)

  datatype Breakdown = Breakdown(entryValue: real, exitValue: real, turnover: real, grossProfit: real,
                                 brokerageEntry: real, brokerageExit: real, brokerageTotal: real, stt: real, exchangeTxn: real,
                                 sebi: real, stampDuty: real, gst: real, totalCharges: real, netProfit: real,
                                 netGainPct: real, breakevenPoints: real)

  // ---- Rounding ----

  /** Rounds to the nearest integer, halves away from zero. */
  function Round(x: real): (r: int)
    ensures -0.5 <= r as real - x <= 0.5
  {
    if x >= 0.0 then (x + 0.5).Floor else -((0.5 - x).Floor)
  }

  /** A half goes up for a positive amount and down for a negative one. */
  lemma HalvesAwayFromZero(x: real)
    ensures x >= 0.0 ==> x - 0.5 < Round(x) as real <= x + 0.5
    ensures Round(-x) == -Round(x)
  {
  }

  lemma RoundInteger(n: int)
    ensures Round(n as real) == n
  {
    var r := Round(n as real);
    assert (r - n) as real == r as real - n as real;
  }

  /** A whole number of hundredths. */
  predicate Whole(x: real) {
    (100.0 * x).Floor as real == 100.0 * x
  }

  function Round2(x: real): (r: real)
    ensures Whole(r) && -0.005 <= r - x <= 0.005
  {
    var n := Round(x * 100.0);
    WholeHundredths(n);
    n as real / 100.0
  }

  lemma WholeStays(x: real)
    requires Whole(x)
    ensures Round2(x) == x
  {
    RoundInteger((100.0 * x).Floor);
  }

  lemma WholeHundredths(n: int)
    ensures 100.0 * (n as real / 100.0) == n as real
  {
  }

  function Round4(x: real): (r: real)
    ensures -0.00005 <= r - x <= 0.00005
  {
    Round(x * 10000.0) as real / 10000.0
  }

  lemma WholeSum(a: real, b: real)
    requires Whole(a) && Whole(b)
    ensures Whole(a + b) && Whole(a - b)
  {
    var m, n := (100.0 * a).Floor, (100.0 * b).Floor;
    FloorOf(100.0 * (a + b), m + n);
    FloorOf(100.0 * (a - b), m - n);
  }

  lemma FloorOf(x: real, n: int)
    requires x == n as real
    ensures x.Floor as real == x
  {
  }

  // ---- The unrounded charges ----

  function Brokerage(value: real, rates: Rates): real {
    if value <= 0.0 then 0.0
    else if value * rates.brokerageRate < rates.brokerageCap then value * rates.brokerageRate
    else rates.brokerageCap
  }

  /** The rate on a positive value, but no more than the cap. */
  lemma BrokerageIs(value: real, rates: Rates)
    ensures value <= 0.0 ==> Brokerage(value, rates) == 0.0
    ensures value > 0.0 ==>
              var b := Brokerage(value, rates);
              && b <= value * rates.brokerageRate && b <= rates.brokerageCap
              && (b == value * rates.brokerageRate || b == rates.brokerageCap)
  {
  }

  predicate Near(rounded: real, exact: real, half: real) {
    -half <= rounded - exact <= half
  }

  /** The charges before rounding. */
  datatype Amounts = Amounts(brokerageEntry: real, brokerageExit: real, stt: real, exchangeTxn: real, sebi: real,
                             stampDuty: real, gst: real)

  /** What the rates give on the rounded values: stamp duty on the purchase, transaction tax on the sale, fees on the
      turnover, and the tax on brokerage and fees. */
  function Charged(entryValue: real, exitValue: real, turnover: real, rates: Rates): Amounts {
    var entryFee, exitFee := Brokerage(entryValue, rates), Brokerage(exitValue, rates);
    var exchangeTxn, sebi := turnover * rates.exchangeTxn, turnover * rates.sebi;
    Amounts(entryFee, exitFee, exitValue * rates.stt, exchangeTxn, sebi, entryValue * rates.stampDuty,
            (entryFee + exitFee + exchangeTxn + sebi) * rates.gst)
  }

  function Total(a: Amounts): real {
    a.brokerageEntry + a.brokerageExit + a.stt + a.exchangeTxn + a.sebi + a.stampDuty + a.gst
  }

  /** The total as one formula: the tax is on brokerage and fees. */
  lemma TotalIs(entryValue: real, exitValue: real, turnover: real, rates: Rates)
    ensures Total(Charged(entryValue, exitValue, turnover, rates)) ==
            (Brokerage(entryValue, rates) + Brokerage(exitValue, rates) + turnover * (rates.exchangeTxn + rates.sebi))
            * (1.0 + rates.gst) + exitValue * rates.stt + entryValue * rates.stampDuty
  {
    var base := Brokerage(entryValue, rates) + Brokerage(exitValue, rates) + turnover * rates.exchangeTxn + turnover * rates.sebi;
    assert turnover * (rates.exchangeTxn + rates.sebi) == turnover * rates.exchangeTxn + turnover * rates.sebi;
    assert base * (1.0 + rates.gst) == base + base * rates.gst;
  }

  // ---- The calculation ----

  /** A negative quantity counts as none. */
  function TradeValue(price: real, quantity: int): (v: real)
    ensures Whole(v)
    ensures quantity >= 0 ==> -0.005 <= v - price * quantity as real <= 0.005
    ensures quantity <= 0 ==> v == 0.0
  {
    if quantity <= 0 then 0.0 else Round2(price * quantity as real)
  }

  /** Only the seven components are ever rounded away. */
  function CalculateTradeCosts(entryPrice: real, exitPrice: real, quantity: int, rates: Rates): (b: Breakdown)
    ensures b.entryValue == TradeValue(entryPrice, quantity) && b.exitValue == TradeValue(exitPrice, quantity)
    ensures AddsUp(b) && Itemised(b, Charged(b.entryValue, b.exitValue, b.turnover, rates)) && Ratios(b, quantity)
    ensures Near(b.totalCharges, Total(Charged(b.entryValue, b.exitValue, b.turnover, rates)), 0.035)
  {
    var qty := if quantity < 0 then 0 else quantity;
    var entryValue, exitValue := TradeValue(entryPrice, qty), TradeValue(exitPrice, qty);
    var turnover := Round2(entryValue + exitValue);
    CostsAddUp(entryValue, exitValue, Charged(entryValue, exitValue, turnover, rates), qty);
    Costs(entryValue, exitValue, turnover, Charged(entryValue, exitValue, turnover, rates), qty)
  }

  function Costs(entryValue: real, exitValue: real, turnover: real, a: Amounts, qty: nat): Breakdown {
    var brokerageEntry, brokerageExit := Round2(a.brokerageEntry), Round2(a.brokerageExit);
    var brokerageTotal := Round2(brokerageEntry + brokerageExit);
    var stt, exchangeTxn, sebi := Round2(a.stt), Round2(a.exchangeTxn), Round2(a.sebi);
    var stampDuty, gst := Round2(a.stampDuty), Round2(a.gst);
    var totalCharges := Round2(brokerageTotal + stt + exchangeTxn + sebi + stampDuty + gst);
    var grossProfit := Round2(exitValue - entryValue);
    var netProfit := Round2(grossProfit - totalCharges);
    Breakdown(entryValue, exitValue, turnover, grossProfit, brokerageEntry, brokerageExit, brokerageTotal, stt, exchangeTxn,
              sebi, stampDuty, gst, totalCharges, netProfit,
              Round4(if entryValue > 0.0 then netProfit / entryValue * 100.0 else 0.0),
              if qty > 0 then Round4(totalCharges / qty as real) else 0.0)
  }

  /** The sums on the way are exact, and the profits add up. */
  predicate AddsUp(b: Breakdown) {
    && b.turnover == b.entryValue + b.exitValue
    && b.brokerageTotal == b.brokerageEntry + b.brokerageExit
    && b.totalCharges == b.brokerageTotal + b.stt + b.exchangeTxn + b.sebi + b.stampDuty + b.gst
    && b.grossProfit == b.exitValue - b.entryValue
    && b.netProfit == b.grossProfit - b.totalCharges
  }

  /** Every item is the rounding of its amount. */
  ghost predicate Itemised(b: Breakdown, a: Amounts) {
    && Near(b.brokerageEntry, a.brokerageEntry, 0.005) && Near(b.brokerageExit, a.brokerageExit, 0.005)
    && Near(b.stt, a.stt, 0.005) && Near(b.exchangeTxn, a.exchangeTxn, 0.005) && Near(b.sebi, a.sebi, 0.005)
    && Near(b.stampDuty, a.stampDuty, 0.005) && Near(b.gst, a.gst, 0.005)
  }

  /** The gain in percent of the purchase, and the points a share that pay for the charges. */
  ghost predicate Ratios(b: Breakdown, quantity: int) {
    && Near(b.netGainPct, if b.entryValue > 0.0 then b.netProfit / b.entryValue * 100.0 else 0.0, 0.00005)
    && Near(b.breakevenPoints, if quantity > 0 then b.totalCharges / quantity as real else 0.0, 0.00005)
  }

  lemma CostsAddUp(entryValue: real, exitValue: real, a: Amounts, qty: nat)
    requires Whole(entryValue) && Whole(exitValue)
    ensures var b := Costs(entryValue, exitValue, Round2(entryValue + exitValue), a, qty);
            AddsUp(b) && Itemised(b, a) && Ratios(b, qty) && Near(b.totalCharges, Total(a), 0.035)
  {
    var turnover := entryValue + exitValue;
    ExactSum(entryValue, exitValue);
    ChargesAddUp(entryValue, exitValue, turnover, a, qty);
    NetAddsUp(entryValue, exitValue, turnover, a, qty);
    ItemsNear(entryValue, exitValue, turnover, a, qty);
    RatiosNear(entryValue, exitValue, turnover, a, qty);
  }

  lemma ChargesAddUp(entryValue: real, exitValue: real, turnover: real, a: Amounts, qty: nat)
    ensures var b := Costs(entryValue, exitValue, turnover, a, qty);
            && b.brokerageTotal == b.brokerageEntry + b.brokerageExit
            && b.totalCharges == b.brokerageTotal + b.stt + b.exchangeTxn + b.sebi + b.stampDuty + b.gst
  {
    var b := Costs(entryValue, exitValue, turnover, a, qty);
    ExactSum(b.brokerageEntry, b.brokerageExit);
    SixWhole(b.brokerageTotal, b.stt, b.exchangeTxn, b.sebi, b.stampDuty, b.gst);
  }

  lemma NetAddsUp(entryValue: real, exitValue: real, turnover: real, a: Amounts, qty: nat)
    requires Whole(entryValue) && Whole(exitValue)
    ensures var b := Costs(entryValue, exitValue, turnover, a, qty);
            b.grossProfit == exitValue - entryValue && b.netProfit == b.grossProfit - b.totalCharges
  {
    var b := Costs(entryValue, exitValue, turnover, a, qty);
    ExactSum(exitValue, entryValue);
    ExactSum(b.grossProfit, b.totalCharges);
  }

  lemma ItemsNear(entryValue: real, exitValue: real, turnover: real, a: Amounts, qty: nat)
    ensures Itemised(Costs(entryValue, exitValue, turnover, a, qty), a)
  {
  }

  lemma RatiosNear(entryValue: real, exitValue: real, turnover: real, a: Amounts, qty: nat)
    ensures Ratios(Costs(entryValue, exitValue, turnover, a, qty), qty)
  {
  }

  lemma SixWhole(a: real, b: real, c: real, d: real, e: real, f: real)
    requires Whole(a) && Whole(b) && Whole(c) && Whole(d) && Whole(e) && Whole(f)
    ensures Round2(a + b + c + d + e + f) == a + b + c + d + e + f
  {
    WholeSum(a, b);
    WholeSum(a + b, c);
    WholeSum(a + b + c, d);
    WholeSum(a + b + c + d, e);
    ExactSum(a + b + c + d + e, f);
  }

  lemma ExactSum(a: real, b: real)
    requires Whole(a) && Whole(b)
    ensures Round2(a + b) == a + b && Round2(a - b) == a - b
  {
    WholeSum(a, b);
    WholeStays(a + b);
    WholeStays(a - b);
  }
}
