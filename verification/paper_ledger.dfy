/** `recordOptionBacktestPaperTrades` of internal/backtest/paper.go: the paper ledger of the option backtest.
    Money is exact. A trade's identity is the tuple that the source hashes. */
module PaperLedger {
  import opened Text
  import Seqs
  import opened Slippage

  datatype Leg = Leg(exchange: string, token: string, entry: real, exit: real)

  datatype OptionTrade = OptionTrade(strategy: string, entryTime: int, exitTime: int, qty: int, ce: Leg, pe: Leg)

  datatype TradeId = TradeId(strategy: string, exchange: string, token: string, side: Side, ts: int, price: real, qty: int)

  datatype Trade = Trade(id: TradeId, exchange: string, token: string, side: Side, qty: int, price: real, fees: real)

  datatype Position = Position(exchange: string, token: string, strategy: string, qty: int, avgPrice: real, realized: real)

  datatype Config = Config(slippageBps: real, brokerage: real)

  type Book = map<string, Position>

  function PositionKey(exchange: string, token: string): string {
    Normal(exchange) + ":" + Trim(token)
  }

  /** The key under which internal/store lists a position. */
  function StoreKey(exchange: string, token: string): string {
    Upper(exchange) + ":" + token
  }

  function StrategyName(strategy: string): string {
    if Trim(strategy) == "" then "option_backtest" else "option_backtest_" + Trim(strategy)
  }

  // ---- What the trades of a key amount to ----

  function KeyOf(t: Trade): string {
    PositionKey(t.exchange, t.token)
  }

  function Signed(t: Trade): real {
    (if t.side.Sell? then t.price * t.qty as real else -(t.price * t.qty as real)) - t.fees
  }

  /** Sell cash minus buy cash minus fees. */
  function Cash(trades: seq<Trade>, key: string): real {
    if trades == [] then 0.0
    else
      var before := Cash(trades[..|trades| - 1], key);
      if KeyOf(trades[|trades| - 1]) == key then before + Signed(trades[|trades| - 1]) else before
  }

  /** Bought minus sold. */
  function NetQty(trades: seq<Trade>, key: string): int {
    if trades == [] then 0
    else
      var before, t := NetQty(trades[..|trades| - 1], key), trades[|trades| - 1];
      if KeyOf(t) != key then before else if t.side.Buy? then before + t.qty else before - t.qty
  }

  predicate Touched(trades: seq<Trade>, key: string) {
    exists i :: 0 <= i < |trades| && KeyOf(trades[i]) == key
  }

  function Realized(book: Book, key: string): real {
    if key in book then book[key].realized else 0.0
  }

  predicate Open(book: Book, key: string) {
    key in book && book[key].qty != 0
  }

  // ---- Which legs are filled, judged by the book as it was at the start ----

  datatype LegTrade = LegTrade(strategy: string, leg: Leg, qty: int, entryTime: int, exitTime: int)

  function LegsOf(bt: OptionTrade): (legs: seq<LegTrade>) {
    [LegTrade(bt.strategy, bt.ce, bt.qty, bt.entryTime, bt.exitTime),
     LegTrade(bt.strategy, bt.pe, bt.qty, bt.entryTime, bt.exitTime)]
  }

  function AllLegs(bts: seq<OptionTrade>): seq<LegTrade> {
    if bts == [] then [] else AllLegs(bts[..|bts| - 1]) + LegsOf(bts[|bts| - 1])
  }

  function LegKey(l: LegTrade): string {
    PositionKey(l.leg.exchange, l.leg.token)
  }

  predicate Usable(l: LegTrade) {
    Trim(l.leg.exchange) != "" && Trim(l.leg.token) != "" && l.leg.entry > 0.0 && l.leg.exit > 0.0 && l.qty > 0
  }

  function Fill(l: LegTrade, side: Side, cfg: Config): Trade {
    var price := Slipped(if side.Buy? then l.leg.entry else l.leg.exit, side, cfg.slippageBps);
    var ts := if side.Buy? then l.entryTime else l.exitTime;
    Trade(TradeId(StrategyName(l.strategy), Trim(l.leg.exchange), Trim(l.leg.token), side, ts, price, l.qty),
          l.leg.exchange, l.leg.token, side, l.qty, price, cfg.brokerage)
  }

  /** The two trades of a leg. */
  function Pair(l: LegTrade, cfg: Config): seq<Trade> {
    [Fill(l, Buy, cfg), Fill(l, Sell, cfg)]
  }

  function Fills(legs: seq<LegTrade>, start: Book, cfg: Config): seq<Trade> {
    if legs == [] then []
    else
      var before, l := Fills(legs[..|legs| - 1], start, cfg), legs[|legs| - 1];
      if Usable(l) && !Open(start, LegKey(l)) then before + Pair(l, cfg) else before
  }

  /** A leg is filled exactly when it names an instrument, both prices and the quantity are positive and the book holds
      nothing of it; a fill leaves two trades. */
  lemma FilledIff(legs: seq<LegTrade>, l: LegTrade, start: Book, cfg: Config) returns (bought: Trade, sold: Trade)
    ensures Bought(l, cfg, bought) && Sold(l, cfg, sold)
    ensures var key := Normal(l.leg.exchange) + ":" + Trim(l.leg.token);
            Fills(legs + [l], start, cfg) ==
            if Trim(l.leg.exchange) != "" && Trim(l.leg.token) != "" && l.leg.entry > 0.0 && l.leg.exit > 0.0 && l.qty > 0
               && (key in start ==> start[key].qty == 0)
            then Fills(legs, start, cfg) + [bought, sold] else Fills(legs, start, cfg)
  {
    LegFilled(legs, l, start, cfg);
    bought, sold := PairInPrices(l, cfg);
  }

  lemma PairInPrices(l: LegTrade, cfg: Config) returns (bought: Trade, sold: Trade)
    ensures Pair(l, cfg) == [bought, sold] && Bought(l, cfg, bought) && Sold(l, cfg, sold)
  {
    bought, sold := Fill(l, Buy, cfg), Fill(l, Sell, cfg);
  }

  /** The purchase at the entry, at a price that slippage raises. */
  ghost predicate Bought(l: LegTrade, cfg: Config, t: Trade) {
    && t.side == Buy
    && t.price == (if cfg.slippageBps > 0.0 then l.leg.entry * (1.0 + cfg.slippageBps / 10000.0) else l.leg.entry)
    && t.qty == l.qty && t.fees == cfg.brokerage && t.exchange == l.leg.exchange && t.token == l.leg.token
    && t.id.strategy == "option_backtest" + (if Trim(l.strategy) == "" then "" else "_" + Trim(l.strategy))
    && t.id == TradeId(t.id.strategy, Trim(l.leg.exchange), Trim(l.leg.token), Buy, l.entryTime, t.price, l.qty)
  }

  /** The sale at the exit, at a price that slippage lowers. */
  ghost predicate Sold(l: LegTrade, cfg: Config, t: Trade) {
    && t.side == Sell
    && t.price == (if cfg.slippageBps > 0.0 then l.leg.exit * (1.0 - cfg.slippageBps / 10000.0) else l.leg.exit)
    && t.qty == l.qty && t.fees == cfg.brokerage && t.exchange == l.leg.exchange && t.token == l.leg.token
    && t.id.strategy == "option_backtest" + (if Trim(l.strategy) == "" then "" else "_" + Trim(l.strategy))
    && t.id == TradeId(t.id.strategy, Trim(l.leg.exchange), Trim(l.leg.token), Sell, l.exitTime, t.price, l.qty)
  }

  /** The legs are the calls and puts of the option trades, each call in front of its put. */
  lemma {:induction false} LegsInTurn(bts: seq<OptionTrade>, k: nat)
    requires k < |bts|
    ensures |AllLegs(bts)| == 2 * |bts|
    ensures var call, put := AllLegs(bts)[2 * k], AllLegs(bts)[2 * k + 1];
            && call.leg == bts[k].ce && put.leg == bts[k].pe && call.strategy == put.strategy == bts[k].strategy
            && call.qty == put.qty == bts[k].qty && call.entryTime == put.entryTime == bts[k].entryTime
            && call.exitTime == put.exitTime == bts[k].exitTime
  {
    var front := bts[..|bts| - 1];
    if k < |front| {
      LegsInTurn(front, k);
    } else if front != [] {
      LegsInTurn(front, 0);
    }
  }

  function Apply(book: Book, updates: seq<Position>): Book {
    if updates == [] then book
    else
      var u := updates[|updates| - 1];
      Apply(book, updates[..|updates| - 1])[PositionKey(u.exchange, u.token) := u]
  }

  /** Recording `legs` on `start` emitted `trades` and `updates` and left `book`. */
  ghost predicate Recorded(legs: seq<LegTrade>, start: Book, cfg: Config, trades: seq<Trade>, updates: seq<Position>,
                           book: Book) {
    && trades == Fills(legs, start, cfg)
    && book == Apply(start, updates)
    && AllConserved(start, trades, book)
  }

  ghost predicate AllConserved(start: Book, trades: seq<Trade>, book: Book) {
    forall key :: Conserved(start, trades, book, key)
  }

  /** What is promised of each key. */
  ghost predicate Conserved(start: Book, trades: seq<Trade>, book: Book, key: string) {
    && Realized(book, key) == Realized(start, key) + Cash(trades, key)
    && NetQty(trades, key) == 0
    && (Open(book, key) <==> Open(start, key))
    && (Open(start, key) ==> book[key] == start[key] && !Touched(trades, key))
    && (key in book <==> key in start || Touched(trades, key))
  }

  // ---- One leg ----

  lemma CashSnoc(trades: seq<Trade>, t: Trade, key: string)
    ensures Cash(trades + [t], key) == if KeyOf(t) == key then Cash(trades, key) + Signed(t) else Cash(trades, key)
    ensures NetQty(trades + [t], key) ==
            if KeyOf(t) != key then NetQty(trades, key)
            else if t.side.Buy? then NetQty(trades, key) + t.qty else NetQty(trades, key) - t.qty
    ensures Touched(trades + [t], key) <==> Touched(trades, key) || KeyOf(t) == key
  {
    var all := trades + [t];
    assert all[..|trades|] == trades && all[|trades|] == t;
    if Touched(trades, key) {
      var i :| 0 <= i < |trades| && KeyOf(trades[i]) == key;
      assert KeyOf(all[i]) == key;
    }
  }

  function Made(l: LegTrade, cfg: Config): real {
    (Slipped(l.leg.exit, Sell, cfg.slippageBps) - Slipped(l.leg.entry, Buy, cfg.slippageBps)) * l.qty as real
    - 2.0 * cfg.brokerage
  }

  lemma MadeIsCash(l: LegTrade, cfg: Config)
    ensures Made(l, cfg) == Signed(Fill(l, Buy, cfg)) + Signed(Fill(l, Sell, cfg))
  {
    var exit, entry, q := Slipped(l.leg.exit, Sell, cfg.slippageBps), Slipped(l.leg.entry, Buy, cfg.slippageBps), l.qty as real;
    assert (exit - entry) * q == exit * q - entry * q;
  }

  lemma PairAdded(trades: seq<Trade>, l: LegTrade, cfg: Config, key: string)
    ensures var after := trades + Pair(l, cfg);
            && Cash(after, key) == (if LegKey(l) == key then Cash(trades, key) + Made(l, cfg) else Cash(trades, key))
            && NetQty(after, key) == NetQty(trades, key)
            && (Touched(after, key) <==> Touched(trades, key) || LegKey(l) == key)
  {
    var b, s := Fill(l, Buy, cfg), Fill(l, Sell, cfg);
    assert trades + [b, s] == trades + [b] + [s];
    assert KeyOf(b) == LegKey(l) == KeyOf(s);
    CashSnoc(trades, b, key);
    CashSnoc(trades + [b], s, key);
    MadeIsCash(l, cfg);
  }

  lemma KeyConserved(l: LegTrade, start: Book, cfg: Config, trades: seq<Trade>, book: Book, p: Position,
                     legKey: string, key: string)
    requires Conserved(start, trades, book, key) && legKey == LegKey(l) && !Open(book, legKey)
    requires p.qty == 0 && p.realized == Realized(book, legKey) + Made(l, cfg)
    ensures Conserved(start, trades + Pair(l, cfg), book[legKey := p], key)
  {
    PairAdded(trades, l, cfg, key);
  }

  lemma KeysConserved(l: LegTrade, start: Book, cfg: Config, trades: seq<Trade>, book: Book, p: Position,
                      legKey: string)
    requires AllConserved(start, trades, book) && legKey == LegKey(l) && !Open(book, legKey)
    requires p.qty == 0 && p.realized == Realized(book, legKey) + Made(l, cfg)
    ensures AllConserved(start, trades + Pair(l, cfg), book[legKey := p])
  {
    var after, book' := trades + Pair(l, cfg), book[legKey := p];
    forall key ensures Conserved(start, after, book', key) {
      assert Conserved(start, trades, book, key);
      KeyConserved(l, start, cfg, trades, book, p, legKey, key);
    }
  }

  lemma LegFilled(legs: seq<LegTrade>, l: LegTrade, start: Book, cfg: Config)
    ensures Fills(legs + [l], start, cfg) ==
            if Usable(l) && !Open(start, LegKey(l)) then Fills(legs, start, cfg) + Pair(l, cfg) else Fills(legs, start, cfg)
  {
    Seqs.Snoc(legs, legs, l);
  }

  lemma Applied(book: Book, updates: seq<Position>, p: Position)
    ensures Apply(book, updates + [p]) == Apply(book, updates)[PositionKey(p.exchange, p.token) := p]
  {
    Seqs.Snoc(updates, updates, p);
  }

  lemma LegRecorded(legs: seq<LegTrade>, l: LegTrade, start: Book, cfg: Config, trades: seq<Trade>,
                    updates: seq<Position>, book: Book, p: Position, legKey: string)
    requires Recorded(legs, start, cfg, trades, updates, book) && Usable(l) && !Open(book, legKey)
    requires PositionKey(p.exchange, p.token) == legKey == LegKey(l)
    requires p.qty == 0 && p.realized == Realized(book, legKey) + Made(l, cfg)
    ensures Recorded(legs + [l], start, cfg, trades + Pair(l, cfg), updates + [p], book[legKey := p])
  {
    LegFilled(legs, l, start, cfg);
    Applied(start, updates, p);
    assert Conserved(start, trades, book, legKey);
    KeysConserved(l, start, cfg, trades, book, p, legKey);
  }

  lemma LegSkipped(legs: seq<LegTrade>, l: LegTrade, start: Book, cfg: Config, trades: seq<Trade>,
                   updates: seq<Position>, book: Book)
    requires Recorded(legs, start, cfg, trades, updates, book) && (!Usable(l) || Open(book, LegKey(l)))
    ensures Recorded(legs + [l], start, cfg, trades, updates, book)
  {
    LegFilled(legs, l, start, cfg);
    assert Conserved(start, trades, book, LegKey(l));
  }

  /** The position that a filled leg writes. */
  function LegUpdate(l: LegTrade, cfg: Config, book: Book): Position {
    Position(l.leg.exchange, l.leg.token, StrategyName(l.strategy), 0, Slipped(l.leg.entry, Buy, cfg.slippageBps),
             Realized(book, LegKey(l)) + Made(l, cfg))
  }

  /** The body of the inner loop. */
  method RecordLeg(ghost legs: seq<LegTrade>, l: LegTrade, ghost start: Book, cfg: Config, trades: seq<Trade>,
                   updates: seq<Position>, book: Book)
    returns (trades': seq<Trade>, updates': seq<Position>, book': Book)
    requires Recorded(legs, start, cfg, trades, updates, book)
    ensures Recorded(legs + [l], start, cfg, trades', updates', book')
    ensures updates' == if Usable(l) && !Open(book, LegKey(l)) then updates + [LegUpdate(l, cfg, book)] else updates
  {
    trades', updates', book' := trades, updates, book;
    if !Usable(l) {
      LegSkipped(legs, l, start, cfg, trades, updates, book);
      return;
    }
    var key := PositionKey(l.leg.exchange, l.leg.token);
    if key in book && book[key].qty != 0 {
      LegSkipped(legs, l, start, cfg, trades, updates, book);
      return;
    }
    trades' := trades + Pair(l, cfg);
    var p := NewPosition(l, cfg, book, key);
    LegRecorded(legs, l, start, cfg, trades, updates, book, p, key);
    updates', book' := updates + [p], book[key := p];
  }

  method NewPosition(l: LegTrade, cfg: Config, book: Book, key: string) returns (p: Position)
    requires key == LegKey(l)
    ensures p == LegUpdate(l, cfg, book)
  {
    var realized := Made(l, cfg);
    if key in book {
      realized := realized + book[key].realized;
    }
    p := Position(l.leg.exchange, l.leg.token, StrategyName(l.strategy), 0, Slipped(l.leg.entry, Buy, cfg.slippageBps), realized);
  }

  /** Both legs of one option trade. */
  method RecordLegs(ghost done: seq<LegTrade>, bt: OptionTrade, ghost start: Book, cfg: Config, trades: seq<Trade>,
                    updates: seq<Position>, book: Book)
    returns (trades': seq<Trade>, updates': seq<Position>, book': Book)
    requires Recorded(done, start, cfg, trades, updates, book)
    ensures Recorded(done + LegsOf(bt), start, cfg, trades', updates', book')
  {
    var legs := LegsOf(bt);
    trades', updates', book' := trades, updates, book;
    assert done + legs[..0] == done;
    for j := 0 to 2
      invariant Recorded(done + legs[..j], start, cfg, trades', updates', book')
    {
      Seqs.Prefix(legs, j);
      Seqs.Snoc(done, legs[..j], legs[j]);
      trades', updates', book' := RecordLeg(done + legs[..j], legs[j], start, cfg, trades', updates', book');
    }
    Seqs.All(legs);
  }

  /** For any option trades and any book, every key is conserved. */
  method RecordOptionTrades(bts: seq<OptionTrade>, start: Book, cfg: Config)
    returns (trades: seq<Trade>, updates: seq<Position>, book: Book)
    ensures Recorded(AllLegs(bts), start, cfg, trades, updates, book)
  {
    trades, updates, book := [], [], start;
    for i := 0 to |bts|
      invariant Recorded(AllLegs(bts[..i]), start, cfg, trades, updates, book)
    {
      Seqs.Prefix(bts, i);
      trades, updates, book := RecordLegs(AllLegs(bts[..i]), bts[i], start, cfg, trades, updates, book);
    }
    Seqs.All(bts);
  }

  /** Slippage never helps the ledger. */
  lemma SlippageOnlyCosts(l: LegTrade, cfg: Config)
    requires Usable(l)
    ensures Made(l, cfg) <= (l.leg.exit - l.leg.entry) * l.qty as real - 2.0 * cfg.brokerage
    ensures Made(l, cfg) == (l.leg.exit - l.leg.entry) * l.qty as real - 2.0 * cfg.brokerage <==> cfg.slippageBps <= 0.0
  {
    var exit, entry, f, q := l.leg.exit, l.leg.entry, cfg.slippageBps / 10000.0, l.qty as real;
    if cfg.slippageBps > 0.0 {
      assert f * (exit + entry) > 0.0;
      assert (exit * (1.0 - f) - entry * (1.0 + f)) == (exit - entry) - f * (exit + entry);
      Scale(exit * (1.0 - f) - entry * (1.0 + f), exit - entry, q);
    }
  }

  lemma Scale(a: real, b: real, q: real)
    requires a < b && q > 0.0
    ensures a * q < b * q
  {
    assert (b - a) * q > 0.0;
  }

  // ---- The stored trades: an identity already present is not stored again ----

  predicate Has(stored: seq<Trade>, t: Trade) {
    stored != [] && (stored[|stored| - 1].id == t.id || Has(stored[..|stored| - 1], t))
  }

  function Stored(stored: seq<Trade>, trades: seq<Trade>): seq<Trade> {
    if trades == [] then stored
    else
      var before, t := Stored(stored, trades[..|trades| - 1]), trades[|trades| - 1];
      if Has(before, t) then before else before + [t]
  }

  /** The trades that are not stored. */
  function Skipped(stored: seq<Trade>, trades: seq<Trade>): seq<Trade> {
    if trades == [] then []
    else
      var before, t := trades[..|trades| - 1], trades[|trades| - 1];
      if Has(Stored(stored, before), t) then Skipped(stored, before) + [t] else Skipped(stored, before)
  }

  lemma {:induction false} StoredOrSkipped(stored: seq<Trade>, trades: seq<Trade>, key: string)
    ensures Cash(Stored(stored, trades), key) + Cash(Skipped(stored, trades), key) == Cash(stored, key) + Cash(trades, key)
  {
    if trades != [] {
      var before, t := trades[..|trades| - 1], trades[|trades| - 1];
      StoredOrSkipped(stored, before, key);
      CashSnoc(before, t, key);
      Seqs.Last(trades);
      CashSnoc(Stored(stored, before), t, key);
      CashSnoc(Skipped(stored, before), t, key);
    }
  }

  /** What the ledger says beyond the stored trades. */
  function Drift(book: Book, stored: seq<Trade>, key: string): real {
    Realized(book, key) - Cash(stored, key)
  }

  /** The ledger drifts from the stored trades by exactly the cash of the trades that were not stored. */
  lemma DriftIsSkippedCash(legs: seq<LegTrade>, start: Book, cfg: Config, trades: seq<Trade>, updates: seq<Position>,
                           book: Book, stored: seq<Trade>, key: string)
    requires Recorded(legs, start, cfg, trades, updates, book)
    ensures Drift(book, Stored(stored, trades), key) == Drift(start, stored, key) + Cash(Skipped(stored, trades), key)
  {
    assert Conserved(start, trades, book, key);
    StoredOrSkipped(stored, trades, key);
  }

  lemma {:induction false} StoredKeeps(stored: seq<Trade>, trades: seq<Trade>)
    ensures stored <= Stored(stored, trades)
    ensures forall i :: 0 <= i < |trades| ==> Has(Stored(stored, trades), trades[i])
  {
    if trades != [] {
      StoredKeeps(stored, trades[..|trades| - 1]);
      StoresOne(Stored(stored, trades[..|trades| - 1]), trades);
    }
  }

  lemma StoresOne(mid: seq<Trade>, trades: seq<Trade>)
    requires trades != [] && forall i :: 0 <= i < |trades| - 1 ==> Has(mid, trades[i])
    ensures var t := trades[|trades| - 1];
            Has(mid, t) || forall i :: 0 <= i < |trades| ==> Has(mid + [t], trades[i])
  {
    var t := trades[|trades| - 1];
    forall i | 0 <= i < |trades| ensures Has(mid + [t], trades[i]) {
      HasMore(mid, t, trades[i]);
    }
  }

  lemma HasMore(stored: seq<Trade>, more: Trade, t: Trade)
    ensures Has(stored + [more], t) <==> more.id == t.id || Has(stored, t)
  {
    Seqs.Snoc(stored, stored, more);
  }

  lemma {:induction false} NothingNew(stored: seq<Trade>, trades: seq<Trade>)
    requires forall i :: 0 <= i < |trades| ==> Has(stored, trades[i])
    ensures Stored(stored, trades) == stored
  {
    if trades != [] {
      var before := trades[..|trades| - 1];
      assert forall i :: 0 <= i < |before| ==> before[i] == trades[i];
      NothingNew(stored, before);
    }
  }

  lemma {:induction false} SameOpenSameFills(legs: seq<LegTrade>, a: Book, b: Book, cfg: Config)
    requires forall key :: Open(a, key) <==> Open(b, key)
    ensures Fills(legs, a, cfg) == Fills(legs, b, cfg)
  {
    if legs != [] {
      SameOpenSameFills(legs[..|legs| - 1], a, b, cfg);
    }
  }

  /** Recording the same option trades again stores nothing new but books their cash a second time,
      so the ledger still agrees with the stored trades exactly on the keys that made nothing. */
  lemma RerunAgreesIff(legs: seq<LegTrade>, cfg: Config, start: Book, stored: seq<Trade>,
                       trades: seq<Trade>, updates: seq<Position>, book: Book,
                       trades': seq<Trade>, updates': seq<Position>, book': Book, key: string)
    requires Recorded(legs, start, cfg, trades, updates, book) && Recorded(legs, book, cfg, trades', updates', book')
    ensures var once := Stored(stored, trades);
            && Stored(once, trades') == once
            && Realized(book', key) == Realized(start, key) + 2.0 * Cash(trades, key)
            && (Drift(book', once, key) == Drift(book, once, key) <==> Cash(trades, key) == 0.0)
  {
    forall k ensures Open(start, k) <==> Open(book, k) {
      assert Conserved(start, trades, book, k);
    }
    SameOpenSameFills(legs, start, book, cfg);
    StoredKeeps(stored, trades);
    NothingNew(Stored(stored, trades), trades);
    assert Conserved(start, trades, book, key) && Conserved(book, trades', book', key);
  }

  // ---- Finding a position again ----

  lemma {:induction false} TrimShortens(s: string)
    ensures |TrimLeft(s)| <= |s| && (|TrimLeft(s)| == |s| ==> TrimLeft(s) == s)
  {
    if s != [] && IsSpace(s[0]) {
      TrimShortens(s[1..]);
    }
  }

  /** The ledger finds a listed position under its own key exactly when neither name has outer white space. */
  lemma ListedUnderOwnKeyIff(exchange: string, token: string)
    ensures PositionKey(exchange, token) == StoreKey(exchange, token) <==> Trim(exchange) == exchange && Trim(token) == token
  {
    TrimShortens(exchange);
    TrimShortens(token);
  }

  // ---- The stored positions: one row for each spelling of exchange and token ----

  predicate SameRow(a: Position, b: Position) {
    a.exchange == b.exchange && a.token == b.token
  }

  /** Overwrites the row of the same exchange and token, or adds one. */
  function Upsert(rows: seq<Position>, p: Position): seq<Position> {
    if rows == [] then [p]
    else if SameRow(rows[|rows| - 1], p) then rows[..|rows| - 1] + [p]
    else Upsert(rows[..|rows| - 1], p) + [rows[|rows| - 1]]
  }

  function StoredRows(rows: seq<Position>, updates: seq<Position>): seq<Position> {
    if updates == [] then rows else Upsert(StoredRows(rows, updates[..|updates| - 1]), updates[|updates| - 1])
  }

  function RowKey(p: Position): string {
    PositionKey(p.exchange, p.token)
  }

  /** The realized profit of all rows of a key. */
  function RowTotal(rows: seq<Position>, key: string): real {
    if rows == [] then 0.0
    else
      var before := RowTotal(rows[..|rows| - 1], key);
      if RowKey(rows[|rows| - 1]) == key then before + rows[|rows| - 1].realized else before
  }

  /** The row an update overwrites. */
  function Overwritten(rows: seq<Position>, p: Position): real {
    if rows == [] then 0.0
    else if SameRow(rows[|rows| - 1], p) then rows[|rows| - 1].realized
    else Overwritten(rows[..|rows| - 1], p)
  }

  lemma RowTotalSnoc(rows: seq<Position>, p: Position, key: string)
    ensures RowTotal(rows + [p], key) == if RowKey(p) == key then RowTotal(rows, key) + p.realized else RowTotal(rows, key)
  {
    Seqs.Snoc(rows, rows, p);
  }

  lemma SameRowSameKey(a: Position, b: Position)
    ensures SameRow(a, b) ==> RowKey(a) == RowKey(b)
  {
  }

  lemma {:induction false} UpsertTotal(rows: seq<Position>, p: Position, key: string)
    ensures RowTotal(Upsert(rows, p), key) ==
            if RowKey(p) == key then RowTotal(rows, key) - Overwritten(rows, p) + p.realized else RowTotal(rows, key)
  {
    if rows == [] {
      RowTotalSnoc([], p, key);
    } else {
      var front, last := rows[..|rows| - 1], rows[|rows| - 1];
      if SameRow(last, p) {
        SameRowSameKey(last, p);
        RowTotalSnoc(front, p, key);
      } else {
        UpsertTotal(front, p, key);
        RowTotalSnoc(Upsert(front, p), last, key);
      }
    }
  }

  /** All rows of the key are one row. */
  ghost predicate OneSpelling(rows: seq<Position>, key: string, p: Position) {
    rows != [] ==>
      var front, last := rows[..|rows| - 1], rows[|rows| - 1];
      if RowKey(last) == key then SameRow(last, p) && NoRow(front, key) else OneSpelling(front, key, p)
  }

  ghost predicate NoRow(rows: seq<Position>, key: string) {
    rows != [] ==> RowKey(rows[|rows| - 1]) != key && NoRow(rows[..|rows| - 1], key)
  }

  lemma {:induction false} NoRowTotal(rows: seq<Position>, key: string)
    requires NoRow(rows, key)
    ensures RowTotal(rows, key) == 0.0
  {
    if rows != [] {
      NoRowTotal(rows[..|rows| - 1], key);
    }
  }

  /** What the other rows of the key hold is what the total has beyond the row overwritten. */
  lemma {:induction false} OneSpellingTotal(rows: seq<Position>, key: string, p: Position)
    requires RowKey(p) == key && OneSpelling(rows, key, p)
    ensures RowTotal(rows, key) == Overwritten(rows, p)
  {
    if rows != [] {
      var front, last := rows[..|rows| - 1], rows[|rows| - 1];
      if RowKey(last) == key {
        NoRowTotal(front, key);
      } else {
        OneSpellingTotal(front, key, p);
      }
    }
  }

  /** After an update the stored rows of its key add up to the ledger exactly when the rows under other spellings
      hold nothing in all. */
  lemma RowsAgreeIff(rows: seq<Position>, book: Book, p: Position)
    ensures RowTotal(Upsert(rows, p), RowKey(p)) == Realized(book[RowKey(p) := p], RowKey(p)) <==>
            RowTotal(rows, RowKey(p)) == Overwritten(rows, p)
  {
    UpsertTotal(rows, p, RowKey(p));
  }

  ghost predicate SpelledAs(updates: seq<Position>, key: string, p: Position) {
    updates != [] ==>
      && SpelledAs(updates[..|updates| - 1], key, p)
      && (RowKey(updates[|updates| - 1]) == key ==> SameRow(updates[|updates| - 1], p))
  }

  lemma {:induction false} UpsertOneSpelling(rows: seq<Position>, u: Position, key: string, p: Position)
    requires OneSpelling(rows, key, p) && (RowKey(u) == key ==> SameRow(u, p))
    ensures OneSpelling(Upsert(rows, u), key, p)
    ensures NoRow(rows, key) && RowKey(u) != key ==> NoRow(Upsert(rows, u), key)
  {
    if rows == [] {
      assert [u][..0] == [];
    } else {
      var front, last := rows[..|rows| - 1], rows[|rows| - 1];
      if SameRow(last, u) {
        Seqs.Snoc(front, front, u);
      } else {
        Seqs.Snoc(Upsert(front, u), Upsert(front, u), last);
        if RowKey(last) == key {
          OneSpellingOfNone(front, key, p);
        }
        UpsertOneSpelling(front, u, key, p);
      }
    }
  }

  lemma {:induction false} OneSpellingOfNone(rows: seq<Position>, key: string, p: Position)
    requires NoRow(rows, key)
    ensures OneSpelling(rows, key, p)
  {
    if rows != [] {
      OneSpellingOfNone(rows[..|rows| - 1], key, p);
    }
  }

  lemma UpsertAddsUp(rows: seq<Position>, book: Book, u: Position, key: string, p: Position)
    requires RowKey(p) == key && OneSpelling(rows, key, p) && (RowKey(u) == key ==> SameRow(u, p))
    requires RowTotal(rows, key) == Realized(book, key)
    ensures RowTotal(Upsert(rows, u), key) == Realized(book[RowKey(u) := u], key)
  {
    UpsertTotal(rows, u, key);
    if RowKey(u) == key {
      OneSpellingTotal(rows, key, p);
      SameOverwritten(rows, u, p);
    }
  }

  lemma {:induction false} SameOverwritten(rows: seq<Position>, u: Position, p: Position)
    requires SameRow(u, p)
    ensures Overwritten(rows, u) == Overwritten(rows, p)
  {
    if rows != [] {
      SameOverwritten(rows[..|rows| - 1], u, p);
    }
  }

  /** When every leg of a key is spelled as its stored row, the stored rows add up to the ledger after any run. */
  lemma {:induction false} RowsAddUp(rows: seq<Position>, start: Book, updates: seq<Position>, key: string, p: Position)
    requires RowKey(p) == key && OneSpelling(rows, key, p) && SpelledAs(updates, key, p)
    requires RowTotal(rows, key) == Realized(start, key)
    ensures RowTotal(StoredRows(rows, updates), key) == Realized(Apply(start, updates), key)
    ensures OneSpelling(StoredRows(rows, updates), key, p)
  {
    if updates != [] {
      var front, u := updates[..|updates| - 1], updates[|updates| - 1];
      RowsAddUp(rows, start, front, key, p);
      UpsertAddsUp(StoredRows(rows, front), Apply(start, front), u, key, p);
      UpsertOneSpelling(StoredRows(rows, front), u, key, p);
    }
  }

  // ---- Inputs that show the differences ----

  /** A leg bought at 100 and sold at 105. */
  function OtherLeg(): LegTrade {
    LegTrade("s", Leg("NFO", "1", 100.0, 105.0), 1, 0, 1)
  }

  /** A profit of 10 stored under a lower-case exchange and a leg that makes 5: recorded, it leaves 15 in the ledger and
      25 in the rows. */
  method OtherSpellingCountsTwice(row: Position) returns (updates: seq<Position>, book: Book)
    requires row == Position("nfo", "1", "s", 0, 0.0, 10.0)
    ensures RowTotal([row], LegKey(OtherLeg())) == 10.0
    ensures Realized(book, LegKey(OtherLeg())) == 15.0 && RowTotal(StoredRows([row], updates), LegKey(OtherLeg())) == 25.0
  {
    var l, cfg := OtherLeg(), Config(0.0, 0.0);
    var start := map[RowKey(row) := row];
    OtherRow(row, l);
    NothingRecorded(start, cfg);
    var trades;
    trades, updates, book := RecordLeg([], l, start, cfg, [], [], start);
    BookedOnce(start, l, cfg, updates, book);
    RowsCounted(row, l, LegUpdate(l, cfg, start));
  }

  lemma NothingRecorded(start: Book, cfg: Config)
    ensures Recorded([], start, cfg, [], [], start)
  {
  }

  lemma OtherRow(row: Position, l: LegTrade)
    requires row == Position("nfo", "1", "s", 0, 0.0, 10.0) && l == OtherLeg()
    ensures RowKey(row) == LegKey(l) && Usable(l)
  {
    assert Upper("nfo") == "NFO" == Upper("NFO");
  }

  lemma BookedOnce(start: Book, l: LegTrade, cfg: Config, updates: seq<Position>, book: Book)
    requires book == Apply(start, updates) && updates == [] + [LegUpdate(l, cfg, start)]
    ensures updates == [LegUpdate(l, cfg, start)] && Realized(book, LegKey(l)) == Realized(start, LegKey(l)) + Made(l, cfg)
  {
    Applied(start, [], LegUpdate(l, cfg, start));
  }

  lemma RowsCounted(row: Position, l: LegTrade, p: Position)
    requires row.exchange == "nfo" && p.exchange == "NFO" && RowKey(row) == RowKey(p)
    ensures RowTotal([row], RowKey(row)) == row.realized
    ensures RowTotal(StoredRows([row], [p]), RowKey(row)) == row.realized + p.realized
  {
    assert [row][..0] == [] && [p][..0] == [];
    UpsertTotal([row], p, RowKey(p));
  }

  /** A position stored with a space before its exchange is listed under another key than the ledger's. */
  lemma SpaceHidesPosition()
    ensures PositionKey(" NFO", "1") != StoreKey(" NFO", "1")
  {
    ListedUnderOwnKeyIff(" NFO", "1");
    assert TrimLeft(" NFO") == "NFO";
  }

  /** One leg bought at 100 and sold at 110. */
  function SampleLeg(): LegTrade {
    LegTrade("s", Leg("NFO", "1", 100.0, 110.0), 1, 0, 1)
  }

  /** Recorded twice, it leaves two trades with a profit of 10, but 20 in the ledger. */
  lemma RerunBooksTwice(trades: seq<Trade>, updates: seq<Position>, book: Book, trades': seq<Trade>,
                        updates': seq<Position>, book': Book)
    requires Recorded([SampleLeg()], map[], Config(0.0, 0.0), trades, updates, book)
    requires Recorded([SampleLeg()], book, Config(0.0, 0.0), trades', updates', book')
    ensures Cash(Stored(Stored([], trades), trades'), LegKey(SampleLeg())) == 10.0 && Realized(book', LegKey(SampleLeg())) == 20.0
  {
    SampleRecorded(trades, updates, book);
    RerunAgreesIff([SampleLeg()], Config(0.0, 0.0), map[], [], trades, updates, book,
                   trades', updates', book', LegKey(SampleLeg()));
  }

  lemma SampleRecorded(trades: seq<Trade>, updates: seq<Position>, book: Book)
    requires Recorded([SampleLeg()], map[], Config(0.0, 0.0), trades, updates, book)
    ensures Stored([], trades) == trades && Cash(trades, LegKey(SampleLeg())) == 10.0
  {
    var l, cfg := SampleLeg(), Config(0.0, 0.0);
    LegUsable(l);
    OneFill(l, map[], cfg);
    LegMakesTen(l, cfg);
    BothStored(l, cfg);
  }

  lemma OneFill(l: LegTrade, start: Book, cfg: Config)
    requires Usable(l) && !Open(start, LegKey(l))
    ensures Fills([l], start, cfg) == Pair(l, cfg)
  {
    assert [l][..0] == [] && [] + Pair(l, cfg) == Pair(l, cfg);
  }

  lemma LegMakesTen(l: LegTrade, cfg: Config)
    requires l == SampleLeg() && cfg == Config(0.0, 0.0)
    ensures Cash(Pair(l, cfg), LegKey(l)) == 10.0
  {
    assert [] + Pair(l, cfg) == Pair(l, cfg);
    PairAdded([], l, cfg, LegKey(l));
    assert Made(l, cfg) == 10.0;
  }

  lemma LegUsable(l: LegTrade)
    requires l == SampleLeg()
    ensures Usable(l)
  {
  }

  lemma BothStored(l: LegTrade, cfg: Config)
    ensures Stored([], Pair(l, cfg)) == Pair(l, cfg)
  {
    var b, s := Fill(l, Buy, cfg), Fill(l, Sell, cfg);
    assert Pair(l, cfg)[..1] == [b] && [b][..0] == [];
    assert Stored([], [b]) == [b];
    assert !Has([b], s);
  }
}
