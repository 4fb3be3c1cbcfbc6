/** The fill ledger (infra/trade_ledger.py): cash in two currencies and average-cost positions, evolved by fills
    alone and marked to market. */
module TradeLedger {
  import opened Common

  const FILLS_CAP: nat := 300

  datatype Ccy = KRW | USD | OtherCcy(name: string)

  datatype Position = Position(qty: int, avgCost: real, ccy: Ccy, lastPrice: real, approxBasis: bool)

  datatype Side = Buy | Sell | OtherSide

  /** A fill as reported: prices and currency may be missing. */
  datatype Fill = Fill(ticker: string, side: Side, qty: int, price: Option<real>, ccy: Option<Ccy>,
                       avgCost: Option<real>)

  datatype FillRecord = FillRecord(ticker: string, side: Side, qty: int, price: real, ccy: Ccy, fee: real, approx: bool)

  datatype Book = Book(
    cashKrw: real,
    cashUsd: real,
    positions: map<string, Position>,
    fills: seq<FillRecord>,
    degradedFills: nat)

  // ----- Reading a fill -----

  function CcyOf(f: Fill): Ccy {
    if f.ccy.Some? then f.ccy.value else if IsKrCode(f.ticker) then KRW else USD
  }

  function OrZero(x: Option<real>): real {
    if x.Some? then x.value else 0.0
  }

  /** Python's `x or y` on numbers. */
  function FirstNonZero(x: real, y: real): real {
    if x != 0.0 then x else y
  }

  /** The price used when none is reported: the average cost for a buy; for a sale the last price, then the
      position's cost, then the reported average cost. */
  function FallbackPrice(b: Book, f: Fill): real {
    if f.side == Buy then OrZero(f.avgCost)
    else if f.ticker in b.positions then
      FirstNonZero(FirstNonZero(b.positions[f.ticker].lastPrice, b.positions[f.ticker].avgCost), OrZero(f.avgCost))
    else OrZero(f.avgCost)
  }

  function PriceOf(b: Book, f: Fill): real {
    if OrZero(f.price) > 0.0 then OrZero(f.price) else FallbackPrice(b, f)
  }

  predicate WellFormed(f: Fill) {
    f.ticker != [] && f.side != OtherSide && f.qty > 0
  }

  /** The fill enters the book: well formed, priced, and not the sale of something the book does not hold. */
  predicate Accepted(b: Book, f: Fill) {
    WellFormed(f) && PriceOf(b, f) > 0.0 && (f.side == Sell ==> f.ticker in b.positions)
  }

  function Gross(b: Book, f: Fill): real {
    Mul(PriceOf(b, f), f.qty as real)
  }

  function Fee(b: Book, f: Fill): real {
    if CcyOf(f) == USD then Mul(US_TRADE_COST_RATE, Gross(b, f)) else 0.0
  }

  // ----- The book after a fill -----

  function LastFills(fs: seq<FillRecord>): seq<FillRecord> {
    if |fs| > FILLS_CAP then fs[|fs| - FILLS_CAP..] else fs
  }

  /** The position a buy leaves: quantities add up, the cost is the quantity-weighted average. */
  function Bought(was: Option<Position>, qty: int, px: real, ccy: Ccy, approx: bool): Position {
    match was
    case None => Position(qty, px, ccy, px, approx)
    case Some(p) =>
      var q := p.qty + qty;
      var avg := if q > 0 then (Mul(p.avgCost, p.qty as real) + Mul(px, qty as real)) / q as real else px;
      Position(q, avg, p.ccy, px, p.approxBasis || approx)
  }

  function PositionOf(b: Book, ticker: string): Option<Position> {
    if ticker in b.positions then Some(b.positions[ticker]) else None
  }

  function PositionsAfter(b: Book, f: Fill): map<string, Position> {
    var px := PriceOf(b, f);
    if f.side == Buy then
      b.positions[f.ticker := Bought(PositionOf(b, f.ticker), f.qty, px, CcyOf(f), OrZero(f.price) <= 0.0)]
    else if f.ticker !in b.positions then b.positions
    else
      var p := b.positions[f.ticker];
      if p.qty - f.qty <= 0 then b.positions - {f.ticker}
      else b.positions[f.ticker := p.(qty := p.qty - f.qty, lastPrice := px)]
  }

  /** What the fill pays (buy) or brings in (sale), after the fee. */
  function CashFlow(b: Book, f: Fill): real {
    if f.side == Buy then -(Gross(b, f) + Fee(b, f)) else Gross(b, f) - Fee(b, f)
  }

  function AfterFill(b: Book, f: Fill): Book {
    if !WellFormed(f) then b
    else if !Accepted(b, f) then b.(degradedFills := b.degradedFills + 1)
    else
      var usd := CcyOf(f) == USD;
      Book(if usd then b.cashKrw else b.cashKrw + CashFlow(b, f),
           if usd then b.cashUsd + CashFlow(b, f) else b.cashUsd,
           PositionsAfter(b, f),
           LastFills(b.fills + [FillRecord(f.ticker, f.side, f.qty, PriceOf(b, f), CcyOf(f),
             Fee(b, f), OrZero(f.price) <= 0.0)]),
           b.degradedFills)
  }

  // ----- Mark to market -----

  /** The price a position is valued at: the live one if there is one, else the last, else its cost. */
  function MarkPrice(p: Position, live: real): real {
    FirstNonZero(if live > 0.0 then live else p.lastPrice, p.avgCost)
  }

  function Rate(ccy: Ccy, fx: real): real {
    if ccy == USD then (if fx > 0.0 then fx else 0.0) else 1.0
  }

  function LiveOf(prices: map<string, real>, ticker: string): real {
    if ticker in prices then prices[ticker] else 0.0
  }

  function MarkValue(p: Position, live: real, fx: real): real {
    Mul(Mul(p.qty as real, MarkPrice(p, live)), Rate(p.ccy, fx))
  }

  function MarkValues(positions: map<string, Position>, prices: map<string, real>, fx: real): map<string, real> {
    map tk | tk in positions :: MarkValue(positions[tk], LiveOf(prices, tk), fx)
  }

  ghost function MarketValue(b: Book, prices: map<string, real>, fx: real): real {
    b.cashKrw + Mul(b.cashUsd, Rate(USD, fx)) + SumMap(MarkValues(b.positions, prices, fx))
  }

  function Reprice(p: Position, live: real): Position {
    if live > 0.0 then p.(lastPrice := live) else p
  }

  function Repriced(positions: map<string, Position>, prices: map<string, real>): map<string, Position> {
    map tk | tk in positions :: Reprice(positions[tk], LiveOf(prices, tk))
  }

  function StaleIn(tickers: set<string>, prices: map<string, real>): set<string> {
    set tk | tk in tickers && LiveOf(prices, tk) <= 0.0
  }

  /** All positions but those still to do have been repriced. */
  ghost predicate RepricedBut(was: map<string, Position>, now: map<string, Position>, prices: map<string, real>,
                              todo: set<string>) {
    && now.Keys == was.Keys
    && forall tk | tk in was :: now[tk] == if tk in todo then was[tk] else Reprice(was[tk], LiveOf(prices, tk))
  }

  class Ledger {
    var seeded: bool
    var cashKrw: real
    var cashUsd: real
    var positions: map<string, Position>
    var fills: seq<FillRecord>
    var degradedFills: nat

    function State(): Book
      reads this
    {
      Book(cashKrw, cashUsd, positions, fills, degradedFills)
    }

    /** Applies one fill. An unseeded ledger ignores it: the seed snapshot will already contain it. */
    method ApplyFill(f: Fill) returns (applied: bool)
      modifies this
      ensures seeded == old(seeded)
      ensures applied == (old(seeded) && Accepted(old(State()), f))
      ensures State() == if old(seeded) then AfterFill(old(State()), f) else old(State())
    {
      hide Mul;
      hide IsKrCode;
      hide LastFills;
      hide Bought;
      if !seeded || f.ticker == [] || f.side == OtherSide || f.qty <= 0 {
        return false;
      }
      var ccy := CcyOf(f);
      var px := OrZero(f.price);
      var approx := px <= 0.0;
      if approx {
        px := FallbackPrice(State(), f);
      }
      if px <= 0.0 {
        degradedFills := degradedFills + 1;
        return false;
      }
      var fee := if ccy == USD then Mul(US_TRADE_COST_RATE, Mul(px, f.qty as real)) else 0.0;
      if f.side == Buy {
        Receive(ccy, -(Mul(px, f.qty as real) + fee));
        positions := positions[f.ticker := Bought(if f.ticker in positions then Some(positions[f.ticker]) else None,
                                                  f.qty, px, ccy, approx)];
      } else if f.ticker in positions {
        Receive(ccy, Mul(px, f.qty as real) - fee);
        var p := positions[f.ticker].(qty := positions[f.ticker].qty - f.qty, lastPrice := px);
        positions := if p.qty <= 0 then positions - {f.ticker} else positions[f.ticker := p];
      } else {
        degradedFills := degradedFills + 1;
        return false;
      }
      fills := LastFills(fills + [FillRecord(f.ticker, f.side, f.qty, px, ccy, fee, approx)]);
      applied := true;
    }

    method Receive(ccy: Ccy, amount: real)
      modifies this`cashKrw, this`cashUsd
      ensures cashUsd == old(cashUsd) + (if ccy == USD then amount else 0.0)
      ensures cashKrw == old(cashKrw) + (if ccy == USD then 0.0 else amount)
    {
      if ccy == USD {
        cashUsd := cashUsd + amount;
      } else {
        cashKrw := cashKrw + amount;
      }
    }

    /** Values the book at live prices, keeping each live price as the new last price. */
    method MarkToMarket(prices: map<string, real>, fx: real) returns (total: real, stale: set<string>)
      modifies this`positions
      ensures total == MarketValue(old(State()), prices, fx)
      ensures positions == Repriced(old(positions), prices)
      ensures stale == StaleIn(old(positions).Keys, prices)
    {
      total := cashKrw + Mul(cashUsd, Rate(USD, fx));
      var value;
      value, stale := MarkPositions(prices, fx);
      total := total + value;
    }

    method MarkPositions(prices: map<string, real>, fx: real) returns (total: real, stale: set<string>)
      modifies this`positions
      ensures total == SumMap(MarkValues(old(positions), prices, fx))
      ensures positions == Repriced(old(positions), prices)
      ensures stale == StaleIn(old(positions).Keys, prices)
    {
      total, stale := 0.0, {};
      var todo := positions.Keys;
      NothingMarked(positions, prices, fx);
      hide Marked;
      hide MarkValue;
      hide Reprice;
      while todo != {}
        invariant Marked(old(positions), positions, prices, fx, todo, total, stale)
        decreases |todo|
      {
        var tk :| tk in todo;
        MarkStep(old(positions), positions, prices, fx, todo, total, stale, tk);
        var value := MarkOne(tk, LiveOf(prices, tk), fx);
        if LiveOf(prices, tk) <= 0.0 {
          stale := stale + {tk};
        }
        total := total + value;
        todo := todo - {tk};
      }
      AllMarked(old(positions), positions, prices, fx, total, stale);
    }

    /** The loop body: takes over the live price, if any, and values the position. */
    method MarkOne(tk: string, live: real, fx: real) returns (value: real)
      requires tk in positions
      modifies this`positions
      ensures positions == old(positions)[tk := Reprice(old(positions)[tk], live)]
      ensures value == MarkValue(old(positions)[tk], live, fx)
    {
      var p := positions[tk];
      if live > 0.0 && live != p.lastPrice {
        p := p.(lastPrice := live);
        positions := positions[tk := p];
      }
      value := Mul(Mul(p.qty as real, FirstNonZero(p.lastPrice, p.avgCost)), Rate(p.ccy, fx));
    }
  }

  /** The marking loop between rounds: the positions not still to do are repriced, valued and checked. */
  ghost predicate Marked(was: map<string, Position>, now: map<string, Position>, prices: map<string, real>, fx: real,
                         todo: set<string>, total: real, stale: set<string>)
  {
    && todo <= was.Keys
    && RepricedBut(was, now, prices, todo)
    && total == SumMap(MarkValues(was, prices, fx) - todo)
    && stale == StaleIn(was.Keys - todo, prices)
  }

  lemma NothingMarked(was: map<string, Position>, prices: map<string, real>, fx: real)
    ensures Marked(was, was, prices, fx, was.Keys, 0.0, {})
  {
  }

  lemma MarkStep(was: map<string, Position>, now: map<string, Position>, prices: map<string, real>, fx: real,
                 todo: set<string>, total: real, stale: set<string>, tk: string)
    requires tk in todo && Marked(was, now, prices, fx, todo, total, stale)
    ensures tk in now && now[tk] == was[tk]
    ensures Marked(was, now[tk := Reprice(was[tk], LiveOf(prices, tk))], prices, fx, todo - {tk},
                   total + MarkValue(was[tk], LiveOf(prices, tk), fx),
                   if LiveOf(prices, tk) <= 0.0 then stale + {tk} else stale)
  {
    hide SumMap;
    hide Reprice;
    hide MarkValue;
    SumMapStep(MarkValues(was, prices, fx), todo, tk);
    StaleStep(was.Keys, prices, todo, tk);
  }

  lemma StaleStep(tickers: set<string>, prices: map<string, real>, todo: set<string>, tk: string)
    requires tk in todo && todo <= tickers
    ensures StaleIn(tickers - (todo - {tk}), prices)
         == if LiveOf(prices, tk) <= 0.0 then StaleIn(tickers - todo, prices) + {tk}
           else StaleIn(tickers - todo, prices)
  {
  }

  lemma AllMarked(was: map<string, Position>, now: map<string, Position>, prices: map<string, real>, fx: real,
                  total: real, stale: set<string>)
    requires Marked(was, now, prices, fx, {}, total, stale)
    ensures now == Repriced(was, prices)
    ensures total == SumMap(MarkValues(was, prices, fx))
    ensures stale == StaleIn(was.Keys, prices)
  {
    SumMapAll(MarkValues(was, prices, fx));
    assert was.Keys - {} == was.Keys;
  }

  // ----- Positions stay sound -----

  ghost predicate SoundPosition(p: Position) {
    p.qty >= 1 && p.avgCost > 0.0 && p.lastPrice > 0.0
  }

  ghost predicate SoundPositions(positions: map<string, Position>) {
    forall tk | tk in positions :: SoundPosition(positions[tk])
  }

  /** Whatever fill arrives, every position keeps at least one share and a positive cost and last price. */
  lemma FillKeepsSound(b: Book, f: Fill)
    requires SoundPositions(b.positions)
    ensures SoundPositions(AfterFill(b, f).positions)
  {
  }

  // ----- What is missing from a fill -----

  /** Whether a price was missing is remembered: by the record of the fill, and by the position for as long as it is
      held. */
  lemma MissingPriceIsRemembered(b: Book, f: Fill)
    requires Accepted(b, f)
    ensures var after, missing := AfterFill(b, f), f.price.None? || f.price.value <= 0.0;
      && after.fills != [] && after.fills[|after.fills| - 1].approx == missing
      && after.fills[|after.fills| - 1].ticker == f.ticker && after.fills[|after.fills| - 1].qty == f.qty
      && after.fills[|after.fills| - 1].price == PriceOf(b, f)
      && (f.ticker in after.positions ==>
            after.positions[f.ticker].approxBasis
            == ((f.ticker in b.positions && b.positions[f.ticker].approxBasis) || (f.side == Buy && missing)))
      && (f.ticker in after.positions ==> after.positions[f.ticker].lastPrice == PriceOf(b, f))
      && after.degradedFills == b.degradedFills
  {
    hide PriceOf;
    hide Mul;
  }

  /** A well-formed fill that cannot be booked is counted, an ill-formed one is not. */
  lemma RejectionIsCounted(b: Book, f: Fill)
    requires !Accepted(b, f)
    ensures AfterFill(b, f).degradedFills - b.degradedFills
      == if f.ticker != [] && f.side != OtherSide && f.qty > 0 then 1 else 0
  {
  }

  // ----- The accounting identity -----

  /** Cost of a position if its currency is (or is not) the dollar. */
  function CostIn(p: Position, usd: bool): real {
    if (p.ccy == USD) == usd then Mul(p.avgCost, p.qty as real) else 0.0
  }

  function Costs(positions: map<string, Position>, usd: bool): map<string, real> {
    map tk | tk in positions :: CostIn(positions[tk], usd)
  }

  function CashIn(b: Book, usd: bool): real {
    if usd then b.cashUsd else b.cashKrw
  }

  /** Cash plus positions at cost, in one currency. */
  ghost function Net(b: Book, usd: bool): real {
    CashIn(b, usd) + SumMap(Costs(b.positions, usd))
  }

  /** What a sale realizes over the average cost at that time, before its fee. */
  function Realized(b: Book, f: Fill): real {
    if Accepted(b, f) && f.side == Sell then Mul(PriceOf(b, f) - b.positions[f.ticker].avgCost, f.qty as real) else 0.0
  }

  function Charged(b: Book, f: Fill): real {
    if Accepted(b, f) then Fee(b, f) else 0.0
  }

  /** The fill trades in the currency of the position it meets and sells no more than is held. */
  predicate Regular(b: Book, f: Fill) {
    f.ticker in b.positions ==>
      && (b.positions[f.ticker].ccy == USD) == (CcyOf(f) == USD)
      && (f.side == Sell ==> f.qty <= b.positions[f.ticker].qty)
  }

  /** The fill changes cash plus cost by its realized gain less its fee, in its own currency and no other. */
  ghost predicate Balances(b: Book, f: Fill) {
    forall usd: bool ::
      Net(AfterFill(b, f), usd) - Net(b, usd)
      == if (CcyOf(f) == USD) == usd then Realized(b, f) - Charged(b, f) else 0.0
  }

  lemma CostsAfterPut(positions: map<string, Position>, tk: string, p: Position, usd: bool)
    ensures SumMap(Costs(positions[tk := p], usd))
         == SumMap(Costs(positions, usd)) + CostIn(p, usd) - if tk in positions then CostIn(positions[tk], usd) else 0.0
  {
    hide CostIn;
    assert Costs(positions[tk := p], usd) == Costs(positions, usd)[tk := CostIn(p, usd)];
    SumMapPut(Costs(positions, usd), tk, CostIn(p, usd));
  }

  lemma CostsAfterRemove(positions: map<string, Position>, tk: string, usd: bool)
    requires tk in positions
    ensures SumMap(Costs(positions - {tk}, usd)) == SumMap(Costs(positions, usd)) - CostIn(positions[tk], usd)
  {
    hide CostIn;
    assert Costs(positions - {tk}, usd) == Costs(positions, usd) - {tk};
    SumMapRemove(Costs(positions, usd), tk);
  }

  lemma BoughtCost(was: Option<Position>, qty: int, px: real, ccy: Ccy, approx: bool)
    requires qty > 0 && (was.Some? ==> was.value.qty >= 1)
    ensures var p := Bought(was, qty, px, ccy, approx);
            Mul(p.avgCost, p.qty as real)
            == Mul(px, qty as real) + if was.Some? then Mul(was.value.avgCost, was.value.qty as real) else 0.0
  {
  }

  /** How an accepted fill changes the cost of what is held in one currency. */
  function CostChange(b: Book, f: Fill, usd: bool): real
    requires Accepted(b, f)
  {
    if f.side == Buy then
      var same := f.ticker in b.positions ==> (b.positions[f.ticker].ccy == USD) == (CcyOf(f) == USD);
      if same == ((CcyOf(f) == USD) == usd) then Gross(b, f) else 0.0
    else
      var p := b.positions[f.ticker];
      if (p.ccy == USD) != usd then 0.0
      else -Mul(p.avgCost, (if f.qty <= p.qty then f.qty else p.qty) as real)
  }

  lemma BuyCostChange(b: Book, f: Fill, usd: bool)
    requires SoundPositions(b.positions) && Accepted(b, f) && f.side == Buy
    ensures SumMap(Costs(AfterFill(b, f).positions, usd)) == SumMap(Costs(b.positions, usd)) + CostChange(b, f, usd)
  {
    var px, approx := PriceOf(b, f), OrZero(f.price) <= 0.0;
    var was := PositionOf(b, f.ticker);
    var p := Bought(was, f.qty, px, CcyOf(f), approx);
    assert AfterFill(b, f).positions == b.positions[f.ticker := p];
    assert p.ccy == if was.Some? then was.value.ccy else CcyOf(f);
    BoughtCost(was, f.qty, px, CcyOf(f), approx);
    hide Bought;
    hide PriceOf;
    hide AfterFill;
    hide Mul;
    CostsAfterPut(b.positions, f.ticker, p, usd);
  }

  lemma SellCostChange(b: Book, f: Fill, usd: bool)
    requires SoundPositions(b.positions) && Accepted(b, f) && f.side == Sell
    ensures SumMap(Costs(AfterFill(b, f).positions, usd)) == SumMap(Costs(b.positions, usd)) + CostChange(b, f, usd)
  {
    var p := b.positions[f.ticker];
    if f.qty < p.qty {
      var p' := p.(qty := p.qty - f.qty, lastPrice := PriceOf(b, f));
      assert AfterFill(b, f).positions == b.positions[f.ticker := p'];
      hide AfterFill;
      hide PriceOf;
      hide Mul;
      CostsAfterPut(b.positions, f.ticker, p', usd);
      MulLeft(p.avgCost, p.qty as real, f.qty as real);
    } else {
      assert AfterFill(b, f).positions == b.positions - {f.ticker};
      hide AfterFill;
      CostsAfterRemove(b.positions, f.ticker, usd);
    }
  }

  lemma NetChange(b: Book, f: Fill, usd: bool)
    requires SoundPositions(b.positions) && Accepted(b, f)
    ensures Net(AfterFill(b, f), usd) - Net(b, usd)
         == CostChange(b, f, usd) + if (CcyOf(f) == USD) == usd then CashFlow(b, f) else 0.0
  {
    if f.side == Buy {
      BuyCostChange(b, f, usd);
    } else {
      SellCostChange(b, f, usd);
    }
    assert CashIn(AfterFill(b, f), usd) == CashIn(b, usd) + if (CcyOf(f) == USD) == usd then CashFlow(b, f) else 0.0;
  }

  /** An accepted fill balances exactly when it is regular. */
  lemma FillBalancesIffRegular(b: Book, f: Fill)
    requires SoundPositions(b.positions) && Accepted(b, f)
    ensures Balances(b, f) <==> Regular(b, f)
  {
    NetChange(b, f, true);
    NetChange(b, f, false);
    var px, q := PriceOf(b, f), f.qty as real;
    MulSign(px, q);
    if f.side == Sell {
      var p := b.positions[f.ticker];
      MulSign(p.avgCost, q);
      MulRight(px, p.avgCost, q);
      if f.qty > p.qty {
        MulLeft(p.avgCost, q, p.qty as real);
        MulSign(p.avgCost, q - p.qty as real);
      }
    }
    hide Mul;
    hide PriceOf;
    hide Net;
    hide Fee;
  }

  /** One share held and two sold: cash plus cost rises by the whole price of the share that was never there. */
  lemma OversoldFillInflates()
    ensures var b := Book(0.0, 0.0, map["005930" := Position(1, 100.0, KRW, 100.0, false)], [], 0);
      var f := Fill("005930", Sell, 2, Some(100.0), Some(KRW), None);
      && Accepted(b, f) && !Regular(b, f)
      && Realized(b, f) == 0.0 && Charged(b, f) == 0.0 && Net(AfterFill(b, f), false) == Net(b, false) + 100.0
  {
    var b := Book(0.0, 0.0, map["005930" := Position(1, 100.0, KRW, 100.0, false)], [], 0);
    var f := Fill("005930", Sell, 2, Some(100.0), Some(KRW), None);
    assert AfterFill(b, f).positions == map[] && AfterFill(b, f).cashKrw == 200.0;
    assert Costs(map[], false) == map[];
    CostsAfterRemove(b.positions, "005930", false);
    assert b.positions - {"005930"} == map[];
    hide AfterFill;
  }

  // ----- Runs of fills -----

  function Run(b: Book, fs: seq<Fill>): Book {
    if fs == [] then b else AfterFill(Run(b, fs[..|fs| - 1]), fs[|fs| - 1])
  }

  predicate RegularRun(b: Book, fs: seq<Fill>) {
    fs != [] ==>
      && RegularRun(b, fs[..|fs| - 1])
      && Regular(Run(b, fs[..|fs| - 1]), fs[|fs| - 1])
  }

  /** Realized gains less fees of a run in one currency, each fill judged by the book it met. */
  function Earned(b: Book, fs: seq<Fill>, usd: bool): real {
    if fs == [] then 0.0
    else
      var before, f := Run(b, fs[..|fs| - 1]), fs[|fs| - 1];
      Earned(b, fs[..|fs| - 1], usd)
      + if (CcyOf(f) == USD) == usd then Realized(before, f) - Charged(before, f) else 0.0
  }

  lemma {:induction false} RunKeepsSound(b: Book, fs: seq<Fill>)
    requires SoundPositions(b.positions)
    ensures SoundPositions(Run(b, fs).positions)
  {
    if fs != [] {
      RunKeepsSound(b, fs[..|fs| - 1]);
      FillKeepsSound(Run(b, fs[..|fs| - 1]), fs[|fs| - 1]);
    }
  }

  lemma RejectedBalances(b: Book, f: Fill)
    requires !Accepted(b, f)
    ensures Balances(b, f)
    ensures AfterFill(b, f) == b.(degradedFills := AfterFill(b, f).degradedFills)
  {
  }

  /** Over any regular run, cash plus positions at cost moves in each currency by exactly the realized gains
      less all fees of that currency. */
  lemma {:induction false} LedgerIdentity(b: Book, fs: seq<Fill>, usd: bool)
    requires SoundPositions(b.positions) && RegularRun(b, fs)
    ensures Net(Run(b, fs), usd) == Net(b, usd) + Earned(b, fs, usd)
  {
    if fs != [] {
      var pre, f := fs[..|fs| - 1], fs[|fs| - 1];
      LedgerIdentity(b, pre, usd);
      RunKeepsSound(b, pre);
      var before := Run(b, pre);
      if Accepted(before, f) {
        FillBalancesIffRegular(before, f);
      } else {
        RejectedBalances(before, f);
      }
      assert Balances(before, f);
      hide Net;
      hide Realized;
      hide Charged;
      hide AfterFill;
    }
  }

  // ----- Market value -----

  lemma MarkValuesAfterPut(positions: map<string, Position>, prices: map<string, real>, fx: real,
                           tk: string, p: Position)
    ensures SumMap(MarkValues(positions[tk := p], prices, fx))
         == SumMap(MarkValues(positions, prices, fx)) + MarkValue(p, LiveOf(prices, tk), fx)
            - if tk in positions then MarkValue(positions[tk], LiveOf(prices, tk), fx) else 0.0
  {
    hide MarkValue;
    var v := MarkValue(p, LiveOf(prices, tk), fx);
    assert MarkValues(positions[tk := p], prices, fx) == MarkValues(positions, prices, fx)[tk := v];
    SumMapPut(MarkValues(positions, prices, fx), tk, v);
  }

  lemma MarkValuesAfterRemove(positions: map<string, Position>, prices: map<string, real>, fx: real, tk: string)
    requires tk in positions
    ensures SumMap(MarkValues(positions - {tk}, prices, fx))
         == SumMap(MarkValues(positions, prices, fx)) - MarkValue(positions[tk], LiveOf(prices, tk), fx)
  {
    hide MarkValue;
    assert MarkValues(positions - {tk}, prices, fx) == MarkValues(positions, prices, fx) - {tk};
    SumMapRemove(MarkValues(positions, prices, fx), tk);
  }

  // ----- The exchange rate -----

  lemma {:induction false} SumMapLinear(a: map<string, real>, b: map<string, real>, c: map<string, real>, k: real)
    requires a.Keys == b.Keys == c.Keys && forall tk | tk in a :: a[tk] == b[tk] + Mul(k, c[tk])
    ensures SumMap(a) == SumMap(b) + Mul(k, SumMap(c))
    decreases |a|
  {
    if a == map[] {
      assert b == map[] && c == map[];
      MulZero(k);
    } else {
      var tk :| tk in a;
      assert tk in b.Keys && tk in c.Keys;
      SumMapLinear(a - {tk}, b - {tk}, c - {tk}, k);
      SumMapRemove(a, tk);
      SumMapRemove(b, tk);
      SumMapRemove(c, tk);
      MulLeft(k, c[tk], SumMap(c - {tk}));
      hide Mul;
      hide SumMap;
    }
  }

  /** What the positions in dollars (or the others) are marked at, in their own currency. */
  function OwnValue(p: Position, live: real, usd: bool): real {
    if (p.ccy == USD) == usd then Mul(p.qty as real, MarkPrice(p, live)) else 0.0
  }

  function OwnValues(b: Book, prices: map<string, real>, usd: bool): map<string, real> {
    map tk | tk in b.positions :: OwnValue(b.positions[tk], LiveOf(prices, tk), usd)
  }

  /** The account's value is its won, with its positions that are not in dollars, and its dollars, with the others, at
      the exchange rate; without a rate the dollars count for nothing. */
  lemma DollarsAtTheRate(b: Book, prices: map<string, real>, fx: real)
    ensures MarketValue(b, prices, fx)
      == b.cashKrw + SumMap(OwnValues(b, prices, false))
         + Mul(Max(0.0, fx), b.cashUsd + SumMap(OwnValues(b, prices, true)))
  {
    var k := Max(0.0, fx);
    forall tk | tk in b.positions
      ensures MarkValue(b.positions[tk], LiveOf(prices, tk), fx)
           == OwnValue(b.positions[tk], LiveOf(prices, tk), false)
              + Mul(k, OwnValue(b.positions[tk], LiveOf(prices, tk), true))
    {
      var p, live := b.positions[tk], LiveOf(prices, tk);
      var worth := Mul(p.qty as real, MarkPrice(p, live));
      MulOne(worth);
      MulCommutes(worth, k);
      MulZero(k);
      hide MarkPrice;
      hide Mul;
    }
    MulLeft(k, b.cashUsd, SumMap(OwnValues(b, prices, true)));
    MulCommutes(b.cashUsd, k);
    hide MarkValue;
    hide OwnValue;
    hide Mul;
    SumMapLinear(MarkValues(b.positions, prices, fx), OwnValues(b, prices, false), OwnValues(b, prices, true), k);
    hide MarkValues;
    hide OwnValues;
    hide SumMap;
  }

  /** The value of a quantity at a price, converted. */
  function Worth(qty: int, px: real, ccy: Ccy, fx: real): real {
    Mul(Mul(qty as real, px), Rate(ccy, fx))
  }

  /** Marking stores what it values at: without any live price, the marked book has the same value again. */
  lemma MarkedValueStays(b: Book, prices: map<string, real>, fx: real)
    requires SoundPositions(b.positions)
    ensures MarketValue(b.(positions := Repriced(b.positions, prices)), map[], fx) == MarketValue(b, prices, fx)
  {
    forall tk | tk in b.positions
      ensures MarkValue(Reprice(b.positions[tk], LiveOf(prices, tk)), 0.0, fx)
           == MarkValue(b.positions[tk], LiveOf(prices, tk), fx)
    {
      hide Mul;
    }
    hide MarkValue;
    hide Reprice;
    assert MarkValues(Repriced(b.positions, prices), map[], fx) == MarkValues(b.positions, prices, fx);
    hide MarkValues;
  }

  /** A live price values a position whatever was paid for it; without one its last price does. */
  lemma LivePriceDecides(p: Position, live: real, fx: real, paid: real)
    requires SoundPosition(p) && paid > 0.0
    ensures MarkValue(p.(avgCost := paid), live, fx) == MarkValue(p, live, fx)
    ensures live > 0.0 ==> MarkValue(p, live, fx) == Worth(p.qty, live, p.ccy, fx)
    ensures live <= 0.0 ==> MarkValue(p, live, fx) == Worth(p.qty, p.lastPrice, p.ccy, fx)
  {
    hide Mul;
  }

  /** Changing a position by some shares changes what is held by their worth. */
  lemma HeldAfterPut(positions: map<string, Position>, tk: string, p: Position, qty: int,
                     prices: map<string, real>, fx: real)
    requires tk in prices && prices[tk] > 0.0
    requires p.qty == qty + if tk in positions then positions[tk].qty else 0
    requires tk in positions ==> Rate(positions[tk].ccy, fx) == Rate(p.ccy, fx)
    ensures SumMap(MarkValues(positions[tk := p], prices, fx))
         == SumMap(MarkValues(positions, prices, fx)) + Worth(qty, prices[tk], p.ccy, fx)
  {
    var px, rate := prices[tk], Rate(p.ccy, fx);
    MarkValuesAfterPut(positions, prices, fx, tk, p);
    hide MarkValues;
    hide SumMap;
    hide Rate;
    hide Mul;
    if tk in positions {
      WorthAdds(positions[tk].qty, qty, px, rate);
    }
  }

  lemma BoughtShares(was: Option<Position>, qty: int, px: real, ccy: Ccy, approx: bool)
    ensures var p := Bought(was, qty, px, ccy, approx);
      && p.qty == qty + (if was.Some? then was.value.qty else 0)
      && p.ccy == if was.Some? then was.value.ccy else ccy
  {
    hide Mul;
  }

  lemma WorthOfSale(qty: int, px: real, ccy: Ccy, fx: real)
    ensures Worth(-qty, px, ccy, fx) == -Worth(qty, px, ccy, fx)
  {
    assert (-qty) as real == -(qty as real);
    MulNegative(qty as real, px);
    MulNegative(Mul(qty as real, px), Rate(ccy, fx));
    hide Mul;
    hide Rate;
  }

  lemma HeldAfterBuy(b: Book, f: Fill, prices: map<string, real>, fx: real)
    requires Accepted(b, f) && Regular(b, f) && f.side == Buy
    requires f.ticker in prices && prices[f.ticker] == PriceOf(b, f)
    ensures SumMap(MarkValues(PositionsAfter(b, f), prices, fx))
         == SumMap(MarkValues(b.positions, prices, fx)) + Worth(f.qty, prices[f.ticker], CcyOf(f), fx)
  {
    var p := Bought(PositionOf(b, f.ticker), f.qty, PriceOf(b, f), CcyOf(f), OrZero(f.price) <= 0.0);
    BoughtShares(PositionOf(b, f.ticker), f.qty, PriceOf(b, f), CcyOf(f), OrZero(f.price) <= 0.0);
    assert PositionsAfter(b, f) == b.positions[f.ticker := p];
    assert Rate(p.ccy, fx) == Rate(CcyOf(f), fx);
    hide *;
    HeldAfterPut(b.positions, f.ticker, p, f.qty, prices, fx);
    assert Worth(f.qty, prices[f.ticker], p.ccy, fx) == Worth(f.qty, prices[f.ticker], CcyOf(f), fx) by {
      SameRateSameWorth(f.qty, prices[f.ticker], p.ccy, CcyOf(f), fx);
    }
  }

  lemma SameRateSameWorth(qty: int, px: real, ccy: Ccy, other: Ccy, fx: real)
    requires Rate(ccy, fx) == Rate(other, fx)
    ensures Worth(qty, px, ccy, fx) == Worth(qty, px, other, fx)
  {
  }

  lemma HeldAfterSale(b: Book, f: Fill, prices: map<string, real>, fx: real)
    requires Accepted(b, f) && Regular(b, f) && f.side == Sell
    requires f.ticker in prices && prices[f.ticker] == PriceOf(b, f)
    ensures SumMap(MarkValues(PositionsAfter(b, f), prices, fx))
         == SumMap(MarkValues(b.positions, prices, fx)) - Worth(f.qty, prices[f.ticker], CcyOf(f), fx)
  {
    var tk, p := f.ticker, b.positions[f.ticker];
    hide PriceOf;
    SameRateSameWorth(f.qty, prices[tk], p.ccy, CcyOf(f), fx);
    if f.qty < p.qty {
      var left := p.(qty := p.qty - f.qty, lastPrice := prices[tk]);
      assert PositionsAfter(b, f) == b.positions[tk := left];
      hide *;
      HeldAfterPut(b.positions, tk, left, -f.qty, prices, fx);
      WorthOfSale(f.qty, prices[tk], p.ccy, fx);
    } else {
      assert PositionsAfter(b, f) == b.positions - {tk};
      MarkValuesAfterRemove(b.positions, prices, fx, tk);
      assert MarkValue(p, LiveOf(prices, tk), fx) == Worth(f.qty, prices[tk], p.ccy, fx);
      hide *;
    }
  }

  lemma HeldChange(b: Book, f: Fill, prices: map<string, real>, fx: real, px: real)
    requires SoundPositions(b.positions) && Accepted(b, f) && Regular(b, f)
    requires px == PriceOf(b, f) && f.ticker in prices && prices[f.ticker] == px
    ensures SumMap(MarkValues(AfterFill(b, f).positions, prices, fx))
         == SumMap(MarkValues(b.positions, prices, fx))
            + if f.side == Buy then Worth(f.qty, px, CcyOf(f), fx) else -Worth(f.qty, px, CcyOf(f), fx)
  {
    assert AfterFill(b, f).positions == PositionsAfter(b, f);
    assert f.side == Buy || f.side == Sell;
    hide *;
    if f.side == Buy {
      HeldAfterBuy(b, f, prices, fx);
    } else {
      HeldAfterSale(b, f, prices, fx);
    }
  }

  lemma WorthAdds(q: int, r: int, px: real, rate: real)
    ensures Mul(Mul((q + r) as real, px), rate) == Mul(Mul(q as real, px), rate) + Mul(Mul(r as real, px), rate)
  {
  }

  /** Marked at the trade price, a regular fill costs exactly its fee: shares only change into money. */
  lemma FillCostsItsFee(b: Book, f: Fill, prices: map<string, real>, fx: real)
    requires SoundPositions(b.positions) && Accepted(b, f) && Regular(b, f)
    requires f.ticker in prices && prices[f.ticker] == PriceOf(b, f)
    ensures MarketValue(AfterFill(b, f), prices, fx)
         == MarketValue(b, prices, fx) - Mul(Fee(b, f), Rate(CcyOf(f), fx))
  {
    var px, rate := PriceOf(b, f), Rate(CcyOf(f), fx);
    HeldChange(b, f, prices, fx, px);
    hide MarkValues;
    hide PositionsAfter;
    hide SumMap;
    hide PriceOf;
    CashWorth(b, f, fx);
  }

  /** Marked at last prices, a sale without a price of its own costs its fee and nothing else: it is booked at the
      position's last price. */
  lemma UnpricedSaleCostsItsFee(b: Book, f: Fill, fx: real)
    requires SoundPositions(b.positions) && f.ticker in b.positions && Regular(b, f)
    requires WellFormed(f) && f.side == Sell && (f.price.None? || f.price.value <= 0.0)
    ensures MarketValue(AfterFill(b, f), map[], fx) == MarketValue(b, map[], fx) - Mul(Fee(b, f), Rate(CcyOf(f), fx))
  {
    var tk, p := f.ticker, b.positions[f.ticker];
    assert PriceOf(b, f) == p.lastPrice && Accepted(b, f);
    SameRateSameWorth(f.qty, p.lastPrice, p.ccy, CcyOf(f), fx);
    CashWorth(b, f, fx);
    hide PriceOf;
    hide CcyOf;
    hide Fee;
    hide Mul;
    UnpricedRest(b, f, fx);
    hide AfterFill;
    hide MarkValues;
    hide SumMap;
    hide Rate;
    hide Worth;
  }

  lemma UnpricedRest(b: Book, f: Fill, fx: real)
    requires SoundPositions(b.positions) && Accepted(b, f) && f.side == Sell && Regular(b, f)
    requires PriceOf(b, f) == b.positions[f.ticker].lastPrice
    ensures SumMap(MarkValues(AfterFill(b, f).positions, map[], fx))
      == SumMap(MarkValues(b.positions, map[], fx))
         - Worth(f.qty, b.positions[f.ticker].lastPrice, b.positions[f.ticker].ccy, fx)
  {
    var tk, p := f.ticker, b.positions[f.ticker];
    var px := p.lastPrice;
    if f.qty < p.qty {
      var left := p.(qty := p.qty - f.qty, lastPrice := px);
      assert AfterFill(b, f).positions == b.positions[tk := left];
      assert MarkValue(p, 0.0, fx) == Worth(p.qty, px, p.ccy, fx);
      assert MarkValue(left, 0.0, fx) == Worth(left.qty, px, p.ccy, fx);
      hide AfterFill;
      hide MarkValue;
      hide PriceOf;
      MarkValuesAfterPut(b.positions, map[], fx, tk, left);
      WorthAdds(left.qty, f.qty, px, Rate(p.ccy, fx));
      hide Mul;
      hide MarkValues;
      hide SumMap;
    } else {
      assert AfterFill(b, f).positions == b.positions - {tk};
      MarkValuesAfterRemove(b.positions, map[], fx, tk);
      assert MarkValue(p, LiveOf(map[], tk), fx) == Worth(f.qty, px, p.ccy, fx);
      hide *;
    }
  }

  /** A purchase without a price is booked at the average cost that came with it: that is what it takes from the cash,
      with the fee, and what the shares then cost. */
  lemma UnpricedPurchaseAtCost(b: Book, f: Fill, usd: bool)
    requires SoundPositions(b.positions) && WellFormed(f) && f.side == Buy
    requires (f.price.None? || f.price.value <= 0.0) && f.avgCost.Some? && f.avgCost.value > 0.0
    requires (CcyOf(f) == USD) == usd
    ensures CashIn(AfterFill(b, f), usd) == CashIn(b, usd)
      - Mul(1.0 + (if usd then US_TRADE_COST_RATE else 0.0), Mul(f.avgCost.value, f.qty as real))
    ensures f.ticker !in b.positions ==>
      f.ticker in AfterFill(b, f).positions && AfterFill(b, f).positions[f.ticker].avgCost == f.avgCost.value
  {
    hide CcyOf;
    MulRight(1.0, US_TRADE_COST_RATE, Mul(f.avgCost.value, f.qty as real));
    MulOne(Mul(f.avgCost.value, f.qty as real));
  }

  /** A fill touches the cash of one currency: the one reported, or else the one of its listing. */
  lemma OtherCashIsUntouched(b: Book, f: Fill)
    ensures f.ccy == Some(USD) ==> AfterFill(b, f).cashKrw == b.cashKrw
    ensures f.ccy.Some? && f.ccy != Some(USD) ==> AfterFill(b, f).cashUsd == b.cashUsd
    ensures f.ccy.None? && IsKrCode(f.ticker) ==> AfterFill(b, f).cashUsd == b.cashUsd
    ensures f.ccy.None? && !IsKrCode(f.ticker) ==> AfterFill(b, f).cashKrw == b.cashKrw
    ensures f.ccy.None? && f.ticker !in b.positions && f.ticker in AfterFill(b, f).positions ==>
      AfterFill(b, f).positions[f.ticker].ccy == if IsKrCode(f.ticker) then KRW else USD
  {
    hide PriceOf;
    hide Mul;
  }

  function CashValue(b: Book, fx: real): real {
    b.cashKrw + Mul(b.cashUsd, Rate(USD, fx))
  }

  lemma CashWorth(b: Book, f: Fill, fx: real)
    requires Accepted(b, f)
    ensures CashValue(AfterFill(b, f), fx)
         == CashValue(b, fx)
            + (if f.side == Buy then -Worth(f.qty, PriceOf(b, f), CcyOf(f), fx)
              else Worth(f.qty, PriceOf(b, f), CcyOf(f), fx))
            - Mul(Fee(b, f), Rate(CcyOf(f), fx))
  {
  }

  // ----- The audit trail -----

  /** The records of the accepted fills of a run. */
  function Records(b: Book, fs: seq<Fill>): seq<FillRecord> {
    if fs == [] then []
    else
      var before, f := Run(b, fs[..|fs| - 1]), fs[|fs| - 1];
      Records(b, fs[..|fs| - 1])
      + if Accepted(before, f)
        then [FillRecord(f.ticker, f.side, f.qty, PriceOf(before, f), CcyOf(f), Fee(before, f), OrZero(f.price) <= 0.0)]
        else []
  }

  lemma LastFillsAbsorbs(s: seq<FillRecord>, r: FillRecord)
    ensures LastFills(LastFills(s) + [r]) == LastFills(s + [r])
  {
  }

  /** The capped history is always the newest part of the full history. */
  lemma {:induction false} HistoryIsNewest(b: Book, fs: seq<Fill>)
    requires |b.fills| <= FILLS_CAP
    ensures Run(b, fs).fills == LastFills(b.fills + Records(b, fs))
  {
    if fs != [] {
      var pre, f := fs[..|fs| - 1], fs[|fs| - 1];
      HistoryIsNewest(b, pre);
      var before := Run(b, pre);
      if Accepted(before, f) {
        var r := FillRecord(f.ticker, f.side, f.qty, PriceOf(before, f), CcyOf(f),
          Fee(before, f), OrZero(f.price) <= 0.0);
        LastFillsAbsorbs(b.fills + Records(b, pre), r);
        assert b.fills + (Records(b, pre) + [r]) == (b.fills + Records(b, pre)) + [r];
      } else {
        assert Records(b, pre) + [] == Records(b, pre);
      }
    }
  }

  /** The history never holds more than three hundred records. */
  lemma {:induction false} HistoryIsCapped(b: Book, fs: seq<Fill>)
    requires |b.fills| <= 300
    ensures |Run(b, fs).fills| <= 300
  {
    if fs != [] {
      HistoryIsCapped(b, fs[..|fs| - 1]);
      hide PriceOf;
      hide PositionsAfter;
      hide CashFlow;
    }
  }
}
