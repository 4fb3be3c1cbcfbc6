/** The ledger (infra/trade_ledger.py) and the first-in-first-out matcher (main_swarm.py) compute profit
    independently. Here they are run side by side on the same trades. */
module TwoEngines {
  import opened Common
  import opened Sorting
  import L = TradeLedger
  import F = FifoMatcher

  /** A confirmed trade, as handed to both engines. */
  datatype Trade = Trade(ticker: string, buy: bool, qty: int, price: real, ts: real)

  predicate Valid(t: Trade) {
    t.ticker != [] && t.qty > 0 && t.price > 0.0
  }

  predicate IsUs(ticker: string) {
    !IsKrCode(ticker)
  }

  function FillOf(t: Trade): L.Fill {
    L.Fill(t.ticker, if t.buy then L.Buy else L.Sell, t.qty, Some(t.price),
      Some(if IsUs(t.ticker) then L.USD else L.KRW), None)
  }

  function EventOf(t: Trade): F.Event {
    F.Event(t.ticker, if t.buy then F.Buy else F.Sell, t.qty, true, t.ts, Some(t.price), None, None, None)
  }

  /** The two engines side by side. */
  datatype Pair = Pair(book: L.Book, lots: F.Lots)

  function After(p: Pair, t: Trade): Pair {
    Pair(L.AfterFill(p.book, FillOf(t)), F.After(p.lots, EventOf(t)))
  }

  function Run(p: Pair, ts: seq<Trade>): Pair {
    if ts == [] then p else After(Run(p, ts[..|ts| - 1]), ts[|ts| - 1])
  }

  /** Running them side by side is running each on its own. */
  function FillsOf(ts: seq<Trade>): seq<L.Fill> {
    if ts == [] then [] else FillsOf(ts[..|ts| - 1]) + [FillOf(ts[|ts| - 1])]
  }

  function EventsOf(ts: seq<Trade>): seq<F.Event> {
    if ts == [] then [] else EventsOf(ts[..|ts| - 1]) + [EventOf(ts[|ts| - 1])]
  }

  lemma {:induction false} RunsSeparately(p: Pair, ts: seq<Trade>)
    ensures Run(p, ts) == Pair(L.Run(p.book, FillsOf(ts)), F.Run(p.lots, EventsOf(ts)))
  {
    if ts != [] {
      var n := |ts| - 1;
      RunsSeparately(p, ts[..n]);
      assert FillsOf(ts)[..|FillsOf(ts)| - 1] == FillsOf(ts[..n]);
      assert EventsOf(ts)[..|EventsOf(ts)| - 1] == EventsOf(ts[..n]);
    }
  }

  // ----- Both hold the same shares -----

  function HeldQty(b: L.Book, tk: string): int {
    if tk in b.positions then b.positions[tk].qty else 0
  }

  predicate PricedLots(lots: seq<F.Lot>) {
    forall i | 0 <= i < |lots| :: lots[i].qty >= 1 && lots[i].price > 0.0
  }

  /** For one ticker: the quantities agree, lots are nonempty and priced, and no position is empty. */
  ghost predicate InStep(b: L.Book, lots: F.Lots, tk: string) {
    && PricedLots(F.LotsOf(lots, tk))
    && HeldQty(b, tk) == F.TotalQty(F.LotsOf(lots, tk))
    && (tk in b.positions ==> b.positions[tk].qty >= 1)
  }

  lemma {:induction false} PricedTotal(lots: seq<F.Lot>)
    requires PricedLots(lots)
    ensures F.TotalQty(lots) >= |lots|
  {
    if lots != [] {
      PricedTotal(lots[..|lots| - 1]);
    }
  }

  /** The money tied up in lots, at their buying prices. */
  function LotCost(lots: seq<F.Lot>): real {
    if lots == [] then 0.0 else LotCost(lots[..|lots| - 1]) + Mul(lots[|lots| - 1].price, lots[|lots| - 1].qty as real)
  }

  lemma {:induction false} LotCostCons(l: F.Lot, rest: seq<F.Lot>)
    ensures LotCost([l] + rest) == Mul(l.price, l.qty as real) + LotCost(rest)
    decreases |rest|
  {
    hide Mul;
    if rest == [] {
      assert [l] + rest == [l] && [l][..0] == [];
    } else {
      LotCostCons(l, rest[..|rest| - 1]);
      assert ([l] + rest)[..|rest|] == [l] + rest[..|rest| - 1];
    }
  }

  lemma LotCostSnoc(lots: seq<F.Lot>, l: F.Lot)
    ensures LotCost(lots + [l]) == LotCost(lots) + Mul(l.price, l.qty as real)
    ensures F.TotalQty(lots + [l]) == F.TotalQty(lots) + l.qty
  {
    assert (lots + [l])[..|lots|] == lots;
  }

  lemma {:induction false} SalePriced(lots: seq<F.Lot>, n: int)
    requires PricedLots(lots)
    ensures PricedLots(F.Taken(lots, n)) && PricedLots(F.Left(lots, n))
    decreases |lots|
  {
    if n > 0 && lots != [] && lots[0].qty <= n {
      SalePriced(lots[1..], n - lots[0].qty);
    }
  }

  lemma PricedTail(lots: seq<F.Lot>)
    requires PricedLots(lots) && lots != []
    ensures lots[0].qty >= 1 && PricedLots(lots[1..])
    ensures F.TotalQty(lots) == lots[0].qty + F.TotalQty(lots[1..])
  {
    assert lots == [lots[0]] + lots[1..];
    F.TotalQtyCons(lots[0], lots[1..]);
    hide F.TotalQty;
  }

  lemma {:induction false} SaleQty(lots: seq<F.Lot>, n: int)
    requires PricedLots(lots) && n >= 0
    ensures F.TotalQty(F.Taken(lots, n)) == if n <= F.TotalQty(lots) then n else F.TotalQty(lots)
    ensures F.TotalQty(F.Left(lots, n)) == F.TotalQty(lots) - F.TotalQty(F.Taken(lots, n))
    decreases |lots|
  {
    hide *;
    PricedTotal(lots);
    if n <= 0 || lots == [] {
      F.NothingLeftToTake(lots, n);
      F.NoLots();
    } else {
      var head, rest := lots[0], lots[1..];
      PricedTail(lots);
      PricedTotal(rest);
      F.TakeFromHead(lots, n);
      if head.qty <= n {
        SaleQty(rest, n - head.qty);
        F.TotalQtyCons(head, F.Taken(rest, n - head.qty));
      } else {
        F.SingleLot(head.(qty := n));
        F.TotalQtyCons(head.(qty := head.qty - n), rest);
      }
    }
  }

  lemma {:induction false} SaleCost(lots: seq<F.Lot>, n: int)
    ensures LotCost(F.Taken(lots, n)) + LotCost(F.Left(lots, n)) == LotCost(lots)
    decreases |lots|
  {
    hide Mul;
    if n > 0 && lots != [] {
      var head, rest := lots[0], lots[1..];
      assert lots == [head] + rest;
      LotCostCons(head, rest);
      if head.qty <= n {
        SaleCost(rest, n - head.qty);
        LotCostCons(head, F.Taken(rest, n - head.qty));
      } else {
        LotCostCons(head.(qty := n), []);
        LotCostCons(head.(qty := head.qty - n), rest);
        MulLeft(head.price, n as real, (head.qty - n) as real);
      }
    }
  }

  // ----- What the matches earn -----

  function CostRate(usd: bool): real {
    if usd then US_TRADE_COST_RATE else 0.0
  }

  /** Sale proceeds after costs less purchase cost with costs. */
  lemma MatchPnlIs(t: Trade, l: F.Lot)
    requires Valid(t) && l.qty >= 1 && l.price > 0.0
    ensures F.MatchOf(EventOf(t), l).pnl
         == Mul(Mul(1.0 - CostRate(IsUs(t.ticker)), t.price), l.qty as real)
            - Mul(1.0 + CostRate(IsUs(t.ticker)), Mul(l.price, l.qty as real))
  {
  }

  lemma {:induction false} MatchedPnlIs(t: Trade, parts: seq<F.Lot>)
    requires Valid(t) && PricedLots(parts)
    ensures F.TotalPnl(F.Matches(EventOf(t), parts))
         == Mul(Mul(1.0 - CostRate(IsUs(t.ticker)), t.price), F.TotalQty(parts) as real)
            - Mul(1.0 + CostRate(IsUs(t.ticker)), LotCost(parts))
  {
    var net, up := Mul(1.0 - CostRate(IsUs(t.ticker)), t.price), 1.0 + CostRate(IsUs(t.ticker));
    if parts == [] {
      MulZero(net);
      MulZero(up);
    } else {
      var pre, l := parts[..|parts| - 1], parts[|parts| - 1];
      MatchedPnlIs(t, pre);
      MatchPnlIs(t, l);
      hide Mul;
      hide F.MatchOf;
      hide IsUs;
      MulLeft(net, F.TotalQty(pre) as real, l.qty as real);
      MulLeft(up, LotCost(pre), Mul(l.price, l.qty as real));
    }
  }

  // ----- One trade -----

  /** The buying cost of the open lots of all tickers of one market. */
  function OpenCosts(lots: F.Lots, usd: bool): map<string, real> {
    map tk | tk in lots :: if IsUs(tk) == usd then LotCost(lots[tk]) else 0.0
  }

  ghost function OpenCost(lots: F.Lots, usd: bool): real {
    SumMap(OpenCosts(lots, usd))
  }

  /** The profit the matcher books for a trade. */
  function Gain(p: Pair, t: Trade): real {
    if t.buy then 0.0
    else F.TotalPnl(F.Matches(EventOf(t), F.Taken(F.LotsOf(p.lots, t.ticker), t.qty)))
  }

  /** A sale of more than is held, of something that is held. */
  predicate Oversells(p: Pair, t: Trade) {
    !t.buy && 0 < F.TotalQty(F.LotsOf(p.lots, t.ticker)) < t.qty
  }

  /** The proceeds of the shares sold beyond those held. */
  function Excess(p: Pair, t: Trade): real {
    if Oversells(p, t) then
      Mul(Mul(1.0 - CostRate(IsUs(t.ticker)), t.price), (t.qty - F.TotalQty(F.LotsOf(p.lots, t.ticker))) as real)
    else 0.0
  }

  lemma OpenCostAfter(lots: F.Lots, e: F.Event, usd: bool)
    ensures OpenCost(F.After(lots, e), usd)
         == OpenCost(lots, usd)
            + if IsUs(e.ticker) == usd then LotCost(F.QueueAfter(F.LotsOf(lots, e.ticker), e))
              - LotCost(F.LotsOf(lots, e.ticker))
              else 0.0
  {
    var q, q' := F.LotsOf(lots, e.ticker), F.QueueAfter(F.LotsOf(lots, e.ticker), e);
    if F.OpensLot(e) || (F.IsSale(e) && e.ticker in lots) {
      assert F.After(lots, e) == lots[e.ticker := q'];
      hide LotCost;
      hide IsUs;
      var v := if IsUs(e.ticker) == usd then LotCost(q') else 0.0;
      assert OpenCosts(lots[e.ticker := q'], usd) == OpenCosts(lots, usd)[e.ticker := v];
      SumMapPut(OpenCosts(lots, usd), e.ticker, v);
      EmptyCost();
    } else {
      assert q' == q;
    }
  }

  lemma EmptyCost()
    ensures LotCost([]) == 0.0
  {
  }

  lemma TradeFillBasics(b: L.Book, t: Trade)
    requires Valid(t)
    ensures L.PriceOf(b, FillOf(t)) == t.price
    ensures L.Accepted(b, FillOf(t)) <==> t.buy || t.ticker in b.positions
    ensures (L.CcyOf(FillOf(t)) == L.USD) == IsUs(t.ticker)
  {
  }

  /** Cash brought in by an accepted trade. */
  lemma TradeCash(b: L.Book, t: Trade, usd: bool)
    requires Valid(t)
    ensures L.CashIn(L.AfterFill(b, FillOf(t)), usd) - L.CashIn(b, usd)
         == if IsUs(t.ticker) != usd || (!t.buy && t.ticker !in b.positions) then 0.0
            else if t.buy then -Mul(1.0 + CostRate(usd), Mul(t.price, t.qty as real))
            else Mul(Mul(1.0 - CostRate(usd), t.price), t.qty as real)
  {
  }

  /** A trade's effect on cash plus the cost of open lots with costs. */
  lemma TradeBalances(p: Pair, t: Trade, usd: bool)
    requires Valid(t) && InStep(p.book, p.lots, t.ticker)
    ensures L.CashIn(After(p, t).book, usd) + Mul(1.0 + CostRate(usd), OpenCost(After(p, t).lots, usd))
         == L.CashIn(p.book, usd) + Mul(1.0 + CostRate(usd), OpenCost(p.lots, usd))
            + if IsUs(t.ticker) == usd then Gain(p, t) + Excess(p, t) else 0.0
  {
    var up := 1.0 + CostRate(usd);
    var q := F.LotsOf(p.lots, t.ticker);
    var q' := F.QueueAfter(q, EventOf(t));
    hide L.AfterFill;
    hide F.After;
    hide Mul;
    hide LotCost;
    hide OpenCost;
    hide F.QueueAfter;
    hide Valid;
    hide InStep;
    hide F.LotsOf;
    TradeCash(p.book, t, usd);
    OpenCostAfter(p.lots, EventOf(t), usd);
    MulLeft(up, OpenCost(p.lots, usd), LotCost(q') - LotCost(q));
    if IsUs(t.ticker) == usd {
      if t.buy {
        BuyBalances(q, t, up);
      } else {
        SaleBalances(p, t, q, usd);
      }
    }
  }

  lemma BuyBalances(q: seq<F.Lot>, t: Trade, up: real)
    requires Valid(t) && t.buy
    ensures Mul(up, LotCost(F.QueueAfter(q, EventOf(t))) - LotCost(q)) == Mul(up, Mul(t.price, t.qty as real))
  {
  }

  lemma SaleBalances(p: Pair, t: Trade, q: seq<F.Lot>, usd: bool)
    requires Valid(t) && !t.buy && IsUs(t.ticker) == usd
    requires q == F.LotsOf(p.lots, t.ticker) && InStep(p.book, p.lots, t.ticker)
    ensures Gain(p, t) + Excess(p, t)
         == Mul(1.0 + CostRate(usd), LotCost(F.QueueAfter(q, EventOf(t))) - LotCost(q))
            + if t.ticker in p.book.positions then Mul(Mul(1.0 - CostRate(usd), t.price), t.qty as real) else 0.0
  {
    var net, up := Mul(1.0 - CostRate(usd), t.price), 1.0 + CostRate(usd);
    var taken := F.Taken(q, t.qty);
    PricedTotal(q);
    SalePriced(q, t.qty);
    SaleQty(q, t.qty);
    SaleCost(q, t.qty);
    MatchedPnlIs(t, taken);
    assert F.QueueAfter(q, EventOf(t)) == F.Left(q, t.qty);
    assert Gain(p, t) == Mul(net, F.TotalQty(taken) as real) - Mul(up, LotCost(taken));
    hide Gain;
    hide Mul;
    hide LotCost;
    hide F.Taken;
    hide F.Left;
    MulNegative(up, LotCost(taken));
    assert LotCost(F.QueueAfter(q, EventOf(t))) - LotCost(q) == -LotCost(taken);
    if t.ticker in p.book.positions {
      if t.qty > F.TotalQty(q) {
        MulLeft(net, F.TotalQty(q) as real, (t.qty - F.TotalQty(q)) as real);
      }
    } else {
      MulZero(net);
    }
  }

  lemma TradeKeepsInStep(p: Pair, t: Trade, tk: string)
    requires Valid(t) && InStep(p.book, p.lots, tk)
    ensures InStep(After(p, t).book, After(p, t).lots, tk)
  {
    F.QueueOf(p.lots, EventOf(t), tk);
    TradeFillBasics(p.book, t);
    var q := F.LotsOf(p.lots, tk);
    if tk == t.ticker {
      PricedTotal(q);
      hide L.PriceOf;
      if t.buy {
        var l := F.NewLot(EventOf(t));
        LotCostSnoc(q, l);
        assert F.QueueAfter(q, EventOf(t)) == q + [l];
        hide L.Bought;
        BoughtQty(L.PositionOf(p.book, tk), t.qty, t.price, L.CcyOf(FillOf(t)));
      } else {
        SalePriced(q, t.qty);
        SaleQty(q, t.qty);
        PricedTotal(F.Left(q, t.qty));
        hide F.Left;
        hide F.Taken;
        hide F.TotalQty;
      }
    }
  }

  lemma BoughtQty(was: Option<L.Position>, qty: int, px: real, ccy: L.Ccy)
    ensures forall approx :: L.Bought(was, qty, px, ccy, approx).qty == qty + if was.Some? then was.value.qty else 0
  {
  }

  // ----- Runs -----

  /** Flat and with no lots open; the cash may be anything. */
  predicate Flat(p: Pair) {
    p.book.positions == map[] && p.lots == map[]
  }

  predicate AllValid(ts: seq<Trade>) {
    forall i | 0 <= i < |ts| :: Valid(ts[i])
  }

  /** The matched profit of a run in one market. */
  function Gains(p: Pair, ts: seq<Trade>, usd: bool): real {
    if ts == [] then 0.0
    else
      var pre, t := ts[..|ts| - 1], ts[|ts| - 1];
      Gains(p, pre, usd) + if IsUs(t.ticker) == usd then Gain(Run(p, pre), t) else 0.0
  }

  /** The proceeds of oversold shares over a run in one market. */
  function Excesses(p: Pair, ts: seq<Trade>, usd: bool): real {
    if ts == [] then 0.0
    else
      var pre, t := ts[..|ts| - 1], ts[|ts| - 1];
      Excesses(p, pre, usd) + if IsUs(t.ticker) == usd then Excess(Run(p, pre), t) else 0.0
  }

  /** Some sale of the run, in that market, sold more than was held of something held. */
  predicate EverOversells(p: Pair, ts: seq<Trade>, usd: bool) {
    ts != [] &&
      var pre, t := ts[..|ts| - 1], ts[|ts| - 1];
      EverOversells(p, pre, usd) || (IsUs(t.ticker) == usd && Oversells(Run(p, pre), t))
  }

  lemma {:induction false} PairStaysInStep(p: Pair, ts: seq<Trade>, tk: string)
    requires Flat(p) && AllValid(ts)
    ensures InStep(Run(p, ts).book, Run(p, ts).lots, tk)
  {
    if ts != [] {
      PairStaysInStep(p, ts[..|ts| - 1], tk);
      TradeKeepsInStep(Run(p, ts[..|ts| - 1]), ts[|ts| - 1], tk);
    }
  }

  /** Side by side, on the same trades in the same order: the ledger's cash change is the matcher's profit, less the
      open lots at cost plus fees, plus what was received for oversold shares. */
  lemma {:induction false} PairBalances(p: Pair, ts: seq<Trade>, usd: bool)
    requires Flat(p) && AllValid(ts)
    ensures L.CashIn(Run(p, ts).book, usd) - L.CashIn(p.book, usd)
         == Gains(p, ts, usd) - Mul(1.0 + CostRate(usd), OpenCost(Run(p, ts).lots, usd)) + Excesses(p, ts, usd)
  {
    if ts == [] {
      assert OpenCosts(p.lots, usd) == map[];
      MulZero(1.0 + CostRate(usd));
    } else {
      var pre, t := ts[..|ts| - 1], ts[|ts| - 1];
      PairBalances(p, pre, usd);
      PairStaysInStep(p, pre, t.ticker);
      var before := Run(p, pre);
      assert Run(p, ts) == After(before, t);
      TradeBalances(before, t, usd);
      hide Mul;
      hide After;
      hide OpenCost;
      hide Gain;
      hide Excess;
    }
  }

  lemma ExcessSign(p: Pair, t: Trade)
    requires Valid(t)
    ensures Excess(p, t) >= 0.0
    ensures Excess(p, t) > 0.0 <==> Oversells(p, t)
  {
  }

  lemma {:induction false} ExcessesSign(p: Pair, ts: seq<Trade>, usd: bool)
    requires AllValid(ts)
    ensures Excesses(p, ts, usd) >= 0.0
    ensures Excesses(p, ts, usd) > 0.0 <==> EverOversells(p, ts, usd)
  {
    if ts != [] {
      ExcessesSign(p, ts[..|ts| - 1], usd);
      ExcessSign(Run(p, ts[..|ts| - 1]), ts[|ts| - 1]);
      hide Excess;
      hide Oversells;
    }
  }

  // ----- The annotated history -----

  function Stamp(): Trade -> real {
    (t: Trade) => t.ts
  }

  /** The trades by their timestamps, in which they need not have reached the ledger. */
  function InTime(ts: seq<Trade>): seq<Trade> {
    SortBy(ts, Stamp())
  }

  /** The history that is annotated, and the lots it leaves open. */
  function History(ts: seq<Trade>): seq<F.Event> {
    SortBy(EventsOf(ts), F.ByTime())
  }

  function OpenLots(ts: seq<Trade>): F.Lots {
    F.Run(map[], History(ts))
  }

  function DetailGain(d: F.Detail): real {
    if d.SellInfo? then F.TotalPnl(d.sell.matched) else 0.0
  }

  /** The proceeds, after costs, of the shares that a sale's detail leaves unmatched. */
  function DetailUnmatched(e: F.Event, d: F.Detail): real {
    if d.SellInfo? && d.sell.shownSell.Some? then
      Mul(Mul(1.0 - CostRate(IsUs(e.ticker)), d.sell.shownSell.value), d.sell.unmatchedQty as real)
    else 0.0
  }

  function ProfitIn(es: seq<F.Event>, ds: seq<F.Detail>, usd: bool): real
    requires |es| == |ds|
  {
    if es == [] then 0.0
    else
      var n := |es| - 1;
      ProfitIn(es[..n], ds[..n], usd) + if IsUs(es[n].ticker) == usd then DetailGain(ds[n]) else 0.0
  }

  function UnmatchedIn(es: seq<F.Event>, ds: seq<F.Detail>, usd: bool): real
    requires |es| == |ds|
  {
    if es == [] then 0.0
    else
      var n := |es| - 1;
      UnmatchedIn(es[..n], ds[..n], usd) + if IsUs(es[n].ticker) == usd then DetailUnmatched(es[n], ds[n]) else 0.0
  }

  /** The matched profit that the annotated history shows for one market. */
  function MatchedProfit(ts: seq<Trade>, usd: bool): real {
    ProfitIn(History(ts), F.Details(History(ts)), usd)
  }

  /** What it says was received for shares it cannot match. */
  function Unmatched(ts: seq<Trade>, usd: bool): real {
    UnmatchedIn(History(ts), F.Details(History(ts)), usd)
  }

  /** The proceeds of a sale that the ledger refuses, because nothing of the ticker is held. */
  function Refusal(b: L.Book, t: Trade): real {
    if !t.buy && t.ticker !in b.positions then Mul(Mul(1.0 - CostRate(IsUs(t.ticker)), t.price), t.qty as real) else 0.0
  }

  function Refused(p: Pair, ts: seq<Trade>, usd: bool): real {
    if ts == [] then 0.0
    else
      var pre, t := ts[..|ts| - 1], ts[|ts| - 1];
      Refused(p, pre, usd) + if IsUs(t.ticker) == usd then Refusal(Run(p, pre).book, t) else 0.0
  }

  /** The cash a trade is meant to move. */
  function Flow(t: Trade): real {
    var usd := IsUs(t.ticker);
    if t.buy then -Mul(1.0 + CostRate(usd), Mul(t.price, t.qty as real))
    else Mul(Mul(1.0 - CostRate(usd), t.price), t.qty as real)
  }

  function FlowIn(t: Trade, usd: bool): real {
    if IsUs(t.ticker) == usd then Flow(t) else 0.0
  }

  function Flows(ts: seq<Trade>, usd: bool): real {
    if ts == [] then 0.0 else Flows(ts[..|ts| - 1], usd) + FlowIn(ts[|ts| - 1], usd)
  }

  lemma FlowsSnoc(ts: seq<Trade>, t: Trade, usd: bool)
    ensures Flows(ts + [t], usd) == Flows(ts, usd) + FlowIn(t, usd)
  {
    assert (ts + [t])[..|ts|] == ts;
  }

  lemma {:induction false} InsertKeepsFlows(ts: seq<Trade>, t: Trade, usd: bool)
    ensures Flows(Insert(ts, t, Stamp()), usd) == Flows(ts, usd) + FlowIn(t, usd)
  {
    if ts == [] || ts[|ts| - 1].ts <= t.ts {
      FlowsSnoc(ts, t, usd);
    } else {
      InsertKeepsFlows(ts[..|ts| - 1], t, usd);
      FlowsSnoc(Insert(ts[..|ts| - 1], t, Stamp()), ts[|ts| - 1], usd);
    }
  }

  lemma {:induction false} OrderKeepsFlows(ts: seq<Trade>, usd: bool)
    ensures Flows(InTime(ts), usd) == Flows(ts, usd)
  {
    if ts != [] {
      OrderKeepsFlows(ts[..|ts| - 1], usd);
      InsertKeepsFlows(InTime(ts[..|ts| - 1]), ts[|ts| - 1], usd);
    }
  }

  /** In whatever order, the ledger's cash moves by what the trades are meant to move less what it refuses. */
  lemma {:induction false} CashIsFlows(p: Pair, ts: seq<Trade>, usd: bool)
    requires AllValid(ts)
    ensures L.CashIn(Run(p, ts).book, usd) - L.CashIn(p.book, usd) == Flows(ts, usd) - Refused(p, ts, usd)
  {
    if ts == [] {
      NoTrades(p);
    } else {
      var pre, t := ts[..|ts| - 1], ts[|ts| - 1];
      assert ts == pre + [t] && AllValid(pre) && Valid(t);
      hide *;
      CashIsFlows(p, pre, usd);
      RunStep(p, pre, t, usd);
      FlowsSnoc(pre, t, usd);
      TradeIsFlow(Run(p, pre), t, usd);
    }
  }

  lemma TradeIsFlow(p: Pair, t: Trade, usd: bool)
    requires Valid(t)
    ensures L.CashIn(After(p, t).book, usd) - L.CashIn(p.book, usd)
      == FlowIn(t, usd) - if IsUs(t.ticker) == usd then Refusal(p.book, t) else 0.0
  {
    TradeCash(p.book, t, usd);
    hide L.AfterFill;
    hide L.CashIn;
    hide Mul;
    hide CostRate;
  }

  lemma EventsSnoc(ts: seq<Trade>, t: Trade)
    ensures EventsOf(ts + [t]) == EventsOf(ts) + [EventOf(t)]
  {
    assert (ts + [t])[..|ts|] == ts;
  }

  lemma {:induction false} InsertEvents(ts: seq<Trade>, t: Trade)
    ensures Insert(EventsOf(ts), EventOf(t), F.ByTime()) == EventsOf(Insert(ts, t, Stamp()))
  {
    if ts == [] || ts[|ts| - 1].ts <= t.ts {
      EventsSnoc(ts, t);
    } else {
      var pre, last := ts[..|ts| - 1], ts[|ts| - 1];
      InsertEvents(pre, t);
      EventsSnoc(Insert(pre, t, Stamp()), last);
      assert EventsOf(ts)[..|EventsOf(ts)| - 1] == EventsOf(pre);
    }
  }

  /** The history holds the trades in time order. */
  lemma {:induction false} HistoryIsInTime(ts: seq<Trade>)
    ensures History(ts) == EventsOf(InTime(ts))
  {
    if ts != [] {
      HistoryIsInTime(ts[..|ts| - 1]);
      InsertEvents(InTime(ts[..|ts| - 1]), ts[|ts| - 1]);
      assert EventsOf(ts)[..|EventsOf(ts)| - 1] == EventsOf(ts[..|ts| - 1]);
    }
  }

  lemma OrderKeepsValid(ts: seq<Trade>)
    requires AllValid(ts)
    ensures AllValid(InTime(ts))
  {
    SortProperties(ts, Stamp());
    forall i | 0 <= i < |InTime(ts)|
      ensures Valid(InTime(ts)[i])
    {
      assert InTime(ts)[i] in multiset(ts);
    }
  }

  /** What a trade's detail shows is what the matcher gains by it, and the proceeds of all shares not open then. */
  lemma DetailShows(p: Pair, t: Trade)
    requires Valid(t) && InStep(p.book, p.lots, t.ticker)
    ensures var d := F.DetailOf(p.lots, EventOf(t));
      && DetailGain(d) == Gain(p, t)
      && DetailUnmatched(EventOf(t), d) == Excess(p, t) + Refusal(p.book, t)
  {
    if !t.buy {
      var q := F.LotsOf(p.lots, t.ticker);
      PricedTotal(q);
      SaleQty(q, t.qty);
      F.SaleCounts(q, t.qty);
      MulZero(Mul(1.0 - CostRate(IsUs(t.ticker)), t.price));
      hide Mul;
      hide F.Taken;
      hide F.Left;
      hide F.Unserved;
      hide F.Matches;
      hide F.TotalPnl;
    }
  }

  lemma {:induction false} HistoryShows(p: Pair, ts: seq<Trade>, usd: bool)
    requires Flat(p) && AllValid(ts)
    ensures var es := EventsOf(ts);
      && ProfitIn(es, F.Details(es), usd) == Gains(p, ts, usd)
      && UnmatchedIn(es, F.Details(es), usd) == Excesses(p, ts, usd) + Refused(p, ts, usd)
  {
    if ts != [] {
      var pre, t := ts[..|ts| - 1], ts[|ts| - 1];
      assert ts == pre + [t] && AllValid(pre) && Valid(t);
      LotsAreMatchers(p, pre);
      hide *;
      HistoryShows(p, pre, usd);
      PairStaysInStep(p, pre, t.ticker);
      DetailShows(Run(p, pre), t);
      HistoryStep(pre, t, usd);
      RunStep(p, pre, t, usd);
    }
  }

  lemma LotsAreMatchers(p: Pair, ts: seq<Trade>)
    requires Flat(p)
    ensures F.Run(map[], EventsOf(ts)) == Run(p, ts).lots
  {
    RunsSeparately(p, ts);
  }

  lemma RunStep(p: Pair, ts: seq<Trade>, t: Trade, usd: bool)
    ensures var before, ours := Run(p, ts), IsUs(t.ticker) == usd;
      && Run(p, ts + [t]) == After(before, t)
      && Gains(p, ts + [t], usd) == Gains(p, ts, usd) + (if ours then Gain(before, t) else 0.0)
      && Excesses(p, ts + [t], usd) == Excesses(p, ts, usd) + (if ours then Excess(before, t) else 0.0)
      && Refused(p, ts + [t], usd) == Refused(p, ts, usd) + (if ours then Refusal(before.book, t) else 0.0)
      && (EverOversells(p, ts + [t], usd) <==> EverOversells(p, ts, usd) || (ours && Oversells(before, t)))
  {
    hide After;
    hide Gain;
    hide Excess;
    hide Refusal;
    hide Oversells;
    assert (ts + [t])[..|ts|] == ts;
  }

  lemma HistoryStep(ts: seq<Trade>, t: Trade, usd: bool)
    ensures var es, e := EventsOf(ts), EventOf(t); var es' := EventsOf(ts + [t]);
      var d := F.DetailOf(F.Run(map[], es), e);
      && ProfitIn(es', F.Details(es'), usd)
         == ProfitIn(es, F.Details(es), usd) + (if IsUs(t.ticker) == usd then DetailGain(d) else 0.0)
      && UnmatchedIn(es', F.Details(es'), usd)
         == UnmatchedIn(es, F.Details(es), usd) + (if IsUs(t.ticker) == usd then DetailUnmatched(e, d) else 0.0)
  {
    EventsSnoc(ts, t);
    var es, e := EventsOf(ts), EventOf(t);
    assert (es + [e])[..|es|] == es;
    assert F.Details(es + [e])[..|es|] == F.Details(es);
    hide DetailGain;
    hide DetailUnmatched;
    hide F.DetailOf;
  }

  // ----- The two accounts of a run -----

  /** For every sequence of trades in any tickers, with whatever timestamps, starting flat: the ledger's cash change in
      each currency is the matched profit that the annotated history shows, less its open lots at cost plus fees, plus
      the proceeds of the shares it cannot match, less those of the sales that the ledger refused. */
  lemma EnginesAgree(p: Pair, ts: seq<Trade>, usd: bool)
    requires Flat(p) && AllValid(ts)
    ensures L.CashIn(Run(p, ts).book, usd) - L.CashIn(p.book, usd)
         == MatchedProfit(ts, usd) - Mul(1.0 + CostRate(usd), OpenCost(OpenLots(ts), usd))
            + Unmatched(ts, usd) - Refused(p, ts, usd)
  {
    var us := InTime(ts);
    OrderKeepsValid(ts);
    HistoryIsInTime(ts);
    RunsSeparately(p, us);
    assert OpenLots(ts) == Run(p, us).lots;
    assert MatchedProfit(ts, usd) == ProfitIn(EventsOf(us), F.Details(EventsOf(us)), usd);
    assert Unmatched(ts, usd) == UnmatchedIn(EventsOf(us), F.Details(EventsOf(us)), usd);
    hide *;
    HistoryShows(p, us, usd);
    PairBalances(p, us, usd);
    CashIsFlows(p, us, usd);
    CashIsFlows(p, ts, usd);
    OrderKeepsFlows(ts, usd);
  }

  /** The two accounts agree on a run if and only if what the history could not match is what the ledger refused. */
  lemma EnginesAgreeIff(p: Pair, ts: seq<Trade>, usd: bool)
    requires Flat(p) && AllValid(ts)
    ensures L.CashIn(Run(p, ts).book, usd) - L.CashIn(p.book, usd)
         == MatchedProfit(ts, usd) - Mul(1.0 + CostRate(usd), OpenCost(OpenLots(ts), usd))
       <==> Unmatched(ts, usd) == Refused(p, ts, usd)
  {
    hide *;
    EnginesAgree(p, ts, usd);
  }

  /** The trades reached the ledger in the order of their timestamps. */
  ghost predicate InTimeOrder(ts: seq<Trade>) {
    Ascending(ts, Stamp())
  }

  lemma OrderedHistory(p: Pair, ts: seq<Trade>, usd: bool)
    requires Flat(p) && AllValid(ts) && InTimeOrder(ts)
    ensures History(ts) == EventsOf(ts) && OpenLots(ts) == Run(p, ts).lots
    ensures MatchedProfit(ts, usd) == Gains(p, ts, usd)
    ensures Unmatched(ts, usd) == Excesses(p, ts, usd) + Refused(p, ts, usd)
  {
    HistoryIsInTime(ts);
    SortIdentity(ts, Stamp());
    RunsSeparately(p, ts);
    HistoryShows(p, ts, usd);
    hide Run;
    hide F.Run;
    hide F.Details;
    hide ProfitIn;
    hide UnmatchedIn;
  }

  /** Then, for every ticker, the ledger holds what the history leaves open. */
  lemma RunStaysInStep(p: Pair, ts: seq<Trade>, tk: string)
    requires Flat(p) && AllValid(ts) && InTimeOrder(ts)
    ensures InStep(Run(p, ts).book, OpenLots(ts), tk)
  {
    hide *;
    OrderedHistory(p, ts, false);
    PairStaysInStep(p, ts, tk);
  }

  /** Then the two accounts agree exactly when the run never sells more than it holds; otherwise the ledger shows more
      cash. */
  lemma EnginesAgreeIffNeverOversold(p: Pair, ts: seq<Trade>, usd: bool)
    requires Flat(p) && AllValid(ts) && InTimeOrder(ts)
    ensures L.CashIn(Run(p, ts).book, usd) - L.CashIn(p.book, usd)
         >= MatchedProfit(ts, usd) - Mul(1.0 + CostRate(usd), OpenCost(OpenLots(ts), usd))
    ensures L.CashIn(Run(p, ts).book, usd) - L.CashIn(p.book, usd)
         == MatchedProfit(ts, usd) - Mul(1.0 + CostRate(usd), OpenCost(OpenLots(ts), usd))
       <==> !EverOversells(p, ts, usd)
  {
    hide *;
    OrderedHistory(p, ts, usd);
    PairBalances(p, ts, usd);
    ExcessesSign(p, ts, usd);
  }

  lemma {:induction false} NothingOpen(m: map<string, real>)
    requires forall tk | tk in m :: m[tk] == 0.0
    ensures SumMap(m) == 0.0
    decreases |m|
  {
    if m != map[] {
      var k :| k in m;
      SumMapRemove(m, k);
      NothingOpen(m - {k});
    }
  }

  lemma FlatCostsNothing(p: Pair, ts: seq<Trade>, usd: bool)
    requires Flat(p) && AllValid(ts) && Run(p, ts).book.positions == map[]
    ensures OpenCost(Run(p, ts).lots, usd) == 0.0
  {
    var lots := Run(p, ts).lots;
    forall tk | tk in OpenCosts(lots, usd)
      ensures OpenCosts(lots, usd)[tk] == 0.0
    {
      PairStaysInStep(p, ts, tk);
      PricedTotal(lots[tk]);
    }
    NothingOpen(OpenCosts(lots, usd));
  }

  /** And on a run that ends flat without overselling, the profit shown is the cash change to the last unit. */
  lemma FlatToFlat(p: Pair, ts: seq<Trade>, usd: bool)
    requires Flat(p) && AllValid(ts) && InTimeOrder(ts) && !EverOversells(p, ts, usd)
    requires Run(p, ts).book.positions == map[]
    ensures L.CashIn(Run(p, ts).book, usd) - L.CashIn(p.book, usd) == MatchedProfit(ts, usd)
  {
    hide *;
    EnginesAgreeIffNeverOversold(p, ts, usd);
    OrderedHistory(p, ts, usd);
    FlatCostsNothing(p, ts, usd);
    MulZero(1.0 + CostRate(usd));
  }

  const NOTHING: Pair := Pair(L.Book(0.0, 0.0, map[], [], 0), map[])
  const ONE_BOUGHT: Trade := Trade("005930", true, 1, 100.0, 1.0)
  const TWO_SOLD: Trade := Trade("005930", false, 2, 100.0, 2.0)

  lemma OneBought()
    ensures !IsUs("005930")
    ensures var mid := After(NOTHING, ONE_BOUGHT);
      && mid.book.cashKrw == -100.0
      && "005930" in mid.book.positions && mid.book.positions["005930"].qty == 1
      && F.TotalQty(F.LotsOf(mid.lots, "005930")) == 1
  {
    assert IsKrCode("005930");
    assert F.LotsOf(F.After(map[], EventOf(ONE_BOUGHT)), "005930") == [F.Lot(1, 100.0, 1.0, F.Actual)];
    assert [F.Lot(1, 100.0, 1.0, F.Actual)][..0] == [];
  }

  lemma TwoSold(mid: Pair)
    requires mid.book.cashKrw == -100.0 && "005930" in mid.book.positions && !IsUs("005930")
    requires F.TotalQty(F.LotsOf(mid.lots, "005930")) == 1
    ensures After(mid, TWO_SOLD).book.cashKrw == 100.0
    ensures Oversells(mid, TWO_SOLD) && Excess(mid, TWO_SOLD) == 100.0
  {
    hide F.After;
    hide F.TotalQty;
    hide F.LotsOf;
    hide IsKrCode;
  }

  /** One share bought and two sold at the same price: the matcher earns nothing, the ledger a hundred. */
  lemma OversoldRunDisagrees()
    ensures var ts, p := [ONE_BOUGHT, TWO_SOLD], NOTHING;
      && Flat(p) && AllValid(ts) && InTimeOrder(ts) && EverOversells(p, ts, false)
      && L.CashIn(Run(p, ts).book, false) - L.CashIn(p.book, false) == 100.0
      && MatchedProfit(ts, false) - Mul(1.0, OpenCost(OpenLots(ts), false)) == 0.0
  {
    hide *;
    var p, ts := NOTHING, [ONE_BOUGHT, TWO_SOLD];
    SampleRun();
    SampleIsValid();
    OrderedHistory(p, ts, false);
    PairBalances(p, ts, false);
    assert 1.0 + CostRate(false) == 1.0;
  }

  lemma SampleRun()
    ensures var ts, p := [ONE_BOUGHT, TWO_SOLD], NOTHING;
      && EverOversells(p, ts, false) && Excesses(p, ts, false) == 100.0
      && L.CashIn(Run(p, ts).book, false) - L.CashIn(p.book, false) == 100.0
  {
    hide *;
    var p, mid := NOTHING, After(NOTHING, ONE_BOUGHT);
    SampleTickers();
    WonCash(p.book);
    WonCash(After(mid, TWO_SOLD).book);
    OneBought();
    TwoSold(mid);
    BuysNeverExceed(p);
    TwoTrades(p, ONE_BOUGHT, TWO_SOLD);
  }

  lemma SampleTickers()
    ensures ONE_BOUGHT.ticker == "005930" && TWO_SOLD.ticker == "005930" && NOTHING.book.cashKrw == 0.0
  {
  }

  lemma WonCash(b: L.Book)
    ensures L.CashIn(b, false) == b.cashKrw
  {
  }

  lemma SampleIsValid()
    ensures Flat(NOTHING) && AllValid([ONE_BOUGHT, TWO_SOLD]) && InTimeOrder([ONE_BOUGHT, TWO_SOLD])
    ensures CostRate(false) == 0.0
  {
  }

  /** A run of two trades, unfolded. */
  lemma TwoTrades(p: Pair, t: Trade, u: Trade)
    requires !IsUs(t.ticker) && !IsUs(u.ticker)
    ensures Run(p, [t, u]) == After(After(p, t), u)
    ensures Gains(p, [t, u], false) == Gain(p, t) + Gain(After(p, t), u)
    ensures Excesses(p, [t, u], false) == Excess(p, t) + Excess(After(p, t), u)
    ensures Refused(p, [t, u], false) == Refusal(p.book, t) + Refusal(After(p, t).book, u)
    ensures EverOversells(p, [t, u], false) <==> Oversells(p, t) || Oversells(After(p, t), u)
  {
    hide *;
    NoTrades(p);
    RunStep(p, [], t, false);
    RunStep(p, [t], u, false);
    assert [] + [t] == [t] && [t] + [u] == [t, u];
  }

  lemma NoTrades(p: Pair)
    ensures Run(p, []) == p && !EverOversells(p, [], false)
    ensures Gains(p, [], false) == 0.0 && Excesses(p, [], false) == 0.0 && Refused(p, [], false) == 0.0
  {
  }

  lemma BuysNeverExceed(p: Pair)
    ensures Excess(p, ONE_BOUGHT) == 0.0
  {
  }

  const BOUGHT_LATE: Trade := Trade("005930", true, 1, 100.0, 5.0)
  const SOLD_EARLY: Trade := Trade("005930", false, 1, 150.0, 1.0)

  /** A purchase that reached the ledger before its sale but is stamped later: the ledger ends flat with fifty, the
      history matches nothing and leaves the share open. What it cannot match was not refused. */
  lemma LateStampDisagrees()
    ensures var ts, p := [BOUGHT_LATE, SOLD_EARLY], NOTHING;
      && Flat(p) && AllValid(ts) && !EverOversells(p, ts, false) && !InTimeOrder(ts)
      && L.CashIn(Run(p, ts).book, false) - L.CashIn(p.book, false) == 50.0 && Run(p, ts).book.positions == map[]
      && MatchedProfit(ts, false) == 0.0 && OpenCost(OpenLots(ts), false) == 100.0
      && Unmatched(ts, false) == 150.0 && Refused(p, ts, false) == 0.0
  {
    LateStampIsValid();
    hide *;
    var p, ts, us := NOTHING, [BOUGHT_LATE, SOLD_EARLY], [SOLD_EARLY, BOUGHT_LATE];
    LateStampLedger();
    LateStampHistory();
    HistoryIsInTime(ts);
    HistoryShows(p, us, false);
    ShownIs(ts, us, false);
    EnginesAgree(p, ts, false);
    MulOne(OpenCost(OpenLots(ts), false));
    assert 1.0 + CostRate(false) == 1.0;
  }

  lemma ShownIs(ts: seq<Trade>, us: seq<Trade>, usd: bool)
    requires History(ts) == EventsOf(us)
    ensures MatchedProfit(ts, usd) == ProfitIn(EventsOf(us), F.Details(EventsOf(us)), usd)
    ensures Unmatched(ts, usd) == UnmatchedIn(EventsOf(us), F.Details(EventsOf(us)), usd)
  {
  }

  lemma LateStampIsValid()
    ensures Flat(NOTHING) && AllValid([BOUGHT_LATE, SOLD_EARLY]) && AllValid([SOLD_EARLY, BOUGHT_LATE])
    ensures !InTimeOrder([BOUGHT_LATE, SOLD_EARLY]) && CostRate(false) == 0.0
  {
    var ts := [BOUGHT_LATE, SOLD_EARLY];
    assert Stamp()(ts[0]) > Stamp()(ts[1]);
  }

  lemma LateStampLedger()
    ensures var ts, p := [BOUGHT_LATE, SOLD_EARLY], NOTHING;
      && L.CashIn(Run(p, ts).book, false) - L.CashIn(p.book, false) == 50.0 && Run(p, ts).book.positions == map[]
      && !EverOversells(p, ts, false) && Refused(p, ts, false) == 0.0
  {
    assert !IsUs(BOUGHT_LATE.ticker) && !IsUs(SOLD_EARLY.ticker) by {
      OneBought();
    }
    var mid := After(NOTHING, BOUGHT_LATE);
    LateStampBought();
    LateStampSold(mid);
    hide *;
    TwoTrades(NOTHING, BOUGHT_LATE, SOLD_EARLY);
    WonCash(NOTHING.book);
    WonCash(After(mid, SOLD_EARLY).book);
    BuyIsHarmless(NOTHING, BOUGHT_LATE);
  }

  lemma BuyIsHarmless(p: Pair, t: Trade)
    requires t.buy
    ensures !Oversells(p, t) && Excess(p, t) == 0.0 && Refusal(p.book, t) == 0.0 && Gain(p, t) == 0.0
  {
  }

  lemma LateStampBought()
    ensures NOTHING.book.cashKrw == 0.0 && BOUGHT_LATE.buy
    ensures var mid := After(NOTHING, BOUGHT_LATE);
      && mid.book.cashKrw == -100.0 && mid.book.positions.Keys == {"005930"}
      && mid.book.positions["005930"].qty == 1
      && F.TotalQty(F.LotsOf(mid.lots, "005930")) == 1
  {
    OneBought();
    assert F.LotsOf(F.After(map[], EventOf(BOUGHT_LATE)), "005930") == [F.Lot(1, 100.0, 5.0, F.Actual)];
    assert [F.Lot(1, 100.0, 5.0, F.Actual)][..0] == [];
  }

  lemma LateStampSold(mid: Pair)
    requires mid.book.cashKrw == -100.0 && mid.book.positions.Keys == {"005930"}
    requires mid.book.positions["005930"].qty == 1 && F.TotalQty(F.LotsOf(mid.lots, "005930")) == 1
    requires !IsUs("005930")
    ensures After(mid, SOLD_EARLY).book.cashKrw == 50.0 && After(mid, SOLD_EARLY).book.positions == map[]
    ensures !Oversells(mid, SOLD_EARLY) && Refusal(mid.book, SOLD_EARLY) == 0.0
  {
    hide F.After;
    hide F.TotalQty;
    hide F.LotsOf;
    hide IsKrCode;
    assert "005930" in mid.book.positions;
  }

  lemma LateStampHistory()
    ensures InTime([BOUGHT_LATE, SOLD_EARLY]) == [SOLD_EARLY, BOUGHT_LATE]
    ensures var us, p := [SOLD_EARLY, BOUGHT_LATE], NOTHING;
      Gains(p, us, false) == 0.0 && Excesses(p, us, false) == 0.0 && Refused(p, us, false) == 150.0
  {
    hide *;
    LateStampOrder();
    SortTwo(BOUGHT_LATE, SOLD_EARLY);
    EarlySale();
    BuyIsHarmless(After(NOTHING, SOLD_EARLY), BOUGHT_LATE);
    TwoTrades(NOTHING, SOLD_EARLY, BOUGHT_LATE);
  }

  lemma LateStampOrder()
    ensures SOLD_EARLY.ts < BOUGHT_LATE.ts && BOUGHT_LATE.buy
    ensures !IsUs(BOUGHT_LATE.ticker) && !IsUs(SOLD_EARLY.ticker)
  {
    OneBought();
  }

  /** Two trades in the wrong order are exchanged. */
  lemma SortTwo(t: Trade, u: Trade)
    requires u.ts < t.ts
    ensures InTime([t, u]) == [u, t]
  {
    assert InTime([t]) == [t] by {
      SortSnoc([], t);
    }
    assert [] + [t] == [t] && [t] + [u] == [t, u];
    hide *;
    SortSnoc([t], u);
    InsertBefore(t, u);
    assert [u] + [t] == [u, t];
  }

  lemma SortSnoc(ts: seq<Trade>, t: Trade)
    ensures InTime(ts + [t]) == Insert(InTime(ts), t, Stamp())
  {
    assert (ts + [t])[..|ts|] == ts;
    hide Insert;
  }

  lemma InsertBefore(t: Trade, u: Trade)
    requires u.ts < t.ts
    ensures Insert([t], u, Stamp()) == [u] + [t]
  {
    assert [t][..0] == [];
    assert Insert([], u, Stamp()) == [u];
  }

  lemma EarlySale()
    ensures Gain(NOTHING, SOLD_EARLY) == 0.0 && Excess(NOTHING, SOLD_EARLY) == 0.0
    ensures Refusal(NOTHING.book, SOLD_EARLY) == 150.0
  {
    OneBought();
    F.NothingLeftToTake([], 1);
    F.MatchesNone(EventOf(SOLD_EARLY));
  }
}
