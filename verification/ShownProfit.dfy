/** The profit that the annotated history displays (main_swarm.py) when every sale carries the average cost that the
    ledger (infra/trade_ledger.py) had for it, and what that profit is to the ledger's cash. */
module ShownProfit {
  import opened Common
  import opened Sorting
  import opened TwoEngines
  import L = TradeLedger
  import F = FifoMatcher

  // ----- One sale -----

  /** The sale carries a positive average cost. */
  predicate HasCost(e: F.Event) {
    e.avgCost.Some? && e.avgCost.value > 0.0
  }

  /** Proceeds after the selling cost less the shares at that cost with the buying cost. */
  function GainOver(t: Trade, cost: real): real {
    Mul(Mul(1.0 - CostRate(IsUs(t.ticker)), t.price), t.qty as real)
    - Mul(1.0 + CostRate(IsUs(t.ticker)), Mul(cost, t.qty as real))
  }

  /** Whatever lots are open: a sale with a positive average cost displays the gain over that cost. */
  lemma ShownOverCost(lots: F.Lots, t: Trade, cost: real)
    requires Valid(t) && !t.buy && cost > 0.0
    ensures var d := F.DetailOf(lots, EventOf(t).(avgCost := Some(cost)));
      d.SellInfo? && d.sell.totalPnl == Some(GainOver(t, cost))
  {
    NetOf(t, cost);
    hide F.NetRealizedPnl;
    hide F.Matches;
    hide F.Taken;
    hide F.Unserved;
    hide GainOver;
  }

  lemma NetOf(t: Trade, cost: real)
    requires Valid(t) && cost > 0.0
    ensures F.NetRealizedPnl(cost, t.price, t.qty, IsUs(t.ticker)) == Some(GainOver(t, cost))
  {
    MatchPnlIs(t, F.Lot(t.qty, cost, t.ts, F.Actual));
    hide Mul;
  }

  /** Without one it displays the matched profit, and nothing exactly if there is no match either. */
  lemma ShownWithoutCost(lots: F.Lots, e: F.Event)
    requires F.IsSale(e)
    ensures var d := F.DetailOf(lots, e);
      && d.SellInfo?
      && (d.sell.totalPnl == None <==> !HasCost(e) && d.sell.matched == [])
      && (!HasCost(e) && d.sell.matched != [] ==> d.sell.totalPnl == Some(F.TotalPnl(d.sell.matched)))
  {
    hide F.TotalPnl;
    hide F.Matches;
    hide F.Taken;
    hide F.Unserved;
    hide F.NetRealizedPnl;
  }

  // ----- A run with the ledger's costs -----

  /** The trade as logged: a sale of something held carries its average cost. */
  function CostEvent(b: L.Book, t: Trade): F.Event {
    EventOf(t).(avgCost := if !t.buy && t.ticker in b.positions then Some(b.positions[t.ticker].avgCost) else None)
  }

  function CostEvents(p: Pair, ts: seq<Trade>): seq<F.Event> {
    if ts == [] then []
    else CostEvents(p, ts[..|ts| - 1]) + [CostEvent(Run(p, ts[..|ts| - 1]).book, ts[|ts| - 1])]
  }

  function ShownOf(d: F.Detail): real {
    if d.SellInfo? && d.sell.totalPnl.Some? then d.sell.totalPnl.value else 0.0
  }

  function ShownIn(es: seq<F.Event>, ds: seq<F.Detail>, usd: bool): real
    requires |es| == |ds|
  {
    if es == [] then 0.0
    else
      var n := |es| - 1;
      ShownIn(es[..n], ds[..n], usd) + if IsUs(es[n].ticker) == usd then ShownOf(ds[n]) else 0.0
  }

  /** The profit displayed by the annotated history of a run in one market. */
  function Shown(p: Pair, ts: seq<Trade>, usd: bool): real {
    var es := SortBy(CostEvents(p, ts), F.ByTime());
    ShownIn(es, F.Details(es), usd)
  }

  /** The gain of a sale over the ledger's average cost, none for one that the ledger refuses. */
  function CostGain(b: L.Book, t: Trade): real {
    if !t.buy && t.ticker in b.positions then GainOver(t, b.positions[t.ticker].avgCost) else 0.0
  }

  function CostGains(p: Pair, ts: seq<Trade>, usd: bool): real {
    if ts == [] then 0.0
    else
      var pre, t := ts[..|ts| - 1], ts[|ts| - 1];
      CostGains(p, pre, usd) + if IsUs(t.ticker) == usd then CostGain(Run(p, pre).book, t) else 0.0
  }

  predicate NeverRefused(p: Pair, ts: seq<Trade>) {
    ts != [] ==>
      var pre, t := ts[..|ts| - 1], ts[|ts| - 1];
      NeverRefused(p, pre) && (t.buy || t.ticker in Run(p, pre).book.positions)
  }

  // ----- The order of the history does not matter -----

  /** What an event displays if its own average cost decides. */
  function OwnGain(e: F.Event, usd: bool): real {
    if e.side == F.Sell && HasCost(e) && e.fillPrice.Some? && IsUs(e.ticker) == usd then
      GainOver(Trade(e.ticker, false, e.qty, e.fillPrice.value, e.ts), e.avgCost.value)
    else 0.0
  }

  /** A purchase, or a sale that carries its cost. */
  predicate Settled(e: F.Event) {
    && e.filled && e.ticker != [] && e.qty > 0 && e.fillPrice.Some? && e.fillPrice.value > 0.0
    && (e.side == F.Buy || (e.side == F.Sell && HasCost(e)))
    && e.estPrice == None && e.hint == None
  }

  lemma SettledShows(lots: F.Lots, e: F.Event, usd: bool)
    requires Settled(e)
    ensures OwnGain(e, usd) == if IsUs(e.ticker) == usd then ShownOf(F.DetailOf(lots, e)) else 0.0
  {
    if e.side == F.Sell {
      var t := Trade(e.ticker, false, e.qty, e.fillPrice.value, e.ts);
      assert e == EventOf(t).(avgCost := Some(e.avgCost.value));
      ShownOverCost(lots, t, e.avgCost.value);
      hide F.DetailOf;
      hide GainOver;
    }
  }

  lemma {:induction false} HistoryShowsOwn(es: seq<F.Event>, usd: bool)
    requires forall e | e in es :: Settled(e)
    ensures ShownIn(es, F.Details(es), usd) == Total(es, (e: F.Event) => OwnGain(e, usd))
  {
    if es != [] {
      var pre, e := es[..|es| - 1], es[|es| - 1];
      assert e in es;
      HistoryShowsOwn(pre, usd);
      SettledShows(F.Run(map[], pre), e, usd);
      assert F.Details(es)[..|pre|] == F.Details(pre);
      assert F.Details(es)[|pre|] == F.DetailOf(F.Run(map[], pre), e);
      hide F.DetailOf;
      hide F.Run;
      hide OwnGain;
      hide ShownOf;
      hide Settled;
    }
  }

  lemma CostEventIsSettled(b: L.Book, t: Trade, usd: bool)
    requires Valid(t) && L.SoundPositions(b.positions) && (t.buy || t.ticker in b.positions)
    ensures Settled(CostEvent(b, t))
    ensures OwnGain(CostEvent(b, t), usd) == if IsUs(t.ticker) == usd then CostGain(b, t) else 0.0
  {
    hide GainOver;
  }

  lemma RunIsSound(p: Pair, ts: seq<Trade>)
    requires Flat(p)
    ensures L.SoundPositions(Run(p, ts).book.positions)
  {
    RunsSeparately(p, ts);
    L.RunKeepsSound(p.book, FillsOf(ts));
    hide L.Run;
  }

  lemma {:induction false} EventsAreSettled(p: Pair, ts: seq<Trade>, usd: bool)
    requires Flat(p) && AllValid(ts) && NeverRefused(p, ts)
    ensures forall e | e in CostEvents(p, ts) :: Settled(e)
    ensures Total(CostEvents(p, ts), (e: F.Event) => OwnGain(e, usd)) == CostGains(p, ts, usd)
  {
    if ts != [] {
      var pre, t := ts[..|ts| - 1], ts[|ts| - 1];
      EventsAreSettled(p, pre, usd);
      RunIsSound(p, pre);
      var e := CostEvent(Run(p, pre).book, t);
      CostEventIsSettled(Run(p, pre).book, t, usd);
      assert CostEvents(p, ts) == CostEvents(p, pre) + [e];
      TotalSnoc(CostEvents(p, pre), e, (e: F.Event) => OwnGain(e, usd));
      hide CostEvent;
      hide OwnGain;
      hide CostGain;
      hide Settled;
      hide Run;
    }
  }

  /** Where the ledger refuses no sale, the history displays the gains over the ledger's average costs, whatever the
      timestamps and whatever lots they leave open. */
  lemma ShownIsCostGains(p: Pair, ts: seq<Trade>, usd: bool)
    requires Flat(p) && AllValid(ts) && NeverRefused(p, ts)
    ensures Shown(p, ts, usd) == CostGains(p, ts, usd)
  {
    var es := CostEvents(p, ts);
    EventsAreSettled(p, ts, usd);
    SortProperties(es, F.ByTime());
    forall e | e in SortBy(es, F.ByTime())
      ensures Settled(e)
    {
      assert e in multiset(SortBy(es, F.ByTime()));
      assert e in es;
    }
    hide CostEvents;
    hide Settled;
    hide OwnGain;
    HistoryShowsOwn(SortBy(es, F.ByTime()), usd);
    SortTotal(es, F.ByTime(), (e: F.Event) => OwnGain(e, usd));
  }

  // ----- In time order a refused sale displays nothing -----

  lemma {:induction false} CostDoesNotMoveLots(p: Pair, ts: seq<Trade>)
    requires Flat(p)
    ensures F.Run(map[], CostEvents(p, ts)) == Run(p, ts).lots
  {
    if ts != [] {
      var pre, t := ts[..|ts| - 1], ts[|ts| - 1];
      CostDoesNotMoveLots(p, pre);
      var es := CostEvents(p, ts);
      assert es[..|es| - 1] == CostEvents(p, pre);
      SameMove(Run(p, pre).lots, Run(p, pre).book, t);
      hide CostEvent;
      hide F.After;
    }
  }

  lemma SameMove(lots: F.Lots, b: L.Book, t: Trade)
    ensures F.After(lots, CostEvent(b, t)) == F.After(lots, EventOf(t))
  {
    hide F.Left;
  }

  lemma StepShows(p: Pair, t: Trade)
    requires Valid(t) && InStep(p.book, p.lots, t.ticker) && L.SoundPositions(p.book.positions)
    ensures ShownOf(F.DetailOf(p.lots, CostEvent(p.book, t))) == CostGain(p.book, t)
  {
    if !t.buy && t.ticker in p.book.positions {
      ShownOverCost(p.lots, t, p.book.positions[t.ticker].avgCost);
      hide F.DetailOf;
      hide GainOver;
    } else if !t.buy {
      var e := CostEvent(p.book, t);
      ShownWithoutCost(p.lots, e);
      PricedTotal(F.LotsOf(p.lots, t.ticker));
      F.NothingLeftToTake(F.LotsOf(p.lots, t.ticker), t.qty);
      F.MatchesNone(e);
    }
  }

  lemma {:induction false} OrderedShows(p: Pair, ts: seq<Trade>, usd: bool)
    requires Flat(p) && AllValid(ts)
    ensures ShownIn(CostEvents(p, ts), F.Details(CostEvents(p, ts)), usd) == CostGains(p, ts, usd)
  {
    if ts != [] {
      var pre, t := ts[..|ts| - 1], ts[|ts| - 1];
      OrderedShows(p, pre, usd);
      RunIsSound(p, pre);
      PairStaysInStep(p, pre, t.ticker);
      StepShows(Run(p, pre), t);
      CostDoesNotMoveLots(p, pre);
      var es, e := CostEvents(p, pre), CostEvent(Run(p, pre).book, t);
      assert CostEvents(p, ts) == es + [e];
      assert (es + [e])[..|es|] == es;
      assert F.Details(es + [e])[..|es|] == F.Details(es);
      assert e.ticker == t.ticker;
      hide CostEvent;
      hide F.DetailOf;
      hide F.Run;
      hide Run;
      hide CostGain;
      hide ShownOf;
    }
  }

  lemma {:induction false} CostEventsInOrder(p: Pair, ts: seq<Trade>)
    requires InTimeOrder(ts)
    ensures |CostEvents(p, ts)| == |ts| && forall i | 0 <= i < |ts| :: CostEvents(p, ts)[i].ts == ts[i].ts
    ensures SortBy(CostEvents(p, ts), F.ByTime()) == CostEvents(p, ts)
  {
    StampsKept(p, ts);
    assert forall i, j | 0 <= i < j < |ts| :: Stamp()(ts[i]) <= Stamp()(ts[j]);
    SortIdentity(CostEvents(p, ts), F.ByTime());
  }

  lemma {:induction false} StampsKept(p: Pair, ts: seq<Trade>)
    ensures |CostEvents(p, ts)| == |ts| && forall i | 0 <= i < |ts| :: CostEvents(p, ts)[i].ts == ts[i].ts
  {
    if ts != [] {
      StampsKept(p, ts[..|ts| - 1]);
    }
  }

  /** In time order it displays the same, refused sales or not: one that finds nothing held finds nothing to match. */
  lemma OrderedShownIsCostGains(p: Pair, ts: seq<Trade>, usd: bool)
    requires Flat(p) && AllValid(ts) && InTimeOrder(ts)
    ensures Shown(p, ts, usd) == CostGains(p, ts, usd)
  {
    CostEventsInOrder(p, ts);
    OrderedShows(p, ts, usd);
    hide CostEvents;
    hide CostGains;
    hide ShownIn;
  }

  // ----- The ledger's side -----

  /** Every position is in the currency of its ticker. */
  ghost predicate OwnCurrency(b: L.Book) {
    forall tk | tk in b.positions :: (b.positions[tk].ccy == L.USD) == IsUs(tk)
  }

  lemma TradeKeepsCurrency(b: L.Book, t: Trade)
    requires Valid(t) && OwnCurrency(b)
    ensures OwnCurrency(L.AfterFill(b, FillOf(t)))
  {
    TradeFillBasics(b, t);
    hide L.PriceOf;
    hide IsKrCode;
  }

  lemma {:induction false} RunKeepsCurrency(p: Pair, ts: seq<Trade>)
    requires Flat(p) && AllValid(ts)
    ensures OwnCurrency(Run(p, ts).book)
  {
    if ts != [] {
      RunKeepsCurrency(p, ts[..|ts| - 1]);
      TradeKeepsCurrency(Run(p, ts[..|ts| - 1]).book, ts[|ts| - 1]);
      hide L.AfterFill;
      hide OwnCurrency;
    }
  }

  /** The average cost, buying cost included, of the shares sold beyond those held. */
  function Overcharge(b: L.Book, t: Trade): real {
    if !t.buy && t.ticker in b.positions && t.qty > b.positions[t.ticker].qty then
      Mul(1.0 + CostRate(IsUs(t.ticker)),
          Mul(b.positions[t.ticker].avgCost, (t.qty - b.positions[t.ticker].qty) as real))
    else 0.0
  }

  function Overcharges(p: Pair, ts: seq<Trade>, usd: bool): real {
    if ts == [] then 0.0
    else
      var pre, t := ts[..|ts| - 1], ts[|ts| - 1];
      Overcharges(p, pre, usd) + if IsUs(t.ticker) == usd then Overcharge(Run(p, pre).book, t) else 0.0
  }

  /** What the positions of one currency cost. */
  ghost function Invested(b: L.Book, usd: bool): real {
    SumMap(L.Costs(b.positions, usd))
  }

  lemma InvestedAfter(b: L.Book, t: Trade, usd: bool)
    requires Valid(t) && L.SoundPositions(b.positions) && OwnCurrency(b)
    ensures Invested(L.AfterFill(b, FillOf(t)), usd) - Invested(b, usd)
      == if IsUs(t.ticker) != usd then 0.0
         else if t.buy then Mul(t.price, t.qty as real)
         else if t.ticker !in b.positions then 0.0
         else -Mul(b.positions[t.ticker].avgCost,
                   (if t.qty <= b.positions[t.ticker].qty then t.qty else b.positions[t.ticker].qty) as real)
  {
    var f := FillOf(t);
    TradeFillBasics(b, t);
    hide L.PriceOf;
    hide IsKrCode;
    hide Mul;
    if L.Accepted(b, f) {
      if t.buy {
        L.BuyCostChange(b, f, usd);
      } else {
        L.SellCostChange(b, f, usd);
      }
      hide L.AfterFill;
      hide SumMap;
    } else {
      L.RejectedBalances(b, f);
      hide L.AfterFill;
      hide SumMap;
    }
  }

  lemma TradeGain(b: L.Book, t: Trade, usd: bool)
    requires Valid(t) && L.SoundPositions(b.positions) && OwnCurrency(b) && IsUs(t.ticker) == usd
    ensures var after, up := L.AfterFill(b, FillOf(t)), 1.0 + CostRate(usd);
      L.CashIn(after, usd) - L.CashIn(b, usd) + Mul(up, Invested(after, usd) - Invested(b, usd))
      == CostGain(b, t) + Overcharge(b, t)
  {
    var up := 1.0 + CostRate(usd);
    TradeCash(b, t, usd);
    InvestedAfter(b, t, usd);
    hide L.AfterFill;
    hide Invested;
    hide CostRate;
    hide Mul;
    if !t.buy && t.ticker in b.positions {
      var avg, held := b.positions[t.ticker].avgCost, b.positions[t.ticker].qty;
      if t.qty > held {
        MulLeft(avg, t.qty as real, held as real);
        MulLeft(up, Mul(avg, t.qty as real), Mul(avg, held as real));
        assert Mul(avg, (t.qty - held) as real) == Mul(avg, t.qty as real - held as real);
        MulNegative(up, Mul(avg, held as real));
      } else {
        MulNegative(up, Mul(avg, t.qty as real));
      }
    } else {
      MulZero(up);
    }
  }

  lemma OtherMarket(b: L.Book, t: Trade, usd: bool)
    requires Valid(t) && L.SoundPositions(b.positions) && OwnCurrency(b) && IsUs(t.ticker) != usd
    ensures L.CashIn(L.AfterFill(b, FillOf(t)), usd) == L.CashIn(b, usd)
    ensures Invested(L.AfterFill(b, FillOf(t)), usd) == Invested(b, usd)
  {
    TradeCash(b, t, usd);
    InvestedAfter(b, t, usd);
    hide L.AfterFill;
    hide Invested;
  }

  /** For every sequence of trades from flat, per currency: the ledger's cash change plus what is invested now with the
      buying cost is the gains over the average costs, plus the cost of shares sold that were never held. */
  lemma {:induction false} CashAndInvested(p: Pair, ts: seq<Trade>, usd: bool)
    requires Flat(p) && AllValid(ts)
    ensures L.CashIn(Run(p, ts).book, usd) - L.CashIn(p.book, usd)
            + Mul(1.0 + CostRate(usd), Invested(Run(p, ts).book, usd))
         == CostGains(p, ts, usd) + Overcharges(p, ts, usd)
  {
    var up := 1.0 + CostRate(usd);
    if ts == [] {
      assert L.Costs(p.book.positions, usd) == map[];
      MulZero(up);
    } else {
      var pre, t := ts[..|ts| - 1], ts[|ts| - 1];
      CashAndInvested(p, pre, usd);
      RunIsSound(p, pre);
      RunKeepsCurrency(p, pre);
      var b := Run(p, pre).book;
      assert Run(p, ts).book == L.AfterFill(b, FillOf(t));
      MulLeft(up, Invested(Run(p, ts).book, usd), Invested(b, usd));
      assert CostGains(p, ts, usd) == CostGains(p, pre, usd) + if IsUs(t.ticker) == usd then CostGain(b, t) else 0.0;
      assert Overcharges(p, ts, usd)
        == Overcharges(p, pre, usd) + if IsUs(t.ticker) == usd then Overcharge(b, t) else 0.0;
      assert Valid(t);
      hide *;
      if IsUs(t.ticker) == usd {
        TradeGain(b, t, usd);
      } else {
        OtherMarket(b, t, usd);
      }
    }
  }

  predicate EverOversold(p: Pair, ts: seq<Trade>, usd: bool) {
    ts != [] &&
      var pre, t := ts[..|ts| - 1], ts[|ts| - 1];
      EverOversold(p, pre, usd)
      || (IsUs(t.ticker) == usd && !t.buy && t.ticker in Run(p, pre).book.positions
          && t.qty > Run(p, pre).book.positions[t.ticker].qty)
  }

  lemma OverchargeSign(b: L.Book, t: Trade)
    requires Valid(t) && L.SoundPositions(b.positions)
    ensures Overcharge(b, t) >= 0.0
    ensures Overcharge(b, t) > 0.0 <==>
      !t.buy && t.ticker in b.positions && t.qty > b.positions[t.ticker].qty
  {
    if !t.buy && t.ticker in b.positions && t.qty > b.positions[t.ticker].qty {
      var avg, extra := b.positions[t.ticker].avgCost, (t.qty - b.positions[t.ticker].qty) as real;
      MulSign(avg, extra);
      MulSign(1.0 + CostRate(IsUs(t.ticker)), Mul(avg, extra));
      hide Mul;
    }
  }

  lemma {:induction false} OverchargesSign(p: Pair, ts: seq<Trade>, usd: bool)
    requires Flat(p) && AllValid(ts)
    ensures Overcharges(p, ts, usd) >= 0.0
    ensures Overcharges(p, ts, usd) > 0.0 <==> EverOversold(p, ts, usd)
  {
    if ts != [] {
      var pre, t := ts[..|ts| - 1], ts[|ts| - 1];
      OverchargesSign(p, pre, usd);
      RunIsSound(p, pre);
      OverchargeSign(Run(p, pre).book, t);
      hide Overcharge;
      hide Run;
    }
  }

  /** The displayed profit is the ledger's cash change plus what is invested now with the buying cost if and only if the
      run never sells more of something than is held; otherwise it is less. */
  lemma ShownIsCashIffNeverOversold(p: Pair, ts: seq<Trade>, usd: bool)
    requires Flat(p) && AllValid(ts) && (InTimeOrder(ts) || NeverRefused(p, ts))
    ensures var moved := L.CashIn(Run(p, ts).book, usd) - L.CashIn(p.book, usd)
                         + Mul(1.0 + CostRate(usd), Invested(Run(p, ts).book, usd));
      && Shown(p, ts, usd) <= moved
      && (Shown(p, ts, usd) == moved <==> !EverOversold(p, ts, usd))
  {
    hide *;
    if InTimeOrder(ts) {
      OrderedShownIsCostGains(p, ts, usd);
    } else {
      ShownIsCostGains(p, ts, usd);
    }
    CashAndInvested(p, ts, usd);
    OverchargesSign(p, ts, usd);
  }

  // ----- What the ledger earned -----

  lemma {:induction false} RegularIsNotOversold(p: Pair, ts: seq<Trade>, usd: bool)
    requires L.RegularRun(p.book, FillsOf(ts))
    ensures !EverOversold(p, ts, usd)
  {
    if ts != [] {
      var pre, t := ts[..|ts| - 1], ts[|ts| - 1];
      assert FillsOf(ts)[..|FillsOf(ts)| - 1] == FillsOf(pre);
      RegularIsNotOversold(p, pre, usd);
      RunsSeparately(p, pre);
      hide Run;
      hide L.Run;
    }
  }

  /** On a regular run the displayed profit is what the ledger realized less all its fees, plus the buying cost of what
      is still held, which the display charges only when it is sold. */
  lemma ShownIsEarned(p: Pair, ts: seq<Trade>, usd: bool)
    requires Flat(p) && AllValid(ts) && (InTimeOrder(ts) || NeverRefused(p, ts))
    requires L.RegularRun(p.book, FillsOf(ts))
    ensures Shown(p, ts, usd)
      == L.Earned(p.book, FillsOf(ts), usd) + Mul(CostRate(usd), Invested(Run(p, ts).book, usd))
  {
    assert L.Costs(p.book.positions, usd) == map[];
    assert L.Net(p.book, usd) == L.CashIn(p.book, usd);
    RunsSeparately(p, ts);
    assert L.Net(Run(p, ts).book, usd) == L.CashIn(Run(p, ts).book, usd) + Invested(Run(p, ts).book, usd);
    RegularIsNotOversold(p, ts, usd);
    assert L.SoundPositions(p.book.positions);
    hide *;
    ShownIsCashIffNeverOversold(p, ts, usd);
    L.LedgerIdentity(p.book, FillsOf(ts), usd);
    MulRight(1.0, CostRate(usd), Invested(Run(p, ts).book, usd));
    MulOne(Invested(Run(p, ts).book, usd));
  }

  /** Ten shares with an average cost of 100, sold at 110: a gain of a hundred. */
  lemma HundredIsGained(lots: F.Lots)
    ensures var e := EventOf(Trade("005930", false, 10, 110.0, 1.0)).(avgCost := Some(100.0));
      F.DetailOf(lots, e).SellInfo? && F.DetailOf(lots, e).sell.totalPnl == Some(100.0)
  {
    var t := Trade("005930", false, 10, 110.0, 1.0);
    ShownOverCost(lots, t, 100.0);
    assert !IsUs(t.ticker) by {
      OneBought();
    }
    assert GainOver(t, 100.0) == 100.0;
    hide F.DetailOf;
  }
}
