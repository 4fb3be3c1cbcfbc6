/** What the simulator's trading rules mean in prices (backtest/engine.py): which holdings a day sells and keeps, and
    what it may buy. */
module BacktestRules {
  import opened Common
  import opened Backtest
  import opened Drawdown

  // ----- The two limits -----

  /** Strictly above the loss limit and strictly below the profit limit. */
  predicate Inside(p: Params, px: Price, avg: Price) {
    Mul(avg, 1.0 - p.stopLoss / 100.0) < px < Mul(avg, 1.0 + p.takeProfit / 100.0)
  }

  lemma GainAtLeast(px: Price, avg: Price, pct: real)
    ensures GainPct(px, avg) >= pct <==> px >= Mul(avg, 1.0 + pct / 100.0)
    ensures GainPct(px, avg) <= pct <==> px <= Mul(avg, 1.0 + pct / 100.0)
  {
    var r := px / avg;
    assert r * avg == px;
    var s := 1.0 + pct / 100.0;
    assert GainPct(px, avg) >= pct <==> r >= s;
    assert GainPct(px, avg) <= pct <==> r <= s;
    FactorOrder(avg, r, s);
  }

  lemma FactorOrder(a: real, r: real, s: real)
    requires a > 0.0
    ensures r >= s <==> r * a >= Mul(a, s)
    ensures r <= s <==> r * a <= Mul(a, s)
  {
  }

  lemma ExitsIffOutside(p: Params, px: Price, avg: Price)
    ensures Exits(p, px, avg) <==> !Inside(p, px, avg)
  {
    GainAtLeast(px, avg, p.takeProfit);
    GainAtLeast(px, avg, -p.stopLoss);
    assert 1.0 + (-p.stopLoss) / 100.0 == 1.0 - p.stopLoss / 100.0;
    hide GainPct;
    hide Mul;
  }

  // ----- What a day's exits leave -----

  /** The day has no price for the holding, or one inside the limits. */
  predicate Stays(m: Market, p: Params, day: int, h: Holding) {
    PriceOn(m, h.code, day).Some? ==> Inside(p, PriceOn(m, h.code, day).value, h.avg)
  }

  function Staying(m: Market, p: Params, day: int, hs: seq<Holding>): seq<Holding> {
    if hs == [] then []
    else
      var n := |hs| - 1;
      Staying(m, p, day, hs[..n]) + if Stays(m, p, day, hs[n]) then [hs[n]] else []
  }

  /** What the others are sold for. */
  function Proceeds(m: Market, p: Params, day: int, hs: seq<Holding>): real {
    if hs == [] then 0.0
    else
      var n := |hs| - 1;
      Proceeds(m, p, day, hs[..n])
      + if Stays(m, p, day, hs[n]) then 0.0 else Mul(hs[n].qty as real, PriceOn(m, hs[n].code, day).value)
  }

  /** How many of them are sold above their cost. */
  function Winners(m: Market, p: Params, day: int, hs: seq<Holding>): nat {
    if hs == [] then 0
    else
      var n := |hs| - 1;
      Winners(m, p, day, hs[..n])
      + if !Stays(m, p, day, hs[n]) && PriceOn(m, hs[n].code, day).value > hs[n].avg then 1 else 0
  }

  lemma OneExit(m: Market, p: Params, day: int, a: Account, h: Holding)
    ensures var b := ExitOne(m, p, day, a, h);
      if Stays(m, p, day, h) then b == a.(holdings := a.holdings + [h])
      else
        var px := PriceOn(m, h.code, day).value;
        b == Account(a.cash + Mul(h.qty as real, px), a.holdings, a.trades + 1, a.wins + if px > h.avg then 1 else 0)
  {
    var px := PriceOn(m, h.code, day);
    hide PriceOn;
    if px.Some? {
      ExitsIffOutside(p, px.value, h.avg);
      WinIsGain(px.value, h.avg);
    }
    hide Exits;
    hide GainPct;
    hide Inside;
  }

  /** A day's exits keep exactly the holdings that have no price or one inside the limits, in their order, and turn each
      of the others into its value at the day's price and a trade, won if above its cost. */
  lemma {:induction false} ExitsInPrices(m: Market, p: Params, day: int, a: Account, hs: seq<Holding>)
    ensures var b := ExitAll(m, p, day, a, hs);
      && b.holdings == Staying(m, p, day, hs)
      && b.cash == a.cash + Proceeds(m, p, day, hs)
      && b.trades == a.trades + |hs| - |Staying(m, p, day, hs)|
      && b.wins == a.wins + Winners(m, p, day, hs)
  {
    if hs != [] {
      var n := |hs| - 1;
      ExitsInPrices(m, p, day, a, hs[..n]);
      OneExit(m, p, day, ExitAll(m, p, day, a, hs[..n]), hs[n]);
      hide ExitOne;
      hide Stays;
      hide PriceOn;
      hide Mul;
    }
  }

  lemma {:induction false} StayingIs(m: Market, p: Params, day: int, hs: seq<Holding>, h: Holding)
    ensures h in Staying(m, p, day, hs) <==> h in hs && Stays(m, p, day, h)
  {
    if hs != [] {
      var n := |hs| - 1;
      StayingIs(m, p, day, hs[..n], h);
      assert hs == hs[..n] + [hs[n]];
      hide Stays;
    }
  }

  /** A holding of the day before is gone after the exits exactly if its price that day is at or outside a limit. */
  lemma GoneIffOutside(m: Market, p: Params, day: int, a: Account, h: Holding)
    requires h in a.holdings
    ensures h !in ExitAll(m, p, day, a, a.holdings).holdings <==>
      PriceOn(m, h.code, day).Some? && !Inside(p, PriceOn(m, h.code, day).value, h.avg)
  {
    ExitsInPrices(m, p, day, a, a.holdings);
    StayingIs(m, p, day, a.holdings, h);
    hide ExitAll;
    hide Staying;
    hide PriceOn;
    hide Inside;
  }

  lemma ValueSnoc(m: Market, day: int, hs: seq<Holding>, h: Holding)
    ensures PricedValue(m, day, hs + [h])
      == PricedValue(m, day, hs)
         + match PriceOn(m, h.code, day) case None => 0.0 case Some(px) => Mul(h.qty as real, px)
  {
    assert (hs + [h])[..|hs|] == hs;
  }

  lemma {:induction false} StayingAndSold(m: Market, p: Params, day: int, hs: seq<Holding>)
    ensures PricedValue(m, day, Staying(m, p, day, hs)) + Proceeds(m, p, day, hs) == PricedValue(m, day, hs)
  {
    if hs != [] {
      var n := |hs| - 1;
      StayingAndSold(m, p, day, hs[..n]);
      ValueSnoc(m, day, Staying(m, p, day, hs[..n]), hs[n]);
      assert Staying(m, p, day, hs[..n]) + [] == Staying(m, p, day, hs[..n]);
      hide Mul;
      hide PriceOn;
      hide Inside;
    }
  }

  /** The day's value on the curve is the cash and the priced holdings of the evening before at the day's prices:
      what is sold changes into as much money. */
  lemma CurveIsWorth(m: Market, p: Params, day: int, a: Account)
    ensures DayEval(m, p, day, a) == a.cash + PricedValue(m, day, a.holdings)
  {
    ExitsInPrices(m, p, day, a, a.holdings);
    StayingAndSold(m, p, day, a.holdings);
    hide ExitAll;
    hide Staying;
    hide Proceeds;
    hide PricedValue;
  }

  // ----- The end of a day -----

  /** No code has two series. */
  predicate DistinctSeries(m: Market) {
    forall i, j | 0 <= i < j < |m| :: m[i].code != m[j].code
  }

  lemma {:induction false} PriceOfSeries(m: Market, i: nat, day: int)
    requires DistinctSeries(m) && i < |m|
    ensures PriceOn(m, m[i].code, day) == CloseOn(m[i].rows, day)
  {
    var n := |m| - 1;
    if i < n {
      PriceOfSeries(m[..n], i, day);
      hide CloseOn;
    }
  }

  /** Every holding with a price that day is inside the limits. */
  ghost predicate AllInside(m: Market, p: Params, day: int, hs: seq<Holding>) {
    forall h | h in hs :: Stays(m, p, day, h)
  }

  lemma BoughtIsInside(p: Params, px: Price)
    requires p.takeProfit > 0.0 && p.stopLoss > 0.0
    ensures Inside(p, px, px)
  {
    MulLeft(px, 1.0, p.stopLoss / 100.0);
    MulLeft(px, 1.0, p.takeProfit / 100.0);
    MulOne(px);
    MulSign(px, p.stopLoss / 100.0);
    MulSign(px, p.takeProfit / 100.0);
    hide Mul;
  }

  lemma {:induction false} EntriesInside(m: Market, k: nat, p: Params, lookback: nat, day: int, total: real, a: Account)
    requires p.takeProfit > 0.0 && p.stopLoss > 0.0 && lookback > 0
    requires DistinctSeries(m) && k <= |m| && AllInside(m, p, day, a.holdings)
    ensures AllInside(m, p, day, EnterAll(m[..k], p, lookback, day, total, a).account.holdings)
  {
    if k > 0 {
      EntriesInside(m, k - 1, p, lookback, day, total, a);
      assert m[..k][..k - 1] == m[..k - 1];
      PriceOfSeries(m, k - 1, day);
      var s := EnterAll(m[..k - 1], p, lookback, day, total, a);
      OneEntry(p, lookback, day, total, s, m[k - 1]);
      var px := CloseOn(m[k - 1].rows, day);
      if px.Some? {
        BoughtIsInside(p, px.value);
      }
      hide EnterOne;
      hide PriceOn;
      hide CloseOn;
      hide Inside;
    }
  }

  lemma OneEntry(p: Params, lookback: nat, day: int, total: real, s: Spending, series: Series)
    requires lookback > 0
    ensures var hs, hs' := s.account.holdings, EnterOne(p, lookback, day, total, s, series).account.holdings;
      var px := CloseOn(series.rows, day);
      hs' == hs || (px.Some? && exists qty :: hs' == hs + [Holding(series.code, qty, px.value)])
  {
    hide EntryQty;
    hide CloseOn;
  }

  /** At the end of any day of any run with positive limits, no holding with a price that day is at or past a limit. */
  lemma EndOfDayIsInside(m: Market, p: Params, lookback: nat, start: Price, dates: seq<int>)
    requires p.takeProfit > 0.0 && p.stopLoss > 0.0 && lookback > 0 && DistinctSeries(m) && dates != []
    ensures AllInside(m, p, dates[|dates| - 1], Simulate(m, p, lookback, start, dates).account.holdings)
  {
    var n := |dates| - 1;
    var a, day := Simulate(m, p, lookback, start, dates[..n]).account, dates[n];
    var exited := ExitAll(m, p, day, a, a.holdings);
    var total := TotalEval(m, day, exited);
    ExitsInPrices(m, p, day, a, a.holdings);
    forall h | h in exited.holdings
      ensures Stays(m, p, day, h)
    {
      StayingIs(m, p, day, a.holdings, h);
    }
    EntriesInside(m, |m|, p, lookback, day, total, exited);
    assert m[..|m|] == m;
    assert Simulate(m, p, lookback, start, dates).account == DayEnd(m, p, lookback, start, day, a);
    hide ExitAll;
    hide EnterAll;
    hide TotalEval;
    hide Stays;
  }

  // ----- What the signal is -----

  /** All of the closes from a up to but excluding b are at most (or at least) c. */
  predicate NoneAbove(rows: seq<Row>, a: int, b: int, c: real) {
    0 <= a <= b <= |rows| && forall k | a <= k < b :: rows[k].close <= c
  }

  predicate NoneBelow(rows: seq<Row>, a: int, b: int, c: real) {
    0 <= a <= b <= |rows| && forall k | a <= k < b :: rows[k].close >= c
  }

  lemma {:induction false} SumBounds(rows: seq<Row>, lo: real, hi: real)
    requires forall k | 0 <= k < |rows| :: lo <= rows[k].close <= hi
    ensures Mul(|rows| as real, lo) <= SumCloses(rows) <= Mul(|rows| as real, hi)
  {
    if rows == [] {
      MulZero(lo);
      MulZero(hi);
    } else {
      var n := |rows| - 1;
      SumBounds(rows[..n], lo, hi);
      MulCount(n, lo);
      MulCount(n, hi);
      hide Mul;
    }
  }

  lemma {:induction false} SumAtMost(rows: seq<Row>, hi: real)
    requires forall k | 0 <= k < |rows| :: rows[k].close <= hi
    ensures SumCloses(rows) <= Mul(|rows| as real, hi)
  {
    if rows == [] {
      MulZero(hi);
    } else {
      var n := |rows| - 1;
      SumAtMost(rows[..n], hi);
      MulCount(n, hi);
      hide Mul;
    }
  }

  lemma {:induction false} SumAtLeast(rows: seq<Row>, lo: real)
    requires forall k | 0 <= k < |rows| :: rows[k].close >= lo
    ensures SumCloses(rows) >= Mul(|rows| as real, lo)
  {
    if rows == [] {
      MulZero(lo);
    } else {
      var n := |rows| - 1;
      SumAtLeast(rows[..n], lo);
      MulCount(n, lo);
      hide Mul;
    }
  }

  lemma MeanAtMost(sum: real, n: real, c: real)
    requires n > 0.0
    ensures sum <= Mul(n, c) ==> sum / n <= c
    ensures sum >= Mul(n, c) ==> sum / n >= c
  {
  }

  /** The average of the closes from a up to but excluding b lies within their bounds. */
  lemma WindowMean(rows: seq<Row>, a: int, b: int, c: real)
    requires 0 <= a < b <= |rows|
    ensures NoneAbove(rows, a, b, c) ==> SumCloses(rows[a..b]) / (b - a) as real <= c
    ensures NoneBelow(rows, a, b, c) ==> SumCloses(rows[a..b]) / (b - a) as real >= c
  {
    var w := rows[a..b];
    if NoneAbove(rows, a, b, c) {
      SumAtMost(w, c);
    }
    if NoneBelow(rows, a, b, c) {
      SumAtLeast(w, c);
    }
    hide SumCloses;
    hide NoneAbove;
    hide NoneBelow;
    MeanAtMost(SumCloses(w), (b - a) as real, c);
  }

  /** No signal while history is short, when the close is at or below every close of the window before it, or when the
      close before was already above the whole window before that. */
  lemma NoSignal(rows: seq<Row>, i: nat, lookback: nat)
    requires i < |rows| && lookback > 0
    requires i < lookback
      || NoneBelow(rows, i - lookback, i, rows[i].close)
      || (i > lookback && rows[i - 1].close > MaxClose(rows, i - lookback - 1, i - 1))
    ensures !SmaBreakout(rows, i, lookback)
  {
    if i >= lookback {
      if NoneBelow(rows, i - lookback, i, rows[i].close) {
        WindowMean(rows, i - lookback, i, rows[i].close);
      } else {
        MaxIs(rows, i - lookback - 1, i - 1);
        WindowMean(rows, i - lookback - 1, i - 1, MaxClose(rows, i - lookback - 1, i - 1));
      }
      hide SumCloses;
      hide NoneAbove;
      hide NoneBelow;
      hide MaxClose;
    }
  }

  function MaxClose(rows: seq<Row>, a: int, b: int): real
    requires 0 <= a < b <= |rows|
    decreases b
  {
    if b == a + 1 then rows[a].close else Max(MaxClose(rows, a, b - 1), rows[b - 1].close)
  }

  lemma {:induction false} MaxIs(rows: seq<Row>, a: int, b: int)
    requires 0 <= a < b <= |rows|
    ensures NoneAbove(rows, a, b, MaxClose(rows, a, b))
    decreases b
  {
    if b > a + 1 {
      MaxIs(rows, a, b - 1);
    }
  }

  /** A signal when the close is above every close of the window before it and the close before was at or below every
      close of the window before that. */
  lemma SureSignal(rows: seq<Row>, i: nat, lookback: nat)
    requires lookback < i < |rows| && lookback > 0
    requires rows[i].close > MaxClose(rows, i - lookback, i)
    requires NoneBelow(rows, i - lookback - 1, i - 1, rows[i - 1].close)
    ensures SmaBreakout(rows, i, lookback)
  {
    MaxIs(rows, i - lookback, i);
    WindowMean(rows, i - lookback, i, MaxClose(rows, i - lookback, i));
    WindowMean(rows, i - lookback - 1, i - 1, rows[i - 1].close);
    hide SumCloses;
    hide NoneAbove;
    hide NoneBelow;
    hide MaxClose;
  }

  // ----- What is bought -----

  /** The whole number of shares that a budget buys. */
  predicate IsShares(budget: real, px: Price, q: int) {
    Mul(q as real, px) <= budget < Mul((q + 1) as real, px)
  }

  lemma SharesAre(budget: real, px: Price, q: int)
    ensures q == WholeShares(budget, px) <==> IsShares(budget, px, q)
  {
    var r := budget / px;
    assert r * px == budget;
    FactorOrder(px, r, q as real);
    FactorOrder(px, r, (q + 1) as real);
    MulCommutes(px, q as real);
    MulCommutes(px, (q + 1) as real);
    hide Mul;
    if q as real <= r && r < (q + 1) as real {
      assert r.Floor == q;
    }
  }

  /** A series is bought exactly when it has a price and a fresh signal and is not held, its order budget buys at least
      one share, and the cost leaves the cash buffer, the stock limit and the day's budget; then with the whole order
      budget, at the day's price. */
  lemma EntryRule(p: Params, lookback: nat, day: int, total: real, s: Spending, series: Series, k: nat, q: int)
    requires lookback > 0 && IndexOf(series.rows, day) == Some(k)
    requires IsShares(Mul(s.account.cash, p.perOrder), series.rows[k].close, q)
    ensures var px := series.rows[k].close; var cost := Mul(q as real, px);
      var buys := && !(exists h | h in s.account.holdings :: h.code == series.code)
                  && SmaBreakout(series.rows, k, lookback) && q >= 1
                  && Mul(cost, p.minBuffer) <= s.account.cash
                  && cost <= Mul(total, p.stockRatio)
                  && s.spent + cost <= Mul(s.account.cash, p.maxCycle);
      var after := EnterOne(p, lookback, day, total, s, series);
      if buys then
        && after.spent == s.spent + cost && after.account.cash == s.account.cash - cost
        && after.account.holdings == s.account.holdings + [Holding(series.code, q, px)]
        && after.account.trades == s.account.trades + 1
      else after == s
  {
    SharesAre(Mul(s.account.cash, p.perOrder), series.rows[k].close, q);
    hide IsShares;
    hide WholeShares;
    hide SmaBreakout;
    hide IndexOf;
    hide Mul;
  }

  lemma NoPriceNoEntry(p: Params, lookback: nat, day: int, total: real, s: Spending, series: Series)
    requires lookback > 0 && IndexOf(series.rows, day) == None
    ensures EnterOne(p, lookback, day, total, s, series) == s
  {
    hide IndexOf;
  }

  /** Nothing is bought on a day on which the account is worth no more than the brake leaves of the starting capital. */
  lemma BrakeStopsEntries(m: Market, p: Params, lookback: nat, start: Price, day: int, a: Account)
    requires lookback > 0
    ensures var exited := ExitAll(m, p, day, a, a.holdings); var total := TotalEval(m, day, exited);
      DayEnd(m, p, lookback, start, day, a)
        == if total <= Mul(start, 1.0 - Abs(p.mdd)) then exited
           else EnterAll(m, p, lookback, day, total, exited).account
  {
    var exited := ExitAll(m, p, day, a, a.holdings);
    var total := TotalEval(m, day, exited);
    hide ExitAll;
    hide TotalEval;
    hide EnterAll;
    GainAtLeast(1.0, 1.0, 0.0);
    BrakeInMoney(start, total, Abs(p.mdd));
    hide Abs;
  }

  lemma BrakeInMoney(start: Price, total: real, limit: real)
    ensures total / start - 1.0 <= -limit <==> total <= Mul(start, 1.0 - limit)
  {
    var r := total / start;
    assert r * start == total;
    FactorOrder(start, r, 1.0 - limit);
  }

  // ----- The report -----

  /** The return is the final value over the capital; the win rate counts purchases and sales alike, so it never exceeds
      one half, and reaches it only if everything was sold at a gain. */
  lemma ReportFigures(m: Market, p: Params, lookback: nat, start: Price)
    requires Solvent(p) && lookback > 0
    ensures var s := Simulate(m, p, lookback, start, AllDates(m)); var r := ReportOf(s, start);
      && Mul(start, 1.0 + r.totalReturnPct / 100.0) == r.finalEval
      && r.finalEval == (if s.curve == [] then start else s.curve[|s.curve| - 1])
      && r.trades == s.account.trades
      && 0.0 <= r.winRatePct <= 50.0
      && (s.account.trades == 0 ==> r.winRatePct == 0.0)
      && (r.winRatePct == 50.0 <==>
            s.account.trades > 0 && s.account.holdings == [] && 2 * s.account.wins == s.account.trades)
  {
    var s := Simulate(m, p, lookback, start, AllDates(m));
    var sales := SalesOver(m, p, lookback, start, AllDates(m));
    BooksBalance(m, p, lookback, start, AllDates(m));
    assert s.account.trades == 2 * sales.count + |s.account.holdings| && s.account.wins <= sales.count;
    hide Simulate;
    hide SalesOver;
    hide Balanced;
    hide MaxDrawdown;
    ReturnIs(ReportOf(s, start).finalEval, start);
    if s.account.trades > 0 {
      RateAtMostHalf(s.account.wins, s.account.trades);
    }
    hide Mul;
  }

  lemma ReturnIs(final: real, start: Price)
    ensures Mul(start, 1.0 + (final / start - 1.0) * 100.0 / 100.0) == final
  {
  }

  lemma RateAtMostHalf(wins: nat, trades: nat)
    requires trades > 0 && 2 * wins <= trades
    ensures 0.0 <= wins as real / trades as real * 100.0 <= 50.0
    ensures wins as real / trades as real * 100.0 == 50.0 <==> 2 * wins == trades
  {
    var r := wins as real / trades as real;
    assert r * trades as real == wins as real;
    assert 2.0 * wins as real <= trades as real;
  }
}
