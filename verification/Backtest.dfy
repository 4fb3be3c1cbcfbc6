/** The deterministic backtest (backtest/engine.py): exits and entries day by day on past closes. */
module Backtest {
  import opened Common
  import opened Drawdown

  datatype Row = Row(date: int, close: Price)

  /** The price history of one code. */
  datatype Series = Series(code: string, rows: seq<Row>)

  /** The price dictionary, in its own order. */
  type Market = seq<Series>

  datatype Params = Params(
    perOrder: real,
    stockRatio: real,
    maxCycle: real,
    minBuffer: real,
    mdd: real,
    takeProfit: real,
    stopLoss: real)

  datatype Holding = Holding(code: string, qty: int, avg: Price)

  datatype Account = Account(cash: real, holdings: seq<Holding>, trades: nat, wins: nat)

  // ----- Prices -----

  /** The index of a day's row; of the last one if the date repeats. */
  function IndexOf(rows: seq<Row>, day: int): (r: Option<nat>)
    ensures r.Some? ==> r.value < |rows|
  {
    if rows == [] then None
    else if rows[|rows| - 1].date == day then Some(|rows| - 1)
    else IndexOf(rows[..|rows| - 1], day)
  }

  function CloseOn(rows: seq<Row>, day: int): Option<Price> {
    match IndexOf(rows, day)
    case None => None
    case Some(k) => Some(rows[k].close)
  }

  function PriceOn(m: Market, code: string, day: int): Option<Price> {
    if m == [] then None
    else if m[|m| - 1].code == code then CloseOn(m[|m| - 1].rows, day)
    else PriceOn(m[..|m| - 1], code, day)
  }

  // ----- Signal -----

  function SumCloses(rows: seq<Row>): real {
    if rows == [] then 0.0 else SumCloses(rows[..|rows| - 1]) + rows[|rows| - 1].close
  }

  /** A fresh upward break through the simple moving average. */
  predicate SmaBreakout(rows: seq<Row>, i: nat, lookback: nat)
    requires i < |rows| && lookback > 0
  {
    if i < lookback then false
    else
      var sma := SumCloses(rows[i - lookback..i]) / lookback as real;
      var prev := if i > lookback then SumCloses(rows[i - lookback - 1..i - 1]) / lookback as real else sma;
      rows[i - 1].close <= prev && rows[i].close > sma
  }

  // ----- Exits -----

  function GainPct(px: Price, avg: Price): real {
    (px / avg - 1.0) * 100.0
  }

  predicate Exits(p: Params, px: Price, avg: Price) {
    GainPct(px, avg) >= p.takeProfit || GainPct(px, avg) <= -p.stopLoss
  }

  /** One holding under the exit rules: sold at the day's close, or kept. */
  function ExitOne(m: Market, p: Params, day: int, a: Account, h: Holding): Account {
    match PriceOn(m, h.code, day)
    case None => a.(holdings := a.holdings + [h])
    case Some(px) =>
      if Exits(p, px, h.avg) then
        Account(a.cash + Mul(h.qty as real, px), a.holdings, a.trades + 1, a.wins +
          if GainPct(px, h.avg) > 0.0 then 1 else 0)
      else a.(holdings := a.holdings + [h])
  }

  function ExitAll(m: Market, p: Params, day: int, a: Account, hs: seq<Holding>): Account {
    if hs == [] then a.(holdings := [])
    else ExitOne(m, p, day, ExitAll(m, p, day, a, hs[..|hs| - 1]), hs[|hs| - 1])
  }

  /** The value of the holdings that have a price on the day. */
  function PricedValue(m: Market, day: int, hs: seq<Holding>): real {
    if hs == [] then 0.0
    else
      var h := hs[|hs| - 1];
      PricedValue(m, day, hs[..|hs| - 1])
      + match PriceOn(m, h.code, day) case None => 0.0 case Some(px) => Mul(h.qty as real, px)
  }

  function TotalEval(m: Market, day: int, a: Account): real {
    a.cash + PricedValue(m, day, a.holdings)
  }

  // ----- Entries -----

  predicate Holds(hs: seq<Holding>, code: string) {
    exists i | 0 <= i < |hs| :: hs[i].code == code
  }

  /** The account and what the day's entries have cost so far. */
  datatype Spending = Spending(account: Account, spent: real)

  function WholeShares(budget: real, px: Price): int {
    (budget / px).Floor
  }

  /** The limits an entry must respect, given the shares it would buy. */
  predicate WithinLimits(p: Params, s: Spending, total: real, notional: real) {
    && Mul(notional, p.minBuffer) <= s.account.cash
    && notional <= Mul(total, p.stockRatio)
    && s.spent + notional <= Mul(s.account.cash, p.maxCycle)
  }

  /** The shares bought of one series on a day, 0 if none. */
  function EntryQty(p: Params, lookback: nat, day: int, total: real, s: Spending, series: Series): int
    requires lookback > 0
  {
    var k := IndexOf(series.rows, day);
    if k.None? || Holds(s.account.holdings, series.code) || !SmaBreakout(series.rows, k.value, lookback) then 0
    else
      var px := series.rows[k.value].close;
      var qty := WholeShares(Mul(s.account.cash, p.perOrder), px);
      if qty > 0 && WithinLimits(p, s, total, Mul(qty as real, px)) then qty else 0
  }

  function Buy(s: Spending, code: string, qty: int, px: Price): Spending {
    var cost := Mul(qty as real, px);
    Spending(Account(s.account.cash - cost, s.account.holdings + [Holding(code, qty, px)],
      s.account.trades + 1, s.account.wins),
             s.spent + cost)
  }

  function EnterOne(p: Params, lookback: nat, day: int, total: real, s: Spending, series: Series): Spending
    requires lookback > 0
  {
    var qty := EntryQty(p, lookback, day, total, s, series);
    var px := CloseOn(series.rows, day);
    if qty > 0 && px.Some? then Buy(s, series.code, qty, px.value) else s
  }

  function EnterAll(m: Market, p: Params, lookback: nat, day: int, total: real, a: Account): Spending
    requires lookback > 0
  {
    if m == [] then Spending(a, 0.0)
    else EnterOne(p, lookback, day, total, EnterAll(m[..|m| - 1], p, lookback, day, total, a), m[|m| - 1])
  }

  // ----- Days -----

  /** The account-level brake: no entries once the loss on the starting capital reaches the limit. */
  predicate Braked(p: Params, start: Price, total: real) {
    total / start - 1.0 <= -Abs(p.mdd)
  }

  /** Exits, valuation and entries of one day. */
  function DayEval(m: Market, p: Params, day: int, a: Account): real {
    TotalEval(m, day, ExitAll(m, p, day, a, a.holdings))
  }

  function DayEnd(m: Market, p: Params, lookback: nat, start: Price, day: int, a: Account): Account
    requires lookback > 0
  {
    var exited := ExitAll(m, p, day, a, a.holdings);
    var total := TotalEval(m, day, exited);
    if Braked(p, start, total) then exited else EnterAll(m, p, lookback, day, total, exited).account
  }

  /** The account after some days and the equity curve so far. */
  datatype Simulation = Simulation(account: Account, curve: seq<real>)

  function AfterDay(m: Market, p: Params, lookback: nat, start: Price, day: int, s: Simulation): Simulation
    requires lookback > 0
  {
    Simulation(DayEnd(m, p, lookback, start, day, s.account), s.curve + [DayEval(m, p, day, s.account)])
  }

  function Simulate(m: Market, p: Params, lookback: nat, start: Price, dates: seq<int>): Simulation
    requires lookback > 0
  {
    if dates == [] then Simulation(Account(start, [], 0, 0), [])
    else
      AfterDay(m, p, lookback, start, dates[|dates| - 1], Simulate(m, p, lookback, start, dates[..|dates| - 1]))
  }

  // ----- The date axis -----

  /** Inserts a date into an ascending list without repetition. */
  function InsertDate(ds: seq<int>, d: int): seq<int> {
    if ds == [] || ds[|ds| - 1] < d then ds + [d]
    else if ds[|ds| - 1] == d then ds
    else InsertDate(ds[..|ds| - 1], d) + [ds[|ds| - 1]]
  }

  function InsertRows(ds: seq<int>, rows: seq<Row>): seq<int> {
    if rows == [] then ds else InsertDate(InsertRows(ds, rows[..|rows| - 1]), rows[|rows| - 1].date)
  }

  /** All dates of all series, ascending, each once. */
  function AllDates(m: Market): seq<int> {
    if m == [] then [] else InsertRows(AllDates(m[..|m| - 1]), m[|m| - 1].rows)
  }

  // ----- The program -----

  method RunBacktest(m: Market, p: Params, start: Price, lookback: nat) returns (s: Simulation, report: Report)
    requires lookback > 0
    ensures s == Simulate(m, p, lookback, start, AllDates(m))
    ensures report == ReportOf(s, start)
  {
    var dates := AllDates(m);
    s := Simulation(Account(start, [], 0, 0), []);
    for i := 0 to |dates|
      invariant s == Simulate(m, p, lookback, start, dates[..i])
    {
      NextDay(m, p, lookback, start, dates, i);
      s := RunDay(m, p, lookback, start, dates[i], s);
    }
    assert dates[..|dates|] == dates;
    report := Metrics(s, start);
  }

  method RunDay(m: Market, p: Params, lookback: nat, start: Price, day: int, before: Simulation) returns (s: Simulation)
    requires lookback > 0
    ensures s == AfterDay(m, p, lookback, start, day, before)
  {
    var a := ExitPass(m, p, day, before.account);
    var total := TotalEval(m, day, a);
    if !Braked(p, start, total) {
      a := EntryPass(m, p, lookback, day, total, a);
    }
    s := Simulation(a, before.curve + [total]);
  }

  lemma NextDay(m: Market, p: Params, lookback: nat, start: Price, dates: seq<int>, i: nat)
    requires lookback > 0 && i < |dates|
    ensures Simulate(m, p, lookback, start, dates[..i + 1])
         == AfterDay(m, p, lookback, start, dates[i], Simulate(m, p, lookback, start, dates[..i]))
  {
    assert dates[..i + 1][..i] == dates[..i];
  }

  datatype Report = Report(totalReturnPct: real, maxDrawdownPct: real, trades: nat, winRatePct: real, finalEval: real)

  function ReportOf(s: Simulation, start: Price): Report {
    var final := if s.curve != [] then s.curve[|s.curve| - 1] else start;
    Report((final / start - 1.0) * 100.0, MaxDrawdown(s.curve) * 100.0, s.account.trades,
           if s.account.trades > 0 then s.account.wins as real / s.account.trades as real * 100.0 else 0.0, final)
  }

  method Metrics(s: Simulation, start: Price) returns (report: Report)
    ensures report == ReportOf(s, start)
  {
    var final := if s.curve != [] then s.curve[|s.curve| - 1] else start;
    var mdd := RunningDrawdown(s.curve);
    report := Report((final / start - 1.0) * 100.0, mdd * 100.0, s.account.trades,
                     if s.account.trades > 0 then s.account.wins as real / s.account.trades as real * 100.0
                       else 0.0, final);
  }

  /** The loop over the holdings: sells what has reached its profit or loss limit. */
  method ExitPass(m: Market, p: Params, day: int, before: Account) returns (a: Account)
    ensures a == ExitAll(m, p, day, before, before.holdings)
  {
    var cash, kept, trades, wins := before.cash, [], before.trades, before.wins;
    for i := 0 to |before.holdings|
      invariant Account(cash, kept, trades, wins) == ExitAll(m, p, day, before, before.holdings[..i])
    {
      assert before.holdings[..i + 1][..i] == before.holdings[..i];
      var h := before.holdings[i];
      var px := PriceOn(m, h.code, day);
      if px.None? {
        kept := kept + [h];
        continue;
      }
      var pnlPct := (px.value / h.avg - 1.0) * 100.0;
      if pnlPct >= p.takeProfit || pnlPct <= -p.stopLoss {
        cash := cash + Mul(h.qty as real, px.value);
        trades := trades + 1;
        wins := wins + if pnlPct > 0.0 then 1 else 0;
      } else {
        kept := kept + [h];
      }
    }
    assert before.holdings[..|before.holdings|] == before.holdings;
    a := Account(cash, kept, trades, wins);
  }

  /** The loop over the codes: buys every fresh signal that fits the limits. */
  method EntryPass(m: Market, p: Params, lookback: nat, day: int, total: real, before: Account) returns (a: Account)
    requires lookback > 0
    ensures a == EnterAll(m, p, lookback, day, total, before).account
  {
    var s := Spending(before, 0.0);
    for i := 0 to |m|
      invariant s == EnterAll(m[..i], p, lookback, day, total, before)
    {
      assert m[..i + 1][..i] == m[..i];
      s := TryEntry(m[i], p, lookback, day, total, s);
    }
    assert m[..|m|] == m;
    a := s.account;
  }

  method TryEntry(series: Series, p: Params, lookback: nat, day: int, total: real, before: Spending)
    returns (s: Spending)
    requires lookback > 0
    ensures s == EnterOne(p, lookback, day, total, before, series)
  {
    s := before;
    var k := IndexOf(series.rows, day);
    if k.None? || Holds(s.account.holdings, series.code) {
      return;
    }
    if !SmaBreakout(series.rows, k.value, lookback) {
      return;
    }
    var px := series.rows[k.value].close;
    var budget := Mul(s.account.cash, p.perOrder);
    var qty := (budget / px).Floor;
    if qty <= 0 {
      return;
    }
    var notional := Mul(qty as real, px);
    if Mul(notional, p.minBuffer) > s.account.cash || notional > Mul(total, p.stockRatio)
       || s.spent + notional > Mul(s.account.cash, p.maxCycle) {
      return;
    }
    s := Buy(s, series.code, qty, px);
  }

  // ----- No look-ahead -----

  /** Rows in date order, as the loader sorts them. */
  predicate Chronological(rows: seq<Row>) {
    forall i, j | 0 <= i < j < |rows| :: rows[i].date <= rows[j].date
  }

  predicate Sorted(m: Market) {
    forall i | 0 <= i < |m| :: Chronological(m[i].rows)
  }

  /** The part of a history that was known on day d. */
  function RowsUpTo(rows: seq<Row>, d: int): seq<Row> {
    if rows == [] then []
    else RowsUpTo(rows[..|rows| - 1], d) + if rows[|rows| - 1].date <= d then [rows[|rows| - 1]] else []
  }

  function SeriesUpTo(s: Series, d: int): Series {
    Series(s.code, RowsUpTo(s.rows, d))
  }

  function MarketUpTo(m: Market, d: int): Market {
    if m == [] then [] else MarketUpTo(m[..|m| - 1], d) + [SeriesUpTo(m[|m| - 1], d)]
  }

  lemma {:induction false} RowsUpToIsPrefix(rows: seq<Row>, d: int)
    requires Chronological(rows)
    ensures RowsUpTo(rows, d) <= rows
    ensures forall i | |RowsUpTo(rows, d)| <= i < |rows| :: rows[i].date > d
  {
    if rows != [] {
      var n := |rows| - 1;
      RowsUpToIsPrefix(rows[..n], d);
      RowUpTo(rows[..n], rows[n], d);
      assert rows == rows[..n] + [rows[n]];
      hide RowsUpTo;
    }
  }

  lemma RowUpTo(rows: seq<Row>, r: Row, d: int)
    requires Chronological(rows + [r])
    requires RowsUpTo(rows, d) <= rows && forall i | |RowsUpTo(rows, d)| <= i < |rows| :: rows[i].date > d
    ensures RowsUpTo(rows + [r], d) <= rows + [r]
    ensures forall i | |RowsUpTo(rows + [r], d)| <= i < |rows| + 1 :: (rows + [r])[i].date > d
  {
    assert (rows + [r])[..|rows|] == rows;
    var kept := RowsUpTo(rows, d);
    assert |kept| < |rows| ==>
      d < rows[|kept|].date == (rows + [r])[|kept|].date <= (rows + [r])[|rows|].date == r.date;
    assert r.date <= d ==> kept == rows;
    hide RowsUpTo;
  }

  lemma {:induction false} IndexUpTo(rows: seq<Row>, n: nat, day: int)
    requires n <= |rows|
    requires forall i | n <= i < |rows| :: rows[i].date != day
    ensures IndexOf(rows[..n], day) == IndexOf(rows, day)
    decreases |rows|
  {
    if n == |rows| {
      assert rows[..n] == rows;
    } else {
      var k := |rows| - 1;
      assert rows[..k][..n] == rows[..n];
      assert forall i | n <= i < k :: rows[..k][i] == rows[i];
      IndexUpTo(rows[..k], n, day);
    }
  }

  lemma SignalUpTo(rows: seq<Row>, n: nat, i: nat, lookback: nat)
    requires i < n <= |rows| && lookback > 0
    ensures SmaBreakout(rows[..n], i, lookback) == SmaBreakout(rows, i, lookback)
  {
    if i >= lookback {
      assert rows[..n][i - lookback..i] == rows[i - lookback..i];
      if i > lookback {
        assert rows[..n][i - lookback - 1..i - 1] == rows[i - lookback - 1..i - 1];
      }
    }
  }

  /** On a day up to d a truncated history has the same row index, close and signal. */
  lemma SeriesAgree(rows: seq<Row>, d: int, day: int)
    requires Chronological(rows) && day <= d
    ensures IndexOf(RowsUpTo(rows, d), day) == IndexOf(rows, day)
    ensures CloseOn(RowsUpTo(rows, d), day) == CloseOn(rows, day)
  {
    RowsUpToIsPrefix(rows, d);
    var n := |RowsUpTo(rows, d)|;
    assert RowsUpTo(rows, d) == rows[..n];
    IndexUpTo(rows, n, day);
  }

  lemma {:induction false} PricesAgree(m: Market, d: int, day: int, code: string)
    requires Sorted(m) && day <= d
    ensures PriceOn(MarketUpTo(m, d), code, day) == PriceOn(m, code, day)
  {
    if m != [] {
      var n := |m| - 1;
      PricesAgree(m[..n], d, day, code);
      SeriesAgree(m[n].rows, d, day);
      assert MarketUpTo(m, d)[..|MarketUpTo(m, d)| - 1] == MarketUpTo(m[..n], d);
      hide CloseOn;
    }
  }

  lemma {:induction false} ExitsAgree(m: Market, p: Params, d: int, day: int, a: Account, hs: seq<Holding>)
    requires Sorted(m) && day <= d
    ensures ExitAll(MarketUpTo(m, d), p, day, a, hs) == ExitAll(m, p, day, a, hs)
  {
    if hs != [] {
      ExitsAgree(m, p, d, day, a, hs[..|hs| - 1]);
      PricesAgree(m, d, day, hs[|hs| - 1].code);
      hide PriceOn;
      hide Exits;
    }
  }

  lemma {:induction false} ValuesAgree(m: Market, d: int, day: int, hs: seq<Holding>)
    requires Sorted(m) && day <= d
    ensures PricedValue(MarketUpTo(m, d), day, hs) == PricedValue(m, day, hs)
  {
    if hs != [] {
      ValuesAgree(m, d, day, hs[..|hs| - 1]);
      PricesAgree(m, d, day, hs[|hs| - 1].code);
      hide PriceOn;
    }
  }

  lemma EntryAgrees(p: Params, lookback: nat, d: int, day: int, total: real, s: Spending, series: Series)
    requires Chronological(series.rows) && day <= d && lookback > 0
    ensures EnterOne(p, lookback, day, total, s, SeriesUpTo(series, d)) == EnterOne(p, lookback, day, total, s, series)
  {
    SeriesAgree(series.rows, d, day);
    RowsUpToIsPrefix(series.rows, d);
    var n := |RowsUpTo(series.rows, d)|;
    assert RowsUpTo(series.rows, d) == series.rows[..n];
    var k := IndexOf(series.rows, day);
    if k.Some? {
      SignalUpTo(series.rows, n, k.value, lookback);
    }
    hide IndexOf;
    hide SmaBreakout;
    hide WithinLimits;
  }

  lemma {:induction false} EntriesAgree(m: Market, p: Params, lookback: nat, d: int, day: int, total: real, a: Account)
    requires Sorted(m) && day <= d && lookback > 0
    ensures EnterAll(MarketUpTo(m, d), p, lookback, day, total, a) == EnterAll(m, p, lookback, day, total, a)
  {
    if m != [] {
      var n := |m| - 1;
      EntriesAgree(m[..n], p, lookback, d, day, total, a);
      EntryAgrees(p, lookback, d, day, total, EnterAll(m[..n], p, lookback, day, total, a), m[n]);
      assert MarketUpTo(m, d)[..|MarketUpTo(m, d)| - 1] == MarketUpTo(m[..n], d);
      hide EnterOne;
    }
  }

  lemma DayAgrees(m: Market, p: Params, lookback: nat, start: Price, d: int, day: int, s: Simulation)
    requires Sorted(m) && day <= d && lookback > 0
    ensures AfterDay(MarketUpTo(m, d), p, lookback, start, day, s) == AfterDay(m, p, lookback, start, day, s)
  {
    var exited := ExitAll(m, p, day, s.account, s.account.holdings);
    ExitsAgree(m, p, d, day, s.account, s.account.holdings);
    ValuesAgree(m, d, day, exited.holdings);
    var total := TotalEval(m, day, exited);
    assert TotalEval(MarketUpTo(m, d), day, exited) == total;
    EntriesAgree(m, p, lookback, d, day, total, exited);
    hide ExitAll;
    hide EnterAll;
    hide TotalEval;
    hide Braked;
    hide MarketUpTo;
  }

  lemma {:induction false} DaysAgree(m: Market, p: Params, lookback: nat, start: Price, d: int, dates: seq<int>)
    requires Sorted(m) && lookback > 0
    requires forall i | 0 <= i < |dates| :: dates[i] <= d
    ensures Simulate(MarketUpTo(m, d), p, lookback, start, dates) == Simulate(m, p, lookback, start, dates)
  {
    if dates != [] {
      var n := |dates| - 1;
      DaysAgree(m, p, lookback, start, d, dates[..n]);
      DayAgrees(m, p, lookback, start, d, dates[n], Simulate(m, p, lookback, start, dates[..n]));
      hide AfterDay;
    }
  }

  /** The dates up to d. */
  function DatesUpTo(ds: seq<int>, d: int): seq<int> {
    if ds == [] then []
    else DatesUpTo(ds[..|ds| - 1], d) + if ds[|ds| - 1] <= d then [ds[|ds| - 1]] else []
  }

  predicate Ascending(ds: seq<int>) {
    forall i, j | 0 <= i < j < |ds| :: ds[i] < ds[j]
  }

  lemma {:induction false} InsertAscends(ds: seq<int>, d: int, bound: int)
    requires Ascending(ds)
    requires d < bound && forall i | 0 <= i < |ds| :: ds[i] < bound
    ensures Ascending(InsertDate(ds, d))
    ensures forall i | 0 <= i < |InsertDate(ds, d)| :: InsertDate(ds, d)[i] < bound
  {
    if ds == [] || ds[|ds| - 1] <= d {
    } else {
      InsertAscends(ds[..|ds| - 1], d, ds[|ds| - 1]);
    }
  }

  lemma AscendingBound(ds: seq<int>, d: int) returns (bound: int)
    requires Ascending(ds)
    ensures d < bound && forall i | 0 <= i < |ds| :: ds[i] < bound
  {
    bound := if ds == [] || ds[|ds| - 1] < d then d + 1 else ds[|ds| - 1] + 1;
  }

  lemma {:induction false} InsertRowsAscends(ds: seq<int>, rows: seq<Row>)
    requires Ascending(ds)
    ensures Ascending(InsertRows(ds, rows))
  {
    if rows != [] {
      var n := |rows| - 1;
      InsertRowsAscends(ds, rows[..n]);
      var bound := AscendingBound(InsertRows(ds, rows[..n]), rows[n].date);
      InsertAscends(InsertRows(ds, rows[..n]), rows[n].date, bound);
    }
  }

  lemma {:induction false} AllDatesAscend(m: Market)
    ensures Ascending(AllDates(m))
  {
    if m != [] {
      AllDatesAscend(m[..|m| - 1]);
      InsertRowsAscends(AllDates(m[..|m| - 1]), m[|m| - 1].rows);
    }
  }

  lemma DatesUpToSnoc(ds: seq<int>, x: int, d: int)
    ensures DatesUpTo(ds + [x], d) == DatesUpTo(ds, d) + if x <= d then [x] else []
  {
    assert (ds + [x])[..|ds|] == ds;
  }

  lemma {:induction false} DatesUpToPrefix(ds: seq<int>, d: int)
    requires Ascending(ds)
    ensures DatesUpTo(ds, d) <= ds
    ensures forall i | 0 <= i < |DatesUpTo(ds, d)| :: DatesUpTo(ds, d)[i] <= d
    ensures forall i | |DatesUpTo(ds, d)| <= i < |ds| :: ds[i] > d
  {
    if ds != [] {
      var n := |ds| - 1;
      DatesUpToPrefix(ds[..n], d);
      DateUpTo(ds[..n], ds[n], d);
      assert ds == ds[..n] + [ds[n]];
      hide DatesUpTo;
    }
  }

  lemma DateUpTo(ds: seq<int>, x: int, d: int)
    requires Ascending(ds + [x]) && DatesUpTo(ds, d) <= ds
    requires forall i | 0 <= i < |DatesUpTo(ds, d)| :: DatesUpTo(ds, d)[i] <= d
    requires forall i | |DatesUpTo(ds, d)| <= i < |ds| :: ds[i] > d
    ensures DatesUpTo(ds + [x], d) <= ds + [x]
    ensures forall i | 0 <= i < |DatesUpTo(ds + [x], d)| :: DatesUpTo(ds + [x], d)[i] <= d
    ensures forall i | |DatesUpTo(ds + [x], d)| <= i < |ds| + 1 :: (ds + [x])[i] > d
  {
    hide DatesUpTo;
    DatesUpToSnoc(ds, x, d);
    AllBeforeIfLast(ds, x, |DatesUpTo(ds, d)|, d);
    hide Ascending;
  }

  lemma AllBeforeIfLast(ds: seq<int>, x: int, k: nat, d: int)
    requires Ascending(ds + [x]) && k <= |ds| && forall i | k <= i < |ds| :: ds[i] > d
    ensures x <= d ==> k == |ds|
  {
    if k < |ds| {
      assert (ds + [x])[k] == ds[k] && (ds + [x])[|ds|] == x;
    }
  }

  /** Truncating after inserting is inserting, if at all, after truncating. */
  lemma {:induction false} InsertUpTo(ds: seq<int>, x: int, d: int)
    requires Ascending(ds)
    ensures DatesUpTo(InsertDate(ds, x), d) == if x <= d then InsertDate(DatesUpTo(ds, d), x) else DatesUpTo(ds, d)
  {
    if ds == [] || ds[|ds| - 1] < x {
      InsertNewest(ds, x, d);
    } else if ds[|ds| - 1] == x {
      InsertKnown(ds, d);
    } else {
      var pre, last := ds[..|ds| - 1], ds[|ds| - 1];
      InsertUpTo(pre, x, d);
      assert InsertDate(ds, x) == InsertDate(pre, x) + [last];
      assert ds == pre + [last];
      hide *;
      DatesUpToSnoc(InsertDate(pre, x), last, d);
      DatesUpToSnoc(pre, last, d);
      InsertBefore(DatesUpTo(pre, d), last, x);
      NoDates(DatesUpTo(pre, d));
      NoDates(InsertDate(DatesUpTo(pre, d), x));
    }
  }

  lemma InsertNewest(ds: seq<int>, x: int, d: int)
    requires Ascending(ds) && (ds == [] || ds[|ds| - 1] < x)
    ensures DatesUpTo(ds + [x], d) == if x <= d then InsertDate(DatesUpTo(ds, d), x) else DatesUpTo(ds, d)
  {
  }

  lemma InsertKnown(ds: seq<int>, d: int)
    requires Ascending(ds) && ds != []
    ensures var x := ds[|ds| - 1];
            DatesUpTo(ds, d) == if x <= d then InsertDate(DatesUpTo(ds, d), x) else DatesUpTo(ds, d)
  {
  }

  lemma InsertBefore(ds: seq<int>, last: int, x: int)
    requires x < last
    ensures InsertDate(ds + [last], x) == InsertDate(ds, x) + [last]
  {
    assert (ds + [last])[..|ds|] == ds;
  }

  lemma NoDates(ds: seq<int>)
    ensures ds + [] == ds
  {
  }

  lemma {:induction false} InsertRowsUpTo(ds: seq<int>, rows: seq<Row>, d: int)
    requires Ascending(ds)
    ensures DatesUpTo(InsertRows(ds, rows), d) == InsertRows(DatesUpTo(ds, d), RowsUpTo(rows, d))
  {
    if rows != [] {
      var n := |rows| - 1;
      InsertRowsUpTo(ds, rows[..n], d);
      InsertRowsAscends(ds, rows[..n]);
      InsertUpTo(InsertRows(ds, rows[..n]), rows[n].date, d);
      RowsStep(DatesUpTo(ds, d), RowsUpTo(rows[..n], d), rows[n], d);
      hide InsertDate;
    }
  }

  lemma RowsStep(ds: seq<int>, rows: seq<Row>, r: Row, d: int)
    ensures InsertRows(ds, rows + if r.date <= d then [r] else [])
         == if r.date <= d then InsertDate(InsertRows(ds, rows), r.date) else InsertRows(ds, rows)
  {
    assert (rows + [r])[..|rows|] == rows;
    assert rows + [] == rows;
  }

  lemma {:induction false} AllDatesUpTo(m: Market, d: int)
    ensures AllDates(MarketUpTo(m, d)) == DatesUpTo(AllDates(m), d)
  {
    if m != [] {
      var n := |m| - 1;
      AllDatesUpTo(m[..n], d);
      AllDatesAscend(m[..n]);
      InsertRowsUpTo(AllDates(m[..n]), m[n].rows, d);
      assert MarketUpTo(m, d)[..|MarketUpTo(m, d)| - 1] == MarketUpTo(m[..n], d);
      hide InsertRows;
    }
  }

  /** A backtest never looks ahead: running it on what was known up to day d gives the equity curve, the cash and
      the holdings that the full run had at the end of day d. */
  lemma NoLookAhead(m: Market, p: Params, lookback: nat, start: Price, d: int)
    requires Sorted(m) && lookback > 0
    ensures DatesUpTo(AllDates(m), d) <= AllDates(m)
    ensures Simulate(MarketUpTo(m, d), p, lookback, start, AllDates(MarketUpTo(m, d)))
         == Simulate(m, p, lookback, start, DatesUpTo(AllDates(m), d))
    ensures Simulate(MarketUpTo(m, d), p, lookback, start, AllDates(MarketUpTo(m, d))).curve
         <= Simulate(m, p, lookback, start, AllDates(m)).curve
  {
    AllDatesUpTo(m, d);
    AllDatesAscend(m);
    DatesUpToPrefix(AllDates(m), d);
    DaysAgree(m, p, lookback, start, d, DatesUpTo(AllDates(m), d));
    CurveGrows(m, p, lookback, start, AllDates(m), |DatesUpTo(AllDates(m), d)|);
    assert AllDates(m)[..|DatesUpTo(AllDates(m), d)|] == DatesUpTo(AllDates(m), d);
  }

  lemma {:induction false} CurveGrows(m: Market, p: Params, lookback: nat, start: Price, dates: seq<int>, n: nat)
    requires n <= |dates| && lookback > 0
    ensures Simulate(m, p, lookback, start, dates[..n]).curve <= Simulate(m, p, lookback, start, dates).curve
    decreases |dates|
  {
    if n == |dates| {
      assert dates[..n] == dates;
    } else {
      var k := |dates| - 1;
      CurveGrows(m, p, lookback, start, dates[..k], n);
      assert dates[..k][..n] == dates[..n];
      hide DayEnd;
      hide DayEval;
    }
  }

  // ----- Accounting -----

  /** What the holdings cost. */
  function CostOf(hs: seq<Holding>): real {
    if hs == [] then 0.0 else CostOf(hs[..|hs| - 1]) + Mul(hs[|hs| - 1].qty as real, hs[|hs| - 1].avg)
  }

  lemma CostSnoc(hs: seq<Holding>, h: Holding)
    ensures CostOf(hs + [h]) == CostOf(hs) + Mul(h.qty as real, h.avg)
  {
    assert (hs + [h])[..|hs|] == hs;
  }

  /** The holdings sold on a day: how many, how many at a gain, and the gain over their cost. */
  datatype Sales = Sales(count: nat, wins: nat, gain: real)

  function SaleOf(m: Market, p: Params, day: int, h: Holding): Sales {
    match PriceOn(m, h.code, day)
    case None => Sales(0, 0, 0.0)
    case Some(px) =>
      if Exits(p, px, h.avg) then Sales(1, if px > h.avg then 1 else 0, Mul(h.qty as real, px - h.avg))
        else Sales(0, 0, 0.0)
  }

  function Add(x: Sales, y: Sales): Sales {
    Sales(x.count + y.count, x.wins + y.wins, x.gain + y.gain)
  }

  function SalesOn(m: Market, p: Params, day: int, hs: seq<Holding>): Sales {
    if hs == [] then Sales(0, 0, 0.0) else Add(SalesOn(m, p, day, hs[..|hs| - 1]), SaleOf(m, p, day, hs[|hs| - 1]))
  }

  /** All sales of a run. */
  function SalesOver(m: Market, p: Params, lookback: nat, start: Price, dates: seq<int>): Sales
    requires lookback > 0
  {
    if dates == [] then Sales(0, 0, 0.0)
    else
      var n := |dates| - 1;
      Add(SalesOver(m, p, lookback, start, dates[..n]),
          SalesOn(m, p, dates[n], Simulate(m, p, lookback, start, dates[..n]).account.holdings))
  }

  predicate LongOnly(hs: seq<Holding>) {
    forall i | 0 <= i < |hs| :: hs[i].qty >= 1
  }

  lemma WinIsGain(px: Price, avg: Price)
    ensures GainPct(px, avg) > 0.0 <==> px > avg
  {
    var r := px / avg;
    assert r * avg == px;
    if r > 1.0 {
      assert r * avg > 1.0 * avg;
    } else {
      assert r * avg <= 1.0 * avg;
    }
  }

  /** The exit pass: cash plus cost moves by the gains, every exit is one trade less one holding. */
  ghost predicate ExitsBalance(before: Account, hs: seq<Holding>, after: Account, sales: Sales) {
    && after.cash + CostOf(after.holdings) == before.cash + CostOf(hs) + sales.gain
    && after.cash >= before.cash
    && after.trades == before.trades + sales.count
    && after.wins == before.wins + sales.wins
    && |after.holdings| + sales.count == |hs|
    && sales.wins <= sales.count
    && LongOnly(after.holdings)
  }

  lemma ExitOneBalances(m: Market, p: Params, day: int, a: Account, hs: seq<Holding>, mid: Account,
                        sales: Sales, h: Holding)
    requires ExitsBalance(a, hs, mid, sales) && h.qty >= 1
    ensures ExitsBalance(a, hs + [h], ExitOne(m, p, day, mid, h), Add(sales, SaleOf(m, p, day, h)))
  {
    CostSnoc(hs, h);
    CostSnoc(mid.holdings, h);
    var px := PriceOn(m, h.code, day);
    hide PriceOn;
    hide CostOf;
    if px.Some? {
      WinIsGain(px.value, h.avg);
      MulSign(h.qty as real, px.value);
      MulLeft(h.qty as real, px.value, h.avg);
    }
    hide Mul;
    hide Exits;
    hide GainPct;
  }

  lemma {:induction false} ExitsConserve(m: Market, p: Params, day: int, a: Account, hs: seq<Holding>)
    requires LongOnly(hs)
    ensures ExitsBalance(a, hs, ExitAll(m, p, day, a, hs), SalesOn(m, p, day, hs))
  {
    hide *;
    if hs == [] {
      NoExits(m, p, day, a);
    } else {
      var pre, h := hs[..|hs| - 1], hs[|hs| - 1];
      assert hs == pre + [h];
      LongOnlySnoc(pre, h);
      ExitsConserve(m, p, day, a, pre);
      ExitSnoc(m, p, day, a, pre, h);
      ExitOneBalances(m, p, day, a, pre, ExitAll(m, p, day, a, pre), SalesOn(m, p, day, pre), h);
    }
  }

  lemma NoExits(m: Market, p: Params, day: int, a: Account)
    ensures ExitsBalance(a, [], ExitAll(m, p, day, a, []), SalesOn(m, p, day, []))
  {
  }

  lemma LongOnlySnoc(hs: seq<Holding>, h: Holding)
    ensures LongOnly(hs + [h]) <==> LongOnly(hs) && h.qty >= 1
  {
    assert (hs + [h])[|hs|] == h;
    assert forall i | 0 <= i < |hs| :: (hs + [h])[i] == hs[i];
  }

  lemma ExitSnoc(m: Market, p: Params, day: int, a: Account, hs: seq<Holding>, h: Holding)
    ensures ExitAll(m, p, day, a, hs + [h]) == ExitOne(m, p, day, ExitAll(m, p, day, a, hs), h)
    ensures SalesOn(m, p, day, hs + [h]) == Add(SalesOn(m, p, day, hs), SaleOf(m, p, day, h))
  {
    assert (hs + [h])[..|hs|] == hs;
  }

  /** Any one of these keeps an order within the cash. */
  predicate Solvent(p: Params) {
    p.perOrder <= 1.0 || p.minBuffer >= 1.0 || p.maxCycle <= 1.0
  }

  /** The entry pass: money only changes into holdings, one trade each, within the day's budget. */
  ghost predicate EntriesBalance(p: Params, before: Account, s: Spending) {
    && s.account.cash == before.cash - s.spent
    && CostOf(s.account.holdings) == CostOf(before.holdings) + s.spent
    && s.account.trades - before.trades == |s.account.holdings| - |before.holdings|
    && s.account.wins == before.wins
    && s.spent >= 0.0
    && (s.spent == 0.0 || s.spent <= Mul(before.cash, p.maxCycle))
    && LongOnly(s.account.holdings)
    && s.account.cash >= 0.0
  }

  lemma SharesFitBudget(budget: real, px: Price)
    ensures Mul(WholeShares(budget, px) as real, px) <= budget
  {
  }

  lemma OrderFitsCash(p: Params, s: Spending, total: real, px: Price, qty: int)
    requires Solvent(p) && s.account.cash >= 0.0 && s.spent >= 0.0
    requires qty == WholeShares(Mul(s.account.cash, p.perOrder), px) && qty > 0
    requires WithinLimits(p, s, total, Mul(qty as real, px))
    ensures 0.0 < Mul(qty as real, px) <= s.account.cash
  {
    var cost := Mul(qty as real, px);
    MulSign(qty as real, px);
    SharesFitBudget(Mul(s.account.cash, p.perOrder), px);
    hide WholeShares;
    if p.perOrder <= 1.0 {
      MulMonotone(s.account.cash, p.perOrder, 1.0);
      MulOne(s.account.cash);
    } else if p.minBuffer >= 1.0 {
      MulMonotone(cost, 1.0, p.minBuffer);
      MulOne(cost);
    } else {
      MulMonotone(s.account.cash, p.maxCycle, 1.0);
      MulOne(s.account.cash);
    }
  }

  lemma EntryBalances(p: Params, before: Account, lookback: nat, day: int, total: real, s: Spending, series: Series)
    requires Solvent(p) && lookback > 0 && EntriesBalance(p, before, s)
    ensures EntriesBalance(p, before, EnterOne(p, lookback, day, total, s, series))
  {
    var qty := EntryQty(p, lookback, day, total, s, series);
    var px := CloseOn(series.rows, day);
    if qty > 0 && px.Some? {
      assert qty == WholeShares(Mul(s.account.cash, p.perOrder), px.value);
      assert WithinLimits(p, s, total, Mul(qty as real, px.value));
      hide EntryQty;
      hide WholeShares;
      hide CloseOn;
      OrderFitsCash(p, s, total, px.value, qty);
      CostSnoc(s.account.holdings, Holding(series.code, qty, px.value));
      hide CostOf;
      BudgetShrinks(p, s.account.cash, before.cash, s.spent + Mul(qty as real, px.value));
      hide Mul;
    }
  }

  lemma BudgetShrinks(p: Params, cash: real, before: real, spent: real)
    requires 0.0 <= cash <= before && 0.0 < spent <= Mul(cash, p.maxCycle)
    ensures spent <= Mul(before, p.maxCycle)
  {
  }

  lemma {:induction false} EntriesConserve(m: Market, p: Params, lookback: nat, day: int, total: real, a: Account)
    requires Solvent(p) && lookback > 0 && a.cash >= 0.0 && LongOnly(a.holdings)
    ensures EntriesBalance(p, a, EnterAll(m, p, lookback, day, total, a))
  {
    if m != [] {
      var n := |m| - 1;
      EntriesConserve(m[..n], p, lookback, day, total, a);
      EntryBalances(p, a, lookback, day, total, EnterAll(m[..n], p, lookback, day, total, a), m[n]);
      hide EntriesBalance;
      hide EnterOne;
    }
  }

  /** What holds of the account at the end of every day. */
  ghost predicate Balanced(start: Price, a: Account, sales: Sales) {
    && a.cash >= 0.0
    && LongOnly(a.holdings)
    && a.cash + CostOf(a.holdings) == start + sales.gain
    && a.trades == 2 * sales.count + |a.holdings|
    && a.wins == sales.wins <= sales.count
  }

  lemma DayBalances(m: Market, p: Params, lookback: nat, start: Price, day: int, a: Account, sales: Sales)
    requires Solvent(p) && lookback > 0 && Balanced(start, a, sales)
    ensures Balanced(start, DayEnd(m, p, lookback, start, day, a), Add(sales, SalesOn(m, p, day, a.holdings)))
  {
    hide ExitAll;
    hide EnterAll;
    hide SalesOn;
    hide TotalEval;
    hide Braked;
    hide CostOf;
    hide Mul;
    hide LongOnly;
    var exited := ExitAll(m, p, day, a, a.holdings);
    var total := TotalEval(m, day, exited);
    ExitsConserve(m, p, day, a, a.holdings);
    EntriesConserve(m, p, lookback, day, total, exited);
  }

  /** On every day of every run: cash is never negative; cash plus holdings at cost is the starting capital plus the
      realized gains; trades are two per exit plus one per open position; wins are among the exits. */
  lemma {:induction false} BooksBalance(m: Market, p: Params, lookback: nat, start: Price, dates: seq<int>)
    requires Solvent(p) && lookback > 0
    ensures Balanced(start, Simulate(m, p, lookback, start, dates).account, SalesOver(m, p, lookback, start, dates))
  {
    if dates != [] {
      var n := |dates| - 1;
      BooksBalance(m, p, lookback, start, dates[..n]);
      DayBalances(m, p, lookback, start, dates[n], Simulate(m, p, lookback, start, dates[..n]).account,
                  SalesOver(m, p, lookback, start, dates[..n]));
      hide DayEnd;
      hide Balanced;
      hide SalesOn;
      hide DayEval;
    }
  }

  /** A day's purchases never exceed the cycle budget on the cash after that day's exits. */
  lemma DailyBudget(m: Market, p: Params, lookback: nat, start: Price, dates: seq<int>, day: int, total: real)
    requires Solvent(p) && lookback > 0
    ensures var a := Simulate(m, p, lookback, start, dates).account;
            var exited := ExitAll(m, p, day, a, a.holdings);
            var bought := EnterAll(m, p, lookback, day, total, exited);
            && bought.spent == exited.cash - bought.account.cash
            && (bought.spent == 0.0 || bought.spent <= Mul(exited.cash, p.maxCycle))
  {
    var a := Simulate(m, p, lookback, start, dates).account;
    BooksBalance(m, p, lookback, start, dates);
    ExitsConserve(m, p, day, a, a.holdings);
    EntriesConserve(m, p, lookback, day, total, ExitAll(m, p, day, a, a.holdings));
    hide Simulate;
    hide ExitAll;
    hide EnterAll;
    hide SalesOn;
    hide CostOf;
  }

  lemma {:induction false} ValueNonNegative(m: Market, day: int, hs: seq<Holding>)
    requires LongOnly(hs)
    ensures PricedValue(m, day, hs) >= 0.0
  {
    if hs != [] {
      var h := hs[|hs| - 1];
      ValueNonNegative(m, day, hs[..|hs| - 1]);
      var px := PriceOn(m, h.code, day);
      hide PriceOn;
      if px.Some? {
        MulSign(h.qty as real, px.value);
      }
    }
  }

  /** The equity curve is nonnegative, so the reported drawdown is the deepest loss between two of its days. */
  lemma {:induction false} CurveNonNegative(m: Market, p: Params, lookback: nat, start: Price, dates: seq<int>)
    requires Solvent(p) && lookback > 0
    ensures NonNegative(Simulate(m, p, lookback, start, dates).curve)
  {
    if dates != [] {
      var n := |dates| - 1;
      CurveNonNegative(m, p, lookback, start, dates[..n]);
      DayIsNonNegative(m, p, lookback, start, dates[..n], dates[n]);
      hide DayEval;
      hide DayEnd;
    }
  }

  lemma DayIsNonNegative(m: Market, p: Params, lookback: nat, start: Price, dates: seq<int>, day: int)
    requires Solvent(p) && lookback > 0
    ensures DayEval(m, p, day, Simulate(m, p, lookback, start, dates).account) >= 0.0
  {
    hide Simulate;
    hide ExitAll;
    hide PricedValue;
    hide SalesOn;
    hide CostOf;
    var a := Simulate(m, p, lookback, start, dates).account;
    BooksBalance(m, p, lookback, start, dates);
    ExitsConserve(m, p, day, a, a.holdings);
    ValueNonNegative(m, day, ExitAll(m, p, day, a, a.holdings).holdings);
  }

  /** The drawdown reported for a run: no loss between two days is deeper, and if not zero it is one of them. */
  lemma ReportedDrawdown(m: Market, p: Params, lookback: nat, start: Price, i: nat, j: nat)
    requires Solvent(p) && lookback > 0
    ensures var curve := Simulate(m, p, lookback, start, AllDates(m)).curve;
            var mdd := ReportOf(Simulate(m, p, lookback, start, AllDates(m)), start).maxDrawdownPct / 100.0;
            && (i <= j < |curve| && curve[i] > 0.0 ==> mdd <= curve[j] / curve[i] - 1.0)
            && (mdd == 0.0 || exists a, b | 0 <= a <= b < |curve| && curve[a] > 0.0 :: mdd == curve[b] / curve[a] - 1.0)
  {
    var s := Simulate(m, p, lookback, start, AllDates(m));
    CurveNonNegative(m, p, lookback, start, AllDates(m));
    assert ReportOf(s, start).maxDrawdownPct / 100.0 == MaxDrawdown(s.curve);
    DrawdownIsAttained(s.curve);
    if i <= j < |s.curve| && s.curve[i] > 0.0 {
      DrawdownIsBound(s.curve, i, j);
    }
    hide MaxDrawdown;
    hide Simulate;
  }

  /** The cost of the holdings without a price on the day. */
  function UnpricedCost(m: Market, day: int, hs: seq<Holding>): real {
    if hs == [] then 0.0
    else
      var h := hs[|hs| - 1];
      UnpricedCost(m, day, hs[..|hs| - 1]) + if PriceOn(m, h.code, day).None? then Mul(h.qty as real, h.avg) else 0.0
  }

  /** The value of the holdings, those without a price taken at cost. */
  function ValueOrCost(m: Market, day: int, hs: seq<Holding>): real {
    if hs == [] then 0.0
    else
      var h := hs[|hs| - 1];
      ValueOrCost(m, day, hs[..|hs| - 1])
      + match PriceOn(m, h.code, day) case None => Mul(h.qty as real, h.avg) case Some(px) => Mul(h.qty as real, px)
  }

  /** The curve counts a holding without a price that day as worth nothing: it falls short of the value at cost by
      exactly what those holdings cost, and is right exactly on days when every holding has a price. */
  lemma {:induction false} CurveOmitsUnpriced(m: Market, day: int, hs: seq<Holding>)
    requires LongOnly(hs)
    ensures ValueOrCost(m, day, hs) == PricedValue(m, day, hs) + UnpricedCost(m, day, hs)
    ensures UnpricedCost(m, day, hs) >= 0.0
    ensures UnpricedCost(m, day, hs) == 0.0 <==> forall i | 0 <= i < |hs| :: PriceOn(m, hs[i].code, day).Some?
  {
    if hs != [] {
      var n := |hs| - 1;
      CurveOmitsUnpriced(m, day, hs[..n]);
      MulSign(hs[n].qty as real, hs[n].avg);
      hide PriceOn;
      hide Mul;
      assert forall i | 0 <= i < n :: hs[..n][i] == hs[i];
    }
  }

  // ----- A holding without a price -----

  const BREAKER: Series := Series("A", [Row(1, 10.0), Row(2, 20.0)])
  const LATECOMER: Series := Series("B", [Row(3, 5.0)])
  const TWO_CODES: Market := [BREAKER, LATECOMER]
  const ALL_IN: Params := Params(1.0, 1.0, 1.0, 1.0, 0.5, 1000.0, 1000.0)

  lemma SamplePrices()
    ensures IndexOf(BREAKER.rows, 1) == Some(0) && IndexOf(BREAKER.rows, 2) == Some(1)
      && IndexOf(BREAKER.rows, 3) == None
    ensures IndexOf(LATECOMER.rows, 1) == None && IndexOf(LATECOMER.rows, 2) == None
      && IndexOf(LATECOMER.rows, 3) == Some(0)
    ensures PriceOn(TWO_CODES, "A", 3) == None
    ensures TWO_CODES[..1] == [BREAKER] && TWO_CODES[..1][..0] == []
  {
    assert BREAKER.rows[..1] == [Row(1, 10.0)] && BREAKER.rows[..1][..0] == [];
    assert LATECOMER.rows[..0] == [];
    assert TWO_CODES[..1] == [BREAKER] && [BREAKER][..0] == [];
    assert PriceOn([], "A", 3) == None;
  }

  lemma SampleDates()
    ensures AllDates(TWO_CODES) == [1, 2, 3]
  {
    SamplePrices();
    assert BREAKER.rows[..1] == [Row(1, 10.0)] && BREAKER.rows[..1][..0] == [];
    assert LATECOMER.rows[..0] == [];
    assert InsertRows([], [Row(1, 10.0)]) == [1];
    assert InsertRows([], BREAKER.rows) == [1, 2];
    assert AllDates([BREAKER]) == [1, 2];
    assert InsertRows([1, 2], LATECOMER.rows) == [1, 2, 3];
  }

  lemma SampleBreakout()
    ensures !SmaBreakout(BREAKER.rows, 0, 1) && SmaBreakout(BREAKER.rows, 1, 1) && !SmaBreakout(LATECOMER.rows, 0, 1)
  {
    assert BREAKER.rows[0..1] == [Row(1, 10.0)] && [Row(1, 10.0)][..0] == [];
    assert SumCloses([Row(1, 10.0)]) == 10.0;
  }

  lemma NoHoldings(m: Market, p: Params, day: int, a: Account)
    requires a.holdings == []
    ensures ExitAll(m, p, day, a, a.holdings) == a && DayEval(m, p, day, a) == a.cash
  {
  }

  lemma FirstDay()
    ensures AfterDay(TWO_CODES, ALL_IN, 1, 100.0, 1, Simulation(Account(100.0, [], 0, 0), []))
      == Simulation(Account(100.0, [], 0, 0), [100.0])
  {
    var a := Account(100.0, [], 0, 0);
    SamplePrices();
    SampleBreakout();
    NoHoldings(TWO_CODES, ALL_IN, 1, a);
    hide IndexOf;
    hide SmaBreakout;
    hide ExitAll;
    assert EnterAll([], ALL_IN, 1, 1, 100.0, a) == Spending(a, 0.0);
    assert EnterAll([BREAKER], ALL_IN, 1, 1, 100.0, a) == Spending(a, 0.0);
    assert EnterAll(TWO_CODES, ALL_IN, 1, 1, 100.0, a) == Spending(a, 0.0);
    hide EnterAll;
  }

  lemma SecondDay()
    ensures AfterDay(TWO_CODES, ALL_IN, 1, 100.0, 2, Simulation(Account(100.0, [], 0, 0), [100.0]))
      == Simulation(Account(0.0, [Holding("A", 5, 20.0)], 1, 0), [100.0, 100.0])
  {
    var a, b := Account(100.0, [], 0, 0), Account(0.0, [Holding("A", 5, 20.0)], 1, 0);
    SamplePrices();
    SampleBreakout();
    NoHoldings(TWO_CODES, ALL_IN, 2, a);
    hide IndexOf;
    hide SmaBreakout;
    hide ExitAll;
    assert EnterAll([], ALL_IN, 1, 2, 100.0, a) == Spending(a, 0.0);
    SecondDayEntry();
    assert EnterAll([BREAKER], ALL_IN, 1, 2, 100.0, a) == Spending(b, 100.0);
    assert EnterOne(ALL_IN, 1, 2, 100.0, Spending(b, 100.0), LATECOMER) == Spending(b, 100.0);
    assert EnterAll(TWO_CODES, ALL_IN, 1, 2, 100.0, a) == Spending(b, 100.0);
    hide EnterAll;
    hide EnterOne;
  }

  lemma SecondDayEntry()
    ensures EnterOne(ALL_IN, 1, 2, 100.0, Spending(Account(100.0, [], 0, 0), 0.0), BREAKER)
      == Spending(Account(0.0, [Holding("A", 5, 20.0)], 1, 0), 100.0)
  {
    SamplePrices();
    SampleBreakout();
    hide IndexOf;
    hide SmaBreakout;
    assert WholeShares(100.0, 20.0) == 5;
    assert Mul(100.0, 1.0) == 100.0 && Mul(5 as real, 20.0) == 100.0;
  }

  lemma ThirdDay(a: Account)
    requires a == Account(0.0, [Holding("A", 5, 20.0)], 1, 0)
    ensures DayEval(TWO_CODES, ALL_IN, 3, a) == 0.0
  {
    SamplePrices();
    hide PriceOn;
    assert a.holdings[..0] == [];
    assert ExitAll(TWO_CODES, ALL_IN, 3, a, a.holdings) == a;
    assert PricedValue(TWO_CODES, 3, a.holdings) == 0.0;
  }

  /** The simulator called directly (the command that loads prices drops series of thirty rows or fewer): five shares
      bought for the whole capital have no price on the third day, the curve drops from 100 to nothing and the report
      shows a total loss. */
  lemma UnpricedHoldingLooksLost()
    ensures AllDates(TWO_CODES) == [1, 2, 3]
    ensures Simulate(TWO_CODES, ALL_IN, 1, 100.0, [1, 2, 3]).curve == [100.0, 100.0, 0.0]
    ensures MaxDrawdown([100.0, 100.0, 0.0]) == -1.0
  {
    SampleDates();
    assert [1, 2, 3][..2] == [1, 2] && [1, 2][..1] == [1] && [1][..0] == [];
    FirstDay();
    SecondDay();
    hide AfterDay;
    assert Simulate(TWO_CODES, ALL_IN, 1, 100.0, []) == Simulation(Account(100.0, [], 0, 0), []);
    assert Simulate(TWO_CODES, ALL_IN, 1, 100.0, [1]) == Simulation(Account(100.0, [], 0, 0), [100.0]);
    assert Simulate(TWO_CODES, ALL_IN, 1, 100.0, [1, 2]).account == Account(0.0, [Holding("A", 5, 20.0)], 1, 0);
    assert Simulate(TWO_CODES, ALL_IN, 1, 100.0, [1, 2]).curve == [100.0, 100.0];
    ThirdDay(Simulate(TWO_CODES, ALL_IN, 1, 100.0, [1, 2]).account);
    CurveStep([1, 2], 3);
    TotalLoss();
    hide *;
  }

  lemma CurveStep(dates: seq<int>, day: int)
    ensures Simulate(TWO_CODES, ALL_IN, 1, 100.0, dates + [day]).curve
      == Simulate(TWO_CODES, ALL_IN, 1, 100.0, dates).curve
         + [DayEval(TWO_CODES, ALL_IN, day, Simulate(TWO_CODES, ALL_IN, 1, 100.0, dates).account)]
  {
    assert (dates + [day])[..|dates|] == dates;
    hide DayEnd;
  }

  lemma TotalLoss()
    ensures MaxDrawdown([100.0, 100.0, 0.0]) == -1.0
  {
    var c := [100.0, 100.0, 0.0];
    assert c[..2] == [100.0, 100.0] && c[..2][..1] == [100.0] && c[..2][..1][..0] == [];
    assert Peak([100.0]) == 100.0 && Peak([100.0, 100.0]) == 100.0;
    assert MaxDrawdown([100.0]) == 0.0;
    assert MaxDrawdown([100.0, 100.0]) == 0.0;
    assert Peak(c) == 100.0 && c[2] == 0.0;
    assert MaxDrawdown(c) == Min(MaxDrawdown(c[..2]), 0.0 / 100.0 - 1.0);
  }
}
