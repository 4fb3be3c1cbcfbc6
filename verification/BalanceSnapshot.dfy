/** The account snapshot (infra/kis_broker.py): the settled cash, the holdings and the total are carried over reads in
    which the broker reports zeros, an empty list or an error, across restarts. */
module BalanceSnapshot {
  import opened Common

  const SNAP_TTL: real := 8.0
  const HOLDINGS_CACHE_TTL: real := 86400.0
  const HOLDINGS_GLITCH_MIN_GAP: real := 5000.0

  datatype Holding = Holding(code: string, qty: int, avgPrice: real, curPrice: real)

  /** One call: its time, whether it insists on a fresh read, and what the broker and the overseas cache would say. */
  datatype Reading = Reading(
    now: real,
    force: bool,
    ok: bool,
    cashD2: real,
    cashD1: real,
    securities: real,
    pnl: real,
    rows: seq<Holding>,
    overseas: real)

  datatype Snapshot = Snapshot(
    cash: real,
    totalEval: real,
    totalKr: real,
    pnlRatio: real,
    ok: bool,
    holdings: seq<Holding>,
    ts: real)

  datatype HoldingsCache = HoldingsCache(holdings: seq<Holding>, total: real, ts: real)

  const NO_HOLDINGS: HoldingsCache := HoldingsCache([], 0.0, 0.0)

  /** The last snapshot and the caches in memory, and their copies on disk (empty when there is no file). */
  datatype State = State(
    snap: Option<Snapshot>,
    settledMem: Option<real>,
    holdingsMem: Option<HoldingsCache>,
    settledDisk: real,
    holdingsDisk: HoldingsCache)

  // ----- One read -----

  function Settled(cashD2: real, cashD1: real, prevSettled: real): real {
    if cashD2 > 0.0 then cashD2
    else if prevSettled > 0.0 then prevSettled
    else if cashD1 > 0.0 then cashD1
    else 0.0
  }

  datatype Valuation = Valuation(total: real, settled: real)

  /** The domestic valuation and the settled cash in it; the unsettled deposit is not even an input. */
  function KrNetValuation(securities: real, cashD2: real, cashD1: real, prevSettled: real): (v: Valuation)
    ensures v.settled >= 0.0
    ensures cashD2 > 0.0 ==> v.settled == cashD2
    ensures cashD2 <= 0.0 && prevSettled > 0.0 ==> v.settled == prevSettled
    ensures cashD2 <= 0.0 && prevSettled <= 0.0 ==> v.settled == Max(0.0, cashD1)
    ensures v.total - v.settled == securities
  {
    var settled := Settled(cashD2, cashD1, prevSettled);
    Valuation(securities + settled, settled)
  }

  function SettledCache(st: State): real {
    if st.settledMem.Some? then st.settledMem.value else st.settledDisk
  }

  function HoldingsOnFile(st: State): HoldingsCache {
    if st.holdingsMem.Some? then st.holdingsMem.value else st.holdingsDisk
  }

  function Held(rows: seq<Holding>): seq<Holding> {
    if rows == [] then []
    else Held(rows[..|rows| - 1]) + if rows[|rows| - 1].qty <= 0 then [] else [rows[|rows| - 1]]
  }

  /** A recent snapshot answers the call without asking the broker. */
  predicate Answered(st: State, r: Reading) {
    st.snap.Some? && !r.force && r.now - st.snap.value.ts < SNAP_TTL
  }

  function CashOf(st: State, r: Reading): real {
    KrNetValuation(r.securities, r.cashD2, r.cashD1, SettledCache(st)).settled
  }

  function TotalOf(st: State, r: Reading): real {
    KrNetValuation(r.securities, r.cashD2, r.cashD1, SettledCache(st)).total
  }

  function OrElse(x: real, y: real): real {
    if x != 0.0 then x else y
  }

  function PrevTotalOf(snap: Option<Snapshot>): real {
    if snap.None? then 0.0 else OrElse(snap.value.totalKr, snap.value.totalEval)
  }

  predicate IsRecent(file: HoldingsCache, now: real) {
    file.holdings != [] && now - file.ts < HOLDINGS_CACHE_TTL
  }

  predicate HasHoldings(snap: Option<Snapshot>) {
    snap.Some? && snap.value.holdings != []
  }

  /** The last good holdings: the previous snapshot's, or after a restart the file's if recent enough. */
  function PrevHoldings(snap: Option<Snapshot>, file: HoldingsCache, now: real): seq<Holding> {
    if HasHoldings(snap) then snap.value.holdings
    else if IsRecent(file, now) then file.holdings
    else []
  }

  function PrevTotal(snap: Option<Snapshot>, file: HoldingsCache, now: real): real {
    if !HasHoldings(snap) && IsRecent(file, now) && PrevTotalOf(snap) <= 0.0 then file.total
    else PrevTotalOf(snap)
  }

  predicate Flat(st: State, r: Reading) {
    TotalOf(st, r) <= CashOf(st, r) + HOLDINGS_GLITCH_MIN_GAP
  }

  function SettledAfter(st: State, r: Reading): real {
    if r.cashD2 > 0.0 then r.cashD2 else SettledCache(st)
  }

  /** The corrections to a plainly read snapshot, given the last good values. */
  function CarriedOver(snap: Option<Snapshot>, ok: bool, plain: Snapshot, prevHoldings: seq<Holding>, prevTotal: real,
                       lastSettled: real): Snapshot {
    var carries := prevHoldings != []
      && (!ok || (plain.holdings == [] && plain.totalEval > plain.cash + HOLDINGS_GLITCH_MIN_GAP));
    var prevCash := if snap.Some? && snap.value.cash > 0.0 then snap.value.cash else lastSettled;
    var zero := ok && snap.Some? && plain.cash <= 0.0;
    plain.(
      holdings := if carries then prevHoldings else plain.holdings,
      cash := if carries && !ok && prevCash > 0.0 then prevCash
              else if zero && snap.value.cash > 0.0 then snap.value.cash else plain.cash,
      totalEval := if zero && PrevTotalOf(snap) > 0.0 then PrevTotalOf(snap)
                   else if carries && prevTotal > 0.0 then prevTotal else plain.totalEval)
  }

  /** What the broker says, taken at its word. */
  function Plain(st: State, r: Reading): Snapshot {
    var total := TotalOf(st, r);
    Snapshot(CashOf(st, r), total, 0.0, if total > 0.0 then r.pnl / total else 0.0, r.ok, Held(r.rows), r.now)
  }

  /** The snapshot made of a fresh read; the overseas value comes on top of the domestic total. */
  function Fetched(st: State, r: Reading): Snapshot {
    var s := CarriedOver(st.snap, r.ok, Plain(st, r), PrevHoldings(st.snap, HoldingsOnFile(st), r.now),
                         PrevTotal(st.snap, HoldingsOnFile(st), r.now), SettledAfter(st, r));
    s.(totalKr := s.totalEval, totalEval := if r.overseas > 0.0 then s.totalEval + r.overseas else s.totalEval)
  }

  /** The holdings file: replaced by a list that is not empty, removed when the account really is flat. */
  function FileAfter(st: State, r: Reading): HoldingsCache {
    if Held(r.rows) != [] then HoldingsCache(Held(r.rows), TotalOf(st, r), r.now)
    else if r.ok && Flat(st, r) then NO_HOLDINGS
    else HoldingsOnFile(st)
  }

  predicate Rewritten(st: State, r: Reading) {
    Held(r.rows) != [] || (r.ok && Flat(st, r))
  }

  function HoldingsMemAfter(st: State, r: Reading): Option<HoldingsCache> {
    if Rewritten(st, r) then Some(FileAfter(st, r))
    else if HasHoldings(st.snap) then st.holdingsMem
    else Some(HoldingsOnFile(st))
  }

  /** The state after a read that asks the broker. */
  function AfterFetch(st: State, r: Reading): State {
    State(Some(Fetched(st, r)),
          Some(SettledAfter(st, r)),
          HoldingsMemAfter(st, r),
          if r.cashD2 > 0.0 then r.cashD2 else st.settledDisk,
          if Rewritten(st, r) then FileAfter(st, r) else st.holdingsDisk)
  }

  function AfterRead(st: State, r: Reading): State {
    if Answered(st, r) then st else AfterFetch(st, r)
  }

  function AfterRestart(st: State): State {
    State(None, None, None, st.settledDisk, st.holdingsDisk)
  }

  // ----- The broker client -----

  class BalanceReader {
    var snap: Option<Snapshot>
    var settledMem: Option<real>
    var holdingsMem: Option<HoldingsCache>
    var settledDisk: real
    var holdingsDisk: HoldingsCache

    function View(): State
      reads this
    {
      State(snap, settledMem, holdingsMem, settledDisk, holdingsDisk)
    }

    /** A process start over whatever the caches hold. */
    constructor (settled: real, file: HoldingsCache)
      ensures View() == State(None, None, None, settled, file)
    {
      snap, settledMem, holdingsMem, settledDisk, holdingsDisk := None, None, None, settled, file;
    }

    method Restart()
      modifies this
      ensures View() == AfterRestart(old(View()))
    {
      snap, settledMem, holdingsMem := None, None, None;
    }

    method DropSnapshot()
      modifies this`snap
      ensures View() == old(View()).(snap := None)
    {
      snap := None;
    }

    method GetSettledCash() returns (settled: real)
      modifies this`settledMem
      ensures settled == SettledCache(old(View()))
      ensures settledMem == Some(settled)
    {
      if settledMem.None? {
        settledMem := Some(settledDisk);
      }
      settled := settledMem.value;
    }

    method SetSettledCash(d2: real)
      modifies this`settledMem, this`settledDisk
      ensures settledMem == Some(d2) && settledDisk == d2
    {
      settledMem, settledDisk := Some(d2), d2;
    }

    method GetHoldings() returns (file: HoldingsCache)
      modifies this`holdingsMem
      ensures file == HoldingsOnFile(old(View()))
      ensures holdingsMem == Some(file)
    {
      if holdingsMem.None? {
        holdingsMem := Some(holdingsDisk);
      }
      file := holdingsMem.value;
    }

    method SetHoldings(file: HoldingsCache)
      modifies this`holdingsMem, this`holdingsDisk
      ensures holdingsMem == Some(file) && holdingsDisk == file
    {
      holdingsMem, holdingsDisk := Some(file), file;
    }

    /** The last good holdings and total, reading the file only when the previous snapshot has none. */
    method LastGood(now: real) returns (holdings: seq<Holding>, total: real)
      modifies this`holdingsMem
      ensures holdings == PrevHoldings(snap, HoldingsOnFile(old(View())), now)
      ensures total == PrevTotal(snap, HoldingsOnFile(old(View())), now)
      ensures holdingsMem == if HasHoldings(snap) then old(holdingsMem) else Some(HoldingsOnFile(old(View())))
    {
      holdings := if snap.Some? then snap.value.holdings else [];
      total := PrevTotalOf(snap);
      if holdings == [] {
        var file := GetHoldings();
        if file.holdings != [] && now - file.ts < HOLDINGS_CACHE_TTL {
          holdings := file.holdings;
          if total <= 0.0 {
            total := file.total;
          }
        }
      }
    }

    method FilterRows(rows: seq<Holding>) returns (holdings: seq<Holding>)
      ensures holdings == Held(rows)
    {
      holdings := [];
      for i := 0 to |rows|
        invariant holdings == Held(rows[..i])
      {
        assert rows[..i + 1][..i] == rows[..i];
        if rows[i].qty <= 0 {
          continue;
        }
        holdings := holdings + [rows[i]];
      }
      assert rows[..|rows|] == rows;
    }

    /** Values the account and remembers a positive D+2. */
    method Settle(r: Reading) returns (total: real, cash: real)
      modifies this`settledMem, this`settledDisk
      ensures total == TotalOf(old(View()), r) && cash == CashOf(old(View()), r)
      ensures settledMem == Some(SettledAfter(old(View()), r))
      ensures settledDisk == if r.cashD2 > 0.0 then r.cashD2 else old(settledDisk)
    {
      var prevSettled := GetSettledCash();
      var valuation := KrNetValuation(r.securities, r.cashD2, r.cashD1, prevSettled);
      total, cash := valuation.total, valuation.settled;
      if r.cashD2 > 0.0 {
        SetSettledCash(r.cashD2);
      }
    }

    /** Replaces what a glitch or a failed read left empty by the last good values. */
    method CarryOver(r: Reading, plain: Snapshot, prevHoldings: seq<Holding>, prevTotal: real, lastSettled: real)
      returns (reported: Snapshot)
      requires settledMem == Some(lastSettled)
      modifies this`settledMem
      ensures settledMem == old(settledMem)
      ensures reported == CarriedOver(snap, r.ok, plain, prevHoldings, prevTotal, lastSettled)
    {
      reported := plain;
      if r.ok && plain.holdings == [] && plain.totalEval > plain.cash + HOLDINGS_GLITCH_MIN_GAP && prevHoldings != [] {
        reported := reported.(holdings := prevHoldings);
        if prevTotal > 0.0 {
          reported := reported.(totalEval := prevTotal);
        }
      } else if !r.ok && prevHoldings != [] {
        reported := reported.(holdings := prevHoldings);
        if prevTotal > 0.0 {
          reported := reported.(totalEval := prevTotal);
        }
        var prevCash := if snap.Some? then snap.value.cash else 0.0;
        if prevCash <= 0.0 {
          prevCash := GetSettledCash();
        }
        if prevCash > 0.0 {
          reported := reported.(cash := prevCash);
        }
      }
      if snap.Some? && r.ok && plain.cash <= 0.0 {
        if snap.value.cash > 0.0 {
          reported := reported.(cash := snap.value.cash);
        }
        if PrevTotalOf(snap) > 0.0 {
          reported := reported.(totalEval := PrevTotalOf(snap));
        }
      }
    }

    method Persist(r: Reading, holdings: seq<Holding>, total: real, cash: real)
      modifies this`holdingsMem, this`holdingsDisk
      ensures if holdings != [] then holdingsDisk == HoldingsCache(holdings, total, r.now)
        && holdingsMem == Some(holdingsDisk)
              else if r.ok && total <= cash + HOLDINGS_GLITCH_MIN_GAP then
                holdingsDisk == NO_HOLDINGS && holdingsMem == Some(holdingsDisk)
              else holdingsDisk == old(holdingsDisk) && holdingsMem == old(holdingsMem)
    {
      if holdings != [] {
        SetHoldings(HoldingsCache(holdings, total, r.now));
      } else if r.ok && total <= cash + HOLDINGS_GLITCH_MIN_GAP {
        SetHoldings(NO_HOLDINGS);
      }
    }

    /** One call for the account snapshot. */
    method KrAccountSnapshot(r: Reading) returns (result: Snapshot)
      modifies this
      ensures View() == AfterRead(old(View()), r)
      ensures Some(result) == View().snap
    {
      if snap.Some? && !r.force && r.now - snap.value.ts < SNAP_TTL {
        return snap.value;
      }
      result := FetchSnapshot(r);
    }

    /** Asks the broker. */
    method FetchSnapshot(r: Reading) returns (result: Snapshot)
      modifies this
      ensures View() == AfterFetch(old(View()), r)
      ensures Some(result) == View().snap
    {
      hide KrNetValuation;
      hide Held;
      hide PrevHoldings;
      hide PrevTotal;
      hide PrevTotalOf;
      hide CarriedOver;
      hide HasHoldings;
      var total, cash := Settle(r);
      var holdings := FilterRows(r.rows);
      var plain := Snapshot(cash, total, 0.0, if total > 0.0 then r.pnl / total else 0.0, r.ok, holdings, r.now);
      assert plain == Plain(old(View()), r);
      var prevHoldings, prevTotal := LastGood(r.now);
      var reported := CarryOver(r, plain, prevHoldings, prevTotal, settledMem.value);
      Persist(r, holdings, total, cash);
      hide Plain;
      reported := reported.(totalKr := reported.totalEval);
      if r.overseas > 0.0 {
        reported := reported.(totalEval := reported.totalKr + r.overseas);
      }
      snap := Some(reported);
      result := reported;
    }
  }

  // ----- Runs -----

  /** A call, a process start, or the polling loop dropping the snapshot to force a fresh read. */
  datatype Event = Read(r: Reading) | Restart | Drop

  function Apply(st: State, e: Event): State {
    match e
    case Read(r) => AfterRead(st, r)
    case Restart => AfterRestart(st)
    case Drop => st.(snap := None)
  }

  function After(st: State, events: seq<Event>): State {
    if events == [] then st else Apply(After(st, events[..|events| - 1]), events[|events| - 1])
  }

  /** The most recent positive D+2 the broker has been heard to say; calls answered from the snapshot hear nothing. */
  function Heard(st: State, last: Option<real>, e: Event): Option<real> {
    if e.Read? && !Answered(st, e.r) && e.r.cashD2 > 0.0 then Some(e.r.cashD2) else last
  }

  function LastHeard(st: State, last: Option<real>, events: seq<Event>): Option<real> {
    if events == [] then last
    else
      var init := events[..|events| - 1];
      Heard(After(st, init), LastHeard(st, last, init), events[|events| - 1])
  }

  /** A cold process over the settled-cash file of earlier ones. */
  function Cold(settled: real, file: HoldingsCache): State {
    State(None, None, None, settled, file)
  }

  function OnFile(settled: real): Option<real> {
    if settled > 0.0 then Some(settled) else None
  }

  /** The cash reported by the last event, if it is a read, is the most recent positive D+2 once there is one. */
  predicate ReportsLatest(st: State, last: Option<real>, e: Event) {
    e.Read? && Heard(st, last, e).Some? ==>
      Apply(st, e).snap.Some? && Apply(st, e).snap.value.cash == Heard(st, last, e).value
  }

  predicate AllReportLatest(st: State, last: Option<real>, events: seq<Event>) {
    events == []
    || (AllReportLatest(st, last, events[..|events| - 1])
        && ReportsLatest(After(st, events[..|events| - 1]), LastHeard(st, last, events[..|events| - 1]),
                         events[|events| - 1]))
  }

  /** A failed read that nevertheless brings a D+2, while an earlier snapshot with other cash and last good holdings
      are at hand: that snapshot's cash wins. */
  predicate OldCashWins(st: State, e: Event) {
    && e.Read? && !Answered(st, e.r)
    && !e.r.ok && e.r.cashD2 > 0.0
    && PrevHoldings(st.snap, HoldingsOnFile(st), e.r.now) != []
    && st.snap.Some? && st.snap.value.cash > 0.0 && st.snap.value.cash != e.r.cashD2
  }

  predicate OldCashNeverWins(st: State, events: seq<Event>) {
    events == []
    || (OldCashNeverWins(st, events[..|events| - 1])
      && !OldCashWins(After(st, events[..|events| - 1]), events[|events| - 1]))
  }

  /** Memory and file agree, and what was last heard is what is cached and shown. */
  predicate CashInvariant(st: State, last: Option<real>) {
    && (st.settledMem.Some? ==> st.settledMem.value == st.settledDisk)
    && (last.Some? ==> last.value > 0.0 && SettledCache(st) == last.value)
    && (last.Some? && st.snap.Some? ==> st.snap.value.cash == last.value)
  }

  lemma ReadKeepsCash(st: State, last: Option<real>, e: Event)
    requires CashInvariant(st, last) && !OldCashWins(st, e)
    ensures CashInvariant(Apply(st, e), Heard(st, last, e))
    ensures ReportsLatest(st, last, e)
  {
  }

  lemma OldCashIsReported(st: State, last: Option<real>, e: Event)
    requires OldCashWins(st, e)
    ensures Apply(st, e).snap.value.cash == st.snap.value.cash
    ensures !ReportsLatest(st, last, e)
  {
  }

  lemma {:induction false} CashHolds(settled: real, file: HoldingsCache, events: seq<Event>)
    requires OldCashNeverWins(Cold(settled, file), events)
    ensures CashInvariant(After(Cold(settled, file), events), LastHeard(Cold(settled, file), OnFile(settled), events))
    ensures AllReportLatest(Cold(settled, file), OnFile(settled), events)
    decreases |events|
  {
    if events != [] {
      var init := events[..|events| - 1];
      CashHolds(settled, file, init);
      ReadKeepsCash(After(Cold(settled, file), init), LastHeard(Cold(settled, file), OnFile(settled), init),
                    events[|events| - 1]);
      hide CashInvariant;
      hide ReportsLatest;
      hide OldCashWins;
      hide Heard;
      hide Apply;
      hide Cold;
    }
  }

  /** Over any run of reads and restarts, every read reports the most recent positive D+2 (once there has been one)
      if and only if at no read the old cash wins over a D+2 in a failed answer. */
  lemma {:induction false} CashIsLatestIff(settled: real, file: HoldingsCache, events: seq<Event>)
    ensures AllReportLatest(Cold(settled, file), OnFile(settled), events)
      <==> OldCashNeverWins(Cold(settled, file), events)
    decreases |events|
  {
    if OldCashNeverWins(Cold(settled, file), events) {
      CashHolds(settled, file, events);
    } else {
      var init, e := events[..|events| - 1], events[|events| - 1];
      CashIsLatestIff(settled, file, init);
      if OldCashNeverWins(Cold(settled, file), init) {
        OldCashIsReported(After(Cold(settled, file), init), LastHeard(Cold(settled, file), OnFile(settled), init), e);
      }
      hide ReportsLatest;
      hide OldCashWins;
      hide Heard;
      hide Apply;
      hide Cold;
    }
  }

  /** In particular nothing can go wrong if failed reads bring no D+2. */
  lemma {:induction false} CleanFailuresSuffice(settled: real, file: HoldingsCache, events: seq<Event>)
    requires forall e | e in events && e.Read? :: e.r.ok || e.r.cashD2 <= 0.0
    ensures AllReportLatest(Cold(settled, file), OnFile(settled), events)
    decreases |events|
  {
    CleanNeverWins(Cold(settled, file), events);
    CashIsLatestIff(settled, file, events);
  }

  lemma {:induction false} CleanNeverWins(st: State, events: seq<Event>)
    requires forall e | e in events && e.Read? :: e.r.ok || e.r.cashD2 <= 0.0
    ensures OldCashNeverWins(st, events)
    decreases |events|
  {
    if events != [] {
      CleanNeverWins(st, events[..|events| - 1]);
      assert events[|events| - 1] in events;
    }
  }

  function SampleRead(now: real, ok: bool, cashD2: real): Event {
    Read(Reading(now, true, ok, cashD2, 0.0, 100.0, 0.0, [Holding("005930", 1, 90.0, 100.0)], 0.0))
  }

  /** Two reads suffice: the second fails on a later page, having brought a new D+2, and reports the old one. */
  lemma OldCashCanWin()
    ensures var events := [SampleRead(0.0, true, 1000.0), SampleRead(60.0, false, 900.0)];
      !AllReportLatest(Cold(0.0, NO_HOLDINGS), None, events)
  {
    var st, first, second := Cold(0.0, NO_HOLDINGS), SampleRead(0.0, true, 1000.0), SampleRead(60.0, false, 900.0);
    var events := [first, second];
    assert events[..1] == [first] && [first][..0] == [];
    var mid := Apply(st, first);
    assert After(st, [first]) == mid;
    SampleIsTaken(st, first);
    assert second.Read? && !Answered(mid, second.r) && second.r.cashD2 == 900.0 && !second.r.ok;
    hide SampleRead;
    hide Apply;
    hide Cold;
    OldCashIsReported(mid, LastHeard(st, None, [first]), second);
  }

  lemma SampleIsTaken(st: State, e: Event)
    requires st == Cold(0.0, NO_HOLDINGS) && e == SampleRead(0.0, true, 1000.0)
    ensures Apply(st, e).snap.Some? && Apply(st, e).snap.value.cash == 1000.0
    ensures HasHoldings(Apply(st, e).snap)
  {
    var r := e.r;
    assert Held(r.rows) == r.rows by {
      assert r.rows[..0] == [];
    }
    assert Apply(st, e).snap == Some(Fetched(st, r));
    assert CashOf(st, r) == 1000.0;
    hide Held;
    hide KrNetValuation;
    hide CashOf;
    hide TotalOf;
  }

  // ----- Holdings -----

  /** A list that is not empty, or an empty one that agrees with the total: the broker can be believed. */
  predicate Trusted(st: State, r: Reading) {
    r.ok && (Held(r.rows) != [] || Flat(st, r))
  }

  datatype Seen = Seen(holdings: seq<Holding>, ts: real)

  function Believed(st: State, last: Option<Seen>, e: Event): Option<Seen> {
    if e.Read? && !Answered(st, e.r) && Trusted(st, e.r) then Some(Seen(Held(e.r.rows), e.r.now)) else last
  }

  function LastBelieved(st: State, events: seq<Event>): Option<Seen> {
    if events == [] then None
    else Believed(After(st, events[..|events| - 1]), LastBelieved(st, events[..|events| - 1]), events[|events| - 1])
  }

  /** The holdings shown after a read are those of the last read that could be believed, once there is one. */
  predicate ShowsBelieved(st: State, last: Option<Seen>, e: Event) {
    e.Read? && Believed(st, last, e).Some? ==>
      Apply(st, e).snap.Some? && Apply(st, e).snap.value.holdings == Believed(st, last, e).value.holdings
  }

  predicate AllShowBelieved(st: State, events: seq<Event>) {
    events == []
    || (AllShowBelieved(st, events[..|events| - 1])
        && ShowsBelieved(After(st, events[..|events| - 1]), LastBelieved(st, events[..|events| - 1]),
                         events[|events| - 1]))
  }

  /** What a read that cannot be believed falls back on when there is no snapshot with holdings: the file if recent,
      else its own rows. */
  function Fallback(st: State, r: Reading): seq<Holding> {
    if IsRecent(HoldingsOnFile(st), r.now) then HoldingsOnFile(st).holdings else Held(r.rows)
  }

  /** A read that cannot be believed, no snapshot with holdings, and a file or rows that say something else than the
      last believed read. */
  predicate FallsBackWrongly(st: State, last: Option<Seen>, e: Event) {
    && e.Read? && !Answered(st, e.r) && !Trusted(st, e.r) && last.Some?
    && !HasHoldings(st.snap)
    && Fallback(st, e.r) != last.value.holdings
  }

  predicate NeverFallsBackWrongly(st: State, events: seq<Event>) {
    events == []
    || (NeverFallsBackWrongly(st, events[..|events| - 1])
        && !FallsBackWrongly(After(st, events[..|events| - 1]), LastBelieved(st, events[..|events| - 1]),
                             events[|events| - 1]))
  }

  predicate ShowsLast(st: State, last: Option<Seen>) {
    last.Some? && st.snap.Some? ==> st.snap.value.holdings == last.value.holdings
  }

  /** The holdings of a fresh snapshot. */
  lemma FetchedHoldings(st: State, r: Reading)
    ensures Fetched(st, r).holdings ==
      if Trusted(st, r) then Held(r.rows)
      else if HasHoldings(st.snap) then st.snap.value.holdings else Fallback(st, r)
  {
    hide Held;
    hide KrNetValuation;
    hide HoldingsOnFile;
    hide PrevTotal;
    hide PrevTotalOf;
    hide SettledCache;
  }

  lemma ReadShowsBelievedIff(st: State, last: Option<Seen>, e: Event)
    requires ShowsLast(st, last)
    ensures ShowsBelieved(st, last, e) <==> !FallsBackWrongly(st, last, e)
    ensures !FallsBackWrongly(st, last, e) ==> ShowsLast(Apply(st, e), Believed(st, last, e))
  {
    if e.Read? {
      FetchedHoldings(st, e.r);
      hide Fetched;
      hide Trusted;
      hide Fallback;
      hide Held;
    }
  }

  lemma {:induction false} ShowsLastHolds(settled: real, file: HoldingsCache, events: seq<Event>)
    requires NeverFallsBackWrongly(Cold(settled, file), events)
    ensures ShowsLast(After(Cold(settled, file), events), LastBelieved(Cold(settled, file), events))
    decreases |events|
  {
    if events != [] {
      var init := events[..|events| - 1];
      ShowsLastHolds(settled, file, init);
      ReadShowsBelievedIff(After(Cold(settled, file), init), LastBelieved(Cold(settled, file), init),
        events[|events| - 1]);
      hide ShowsLast;
      hide FallsBackWrongly;
      hide ShowsBelieved;
      hide Believed;
      hide Apply;
      hide Cold;
    }
  }

  /** Over any run of reads, restarts and drops, every read shows the holdings of the last read that could be believed
      (once there has been one) if and only if no read falls back on a file or on rows that say something else. */
  lemma {:induction false} HoldingsAreLastBelievedIff(settled: real, file: HoldingsCache, events: seq<Event>)
    ensures AllShowBelieved(Cold(settled, file), events) <==> NeverFallsBackWrongly(Cold(settled, file), events)
    decreases |events|
  {
    if events != [] {
      var init, e := events[..|events| - 1], events[|events| - 1];
      HoldingsAreLastBelievedIff(settled, file, init);
      if NeverFallsBackWrongly(Cold(settled, file), init) {
        ShowsLastHolds(settled, file, init);
        ReadShowsBelievedIff(After(Cold(settled, file), init), LastBelieved(Cold(settled, file), init), e);
      }
      hide ShowsLast;
      hide FallsBackWrongly;
      hide ShowsBelieved;
      hide Believed;
      hide Apply;
      hide Cold;
    }
  }

  // ----- How the file goes wrong -----

  /** A failed read brought rows, since the last believed read: they have replaced the file. */
  function Overwritten(st: State, events: seq<Event>): bool {
    if events == [] then false
    else
      var before, e := After(st, events[..|events| - 1]), events[|events| - 1];
      if e.Read? && !Answered(before, e.r) then
        !Trusted(before, e.r) && (Held(e.r.rows) != [] || Overwritten(st, events[..|events| - 1]))
      else Overwritten(st, events[..|events| - 1])
  }

  /** Unless overwritten, the file holds what the last believed read brought. */
  predicate FileInvariant(st: State, last: Option<Seen>, overwritten: bool) {
    && (st.holdingsMem.Some? ==> st.holdingsMem.value == st.holdingsDisk)
    && (last.Some? && !overwritten ==>
          && HoldingsOnFile(st).holdings == last.value.holdings
          && (last.value.holdings != [] ==> HoldingsOnFile(st).ts == last.value.ts))
  }

  lemma {:induction false} FileIsLastBelieved(settled: real, file: HoldingsCache, events: seq<Event>)
    ensures FileInvariant(After(Cold(settled, file), events), LastBelieved(Cold(settled, file), events),
                          Overwritten(Cold(settled, file), events))
    decreases |events|
  {
    if events != [] {
      var init, e := events[..|events| - 1], events[|events| - 1];
      FileIsLastBelieved(settled, file, init);
      EventKeepsFile(After(Cold(settled, file), init), LastBelieved(Cold(settled, file), init),
                     Overwritten(Cold(settled, file), init), e);
      hide FileInvariant;
      hide Believed;
      hide Apply;
      hide Cold;
      hide Trusted;
    }
  }

  lemma EventKeepsFile(st: State, last: Option<Seen>, overwritten: bool, e: Event)
    requires FileInvariant(st, last, overwritten)
    ensures FileInvariant(Apply(st, e), Believed(st, last, e),
      if e.Read? && !Answered(st, e.r) then !Trusted(st, e.r) && (Held(e.r.rows) != [] || overwritten) else overwritten)
  {
    hide Fetched;
    hide Held;
    hide Flat;
  }

  /** Failed reads come back empty, and the last believed holdings are not older than the file's lifetime. */
  predicate Timely(st: State, last: Option<Seen>, e: Event) {
    e.Read? && !Answered(st, e.r) ==>
      && (!e.r.ok ==> Held(e.r.rows) == [])
      && (last.Some? ==> e.r.now - last.value.ts < HOLDINGS_CACHE_TTL)
  }

  predicate AllTimely(st: State, events: seq<Event>) {
    events == []
    || (AllTimely(st, events[..|events| - 1])
        && Timely(After(st, events[..|events| - 1]), LastBelieved(st, events[..|events| - 1]), events[|events| - 1]))
  }

  lemma {:induction false} TimelyIsNotOverwritten(settled: real, file: HoldingsCache, events: seq<Event>)
    requires AllTimely(Cold(settled, file), events)
    ensures !Overwritten(Cold(settled, file), events)
    decreases |events|
  {
    if events != [] {
      TimelyIsNotOverwritten(settled, file, events[..|events| - 1]);
      hide Cold;
      hide Held;
      hide Flat;
    }
  }

  lemma FallbackOfFile(st: State, last: Option<Seen>, overwritten: bool, e: Event)
    requires FileInvariant(st, last, overwritten) && FallsBackWrongly(st, last, e)
    ensures overwritten || !Timely(st, last, e)
  {
    hide Held;
    hide Flat;
  }

  /** Nothing else leads a read astray than rows that an earlier failed read left on file, rows of its own, or the age
      of the file. */
  lemma WrongFallbackHasCause(settled: real, file: HoldingsCache, events: seq<Event>, e: Event)
    requires FallsBackWrongly(After(Cold(settled, file), events), LastBelieved(Cold(settled, file), events), e)
    ensures Overwritten(Cold(settled, file), events)
      || (!e.r.ok && Held(e.r.rows) != [])
      || e.r.now - LastBelieved(Cold(settled, file), events).value.ts >= HOLDINGS_CACHE_TTL
  {
    var st, last := After(Cold(settled, file), events), LastBelieved(Cold(settled, file), events);
    FileIsLastBelieved(settled, file, events);
    hide Cold;
    FallbackOfFile(st, last, Overwritten(Cold(settled, file), events), e);
    hide FileInvariant;
    hide Held;
  }

  /** In particular always, if failed reads bring no rows and none comes later than the file's lifetime. */
  lemma {:induction false} EmptyFailuresSuffice(settled: real, file: HoldingsCache, events: seq<Event>)
    requires AllTimely(Cold(settled, file), events)
    ensures NeverFallsBackWrongly(Cold(settled, file), events)
    ensures AllShowBelieved(Cold(settled, file), events)
    decreases |events|
  {
    HoldingsAreLastBelievedIff(settled, file, events);
    if events != [] {
      var init := events[..|events| - 1];
      EmptyFailuresSuffice(settled, file, init);
      FileIsLastBelieved(settled, file, init);
      TimelyIsNotOverwritten(settled, file, init);
      if FallsBackWrongly(After(Cold(settled, file), init), LastBelieved(Cold(settled, file), init),
        events[|events| - 1]) {
        FallbackOfFile(After(Cold(settled, file), init), LastBelieved(Cold(settled, file), init), false,
                       events[|events| - 1]);
      }
      hide FileInvariant;
      hide FallsBackWrongly;
      hide Timely;
      hide AllShowBelieved;
      hide Cold;
    }
  }

  // ----- Two failed reads -----

  function RowsRead(now: real, ok: bool, rows: seq<Holding>): Reading {
    Reading(now, true, ok, 1000.0, 0.0, 500.0, 0.0, rows, 0.0)
  }

  const FIRST: Holding := Holding("005930", 1, 90.0, 100.0)
  const SECOND: Holding := Holding("000660", 2, 180.0, 200.0)

  /** Two positions are read; a read fails after the first page and its one row replaces the file; the snapshot is
      dropped; the next failed read shows that one position. */
  lemma PartialReadLosesPosition()
    ensures var events := [Read(RowsRead(0.0, true, [FIRST, SECOND])), Read(RowsRead(300.0, false, [FIRST])), Drop,
                           Read(RowsRead(600.0, false, []))];
      && LastBelieved(Cold(0.0, NO_HOLDINGS), events) == Some(Seen([FIRST, SECOND], 0.0))
      && After(Cold(0.0, NO_HOLDINGS), events).snap.Some?
      && After(Cold(0.0, NO_HOLDINGS), events).snap.value.holdings == [FIRST]
      && !AllShowBelieved(Cold(0.0, NO_HOLDINGS), events)
  {
    var st := Cold(0.0, NO_HOLDINGS);
    var good, part := RowsRead(0.0, true, [FIRST, SECOND]), RowsRead(300.0, false, [FIRST]);
    var empty := RowsRead(600.0, false, []);
    var e1, e2, e3, e4 := Read(good), Read(part), Drop, Read(empty);
    var events := [e1, e2, e3, e4];
    assert events[..3] == [e1, e2, e3] && [e1, e2, e3][..2] == [e1, e2] && [e1, e2][..1] == [e1] && [e1][..0] == [];
    HeldRows();
    FetchedHoldings(st, good);
    var s1 := After(st, [e1]);
    assert s1 == Apply(st, e1) && s1.snap.value.holdings == [FIRST, SECOND];
    assert Trusted(st, good);
    assert LastBelieved(st, [e1]) == Some(Seen([FIRST, SECOND], 0.0));
    var s2 := After(st, [e1, e2]);
    assert s2 == Apply(s1, e2);
    assert HoldingsOnFile(s2).holdings == [FIRST] && HoldingsOnFile(s2).ts == 300.0;
    var s3 := After(st, [e1, e2, e3]);
    assert s3 == s2.(snap := None);
    FetchedHoldings(s3, empty);
    assert After(st, events) == Apply(s3, e4);
    hide Fetched;
    assert LastBelieved(st, [e1, e2]) == LastBelieved(st, [e1]);
    assert LastBelieved(st, [e1, e2, e3]) == LastBelieved(st, [e1]);
  }

  lemma HeldRows()
    ensures Held([]) == [] && Held([FIRST]) == [FIRST] && Held([FIRST, SECOND]) == [FIRST, SECOND]
  {
    assert [FIRST][..0] == [] && [FIRST, SECOND][..1] == [FIRST];
  }

  // ----- Freshness -----

  /** A call leaves a snapshot that is its own read's or, unless it insists on one, less than eight seconds old; and
      within these eight seconds it changes nothing. */
  lemma CallIsFresh(st: State, r: Reading)
    ensures var after := Apply(st, Read(r));
      && after.snap.Some?
      && (after.snap.value.ts == r.now || (!r.force && after == st && r.now - after.snap.value.ts < 8.0))
      && (!r.force && st.snap.Some? && r.now - st.snap.value.ts < 8.0 ==> after == st)
  {
    hide Held;
    hide KrNetValuation;
    hide PrevHoldings;
    hide PrevTotal;
  }

  /** Cash once reported survives an answer without any: it is reported again until there is other cash. */
  lemma CashSurvivesZeros(st: State, r: Reading)
    requires r.ok && st.snap.Some? && st.snap.value.cash > 0.0
    ensures Fetched(st, r).cash == if CashOf(st, r) > 0.0 then CashOf(st, r) else st.snap.value.cash
    ensures Fetched(st, r).cash > 0.0
  {
    hide Held;
    hide KrNetValuation;
    hide CashOf;
    hide TotalOf;
    hide PrevHoldings;
    hide PrevTotal;
  }

  // ----- The total -----

  /** No cash can be made out although the broker answered, and there is an earlier snapshot. */
  predicate CashGone(st: State, r: Reading) {
    r.ok && st.snap.Some? && CashOf(st, r) <= 0.0
  }

  /** The list that was read is not believed, and there is an earlier one. */
  predicate ListGone(st: State, r: Reading) {
    && PrevHoldings(st.snap, HoldingsOnFile(st), r.now) != []
    && (!r.ok || (Held(r.rows) == [] && !Flat(st, r)))
  }

  /** The domestic total to fall back on: that of the last snapshot, or after a restart the file's. */
  function FallbackTotal(st: State, r: Reading, last: real): real {
    if last > 0.0 || HasHoldings(st.snap) || !IsRecent(HoldingsOnFile(st), r.now) then last
    else HoldingsOnFile(st).total
  }

  /** The domestic total to believe after a read, when the last one believed was `last`: the read's securities and
      settled cash, unless the cash or the list is gone and there is a total to fall back on. */
  function DomesticOf(st: State, r: Reading, last: real): real {
    if CashGone(st, r) && last > 0.0 then last
    else if ListGone(st, r) && FallbackTotal(st, r, last) > 0.0 then FallbackTotal(st, r, last)
    else r.securities + CashOf(st, r)
  }

  function NextDomestic(st: State, last: real, e: Event): real {
    match e
    case Read(r) => if Answered(st, r) then last else DomesticOf(st, r, last)
    case Restart => 0.0
    case Drop => 0.0
  }

  /** The domestic total believed after some events, zero without a snapshot. */
  function LastDomestic(st: State, events: seq<Event>): real {
    if events == [] then 0.0
    else
      var init := events[..|events| - 1];
      NextDomestic(After(st, init), LastDomestic(st, init), events[|events| - 1])
  }

  /** A fresh read reports the domestic total to believe, plus the overseas value of that read once. */
  predicate TotalIsRight(st: State, last: real, e: Event) {
    e.Read? && !Answered(st, e.r) ==>
      && Apply(st, e).snap.Some?
      && Apply(st, e).snap.value.totalEval == DomesticOf(st, e.r, last) + Max(0.0, e.r.overseas)
  }

  predicate AllTotalsRight(st: State, events: seq<Event>) {
    events == []
    || (AllTotalsRight(st, events[..|events| - 1])
        && TotalIsRight(After(st, events[..|events| - 1]), LastDomestic(st, events[..|events| - 1]),
                        events[|events| - 1]))
  }

  /** A total is carried over from a snapshot without any domestic total but with an overseas value, which is not by
      chance what is to be believed. */
  predicate CountsOverseasTwice(st: State, e: Event) {
    && e.Read? && !Answered(st, e.r) && (CashGone(st, e.r) || ListGone(st, e.r))
    && st.snap.Some? && st.snap.value.totalKr == 0.0 && st.snap.value.totalEval > 0.0
    && DomesticOf(st, e.r, 0.0) != st.snap.value.totalEval
  }

  predicate NeverCountsOverseasTwice(st: State, events: seq<Event>) {
    events == []
    || (NeverCountsOverseasTwice(st, events[..|events| - 1])
        && !CountsOverseasTwice(After(st, events[..|events| - 1]), events[|events| - 1]))
  }

  /** The snapshot's domestic total is the one believed, and the rest of its total is not negative. */
  predicate TotalInvariant(st: State, last: real) {
    if st.snap.Some? then st.snap.value.totalKr == last && st.snap.value.totalEval >= last else last == 0.0
  }

  /** Whatever was read before: the total is the domestic one plus what the overseas account is worth, once. */
  lemma OverseasOnTop(st: State, r: Reading)
    ensures Fetched(st, r).totalEval == Fetched(st, r).totalKr + Max(0.0, r.overseas)
  {
    hide Held;
    hide KrNetValuation;
  }

  lemma DomesticOfFetched(st: State, r: Reading)
    ensures Fetched(st, r).totalKr == DomesticOf(st, r, PrevTotalOf(st.snap))
  {
    TotalIs(st, r);
    hide Held;
    hide KrNetValuation;
    hide HoldingsOnFile;
    hide TotalOf;
    hide CashOf;
  }

  lemma TotalIs(st: State, r: Reading)
    ensures TotalOf(st, r) == r.securities + CashOf(st, r)
  {
  }

  /** The profit ratio is the read's profit over its own domestic total. */
  lemma RatioIsOfOwnTotal(st: State, r: Reading)
    ensures var s := Fetched(st, r); var total := r.securities + CashOf(st, r);
      && s.ok == r.ok && s.ts == r.now
      && (if total > 0.0 then Mul(s.pnlRatio, total) == r.pnl else s.pnlRatio == 0.0)
  {
    TotalIs(st, r);
    assert Fetched(st, r).pnlRatio == Plain(st, r).pnlRatio;
    hide Fetched;
    hide CashOf;
    hide Held;
    if TotalOf(st, r) > 0.0 {
      MulQuotient(r.pnl, TotalOf(st, r));
    }
    hide TotalOf;
    hide Mul;
  }

  /** What is held is every row with shares, in its order. */
  lemma {:induction false} HeldIsPositive(rows: seq<Holding>, h: Holding)
    ensures h in Held(rows) <==> h in rows && h.qty >= 1
  {
    if rows != [] {
      HeldIsPositive(rows[..|rows| - 1], h);
      assert rows == rows[..|rows| - 1] + [rows[|rows| - 1]];
    }
  }

  /** A read with cash and a believed list reports its own securities and settled cash. */
  lemma OwnTotal(st: State, r: Reading)
    requires !CashGone(st, r) && !ListGone(st, r)
    ensures Fetched(st, r).totalKr == r.securities + CashOf(st, r)
  {
    DomesticOfFetched(st, r);
    hide Fetched;
    hide CashGone;
    hide ListGone;
    hide CashOf;
  }

  /** With another total to fall back on, the domestic total differs exactly if one of them is carried over. */
  lemma FallbackMatters(st: State, r: Reading, seen: real)
    requires seen > 0.0
    ensures DomesticOf(st, r, seen) == if CashGone(st, r) || ListGone(st, r) then seen else r.securities + CashOf(st, r)
    ensures !(CashGone(st, r) || ListGone(st, r)) ==> DomesticOf(st, r, 0.0) == r.securities + CashOf(st, r)
  {
    hide CashGone;
    hide ListGone;
    hide CashOf;
    hide HoldingsOnFile;
  }

  lemma ReadTotalIff(st: State, last: real, e: Event)
    requires TotalInvariant(st, last)
    ensures TotalIsRight(st, last, e) <==> !CountsOverseasTwice(st, e)
  {
    if e.Read? && !Answered(st, e.r) {
      var r := e.r;
      assert Apply(st, e).snap == Some(Fetched(st, r));
      OverseasOnTop(st, r);
      DomesticOfFetched(st, r);
      if st.snap.Some? && st.snap.value.totalKr == 0.0 && st.snap.value.totalEval > 0.0 {
        FallbackMatters(st, r, st.snap.value.totalEval);
      } else {
        assert PrevTotalOf(st.snap) == last;
      }
      hide Fetched;
      hide DomesticOf;
      hide CashGone;
      hide ListGone;
      hide Apply;
    }
  }

  lemma EventKeepsTotal(st: State, last: real, e: Event)
    requires TotalInvariant(st, last) && !CountsOverseasTwice(st, e)
    ensures TotalInvariant(Apply(st, e), NextDomestic(st, last, e))
  {
    ReadTotalIff(st, last, e);
    if e.Read? && !Answered(st, e.r) {
      OverseasOnTop(st, e.r);
      hide Fetched;
      hide DomesticOf;
    }
  }

  lemma {:induction false} TotalHolds(settled: real, file: HoldingsCache, events: seq<Event>)
    requires NeverCountsOverseasTwice(Cold(settled, file), events)
    ensures TotalInvariant(After(Cold(settled, file), events), LastDomestic(Cold(settled, file), events))
    decreases |events|
  {
    if events != [] {
      var init, e := events[..|events| - 1], events[|events| - 1];
      TotalHolds(settled, file, init);
      EventKeepsTotal(After(Cold(settled, file), init), LastDomestic(Cold(settled, file), init), e);
      hide TotalInvariant;
      hide CountsOverseasTwice;
      hide DomesticOf;
      hide Apply;
      hide Cold;
    }
  }

  /** Over any run of reads, restarts and drops, every fresh read reports the domestic total to believe plus its
      overseas value, lost never and counted once, if and only if none carries over a total from a snapshot that had an
      overseas value only. */
  lemma {:induction false} TotalsAreRightIff(settled: real, file: HoldingsCache, events: seq<Event>)
    ensures AllTotalsRight(Cold(settled, file), events) <==> NeverCountsOverseasTwice(Cold(settled, file), events)
    decreases |events|
  {
    if events != [] {
      var init, e := events[..|events| - 1], events[|events| - 1];
      TotalsAreRightIff(settled, file, init);
      if NeverCountsOverseasTwice(Cold(settled, file), init) {
        TotalHolds(settled, file, init);
        ReadTotalIff(After(Cold(settled, file), init), LastDomestic(Cold(settled, file), init), e);
      }
      hide TotalInvariant;
      hide TotalIsRight;
      hide CountsOverseasTwice;
      hide Apply;
      hide Cold;
    }
  }

  /** A good first read with an overseas value of 300 over 500 in securities and 1000 in cash. */
  lemma FirstTotal()
    ensures var r := Reading(0.0, true, true, 1000.0, 0.0, 500.0, 0.0, [FIRST], 300.0);
      Fetched(Cold(0.0, NO_HOLDINGS), r).totalEval == 1800.0 && Fetched(Cold(0.0, NO_HOLDINGS), r).totalKr == 1500.0
  {
    var st, r := Cold(0.0, NO_HOLDINGS), Reading(0.0, true, true, 1000.0, 0.0, 500.0, 0.0, [FIRST], 300.0);
    OwnTotal(st, r);
    OverseasOnTop(st, r);
    hide Fetched;
  }

  function OverseasOnly(now: real): Reading {
    Reading(now, true, true, 0.0, 0.0, 0.0, 0.0, [], 300.0)
  }

  /** An account with nothing but 300 overseas: the second read reports 600. */
  lemma OverseasIsDoubled()
    ensures var events := [Read(OverseasOnly(0.0)), Read(OverseasOnly(60.0))]; var st := Cold(0.0, NO_HOLDINGS);
      && After(st, events).snap.Some? && After(st, events).snap.value.totalEval == 600.0
      && !AllTotalsRight(st, events)
  {
    hide *;
    var st, first, second := Cold(0.0, NO_HOLDINGS), Read(OverseasOnly(0.0)), Read(OverseasOnly(60.0));
    assert [] + [first] == [first] && [first] + [second] == [first, second];
    AfterNothing(st);
    OneMoreEvent(st, [], first);
    OneMoreEvent(st, [first], second);
    OverseasFirst(st);
    OverseasSecond(After(st, [first]));
    TotalsAreRightIff(0.0, NO_HOLDINGS, [first, second]);
    NotNever(st, [first], second);
  }

  lemma AfterNothing(st: State)
    ensures After(st, []) == st
  {
  }

  lemma OneMoreEvent(st: State, events: seq<Event>, e: Event)
    ensures After(st, events + [e]) == Apply(After(st, events), e)
  {
    assert (events + [e])[..|events|] == events;
    hide Apply;
  }

  lemma NotNever(st: State, events: seq<Event>, e: Event)
    requires CountsOverseasTwice(After(st, events), e)
    ensures !NeverCountsOverseasTwice(st, events + [e])
  {
    assert (events + [e])[..|events|] == events;
  }

  lemma OverseasFirst(st: State)
    requires st == Cold(0.0, NO_HOLDINGS)
    ensures var mid := Apply(st, Read(OverseasOnly(0.0)));
      mid.snap.Some? && mid.snap.value.totalKr == 0.0 && mid.snap.value.totalEval == 300.0 && SettledCache(mid) <= 0.0
  {
    OwnTotal(st, OverseasOnly(0.0));
    OverseasOnTop(st, OverseasOnly(0.0));
    hide Fetched;
  }

  lemma OverseasSecond(mid: State)
    requires mid.snap.Some? && mid.snap.value.totalKr == 0.0 && mid.snap.value.totalEval == 300.0
    requires SettledCache(mid) <= 0.0
    ensures Apply(mid, Read(OverseasOnly(60.0))).snap.Some?
    ensures Apply(mid, Read(OverseasOnly(60.0))).snap.value.totalEval == 600.0
    ensures CountsOverseasTwice(mid, Read(OverseasOnly(60.0)))
  {
  }
}
