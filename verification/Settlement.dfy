/** Unsettled dollar sales (infra/trade_ledger.py): business days after the trade, and the net sales still to settle. */
module Settlement {
  import opened Common

  /** Days are numbered from some Monday. */
  function Weekday(d: int): int {
    d % 7
  }

  predicate IsBusinessDay(d: int) {
    Weekday(d) < 5
  }

  const SETTLEMENT_DAYS: nat := 2
  const QUERY_DAYS: int := 8

  // ----- Business days -----

  /** The business days after d, up to and including e. */
  function BusinessDaysAfter(d: int, e: int): nat
    decreases e - d
  {
    if e <= d then 0 else BusinessDaysAfter(d, e - 1) + if IsBusinessDay(e) then 1 else 0
  }

  lemma {:induction false} DaysGrow(d: int, e: int, f: int)
    requires e <= f
    ensures BusinessDaysAfter(d, e) <= BusinessDaysAfter(d, f)
    decreases f - e
  {
    if e < f {
      DaysGrow(d, e, f - 1);
    }
  }

  /** Steps over weekends until n business days have passed. */
  method AddBusinessDays(d: int, n: nat) returns (e: int)
    ensures e >= d && BusinessDaysAfter(d, e) == n
    ensures n > 0 ==> IsBusinessDay(e)
  {
    e := d;
    var left := n;
    assert BusinessDaysAfter(d, d) == 0;
    hide BusinessDaysAfter;
    while left > 0
      invariant 0 <= left && e >= d && BusinessDaysAfter(d, e) + left == n
      invariant left == 0 && n > 0 ==> IsBusinessDay(e)
      decreases 7 * left + (if Weekday(e) == 4 then 2 else if Weekday(e) == 5 then 1 else 0)
    {
      NextDay(d, e);
      e := e + 1;
      if IsBusinessDay(e) {
        left := left - 1;
      }
    }
  }

  /** A day reached by adding n business days is determined by its own description. */
  lemma AddedDayIsUnique(d: int, e: int, f: int)
    requires e > d && f > d && IsBusinessDay(e) && IsBusinessDay(f)
    requires BusinessDaysAfter(d, e) == BusinessDaysAfter(d, f)
    ensures e == f
  {
    if e < f {
      DaysGrow(d, e, f - 1);
    } else if f < e {
      DaysGrow(d, f, e - 1);
    }
  }

  /** A trade is settled once enough business days have passed. */
  predicate Unsettled(traded: int, today: int) {
    BusinessDaysAfter(traded, today) < SETTLEMENT_DAYS
  }

  /** The settlement day lies ahead exactly while fewer than two business days have passed since the trade. */
  lemma SettlementAhead(traded: int, settles: int, today: int)
    requires settles > traded && IsBusinessDay(settles) && BusinessDaysAfter(traded, settles) == SETTLEMENT_DAYS
    ensures settles > today <==> Unsettled(traded, today)
  {
    if settles > today {
      DaysGrow(traded, today, settles - 1);
    } else {
      DaysGrow(traded, settles, today);
    }
  }

  lemma NextDay(d: int, e: int)
    requires e >= d
    ensures BusinessDaysAfter(d, e + 1) == BusinessDaysAfter(d, e) + if IsBusinessDay(e + 1) then 1 else 0
  {
  }

  lemma FourDaysSettle(traded: int)
    ensures BusinessDaysAfter(traded, traded + 4) >= SETTLEMENT_DAYS
  {
    NextDay(traded, traded);
    NextDay(traded, traded + 1);
    NextDay(traded, traded + 2);
    NextDay(traded, traded + 3);
  }

  /** No unsettled trade is older than three days, so the eight days that are asked for miss none. */
  lemma WindowSuffices(traded: int, today: int)
    requires Unsettled(traded, today)
    ensures today - traded <= 3 < QUERY_DAYS
  {
    if today - traded >= 4 {
      FourDaysSettle(traded);
      DaysGrow(traded, traded + 4, today);
    }
  }

  /** Any seven days have five business days, Saturdays and Sundays being none: a Friday's trade settles on the Tuesday
      after, a Monday's on the Wednesday. */
  lemma WeekHasFive(d: int)
    ensures BusinessDaysAfter(d, d + 7) == 5
    ensures d % 7 == 5 || d % 7 == 6 ==> BusinessDaysAfter(d - 1, d) == 0
    ensures d % 7 == 4 ==> BusinessDaysAfter(d, d + 4) == 2 && BusinessDaysAfter(d, d + 3) == 1
    ensures d % 7 == 0 ==> BusinessDaysAfter(d, d + 2) == 2 && BusinessDaysAfter(d, d + 1) == 1
  {
    assert BusinessDaysAfter(d, d) == 0 && BusinessDaysAfter(d - 1, d - 1) == 0;
    hide *;
    DayOfWeek(d, 0);
    DayOfWeek(d, 1);
    DayOfWeek(d, 2);
    DayOfWeek(d, 3);
    DayOfWeek(d, 4);
    DayOfWeek(d, 5);
    DayOfWeek(d, 6);
    DayOfWeek(d, 7);
    NextDay(d, d);
    NextDay(d, d + 1);
    NextDay(d, d + 2);
    NextDay(d, d + 3);
    NextDay(d, d + 4);
    NextDay(d, d + 5);
    NextDay(d, d + 6);
    NextDay(d - 1, d - 1);
  }

  /** Whether a day not more than a week later is a business day, by the day of the week. */
  lemma DayOfWeek(d: int, k: int)
    requires 0 <= k <= 7
    ensures IsBusinessDay(d + k) <==> (d % 7 + k) % 7 < 5
    ensures 0 <= d % 7 < 7
  {
    var q, r := d / 7, d % 7;
    assert d + k == 7 * q + (r + k);
    if r + k >= 7 {
      assert d + k == 7 * (q + 1) + (r + k - 7);
    }
  }

  // ----- Pending sales -----

  /** A fill as the broker lists it: its date as text, its amount, and what kind it is. */
  datatype Fill = Fill(date: string, dollars: bool, sell: bool, amount: real)

  predicate Counts(f: Fill) {
    f.dollars && f.amount > 0.0
  }

  function Signed(f: Fill): real {
    if f.sell then f.amount else -f.amount
  }

  /** The net sales by date. */
  function NetByDate(fills: seq<Fill>): map<string, real> {
    if fills == [] then map[]
    else
      var f, nets := fills[|fills| - 1], NetByDate(fills[..|fills| - 1]);
      if Counts(f) then nets[f.date := (if f.date in nets then nets[f.date] else 0.0) + Signed(f)] else nets
  }

  /** What a date contributes: a net sale that has not settled; a date that is not one contributes nothing. */
  function Part(days: map<string, int>, today: int, date: string, net: real): real {
    if date in days && Unsettled(days[date], today) && net > 0.0 then net else 0.0
  }

  function Parts(days: map<string, int>, today: int, nets: map<string, real>): map<string, real> {
    map date | date in nets :: Part(days, today, date, nets[date])
  }

  ghost function Pending(days: map<string, int>, today: int, fills: seq<Fill>): real {
    SumMap(Parts(days, today, NetByDate(fills)))
  }

  method NetSales(fills: seq<Fill>) returns (nets: map<string, real>)
    ensures nets == NetByDate(fills)
  {
    nets := map[];
    for i := 0 to |fills|
      invariant nets == NetByDate(fills[..i])
    {
      assert fills[..i + 1][..i] == fills[..i];
      var f := fills[i];
      if !f.dollars || f.amount <= 0.0 {
        continue;
      }
      nets := nets[f.date := (if f.date in nets then nets[f.date] else 0.0) + Signed(f)];
    }
    assert fills[..|fills|] == fills;
  }

  /** The unsettled net sales, date by date. `days` gives the day of every text that is a date. */
  method PendingUsdFromFills(days: map<string, int>, today: int, fills: seq<Fill>) returns (pending: real)
    ensures pending == Pending(days, today, fills)
  {
    var nets := NetSales(fills);
    ghost var parts := Parts(days, today, nets);
    var todo := nets.Keys;
    pending := 0.0;
    SumMapAll(parts);
    while todo != {}
      invariant todo <= nets.Keys && pending == SumMap(parts - todo)
      decreases |todo|
    {
      var date :| date in todo;
      SumMapStep(parts, todo, date);
      if date in days {
        var settles := AddBusinessDays(days[date], SETTLEMENT_DAYS);
        SettlementAhead(days[date], settles, today);
        if settles > today && nets[date] > 0.0 {
          pending := pending + nets[date];
        }
      }
      todo := todo - {date};
    }
  }

  lemma PartsAfterPut(days: map<string, int>, today: int, nets: map<string, real>, date: string, net: real)
    ensures Parts(days, today, nets[date := net]) == Parts(days, today, nets)[date := Part(days, today, date, net)]
  {
    hide Part;
  }

  lemma SumAfterPut(days: map<string, int>, today: int, nets: map<string, real>, date: string, net: real)
    ensures SumMap(Parts(days, today, nets[date := net])) == SumMap(Parts(days, today, nets))
      - Part(days, today, date, if date in nets then nets[date] else 0.0) + Part(days, today, date, net)
  {
    assert Part(days, today, date, 0.0) == 0.0;
    hide Part;
    PartsAfterPut(days, today, nets, date, net);
    SumMapPut(Parts(days, today, nets), date, Part(days, today, date, net));
    hide SumMap;
  }

  /** One more fill changes the sum by what it changes in its own date's part, whatever else was filled. */
  lemma OneMoreFill(days: map<string, int>, today: int, fills: seq<Fill>, f: Fill)
    requires Counts(f)
    ensures var nets := NetByDate(fills); var net := if f.date in nets then nets[f.date] else 0.0;
      Pending(days, today, fills + [f]) == Pending(days, today, fills)
        - Part(days, today, f.date, net) + Part(days, today, f.date, net + Signed(f))
  {
    hide *;
    var nets := NetByDate(fills);
    var net := if f.date in nets then nets[f.date] else 0.0;
    NetAfterFill(fills, f);
    PendingIs(days, today, fills);
    PendingIs(days, today, fills + [f]);
    SumAfterPut(days, today, nets, f.date, net + Signed(f));
  }

  lemma NetAfterFill(fills: seq<Fill>, f: Fill)
    requires Counts(f)
    ensures var nets := NetByDate(fills);
      NetByDate(fills + [f]) == nets[f.date := (if f.date in nets then nets[f.date] else 0.0) + Signed(f)]
  {
    hide Counts;
    hide Signed;
    assert (fills + [f])[..|fills|] == fills;
  }

  lemma PendingIs(days: map<string, int>, today: int, fills: seq<Fill>)
    ensures Pending(days, today, fills) == SumMap(Parts(days, today, NetByDate(fills)))
  {
  }

  /** Fills of settled dates, of texts that are no date, and in other currencies do not matter. */
  lemma SettledFillsDoNotMatter(days: map<string, int>, today: int, fills: seq<Fill>, f: Fill)
    requires Counts(f) ==> f.date !in days || !Unsettled(days[f.date], today)
    ensures Pending(days, today, fills + [f]) == Pending(days, today, fills)
  {
    if Counts(f) {
      OneMoreFill(days, today, fills, f);
      hide Unsettled;
    } else {
      assert (fills + [f])[..|fills|] == fills;
    }
  }

  /** A single fill is pending with its amount exactly if it is a sale in dollars of something, on a date of which fewer
      than two business days have passed; otherwise nothing is. */
  lemma OneFill(days: map<string, int>, today: int, f: Fill)
    ensures Pending(days, today, [f])
      == if f.dollars && f.sell && f.amount > 0.0 && f.date in days && BusinessDaysAfter(days[f.date], today) < 2
         then f.amount else 0.0
  {
    assert [f][..0] == [] && NetByDate([]) == map[];
    hide BusinessDaysAfter;
    var nets := NetByDate([f]);
    if f.dollars && f.amount > 0.0 {
      assert nets == map[f.date := Signed(f)];
      var part := Part(days, today, f.date, Signed(f));
      assert Parts(days, today, nets) == map[f.date := part];
      SumMapRemove(map[f.date := part], f.date);
      assert map[f.date := part] - {f.date} == map[];
      assert SumMap(map[]) == 0.0;
    } else {
      assert Parts(days, today, nets) == map[];
    }
    hide SumMap;
  }
}
