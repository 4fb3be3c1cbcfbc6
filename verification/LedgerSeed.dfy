/** Starting the fill ledger from a broker snapshot, and comparing the two later (infra/trade_ledger.py). */
module LedgerSeed {
  import opened Common
  import T = TradeLedger

  /** A holding in a broker snapshot; `live` is the separately looked-up dollar price, zero if there is none. */
  datatype Row = Row(code: string, qty: int, dollars: bool, avg: real, cur: real, live: real)

  function CcyOf(r: Row): T.Ccy {
    if r.dollars || !IsKrCode(r.code) then T.USD else T.KRW
  }

  /** On a mock account the broker's dollar prices are not to be trusted. */
  predicate UsesLive(r: Row, mock: bool) {
    CcyOf(r) == T.USD && mock && r.live > 0.0
  }

  function CurOf(r: Row, mock: bool): real {
    if UsesLive(r, mock) then r.live else r.cur
  }

  function AvgOf(r: Row, mock: bool): real {
    var avg := if UsesLive(r, mock) then r.live else r.avg;
    if avg <= 0.0 then CurOf(r, mock) else avg
  }

  predicate IsApprox(r: Row, mock: bool) {
    UsesLive(r, mock) || r.avg <= 0.0
  }

  /** A row becomes a position unless it is empty or has no price at all. */
  predicate Admitted(r: Row, mock: bool) {
    r.code != [] && r.qty > 0 && (AvgOf(r, mock) > 0.0 || CurOf(r, mock) > 0.0)
  }

  function PositionFor(r: Row, mock: bool): T.Position {
    var avg, cur := AvgOf(r, mock), CurOf(r, mock);
    T.Position(r.qty, avg, CcyOf(r), T.FirstNonZero(cur, avg), IsApprox(r, mock))
  }

  function Seeded(rows: seq<Row>, mock: bool): map<string, T.Position> {
    if rows == [] then map[]
    else
      var r, before := rows[|rows| - 1], Seeded(rows[..|rows| - 1], mock);
      if Admitted(r, mock) then before[r.code := PositionFor(r, mock)] else before
  }

  /** The positions a snapshot is turned into. */
  method SeedPositions(rows: seq<Row>, mock: bool) returns (positions: map<string, T.Position>)
    ensures positions == Seeded(rows, mock)
  {
    positions := map[];
    for i := 0 to |rows|
      invariant positions == Seeded(rows[..i], mock)
    {
      assert rows[..i + 1][..i] == rows[..i];
      var r := rows[i];
      if r.code == [] || r.qty <= 0 {
        continue;
      }
      var ccy := if r.dollars || !IsKrCode(r.code) then T.USD else T.KRW;
      var avg, cur, approx := r.avg, r.cur, false;
      if ccy == T.USD && mock {
        if r.live > 0.0 {
          avg, cur, approx := r.live, r.live, true;
        }
      }
      if avg <= 0.0 {
        avg, approx := cur, true;
      }
      if avg <= 0.0 && cur <= 0.0 {
        continue;
      }
      positions := positions[r.code := T.Position(r.qty, avg, ccy, T.FirstNonZero(cur, avg), approx)];
    }
    assert rows[..|rows|] == rows;
  }

  // ----- A seeded ledger is a sound one -----

  lemma AdmittedIsSoundIff(r: Row, mock: bool)
    requires Admitted(r, mock)
    ensures T.SoundPosition(PositionFor(r, mock)) <==> CurOf(r, mock) >= 0.0
  {
  }

  /** With prices that are not negative the ledger starts in the state its own operations keep. */
  lemma {:induction false} SeededIsSound(rows: seq<Row>, mock: bool)
    requires forall r | r in rows :: r.cur >= 0.0
    ensures T.SoundPositions(Seeded(rows, mock))
  {
    if rows != [] {
      SeededIsSound(rows[..|rows| - 1], mock);
      assert rows[|rows| - 1] in rows;
    }
  }

  // ----- Comparison -----

  /** The broker's quantities by code; several rows of one code add up. */
  function BrokerQty(rows: seq<Row>): map<string, int> {
    if rows == [] then map[]
    else
      var r, before := rows[|rows| - 1], BrokerQty(rows[..|rows| - 1]);
      if r.code == [] then before else before[r.code := (if r.code in before then before[r.code] else 0) + r.qty]
  }

  function QtyIn(m: map<string, int>, code: string): int {
    if code in m then m[code] else 0
  }

  function LedgerQty(positions: map<string, T.Position>, code: string): int {
    if code in positions then positions[code].qty else 0
  }

  function Differing(broker: map<string, int>, positions: map<string, T.Position>, codes: set<string>): set<string> {
    set code | code in codes && QtyIn(broker, code) != LedgerQty(positions, code)
  }

  /** The codes whose quantities differ; an empty snapshot is not compared. */
  function Reconcile(positions: map<string, T.Position>, rows: seq<Row>): set<string> {
    if rows == [] then {} else Differing(BrokerQty(rows), positions, BrokerQty(rows).Keys + positions.Keys)
  }

  method CollectQty(rows: seq<Row>) returns (broker: map<string, int>)
    ensures broker == BrokerQty(rows)
  {
    broker := map[];
    for i := 0 to |rows|
      invariant broker == BrokerQty(rows[..i])
    {
      assert rows[..i + 1][..i] == rows[..i];
      if rows[i].code != [] {
        broker := broker[rows[i].code := (if rows[i].code in broker then broker[rows[i].code] else 0) + rows[i].qty];
      }
    }
    assert rows[..|rows|] == rows;
  }

  lemma DifferingStep(broker: map<string, int>, positions: map<string, T.Position>, codes: set<string>,
                      todo: set<string>, code: string)
    requires code in todo && todo <= codes
    ensures Differing(broker, positions, codes - (todo - {code}))
      == Differing(broker, positions, codes - todo)
         + if QtyIn(broker, code) != LedgerQty(positions, code) then {code} else {}
  {
  }

  method Differences(broker: map<string, int>, positions: map<string, T.Position>, codes: set<string>)
    returns (diffs: set<string>)
    ensures diffs == Differing(broker, positions, codes)
  {
    diffs := {};
    assert codes - codes == {} && codes - {} == codes;
    assert diffs == Differing(broker, positions, codes - codes);
    hide *;
    var todo := codes;
    while todo != {}
      invariant todo <= codes && diffs == Differing(broker, positions, codes - todo)
      decreases |todo|
    {
      var code :| code in todo;
      DifferingStep(broker, positions, codes, todo, code);
      if QtyIn(broker, code) != LedgerQty(positions, code) {
        diffs := diffs + {code};
      }
      todo := todo - {code};
    }
  }

  method CompareWithBroker(positions: map<string, T.Position>, rows: seq<Row>) returns (diffs: set<string>)
    ensures diffs == Reconcile(positions, rows)
  {
    if rows == [] {
      return {};
    }
    var broker := CollectQty(rows);
    diffs := Differences(broker, positions, broker.Keys + positions.Keys);
    hide BrokerQty;
    hide Differing;
  }

  // ----- A fresh ledger against its own snapshot -----

  /** The snapshot's quantity of a code: its rows add up. */
  function ListedQty(rows: seq<Row>, code: string): int {
    if rows == [] then 0
    else
      var r := rows[|rows| - 1];
      ListedQty(rows[..|rows| - 1], code) + if r.code == code then r.qty else 0
  }

  /** The quantity of the last row of a code that is admitted, zero if none is. */
  function LastAdmittedQty(rows: seq<Row>, mock: bool, code: string): int {
    if rows == [] then 0
    else
      var r := rows[|rows| - 1];
      if r.code == code && Admitted(r, mock) then r.qty else LastAdmittedQty(rows[..|rows| - 1], mock, code)
  }

  lemma {:induction false} BrokerCountsAllRows(rows: seq<Row>, code: string)
    requires code != []
    ensures QtyIn(BrokerQty(rows), code) == ListedQty(rows, code)
  {
    if rows != [] {
      BrokerCountsAllRows(rows[..|rows| - 1], code);
    }
  }

  lemma {:induction false} LedgerKeepsLastRow(rows: seq<Row>, mock: bool, code: string)
    ensures LedgerQty(Seeded(rows, mock), code) == LastAdmittedQty(rows, mock, code)
  {
    if rows != [] {
      LedgerKeepsLastRow(rows[..|rows| - 1], mock, code);
      hide Admitted;
    }
  }

  /** A fresh ledger differs from its own snapshot in a code exactly if the code's rows, added up, are not what the
      last admitted one of them says. */
  lemma FreshLedgerDiffersIff(rows: seq<Row>, mock: bool, code: string)
    requires code != []
    ensures code in Reconcile(Seeded(rows, mock), rows) <==> ListedQty(rows, code) != LastAdmittedQty(rows, mock, code)
  {
    BrokerCountsAllRows(rows, code);
    LedgerKeepsLastRow(rows, mock, code);
    assert rows == [] ==> ListedQty(rows, code) == LastAdmittedQty(rows, mock, code);
    hide Seeded;
    hide BrokerQty;
    hide ListedQty;
    hide LastAdmittedQty;
  }

  lemma {:induction false} NoCodeIsNeverSeeded(rows: seq<Row>, mock: bool)
    ensures [] !in BrokerQty(rows) && [] !in Seeded(rows, mock)
  {
    if rows != [] {
      NoCodeIsNeverSeeded(rows[..|rows| - 1], mock);
    }
  }

  /** It agrees altogether exactly if that holds of no code. */
  lemma FreshLedgerAgreesIff(rows: seq<Row>, mock: bool)
    ensures Reconcile(Seeded(rows, mock), rows) == {} <==>
      forall code | code != [] :: ListedQty(rows, code) == LastAdmittedQty(rows, mock, code)
  {
    var diffs := Reconcile(Seeded(rows, mock), rows);
    NoCodeIsNeverSeeded(rows, mock);
    assert [] !in diffs;
    hide *;
    forall code | code != []
      ensures code in diffs <==> ListedQty(rows, code) != LastAdmittedQty(rows, mock, code)
    {
      FreshLedgerDiffersIff(rows, mock, code);
    }
    if diffs != {} {
      var code :| code in diffs;
      assert ListedQty(rows, code) != LastAdmittedQty(rows, mock, code);
    }
  }

  /** How many rows list a code. */
  function Listings(rows: seq<Row>, code: string): nat {
    if rows == [] then 0 else Listings(rows[..|rows| - 1], code) + if rows[|rows| - 1].code == code then 1 else 0
  }

  lemma {:induction false} UnlistedQty(rows: seq<Row>, mock: bool, code: string)
    requires Listings(rows, code) == 0
    ensures ListedQty(rows, code) == 0 && LastAdmittedQty(rows, mock, code) == 0
  {
    if rows != [] {
      UnlistedQty(rows[..|rows| - 1], mock, code);
      hide Admitted;
    }
  }

  lemma {:induction false} RowIsListed(rows: seq<Row>, r: Row)
    requires r in rows
    ensures Listings(rows, r.code) > 0
  {
    if r != rows[|rows| - 1] {
      RowIsListed(rows[..|rows| - 1], r);
    }
  }

  lemma {:induction false} OnlyRowQty(rows: seq<Row>, mock: bool, r: Row)
    requires r in rows && Listings(rows, r.code) == 1
    ensures ListedQty(rows, r.code) == r.qty
    ensures LastAdmittedQty(rows, mock, r.code) == if Admitted(r, mock) then r.qty else 0
  {
    var init, last := rows[..|rows| - 1], rows[|rows| - 1];
    hide Admitted;
    if last.code == r.code {
      UnlistedQty(init, mock, r.code);
      if last != r {
        RowIsListed(init, r);
      }
    } else {
      OnlyRowQty(init, mock, r);
    }
  }

  /** A code listed once is reported exactly if its row was left out for want of a price (or has a negative
      quantity). */
  lemma FreshLedgerDiffers(rows: seq<Row>, mock: bool, r: Row)
    requires r in rows && Listings(rows, r.code) == 1 && r.code != []
    ensures r.code in Reconcile(Seeded(rows, mock), rows) <==> r.qty != 0 && !Admitted(r, mock)
  {
    OnlyRowQty(rows, mock, r);
    FreshLedgerDiffersIff(rows, mock, r.code);
    hide Seeded;
    hide Reconcile;
  }

  /** A code that is not listed is never reported. */
  lemma NothingUnlistedDiffers(rows: seq<Row>, mock: bool, code: string)
    requires Listings(rows, code) == 0
    ensures code !in Reconcile(Seeded(rows, mock), rows)
  {
    if code == [] {
      NoCodeIsNeverSeeded(rows, mock);
      hide Seeded;
      hide BrokerQty;
    } else {
      UnlistedQty(rows, mock, code);
      FreshLedgerDiffersIff(rows, mock, code);
      hide Reconcile;
    }
  }

  /** All rows of a code are admitted. */
  predicate AllAdmitted(rows: seq<Row>, mock: bool, code: string) {
    forall r | r in rows && r.code == code :: Admitted(r, mock)
  }

  lemma {:induction false} AdmittedRowsExceedTheLast(rows: seq<Row>, mock: bool, code: string)
    requires AllAdmitted(rows, mock, code)
    ensures Listings(rows, code) >= 1 ==> ListedQty(rows, code) >= LastAdmittedQty(rows, mock, code) > 0
    ensures Listings(rows, code) >= 2 ==> ListedQty(rows, code) > LastAdmittedQty(rows, mock, code)
    ensures Listings(rows, code) == 0 ==> ListedQty(rows, code) == 0
  {
    if rows != [] {
      var init, last := rows[..|rows| - 1], rows[|rows| - 1];
      assert last in rows;
      AdmittedRowsExceedTheLast(init, mock, code);
      assert last.code == code ==> last.qty > 0 && Admitted(last, mock);
      hide Admitted;
    }
  }

  /** A code that is listed more than once, each time with shares and a price, is always reported. */
  lemma RepeatedCodeDiffers(rows: seq<Row>, mock: bool, code: string)
    requires code != [] && Listings(rows, code) >= 2 && AllAdmitted(rows, mock, code)
    ensures code in Reconcile(Seeded(rows, mock), rows)
  {
    AdmittedRowsExceedTheLast(rows, mock, code);
    FreshLedgerDiffersIff(rows, mock, code);
    hide Reconcile;
  }

  /** The smallest such snapshot: ten shares listed twice are twenty to the broker and ten to the ledger. */
  lemma DoubleListingDiffers()
    ensures var r := Row("005930", 10, false, 100.0, 100.0, 0.0); var rows := [r, r];
      && ListedQty(rows, r.code) == 20 && LastAdmittedQty(rows, false, r.code) == 10
      && r.code in Reconcile(Seeded(rows, false), rows)
  {
    var r := Row("005930", 10, false, 100.0, 100.0, 0.0);
    assert [r, r][..1] == [r] && [r][..0] == [];
    assert ListedQty([r], r.code) == 10;
    FreshLedgerDiffersIff([r, r], false, r.code);
    hide Reconcile;
  }

  // ----- What a seeded position is worth -----

  /** A listing is in dollars if it says so or is no Korean code. On a real account a position costs what the row says,
      and is last priced at its current price; each stands in for the other where it is missing. */
  lemma RealPosition(r: Row)
    ensures var p := PositionFor(r, false);
      && p.qty == r.qty && (p.ccy == T.USD <==> r.dollars || !IsKrCode(r.code)) && (p.ccy != T.USD ==> p.ccy == T.KRW)
      && (r.avg > 0.0 ==> p.avgCost == r.avg && !p.approxBasis)
      && (r.avg <= 0.0 ==> p.avgCost == r.cur && p.approxBasis)
      && (r.cur != 0.0 ==> p.lastPrice == r.cur)
      && (r.cur == 0.0 ==> p.lastPrice == p.avgCost)
    ensures Admitted(r, false) <==> r.code != [] && r.qty > 0 && (r.avg > 0.0 || r.cur > 0.0)
  {
  }

  /** On a mock account only a dollar row with a live price differs: it costs and is worth that price. */
  lemma MockPosition(r: Row)
    ensures var p := PositionFor(r, true);
      if (r.dollars || !IsKrCode(r.code)) && r.live > 0.0 then
        && p == T.Position(r.qty, r.live, T.USD, r.live, true)
        && (Admitted(r, true) <==> r.code != [] && r.qty > 0)
      else p == PositionFor(r, false) && (Admitted(r, true) <==> Admitted(r, false))
  {
  }

  /** The price and the cost that count for a row: on a mock account a live dollar price for both, otherwise the current
      price and the average cost, each standing in for the other. */
  function PriceThatCounts(r: Row, mock: bool): real {
    if mock && (r.dollars || !IsKrCode(r.code)) && r.live > 0.0 then r.live else r.cur
  }

  function CostThatCounts(r: Row, mock: bool): real {
    if mock && (r.dollars || !IsKrCode(r.code)) && r.live > 0.0 then r.live
    else if r.avg > 0.0 then r.avg else r.cur
  }

  /** What a row is worth, or cost, in one currency. */
  function RowWorth(r: Row, mock: bool, usd: bool): real {
    if r.qty > 0 && (r.dollars || !IsKrCode(r.code)) == usd then Mul(PriceThatCounts(r, mock), r.qty as real) else 0.0
  }

  function RowCost(r: Row, mock: bool, usd: bool): real {
    if r.qty > 0 && (r.dollars || !IsKrCode(r.code)) == usd then Mul(CostThatCounts(r, mock), r.qty as real) else 0.0
  }

  function RowsWorth(rows: seq<Row>, mock: bool, usd: bool): real {
    if rows == [] then 0.0
    else RowsWorth(rows[..|rows| - 1], mock, usd) + RowWorth(rows[|rows| - 1], mock, usd)
  }

  function RowsCost(rows: seq<Row>, mock: bool, usd: bool): real {
    if rows == [] then 0.0
    else RowsCost(rows[..|rows| - 1], mock, usd) + RowCost(rows[|rows| - 1], mock, usd)
  }

  /** What the ledger's positions are worth in one currency, at their last prices. */
  function LastWorth(p: T.Position, usd: bool): real {
    if (p.ccy == T.USD) == usd then Mul(p.lastPrice, p.qty as real) else 0.0
  }

  function LastWorths(positions: map<string, T.Position>, usd: bool): map<string, real> {
    map tk | tk in positions :: LastWorth(positions[tk], usd)
  }

  predicate DistinctCodes(rows: seq<Row>) {
    forall i, j | 0 <= i < j < |rows| :: rows[i].code != rows[j].code
  }

  lemma {:induction false} UnlistedIsNotSeeded(rows: seq<Row>, mock: bool, code: string)
    requires forall r | r in rows :: r.code != code
    ensures code !in Seeded(rows, mock)
  {
    if rows != [] {
      UnlistedIsNotSeeded(rows[..|rows| - 1], mock, code);
      assert rows[|rows| - 1] in rows;
    }
  }

  lemma RowIsWorth(r: Row, mock: bool, usd: bool)
    requires r.code != [] && r.cur > 0.0
    ensures Admitted(r, mock) ==> LastWorth(PositionFor(r, mock), usd) == RowWorth(r, mock, usd)
    ensures Admitted(r, mock) ==> T.CostIn(PositionFor(r, mock), usd) == RowCost(r, mock, usd)
    ensures !Admitted(r, mock) ==> RowWorth(r, mock, usd) == 0.0 && RowCost(r, mock, usd) == 0.0
  {
    RealPosition(r);
    MockPosition(r);
    hide PositionFor;
    hide Mul;
    hide IsKrCode;
    hide Admitted;
  }

  lemma LastIsNewCode(pre: seq<Row>, r: Row)
    requires DistinctCodes(pre + [r])
    ensures DistinctCodes(pre) && forall q | q in pre :: q.code != r.code
  {
    var rows := pre + [r];
    assert forall i | 0 <= i < |pre| :: rows[i] == pre[i];
    assert rows[|pre|] == r;
  }

  lemma SeedSnoc(pre: seq<Row>, r: Row, mock: bool, usd: bool)
    ensures RowsWorth(pre + [r], mock, usd) == RowsWorth(pre, mock, usd) + RowWorth(r, mock, usd)
    ensures RowsCost(pre + [r], mock, usd) == RowsCost(pre, mock, usd) + RowCost(r, mock, usd)
    ensures Seeded(pre + [r], mock)
      == if Admitted(r, mock) then Seeded(pre, mock)[r.code := PositionFor(r, mock)] else Seeded(pre, mock)
  {
    assert (pre + [r])[..|pre|] == pre;
    hide PositionFor;
    hide Admitted;
  }

  lemma WorthAfterRow(before: map<string, T.Position>, r: Row, mock: bool, usd: bool)
    requires r.code != [] && r.cur > 0.0 && r.code !in before
    ensures var after := if Admitted(r, mock) then before[r.code := PositionFor(r, mock)] else before;
      && SumMap(LastWorths(after, usd)) == SumMap(LastWorths(before, usd)) + RowWorth(r, mock, usd)
      && SumMap(T.Costs(after, usd)) == SumMap(T.Costs(before, usd)) + RowCost(r, mock, usd)
  {
    RowIsWorth(r, mock, usd);
    if Admitted(r, mock) {
      var p := PositionFor(r, mock);
      hide PositionFor;
      hide Admitted;
      hide RowWorth;
      hide RowCost;
      hide LastWorth;
      assert LastWorths(before[r.code := p], usd) == LastWorths(before, usd)[r.code := LastWorth(p, usd)];
      SumMapPut(LastWorths(before, usd), r.code, LastWorth(p, usd));
      T.CostsAfterPut(before, r.code, p, usd);
      hide T.CostIn;
    }
  }

  /** A seeded ledger is worth in each currency what the snapshot is, and cost what it cost, if every row names another
      code and has a current price. */
  lemma {:induction false} SeedIsWorthTheSnapshot(rows: seq<Row>, mock: bool, usd: bool)
    requires DistinctCodes(rows) && forall r | r in rows :: r.code != [] && r.cur > 0.0
    ensures SumMap(LastWorths(Seeded(rows, mock), usd)) == RowsWorth(rows, mock, usd)
    ensures SumMap(T.Costs(Seeded(rows, mock), usd)) == RowsCost(rows, mock, usd)
  {
    hide *;
    if rows == [] {
      NothingIsWorthNothing(mock, usd);
    } else {
      var pre, r := rows[..|rows| - 1], rows[|rows| - 1];
      assert r in rows && forall q | q in pre :: q in rows;
      assert rows == pre + [r];
      LastIsNewCode(pre, r);
      SeedIsWorthTheSnapshot(pre, mock, usd);
      UnlistedIsNotSeeded(pre, mock, r.code);
      SeedSnoc(pre, r, mock, usd);
      WorthAfterRow(Seeded(pre, mock), r, mock, usd);
    }
  }

  lemma NothingIsWorthNothing(mock: bool, usd: bool)
    ensures SumMap(LastWorths(Seeded([], mock), usd)) == RowsWorth([], mock, usd)
    ensures SumMap(T.Costs(Seeded([], mock), usd)) == RowsCost([], mock, usd)
  {
    assert LastWorths(map[], usd) == map[] && T.Costs(map[], usd) == map[];
  }

  /** Against an empty snapshot nothing is reported, whatever the ledger holds. */
  lemma EmptySnapshotIsSilent(positions: map<string, T.Position>, code: string)
    ensures code !in Reconcile(positions, [])
  {
  }

  /** Whatever the ledger holds and the broker lists: a code is reported exactly if there is a snapshot at all and the
      quantities of the code's rows do not add up to the ledger's. */
  lemma ReportedIff(positions: map<string, T.Position>, rows: seq<Row>, code: string)
    requires code != []
    ensures code in Reconcile(positions, rows) <==>
      rows != [] && ListedQty(rows, code) != if code in positions then positions[code].qty else 0
  {
    BrokerCountsAllRows(rows, code);
    hide BrokerQty;
    hide ListedQty;
  }
}
