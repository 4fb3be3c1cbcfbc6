/** The equity curve with settlement glitches carried over (main_swarm.py). */
module EquityFilter {
  import opened Common
  import opened Sorting

  type Holdings = map<string, int>

  /** A recorded point. A timestamp that cannot be read and a missing holdings snapshot are None. */
  datatype RawPoint = RawPoint(ts: Option<real>, ledgerEval: real, totalEval: real, externalFlow: real,
                               holdings: Option<Holdings>)

  /** A point of the account curve: its time, its value less external flows, and the holdings if known. */
  datatype Point = Point(ts: real, adj: real, hold: Option<Holdings>)

  // ----- One step of the filter -----

  /** What the pass carries along: the previous output and the last known holdings. */
  datatype Carry = Carry(prev: Option<real>, hold: Option<Holdings>)

  predicate HoldingsChanged(c: Carry, p: Point) {
    c.hold.Some? && p.hold.Some? && p.hold != c.hold
  }

  predicate HoldingsSame(c: Carry, p: Point) {
    c.hold.Some? && p.hold.Some? && p.hold == c.hold
  }

  /** The value lies more than the fraction pct away from the previous output. */
  predicate Jumps(prev: real, v: real, pct: real)
    requires prev > 0.0
  {
    Abs(v - prev) / prev > pct
  }

  predicate Reverts(prev: real, next: Option<real>, pct: real)
    requires prev > 0.0
  {
    next.Some? && Abs(next.value - prev) / prev <= pct
  }

  /** The point is taken for a settlement glitch and replaced by the previous output. */
  predicate Glitch(c: Carry, p: Point, next: Option<real>, pct: real) {
    && c.prev.Some? && c.prev.value > 0.0
    && !HoldingsChanged(c, p)
    && Jumps(c.prev.value, p.adj, pct)
    && (HoldingsSame(c, p) || Reverts(c.prev.value, next, pct))
  }

  function Output(c: Carry, p: Point, next: Option<real>, pct: real): real {
    if Glitch(c, p, next, pct) then c.prev.value else p.adj
  }

  function Advance(c: Carry, p: Point, v: real): Carry {
    Carry(Some(v), if p.hold.Some? then p.hold else c.hold)
  }

  // ----- The pass -----

  function NextValue(ps: seq<Point>): Option<real> {
    if |ps| >= 2 then Some(ps[1].adj) else None
  }

  /** The outputs of the rest of a curve. */
  function Filtered(c: Carry, ps: seq<Point>, pct: real): seq<real>
    decreases |ps|
  {
    if ps == [] then []
    else
      var v := Output(c, ps[0], NextValue(ps), pct);
      [v] + Filtered(Advance(c, ps[0], v), ps[1..], pct)
  }

  const START: Carry := Carry(None, None)

  function FilterCurve(ps: seq<Point>, pct: real): seq<real> {
    Filtered(START, ps, pct)
  }

  /** The carry after some outputs. */
  function CarryAfter(c: Carry, ps: seq<Point>, pct: real, i: nat): Carry
    requires i <= |ps|
    decreases i
  {
    if i == 0 then c
    else CarryAfter(Advance(c, ps[0], Output(c, ps[0], NextValue(ps), pct)), ps[1..], pct, i - 1)
  }

  /** The single pass over the sorted points. */
  method FilterGlitches(ps: seq<Point>, pct: real) returns (out: seq<real>)
    ensures out == FilterCurve(ps, pct)
  {
    out := [];
    var c := START;
    for i := 0 to |ps|
      invariant out + Filtered(c, ps[i..], pct) == FilterCurve(ps, pct)
    {
      var p := ps[i];
      var use := p.adj;
      if c.prev.Some? && c.prev.value > 0.0 && !HoldingsChanged(c, p)
        && Abs(p.adj - c.prev.value) / c.prev.value > pct {
        var prev := c.prev.value;
        var reverts := i + 1 < |ps| && Abs(ps[i + 1].adj - prev) / prev <= pct;
        if HoldingsSame(c, p) || reverts {
          use := prev;
        }
      }
      FilterStep(c, ps, i, pct, out);
      assert use == Output(c, p, NextValue(ps[i..]), pct);
      out := out + [use];
      c := Advance(c, p, use);
    }
    assert ps[|ps|..] == [];
  }

  lemma FilterStep(c: Carry, ps: seq<Point>, i: nat, pct: real, out: seq<real>)
    requires i < |ps|
    ensures var v := Output(c, ps[i], NextValue(ps[i..]), pct);
            out + Filtered(c, ps[i..], pct) == (out + [v]) + Filtered(Advance(c, ps[i], v), ps[i + 1..], pct)
  {
    assert ps[i..][0] == ps[i] && ps[i..][1..] == ps[i + 1..];
  }

  // ----- Choosing and ordering the points -----

  function AccountPoints(raw: seq<RawPoint>): seq<Point> {
    if raw == [] then []
    else
      var p := raw[|raw| - 1];
      AccountPoints(raw[..|raw| - 1])
      + if p.totalEval != 0.0 && p.ts.Some? then [Point(p.ts.value, p.totalEval - p.externalFlow, p.holdings)] else []
  }

  function LedgerPoints(raw: seq<RawPoint>): seq<Point> {
    if raw == [] then []
    else
      var p := raw[|raw| - 1];
      LedgerPoints(raw[..|raw| - 1])
      + if p.ledgerEval > 0.0 && p.ts.Some? then [Point(p.ts.value, p.ledgerEval, p.holdings)] else []
  }

  function ByTime(): Point -> real {
    (p: Point) => p.ts
  }

  function Times(ps: seq<Point>): seq<real> {
    seq(|ps|, i requires 0 <= i < |ps| => ps[i].ts)
  }

  function Values(ps: seq<Point>): seq<real> {
    seq(|ps|, i requires 0 <= i < |ps| => ps[i].adj)
  }

  /** A single ledger valuation is enough to use the ledger series alone, unfiltered. */
  method EquityPoints(raw: seq<RawPoint>, pct: real) returns (ts: seq<real>, values: seq<real>)
    ensures var ledger, account := SortBy(LedgerPoints(raw), ByTime()), SortBy(AccountPoints(raw), ByTime());
            if LedgerPoints(raw) != [] then ts == Times(ledger) && values == Values(ledger)
            else ts == Times(account) && values == FilterCurve(account, pct)
  {
    var ledger := LedgerPoints(raw);
    if ledger != [] {
      ledger := SortBy(ledger, ByTime());
      return Times(ledger), Values(ledger);
    }
    var account := SortBy(AccountPoints(raw), ByTime());
    values := FilterGlitches(account, pct);
    ts := Times(account);
  }

  // ----- Laws -----

  lemma {:induction false} FilteredLength(c: Carry, ps: seq<Point>, pct: real)
    ensures |Filtered(c, ps, pct)| == |ps|
    decreases |ps|
  {
    if ps != [] {
      FilteredLength(Advance(c, ps[0], Output(c, ps[0], NextValue(ps), pct)), ps[1..], pct);
    }
  }

  /** The output at position i is the step output there, for the carry accumulated so far. */
  lemma {:induction false} FilteredAt(c: Carry, ps: seq<Point>, pct: real, i: nat)
    requires i < |ps|
    ensures |Filtered(c, ps, pct)| == |ps|
    ensures Filtered(c, ps, pct)[i] == Output(CarryAfter(c, ps, pct, i), ps[i], NextValue(ps[i..]), pct)
    ensures i > 0 ==> CarryAfter(c, ps, pct, i).prev == Some(Filtered(c, ps, pct)[i - 1])
    decreases i
  {
    FilteredLength(c, ps, pct);
    var c' := Advance(c, ps[0], Output(c, ps[0], NextValue(ps), pct));
    if i == 0 {
      assert ps[0..] == ps;
    } else {
      FilteredAt(c', ps[1..], pct, i - 1);
      assert ps[1..][i - 1..] == ps[i..];
    }
  }

  /** Every output is its own point's value or the previous output, and from a positive previous output a jump
      survives exactly where known holdings changed, or where a snapshot is unknown on either side and the next
      raw value does not return to the previous level. */
  lemma OutputsExplained(ps: seq<Point>, pct: real, i: nat)
    requires 0 < i < |ps|
    ensures |FilterCurve(ps, pct)| == |ps|
    ensures var out, c := FilterCurve(ps, pct), CarryAfter(START, ps, pct, i);
            && (out[i] == ps[i].adj || out[i] == out[i - 1])
            && (out[i - 1] > 0.0 && Jumps(out[i - 1], ps[i].adj, pct) && pct >= 0.0 ==>
                  (out[i] == ps[i].adj <==>
                     HoldingsChanged(c, ps[i])
                     || (!HoldingsSame(c, ps[i]) && !Reverts(out[i - 1], NextValue(ps[i..]), pct))))
  {
    FilteredAt(START, ps, pct, i);
    FilteredAt(START, ps, pct, i - 1);
    var prev := FilterCurve(ps, pct)[i - 1];
    if prev > 0.0 && pct >= 0.0 && ps[i].adj == prev {
      assert Abs(0.0) / prev == 0.0;
    }
  }

  /** The curve with its values replaced by the filter's outputs. */
  function WithValues(ps: seq<Point>, vs: seq<real>): seq<Point>
    requires |vs| == |ps|
  {
    if ps == [] then [] else [ps[0].(adj := vs[0])] + WithValues(ps[1..], vs[1..])
  }

  /** An output that is kept is kept again: replaced values agree with the carry, kept ones meet the same test. */
  lemma SameOutputAgain(c: Carry, p: Point, next: Option<real>, next': Option<real>, pct: real)
    requires next.None? <==> next'.None?
    requires next.Some? ==> next'.value == next.value || next'.value == Output(c, p, next, pct)
    ensures var v := Output(c, p, next, pct);
            Output(c, p.(adj := v), next', pct) == v
  {
  }

  /** Filtering twice is filtering once, whatever the threshold. */
  lemma {:induction false} FilterIdempotent(c: Carry, ps: seq<Point>, pct: real)
    ensures |Filtered(c, ps, pct)| == |ps|
    ensures Filtered(c, WithValues(ps, Filtered(c, ps, pct)), pct) == Filtered(c, ps, pct)
    decreases |ps|
  {
    FilteredLength(c, ps, pct);
    if ps != [] {
      var v := Output(c, ps[0], NextValue(ps), pct);
      var c', rest := Advance(c, ps[0], v), ps[1..];
      FilterIdempotent(c', rest, pct);
      var out := Filtered(c, ps, pct);
      assert out == [v] + Filtered(c', rest, pct) && out[1..] == Filtered(c', rest, pct);
      var ps' := WithValues(ps, out);
      assert ps'[0] == ps[0].(adj := v) && ps'[1..] == WithValues(rest, out[1..]);
      SameOutputAgain(c, ps[0], NextValue(ps), NextValue(ps'), pct);
      assert Advance(c, ps'[0], v) == c';
    }
  }

  /** The last known holdings after some points, starting from h. */
  function LastKnown(h: Option<Holdings>, ps: seq<Point>): Option<Holdings>
    decreases |ps|
  {
    if ps == [] then h else LastKnown(if ps[0].hold.Some? then ps[0].hold else h, ps[1..])
  }

  /** The holdings a point is compared with are the last ones known before it. */
  lemma {:induction false} ComparedWithLastKnown(c: Carry, ps: seq<Point>, pct: real, i: nat)
    requires i <= |ps|
    ensures CarryAfter(c, ps, pct, i).hold == LastKnown(c.hold, ps[..i])
    decreases i
  {
    if i > 0 {
      var c' := Advance(c, ps[0], Output(c, ps[0], NextValue(ps), pct));
      ComparedWithLastKnown(c', ps[1..], pct, i - 1);
      assert ps[..i][1..] == ps[1..][..i - 1];
    }
  }

  // ----- Which points are used -----

  /** Money that comes in or goes out raises or lowers the account and the recorded flow alike. */
  predicate SameButFlows(p: RawPoint, q: RawPoint) {
    && p.ts == q.ts && p.holdings == q.holdings
    && q.totalEval - p.totalEval == q.externalFlow - p.externalFlow
    && (p.totalEval == 0.0 <==> q.totalEval == 0.0)
  }

  /** Deposits and withdrawals leave the account curve alone. */
  lemma {:induction false} FlowsLeaveNoTrace(raw: seq<RawPoint>, raw': seq<RawPoint>)
    requires |raw| == |raw'| && forall i | 0 <= i < |raw| :: SameButFlows(raw[i], raw'[i])
    ensures AccountPoints(raw') == AccountPoints(raw)
  {
    if raw != [] {
      var n := |raw| - 1;
      FlowsLeaveNoTrace(raw[..n], raw'[..n]);
      assert SameButFlows(raw[n], raw'[n]);
    }
  }

  /** Without flows the account curve is the account's values at the readable times. */
  lemma {:induction false} AccountValues(raw: seq<RawPoint>, p: Point)
    requires forall r | r in raw :: r.externalFlow == 0.0
    ensures p in AccountPoints(raw) <==>
      exists r :: r in raw && r.totalEval != 0.0 && r.ts == Some(p.ts) && p.adj == r.totalEval && p.hold == r.holdings
  {
    if raw != [] {
      var n := |raw| - 1;
      AccountValues(raw[..n], p);
      assert raw == raw[..n] + [raw[n]];
    }
  }

  /** The ledger's curve is its positive values at the readable times. */
  lemma {:induction false} LedgerValues(raw: seq<RawPoint>, p: Point)
    ensures p in LedgerPoints(raw) <==>
      exists r :: r in raw && r.ledgerEval > 0.0 && r.ts == Some(p.ts) && p.adj == r.ledgerEval && p.hold == r.holdings
  {
    if raw != [] {
      var n := |raw| - 1;
      LedgerValues(raw[..n], p);
      assert raw == raw[..n] + [raw[n]];
    }
  }

  // ----- The filter in plain terms -----

  /** The value lies within the fraction of the previous output, counted from it. */
  predicate Near(prev: real, v: real, pct: real) {
    prev - Mul(pct, prev) <= v <= prev + Mul(pct, prev)
  }

  lemma NearIff(prev: real, v: real, pct: real)
    requires prev > 0.0
    ensures Abs(v - prev) / prev <= pct <==> Near(prev, v, pct)
  {
    var q := Abs(v - prev) / prev;
    assert q * prev == Abs(v - prev);
    if q <= pct {
      assert q * prev <= pct * prev;
    } else {
      assert q * prev > pct * prev;
    }
  }

  /** A point after a positive output keeps its value if it is near that output, if the holdings known last are known to
      have changed, or if they are not known on one side and the next point, if any, is not near; otherwise the output
      is repeated. */
  lemma OutputRule(ps: seq<Point>, pct: real, i: nat)
    requires 0 < i < |ps|
    ensures |FilterCurve(ps, pct)| == |ps|
    ensures var prev, v := FilterCurve(ps, pct)[i - 1], ps[i].adj;
      var was, now := LastKnown(None, ps[..i]), ps[i].hold;
      var keeps := || prev <= 0.0
                   || Near(prev, v, pct)
                   || (was.Some? && now.Some? && was.value != now.value)
                   || ((was.None? || now.None?) && !(i + 1 < |ps| && Near(prev, ps[i + 1].adj, pct)));
      FilterCurve(ps, pct)[i] == if keeps then v else prev
  {
    FilteredAt(START, ps, pct, i);
    FilteredAt(START, ps, pct, i - 1);
    ComparedWithLastKnown(START, ps, pct, i);
    var prev := FilterCurve(ps, pct)[i - 1];
    if prev > 0.0 {
      NearIff(prev, ps[i].adj, pct);
      if i + 1 < |ps| {
        NearIff(prev, ps[i + 1].adj, pct);
        assert ps[i..][1] == ps[i + 1];
      }
    }
    hide Near;
    hide Filtered;
    hide LastKnown;
    hide CarryAfter;
  }

  /** The first point is kept. */
  lemma FirstIsKept(ps: seq<Point>, pct: real)
    requires ps != []
    ensures |FilterCurve(ps, pct)| == |ps| && FilterCurve(ps, pct)[0] == ps[0].adj
  {
    FilteredAt(START, ps, pct, 0);
  }
}
