/** Risk-weighted position sizing (tools/position_sizing.py): how the cycle budget is tilted between names. */
module SizingWeights {
  import opened Common
  import opened Sorting

  /** The names to weigh (trimmed, none blank), their scores and volatilities as far as known, and the two settings. */
  datatype Setup = Setup(
    codes: seq<string>,
    scores: map<string, real>,
    sigmas: map<string, real>,
    strength: real,
    maxTilt: real)

  const RISK_WEIGHTED: string := "risk_weighted"

  function Strength(x: Setup): real {
    Max(0.0, Min(1.0, x.strength))
  }

  /** The clamped tilt bound. */
  function TiltBound(x: Setup): (t: real)
    ensures t >= 1.0
  {
    Max(1.0, x.maxTilt)
  }

  // ----- Raw preference -----

  function ScoreFactor(x: Setup, c: string): (f: real)
    ensures f > 0.0
  {
    if c in x.scores then Max(0.2, x.scores[c] / 5.0) else 1.0
  }

  predicate HasSigma(x: Setup, c: string) {
    c in x.sigmas && x.sigmas[c] > 0.0
  }

  function SigmasOf(x: Setup, codes: seq<string>): (s: seq<real>)
    ensures forall r | r in s :: r > 0.0
  {
    if codes == [] then []
    else
      var c := codes[|codes| - 1];
      SigmasOf(x, codes[..|codes| - 1]) + if HasSigma(x, c) then [x.sigmas[c]] else []
  }

  function Identity(r: real): real {
    r
  }

  function MiddleOf(s: seq<real>): real {
    if s == [] then 0.0 else s[|s| / 2]
  }

  /** The (upper) median of the known volatilities, zero when none is known. */
  function MedianSigma(x: Setup): real {
    MiddleOf(SortBy(SigmasOf(x, x.codes), Identity))
  }

  function VolFactor(x: Setup, median: real, c: string): (f: real)
    ensures f > 0.0
  {
    if HasSigma(x, c) && median > 0.0 then median / x.sigmas[c] else 1.0
  }

  function Raw(x: Setup, c: string): (r: real)
    ensures r > 0.0
  {
    MulSign(ScoreFactor(x, c), VolFactor(x, MedianSigma(x), c));
    Mul(ScoreFactor(x, c), VolFactor(x, MedianSigma(x), c))
  }

  // ----- Tilts and weights -----

  /** The sum of a table over a list of names. */
  function SumOf(m: map<string, real>, codes: seq<string>): real {
    if codes == [] then 0.0
    else
      var c := codes[|codes| - 1];
      SumOf(m, codes[..|codes| - 1]) + if c in m then m[c] else 0.0
  }

  /** The mean of a table over a list of names; one instead of zero. */
  function MeanOf(m: map<string, real>, codes: seq<string>): (mean: real)
    ensures mean != 0.0
  {
    var mean := if codes == [] then 0.0 else SumOf(m, codes) / |codes| as real;
    if mean == 0.0 then 1.0 else mean
  }

  function RawTable(x: Setup): map<string, real> {
    map c | c in x.codes :: Raw(x, c)
  }

  /** Interpolated between equal and raw preference, then clamped. */
  function TiltOf(x: Setup, mean: real, raw: real): real
    requires mean != 0.0
  {
    Max(1.0 / TiltBound(x), Min(TiltBound(x), 1.0 + Mul(Strength(x), raw / mean - 1.0)))
  }

  function Tilt(x: Setup, c: string): real {
    TiltOf(x, MeanOf(RawTable(x), x.codes), Raw(x, c))
  }

  function TiltTable(x: Setup): map<string, real> {
    map c | c in x.codes :: Tilt(x, c)
  }

  /** A name's weight: its tilt relative to the mean tilt. */
  function Weight(x: Setup, c: string): real {
    Tilt(x, c) / MeanOf(TiltTable(x), x.codes)
  }

  function Weights(x: Setup): map<string, real> {
    map c | c in x.codes :: Weight(x, c)
  }

  function EqualWeights(codes: seq<string>): map<string, real> {
    map c | c in codes :: 1.0
  }

  function SizingWeights(x: Setup, mode: string): map<string, real> {
    if mode != RISK_WEIGHTED then EqualWeights(x.codes) else Weights(x)
  }

  /** The three table-filling loops and the final scaling. */
  method ComputeSizingWeights(x: Setup, mode: string) returns (w: map<string, real>)
    ensures w == SizingWeights(x, mode)
  {
    if mode != RISK_WEIGHTED {
      return map c | c in x.codes :: 1.0;
    }
    var raw := FillRaw(x);
    var mean := MeanOf(raw, x.codes);
    var tilt := FillTilt(x, raw, mean);
    var tm := MeanOf(tilt, x.codes);
    hide Raw;
    hide Tilt;
    hide MeanOf;
    hide SumOf;
    w := map c | c in x.codes :: tilt[c] / tm;
  }

  method FillRaw(x: Setup) returns (raw: map<string, real>)
    ensures raw == RawTable(x)
  {
    hide ScoreFactor;
    hide VolFactor;
    hide MedianSigma;
    hide Mul;
    var scoreFactor := FillScores(x);
    var volFactor := FillVolatilities(x);
    raw := map c | c in x.codes :: Mul(scoreFactor[c], volFactor[c]);
  }

  method FillScores(x: Setup) returns (scoreFactor: map<string, real>)
    ensures scoreFactor == map c | c in x.codes :: ScoreFactor(x, c)
  {
    hide ScoreFactor;
    scoreFactor := map[];
    for i := 0 to |x.codes|
      invariant scoreFactor == map c | c in x.codes[..i] :: ScoreFactor(x, c)
    {
      assert x.codes[..i + 1] == x.codes[..i] + [x.codes[i]];
      scoreFactor := scoreFactor[x.codes[i] := ScoreFactor(x, x.codes[i])];
    }
    assert x.codes[..|x.codes|] == x.codes;
  }

  method FillVolatilities(x: Setup) returns (volFactor: map<string, real>)
    ensures volFactor == map c | c in x.codes :: VolFactor(x, MedianSigma(x), c)
  {
    hide VolFactor;
    hide MedianSigma;
    var median := MedianSigma(x);
    volFactor := map[];
    for i := 0 to |x.codes|
      invariant volFactor == map c | c in x.codes[..i] :: VolFactor(x, median, c)
    {
      assert x.codes[..i + 1] == x.codes[..i] + [x.codes[i]];
      volFactor := volFactor[x.codes[i] := VolFactor(x, median, x.codes[i])];
    }
    assert x.codes[..|x.codes|] == x.codes;
  }

  method FillTilt(x: Setup, raw: map<string, real>, mean: real) returns (tilt: map<string, real>)
    requires raw == RawTable(x) && mean == MeanOf(raw, x.codes)
    ensures tilt == TiltTable(x)
  {
    hide Raw;
    hide SumOf;
    tilt := map[];
    for i := 0 to |x.codes|
      invariant tilt == map c | c in x.codes[..i] :: Tilt(x, c)
    {
      assert x.codes[..i + 1] == x.codes[..i] + [x.codes[i]];
      tilt := tilt[x.codes[i] := TiltOf(x, mean, raw[x.codes[i]])];
    }
    assert x.codes[..|x.codes|] == x.codes;
  }

  // ----- Sums -----

  lemma {:induction false} SumAtLeast(m: map<string, real>, codes: seq<string>, lo: real, hi: real)
    requires forall c | c in codes :: c in m && lo <= m[c] <= hi
    ensures Mul(|codes| as real, lo) <= SumOf(m, codes) <= Mul(|codes| as real, hi)
  {
    if codes == [] {
      MulZero(lo);
      MulZero(hi);
    } else {
      var n := |codes| - 1;
      SumAtLeast(m, codes[..n], lo, hi);
      MulCount(n, lo);
      MulCount(n, hi);
      hide Mul;
      assert codes[n] in codes;
    }
  }

  /** A sum with one term known and the others bounded. */
  lemma {:induction false} SumAround(m: map<string, real>, codes: seq<string>, lo: real, hi: real, c: string)
    requires forall d | d in codes :: d in m && lo <= m[d] <= hi
    requires c in codes
    ensures m[c] + Mul((|codes| - 1) as real, lo) <= SumOf(m, codes) <= m[c] + Mul((|codes| - 1) as real, hi)
  {
    var n := |codes| - 1;
    assert codes[n] in codes;
    if codes[n] == c {
      SumAtLeast(m, codes[..n], lo, hi);
    } else {
      SumAround(m, codes[..n], lo, hi, c);
      MulCount(n - 1, lo);
      MulCount(n - 1, hi);
      hide Mul;
    }
  }

  lemma {:induction false} SumScaled(m: map<string, real>, w: map<string, real>, codes: seq<string>, k: real)
    requires forall c | c in codes :: c in m && c in w && m[c] == Mul(k, w[c])
    ensures SumOf(m, codes) == Mul(k, SumOf(w, codes))
  {
    if codes == [] {
      MulZero(k);
    } else {
      var n := |codes| - 1;
      assert codes[n] in codes;
      SumScaled(m, w, codes[..n], k);
      MulLeft(k, SumOf(w, codes[..n]), w[codes[n]]);
      hide Mul;
    }
  }

  predicate Distinct(codes: seq<string>) {
    forall i, j | 0 <= i < j < |codes| :: codes[i] != codes[j]
  }

  lemma {:induction false} SumOfRest(m: map<string, real>, codes: seq<string>, c: string)
    requires c !in codes
    ensures SumOf(m - {c}, codes) == SumOf(m, codes)
  {
    if codes != [] {
      SumOfRest(m, codes[..|codes| - 1], c);
      assert codes[|codes| - 1] in codes;
    }
  }

  /** Over distinct names the sum of the list is the sum of the table. */
  lemma {:induction false} SumOfDistinct(m: map<string, real>, codes: seq<string>)
    requires Distinct(codes) && m.Keys == CodeSet(codes)
    ensures SumOf(m, codes) == SumMap(m)
    decreases |codes|
  {
    if codes == [] {
      assert m == map[];
    } else {
      var n := |codes| - 1;
      var c := codes[n];
      LastIsNew(codes);
      LastIsKey(m, codes);
      assert SumOf(m, codes) == SumOf(m, codes[..n]) + m[c];
      hide SumOf;
      hide SumMap;
      hide Distinct;
      hide CodeSet;
      SumMapRemove(m, c);
      SumOfRest(m, codes[..n], c);
      SumOfDistinct(m - {c}, codes[..n]);
    }
  }

  function CodeSet(codes: seq<string>): set<string> {
    set c | c in codes
  }

  lemma LastIsNew(codes: seq<string>)
    requires Distinct(codes) && codes != []
    ensures codes[|codes| - 1] !in codes[..|codes| - 1] && Distinct(codes[..|codes| - 1])
  {
  }

  lemma LastIsKey(m: map<string, real>, codes: seq<string>)
    requires codes != [] && m.Keys == CodeSet(codes)
    requires codes[|codes| - 1] !in codes[..|codes| - 1]
    ensures codes[|codes| - 1] in m
    ensures (m - {codes[|codes| - 1]}).Keys == CodeSet(codes[..|codes| - 1])
  {
    var n := |codes| - 1;
    assert codes == codes[..n] + [codes[n]];
    assert codes[n] in m.Keys;
  }

  // ----- The mean tilt -----

  lemma TiltsWithin(x: Setup)
    ensures forall c | c in x.codes ::
      c in TiltTable(x) && 1.0 / TiltBound(x) <= TiltTable(x)[c] <= TiltBound(x)
  {
  }

  /** A mean of positive entries really is their mean. */
  lemma MeanOfPositive(m: map<string, real>, codes: seq<string>, lo: real, hi: real)
    requires codes != [] && 0.0 < lo
    requires forall c | c in codes :: c in m && lo <= m[c] <= hi
    ensures MeanOf(m, codes) > 0.0
    ensures Mul(MeanOf(m, codes), |codes| as real) == SumOf(m, codes)
  {
  }

  lemma MeanTilt(x: Setup)
    requires x.codes != []
    ensures MeanOf(TiltTable(x), x.codes) > 0.0
    ensures Mul(MeanOf(TiltTable(x), x.codes), |x.codes| as real) == SumOf(TiltTable(x), x.codes)
  {
    TiltsWithin(x);
    MeanOfPositive(TiltTable(x), x.codes, 1.0 / TiltBound(x), TiltBound(x));
  }

  lemma WeightIsShare(x: Setup, c: string)
    requires c in x.codes
    ensures Mul(Weight(x, c), MeanOf(TiltTable(x), x.codes)) == Tilt(x, c)
    ensures Mul(Weight(x, c), SumOf(TiltTable(x), x.codes)) == Mul(|x.codes| as real, Tilt(x, c))
  {
    var n, mean, w := |x.codes| as real, MeanOf(TiltTable(x), x.codes), Weight(x, c);
    MeanTilt(x);
    MulQuotient(Tilt(x, c), mean);
    MulAssociative(w, mean, n);
    MulCommutes(n, Tilt(x, c));
    hide Mul;
  }

  // ----- The weights sum to the number of names -----

  lemma WeightsSumToCount(x: Setup)
    ensures SumOf(Weights(x), x.codes) == |x.codes| as real
  {
    if x.codes != [] {
      var n, mean := |x.codes| as real, MeanOf(TiltTable(x), x.codes);
      MeanTilt(x);
      forall c | c in x.codes
        ensures Tilt(x, c) == Mul(mean, Weight(x, c))
      {
        WeightIsShare(x, c);
        MulCommutes(mean, Weight(x, c));
      }
      SumScaled(TiltTable(x), Weights(x), x.codes, mean);
      EqualFactors(mean, SumOf(Weights(x), x.codes), n);
    }
  }

  lemma EqualFactors(k: real, a: real, b: real)
    requires k > 0.0 && Mul(k, a) == Mul(k, b)
    ensures a == b
  {
  }

  lemma {:induction false} EqualSum(codes: seq<string>, m: map<string, real>)
    requires forall c | c in codes :: c in m && m[c] == 1.0
    ensures SumOf(m, codes) == |codes| as real
  {
    if codes != [] {
      EqualSum(codes[..|codes| - 1], m);
      assert codes[|codes| - 1] in codes;
    }
  }

  /** The name budgets: an equal share of the cycle budget, times the weight. */
  function NameBudgets(x: Setup, mode: string, budget: real): map<string, real> {
    map c | c in x.codes :: Mul(budget / |x.codes| as real, SizingWeights(x, mode)[c])
  }

  /** Whatever the scores, volatilities and settings, the budgets of distinct names add up to the cycle budget. */
  lemma BudgetsSumToCycle(x: Setup, mode: string, budget: real)
    requires x.codes != [] && Distinct(x.codes)
    ensures SumMap(NameBudgets(x, mode, budget)) == budget
  {
    var n, w := |x.codes| as real, SizingWeights(x, mode);
    SumOfDistinct(NameBudgets(x, mode, budget), x.codes);
    SumScaled(NameBudgets(x, mode, budget), w, x.codes, budget / n);
    MulQuotient(budget, n);
    if mode == RISK_WEIGHTED {
      WeightsSumToCount(x);
    } else {
      EqualSum(x.codes, w);
    }
  }

  // ----- How far a weight can be from equal -----

  /** How far below one a tilt can fall: by the whole strength, for a name that is preferred by nothing, or down to the
      clamp. */
  function Drop(bound: real, s: real): real
    requires bound >= 1.0
  {
    Min(s, 1.0 - 1.0 / bound)
  }

  /** The lowest tilt the settings allow. */
  function Least(x: Setup): (lo: real)
    ensures 0.0 < 1.0 / TiltBound(x) <= lo <= 1.0
  {
    TiltBoundInverse(TiltBound(x));
    1.0 - Drop(TiltBound(x), Strength(x))
  }

  lemma BlendAtLeast(s: real, ratio: real)
    requires s >= 0.0 && ratio >= 0.0
    ensures 1.0 + Mul(s, ratio - 1.0) >= 1.0 - s
  {
    MulMonotone(s, -1.0, ratio - 1.0);
  }

  lemma TiltAtLeast(x: Setup, mean: real, raw: real)
    requires mean > 0.0 && raw > 0.0
    ensures Least(x) <= TiltOf(x, mean, raw) <= TiltBound(x)
  {
    BlendAtLeast(Strength(x), raw / mean);
    TiltBoundInverse(TiltBound(x));
    hide Mul;
    hide Strength;
    hide TiltBound;
  }

  lemma TiltsAtLeast(x: Setup)
    requires x.codes != []
    ensures forall c | c in x.codes :: c in TiltTable(x) && Least(x) <= TiltTable(x)[c] <= TiltBound(x)
  {
    MeanRawIsPositive(x);
    forall c | c in x.codes
      ensures Least(x) <= TiltTable(x)[c] <= TiltBound(x)
    {
      TiltAtLeast(x, MeanOf(RawTable(x), x.codes), Raw(x, c));
      hide Raw;
      hide TiltOf;
      hide MeanOf;
      hide Least;
    }
  }

  lemma PositiveShare(w: real, t: real, sum: real, n: real, lo: real)
    requires t > 0.0 && n >= 1.0 && lo > 0.0
    requires Mul(w, sum) == Mul(n, t) && t + Mul(n - 1.0, lo) <= sum
    ensures sum > 0.0 && w > 0.0
  {
  }

  lemma ShareAtMost(w: real, t: real, sum: real, n: real, lo: real, hi: real)
    requires 0.0 < lo <= t <= hi && n >= 1.0
    requires Mul(w, sum) == Mul(n, t) && t + Mul(n - 1.0, lo) <= sum
    ensures Mul(w, hi + Mul(n - 1.0, lo)) <= Mul(n, hi)
  {
    hide Mul;
    var rest, others := n - w, Mul(n - 1.0, lo);
    PositiveShare(w, t, sum, n, lo);
    MulCommutes(n - 1.0, lo);
    MulSign(lo, n - 1.0);
    MulSign(w, others);
    MulMonotone(w, t + others, sum);
    MulLeft(w, t, others);
    MulLeft(w, hi, others);
    MulRight(n, w, t);
    MulRight(n, w, hi);
    RestIsNonNegative(rest, t, Mul(w, others));
    MulMonotone(rest, t, hi);
  }

  lemma RestIsNonNegative(rest: real, t: real, others: real)
    requires t > 0.0 && 0.0 <= others <= Mul(rest, t)
    ensures rest >= 0.0
  {
  }

  lemma ShareAtLeast(w: real, t: real, sum: real, n: real, lo: real, hi: real)
    requires 0.0 < lo <= t <= hi && n >= 1.0 && w > 0.0
    requires Mul(w, sum) == Mul(n, t) && sum <= t + Mul(n - 1.0, hi)
    ensures Mul(n, lo) <= Mul(w, lo + Mul(n - 1.0, hi))
  {
    hide Mul;
    var rest, others := n - w, Mul(n - 1.0, hi);
    MulCommutes(n - 1.0, hi);
    MulSign(hi, n - 1.0);
    MulSign(w, others);
    MulMonotone(w, sum, t + others);
    MulLeft(w, t, others);
    MulLeft(w, lo, others);
    MulRight(n, w, t);
    MulRight(n, w, lo);
    if rest > 0.0 {
      MulMonotone(rest, lo, t);
    } else {
      MulNegative(rest, lo);
      MulCommutes(-rest, lo);
      MulSign(lo, -rest);
    }
  }

  lemma TiltSumAround(x: Setup, c: string)
    requires c in x.codes
    ensures var k, sum := |x.codes| as real - 1.0, SumOf(TiltTable(x), x.codes);
      && Least(x) <= Tilt(x, c) <= TiltBound(x)
      && Tilt(x, c) + Mul(k, Least(x)) <= sum <= Tilt(x, c) + Mul(k, TiltBound(x))
  {
    TiltsAtLeast(x);
    hide Tilt;
    hide Mul;
    hide SumOf;
    hide Least;
    SumAround(TiltTable(x), x.codes, Least(x), TiltBound(x), c);
    assert (|x.codes| - 1) as real == |x.codes| as real - 1.0;
  }

  /** With n names, lowest tilt L and highest tilt T, no weight exceeds n T / (T + (n - 1) L) or falls below
      n L / (L + (n - 1) T). */
  lemma WeightWithin(x: Setup, c: string)
    requires c in x.codes
    ensures var n, lo, hi := |x.codes| as real, Least(x), TiltBound(x);
      && 0.0 < Weight(x, c)
      && Mul(Weight(x, c), hi + Mul(n - 1.0, lo)) <= Mul(n, hi)
      && Mul(n, lo) <= Mul(Weight(x, c), lo + Mul(n - 1.0, hi))
  {
    TiltSumAround(x, c);
    WeightIsShare(x, c);
    var n, w, t := |x.codes| as real, Weight(x, c), Tilt(x, c);
    var sum, lo, hi := SumOf(TiltTable(x), x.codes), Least(x), TiltBound(x);
    assert n >= 1.0;
    hide *;
    PositiveShare(w, t, sum, n, lo);
    ShareAtMost(w, t, sum, n, lo, hi);
    ShareAtLeast(w, t, sum, n, lo, hi);
  }

  // ----- When the bound keeps its documented meaning -----

  /** At that strength, no name of any list of n gets more than the bound's multiple of an equal share. */
  ghost predicate CapsMultiple(n: nat, bound: real, s: real) {
    forall x: Setup, c: string ::
      |x.codes| == n && TiltBound(x) == bound && Strength(x) == s && c in x.codes ==> Weight(x, c) <= bound
  }

  /** At that strength, no name of any list of n gets less than an equal share divided by the bound. */
  ghost predicate KeepsFraction(n: nat, bound: real, s: real) {
    forall x: Setup, c: string ::
      |x.codes| == n && TiltBound(x) == bound && Strength(x) == s && c in x.codes ==> Weight(x, c) >= 1.0 / bound
  }

  lemma CancelFactor(n: real, a: real, b: real)
    requires n > 0.0
    ensures Mul(n, a) < Mul(n, b) ==> a < b
    ensures Mul(n, a) <= Mul(n, b) ==> a <= b
  {
  }

  lemma CapArithmetic(w: real, n: real, bound: real, drop: real)
    requires w > 0.0 && n >= 1.0 && Mul(n - 1.0, drop) <= bound - 1.0
    requires Mul(w, bound + Mul(n - 1.0, 1.0 - drop)) <= Mul(n, bound)
    ensures w <= bound
  {
    hide Mul;
    MulLeft(n - 1.0, 1.0, drop);
    MulOne(n - 1.0);
    MulMonotone(w, n, bound + Mul(n - 1.0, 1.0 - drop));
    MulCommutes(w, n);
    CancelFactor(n, w, bound);
  }

  lemma CapsOne(x: Setup, c: string)
    requires c in x.codes
    requires Mul(|x.codes| as real - 1.0, Drop(TiltBound(x), Strength(x))) <= TiltBound(x) - 1.0
    ensures Weight(x, c) <= TiltBound(x)
  {
    WeightWithin(x, c);
    var n := |x.codes| as real;
    assert n >= 1.0 && Least(x) == 1.0 - Drop(TiltBound(x), Strength(x));
    hide *;
    CapArithmetic(Weight(x, c), n, TiltBound(x), Drop(TiltBound(x), Strength(x)));
  }

  /** Where the strength leaves every preference above the clamp, only the upper clamp acts, and it lowers the sum. */
  lemma TiltBelowBlend(x: Setup, mean: real, raw: real)
    requires mean > 0.0 && raw > 0.0 && Strength(x) <= 1.0 - 1.0 / TiltBound(x)
    ensures TiltOf(x, mean, raw) <= 1.0 + Mul(Strength(x), raw / mean - 1.0)
  {
    BlendAtLeast(Strength(x), raw / mean);
    hide Mul;
    hide Strength;
    hide TiltBound;
  }

  lemma QuotientSum(a: real, b: real, m: real)
    requires m != 0.0
    ensures (a + b) / m == a / m + b / m
  {
  }

  lemma {:induction false} SumBlend(raw: map<string, real>, u: map<string, real>, codes: seq<string>, s: real, m: real)
    requires m != 0.0
    requires forall c | c in codes :: c in raw && c in u && u[c] == 1.0 + Mul(s, raw[c] / m - 1.0)
    ensures SumOf(u, codes) == |codes| as real + Mul(s, SumOf(raw, codes) / m - |codes| as real)
  {
    if codes == [] {
      MulZero(s);
    } else {
      var n, c := |codes| - 1, codes[|codes| - 1];
      assert c in codes;
      SumBlend(raw, u, codes[..n], s, m);
      assert SumOf(u, codes) == SumOf(u, codes[..n]) + u[c];
      assert SumOf(raw, codes) == SumOf(raw, codes[..n]) + raw[c];
      hide *;
      BlendStep(n as real, SumOf(raw, codes[..n]), raw[c], s, m);
    }
  }

  lemma BlendStep(n: real, a: real, b: real, s: real, m: real)
    requires m != 0.0
    ensures n + Mul(s, a / m - n) + (1.0 + Mul(s, b / m - 1.0)) == n + 1.0 + Mul(s, (a + b) / m - (n + 1.0))
  {
    hide Mul;
    QuotientSum(a, b, m);
    MulLeft(s, a / m - n, -(b / m - 1.0));
    MulNegative(s, b / m - 1.0);
  }

  lemma {:induction false} SumOrder(m: map<string, real>, w: map<string, real>, codes: seq<string>)
    requires forall c | c in codes :: c in m && c in w && m[c] <= w[c]
    ensures SumOf(m, codes) <= SumOf(w, codes)
  {
    if codes != [] {
      assert codes[|codes| - 1] in codes;
      SumOrder(m, w, codes[..|codes| - 1]);
    }
  }

  function BlendTable(x: Setup, mean: real): map<string, real>
    requires mean != 0.0
  {
    map c | c in x.codes :: 1.0 + Mul(Strength(x), Raw(x, c) / mean - 1.0)
  }

  lemma MeanRaw(x: Setup)
    requires x.codes != []
    ensures MeanOf(RawTable(x), x.codes) > 0.0
    ensures Mul(MeanOf(RawTable(x), x.codes), |x.codes| as real) == SumOf(RawTable(x), x.codes)
  {
    hide Raw;
    SumIsPositive(RawTable(x), x.codes);
    hide SumOf;
    MulQuotient(SumOf(RawTable(x), x.codes), |x.codes| as real);
  }

  lemma SumOfBlends(x: Setup)
    requires x.codes != []
    ensures SumOf(BlendTable(x, MeanOf(RawTable(x), x.codes)), x.codes) == |x.codes| as real
  {
    var n, mean := |x.codes| as real, MeanOf(RawTable(x), x.codes);
    MeanRaw(x);
    hide Raw;
    hide Mul;
    hide MeanOf;
    hide SumOf;
    hide Strength;
    SumBlend(RawTable(x), BlendTable(x, mean), x.codes, Strength(x), mean);
    WholeQuotient(SumOf(RawTable(x), x.codes), mean, n);
    MulZero(Strength(x));
  }

  lemma WholeQuotient(sum: real, mean: real, n: real)
    requires mean > 0.0 && Mul(mean, n) == sum
    ensures sum / mean == n
  {
  }

  lemma TiltSumAtMost(x: Setup)
    requires x.codes != [] && Strength(x) <= 1.0 - 1.0 / TiltBound(x)
    ensures SumOf(TiltTable(x), x.codes) <= |x.codes| as real
  {
    var mean := MeanOf(RawTable(x), x.codes);
    MeanRawIsPositive(x);
    SumOfBlends(x);
    hide Raw;
    hide Mul;
    hide MeanOf;
    hide SumOf;
    hide Strength;
    hide TiltOf;
    forall c | c in x.codes
      ensures TiltTable(x)[c] <= BlendTable(x, mean)[c]
    {
      TiltBelowBlend(x, mean, Raw(x, c));
    }
    SumOrder(TiltTable(x), BlendTable(x, mean), x.codes);
  }

  lemma KeepArithmetic(w: real, t: real, sum: real, n: real)
    requires w > 0.0 && n > 0.0 && Mul(w, sum) == Mul(n, t) && sum <= n
    ensures w >= t
  {
    MulMonotone(w, sum, n);
    MulCommutes(w, n);
    hide Mul;
    CancelFactor(n, t, w);
  }

  /** Where every tilt is at least the clamp by itself, scaling to a mean of one only raises the weights. */
  lemma WeightAtLeastTilt(x: Setup, c: string)
    requires c in x.codes && Strength(x) <= 1.0 - 1.0 / TiltBound(x)
    ensures Weight(x, c) >= 1.0 / TiltBound(x)
  {
    assert x.codes != [];
    var n := |x.codes| as real;
    assert n >= 1.0;
    hide *;
    WeightWithin(x, c);
    WeightIsShare(x, c);
    TiltSumAround(x, c);
    TiltSumAtMost(x);
    KeepArithmetic(Weight(x, c), Tilt(x, c), SumOf(TiltTable(x), x.codes), n);
  }

  lemma TrivialFraction(w: real, n: real, bound: real, lo: real)
    requires bound >= 1.0 && n >= 1.0 && w > 0.0 && 0.0 < 1.0 / bound <= lo <= 1.0
    requires bound == 1.0 || n == 1.0
    requires Mul(n, lo) <= Mul(w, lo + Mul(n - 1.0, bound))
    ensures w >= 1.0 / bound
  {
    MulCommutes(n, lo);
    if n == 1.0 {
      MulZero(bound);
      MulCommutes(w, lo);
      hide Mul;
      CancelFactor(lo, n, w);
    } else {
      assert lo == 1.0;
      MulOne(n);
      MulOne(n - 1.0);
      MulOne(n);
      MulCommutes(w, n);
      hide Mul;
      MulOne(n);
      CancelFactor(n, 1.0, w);
    }
  }

  lemma KeepsOne(x: Setup, c: string)
    requires c in x.codes
    requires TiltBound(x) == 1.0 || |x.codes| == 1 || Strength(x) <= 1.0 - 1.0 / TiltBound(x)
    ensures Weight(x, c) >= 1.0 / TiltBound(x)
  {
    if Strength(x) <= 1.0 - 1.0 / TiltBound(x) {
      WeightAtLeastTilt(x, c);
    } else {
      var n := |x.codes| as real;
      assert n >= 1.0;
      hide *;
      WeightWithin(x, c);
      TrivialFraction(Weight(x, c), n, TiltBound(x), Least(x));
    }
  }

  // ----- Two preferences -----

  /** Distinct names: x, xx, xxx, ... */
  function NameOf(k: nat): (name: string)
    ensures |name| == k + 1
  {
    seq(k + 1, _ => 'x')
  }

  function Names(n: nat): (names: seq<string>)
    ensures |names| == n && forall i | 0 <= i < n :: names[i] == NameOf(i)
  {
    if n == 0 then [] else Names(n - 1) + [NameOf(n - 1)]
  }

  /** n names without scores: by their volatilities the first is preferred 1 + p times, the others 1 + q times. */
  function TwoPreferences(n: nat, bound: real, s: real, p: real, q: real): Setup
    requires p > -1.0 && q > -1.0
  {
    Setup(Names(n), map[], map c | c in Names(n) :: if c == NameOf(0) then 1.0 / (1.0 + p) else 1.0 / (1.0 + q),
      s, bound)
  }

  lemma NamesDiffer(n: nat)
    ensures Distinct(Names(n))
    ensures forall i | 0 < i < n :: NameOf(i) != NameOf(0)
  {
  }

  lemma {:induction false} SumOfTwo(m: map<string, real>, codes: seq<string>, first: real, other: real)
    requires codes != []
    requires forall i | 0 <= i < |codes| :: codes[i] in m && m[codes[i]] == if i == 0 then first else other
    ensures SumOf(m, codes) == first + Mul(|codes| as real - 1.0, other)
  {
    var n := |codes| - 1;
    if n == 0 {
      MulZero(other);
      assert SumOf(m, codes[..0]) == 0.0;
    } else {
      SumOfTwo(m, codes[..n], first, other);
      MulCount(n - 1, other);
      hide Mul;
    }
  }

  lemma {:induction false} KnownSigmas(x: Setup, codes: seq<string>)
    requires forall c | c in codes :: HasSigma(x, c)
    ensures |SigmasOf(x, codes)| == |codes|
  {
    if codes != [] {
      assert codes[|codes| - 1] in codes;
      KnownSigmas(x, codes[..|codes| - 1]);
    }
  }

  lemma MedianIsPositive(x: Setup)
    requires x.codes != [] && forall c | c in x.codes :: HasSigma(x, c)
    ensures MedianSigma(x) > 0.0
  {
    KnownSigmas(x, x.codes);
    SortProperties(SigmasOf(x, x.codes), Identity);
    var sorted := SortBy(SigmasOf(x, x.codes), Identity);
    var r := sorted[|sorted| / 2];
    assert r in multiset(sorted);
    assert r in SigmasOf(x, x.codes);
  }

  /** Two levels of preference: the first name differs from the others. */
  ghost predicate TwoLevels(x: Setup, first: real, other: real) {
    && x.codes != [] && first > 0.0 && other > 0.0
    && forall i | 0 <= i < |x.codes| :: Raw(x, x.codes[i]) == if i == 0 then first else other
  }

  /** A name without a score, of a volatility that is a fraction of the unit. */
  lemma RawOfUnscored(x: Setup, c: string, times: real)
    requires times > 0.0 && c !in x.scores && c in x.sigmas && x.sigmas[c] == 1.0 / times && MedianSigma(x) > 0.0
    ensures Raw(x, c) == Mul(MedianSigma(x), times)
  {
    var median := MedianSigma(x);
    hide MedianSigma;
    InverseQuotient(median, times);
    MulOne(Mul(median, times));
    hide Mul;
  }

  lemma InverseQuotient(a: real, b: real)
    requires b > 0.0
    ensures 1.0 / b > 0.0 && a / (1.0 / b) == Mul(a, b)
  {
    assert 1.0 / b > 0.0;
    assert (1.0 / b) * b == 1.0;
    assert a == (a * b) * (1.0 / b);
  }

  lemma RawOfTwo(n: nat, bound: real, s: real, p: real, q: real)
    requires n >= 1 && p > -1.0 && q > -1.0
    ensures var x := TwoPreferences(n, bound, s, p, q); var median := MedianSigma(x);
      median > 0.0 && TwoLevels(x, Mul(median, 1.0 + p), Mul(median, 1.0 + q))
  {
    var x := TwoPreferences(n, bound, s, p, q);
    NamesDiffer(n);
    InverseQuotient(1.0, 1.0 + p);
    InverseQuotient(1.0, 1.0 + q);
    hide Names;
    hide NameOf;
    assert forall c | c in x.codes :: HasSigma(x, c);
    MedianIsPositive(x);
    hide MedianSigma;
    hide Raw;
    MulSign(MedianSigma(x), 1.0 + p);
    MulSign(MedianSigma(x), 1.0 + q);
    hide Mul;
    forall i | 0 <= i < n
      ensures Raw(x, x.codes[i]) == Mul(MedianSigma(x), if i == 0 then 1.0 + p else 1.0 + q)
    {
      RawOfUnscored(x, x.codes[i], if i == 0 then 1.0 + p else 1.0 + q);
    }
  }

  lemma MeanOfTwo(x: Setup, first: real, other: real)
    requires TwoLevels(x, first, other)
    ensures MeanOf(RawTable(x), x.codes) > 0.0
    ensures Mul(MeanOf(RawTable(x), x.codes), |x.codes| as real) == first + Mul(|x.codes| as real - 1.0, other)
  {
    hide Raw;
    hide Mul;
    hide MeanOf;
    hide SumOf;
    SumOfTwo(RawTable(x), x.codes, first, other);
    MeanOfPositive(RawTable(x), x.codes, Min(first, other), Max(first, other));
  }

  lemma TiltOfTwo(x: Setup, first: real, other: real)
    requires TwoLevels(x, first, other)
    ensures var mean := MeanOf(RawTable(x), x.codes);
      && Tilt(x, x.codes[0]) == TiltOf(x, mean, first)
      && SumOf(TiltTable(x), x.codes) == TiltOf(x, mean, first) + Mul(|x.codes| as real - 1.0, TiltOf(x, mean, other))
  {
    var mean := MeanOf(RawTable(x), x.codes);
    hide Raw;
    hide Mul;
    hide MeanOf;
    hide SumOf;
    hide RawTable;
    hide TiltOf;
    SumOfTwo(TiltTable(x), x.codes, TiltOf(x, mean, first), TiltOf(x, mean, other));
  }

  function Clamped(bound: real, r: real): real
    requires bound > 0.0
  {
    Max(1.0 / bound, Min(bound, r))
  }

  lemma TiltOfMultiple(x: Setup, mean: real, p: real)
    requires mean > 0.0
    ensures TiltOf(x, mean, Mul(mean, 1.0 + p)) == Clamped(TiltBound(x), 1.0 + Mul(Strength(x), p))
  {
    WholeQuotient(Mul(mean, 1.0 + p), mean, 1.0 + p);
    hide Mul;
    hide Strength;
    hide TiltBound;
  }

  lemma LevelMean(median: real, mean: real, n: real, p: real, q: real)
    requires n > 0.0 && p + Mul(n - 1.0, q) == 0.0
    requires Mul(mean, n) == Mul(median, 1.0 + p) + Mul(n - 1.0, Mul(median, 1.0 + q))
    ensures mean == median
  {
    hide Mul;
    MulAssociative(n - 1.0, median, 1.0 + q);
    MulCommutes(n - 1.0, median);
    MulAssociative(median, n - 1.0, 1.0 + q);
    MulLeft(n - 1.0, 1.0, -q);
    MulNegative(n - 1.0, q);
    MulOne(n - 1.0);
    MulLeft(median, n, -(p + 1.0) + n);
    assert Mul(n - 1.0, 1.0 + q) == n - 1.0 - p;
    MulLeft(median, n, n - 1.0 - p);
    assert Mul(median, n - (n - 1.0 - p)) == Mul(median, 1.0 + p);
    MulCommutes(mean, n);
    MulCommutes(median, n);
    CancelFactor(n, mean, median);
    CancelFactor(n, median, mean);
  }

  /** With preferences that are one on average, the tilts are the clamped blends. */
  lemma LevelTilts(n: nat, bound: real, s: real, p: real, q: real)
    requires n >= 1 && bound >= 1.0 && 0.0 <= s <= 1.0 && p > -1.0 && q > -1.0
    requires p + Mul(n as real - 1.0, q) == 0.0
    ensures var x := TwoPreferences(n, bound, s, p, q);
      && IsList(x, n, bound, s)
      && Tilt(x, x.codes[0]) == Clamped(bound, 1.0 + Mul(s, p))
      && SumOf(TiltTable(x), x.codes)
         == Clamped(bound, 1.0 + Mul(s, p)) + Mul(n as real - 1.0, Clamped(bound, 1.0 + Mul(s, q)))
  {
    hide *;
    var x := TwoPreferences(n, bound, s, p, q);
    var median, mean := MedianSigma(x), MeanOf(RawTable(x), x.codes);
    ListShape(n, bound, s, p, q);
    ListIs(x, n, bound, s);
    RawOfTwo(n, bound, s, p, q);
    MeanOfTwo(x, Mul(median, 1.0 + p), Mul(median, 1.0 + q));
    LevelMean(median, mean, n as real, p, q);
    TiltOfTwo(x, Mul(median, 1.0 + p), Mul(median, 1.0 + q));
    TiltOfMultiple(x, mean, p);
    TiltOfMultiple(x, mean, q);
  }

  /** A list of n distinct names at those settings. */
  predicate IsList(x: Setup, n: nat, bound: real, s: real) {
    |x.codes| == n && Distinct(x.codes) && TiltBound(x) == bound && Strength(x) == s
  }

  lemma ListIs(x: Setup, n: nat, bound: real, s: real)
    requires IsList(x, n, bound, s)
    ensures |x.codes| == n && TiltBound(x) == bound && Strength(x) == s
  {
  }

  lemma ListShape(n: nat, bound: real, s: real, p: real, q: real)
    requires bound >= 1.0 && 0.0 <= s <= 1.0 && p > -1.0 && q > -1.0
    ensures IsList(TwoPreferences(n, bound, s, p, q), n, bound, s)
  {
    NamesDiffer(n);
    hide Distinct;
    hide Names;
  }

  /** A share of s that is still above b. */
  function Between(s: real, b: real): real
    requires s > 0.0
  {
    (1.0 + b / s) / 2.0
  }

  lemma BetweenIs(s: real, b: real)
    requires 0.0 <= b < s
    ensures 0.0 < Between(s, b) < 1.0 && Mul(s, Between(s, b)) > b
  {
    QuotientBelowOne(b, s);
    assert Mul(s, Between(s, b)) == (s + b) / 2.0;
  }

  lemma QuotientBelowOne(b: real, s: real)
    requires 0.0 <= b < s
    ensures 0.0 <= b / s < 1.0 && s * (b / s) == b
  {
  }

  // ----- A list that passes the bound -----

  /** The first name is preferred so much, and each of the others so little, that the first reaches the bound. */
  function CalmList(n: nat, bound: real, s: real): Setup
    requires n >= 2 && bound >= 1.0 && 0.0 <= (bound - 1.0) / (n as real - 1.0) < s
  {
    var q := Between(s, (bound - 1.0) / (n as real - 1.0));
    BetweenIs(s, (bound - 1.0) / (n as real - 1.0));
    MulSign(n as real - 1.0, q);
    TwoPreferences(n, bound, s, Mul(n as real - 1.0, q), -q)
  }

  lemma QuotientBelow(a: real, k: real, s: real)
    requires k > 0.0 && 0.0 <= a < Mul(k, s)
    ensures 0.0 <= a / k < s && Mul(k, a / k) == a
  {
  }

  lemma ManyNames(k: real, drop: real, bound: real)
    requires k >= 0.0 && bound >= 1.0 && Mul(k, drop) > bound - 1.0
    ensures k > 0.0 && drop > 0.0
  {
  }

  lemma RoomAboveBound(n: nat, bound: real, s: real)
    requires n >= 1 && bound >= 1.0
    requires Mul(n as real - 1.0, Drop(bound, s)) > bound - 1.0
    ensures n >= 2 && s > 0.0 && bound > 1.0
    ensures 0.0 <= (bound - 1.0) / (n as real - 1.0) < s
    ensures Mul(n as real - 1.0, (bound - 1.0) / (n as real - 1.0)) == bound - 1.0
  {
    var k := n as real - 1.0;
    ManyNames(k, Drop(bound, s), bound);
    MulMonotone(k, Drop(bound, s), s);
    hide Mul;
    QuotientBelow(bound - 1.0, k, s);
  }

  lemma HighTilt(k: real, bound: real, s: real, q: real, b: real)
    requires k > 0.0 && bound >= 1.0 && Mul(k, b) == bound - 1.0 && Mul(s, q) > b
    ensures Clamped(bound, 1.0 + Mul(s, Mul(k, q))) == bound
  {
    MulAssociative(s, k, q);
    MulCommutes(s, k);
    MulAssociative(k, s, q);
    MulMonotone(k, b, Mul(s, q));
    TiltBoundInverse(bound);
    hide Mul;
  }

  lemma OthersBelow(k: real, bound: real, s: real, q: real, b: real)
    requires k > 0.0 && bound >= 1.0 && Mul(k, b) == bound - 1.0 && Mul(s, q) > b >= 0.0
    requires Mul(k, Drop(bound, s)) > bound - 1.0 && Mul(s, q) <= s
    ensures 0.0 < bound + Mul(k, Clamped(bound, 1.0 + Mul(s, -q))) < k + 1.0
  {
    TiltBoundInverse(bound);
    MulNegative(s, q);
    var d := Min(Mul(s, q), 1.0 - 1.0 / bound);
    hide Mul;
    assert Clamped(bound, 1.0 + Mul(s, -q)) == 1.0 - d;
    MulLeft(k, 1.0, d);
    MulOne(k);
    MulSign(k, 1.0 - d);
    if d == Mul(s, q) {
      StrictlyMonotone(k, b, d);
    } else {
      MulMonotone(k, Drop(bound, s), d);
    }
  }

  lemma StrictlyMonotone(k: real, a: real, b: real)
    requires k > 0.0 && a < b
    ensures Mul(k, a) < Mul(k, b)
  {
  }

  lemma HighShare(w: real, n: real, bound: real, sum: real)
    requires 0.0 < sum < n && bound > 0.0 && Mul(w, sum) == Mul(n, bound)
    ensures w > bound
  {
    MulCommutes(w, sum);
    if w <= bound {
      MulMonotone(sum, w, bound);
      StrictlyMonotone(bound, sum, n);
      MulCommutes(bound, sum);
      MulCommutes(bound, n);
    }
    hide Mul;
  }

  lemma CalmTilts(n: nat, bound: real, s: real)
    requires n >= 2 && bound > 1.0 && 0.0 < s <= 1.0
    requires Mul(n as real - 1.0, Drop(bound, s)) > bound - 1.0
    requires 0.0 <= (bound - 1.0) / (n as real - 1.0) < s
    requires Mul(n as real - 1.0, (bound - 1.0) / (n as real - 1.0)) == bound - 1.0
    ensures var x := CalmList(n, bound, s);
      && IsList(x, n, bound, s)
      && Tilt(x, x.codes[0]) == bound && 0.0 < SumOf(TiltTable(x), x.codes) < n as real
  {
    hide *;
    var k, b := n as real - 1.0, (bound - 1.0) / (n as real - 1.0);
    var q := Between(s, b);
    BetweenIs(s, b);
    MulMonotone(s, q, 1.0);
    MulOne(s);
    MulSign(k, q);
    MulNegative(k, q);
    CalmIs(n, bound, s, q);
    LevelTilts(n, bound, s, Mul(k, q), -q);
    HighTilt(k, bound, s, q, b);
    OthersBelow(k, bound, s, q, b);
    ListIs(CalmList(n, bound, s), n, bound, s);
  }

  lemma CalmIs(n: nat, bound: real, s: real, q: real)
    requires n >= 2 && bound >= 1.0 && 0.0 <= (bound - 1.0) / (n as real - 1.0) < s
    requires q == Between(s, (bound - 1.0) / (n as real - 1.0))
    requires 0.0 < q < 1.0 && Mul(n as real - 1.0, q) > 0.0
    ensures CalmList(n, bound, s) == TwoPreferences(n, bound, s, Mul(n as real - 1.0, q), -q)
  {
    hide TwoPreferences;
    hide Between;
    hide Mul;
  }

  /** One calm name among nervous ones gets more than the bound. */
  lemma CalmNameExceeds(n: nat, bound: real, s: real)
    requires n >= 1 && bound >= 1.0 && 0.0 <= s <= 1.0
    requires Mul(n as real - 1.0, Min(s, 1.0 - 1.0 / bound)) > bound - 1.0
    ensures n >= 2 && 0.0 <= (bound - 1.0) / (n as real - 1.0) < s
    ensures var x := CalmList(n, bound, s);
      IsList(x, n, bound, s) && Weight(x, x.codes[0]) > bound
  {
    assert Drop(bound, s) == Min(s, 1.0 - 1.0 / bound);
    hide *;
    RoomAboveBound(n, bound, s);
    var x := CalmList(n, bound, s);
    CalmTilts(n, bound, s);
    ListIs(x, n, bound, s);
    WeightIsShare(x, x.codes[0]);
    HighShare(Weight(x, x.codes[0]), n as real, bound, SumOf(TiltTable(x), x.codes));
  }

  // ----- A list that falls below the fraction -----

  /** The first name is preferred so little that it falls to the clamp, the others share what it lost. */
  function NervousList(n: nat, bound: real, s: real): Setup
    requires n >= 2 && bound >= 1.0 && 0.0 <= 1.0 - 1.0 / bound < s
  {
    var q := Between(s, 1.0 - 1.0 / bound);
    BetweenIs(s, 1.0 - 1.0 / bound);
    QuotientPositive(q, n as real - 1.0);
    TwoPreferences(n, bound, s, -q, q / (n as real - 1.0))
  }

  lemma QuotientPositive(q: real, k: real)
    requires q > 0.0 && k > 0.0
    ensures q / k > 0.0 && Mul(k, q / k) == q
  {
  }

  lemma LowTilt(bound: real, s: real, q: real)
    requires bound > 1.0 && Mul(s, q) > 1.0 - 1.0 / bound
    ensures Clamped(bound, 1.0 + Mul(s, -q)) == 1.0 / bound
  {
    TiltBoundInverse(bound);
    MulNegative(s, q);
    hide Mul;
  }

  lemma InverseSum(b: real)
    requires b > 1.0
    ensures 1.0 / b < 1.0 && b + 1.0 / b > 2.0
  {
    var inverse := 1.0 / b;
    assert Mul(b - 1.0, 1.0 - inverse) == b - Mul(b, inverse) - 1.0 + inverse;
    OneOver(1.0, b);
    MulOne(inverse);
    MulCommutes(inverse, b);
    MulSign(b - 1.0, 1.0 - inverse);
    hide Mul;
  }

  lemma OneOver(a: real, b: real)
    requires b > 0.0
    ensures Mul(Mul(a, 1.0 / b), b) == a
    ensures a >= 0.0 ==> Mul(a, 1.0 / b) >= 0.0
  {
  }

  lemma OthersAtBound(n: real, bound: real)
    requires bound > 1.0 && n >= 2.0
    ensures 1.0 / bound + Mul(n - 1.0, bound) > n
  {
    InverseSum(bound);
    MulMonotone(bound - 1.0, 1.0, n - 1.0);
    MulCommutes(bound - 1.0, n - 1.0);
    MulLeft(n - 1.0, bound, 1.0);
    MulOne(n - 1.0);
    MulOne(bound - 1.0);
    hide Mul;
  }

  lemma OthersAbove(k: real, bound: real, s: real, q: real)
    requires k >= 1.0 && bound > 1.0 && s > 0.0 && q > 0.0 && Mul(s, q) > 1.0 - 1.0 / bound
    ensures 1.0 / bound + Mul(k, Clamped(bound, 1.0 + Mul(s, q / k))) > k + 1.0
  {
    TiltBoundInverse(bound);
    QuotientPositive(q, k);
    MulSign(s, q / k);
    hide Mul;
    if 1.0 + Mul(s, q / k) >= bound {
      OthersAtBound(k + 1.0, bound);
      assert k + 1.0 - 1.0 == k;
    } else {
      MulLeft(k, 1.0, -Mul(s, q / k));
      MulNegative(k, Mul(s, q / k));
      MulOne(k);
      MulAssociative(k, s, q / k);
      MulCommutes(k, s);
      MulAssociative(s, k, q / k);
    }
  }

  lemma LowShare(w: real, n: real, lo: real, sum: real)
    requires 0.0 < n < sum && lo > 0.0 && Mul(w, sum) == Mul(n, lo)
    ensures w < lo
  {
  }

  lemma NervousTilts(n: nat, bound: real, s: real)
    requires n >= 2 && bound > 1.0 && 0.0 <= 1.0 - 1.0 / bound < s <= 1.0
    ensures var x := NervousList(n, bound, s);
      && IsList(x, n, bound, s)
      && Tilt(x, x.codes[0]) == 1.0 / bound && SumOf(TiltTable(x), x.codes) > n as real
  {
    hide *;
    var k, q := n as real - 1.0, Between(s, 1.0 - 1.0 / bound);
    BetweenIs(s, 1.0 - 1.0 / bound);
    QuotientPositive(q, k);
    NervousIs(n, bound, s, q);
    LevelTilts(n, bound, s, -q, q / k);
    LowTilt(bound, s, q);
    OthersAbove(k, bound, s, q);
    ListIs(NervousList(n, bound, s), n, bound, s);
  }

  lemma NervousIs(n: nat, bound: real, s: real, q: real)
    requires n >= 2 && bound >= 1.0 && 0.0 <= 1.0 - 1.0 / bound < s
    requires q == Between(s, 1.0 - 1.0 / bound) && 0.0 < q < 1.0 && q / (n as real - 1.0) > 0.0
    ensures NervousList(n, bound, s) == TwoPreferences(n, bound, s, -q, q / (n as real - 1.0))
  {
    hide TwoPreferences;
    hide Between;
  }

  /** One nervous name among calm ones gets less than the fraction. */
  lemma NervousNameFallsShort(n: nat, bound: real, s: real)
    requires n >= 2 && bound > 1.0 && 1.0 - 1.0 / bound < s <= 1.0
    ensures 1.0 - 1.0 / bound >= 0.0
    ensures var x := NervousList(n, bound, s);
      && IsList(x, n, bound, s)
      && Weight(x, x.codes[0]) < 1.0 / bound
  {
    hide *;
    TiltBoundInverse(bound);
    var x := NervousList(n, bound, s);
    NervousTilts(n, bound, s);
    ListIs(x, n, bound, s);
    WeightIsShare(x, x.codes[0]);
    LowShare(Weight(x, x.codes[0]), n as real, 1.0 / bound, SumOf(TiltTable(x), x.codes));
  }

  // ----- The exact conditions -----

  /** At strength s, the bound caps every name at that multiple of an equal share if and only if the other names, each
      as low as the settings allow, leave no more than that to one of them. */
  lemma CapsMultipleIff(n: nat, bound: real, s: real)
    requires n >= 1 && bound >= 1.0 && 0.0 <= s <= 1.0
    ensures CapsMultiple(n, bound, s) <==> Mul(n as real - 1.0, Min(s, 1.0 - 1.0 / bound)) <= bound - 1.0
  {
    hide Weight;
    assert Drop(bound, s) == Min(s, 1.0 - 1.0 / bound);
    if Mul(n as real - 1.0, Drop(bound, s)) <= bound - 1.0 {
      forall x: Setup, c: string | |x.codes| == n && TiltBound(x) == bound && Strength(x) == s && c in x.codes
        ensures Weight(x, c) <= bound
      {
        CapsOne(x, c);
        hide TiltBound;
        hide Strength;
        hide Mul;
        hide Drop;
      }
    } else {
      CalmNameExceeds(n, bound, s);
      hide *;
      var x := CalmList(n, bound, s);
      NotCapped(x, x.codes[0], n, bound, s);
    }
  }

  lemma NotCapped(x: Setup, c: string, n: nat, bound: real, s: real)
    requires |x.codes| == n && TiltBound(x) == bound && Strength(x) == s && c in x.codes && Weight(x, c) > bound
    ensures !CapsMultiple(n, bound, s)
  {
    hide Weight;
    hide TiltBound;
    hide Strength;
  }

  /** At strength s, every name is sure of an equal share divided by the bound if and only if it is alone, the bound is
      one, or the strength alone never takes a name below the clamp. */
  lemma KeepsFractionIff(n: nat, bound: real, s: real)
    requires n >= 1 && bound >= 1.0 && 0.0 <= s <= 1.0
    ensures KeepsFraction(n, bound, s) <==> n == 1 || bound == 1.0 || s <= 1.0 - 1.0 / bound
  {
    hide Weight;
    if n == 1 || bound == 1.0 || s <= 1.0 - 1.0 / bound {
      forall x: Setup, c: string | |x.codes| == n && TiltBound(x) == bound && Strength(x) == s && c in x.codes
        ensures Weight(x, c) >= 1.0 / bound
      {
        KeepsOne(x, c);
        hide TiltBound;
        hide Strength;
      }
    } else {
      NervousNameFallsShort(n, bound, s);
      hide *;
      var x := NervousList(n, bound, s);
      NotKept(x, x.codes[0], n, bound, s);
    }
  }

  lemma NotKept(x: Setup, c: string, n: nat, bound: real, s: real)
    requires bound >= 1.0
    requires |x.codes| == n && TiltBound(x) == bound && Strength(x) == s && c in x.codes && Weight(x, c) < 1.0 / bound
    ensures !KeepsFraction(n, bound, s)
  {
    hide Weight;
    hide TiltBound;
    hide Strength;
  }

  /** At the shipped settings no list gives any name less than half of an equal share, and lists of more than three
      names can give one more than twice of it. */
  lemma AtTheDefaults(n: nat)
    requires n >= 1
    ensures KeepsFraction(n, 2.0, 0.5)
    ensures CapsMultiple(n, 2.0, 0.5) <==> n <= 3
  {
    KeepsFractionIff(n, 2.0, 0.5);
    CapsMultipleIff(n, 2.0, 0.5);
    hide KeepsFraction;
    hide CapsMultiple;
    assert 1.0 / 2.0 == 0.5;
  }

  // ----- Which name gets more -----

  /** A missing score counts as the neutral five, a missing volatility as the median. */
  function ScoreOf(x: Setup, c: string): real {
    if c in x.scores then x.scores[c] else 5.0
  }

  function SigmaOf(x: Setup, c: string): (sigma: real)
    ensures sigma > 0.0
  {
    if HasSigma(x, c) then x.sigmas[c] else if MedianSigma(x) > 0.0 then MedianSigma(x) else 1.0
  }

  lemma RatioOrder(m: real, a: real, b: real)
    requires m > 0.0 && 0.0 < a <= b
    ensures m / a >= m / b
  {
  }

  lemma VolOrder(x: Setup, median: real, c: string, d: string)
    requires median == MedianSigma(x) && SigmaOf(x, c) <= SigmaOf(x, d)
    ensures VolFactor(x, median, c) >= VolFactor(x, median, d)
  {
    hide MedianSigma;
    if median > 0.0 {
      RatioOrder(median, SigmaOf(x, c), SigmaOf(x, d));
      OneByItself(median);
    }
  }

  lemma OneByItself(r: real)
    requires r > 0.0
    ensures r / r == 1.0
  {
  }

  lemma ScoreOrder(x: Setup, c: string, d: string)
    requires ScoreOf(x, c) >= ScoreOf(x, d)
    ensures ScoreFactor(x, c) >= ScoreFactor(x, d)
  {
  }

  lemma ProductOrder(a: real, b: real, c: real, d: real)
    requires a >= c > 0.0 && b >= d > 0.0
    ensures Mul(a, b) >= Mul(c, d)
  {
    MulMonotone(a, d, b);
    MulCommutes(a, d);
    MulCommutes(c, d);
    MulMonotone(d, c, a);
    hide Mul;
  }

  lemma RawOrder(x: Setup, c: string, d: string)
    requires ScoreOf(x, c) >= ScoreOf(x, d) && SigmaOf(x, c) <= SigmaOf(x, d)
    ensures Raw(x, c) >= Raw(x, d)
  {
    hide MedianSigma;
    hide Mul;
    hide VolFactor;
    hide ScoreFactor;
    hide SigmaOf;
    hide ScoreOf;
    var median := MedianSigma(x);
    VolOrder(x, median, c, d);
    ScoreOrder(x, c, d);
    ProductOrder(ScoreFactor(x, c), VolFactor(x, median, c), ScoreFactor(x, d), VolFactor(x, median, d));
  }

  lemma QuotientOrder(a: real, b: real, m: real)
    requires m > 0.0 && a <= b
    ensures a / m <= b / m
  {
  }

  lemma TiltOrder(x: Setup, mean: real, r: real, q: real)
    requires mean > 0.0 && r >= q
    ensures TiltOf(x, mean, r) >= TiltOf(x, mean, q)
  {
    QuotientOrder(q, r, mean);
    MulMonotone(Strength(x), q / mean - 1.0, r / mean - 1.0);
    hide Mul;
    hide Strength;
  }

  lemma {:induction false} SumIsPositive(m: map<string, real>, codes: seq<string>)
    requires forall c | c in codes :: c in m && m[c] > 0.0
    ensures codes != [] ==> SumOf(m, codes) > 0.0
  {
    if codes != [] {
      SumIsPositive(m, codes[..|codes| - 1]);
      assert codes[|codes| - 1] in codes;
    }
  }

  lemma MeanRawIsPositive(x: Setup)
    requires x.codes != []
    ensures MeanOf(RawTable(x), x.codes) > 0.0
  {
    hide Raw;
    SumIsPositive(RawTable(x), x.codes);
    hide SumOf;
  }

  /** At every setting, a name with no worse score and no higher volatility gets no smaller weight. */
  lemma BetterNameGetsNoLess(x: Setup, c: string, d: string)
    requires c in x.codes && d in x.codes
    requires ScoreOf(x, c) >= ScoreOf(x, d) && SigmaOf(x, c) <= SigmaOf(x, d)
    ensures Weight(x, c) >= Weight(x, d)
  {
    MeanRawIsPositive(x);
    MeanTilt(x);
    RawOrder(x, c, d);
    TiltOrder(x, MeanOf(RawTable(x), x.codes), Raw(x, c), Raw(x, d));
    QuotientOrder(Tilt(x, d), Tilt(x, c), MeanOf(TiltTable(x), x.codes));
    hide Raw;
    hide MeanOf;
    hide TiltOf;
  }

  // ----- How much more it gets -----

  /** The volatility a name is compared with. */
  function Unit(x: Setup): (u: real)
    ensures u > 0.0
  {
    if MedianSigma(x) > 0.0 then MedianSigma(x) else 1.0
  }

  /** A score of one or less counts as one. */
  function Merit(x: Setup, c: string): (m: real)
    ensures m >= 1.0
  {
    Max(1.0, ScoreOf(x, c))
  }

  lemma {:induction false} NoSigmas(x: Setup, codes: seq<string>, c: string)
    requires SigmasOf(x, codes) == [] && c in codes
    ensures !HasSigma(x, c)
  {
    var n := |codes| - 1;
    if codes[n] != c {
      NoSigmas(x, codes[..n], c);
    }
  }

  lemma MedianIsKnown(x: Setup)
    requires SigmasOf(x, x.codes) != []
    ensures MedianSigma(x) > 0.0
  {
    SortProperties(SigmasOf(x, x.codes), Identity);
    var sorted := SortBy(SigmasOf(x, x.codes), Identity);
    var r := sorted[|sorted| / 2];
    assert r in multiset(sorted);
    assert r in SigmasOf(x, x.codes);
  }

  lemma VolIs(x: Setup, c: string)
    requires c in x.codes
    ensures Mul(VolFactor(x, MedianSigma(x), c), SigmaOf(x, c)) == Unit(x)
  {
    if SigmasOf(x, x.codes) != [] {
      MedianIsKnown(x);
    } else {
      NoSigmas(x, x.codes, c);
    }
    hide MedianSigma;
    if HasSigma(x, c) && MedianSigma(x) > 0.0 {
      MulQuotient(MedianSigma(x), x.sigmas[c]);
    }
  }

  /** Preference is merit over volatility. */
  lemma RawIs(x: Setup, c: string)
    requires c in x.codes
    ensures Mul(Raw(x, c), SigmaOf(x, c)) == Mul(Merit(x, c) / 5.0, Unit(x))
  {
    var vol := VolFactor(x, MedianSigma(x), c);
    assert ScoreFactor(x, c) == Merit(x, c) / 5.0;
    assert Raw(x, c) == Mul(ScoreFactor(x, c), vol);
    hide *;
    VolIs(x, c);
    MulAssociative(ScoreFactor(x, c), vol, SigmaOf(x, c));
  }

  lemma CrossOrder(r: real, q: real, a: real, b: real, m: real, n: real, u: real)
    requires a > 0.0 && b > 0.0 && u > 0.0 && r > 0.0 && q > 0.0
    requires Mul(r, a) == Mul(m / 5.0, u) && Mul(q, b) == Mul(n / 5.0, u)
    ensures Mul(m, b) > Mul(n, a) <==> r > q
  {
    var k := u / 5.0;
    assert Mul(r, a) == Mul(k, m) && Mul(q, b) == Mul(k, n);
    Crossed(k, m, b, r, a);
    Crossed(k, n, a, q, b);
    var ab := Mul(a, b);
    MulSign(a, b);
    MulCommutes(b, a);
    hide Mul;
    MulCommutes(r, ab);
    MulCommutes(q, ab);
    if r > q {
      StrictlyMonotone(ab, q, r);
      CancelFactor(k, Mul(n, a), Mul(m, b));
    } else {
      MulMonotone(ab, r, q);
      CancelFactor(k, Mul(m, b), Mul(n, a));
    }
  }

  lemma Crossed(k: real, m: real, b: real, r: real, a: real)
    requires Mul(r, a) == Mul(k, m)
    ensures Mul(k, Mul(m, b)) == Mul(r, Mul(a, b))
  {
    MulAssociative(k, m, b);
    MulAssociative(r, a, b);
    hide Mul;
  }

  /** The one of higher merit for its volatility is preferred. */
  lemma PreferredIff(x: Setup, c: string, d: string)
    requires c in x.codes && d in x.codes
    ensures Raw(x, c) > Raw(x, d) <==> Mul(Merit(x, c), SigmaOf(x, d)) > Mul(Merit(x, d), SigmaOf(x, c))
  {
    hide *;
    RawIs(x, c);
    RawIs(x, d);
    CrossOrder(Raw(x, c), Raw(x, d), SigmaOf(x, c), SigmaOf(x, d), Merit(x, c), Merit(x, d), Unit(x));
  }

  /** The tilt a name would have without the clamp. */
  function Blend(x: Setup, c: string): real {
    1.0 + Mul(Strength(x), Raw(x, c) / MeanOf(RawTable(x), x.codes) - 1.0)
  }

  lemma BlendOrder(x: Setup, c: string, d: string)
    requires x.codes != [] && Raw(x, c) > Raw(x, d) && Strength(x) > 0.0
    ensures Blend(x, c) > Blend(x, d)
  {
    var mean := MeanOf(RawTable(x), x.codes);
    MeanRawIsPositive(x);
    hide Raw;
    hide MeanOf;
    hide Strength;
    hide Mul;
    QuotientStrict(Raw(x, d), Raw(x, c), mean);
    StrictlyMonotone(Strength(x), Raw(x, d) / mean - 1.0, Raw(x, c) / mean - 1.0);
  }

  lemma QuotientStrict(a: real, b: real, m: real)
    requires m > 0.0 && a < b
    ensures a / m < b / m
  {
  }

  lemma WeightStrictIff(x: Setup, c: string, d: string)
    requires c in x.codes && d in x.codes
    ensures Weight(x, c) > Weight(x, d) <==> Tilt(x, c) > Tilt(x, d)
  {
    var mean := MeanOf(TiltTable(x), x.codes);
    MeanTilt(x);
    hide Tilt;
    hide MeanOf;
    if Tilt(x, c) > Tilt(x, d) {
      QuotientStrict(Tilt(x, d), Tilt(x, c), mean);
    } else {
      QuotientOrder(Tilt(x, c), Tilt(x, d), mean);
    }
  }

  lemma TiltIsClampedBlend(x: Setup, c: string)
    ensures Tilt(x, c) == Max(1.0 / TiltBound(x), Min(TiltBound(x), Blend(x, c)))
  {
    hide Mul;
    hide Raw;
    hide MeanOf;
    hide Strength;
    hide TiltBound;
  }

  /** With any strength, a name of higher merit for its volatility gets strictly more, exactly unless the bound is one
      or the clamp has cut both to the same tilt. */
  lemma PreferredGetsMoreIff(x: Setup, c: string, d: string)
    requires c in x.codes && d in x.codes && x.strength > 0.0
    requires Mul(Merit(x, c), SigmaOf(x, d)) > Mul(Merit(x, d), SigmaOf(x, c))
    ensures Weight(x, c) > Weight(x, d) <==>
      TiltBound(x) > 1.0 && Blend(x, d) < TiltBound(x) && Blend(x, c) > 1.0 / TiltBound(x)
  {
    assert Strength(x) > 0.0;
    hide *;
    PreferredIff(x, c, d);
    BlendOrder(x, c, d);
    WeightStrictIff(x, c, d);
    TiltIsClampedBlend(x, c);
    TiltIsClampedBlend(x, d);
    BoundOrder(TiltBound(x));
    ClampStrictIff(TiltBound(x), Blend(x, c), Blend(x, d));
  }

  lemma BoundOrder(b: real)
    requires b >= 1.0
    ensures b == 1.0 ==> 1.0 / b == 1.0
    ensures b > 1.0 ==> 1.0 / b < b
  {
    if b > 1.0 {
      InverseSum(b);
    }
  }

  lemma ClampStrictIff(t: real, u: real, v: real)
    requires t >= 1.0 && u > v && (t == 1.0 ==> 1.0 / t == 1.0) && (t > 1.0 ==> 1.0 / t < t)
    ensures Max(1.0 / t, Min(t, u)) > Max(1.0 / t, Min(t, v)) <==> t > 1.0 && v < t && u > 1.0 / t
  {
  }

  /** So of two equally volatile names the one with the higher score (if above one), and of two with the same score the
      calmer one. */
  lemma HigherScoreOrCalmer(x: Setup, c: string, d: string)
    requires c in x.codes && d in x.codes
    requires (SigmaOf(x, c) == SigmaOf(x, d) && ScoreOf(x, c) > ScoreOf(x, d) && ScoreOf(x, c) > 1.0)
          || (ScoreOf(x, c) == ScoreOf(x, d) && SigmaOf(x, c) < SigmaOf(x, d))
    ensures Mul(Merit(x, c), SigmaOf(x, d)) > Mul(Merit(x, d), SigmaOf(x, c))
  {
    MulCommutes(Merit(x, c), SigmaOf(x, d));
    MulCommutes(Merit(x, d), SigmaOf(x, d));
    hide Mul;
    hide SigmaOf;
    hide ScoreOf;
    if SigmaOf(x, c) == SigmaOf(x, d) {
      StrictlyMonotone(SigmaOf(x, d), Merit(x, d), Merit(x, c));
    } else {
      StrictlyMonotone(Merit(x, c), SigmaOf(x, c), SigmaOf(x, d));
    }
  }

  // ----- The proportions -----

  predicate Unclamped(x: Setup, c: string) {
    1.0 / TiltBound(x) <= Blend(x, c) <= TiltBound(x)
  }

  lemma ShareOfMerit(x: Setup, c: string)
    requires c in x.codes && x.strength == 1.0 && Unclamped(x, c)
    ensures Mul(Weight(x, c), Mul(MeanOf(TiltTable(x), x.codes), MeanOf(RawTable(x), x.codes))) == Raw(x, c)
  {
    var mean, share := MeanOf(RawTable(x), x.codes), MeanOf(TiltTable(x), x.codes);
    assert Strength(x) == 1.0;
    assert Blend(x, c) == Raw(x, c) / mean;
    hide *;
    TiltIsClampedBlend(x, c);
    UnclampedTilt(x, c);
    WeightIsShare(x, c);
    MulAssociative(Weight(x, c), share, mean);
    MulQuotient(Raw(x, c), mean);
  }

  lemma UnclampedTilt(x: Setup, c: string)
    requires Unclamped(x, c)
    ensures Tilt(x, c) == Blend(x, c)
  {
    TiltIsClampedBlend(x, c);
    hide Tilt;
    hide Blend;
    hide TiltBound;
  }

  /** At full strength, where the clamp does not act, weights are in proportion to merit and inversely to volatility. */
  lemma WeightsInProportion(x: Setup, c: string, d: string)
    requires c in x.codes && d in x.codes && x.strength == 1.0 && Unclamped(x, c) && Unclamped(x, d)
    ensures Mul(Mul(Weight(x, c), SigmaOf(x, c)), Merit(x, d)) == Mul(Mul(Weight(x, d), SigmaOf(x, d)), Merit(x, c))
  {
    hide *;
    var k := Mul(MeanOf(TiltTable(x), x.codes), MeanOf(RawTable(x), x.codes));
    ShareOfMerit(x, c);
    ShareOfMerit(x, d);
    RawIs(x, c);
    RawIs(x, d);
    ScaleIsPositive(x);
    CrossProportion(Weight(x, c), Weight(x, d), k, Raw(x, c), Raw(x, d), SigmaOf(x, c), SigmaOf(x, d),
                    Merit(x, c), Merit(x, d), Unit(x));
  }

  lemma ScaleIsPositive(x: Setup)
    requires x.codes != []
    ensures Mul(MeanOf(TiltTable(x), x.codes), MeanOf(RawTable(x), x.codes)) > 0.0
  {
    MeanTilt(x);
    MeanRawIsPositive(x);
    hide MeanOf;
  }

  lemma CrossProportion(w: real, v: real, k: real, r: real, q: real, a: real, b: real, m: real, n: real, u: real)
    requires k > 0.0 && Mul(w, k) == r && Mul(v, k) == q
    requires Mul(r, a) == Mul(m / 5.0, u) && Mul(q, b) == Mul(n / 5.0, u)
    ensures Mul(Mul(w, a), n) == Mul(Mul(v, b), m)
  {
    Regrouped(k, w, a, r, m, u);
    Regrouped(k, v, b, q, n, u);
    Halves(Mul(w, a), m, u, n, k);
    Halves(Mul(v, b), n, u, m, k);
    assert Mul(Mul(u / 5.0, m), n) == Mul(Mul(u / 5.0, n), m);
    hide Mul;
    EqualFactors(k, Mul(Mul(w, a), n), Mul(Mul(v, b), m));
  }

  lemma Regrouped(k: real, w: real, a: real, r: real, m: real, u: real)
    requires Mul(w, k) == r && Mul(r, a) == Mul(m / 5.0, u)
    ensures Mul(k, Mul(w, a)) == Mul(u / 5.0, m)
  {
    MulCommutes(w, k);
    MulAssociative(k, w, a);
    assert Mul(m / 5.0, u) == Mul(u / 5.0, m);
    hide Mul;
  }

  lemma Halves(wa: real, m: real, u: real, n: real, k: real)
    requires Mul(k, wa) == Mul(u / 5.0, m)
    ensures Mul(k, Mul(wa, n)) == Mul(Mul(u / 5.0, m), n)
  {
    MulAssociative(k, wa, n);
    hide Mul;
  }

  /** Where the clamp acts on no name, a weight is the name's blend of an equal share and its preference. */
  lemma WeightIsBlend(x: Setup, c: string)
    requires c in x.codes && forall d | d in x.codes :: Unclamped(x, d)
    ensures Weight(x, c) == Blend(x, c)
  {
    TiltsAreBlends(x);
    assert x.codes != [];
    hide *;
    SumOfBlends(x);
    MeanTilt(x);
    MeanIsOne(MeanOf(TiltTable(x), x.codes), |x.codes| as real);
    UnclampedTilt(x, c);
    WeightIsShare(x, c);
    MulOne(Weight(x, c));
  }

  lemma MeanIsOne(mean: real, n: real)
    requires Mul(mean, n) == n && n > 0.0
    ensures mean == 1.0
  {
  }

  lemma TiltsAreBlends(x: Setup)
    requires x.codes != [] && forall d | d in x.codes :: Unclamped(x, d)
    ensures TiltTable(x) == BlendTable(x, MeanOf(RawTable(x), x.codes))
  {
    hide *;
    var t, b := TiltTable(x), BlendTable(x, MeanOf(RawTable(x), x.codes));
    Tables(x);
    forall d | d in x.codes
      ensures t[d] == b[d]
    {
      Entries(x, d);
      UnclampedTilt(x, d);
    }
    assert t == b;
  }

  lemma Tables(x: Setup)
    ensures forall d :: d in TiltTable(x) <==> d in x.codes
    ensures forall d :: d in BlendTable(x, MeanOf(RawTable(x), x.codes)) <==> d in x.codes
  {
    hide Tilt;
    hide Raw;
    hide MeanOf;
    hide Mul;
  }

  lemma Entries(x: Setup, d: string)
    requires d in x.codes
    ensures d in TiltTable(x) && TiltTable(x)[d] == Tilt(x, d)
    ensures d in BlendTable(x, MeanOf(RawTable(x), x.codes))
    ensures BlendTable(x, MeanOf(RawTable(x), x.codes))[d] == Blend(x, d)
  {
    hide Tilt;
    hide Raw;
    hide MeanOf;
    hide Mul;
    hide Strength;
  }

  /** At the shipped settings, scores of eight and two make weights of 1.3 and 0.7. */
  lemma EightAgainstTwo()
    ensures var x := Setup(["A", "B"], map["A" := 8.0, "B" := 2.0], map[], 0.5, 2.0);
      Weight(x, "A") == 1.3 && Weight(x, "B") == 0.7
  {
    var x := Setup(["A", "B"], map["A" := 8.0, "B" := 2.0], map[], 0.5, 2.0);
    assert x.codes[..1] == ["A"] && ["A"][..0] == [];
    assert SigmasOf(x, ["A"]) == [] && SigmasOf(x, x.codes) == [];
    assert MedianSigma(x) == 0.0;
    assert Raw(x, "A") == 1.6 && Raw(x, "B") == 0.4;
    assert SumOf(RawTable(x), ["A"]) == 1.6;
    assert SumOf(RawTable(x), x.codes) == 2.0;
    assert MeanOf(RawTable(x), x.codes) == 1.0;
    assert Blend(x, "A") == 1.3 && Blend(x, "B") == 0.7;
    assert forall c | c in x.codes :: c == "A" || c == "B";
    assert TiltBound(x) == 2.0;
    hide Blend;
    WeightIsBlend(x, "A");
    WeightIsBlend(x, "B");
    hide *;
  }

  lemma FlatTilts(x: Setup)
    requires x.strength <= 0.0
    ensures forall c | c in x.codes :: Tilt(x, c) == 1.0
    ensures MeanOf(TiltTable(x), x.codes) == 1.0
  {
    forall c | c in x.codes
      ensures Tilt(x, c) == 1.0
    {
      FlatTilt(x, MeanOf(RawTable(x), x.codes), Raw(x, c));
      hide Raw;
      hide TiltOf;
    }
    hide Tilt;
    hide MeanOf;
    MeanOfOnes(TiltTable(x), x.codes);
  }

  lemma MeanOfOnes(m: map<string, real>, codes: seq<string>)
    requires forall c | c in codes :: c in m && m[c] == 1.0
    ensures MeanOf(m, codes) == 1.0
  {
    EqualSum(codes, m);
    hide SumOf;
  }

  /** Without strength, or in any other mode, the split is equal. */
  lemma EqualWithoutStrength(x: Setup, mode: string)
    requires mode != RISK_WEIGHTED || x.strength <= 0.0
    ensures SizingWeights(x, mode) == EqualWeights(x.codes)
  {
    if mode == RISK_WEIGHTED {
      FlatTilts(x);
      hide Tilt;
      hide MeanOf;
      forall c | c in x.codes
        ensures Weight(x, c) == 1.0
      {
      }
      hide Weight;
    }
  }

  lemma FlatTilt(x: Setup, mean: real, raw: real)
    requires x.strength <= 0.0 && mean != 0.0
    ensures TiltOf(x, mean, raw) == 1.0
  {
  }

  lemma TiltBoundInverse(b: real)
    requires b >= 1.0
    ensures 0.0 < 1.0 / b <= 1.0
  {
  }

  // ----- Settings out of range -----

  /** A strength above one acts as one, and a bound below one as one, under which all weights are equal. */
  lemma SettingsAreClamped(x: Setup, c: string)
    requires c in x.codes
    ensures x.strength >= 1.0 ==> Weight(x, c) == Weight(x.(strength := 1.0), c)
    ensures x.maxTilt <= 1.0 ==> Weight(x, c) == 1.0
  {
    hide *;
    ClampedSettings(x);
    if x.strength >= 1.0 {
      SameTilts(x, x.(strength := 1.0));
    }
    if x.maxTilt <= 1.0 {
      WeightWithin(x, c);
      OnlyOne(Weight(x, c), |x.codes| as real);
    }
  }

  lemma ClampedSettings(x: Setup)
    ensures x.strength >= 1.0 ==> Strength(x) == Strength(x.(strength := 1.0))
    ensures x.maxTilt <= 1.0 ==> TiltBound(x) == 1.0 && Least(x) == 1.0
  {
  }

  lemma OnlyOne(w: real, n: real)
    requires Mul(w, 1.0 + Mul(n - 1.0, 1.0)) <= Mul(n, 1.0) <= Mul(w, 1.0 + Mul(n - 1.0, 1.0)) && n > 0.0
    ensures w == 1.0
  {
    MulOne(n - 1.0);
    assert 1.0 + Mul(n - 1.0, 1.0) == n;
    MulCommutes(w, n);
    hide Mul;
    CancelFactor(n, w, 1.0);
    CancelFactor(n, 1.0, w);
  }

  lemma SameTilts(x: Setup, y: Setup)
    requires y == x.(strength := y.strength) && Strength(x) == Strength(y)
    ensures forall c :: Tilt(y, c) == Tilt(x, c)
    ensures TiltTable(y) == TiltTable(x)
    ensures forall c | c in x.codes :: Weight(y, c) == Weight(x, c)
  {
    SameRaw(x, y, x.codes);
    hide Raw;
    assert RawTable(y) == RawTable(x);
    hide RawTable;
    hide MeanOf;
    hide Mul;
  }

  lemma {:induction false} SameSigmas(x: Setup, y: Setup, codes: seq<string>)
    requires y == x.(strength := y.strength)
    ensures SigmasOf(y, codes) == SigmasOf(x, codes)
  {
    if codes != [] {
      SameSigmas(x, y, codes[..|codes| - 1]);
    }
  }

  lemma SameRaw(x: Setup, y: Setup, codes: seq<string>)
    requires y == x.(strength := y.strength)
    ensures forall c :: Raw(y, c) == Raw(x, c)
  {
    SameSigmas(x, y, x.codes);
  }
}
