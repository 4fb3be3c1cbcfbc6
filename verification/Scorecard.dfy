/** Signal statistics (tools/agent_scorecard.py): tie-averaged ranks, rank correlation and the
    least-squares line of portfolio on benchmark returns. */
module Scorecard {
  import opened Common
  import opened Sorting

  // ----- Ranks -----

  function Below(v: real): real -> bool {
    x => x < v
  }

  function EqualTo(v: real): real -> bool {
    x => x == v
  }

  /** The defining property of a tie-averaged, 1-based rank: the mean position of the elements equal
      to xs[i] when those smaller than it come first. No sorting is involved. */
  function MeanRank(xs: seq<real>, i: nat): real
    requires i < |xs|
  {
    CountIf(xs, Below(xs[i])) as real + (CountIf(xs, EqualTo(xs[i])) as real + 1.0) / 2.0
  }

  function KeyOf(xs: seq<real>): int -> real {
    i => if 0 <= i < |xs| then xs[i] else 0.0
  }

  function BelowAt(key: int -> real, v: real): int -> bool {
    i => key(i) < v
  }

  function EqualAt(key: int -> real, v: real): int -> bool {
    i => key(i) == v
  }

  function Indices(n: nat): seq<int> {
    seq(n, i => i)
  }

  /** Counting over the values is counting over the indices. */
  lemma {:induction false} CountOverIndices(xs: seq<real>, n: nat, v: real)
    requires n <= |xs|
    ensures CountIf(Indices(n), BelowAt(KeyOf(xs), v)) == CountIf(xs[..n], Below(v))
    ensures CountIf(Indices(n), EqualAt(KeyOf(xs), v)) == CountIf(xs[..n], EqualTo(v))
  {
    if n > 0 {
      CountOverIndices(xs, n - 1, v);
      assert Indices(n)[..n - 1] == Indices(n - 1);
      assert xs[..n][..n - 1] == xs[..n - 1];
    }
  }

  lemma {:induction false} CountConstant(s: seq<int>, p: int -> bool, b: bool)
    requires forall k | 0 <= k < |s| :: p(s[k]) == b
    ensures CountIf(s, p) == if b then |s| else 0
  {
    if s != [] {
      CountConstant(s[..|s| - 1], p, b);
    }
  }

  lemma CountThree(order: seq<int>, i: nat, j: nat, p: int -> bool)
    requires i <= j <= |order|
    ensures CountIf(order, p) == CountIf(order[..i], p) + CountIf(order[i..j], p) + CountIf(order[j..], p)
  {
    hide CountIf;
    assert order == order[..i] + (order[i..j] + order[j..]);
    CountIfAppend(order[..i], order[i..j] + order[j..], p);
    CountIfAppend(order[i..j], order[j..], p);
  }

  /** The positions i..j of an order hold value v, those before hold less and those after more. */
  ghost predicate Block(order: seq<int>, key: int -> real, i: nat, j: nat, v: real) {
    && i <= j <= |order|
    && (forall k | 0 <= k < i :: key(order[k]) < v)
    && (forall k | i <= k < j :: key(order[k]) == v)
    && (forall k | j <= k < |order| :: key(order[k]) > v)
  }

  lemma BlockBelow(order: seq<int>, key: int -> real, i: nat, j: nat, v: real)
    requires Block(order, key, i, j, v)
    ensures CountIf(order, BelowAt(key, v)) == i
  {
    CountThree(order, i, j, BelowAt(key, v));
    CountConstant(order[..i], BelowAt(key, v), true);
    CountConstant(order[i..j], BelowAt(key, v), false);
    CountConstant(order[j..], BelowAt(key, v), false);
  }

  lemma BlockEqual(order: seq<int>, key: int -> real, i: nat, j: nat, v: real)
    requires Block(order, key, i, j, v)
    ensures CountIf(order, EqualAt(key, v)) == j - i
  {
    CountThree(order, i, j, EqualAt(key, v));
    CountConstant(order[..i], EqualAt(key, v), false);
    CountConstant(order[i..j], EqualAt(key, v), true);
    CountConstant(order[j..], EqualAt(key, v), false);
  }

  /** A maximal run of equal values in an ascending order is a block. */
  lemma RunIsBlock(order: seq<int>, key: int -> real, i: nat, j: nat)
    requires i <= j < |order|
    requires Ascending(order, key)
    requires i == 0 || key(order[i - 1]) < key(order[i])
    requires key(order[i]) == key(order[j])
    requires j + 1 == |order| || key(order[j + 1]) != key(order[i])
    ensures Block(order, key, i, j + 1, key(order[i]))
  {
  }

  function MeanRanks(xs: seq<real>): seq<real> {
    seq(|xs|, i requires 0 <= i < |xs| => MeanRank(xs, i))
  }

  ghost predicate InRange(order: seq<int>, n: nat) {
    |order| == n && forall k | 0 <= k < n :: 0 <= order[k] < n
  }

  /** The positions in order, each an index below n, no index twice, none missing. */
  ghost predicate Permutation(order: seq<int>, n: nat) {
    && InRange(order, n)
    && (forall m | 0 <= m < n :: m in order)
    && (forall j, k | 0 <= j < k < n :: order[j] != order[k])
  }

  /** Ranks by sorting the indices and walking the runs of equal values. */
  method Rank(xs: seq<real>) returns (ranks: seq<real>)
    ensures ranks == MeanRanks(xs)
  {
    var order := SortBy(Indices(|xs|), KeyOf(xs));
    SortProperties(Indices(|xs|), KeyOf(xs));
    OrderIsPermutation(order, |xs|);
    hide MeanRanks;
    hide Ranked;
    hide RunStart;
    hide SortBy;
    hide Ascending;
    ranks := seq(|xs|, _ => 0.0);
    var i := 0;
    NothingRanked(xs, order, ranks);
    while i < |order|
      invariant 0 <= i <= |order| == |ranks| == |xs|
      invariant RunStart(xs, order, i)
      invariant Ranked(xs, order, ranks, i)
    {
      var j := RunEnd(xs, order, i);
      var avg := (i + j) as real / 2.0 + 1.0;
      RunRank(xs, order, i, j);
      ranks := FillRun(xs, ranks, order, i, j, avg);
      i := j + 1;
    }
    AllRanked(xs, order, ranks);
  }

  /** Position i does not continue the run of the position before it. */
  ghost predicate RunStart(xs: seq<real>, order: seq<int>, i: nat)
    requires InRange(order, |xs|)
  {
    0 < i < |order| ==> xs[order[i - 1]] != xs[order[i]]
  }

  /** The first i positions of the order have received their ranks. */
  ghost predicate Ranked(xs: seq<real>, order: seq<int>, ranks: seq<real>, i: nat)
    requires InRange(order, |xs|) && |ranks| == |xs| && i <= |xs|
  {
    forall k | 0 <= k < i :: ranks[order[k]] == MeanRanks(xs)[order[k]]
  }

  lemma NothingRanked(xs: seq<real>, order: seq<int>, ranks: seq<real>)
    requires InRange(order, |xs|) && |ranks| == |xs|
    ensures RunStart(xs, order, 0) && Ranked(xs, order, ranks, 0)
  {
  }

  lemma AllRanked(xs: seq<real>, order: seq<int>, ranks: seq<real>)
    requires Permutation(order, |xs|) && |ranks| == |xs| && Ranked(xs, order, ranks, |xs|)
    ensures ranks == MeanRanks(xs)
  {
    forall m | 0 <= m < |xs|
      ensures ranks[m] == MeanRanks(xs)[m]
    {
      var k := PositionOf(order, |xs|, m);
    }
  }

  /** The first inner loop: the last position of the run that starts at i. */
  method RunEnd(xs: seq<real>, order: seq<int>, i: nat) returns (j: nat)
    requires InRange(order, |xs|) && i < |order|
    ensures i <= j < |order|
    ensures xs[order[j]] == xs[order[i]]
    ensures RunStart(xs, order, j + 1)
  {
    j := i;
    while j + 1 < |order| && xs[order[j + 1]] == xs[order[i]]
      invariant i <= j < |order|
      invariant xs[order[j]] == xs[order[i]]
    {
      j := j + 1;
    }
  }

  /** The second inner loop: gives every member of the run i..j the same rank. */
  method FillRun(xs: seq<real>, before: seq<real>, order: seq<int>, i: nat, j: nat, avg: real)
    returns (ranks: seq<real>)
    requires Permutation(order, |xs|) && |before| == |xs|
    requires i <= j < |order|
    requires Ranked(xs, order, before, i)
    requires forall k | i <= k <= j :: MeanRanks(xs)[order[k]] == avg
    ensures |ranks| == |xs|
    ensures Ranked(xs, order, ranks, j + 1)
  {
    ranks := before;
    for k := i to j + 1
      invariant |ranks| == |xs|
      invariant Ranked(xs, order, ranks, k)
    {
      ranks := ranks[order[k] := avg];
    }
  }

  lemma PositionOf(order: seq<int>, n: nat, m: int) returns (k: nat)
    requires Permutation(order, n) && 0 <= m < n
    ensures k < |order| && order[k] == m
  {
    assert m in order;
    k :| 0 <= k < |order| && order[k] == m;
  }

  lemma OrderIsPermutation(order: seq<int>, n: nat)
    requires multiset(order) == multiset(Indices(n))
    ensures Permutation(order, n)
  {
    assert |multiset(order)| == |multiset(Indices(n))|;
    forall k | 0 <= k < |order|
      ensures 0 <= order[k] < n
    {
      assert order[k] in multiset(order);
      assert order[k] in Indices(n);
    }
    forall m | 0 <= m < n
      ensures m in order
    {
      assert Indices(n)[m] == m;
      assert m in multiset(order);
    }
    forall j, k | 0 <= j < k < |order|
      ensures order[j] != order[k]
    {
      if order[j] == order[k] {
        var m := order[j];
        IndicesOnce(n, m);
        Twice(order, j, k);
      }
    }
  }

  lemma Twice(s: seq<int>, j: nat, k: nat)
    requires j < k < |s|
    requires s[j] == s[k]
    ensures multiset(s)[s[k]] >= 2
  {
    assert s == s[..k] + s[k..];
    assert s[..k][j] == s[k];
    assert s[k..][0] == s[k];
    assert s[k] in multiset(s[..k]);
    assert s[k] in multiset(s[k..]);
  }

  lemma {:induction false} IndicesOnce(n: nat, m: int)
    ensures multiset(Indices(n))[m] == if 0 <= m < n then 1 else 0
  {
    if n > 0 {
      IndicesOnce(n - 1, m);
      assert Indices(n) == Indices(n - 1) + [n - 1];
    }
  }

  /** The average assigned to a run of equal values is the mean rank of each of its members. */
  lemma RunRank(xs: seq<real>, order: seq<int>, i: nat, j: nat)
    requires i <= j < |order|
    requires order == SortBy(Indices(|xs|), KeyOf(xs))
    requires InRange(order, |xs|)
    requires RunStart(xs, order, i) && RunStart(xs, order, j + 1)
    requires xs[order[i]] == xs[order[j]]
    ensures forall k | i <= k <= j :: MeanRanks(xs)[order[k]] == (i + j) as real / 2.0 + 1.0
  {
    hide CountIf;
    hide SortBy;
    hide Indices;
    var key, v := KeyOf(xs), xs[order[i]];
    SortProperties(Indices(|xs|), key);
    assert i == 0 || key(order[i - 1]) <= key(order[i]);
    RunIsBlock(order, key, i, j);
    ValueCounts(xs, v);
    BlockBelow(order, key, i, j + 1, v);
    BlockEqual(order, key, i, j + 1, v);
    forall k | i <= k <= j
      ensures MeanRanks(xs)[order[k]] == (i + j) as real / 2.0 + 1.0
    {
      assert xs[order[k]] == key(order[k]) == v;
      HalfWay(i, j);
    }
  }

  lemma HalfWay(i: nat, j: nat)
    requires i <= j
    ensures i as real + ((j + 1 - i) as real + 1.0) / 2.0 == (i + j) as real / 2.0 + 1.0
  {
  }

  /** Counting over the sorted indices is counting over the values. */
  lemma ValueCounts(xs: seq<real>, v: real)
    ensures CountIf(SortBy(Indices(|xs|), KeyOf(xs)), BelowAt(KeyOf(xs), v)) == CountIf(xs, Below(v))
    ensures CountIf(SortBy(Indices(|xs|), KeyOf(xs)), EqualAt(KeyOf(xs), v)) == CountIf(xs, EqualTo(v))
  {
    SortCount(Indices(|xs|), KeyOf(xs), BelowAt(KeyOf(xs), v));
    SortCount(Indices(|xs|), KeyOf(xs), EqualAt(KeyOf(xs), v));
    CountOverIndices(xs, |xs|, v);
    assert xs[..|xs|] == xs;
  }

  // ----- Rank sum -----

  function RankSum(xs: seq<real>): real {
    Sum(seq(|xs|, i requires 0 <= i < |xs| => MeanRank(xs, i)))
  }

  /** Twice the ranks of the first k elements of xs, less k. */
  ghost function DoubledPrefix(xs: seq<real>, k: nat): nat
    requires k <= |xs|
  {
    if k == 0 then 0
    else DoubledPrefix(xs, k - 1) + 2 * CountIf(xs, Below(xs[k - 1])) + CountIf(xs, EqualTo(xs[k - 1]))
  }

  function Above(v: real): real -> bool {
    x => x > v
  }

  /** One more element x raises the ranks of the larger ones by one and of its equals by a half. */
  lemma {:induction false} DoubledGrows(xs: seq<real>, x: real, k: nat)
    requires k <= |xs|
    ensures DoubledPrefix(xs + [x], k)
         == DoubledPrefix(xs, k) + 2 * CountIf(xs[..k], Above(x)) + CountIf(xs[..k], EqualTo(x))
  {
    if k > 0 {
      DoubledGrows(xs, x, k - 1);
      CountIfSnoc(xs, x, Below(xs[k - 1]));
      CountIfSnoc(xs, x, EqualTo(xs[k - 1]));
      assert xs[..k][..k - 1] == xs[..k - 1];
    }
  }

  lemma {:induction false} DoubledTotal(xs: seq<real>)
    ensures DoubledPrefix(xs, |xs|) == OddSum(|xs|)
  {
    if xs != [] {
      var n := |xs| - 1;
      var ys, x := xs[..n], xs[n];
      assert xs == ys + [x] && ys[..n] == ys;
      DoubledTotal(ys);
      DoubledGrows(ys, x, n);
      LastRank(ys, x);
    }
  }

  /** The sum of the first n odd numbers. */
  function OddSum(n: nat): nat {
    if n == 0 then 0 else OddSum(n - 1) + 2 * n - 1
  }

  lemma {:induction false} OddSumIsSquare(n: nat)
    ensures OddSum(n) == n * n
  {
    if n > 0 {
      OddSumIsSquare(n - 1);
    }
  }

  lemma LastRank(ys: seq<real>, x: real)
    ensures DoubledPrefix(ys + [x], |ys| + 1)
         == DoubledPrefix(ys + [x], |ys|) + 2 * CountIf(ys, Below(x)) + CountIf(ys, EqualTo(x)) + 1
    ensures CountIf(ys, Below(x)) + CountIf(ys, EqualTo(x)) + CountIf(ys, Above(x)) == |ys|
  {
  }

  lemma {:induction false} PrefixOfRanks(xs: seq<real>, k: nat)
    requires k <= |xs|
    ensures 2.0 * Sum(seq(k, i requires 0 <= i < k => MeanRank(xs, i))) == (DoubledPrefix(xs, k) + k) as real
  {
    var s := seq(k, i requires 0 <= i < k => MeanRank(xs, i));
    if k > 0 {
      PrefixOfRanks(xs, k - 1);
      assert s[..k - 1] == seq(k - 1, i requires 0 <= i < k - 1 => MeanRank(xs, i));
    }
  }

  /** Ties or no ties, the ranks always add up to n(n+1)/2. */
  lemma RankSumTotal(xs: seq<real>)
    ensures RankSum(xs) == (|xs| * (|xs| + 1)) as real / 2.0
  {
    PrefixOfRanks(xs, |xs|);
    DoubledTotal(xs);
    OddSumIsSquare(|xs|);
  }

  // ----- Correlation -----

  function Mean(xs: seq<real>): real
    requires xs != []
  {
    Sum(xs) / |xs| as real
  }

  function Shift(xs: seq<real>, m: real): (r: seq<real>)
    ensures |r| == |xs|
  {
    if xs == [] then [] else Shift(xs[..|xs| - 1], m) + [xs[|xs| - 1] - m]
  }

  function Centred(xs: seq<real>): (r: seq<real>)
    requires xs != []
    ensures |r| == |xs|
  {
    Shift(xs, Mean(xs))
  }

  /** The inner product of two equally long sequences. */
  function Dot(xs: seq<real>, ys: seq<real>): real
    requires |xs| == |ys|
  {
    if xs == [] then 0.0
    else Dot(xs[..|xs| - 1], ys[..|ys| - 1]) + Mul(xs[|xs| - 1], ys[|ys| - 1])
  }

  /** A correlation coefficient in the exact form cov / (vx^½ · vy^½). */
  datatype Correlation = Correlation(cov: real, vx: real, vy: real)

  function Pearson(xs: seq<real>, ys: seq<real>): Option<Correlation>
    requires |xs| == |ys|
  {
    if |xs| < 3 then None
    else
      var dx, dy := Centred(xs), Centred(ys);
      var vx, vy := Dot(dx, dx), Dot(dy, dy);
      if vx <= 0.0 || vy <= 0.0 then None else Some(Correlation(Dot(dx, dy), vx, vy))
  }

  /** ys - t·xs, element by element. */
  function Residual(xs: seq<real>, ys: seq<real>, t: real): (r: seq<real>)
    requires |xs| == |ys|
    ensures |r| == |xs|
  {
    if xs == [] then []
    else Residual(xs[..|xs| - 1], ys[..|ys| - 1], t) + [ys[|ys| - 1] - Mul(t, xs[|xs| - 1])]
  }

  lemma {:induction false} SquaresNonNegative(xs: seq<real>)
    ensures Dot(xs, xs) >= 0.0
  {
    hide Mul;
    if xs != [] {
      SquaresNonNegative(xs[..|xs| - 1]);
      MulSquare(xs[|xs| - 1]);
    }
  }

  /** A sequence of zero square sum is all zeros, so its product with anything vanishes. */
  lemma {:induction false} ZeroSquares(xs: seq<real>, ys: seq<real>)
    requires |xs| == |ys|
    requires Dot(xs, xs) == 0.0
    ensures Dot(xs, ys) == 0.0
    ensures forall i | 0 <= i < |xs| :: xs[i] == 0.0
  {
    hide Mul;
    if xs != [] {
      var n := |xs| - 1;
      SquaresNonNegative(xs[..n]);
      MulSquare(xs[n]);
      ZeroSquares(xs[..n], ys[..n]);
      assert forall i | 0 <= i < n :: xs[..n][i] == xs[i];
      MulZero(ys[n]);
    }
  }

  lemma {:induction false} DotCommutes(xs: seq<real>, ys: seq<real>)
    requires |xs| == |ys|
    ensures Dot(xs, ys) == Dot(ys, xs)
  {
    hide Mul;
    if xs != [] {
      var n := |xs| - 1;
      DotCommutes(xs[..n], ys[..n]);
      MulCommutes(xs[n], ys[n]);
    }
  }

  lemma {:induction false} DotResidual(xs: seq<real>, ys: seq<real>, t: real, zs: seq<real>)
    requires |xs| == |ys| == |zs|
    ensures Dot(Residual(xs, ys, t), zs) == Dot(ys, zs) - Mul(t, Dot(xs, zs))
  {
    if xs == [] {
      assert Mul(t, 0.0) == 0.0;
    } else {
      hide Mul;
      var n := |xs| - 1;
      DotResidual(xs[..n], ys[..n], t, zs[..n]);
      assert Residual(xs, ys, t)[..n] == Residual(xs[..n], ys[..n], t);
      MulRight(ys[n], Mul(t, xs[n]), zs[n]);
      MulAssociative(t, xs[n], zs[n]);
      MulLeft(t, Dot(xs[..n], zs[..n]), Mul(xs[n], zs[n]));
    }
  }

  lemma ResidualSquares(xs: seq<real>, ys: seq<real>, t: real)
    requires |xs| == |ys|
    ensures Dot(Residual(xs, ys, t), Residual(xs, ys, t))
         == Dot(ys, ys) - 2.0 * Mul(t, Dot(xs, ys)) + Mul(t, Mul(t, Dot(xs, xs)))
  {
    hide Mul;
    var r := Residual(xs, ys, t);
    DotResidual(xs, ys, t, r);
    DotCommutes(ys, r);
    DotCommutes(xs, r);
    DotResidual(xs, ys, t, ys);
    DotResidual(xs, ys, t, xs);
    DotCommutes(xs, ys);
    MulLeft(t, Dot(xs, ys), Mul(t, Dot(xs, xs)));
  }

  lemma Discriminant(c: real, vx: real, vy: real, t: real)
    requires vx > 0.0 && Mul(t, vx) == c
    requires vy - 2.0 * Mul(t, c) + Mul(t, Mul(t, vx)) >= 0.0
    ensures Mul(c, c) <= Mul(vx, vy)
  {
  }

  /** The Cauchy-Schwarz inequality. */
  lemma CauchySchwarz(xs: seq<real>, ys: seq<real>)
    requires |xs| == |ys|
    ensures Mul(Dot(xs, ys), Dot(xs, ys)) <= Mul(Dot(xs, xs), Dot(ys, ys))
  {
    var c, vx, vy := Dot(xs, ys), Dot(xs, xs), Dot(ys, ys);
    SquaresNonNegative(xs);
    hide Dot;
    hide Mul;
    if vx > 0.0 {
      var t := c / vx;
      MulQuotient(c, vx);
      ResidualSquares(xs, ys, t);
      SquaresNonNegative(Residual(xs, ys, t));
      Discriminant(c, vx, vy, t);
    } else {
      ZeroSquares(xs, ys);
      MulZero(vy);
      MulZero(0.0);
    }
  }

  /** Every coefficient that is reported lies in [-1, 1]: its square is at most one. */
  lemma PearsonBounded(xs: seq<real>, ys: seq<real>)
    requires |xs| == |ys|
    ensures Pearson(xs, ys).Some? ==>
              && Pearson(xs, ys).value.vx > 0.0
              && Pearson(xs, ys).value.vy > 0.0
              && Mul(Pearson(xs, ys).value.cov, Pearson(xs, ys).value.cov)
                 <= Mul(Pearson(xs, ys).value.vx, Pearson(xs, ys).value.vy)
  {
    if |xs| >= 3 {
      CauchySchwarz(Centred(xs), Centred(ys));
    }
  }

  /** The rank correlation of the signals with the returns that followed them. */
  method InformationCoefficient(sigs: seq<real>, rets: seq<real>) returns (ic: Option<Correlation>)
    requires |sigs| == |rets|
    ensures ic == Spearman(sigs, rets)
  {
    if |sigs| < 3 {
      return None;
    }
    var a := Rank(sigs);
    var b := Rank(rets);
    ic := Pearson(a, b);
  }

  function Spearman(sigs: seq<real>, rets: seq<real>): Option<Correlation>
    requires |sigs| == |rets|
  {
    Pearson(MeanRanks(sigs), MeanRanks(rets))
  }

  /** Two sequences that order every pair of positions alike. */
  ghost predicate SameOrder(xs: seq<real>, ys: seq<real>) {
    |xs| == |ys| && forall i, j | 0 <= i < |xs| && 0 <= j < |xs| :: xs[i] < xs[j] <==> ys[i] < ys[j]
  }

  lemma {:induction false} SameCounts(xs: seq<real>, ys: seq<real>, n: nat, i: nat)
    requires SameOrder(xs, ys)
    requires n <= |xs| && i < |xs|
    ensures CountIf(xs[..n], Below(xs[i])) == CountIf(ys[..n], Below(ys[i]))
    ensures CountIf(xs[..n], EqualTo(xs[i])) == CountIf(ys[..n], EqualTo(ys[i]))
  {
    if n > 0 {
      SameCounts(xs, ys, n - 1, i);
      assert xs[..n][..n - 1] == xs[..n - 1];
      assert ys[..n][..n - 1] == ys[..n - 1];
      assert xs[n - 1] < xs[i] <==> ys[n - 1] < ys[i];
      assert xs[i] < xs[n - 1] <==> ys[i] < ys[n - 1];
    }
  }

  lemma SameOrderSameRanks(xs: seq<real>, ys: seq<real>)
    requires SameOrder(xs, ys)
    ensures MeanRanks(xs) == MeanRanks(ys)
  {
    forall i | 0 <= i < |xs|
      ensures MeanRank(xs, i) == MeanRank(ys, i)
    {
      SameCounts(xs, ys, |xs|, i);
      assert xs[..|xs|] == xs && ys[..|ys|] == ys;
    }
  }

  /** Rescoring the signals in any strictly order-preserving way leaves the coefficient unchanged, and so
      does rescaling the returns. */
  lemma CoefficientIsOrdinal(sigs: seq<real>, sigs': seq<real>, rets: seq<real>, rets': seq<real>)
    requires |sigs| == |rets|
    requires SameOrder(sigs, sigs') && SameOrder(rets, rets')
    ensures Spearman(sigs', rets') == Spearman(sigs, rets)
  {
    SameOrderSameRanks(sigs, sigs');
    SameOrderSameRanks(rets, rets');
  }

  // ----- When there is a coefficient -----

  lemma {:induction false} BelowGrows(xs: seq<real>, v: real, w: real)
    requires v < w
    ensures CountIf(xs, Below(v)) + CountIf(xs, EqualTo(v)) <= CountIf(xs, Below(w))
  {
    if xs != [] {
      BelowGrows(xs[..|xs| - 1], v, w);
    }
  }

  lemma {:induction false} CountsItself(xs: seq<real>, i: nat)
    requires i < |xs|
    ensures CountIf(xs, EqualTo(xs[i])) >= 1
  {
    var n := |xs| - 1;
    if i < n {
      CountsItself(xs[..n], i);
    }
  }

  /** A larger value has a higher rank. */
  lemma RanksAscend(xs: seq<real>, i: nat, j: nat)
    requires i < |xs| && j < |xs| && xs[i] < xs[j]
    ensures MeanRank(xs, i) < MeanRank(xs, j)
  {
    BelowGrows(xs, xs[i], xs[j]);
    CountsItself(xs, i);
    CountsItself(xs, j);
    hide CountIf;
  }

  lemma EqualRanksIff(xs: seq<real>)
    ensures AllEqual(MeanRanks(xs)) <==> AllEqual(xs)
  {
    if AllEqual(MeanRanks(xs)) {
      forall i | 0 <= i < |xs|
        ensures xs[i] == xs[0]
      {
        assert MeanRanks(xs)[i] == MeanRanks(xs)[0];
        if xs[i] < xs[0] {
          RanksAscend(xs, i, 0);
        } else if xs[0] < xs[i] {
          RanksAscend(xs, 0, i);
        }
      }
    }
  }

  /** No coefficient is reported exactly if there are fewer than three pairs, or all signals or all returns are the
      same. */
  lemma CoefficientUndefinedIff(sigs: seq<real>, rets: seq<real>)
    requires |sigs| == |rets|
    ensures Spearman(sigs, rets) == None <==> |sigs| < 3 || AllEqual(sigs) || AllEqual(rets)
  {
    EqualRanksIff(sigs);
    EqualRanksIff(rets);
    var r, q := MeanRanks(sigs), MeanRanks(rets);
    assert |r| == |q| == |sigs|;
    assert Spearman(sigs, rets) == Pearson(r, q);
    hide MeanRanks;
    hide AllEqual;
    if |r| >= 3 {
      NoVarianceIff(r);
      NoVarianceIff(q);
      SquaresNonNegative(Centred(r));
      SquaresNonNegative(Centred(q));
    }
    hide Dot;
    hide Centred;
  }

  // ----- The sign of the coefficient -----

  lemma {:induction false} SumAffine(xs: seq<real>, ys: seq<real>, a: real, b: real)
    requires |xs| == |ys| && forall i | 0 <= i < |xs| :: ys[i] == Mul(a, xs[i]) + b
    ensures Sum(ys) == Mul(a, Sum(xs)) + Mul(|xs| as real, b)
  {
    if xs == [] {
      MulZero(a);
      MulZero(b);
    } else {
      var n := |xs| - 1;
      SumAffine(xs[..n], ys[..n], a, b);
      MulLeft(a, Sum(xs[..n]), xs[n]);
      MulCount(n, b);
      hide Mul;
    }
  }

  lemma MeanAffine(sx: real, sy: real, a: real, b: real, n: real)
    requires n > 0.0 && sy == Mul(a, sx) + Mul(n, b)
    ensures sy / n == Mul(a, sx / n) + b
  {
  }

  predicate AllZero(zs: seq<real>) {
    forall i | 0 <= i < |zs| :: zs[i] == 0.0
  }

  lemma {:induction false} ResidualOfShifts(xs: seq<real>, ys: seq<real>, a: real, b: real, m: real)
    requires |xs| == |ys| && forall i | 0 <= i < |xs| :: ys[i] == Mul(a, xs[i]) + b
    ensures AllZero(Residual(Shift(xs, m), Shift(ys, Mul(a, m) + b), a))
  {
    if xs != [] {
      var n := |xs| - 1;
      ResidualOfShifts(xs[..n], ys[..n], a, b, m);
      MulLeft(a, xs[n], m);
      hide Mul;
    }
  }

  lemma {:induction false} ZerosVanish(zs: seq<real>, ys: seq<real>)
    requires |zs| == |ys| && AllZero(zs)
    ensures Dot(zs, ys) == 0.0
  {
    if zs != [] {
      ZerosVanish(zs[..|zs| - 1], ys[..|ys| - 1]);
      MulZero(ys[|ys| - 1]);
      hide Mul;
    }
  }

  lemma CentredAffine(xs: seq<real>, ys: seq<real>, a: real, b: real)
    requires xs != [] && |xs| == |ys| && forall i | 0 <= i < |xs| :: ys[i] == Mul(a, xs[i]) + b
    ensures AllZero(Residual(Centred(xs), Centred(ys), a))
  {
    SumAffine(xs, ys, a, b);
    MeanAffine(Sum(xs), Sum(ys), a, b, |xs| as real);
    ResidualOfShifts(xs, ys, a, b, Mean(xs));
    hide Sum;
    hide Shift;
    hide Residual;
    hide Mul;
  }

  lemma ScaledProducts(dx: seq<real>, dy: seq<real>, a: real)
    requires |dx| == |dy| && AllZero(Residual(dx, dy, a))
    ensures Dot(dx, dy) == Mul(a, Dot(dx, dx)) && Dot(dy, dy) == Mul(a, Mul(a, Dot(dx, dx)))
  {
    ZerosVanish(Residual(dx, dy, a), dx);
    ZerosVanish(Residual(dx, dy, a), dy);
    DotResidual(dx, dy, a, dx);
    DotResidual(dx, dy, a, dy);
    DotCommutes(dx, dy);
    hide *;
  }

  /** Of sequences in a straight line the covariance has the sign of the slope, and its square is as large as it can
      be. */
  lemma LinearCorrelation(xs: seq<real>, ys: seq<real>, a: real, b: real)
    requires |xs| == |ys| && forall i | 0 <= i < |xs| :: ys[i] == Mul(a, xs[i]) + b
    requires Pearson(xs, ys).Some?
    ensures var c := Pearson(xs, ys).value; c.cov == Mul(a, c.vx) && c.vy == Mul(a, c.cov) && c.vx > 0.0
  {
    CentredAffine(xs, ys, a, b);
    ScaledProducts(Centred(xs), Centred(ys), a);
    hide Dot;
    hide Centred;
    hide Residual;
    hide Mul;
  }

  /** Signals in the order of the returns have a coefficient of one. */
  lemma SameOrderIsOne(sigs: seq<real>, rets: seq<real>)
    requires SameOrder(sigs, rets) && Spearman(sigs, rets).Some?
    ensures var c := Spearman(sigs, rets).value; c.cov == c.vx == c.vy && c.cov > 0.0
  {
    var r := MeanRanks(sigs);
    SameOrderSameRanks(sigs, rets);
    forall i | 0 <= i < |r|
      ensures r[i] == Mul(1.0, r[i]) + 0.0
    {
      MulOne(r[i]);
    }
    hide MeanRanks;
    hide Mul;
    assert Spearman(sigs, rets) == Pearson(r, r);
    hide Pearson;
    LinearCorrelation(r, r, 1.0, 0.0);
    MulOne(Pearson(r, r).value.vx);
    MulOne(Pearson(r, r).value.cov);
  }

  ghost predicate OppositeOrder(xs: seq<real>, ys: seq<real>) {
    |xs| == |ys| && forall i, j | 0 <= i < |xs| && 0 <= j < |xs| :: xs[i] < xs[j] <==> ys[i] > ys[j]
  }

  lemma {:induction false} OppositeCounts(xs: seq<real>, ys: seq<real>, n: nat, i: nat)
    requires OppositeOrder(xs, ys) && n <= |xs| && i < |xs|
    ensures CountIf(ys[..n], Below(ys[i])) + CountIf(xs[..n], Below(xs[i])) + CountIf(xs[..n], EqualTo(xs[i])) == n
    ensures CountIf(ys[..n], EqualTo(ys[i])) == CountIf(xs[..n], EqualTo(xs[i]))
  {
    if n > 0 {
      OppositeCounts(xs, ys, n - 1, i);
      assert xs[..n][..n - 1] == xs[..n - 1];
      assert ys[..n][..n - 1] == ys[..n - 1];
      assert xs[n - 1] < xs[i] <==> ys[n - 1] > ys[i];
      assert xs[i] < xs[n - 1] <==> ys[i] > ys[n - 1];
    }
  }

  lemma OppositeRank(xs: seq<real>, ys: seq<real>, i: nat)
    requires OppositeOrder(xs, ys) && i < |xs|
    ensures MeanRank(ys, i) == (|xs| + 1) as real - MeanRank(xs, i)
  {
    OppositeCounts(xs, ys, |xs|, i);
    assert xs[..|xs|] == xs && ys[..|ys|] == ys;
    hide CountIf;
  }

  /** Signals in the opposite order have a coefficient of minus one. */
  lemma OppositeOrderIsMinusOne(sigs: seq<real>, rets: seq<real>)
    requires OppositeOrder(sigs, rets) && Spearman(sigs, rets).Some?
    ensures var c := Spearman(sigs, rets).value; c.cov == -c.vx && c.vy == c.vx && c.cov < 0.0
  {
    var r, q := MeanRanks(sigs), MeanRanks(rets);
    var top := (|sigs| + 1) as real;
    assert |r| == |q| == |sigs|;
    forall i | 0 <= i < |r|
      ensures q[i] == Mul(-1.0, r[i]) + top
    {
      OppositeRank(sigs, rets, i);
      MulNegative(1.0, r[i]);
      MulOne(r[i]);
    }
    assert Spearman(sigs, rets) == Pearson(r, q);
    hide MeanRanks;
    hide Mul;
    hide Pearson;
    LinearCorrelation(r, q, -1.0, top);
    MulNegative(1.0, Pearson(r, q).value.vx);
    MulNegative(1.0, Pearson(r, q).value.cov);
    MulOne(Pearson(r, q).value.vx);
    MulOne(Pearson(r, q).value.cov);
  }

  // ----- Least squares -----

  datatype Line = Line(alpha: real, beta: real)

  /** The fitted line over the common prefix of the two series; None for fewer than three points or a
      benchmark without variance. */
  function AlphaBeta(port: seq<real>, bench: seq<real>): Option<Line> {
    var n := if |port| <= |bench| then |port| else |bench|;
    Fit(port[..n], bench[..n])
  }

  function Fit(p: seq<real>, b: seq<real>): Option<Line>
    requires |p| == |b|
  {
    if |p| < 3 then None
    else
      var vb := Dot(Centred(b), Centred(b));
      if vb <= 0.0 then None
      else
        var beta := Dot(Centred(b), Centred(p)) / vb;
        Some(Line(Mean(p) - beta * Mean(b), beta))
  }

  /** The errors of predicting p by alpha + beta·b. */
  function Errors(p: seq<real>, b: seq<real>, line: Line): (r: seq<real>)
    requires |p| == |b|
    ensures |r| == |p|
  {
    if p == [] then []
    else
      var n := |p| - 1;
      Errors(p[..n], b[..n], line) + [p[n] - (line.alpha + Mul(line.beta, b[n]))]
  }

  function SquaredError(p: seq<real>, b: seq<real>, line: Line): real
    requires |p| == |b|
  {
    Dot(Errors(p, b, line), Errors(p, b, line))
  }

  /** How far the line passes below the point (mb, mp). */
  function Gap(line: Line, mp: real, mb: real): real {
    mp - line.alpha - Mul(line.beta, mb)
  }

  /** Seen from any centre (mb, mp), the errors are the residuals of the slope, shifted by the gap. */
  lemma {:induction false} ErrorsFromCentre(p: seq<real>, b: seq<real>, line: Line, mp: real, mb: real)
    requires |p| == |b|
    ensures Errors(p, b, line) == Shift(Residual(Shift(b, mb), Shift(p, mp), line.beta), -Gap(line, mp, mb))
  {
    hide Mul;
    if p != [] {
      var n := |p| - 1;
      ErrorsFromCentre(p[..n], b[..n], line, mp, mb);
      var dp, db := Shift(p, mp), Shift(b, mb);
      assert dp[..n] == Shift(p[..n], mp) && db[..n] == Shift(b[..n], mb);
      var r := Residual(db, dp, line.beta);
      assert r[..n] == Residual(db[..n], dp[..n], line.beta);
      MulLeft(line.beta, b[n], mb);
    }
  }

  lemma {:induction false} ShiftedSum(xs: seq<real>, m: real)
    ensures Sum(Shift(xs, m)) == Sum(xs) - Mul(|xs| as real, m)
  {
    if xs == [] {
      MulZero(m);
    } else {
      hide Mul;
      var n := |xs| - 1;
      ShiftedSum(xs[..n], m);
      assert Shift(xs, m)[..n] == Shift(xs[..n], m);
      MulCount(n, m);
    }
  }

  lemma {:induction false} ShiftedSquares(xs: seq<real>, m: real)
    ensures Dot(Shift(xs, m), Shift(xs, m))
         == Dot(xs, xs) - 2.0 * Mul(m, Sum(xs)) + Mul(|xs| as real, Mul(m, m))
  {
    if xs == [] {
      MulZero(Mul(m, m));
      MulZero(m);
    } else {
      hide Mul;
      var n := |xs| - 1;
      var x := xs[n];
      ShiftedSquares(xs[..n], m);
      assert Shift(xs, m)[..n] == Shift(xs[..n], m);
      SquareShift(x, m);
      MulLeft(m, Sum(xs[..n]), x);
      MulCount(n, Mul(m, m));
    }
  }

  lemma SquareShift(x: real, m: real)
    ensures Mul(x - m, x - m) == Mul(x, x) - 2.0 * Mul(m, x) + Mul(m, m)
  {
  }

  lemma {:induction false} ResidualSum(xs: seq<real>, ys: seq<real>, t: real)
    requires |xs| == |ys|
    ensures Sum(Residual(xs, ys, t)) == Sum(ys) - Mul(t, Sum(xs))
  {
    if xs == [] {
      MulZero(t);
    } else {
      hide Mul;
      var n := |xs| - 1;
      ResidualSum(xs[..n], ys[..n], t);
      assert Residual(xs, ys, t)[..n] == Residual(xs[..n], ys[..n], t);
      MulLeft(t, Sum(xs[..n]), xs[n]);
    }
  }

  lemma CentredSum(xs: seq<real>)
    requires xs != []
    ensures Sum(Centred(xs)) == 0.0
  {
    ShiftedSum(xs, Mean(xs));
  }

  /** Around the means the error is a slope part plus one squared gap per point. */
  lemma CentredError(p: seq<real>, b: seq<real>, line: Line, k: real)
    requires |p| == |b| > 0
    requires k == Gap(line, Mean(p), Mean(b))
    ensures SquaredError(p, b, line)
         == Dot(Residual(Centred(b), Centred(p), line.beta), Residual(Centred(b), Centred(p), line.beta))
            + Mul(|p| as real, Mul(k, k))
  {
    hide Mul;
    hide Mean;
    hide Gap;
    ErrorsFromCentre(p, b, line, Mean(p), Mean(b));
    var r := Residual(Centred(b), Centred(p), line.beta);
    ShiftedSquares(r, -k);
    ResidualSum(Centred(b), Centred(p), line.beta);
    CentredSum(p);
    CentredSum(b);
    MulZero(line.beta);
    MulZero(-k);
    MulMinus(k);
  }

  lemma CompleteSquare(v: real, c: real, best: real, beta: real)
    requires Mul(best, v) == c
    ensures (-2.0 * Mul(beta, c) + Mul(beta, Mul(beta, v))) - (-2.0 * Mul(best, c) + Mul(best, Mul(best, v)))
         == Mul(v, Mul(beta - best, beta - best))
  {
  }

  lemma FitSlope(p: seq<real>, b: seq<real>, best: Line)
    requires |p| == |b| && Fit(p, b) == Some(best)
    ensures Mul(best.beta, Dot(Centred(b), Centred(b))) == Dot(Centred(b), Centred(p))
    ensures Gap(best, Mean(p), Mean(b)) == 0.0
  {
  }

  /** The excess error of any line over the fitted one: the squared gap at the centre of the data, once per
      point, plus the squared slope gap weighted by the benchmark variance. */
  lemma ExcessError(p: seq<real>, b: seq<real>, line: Line, best: Line, k: real)
    requires |p| == |b| && Fit(p, b) == Some(best)
    requires k == Gap(line, Mean(p), Mean(b))
    ensures SquaredError(p, b, line) - SquaredError(p, b, best)
         == Mul(|p| as real, Mul(k, k))
            + Mul(Dot(Centred(b), Centred(b)), Mul(line.beta - best.beta, line.beta - best.beta))
  {
    FitSlope(p, b, best);
    assert |p| >= 3;
    hide Mul;
    hide Dot;
    hide Fit;
    hide Gap;
    hide Mean;
    hide Centred;
    CentredError(p, b, line, k);
    CentredError(p, b, best, 0.0);
    MulZero(0.0);
    MulZero(|p| as real);
    ResidualSquares(Centred(b), Centred(p), line.beta);
    ResidualSquares(Centred(b), Centred(p), best.beta);
    CompleteSquare(Dot(Centred(b), Centred(b)), Dot(Centred(b), Centred(p)), best.beta, line.beta);
  }

  /** The fitted line is the one and only least-squares optimum. */
  lemma AlphaBetaOptimal(port: seq<real>, bench: seq<real>, n: nat, line: Line)
    requires AlphaBeta(port, bench).Some?
    requires n == if |port| <= |bench| then |port| else |bench|
    ensures SquaredError(port[..n], bench[..n], AlphaBeta(port, bench).value)
         <= SquaredError(port[..n], bench[..n], line)
    ensures (SquaredError(port[..n], bench[..n], AlphaBeta(port, bench).value)
             == SquaredError(port[..n], bench[..n], line)) <==> line == AlphaBeta(port, bench).value
  {
    var p, b, best := port[..n], bench[..n], AlphaBeta(port, bench).value;
    var v := Dot(Centred(b), Centred(b));
    assert v > 0.0;
    var k, d := Gap(line, Mean(p), Mean(b)), line.beta - best.beta;
    FitSlope(p, b, best);
    assert k == 0.0 && d == 0.0 ==> line == best;
    hide Mul;
    hide Fit;
    hide SquaredError;
    ExcessError(p, b, line, best, k);
    MulSquare(k);
    MulSquare(d);
    MulPositive(n as real, Mul(k, k));
    MulPositive(v, Mul(d, d));
  }

  lemma {:induction false} ShiftElements(xs: seq<real>, m: real)
    ensures forall i | 0 <= i < |xs| :: Shift(xs, m)[i] == xs[i] - m
  {
    if xs != [] {
      ShiftElements(xs[..|xs| - 1], m);
    }
  }

  lemma {:induction false} ZeroDot(xs: seq<real>)
    requires forall i | 0 <= i < |xs| :: xs[i] == 0.0
    ensures Dot(xs, xs) == 0.0
  {
    if xs != [] {
      ZeroDot(xs[..|xs| - 1]);
    }
  }

  /** No line is reported exactly when fewer than three points are shared or the benchmark never moves. */
  lemma AlphaBetaUndefined(port: seq<real>, bench: seq<real>, n: nat)
    requires n == if |port| <= |bench| then |port| else |bench|
    ensures AlphaBeta(port, bench).None? <==> n < 3 || forall i | 0 <= i < n :: bench[i] == bench[0]
  {
    if n >= 3 {
      var b := bench[..n];
      SquaresNonNegative(Centred(b));
      NoVarianceIff(b);
      hide Dot;
      hide Centred;
      hide Mean;
      assert (forall i | 0 <= i < n :: bench[i] == bench[0]) <==> AllEqual(b) by {
        assert forall i | 0 <= i < n :: b[i] == bench[i];
      }
      hide AllEqual;
    }
  }

  predicate AllEqual(b: seq<real>) {
    forall i | 0 <= i < |b| :: b[i] == b[0]
  }

  lemma NoVarianceIff(b: seq<real>)
    requires b != []
    ensures Dot(Centred(b), Centred(b)) == 0.0 <==> AllEqual(b)
  {
    if AllEqual(b) {
      EqualsAreCentred(b);
      ZeroDot(Centred(b));
    } else if Dot(Centred(b), Centred(b)) == 0.0 {
      ZeroSquares(Centred(b), Centred(b));
      CentredZeroIsEqual(b);
    }
    hide Dot;
    hide Centred;
    hide AllEqual;
  }

  lemma EqualsAreCentred(b: seq<real>)
    requires b != [] && AllEqual(b)
    ensures forall i | 0 <= i < |Centred(b)| :: Centred(b)[i] == 0.0
  {
    ConstantSum(b, b[0]);
    assert Mean(b) == b[0];
    ShiftElements(b, Mean(b));
    hide Mean;
    hide Sum;
  }

  lemma CentredZeroIsEqual(b: seq<real>)
    requires b != [] && |Centred(b)| == |b|
    requires forall i | 0 <= i < |Centred(b)| :: Centred(b)[i] == 0.0
    ensures AllEqual(b)
  {
    ShiftElements(b, Mean(b));
    hide Mean;
    forall i | 0 <= i < |b|
      ensures b[i] == b[0]
    {
      assert Centred(b)[i] == b[i] - Mean(b) && Centred(b)[0] == b[0] - Mean(b);
    }
  }

  lemma {:induction false} ConstantSum(xs: seq<real>, c: real)
    requires forall i | 0 <= i < |xs| :: xs[i] == c
    ensures Sum(xs) == |xs| as real * c
  {
    if xs != [] {
      var n := |xs| - 1;
      ConstantSum(xs[..n], c);
      assert (n + 1) as real == n as real + 1.0;
    }
  }
}
