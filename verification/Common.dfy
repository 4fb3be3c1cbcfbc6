/** Shared vocabulary: options, real-number helpers, sums over sequences and over maps. */
module Common {

  datatype Option<+T> = None | Some(value: T)

  /** A market price, an average cost or a starting capital: strictly positive. */
  type Price = r: real | r > 0.0 witness 1.0

  /** Cost per leg of a US trade; Korean trades are free. */
  const US_TRADE_COST_RATE: real := 0.003

  function Abs(x: real): real {
    if x < 0.0 then -x else x
  }

  function Min(x: real, y: real): real {
    if x <= y then x else y
  }

  function Max(x: real, y: real): real {
    if x >= y then x else y
  }

  /** Korean listings are the six-digit codes; everything else is a US ticker. */
  predicate IsKrCode(code: string) {
    |code| == 6 && forall i | 0 <= i < 6 :: '0' <= code[i] <= '9'
  }

  /** Multiplication under a name: proofs hide its definition to keep products out of the linear steps. */
  function Mul(x: real, y: real): real {
    x * y
  }

  lemma MulNegative(x: real, y: real)
    ensures Mul(-x, y) == -Mul(x, y)
    ensures Mul(x, -y) == -Mul(x, y)
  {
  }

  lemma MulOne(x: real)
    ensures Mul(x, 1.0) == x
    ensures Mul(1.0, x) == x
  {
  }

  lemma MulLeft(t: real, x: real, y: real)
    ensures Mul(t, x + y) == Mul(t, x) + Mul(t, y)
    ensures Mul(t, x - y) == Mul(t, x) - Mul(t, y)
  {
  }

  lemma MulRight(x: real, y: real, t: real)
    ensures Mul(x + y, t) == Mul(x, t) + Mul(y, t)
    ensures Mul(x - y, t) == Mul(x, t) - Mul(y, t)
  {
  }

  lemma MulAssociative(x: real, y: real, z: real)
    ensures Mul(Mul(x, y), z) == Mul(x, Mul(y, z))
  {
  }

  lemma MulCommutes(x: real, y: real)
    ensures Mul(x, y) == Mul(y, x)
  {
  }

  lemma MulZero(x: real)
    ensures Mul(0.0, x) == 0.0
    ensures Mul(x, 0.0) == 0.0
  {
  }

  lemma MulMinus(x: real)
    ensures Mul(-x, -x) == Mul(x, x)
  {
  }

  lemma MulSign(x: real, y: real)
    requires x > 0.0
    ensures y > 0.0 ==> Mul(x, y) > 0.0
    ensures y >= 0.0 ==> Mul(x, y) >= 0.0
    ensures y <= 0.0 ==> Mul(x, y) <= 0.0
  {
  }

  lemma MulMonotone(x: real, y: real, z: real)
    requires x >= 0.0 && y <= z
    ensures Mul(x, y) <= Mul(x, z)
  {
  }

  lemma MulSquare(x: real)
    ensures x == 0.0 <==> Mul(x, x) == 0.0
    ensures Mul(x, x) >= 0.0
  {
    hide Mul;
    MulMinus(x);
    MulZero(x);
    if x > 0.0 {
      MulSign(x, x);
    } else if x < 0.0 {
      MulSign(-x, -x);
    }
  }

  lemma MulCount(n: nat, x: real)
    ensures Mul((n + 1) as real, x) == Mul(n as real, x) + x
  {
  }

  lemma MulQuotient(x: real, y: real)
    requires y != 0.0
    ensures Mul(x / y, y) == x
  {
  }

  lemma MulPositive(x: real, y: real)
    requires x > 0.0 && y >= 0.0
    ensures Mul(x, y) >= 0.0
    ensures Mul(x, y) == 0.0 <==> y == 0.0
  {
  }

  /** The sum of a sequence, accumulated left to right. */
  function Sum(s: seq<real>): real {
    if s == [] then 0.0 else Sum(s[..|s| - 1]) + s[|s| - 1]
  }

  /** The sum of a map's values; which key is taken first does not matter (SumMapRemove). */
  ghost function SumMap(m: map<string, real>): real {
    if m == map[] then 0.0
    else
      var k :| k in m;
      m[k] + SumMap(m - {k})
  }

  lemma {:induction false} SumMapRemove(m: map<string, real>, k: string)
    requires k in m
    ensures SumMap(m) == m[k] + SumMap(m - {k})
    decreases |m|
  {
    var k0 :| k0 in m && SumMap(m) == m[k0] + SumMap(m - {k0});
    if k0 != k {
      SumMapRemove(m - {k0}, k);
      SumMapRemove(m - {k}, k0);
      assert m - {k0} - {k} == m - {k} - {k0};
    }
  }

  lemma SumMapPut(m: map<string, real>, k: string, v: real)
    ensures SumMap(m[k := v]) == SumMap(m - {k}) + v
    ensures SumMap(m[k := v]) == SumMap(m) + v - (if k in m then m[k] else 0.0)
  {
    SumMapRemove(m[k := v], k);
    assert m[k := v] - {k} == m - {k};
    if k in m {
      SumMapRemove(m, k);
    } else {
      assert m - {k} == m;
    }
  }

  /** Summing a map key by key, in any order. */
  lemma SumMapStep(m: map<string, real>, todo: set<string>, k: string)
    requires k in todo && todo <= m.Keys
    ensures SumMap(m - (todo - {k})) == SumMap(m - todo) + m[k]
  {
    SumMapRemove(m - (todo - {k}), k);
    assert m - (todo - {k}) - {k} == m - todo;
  }

  lemma SumMapAll(m: map<string, real>)
    ensures SumMap(m - m.Keys) == 0.0
    ensures m - {} == m
  {
  }
}
