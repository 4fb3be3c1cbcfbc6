/** Maximum drawdown by running peak, as computed for backtests (backtest/engine.py) and for the account's own
    equity curve (main_swarm.py). */
module Drawdown {
  import opened Common

  /** The highest value of a nonempty curve. */
  function Peak(curve: seq<real>): real
    requires curve != []
  {
    if |curve| == 1 then curve[0] else Max(Peak(curve[..|curve| - 1]), curve[|curve| - 1])
  }

  function MaxDrawdown(curve: seq<real>): real {
    if curve == [] then 0.0
    else
      var before, v, peak := MaxDrawdown(curve[..|curve| - 1]), curve[|curve| - 1], Peak(curve);
      if peak > 0.0 then Min(before, v / peak - 1.0) else before
  }

  /** One pass with a running peak. */
  method RunningDrawdown(curve: seq<real>) returns (mdd: real)
    ensures mdd == MaxDrawdown(curve)
  {
    var peak: Option<real> := None;
    mdd := 0.0;
    for i := 0 to |curve|
      invariant mdd == MaxDrawdown(curve[..i])
      invariant if i == 0 then peak == None else peak == Some(Peak(curve[..i]))
    {
      assert curve[..i + 1][..i] == curve[..i];
      var v := curve[i];
      peak := Some(if peak.Some? then Max(peak.value, v) else v);
      if peak.value > 0.0 {
        mdd := Min(mdd, v / peak.value - 1.0);
      }
    }
    assert curve[..|curve|] == curve;
  }

  lemma {:induction false} PeakIsMaximum(curve: seq<real>)
    requires curve != []
    ensures forall i | 0 <= i < |curve| :: curve[i] <= Peak(curve)
    ensures exists i | 0 <= i < |curve| :: curve[i] == Peak(curve)
  {
    var n := |curve| - 1;
    if n > 0 {
      PeakIsMaximum(curve[..n]);
      assert forall i | 0 <= i < n :: curve[..n][i] == curve[i];
      var i :| 0 <= i < n && curve[..n][i] == Peak(curve[..n]);
      assert curve[i] == Peak(curve[..n]);
    } else {
      assert curve[0] == Peak(curve);
    }
  }

  predicate NonNegative(curve: seq<real>) {
    forall i | 0 <= i < |curve| :: curve[i] >= 0.0
  }

  /** The loss from one point of the curve to another. */
  function Loss(curve: seq<real>, i: nat, j: nat): real
    requires i < |curve| && j < |curve| && curve[i] > 0.0
  {
    curve[j] / curve[i] - 1.0
  }

  lemma RatioShrinks(v: real, a: real, b: real)
    requires 0.0 < a <= b
    ensures v >= 0.0 ==> v / b <= v / a
    ensures v <= 0.0 ==> v / a <= v / b
  {
  }

  /** No loss from an earlier positive value to a later one that is not negative is deeper than the drawdown. */
  lemma {:induction false} PointIsBounded(curve: seq<real>, i: nat, j: nat)
    requires i <= j < |curve| && curve[i] > 0.0 && curve[j] >= 0.0
    ensures MaxDrawdown(curve) <= Loss(curve, i, j)
    decreases |curve|
  {
    var n := |curve| - 1;
    if j < n {
      PointIsBounded(curve[..n], i, j);
    } else {
      PeakIsMaximum(curve);
      RatioShrinks(curve[j], curve[i], Peak(curve));
    }
  }

  /** So no loss of a curve without negative values is. */
  lemma DrawdownIsBound(curve: seq<real>, i: nat, j: nat)
    requires NonNegative(curve) && i <= j < |curve| && curve[i] > 0.0
    ensures MaxDrawdown(curve) <= curve[j] / curve[i] - 1.0
  {
    PointIsBounded(curve, i, j);
  }

  /** No loss between two points is deeper than the figure. */
  ghost predicate IsDeepest(curve: seq<real>) {
    forall i, j | 0 <= i <= j < |curve| && curve[i] > 0.0 :: MaxDrawdown(curve) <= Loss(curve, i, j)
  }

  /** The lowest positive value of a curve, zero if it has none. */
  function LowestPositive(curve: seq<real>): real {
    if curve == [] then 0.0
    else
      var low, v := LowestPositive(curve[..|curve| - 1]), curve[|curve| - 1];
      if v > 0.0 && (low == 0.0 || v < low) then v else low
  }

  lemma {:induction false} LowestIs(curve: seq<real>)
    ensures LowestPositive(curve) >= 0.0
    ensures forall i | 0 <= i < |curve| && curve[i] > 0.0 :: 0.0 < LowestPositive(curve) <= curve[i]
    ensures LowestPositive(curve) > 0.0 ==> exists i | 0 <= i < |curve| :: curve[i] == LowestPositive(curve)
  {
    if curve != [] {
      var n := |curve| - 1;
      LowestIs(curve[..n]);
      assert forall i | 0 <= i < n :: curve[..n][i] == curve[i];
      if LowestPositive(curve) > 0.0 && LowestPositive(curve) == LowestPositive(curve[..n]) {
        var i :| 0 <= i < n && curve[..n][i] == LowestPositive(curve[..n]);
        assert curve[i] == LowestPositive(curve);
      } else if LowestPositive(curve) > 0.0 {
        assert curve[n] == LowestPositive(curve);
      }
    }
  }

  /** At every negative value the loss from the lowest positive value before it is no deeper than the figure. */
  predicate NegativesAreShallow(curve: seq<real>) {
    forall j | 0 <= j < |curve| && curve[j] < 0.0 && LowestPositive(curve[..j]) > 0.0 ::
      MaxDrawdown(curve) <= curve[j] / LowestPositive(curve[..j]) - 1.0
  }

  /** The running peak finds the deepest loss exactly if no negative value is a deeper loss from the lowest positive
      value before it; in particular if no value is negative. */
  lemma DrawdownIsDeepestIff(curve: seq<real>)
    ensures IsDeepest(curve) <==> NegativesAreShallow(curve)
    ensures NonNegative(curve) ==> NegativesAreShallow(curve)
  {
    if NegativesAreShallow(curve) {
      forall i: nat, j: nat | i <= j < |curve| && curve[i] > 0.0
        ensures MaxDrawdown(curve) <= Loss(curve, i, j)
      {
        PairIsBounded(curve, i, j);
      }
    }
    if IsDeepest(curve) {
      forall j: nat | j < |curve| && curve[j] < 0.0 && LowestPositive(curve[..j]) > 0.0
        ensures MaxDrawdown(curve) <= curve[j] / LowestPositive(curve[..j]) - 1.0
      {
        LowestIs(curve[..j]);
        var i :| 0 <= i < j && curve[..j][i] == LowestPositive(curve[..j]);
        assert MaxDrawdown(curve) <= Loss(curve, i, j);
      }
    }
  }

  lemma PairIsBounded(curve: seq<real>, i: nat, j: nat)
    requires NegativesAreShallow(curve) && i <= j < |curve| && curve[i] > 0.0
    ensures MaxDrawdown(curve) <= Loss(curve, i, j)
  {
    if curve[j] >= 0.0 {
      PointIsBounded(curve, i, j);
    } else {
      LowestIs(curve[..j]);
      assert curve[..j][i] == curve[i];
      RatioShrinks(curve[j], LowestPositive(curve[..j]), curve[i]);
    }
  }

  /** A curve that turns negative: the figure is a loss of one and a half times, from the peak; from the first point it
      is six times. */
  lemma NegativeHidesLoss()
    ensures var curve := [1.0, 10.0, -5.0];
      MaxDrawdown(curve) == -1.5 && Loss(curve, 0, 2) == -6.0 && !IsDeepest(curve)
  {
    var c := [1.0, 10.0, -5.0];
    assert c[..2] == [1.0, 10.0] && c[..2][..1] == [1.0] && [1.0][..0] == [];
    assert Peak([1.0]) == 1.0 && Peak([1.0, 10.0]) == 10.0 && Peak(c) == 10.0;
    assert MaxDrawdown([1.0]) == 0.0;
    assert MaxDrawdown([1.0, 10.0]) == 0.0;
    assert MaxDrawdown(c) == Min(MaxDrawdown(c[..2]), -5.0 / 10.0 - 1.0);
    assert Loss(c, 0, 2) == -6.0;
  }

  /** The drawdown is zero or is the loss between two of the curve's points. */
  lemma {:induction false} DrawdownIsAttained(curve: seq<real>)
    requires NonNegative(curve)
    ensures MaxDrawdown(curve) <= 0.0
    ensures MaxDrawdown(curve) == 0.0 ||
      exists i, j | 0 <= i <= j < |curve| && curve[i] > 0.0 :: MaxDrawdown(curve) == curve[j] / curve[i] - 1.0
  {
    if curve != [] {
      var n := |curve| - 1;
      DrawdownIsAttained(curve[..n]);
      if MaxDrawdown(curve) == MaxDrawdown(curve[..n]) {
        if MaxDrawdown(curve) != 0.0 {
          var i, j :| 0 <= i <= j < n && curve[..n][i] > 0.0
            && MaxDrawdown(curve) == curve[..n][j] / curve[..n][i] - 1.0;
          assert curve[i] > 0.0 && MaxDrawdown(curve) == curve[j] / curve[i] - 1.0;
        }
      } else {
        PeakIsMaximum(curve);
        var i :| 0 <= i < |curve| && curve[i] == Peak(curve);
        assert curve[i] > 0.0 && MaxDrawdown(curve) == curve[n] / curve[i] - 1.0;
      }
    }
  }
}
