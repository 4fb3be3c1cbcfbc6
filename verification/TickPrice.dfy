/** Limit prices on the exchange's price grid (infra/kis_broker.py). */
module TickPrice {
  import opened Common

  predicate IsStep(tick: int) {
    tick == 1 || tick == 5 || tick == 10 || tick == 50 || tick == 100 || tick == 500 || tick == 1000
  }

  /** The price step of the Korean exchanges, by price band. */
  function TickSize(price: real): (tick: int)
    ensures IsStep(tick)
  {
    if price < 2000.0 then 1
    else if price < 5000.0 then 5
    else if price < 20000.0 then 10
    else if price < 50000.0 then 50
    else if price < 200000.0 then 100
    else if price < 500000.0 then 500
    else 1000
  }

  /** Rounding to the nearest integer, halves to the even one. */
  function RoundHalfEven(r: real): (k: int)
    ensures -0.5 <= k as real - r <= 0.5
  {
    var low := r.Floor;
    if r - low as real < 0.5 then low
    else if r - low as real > 0.5 then low + 1
    else if low % 2 == 0 then low else low + 1
  }

  function RoundTo(price: real, tick: int): int
    requires tick > 0
  {
    RoundHalfEven(price / tick as real) * tick
  }

  function RoundToTick(price: real): int {
    if price <= 0.0 then 0 else RoundTo(price, TickSize(price))
  }

  datatype Side = Buy | Sell

  /** The price a slippage band away, on the grid; zero asks to hold the order back. */
  function NxtLimitPrice(last: real, side: Side, slippage: real): int {
    if last <= 0.0 then 0
    else
      var band := slippage / 100.0;
      RoundToTick(Mul(last, if side == Buy then 1.0 + band else 1.0 - band))
  }

  // ----- Rounding to a step -----

  lemma RoundWhole(k: int)
    ensures RoundHalfEven(k as real) == k
  {
  }

  lemma RoundGrows(r: real, s: real)
    requires r <= s
    ensures RoundHalfEven(r) <= RoundHalfEven(s)
  {
  }

  /** No whole number is nearer. */
  lemma RoundIsNearest(r: real, m: int)
    ensures Abs(RoundHalfEven(r) as real - r) <= Abs(m as real - r)
  {
    var k := RoundHalfEven(r);
    hide RoundHalfEven;
    if m < k {
      assert m as real <= k as real - 1.0;
    } else if m > k {
      assert m as real >= k as real + 1.0;
    }
  }

  lemma Scaled(price: real, k: int, tick: int)
    requires tick > 0
    ensures (k * tick) as real - price == Mul(tick as real, k as real - price / tick as real)
  {
  }

  lemma AbsScaled(t: real, x: real, y: real)
    requires t > 0.0 && Abs(x) <= Abs(y)
    ensures Abs(Mul(t, x)) <= Abs(Mul(t, y))
  {
  }

  /** No multiple of the step is nearer to the price. */
  lemma RoundToIsNearest(price: real, tick: int, m: int)
    requires tick > 0
    ensures Abs(RoundTo(price, tick) as real - price) <= Abs((m * tick) as real - price)
  {
    var k := RoundHalfEven(price / tick as real);
    RoundIsNearest(price / tick as real, m);
    Scaled(price, k, tick);
    Scaled(price, m, tick);
    AbsScaled(tick as real, k as real - price / tick as real, m as real - price / tick as real);
    hide Mul;
    hide RoundHalfEven;
  }

  lemma RoundToGrows(p: real, q: real, tick: int)
    requires tick > 0 && p <= q
    ensures RoundTo(p, tick) <= RoundTo(q, tick)
  {
    assert p / tick as real <= q / tick as real;
    RoundGrows(p / tick as real, q / tick as real);
    hide RoundHalfEven;
    assert RoundHalfEven(p / tick as real) * tick <= RoundHalfEven(q / tick as real) * tick;
  }

  /** A multiple of the step stays where it is. */
  lemma RoundToKeeps(k: int, tick: int)
    requires tick > 0
    ensures RoundTo((k * tick) as real, tick) == k * tick
  {
    assert (k * tick) as real == k as real * tick as real;
    assert (k * tick) as real / tick as real == k as real;
    RoundWhole(k);
  }

  // ----- The grid -----

  /** A price that can be quoted: a multiple of the step in its own band (or zero). */
  predicate OnGrid(q: int) {
    q >= 0 && q % TickSize(q as real) == 0
  }

  /** Where the band of a step begins. */
  function BandStart(tick: int): int {
    if tick == 1 then 0
    else if tick == 5 then 2000
    else if tick == 10 then 5000
    else if tick == 50 then 20000
    else if tick == 100 then 50000
    else if tick == 500 then 200000
    else 500000
  }

  /** Where it ends; the last band has no end. */
  function BandEnd(tick: int): Option<int> {
    if tick == 1 then Some(2000)
    else if tick == 5 then Some(5000)
    else if tick == 10 then Some(20000)
    else if tick == 50 then Some(50000)
    else if tick == 100 then Some(200000)
    else if tick == 500 then Some(500000)
    else None
  }

  lemma InBand(p: real)
    requires p >= 0.0
    ensures BandStart(TickSize(p)) as real <= p
    ensures BandEnd(TickSize(p)).Some? ==> p < BandEnd(TickSize(p)).value as real
  {
  }

  lemma WithinMultiples(p: real, tick: int, a: int, b: int)
    requires tick > 0
    ensures (a * tick) as real <= p ==> a * tick <= RoundTo(p, tick)
    ensures p <= (b * tick) as real ==> RoundTo(p, tick) <= b * tick
  {
    RoundToKeeps(a, tick);
    RoundToKeeps(b, tick);
    if (a * tick) as real <= p {
      RoundToGrows((a * tick) as real, p, tick);
    }
    if p <= (b * tick) as real {
      RoundToGrows(p, (b * tick) as real, tick);
    }
    hide RoundTo;
  }

  lemma RoundToIsMultiple(p: real, tick: int)
    requires IsStep(tick)
    ensures RoundTo(p, tick) % tick == 0
  {
    var k := RoundHalfEven(p / tick as real);
    hide RoundHalfEven;
    MultipleRemainder(k, tick);
  }

  lemma MultipleRemainder(k: int, tick: int)
    requires IsStep(tick)
    ensures (k * tick) % tick == 0
  {
    if tick == 1 {
    } else if tick == 5 {
      assert (k * 5) % 5 == 0;
    } else if tick == 10 {
      assert (k * 10) % 10 == 0;
    } else if tick == 50 {
      assert (k * 50) % 50 == 0;
    } else if tick == 100 {
      assert (k * 100) % 100 == 0;
    } else if tick == 500 {
      assert (k * 500) % 500 == 0;
    } else {
      assert (k * 1000) % 1000 == 0;
    }
  }

  /** Rounding stays in the band or lands on its end. */
  lemma RoundedInBand(p: real)
    requires p > 0.0
    ensures var tick := TickSize(p);
      && BandStart(tick) <= RoundToTick(p)
      && (BandEnd(tick).Some? ==> RoundToTick(p) <= BandEnd(tick).value)
      && RoundToTick(p) % tick == 0
  {
    var tick := TickSize(p);
    InBand(p);
    RoundToIsMultiple(p, tick);
    var a := BandStart(tick) / tick;
    var b := if BandEnd(tick).Some? then BandEnd(tick).value / tick else 0;
    assert a * tick == BandStart(tick);
    assert BandEnd(tick).Some? ==> b * tick == BandEnd(tick).value;
    WithinMultiples(p, tick, a, b);
    hide RoundTo;
  }

  /** A rounded price can be quoted, even when it crosses into the next band. */
  lemma RoundedIsOnGrid(p: real)
    ensures OnGrid(RoundToTick(p))
  {
    if p > 0.0 {
      RoundedInBand(p);
      hide RoundToTick;
    }
  }

  lemma By1000(q: int)
    requires q % 1000 == 0
    ensures q % 500 == 0
  {
    assert q == 500 * (2 * (q / 1000));
  }

  lemma By500(q: int)
    requires q % 500 == 0
    ensures q % 100 == 0
  {
    assert q == 100 * (5 * (q / 500));
  }

  lemma By100(q: int)
    requires q % 100 == 0
    ensures q % 50 == 0
  {
    assert q == 50 * (2 * (q / 100));
  }

  lemma By50(q: int)
    requires q % 50 == 0
    ensures q % 10 == 0
  {
    assert q == 10 * (5 * (q / 50));
  }

  lemma By10(q: int)
    requires q % 10 == 0
    ensures q % 5 == 0
  {
    assert q == 5 * (2 * (q / 10));
  }

  /** Every step divides the coarser ones. */
  lemma {:induction false} StepDivides(q: int, coarse: int, fine: int)
    requires IsStep(coarse) && IsStep(fine) && fine <= coarse && q % coarse == 0
    ensures q % fine == 0
    decreases coarse
  {
    if fine < coarse {
      if coarse == 1000 {
        By1000(q);
        StepDivides(q, 500, fine);
      } else if coarse == 500 {
        By500(q);
        StepDivides(q, 100, fine);
      } else if coarse == 100 {
        By100(q);
        StepDivides(q, 50, fine);
      } else if coarse == 50 {
        By50(q);
        StepDivides(q, 10, fine);
      } else if coarse == 10 {
        By10(q);
        StepDivides(q, 5, fine);
      }
    }
  }

  lemma GridDivides(q: int, tick: int)
    requires OnGrid(q) && IsStep(tick) && q >= BandStart(tick)
    ensures q % tick == 0
  {
    assert TickSize(q as real) >= tick;
    StepDivides(q, TickSize(q as real), tick);
    hide *;
  }

  /** No price that can be quoted is nearer than the rounded one, in whatever band it lies. */
  lemma RoundedIsNearest(p: real, q: int)
    requires p > 0.0 && OnGrid(q)
    ensures Abs(RoundToTick(p) as real - p) <= Abs(q as real - p)
  {
    var tick := TickSize(p);
    var start := BandStart(tick);
    InBand(p);
    RoundToIsNearest(p, tick, start / tick);
    RoundToIsNearest(p, tick, q / tick);
    assert start / tick * tick == start;
    if q >= start {
      GridDivides(q, tick);
      assert q / tick * tick == q;
    }
    hide RoundTo;
    hide TickSize;
  }

  /** Rounding a price that can be quoted changes nothing. */
  lemma GridIsFixed(q: int)
    requires OnGrid(q)
    ensures RoundToTick(q as real) == q
  {
    var tick := TickSize(q as real);
    if q > 0 {
      RoundToKeeps(q / tick, tick);
      assert q / tick * tick == q;
      hide RoundTo;
    }
  }

  lemma RoundToTickGrows(p: real, q: real)
    requires p <= q
    ensures RoundToTick(p) <= RoundToTick(q)
  {
    if p > 0.0 {
      RoundedInBand(p);
      RoundedInBand(q);
      if TickSize(p) == TickSize(q) {
        RoundToGrows(p, q, TickSize(p));
      } else {
        hide RoundToTick;
      }
    } else if q > 0.0 {
      RoundedInBand(q);
      hide RoundTo;
    }
  }

  /** Half a won or less rounds to zero, which callers read as "no price"; everything above is a real price. */
  lemma ZeroIff(p: real)
    ensures RoundToTick(p) == 0 <==> p <= 0.5
  {
  }

  /** With a band of at least zero, an order priced off a quotable last price is never less aggressive than that
      price; without a last price it is held back. */
  lemma LimitIsMarketable(last: int, slippage: real)
    requires OnGrid(last) && slippage >= 0.0
    ensures NxtLimitPrice(last as real, Buy, slippage) >= last
    ensures NxtLimitPrice(last as real, Sell, slippage) <= last
    ensures last == 0 ==> NxtLimitPrice(last as real, Buy, slippage) == 0
  {
    GridIsFixed(last);
    if last > 0 {
      var price, band := last as real, slippage / 100.0;
      MulSign(price, band);
      MulLeft(price, 1.0, band);
      MulOne(price);
      RoundToTickGrows(price, Mul(price, 1.0 + band));
      RoundToTickGrows(Mul(price, 1.0 - band), price);
      hide Mul;
      hide RoundToTick;
    }
  }

  /** A number halfway between two integers goes to the even one, so of two neighbouring halves one goes up and one
      down. */
  lemma HalvesGoToEven(k: int)
    ensures RoundHalfEven(k as real + 0.5) % 2 == 0
    ensures RoundHalfEven(k as real + 0.5) == k || RoundHalfEven(k as real + 0.5) == k + 1
  {
    assert (k as real + 0.5).Floor == k;
  }

  /** With a last price and a price left to quote, a limit is the price that can be quoted nearest to the last one
      moved by the slippage, up for a purchase and down for a sale. */
  lemma LimitIsNearest(last: real, side: Side, slippage: real, q: int)
    requires last > 0.0 && OnGrid(q)
    ensures var aim := if side == Buy then last + Mul(last, slippage / 100.0) else last - Mul(last, slippage / 100.0);
      aim > 0.0 ==> Abs(NxtLimitPrice(last, side, slippage) as real - aim) <= Abs(q as real - aim)
  {
    var band := slippage / 100.0;
    MulLeft(last, 1.0, band);
    MulOne(last);
    var aim := if side == Buy then last + Mul(last, band) else last - Mul(last, band);
    assert NxtLimitPrice(last, side, slippage) == RoundToTick(aim);
    hide NxtLimitPrice;
    hide Mul;
    if aim > 0.0 {
      RoundedIsNearest(aim, q);
    }
    hide RoundToTick;
  }
}
