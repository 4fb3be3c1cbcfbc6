/** Asset-allocation sleeves (infra/asset_sleeves.py): how far a sleeve is from its target, what a cycle may buy for
    it, and the purchases themselves. */
module Sleeves {
  import opened Common
  import opened Sorting
  import G = RiskGate

  datatype Holding = Holding(code: string, qty: real, price: real)

  datatype Action = Skip | Hold | Buy | Sell

  datatype Decision = Decision(action: Action, notional: real)

  /** What the manager says about one code of the pool. */
  datatype Directive = BuyIt | KeepIt | SellAll | SellHalf | SellCount(count: nat) | Unknown

  /** A directive line, prices and exchange rate; an exchange rate of zero is read as missing. */
  datatype Market = Market(prices: map<string, real>, usdkrw: real)

  datatype Order = Order(code: string, qty: int, price: real)

  // ----- Values -----

  function FxOf(usdkrw: real): real {
    if usdkrw != 0.0 then usdkrw else 1.0
  }

  function RateOf(m: Market, code: string): real {
    if IsKrCode(code) then 1.0 else FxOf(m.usdkrw)
  }

  function PriceOf(m: Market, code: string): real {
    if code in m.prices then m.prices[code] else 0.0
  }

  /** The price of one share in won. */
  function UnitOf(m: Market, code: string): real {
    Mul(PriceOf(m, code), RateOf(m, code))
  }

  function ValueOf(m: Market, h: Holding): real {
    Mul(Mul(h.qty, h.price), RateOf(m, h.code))
  }

  function SleeveValue(m: Market, pool: set<string>, holdings: seq<Holding>): real {
    if holdings == [] then 0.0
    else
      var h := holdings[|holdings| - 1];
      SleeveValue(m, pool, holdings[..|holdings| - 1]) + if h.code in pool then ValueOf(m, h) else 0.0
  }

  function SleeveWeight(m: Market, pool: set<string>, holdings: seq<Holding>, total: real): real {
    if total <= 0.0 then 0.0 else SleeveValue(m, pool, holdings) / total
  }

  method CurrentSleeveWeight(m: Market, pool: set<string>, holdings: seq<Holding>, total: real) returns (weight: real)
    ensures weight == SleeveWeight(m, pool, holdings, total)
  {
    if total <= 0.0 {
      return 0.0;
    }
    var sum := 0.0;
    for i := 0 to |holdings|
      invariant sum == SleeveValue(m, pool, holdings[..i])
    {
      assert holdings[..i + 1][..i] == holdings[..i];
      if holdings[i].code in pool {
        sum := sum + ValueOf(m, holdings[i]);
      }
    }
    assert holdings[..|holdings|] == holdings;
    weight := sum / total;
  }

  // ----- Sizing -----

  function TargetOf(rec: real, maxPct: real): real {
    Min(rec, maxPct)
  }

  function SizeAction(rec: Option<real>, weight: real, total: real, maxPct: real, band: real): Decision {
    match rec
    case None => Decision(Skip, 0.0)
    case Some(r) =>
      var diff := TargetOf(r, maxPct) - weight;
      if Abs(diff) <= band then Decision(Hold, 0.0)
      else Decision(if diff > 0.0 then Buy else Sell, Mul(Abs(diff), total))
  }

  function CapBuyNotional(notional: real, total: real, cash: real, perCycle: real, buffer: real): real {
    var cap := Min(notional, Mul(total, perCycle));
    if cash > 0.0 && buffer > 0.0 then Min(cap, cash / buffer) else cap
  }

  /** What a purchase may cost is the most that is needed, that one cycle may use, and, where there is cash, that
      the cash covers with its buffer. */
  lemma CapIsLargest(notional: real, total: real, cash: real, perCycle: real, buffer: real, value: real)
    ensures value <= CapBuyNotional(notional, total, cash, perCycle, buffer) <==>
      && value <= notional && value <= Mul(total, perCycle)
      && (cash > 0.0 && buffer > 0.0 ==> Mul(value, buffer) <= cash)
  {
    if cash > 0.0 && buffer > 0.0 {
      BufferedIff(value, cash, buffer);
    }
    hide Mul;
  }

  lemma BufferedIff(value: real, cash: real, buffer: real)
    requires buffer > 0.0
    ensures value <= cash / buffer <==> Mul(value, buffer) <= cash
  {
  }

  /** Nothing is to be traded without a recommendation or inside the band, and an account that cannot be valued has no
      sleeves. */
  lemma NothingToTrade(m: Market, pool: set<string>, holdings: seq<Holding>, rec: Option<real>, total: real,
                       maxPct: real, band: real, weight: real)
    ensures rec == None ==> SizeAction(rec, weight, total, maxPct, band) == Decision(Skip, 0.0)
    ensures rec.Some? && Min(rec.value, maxPct) - band <= weight <= Min(rec.value, maxPct) + band ==>
      SizeAction(rec, weight, total, maxPct, band) == Decision(Hold, 0.0)
    ensures total <= 0.0 ==> SleeveWeight(m, pool, holdings, total) == 0.0
  {
    hide Mul;
  }

  // ----- Orders -----

  /** Conversion to an integer truncates toward zero. */
  function Truncate(r: real): int {
    if r >= 0.0 then r.Floor else -(-r).Floor
  }

  function BuyCodes(directives: seq<(string, Directive)>): seq<string> {
    if directives == [] then []
    else
      var d := directives[|directives| - 1];
      BuyCodes(directives[..|directives| - 1]) + if d.1 == BuyIt then [d.0] else []
  }

  function BuyOrder(m: Market, code: string, budget: real): Option<Order> {
    if PriceOf(m, code) <= 0.0 || UnitOf(m, code) <= 0.0 then None
    else
      var qty := Truncate(budget / UnitOf(m, code));
      if qty < 1 then None else Some(Order(code, qty, PriceOf(m, code)))
  }

  function BuyOrders(m: Market, picks: seq<string>, budget: real): seq<Order> {
    if picks == [] then []
    else
      BuyOrders(m, picks[..|picks| - 1], budget)
      + match BuyOrder(m, picks[|picks| - 1], budget) case None => [] case Some(o) => [o]
  }

  /** The purchases: the notional in equal parts, whole shares only. */
  function SleeveBuys(m: Market, directives: seq<(string, Directive)>, notional: real): seq<Order> {
    var picks := BuyCodes(directives);
    if picks == [] then [] else BuyOrders(m, picks, notional / |picks| as real)
  }

  function HeldQty(holdings: seq<Holding>, code: string): int {
    if holdings == [] then 0
    else if holdings[|holdings| - 1].code == code then Truncate(holdings[|holdings| - 1].qty)
    else HeldQty(holdings[..|holdings| - 1], code)
  }

  function SellQty(held: int, d: Directive): int {
    match d
    case SellAll => held
    case SellHalf => held / 2
    case SellCount(n) => if n < held then n else held
    case _ => 0
  }

  function SellOrder(m: Market, holdings: seq<Holding>, d: (string, Directive)): Option<Order> {
    var held := HeldQty(holdings, d.0);
    if held < 1 || SellQty(held, d.1) < 1 || PriceOf(m, d.0) <= 0.0 then None
    else Some(Order(d.0, SellQty(held, d.1), PriceOf(m, d.0)))
  }

  function SleeveSells(m: Market, directives: seq<(string, Directive)>, holdings: seq<Holding>): seq<Order> {
    if directives == [] then []
    else
      SleeveSells(m, directives[..|directives| - 1], holdings)
      + match SellOrder(m, holdings, directives[|directives| - 1]) case None => [] case Some(o) => [o]
  }

  /** Turns the manager's directives into orders. */
  method AssembleSleeveOrders(m: Market, action: Action, notional: real, directives: seq<(string, Directive)>,
                              holdings: seq<Holding>) returns (orders: seq<Order>)
    ensures orders == match action
                      case Buy => SleeveBuys(m, directives, notional)
                      case Sell => SleeveSells(m, directives, holdings)
                      case _ => []
  {
    orders := [];
    if action == Buy {
      var picks := BuyCodes(directives);
      if picks != [] {
        orders := AssembleBuys(m, picks, notional / |picks| as real);
      }
    } else if action == Sell {
      orders := AssembleSells(m, directives, holdings);
    }
  }

  method AssembleBuys(m: Market, picks: seq<string>, budget: real) returns (orders: seq<Order>)
    ensures orders == BuyOrders(m, picks, budget)
  {
    orders := [];
    for i := 0 to |picks|
      invariant orders == BuyOrders(m, picks[..i], budget)
    {
      assert picks[..i + 1][..i] == picks[..i];
      var price := PriceOf(m, picks[i]);
      if price <= 0.0 {
        continue;
      }
      var unit := UnitOf(m, picks[i]);
      if unit <= 0.0 {
        continue;
      }
      var qty := Truncate(budget / unit);
      if qty < 1 {
        continue;
      }
      orders := orders + [Order(picks[i], qty, price)];
    }
    assert picks[..|picks|] == picks;
  }

  method AssembleSells(m: Market, directives: seq<(string, Directive)>, holdings: seq<Holding>)
    returns (orders: seq<Order>)
    ensures orders == SleeveSells(m, directives, holdings)
  {
    orders := [];
    for i := 0 to |directives|
      invariant orders == SleeveSells(m, directives[..i], holdings)
    {
      assert directives[..i + 1][..i] == directives[..i];
      var held := HeldQty(holdings, directives[i].0);
      if held < 1 {
        continue;
      }
      var qty := SellQty(held, directives[i].1);
      if qty < 1 {
        continue;
      }
      var price := PriceOf(m, directives[i].0);
      if price <= 0.0 {
        continue;
      }
      orders := orders + [Order(directives[i].0, qty, price)];
    }
    assert directives[..|directives|] == directives;
  }

  // ----- A cycle's purchases stay within what was allotted -----

  function CostOf(m: Market, orders: seq<Order>): real {
    if orders == [] then 0.0
    else
      var o := orders[|orders| - 1];
      CostOf(m, orders[..|orders| - 1]) + Mul(o.qty as real, UnitOf(m, o.code))
  }

  lemma CostOfSnoc(m: Market, orders: seq<Order>, o: Order)
    ensures CostOf(m, orders + [o]) == CostOf(m, orders) + Mul(o.qty as real, UnitOf(m, o.code))
  {
    assert (orders + [o])[..|orders|] == orders;
  }

  lemma TruncatedCost(budget: real, unit: real, qty: int)
    requires unit > 0.0 && qty == Truncate(budget / unit) && qty >= 1
    ensures 0.0 < Mul(qty as real, unit) <= budget
  {
  }

  lemma {:induction false} BuysWithinBudget(m: Market, picks: seq<string>, budget: real)
    ensures 0.0 <= CostOf(m, BuyOrders(m, picks, budget)) <= Mul(|picks| as real, Max(0.0, budget))
  {
    if picks == [] {
      MulZero(Max(0.0, budget));
    } else {
      var n := |picks| - 1;
      BuysWithinBudget(m, picks[..n], budget);
      MulCount(n, Max(0.0, budget));
      match BuyOrder(m, picks[n], budget)
      case None =>
        assert BuyOrders(m, picks, budget) == BuyOrders(m, picks[..n], budget);
        hide Mul;
      case Some(o) =>
        TruncatedCost(budget, UnitOf(m, o.code), o.qty);
        CostOfSnoc(m, BuyOrders(m, picks[..n], budget), o);
        hide Mul;
        hide Truncate;
    }
  }

  /** Whatever the directives and prices, the purchases together cost at most the notional. */
  lemma CostWithinNotional(m: Market, directives: seq<(string, Directive)>, notional: real)
    ensures 0.0 <= CostOf(m, SleeveBuys(m, directives, notional)) <= Max(0.0, notional)
  {
    var picks := BuyCodes(directives);
    if picks != [] {
      var n := |picks| as real;
      BuysWithinBudget(m, picks, notional / n);
      MulQuotient(notional, n);
      MulCommutes(notional / n, n);
      MulZero(n);
      if notional / n < 0.0 {
        MulSign(n, notional / n);
      } else {
        MulSign(n, notional / n);
      }
      hide Mul;
    }
  }

  // ----- What is bought and sold -----

  /** Each purchase is for a code that is to be bought, of as many whole shares as its equal part pays for. */
  lemma {:induction false} PurchasesAreLargest(m: Market, picks: seq<string>, budget: real, o: Order)
    requires o in BuyOrders(m, picks, budget)
    ensures o.code in picks && o.price == PriceOf(m, o.code) && o.qty >= 1
    ensures Mul(o.qty as real, UnitOf(m, o.code)) <= budget < Mul((o.qty + 1) as real, UnitOf(m, o.code))
  {
    if picks != [] {
      var n := |picks| - 1;
      var last := BuyOrder(m, picks[n], budget);
      assert picks == picks[..n] + [picks[n]];
      if last.Some? && o == last.value {
        TruncatedShares(budget, UnitOf(m, o.code), o.qty);
      } else {
        assert o in BuyOrders(m, picks[..n], budget);
        PurchasesAreLargest(m, picks[..n], budget, o);
      }
    }
  }

  lemma TruncatedShares(budget: real, unit: real, qty: int)
    requires unit > 0.0 && qty == Truncate(budget / unit) && qty >= 1
    ensures Mul(qty as real, unit) <= budget < Mul((qty + 1) as real, unit)
  {
    var r := budget / unit;
    assert r * unit == budget;
    assert qty as real <= r < (qty + 1) as real;
  }

  /** And every such code with a price in won of which its part pays for a share is bought. */
  lemma {:induction false} PicksAreBought(m: Market, picks: seq<string>, budget: real, code: string)
    requires code in picks && code in m.prices && m.prices[code] > 0.0
    requires if IsKrCode(code) then m.prices[code] <= budget
             else m.usdkrw > 0.0 && Mul(m.prices[code], m.usdkrw) <= budget
    ensures exists o :: o in BuyOrders(m, picks, budget) && o.code == code
  {
    var n := |picks| - 1;
    assert picks == picks[..n] + [picks[n]];
    if code == picks[n] {
      MulOne(m.prices[code]);
      MulSign(m.prices[code], m.usdkrw);
      AtLeastOne(budget, UnitOf(m, code));
      hide Mul;
      hide Truncate;
      var o := BuyOrder(m, code, budget).value;
      assert o in BuyOrders(m, picks, budget) && o.code == code;
    } else {
      PicksAreBought(m, picks[..n], budget, code);
      var o :| o in BuyOrders(m, picks[..n], budget) && o.code == code;
      assert o in BuyOrders(m, picks, budget);
    }
  }

  lemma AtLeastOne(budget: real, unit: real)
    requires 0.0 < unit <= budget
    ensures Truncate(budget / unit) >= 1
  {
    assert budget / unit >= 1.0;
  }

  lemma {:induction false} PicksAre(directives: seq<(string, Directive)>, code: string)
    ensures code in BuyCodes(directives) <==> (code, BuyIt) in directives
  {
    if directives != [] {
      var n := |directives| - 1;
      PicksAre(directives[..n], code);
      assert directives == directives[..n] + [directives[n]];
    }
  }

  /** How much of a holding a directive sells: all of it; half, the odd share kept; the number asked for, or all if that
      is more; otherwise nothing. */
  lemma SoldOf(held: int, d: Directive, n: nat)
    requires held >= 1
    ensures SellQty(held, SellAll) == held
    ensures 2 * SellQty(held, SellHalf) <= held <= 2 * SellQty(held, SellHalf) + 1
    ensures SellQty(held, SellCount(n)) <= held && SellQty(held, SellCount(n)) <= n
    ensures SellQty(held, SellCount(n)) == held || SellQty(held, SellCount(n)) == n
    ensures d == BuyIt || d == KeepIt || d == Unknown ==> SellQty(held, d) == 0
  {
  }

  /** A sale is made exactly for a directive on something held, with a price, that sells at least one share; and of that
      many. */
  lemma {:induction false} SalesAre(m: Market, directives: seq<(string, Directive)>, holdings: seq<Holding>, o: Order)
    ensures o in SleeveSells(m, directives, holdings) <==>
      exists d :: d in directives && o.code == d.0 && HeldQty(holdings, d.0) >= 1
        && o.qty == SellQty(HeldQty(holdings, d.0), d.1) && o.qty >= 1 && o.price == PriceOf(m, d.0) && o.price > 0.0
  {
    if directives != [] {
      var n := |directives| - 1;
      SalesAre(m, directives[..n], holdings, o);
      assert directives == directives[..n] + [directives[n]];
      hide HeldQty;
      hide SellQty;
    }
  }

  /** What is held of a code is the whole shares of its last entry, nothing without one. */
  lemma {:induction false} HeldIs(holdings: seq<Holding>, code: string, i: nat)
    requires i < |holdings| && holdings[i].code == code && holdings[i].qty >= 0.0
    requires forall k | i < k < |holdings| :: holdings[k].code != code
    ensures HeldQty(holdings, code) as real <= holdings[i].qty < HeldQty(holdings, code) as real + 1.0
  {
    var n := |holdings| - 1;
    if i < n {
      HeldIs(holdings[..n], code, i);
    }
  }

  lemma {:induction false} NothingHeld(holdings: seq<Holding>, code: string)
    requires forall h | h in holdings :: h.code != code
    ensures HeldQty(holdings, code) == 0
  {
    if holdings != [] {
      NothingHeld(holdings[..|holdings| - 1], code);
      assert holdings[|holdings| - 1] in holdings;
    }
  }

  /** What a pool's domestic holdings are worth. */
  function DomesticValue(pool: set<string>, holdings: seq<Holding>): real {
    if holdings == [] then 0.0
    else
      var h := holdings[|holdings| - 1];
      DomesticValue(pool, holdings[..|holdings| - 1])
      + if h.code in pool && IsKrCode(h.code) then Mul(h.qty, h.price) else 0.0
  }

  /** The exchange rate scales the foreign part of a sleeve and no other; a missing one leaves it in its own
      currency. */
  lemma {:induction false} RateScalesForeign(m: Market, pool: set<string>, holdings: seq<Holding>, k: real)
    requires k != 0.0
    ensures SleeveValue(m.(usdkrw := k), pool, holdings) - DomesticValue(pool, holdings)
      == Mul(k, SleeveValue(m.(usdkrw := 0.0), pool, holdings) - DomesticValue(pool, holdings))
  {
    if holdings == [] {
      MulZero(k);
    } else {
      var n, h := |holdings| - 1, holdings[|holdings| - 1];
      RateScalesForeign(m, pool, holdings[..n], k);
      MulOne(Mul(h.qty, h.price));
      MulCommutes(Mul(h.qty, h.price), k);
      MulZero(k);
      MulLeft(k, SleeveValue(m.(usdkrw := 0.0), pool, holdings[..n]) - DomesticValue(pool, holdings[..n]),
              -(if h.code in pool && !IsKrCode(h.code) then Mul(h.qty, h.price) else 0.0));
      MulNegative(k, if h.code in pool && !IsKrCode(h.code) then Mul(h.qty, h.price) else 0.0);
      hide Mul;
      hide IsKrCode;
    }
  }

  /** A code without a price is neither bought nor sold. */
  lemma UnpricedIsNotTraded(m: Market, picks: seq<string>, budget: real, directives: seq<(string, Directive)>,
                            holdings: seq<Holding>, o: Order)
    requires o.code !in m.prices
    ensures o !in BuyOrders(m, picks, budget) && o !in SleeveSells(m, directives, holdings)
  {
    if o in BuyOrders(m, picks, budget) {
      BoughtIsPriced(m, picks, budget, o);
    }
    SalesAre(m, directives, holdings, o);
  }

  lemma {:induction false} BoughtIsPriced(m: Market, picks: seq<string>, budget: real, o: Order)
    requires o in BuyOrders(m, picks, budget)
    ensures o.code in m.prices
  {
    if o !in BuyOrders(m, picks[..|picks| - 1], budget) {
      assert BuyOrder(m, picks[|picks| - 1], budget) == Some(o);
    } else {
      BoughtIsPriced(m, picks[..|picks| - 1], budget, o);
    }
  }

  // ----- Executing purchases -----

  /** Shares arrive: added to the code's entry, or a new entry. */
  function Receive(holdings: seq<Holding>, o: Order): seq<Holding> {
    if holdings == [] then [Holding(o.code, o.qty as real, o.price)]
    else
      var h, rest := holdings[|holdings| - 1], holdings[..|holdings| - 1];
      if h.code == o.code then rest + [Holding(h.code, h.qty + o.qty as real, h.price)]
      else Receive(rest, o) + [h]
  }

  function Execute(holdings: seq<Holding>, filled: seq<Order>): seq<Holding> {
    if filled == [] then holdings
    else Receive(Execute(holdings, filled[..|filled| - 1]), filled[|filled| - 1])
  }

  /** What may be filled of a batch: some orders not at all, the others in part or in full. */
  predicate FilledFrom(filled: seq<Order>, orders: seq<Order>) {
    if orders == [] then filled == []
    else
      var o := orders[|orders| - 1];
      || FilledFrom(filled, orders[..|orders| - 1])
      || (filled != [] && 0 <= filled[|filled| - 1].qty <= o.qty
          && filled[|filled| - 1] == o.(qty := filled[|filled| - 1].qty)
          && FilledFrom(filled[..|filled| - 1], orders[..|orders| - 1]))
  }

  /** An order of the pool at the market's price. */
  predicate AtMarket(m: Market, pool: set<string>, o: Order) {
    o.code in pool && o.qty >= 0 && o.price == PriceOf(m, o.code) && UnitOf(m, o.code) > 0.0 && o.price > 0.0
  }

  /** The account is valued at the same prices. */
  ghost predicate SamePrices(m: Market, holdings: seq<Holding>) {
    forall h | h in holdings && PriceOf(m, h.code) > 0.0 :: h.price == PriceOf(m, h.code)
  }

  lemma SleeveValueSnoc(m: Market, pool: set<string>, holdings: seq<Holding>, h: Holding)
    ensures SleeveValue(m, pool, holdings + [h])
      == SleeveValue(m, pool, holdings) + if h.code in pool then ValueOf(m, h) else 0.0
  {
    assert (holdings + [h])[..|holdings|] == holdings;
  }

  lemma NewEntryValue(m: Market, code: string, q: real)
    ensures ValueOf(m, Holding(code, q, PriceOf(m, code))) == Mul(q, UnitOf(m, code))
  {
  }

  lemma {:induction false} ReceiveKeepsPrices(m: Market, pool: set<string>, holdings: seq<Holding>, o: Order)
    requires SamePrices(m, holdings) && AtMarket(m, pool, o)
    ensures SamePrices(m, Receive(holdings, o))
  {
    if holdings != [] {
      ReceiveKeepsPrices(m, pool, holdings[..|holdings| - 1], o);
      assert holdings[|holdings| - 1] in holdings;
    }
  }

  lemma ReplaceLast(m: Market, pool: set<string>, rest: seq<Holding>, h: Holding, q: real)
    requires h.code in pool && h.price == PriceOf(m, h.code)
    ensures SleeveValue(m, pool, rest + [Holding(h.code, h.qty + q, h.price)])
      == SleeveValue(m, pool, rest + [h]) + Mul(q, UnitOf(m, h.code))
  {
  }

  lemma {:induction false} ReceiveValue(m: Market, pool: set<string>, holdings: seq<Holding>, o: Order)
    requires SamePrices(m, holdings) && AtMarket(m, pool, o)
    ensures SleeveValue(m, pool, Receive(holdings, o))
      == SleeveValue(m, pool, holdings) + Mul(o.qty as real, UnitOf(m, o.code))
  {
    var q := o.qty as real;
    if holdings == [] {
      NewEntryValue(m, o.code, q);
      SleeveValueSnoc(m, pool, [], Holding(o.code, q, o.price));
      hide Mul;
    } else {
      var h, rest := holdings[|holdings| - 1], holdings[..|holdings| - 1];
      assert h in holdings && holdings == rest + [h];
      if h.code == o.code {
        ReplaceLast(m, pool, rest, h, q);
        hide SleeveValue;
        hide Mul;
      } else {
        ReceiveValue(m, pool, rest, o);
        SleeveValueSnoc(m, pool, rest, h);
        SleeveValueSnoc(m, pool, Receive(rest, o), h);
        assert Receive(holdings, o) == Receive(rest, o) + [h];
        hide *;
      }
    }
  }

  /** Executing purchases raises the sleeve's value by exactly their cost. */
  lemma {:induction false} ExecuteValue(m: Market, pool: set<string>, holdings: seq<Holding>, filled: seq<Order>)
    requires SamePrices(m, holdings) && forall o | o in filled :: AtMarket(m, pool, o)
    ensures SamePrices(m, Execute(holdings, filled))
    ensures SleeveValue(m, pool, Execute(holdings, filled)) == SleeveValue(m, pool, holdings) + CostOf(m, filled)
    decreases |filled|
  {
    if filled != [] {
      var n := |filled| - 1;
      assert filled[n] in filled;
      ExecuteValue(m, pool, holdings, filled[..n]);
      ReceiveKeepsPrices(m, pool, Execute(holdings, filled[..n]), filled[n]);
      ReceiveValue(m, pool, Execute(holdings, filled[..n]), filled[n]);
      hide SleeveValue;
      hide AtMarket;
      hide Mul;
    }
  }

  lemma {:induction false} FilledCost(m: Market, pool: set<string>, filled: seq<Order>, orders: seq<Order>)
    requires FilledFrom(filled, orders) && forall o | o in orders :: AtMarket(m, pool, o)
    ensures forall o | o in filled :: AtMarket(m, pool, o)
    ensures 0.0 <= CostOf(m, filled) <= CostOf(m, orders)
    decreases |orders|
  {
    if orders != [] {
      var n := |orders| - 1;
      assert orders[n] in orders;
      var unit := UnitOf(m, orders[n].code);
      MulCommutes(unit, orders[n].qty as real);
      MulSign(unit, orders[n].qty as real);
      if FilledFrom(filled, orders[..n]) {
        FilledCost(m, pool, filled, orders[..n]);
      } else {
        var k := |filled| - 1;
        FilledCost(m, pool, filled[..k], orders[..n]);
        MulCommutes(unit, filled[k].qty as real);
        MulMonotone(unit, filled[k].qty as real, orders[n].qty as real);
        MulSign(unit, filled[k].qty as real);
        hide Mul;
        assert filled == filled[..k] + [filled[k]];
      }
      hide Mul;
    }
  }

  // ----- Cycles -----

  /** What stays fixed over the cycles: market, pool, total, recommendation and limits. */
  datatype Settings = Settings(
    market: Market,
    pool: set<string>,
    total: real,
    rec: real,
    maxPct: real,
    band: real,
    perCycle: real,
    buffer: real)

  /** What differs: the cash, the manager's directives and what gets filled. */
  datatype Cycle = Cycle(cash: real, directives: seq<(string, Directive)>, filled: seq<Order>)

  function WeightOf(s: Settings, holdings: seq<Holding>): real {
    SleeveWeight(s.market, s.pool, holdings, s.total)
  }

  function Decide(s: Settings, holdings: seq<Holding>): Decision {
    SizeAction(Some(s.rec), WeightOf(s, holdings), s.total, s.maxPct, s.band)
  }

  function Allotted(s: Settings, holdings: seq<Holding>, cash: real): real {
    CapBuyNotional(Decide(s, holdings).notional, s.total, cash, s.perCycle, s.buffer)
  }

  function OrdersOf(s: Settings, holdings: seq<Holding>, c: Cycle): seq<Order> {
    if Decide(s, holdings).action != Buy then [] else SleeveBuys(s.market, c.directives, Allotted(s, holdings, c.cash))
  }

  /** The directives name codes of the pool only, and only ordered shares are filled. */
  ghost predicate Possible(s: Settings, holdings: seq<Holding>, c: Cycle) {
    (forall d | d in c.directives :: d.0 in s.pool) && FilledFrom(c.filled, OrdersOf(s, holdings, c))
  }

  lemma {:induction false} PicksInPool(directives: seq<(string, Directive)>, pool: set<string>)
    requires forall d | d in directives :: d.0 in pool
    ensures forall code | code in BuyCodes(directives) :: code in pool
  {
    if directives != [] {
      assert directives[|directives| - 1] in directives;
      PicksInPool(directives[..|directives| - 1], pool);
    }
  }

  lemma {:induction false} BuysAtMarket(m: Market, pool: set<string>, picks: seq<string>, budget: real)
    requires forall code | code in picks :: code in pool
    ensures forall o | o in BuyOrders(m, picks, budget) :: AtMarket(m, pool, o)
  {
    if picks != [] {
      BuysAtMarket(m, pool, picks[..|picks| - 1], budget);
      assert picks[|picks| - 1] in picks;
      hide Truncate;
      hide UnitOf;
    }
  }

  /** The purchases of a cycle: at market, and within the allotted notional. */
  lemma CycleOrders(s: Settings, holdings: seq<Holding>, c: Cycle)
    requires Possible(s, holdings, c)
    ensures forall o | o in c.filled :: AtMarket(s.market, s.pool, o)
    ensures 0.0 <= CostOf(s.market, c.filled)
    ensures Decide(s, holdings).action != Buy ==> c.filled == []
    ensures Decide(s, holdings).action == Buy ==> CostOf(s.market, c.filled) <= Max(0.0, Allotted(s, holdings, c.cash))
  {
    var picks := BuyCodes(c.directives);
    PicksInPool(c.directives, s.pool);
    if picks != [] {
      BuysAtMarket(s.market, s.pool, picks, Allotted(s, holdings, c.cash) / |picks| as real);
    }
    hide Decide;
    hide Allotted;
    hide AtMarket;
    CostWithinNotional(s.market, c.directives, Allotted(s, holdings, c.cash));
    FilledCost(s.market, s.pool, c.filled, OrdersOf(s, holdings, c));
  }

  lemma AddedWeight(value: real, cost: real, total: real)
    requires total > 0.0
    ensures (value + cost) / total == value / total + cost / total
    ensures cost >= 0.0 ==> cost / total >= 0.0
  {
  }

  lemma ExecuteWeight(s: Settings, holdings: seq<Holding>, filled: seq<Order>)
    requires s.total > 0.0 && SamePrices(s.market, holdings)
    requires forall o | o in filled :: AtMarket(s.market, s.pool, o)
    ensures SamePrices(s.market, Execute(holdings, filled))
    ensures WeightOf(s, Execute(holdings, filled)) == WeightOf(s, holdings) + CostOf(s.market, filled) / s.total
    ensures CostOf(s.market, filled) >= 0.0 ==> CostOf(s.market, filled) / s.total >= 0.0
  {
    ExecuteValue(s.market, s.pool, holdings, filled);
    AddedWeight(SleeveValue(s.market, s.pool, holdings), CostOf(s.market, filled), s.total);
    hide SleeveValue;
    hide CostOf;
    hide SamePrices;
    hide Execute;
  }

  lemma AllottedShare(s: Settings, holdings: seq<Holding>, cash: real, cost: real)
    requires s.total > 0.0 && Decide(s, holdings).action == Buy && cost <= Max(0.0, Allotted(s, holdings, cash))
    ensures WeightOf(s, holdings) + cost / s.total <= TargetOf(s.rec, s.maxPct)
  {
  }

  /** One cycle: the weight rises by exactly the share bought, and a purchase never takes it past the target. */
  lemma CycleStep(s: Settings, holdings: seq<Holding>, c: Cycle)
    requires s.total > 0.0 && SamePrices(s.market, holdings) && Possible(s, holdings, c)
    ensures SamePrices(s.market, Execute(holdings, c.filled))
    ensures WeightOf(s, Execute(holdings, c.filled)) == WeightOf(s, holdings) + CostOf(s.market, c.filled) / s.total
    ensures WeightOf(s, Execute(holdings, c.filled)) >= WeightOf(s, holdings)
    ensures Decide(s, holdings).action == Buy ==> WeightOf(s, Execute(holdings, c.filled)) <= TargetOf(s.rec, s.maxPct)
    ensures Decide(s, holdings).action != Buy ==> Execute(holdings, c.filled) == holdings
  {
    CycleOrders(s, holdings, c);
    assert Execute(holdings, []) == holdings;
    hide *;
    ExecuteWeight(s, holdings, c.filled);
    if Decide(s, holdings).action == Buy {
      AllottedShare(s, holdings, c.cash, CostOf(s.market, c.filled));
    }
  }

  function After(s: Settings, holdings: seq<Holding>, cycles: seq<Cycle>): seq<Holding> {
    if cycles == [] then holdings
    else Execute(After(s, holdings, cycles[..|cycles| - 1]), cycles[|cycles| - 1].filled)
  }

  ghost predicate AllPossible(s: Settings, holdings: seq<Holding>, cycles: seq<Cycle>) {
    cycles == []
    || (AllPossible(s, holdings, cycles[..|cycles| - 1])
        && Possible(s, After(s, holdings, cycles[..|cycles| - 1]), cycles[|cycles| - 1]))
  }

  /** Over any number of buying cycles, whatever the directives, the cash and the fills: from at or below the target
      the weight never falls, never passes the target, and no cycle ever calls for selling. */
  lemma {:induction false} TargetIsNeverPassed(s: Settings, holdings: seq<Holding>, cycles: seq<Cycle>)
    requires s.total > 0.0 && s.band >= 0.0 && SamePrices(s.market, holdings)
    requires WeightOf(s, holdings) <= TargetOf(s.rec, s.maxPct)
    requires AllPossible(s, holdings, cycles)
    ensures SamePrices(s.market, After(s, holdings, cycles))
    ensures WeightOf(s, holdings) <= WeightOf(s, After(s, holdings, cycles)) <= TargetOf(s.rec, s.maxPct)
    ensures Decide(s, After(s, holdings, cycles)).action != Sell
    decreases |cycles|
  {
    if cycles != [] {
      var init := cycles[..|cycles| - 1];
      TargetIsNeverPassed(s, holdings, init);
      CycleStep(s, After(s, holdings, init), cycles[|cycles| - 1]);
      hide Possible;
      hide SamePrices;
    }
    hide WeightOf;
  }

  /** From above the target no cycle buys anything. */
  lemma {:induction false} NothingBoughtAboveTarget(s: Settings, holdings: seq<Holding>, cycles: seq<Cycle>)
    requires s.band >= 0.0 && WeightOf(s, holdings) >= TargetOf(s.rec, s.maxPct)
    requires AllPossible(s, holdings, cycles)
    ensures After(s, holdings, cycles) == holdings
    decreases |cycles|
  {
    if cycles != [] {
      NothingBoughtAboveTarget(s, holdings, cycles[..|cycles| - 1]);
      CycleOrders(s, holdings, cycles[|cycles| - 1]);
      hide Possible;
      hide WeightOf;
    }
  }

  /** A cycle buys below the band around the target, sells above it, and otherwise leaves the sleeve alone. */
  lemma DeadZone(s: Settings, holdings: seq<Holding>)
    requires s.band >= 0.0
    ensures var w, target, action := WeightOf(s, holdings), TargetOf(s.rec, s.maxPct), Decide(s, holdings).action;
      && (action == Buy <==> w < target - s.band)
      && (action == Sell <==> w > target + s.band)
      && (action == Hold <==> target - s.band <= w <= target + s.band)
  {
  }

  /** Sales never exceed what is held. */
  lemma {:induction false} SellsWithinHeld(m: Market, directives: seq<(string, Directive)>, holdings: seq<Holding>)
    ensures forall o | o in SleeveSells(m, directives, holdings) :: 1 <= o.qty <= HeldQty(holdings, o.code)
  {
    if directives != [] {
      SellsWithinHeld(m, directives[..|directives| - 1], holdings);
      hide HeldQty;
    }
  }

  // ----- The gate -----

  /** The gate sees the same account and prices as the sleeve's sizing, and for the sleeve's codes the same ceiling;
      it may know other sleeves besides. */
  predicate SameView(s: Settings, cash: real, env: G.Env) {
    && env.params.minBuffer == s.buffer > 0.0
    && env.balance.cash == cash && G.TotalOf(env.balance) == s.total
    && env.fx == FxOf(s.market.usdkrw) && env.prices == s.market.prices
    && forall code | code in s.pool :: code in env.sleeveCaps && env.sleeveCaps[code] == s.maxPct
  }

  lemma {:induction false} OneOfMany(m: Market, pool: set<string>, orders: seq<Order>, o: Order)
    requires o in orders && forall p | p in orders :: AtMarket(m, pool, p)
    ensures 0.0 <= Mul(o.qty as real, UnitOf(m, o.code)) <= CostOf(m, orders)
  {
    var n := |orders| - 1;
    assert orders[n] in orders;
    MulCommutes(orders[n].qty as real, UnitOf(m, orders[n].code));
    MulSign(UnitOf(m, orders[n].code), orders[n].qty as real);
    if o == orders[n] {
      CostIsNonNegative(m, pool, orders[..n]);
    } else {
      OneOfMany(m, pool, orders[..n], o);
    }
    hide Mul;
  }

  lemma {:induction false} CostIsNonNegative(m: Market, pool: set<string>, orders: seq<Order>)
    requires forall p | p in orders :: AtMarket(m, pool, p)
    ensures CostOf(m, orders) >= 0.0
  {
    if orders != [] {
      var n := |orders| - 1;
      assert orders[n] in orders;
      CostIsNonNegative(m, pool, orders[..n]);
      MulCommutes(orders[n].qty as real, UnitOf(m, orders[n].code));
      MulSign(UnitOf(m, orders[n].code), orders[n].qty as real);
      hide Mul;
    }
  }

  /** Every order of a cycle has a positive quantity. */
  lemma {:induction false} BuysAreWhole(m: Market, picks: seq<string>, budget: real)
    ensures forall o | o in BuyOrders(m, picks, budget) :: o.qty >= 1
  {
    if picks != [] {
      BuysAreWhole(m, picks[..|picks| - 1], budget);
      hide Truncate;
    }
  }

  lemma OrderCost(s: Settings, holdings: seq<Holding>, cash: real, directives: seq<(string, Directive)>, o: Order)
    requires forall d | d in directives :: d.0 in s.pool
    requires o in OrdersOf(s, holdings, Cycle(cash, directives, []))
    ensures AtMarket(s.market, s.pool, o) && o.qty >= 1
    ensures 0.0 < Mul(o.qty as real, UnitOf(s.market, o.code)) <= Allotted(s, holdings, cash)
  {
    var picks, budget := BuyCodes(directives), Allotted(s, holdings, cash);
    PicksInPool(directives, s.pool);
    hide Allotted;
    BuysAtMarket(s.market, s.pool, picks, budget / |picks| as real);
    BuysAreWhole(s.market, picks, budget / |picks| as real);
    CostWithinNotional(s.market, directives, budget);
    hide AtMarket;
    OneOfMany(s.market, s.pool, SleeveBuys(s.market, directives, budget), o);
    UnitCost(s.market, s.pool, o);
    hide Mul;
  }

  lemma UnitCost(m: Market, pool: set<string>, o: Order)
    requires AtMarket(m, pool, o) && o.qty >= 1
    ensures Mul(o.qty as real, UnitOf(m, o.code)) > 0.0
  {
  }

  /** What is allotted leaves the sleeve within its ceiling and, buffer included, within the cash. */
  lemma AllottedWithinLimits(s: Settings, holdings: seq<Holding>, cash: real)
    requires Decide(s, holdings).action == Buy && s.buffer > 0.0 && s.total > 0.0
    requires SleeveValue(s.market, s.pool, holdings) >= 0.0
    ensures Allotted(s, holdings, cash) <= Mul(s.total, s.maxPct)
    ensures cash > 0.0 ==> Mul(Allotted(s, holdings, cash), s.buffer) <= cash
  {
    var weight := WeightOf(s, holdings);
    assert weight >= 0.0 by {
      AddedWeight(0.0, SleeveValue(s.market, s.pool, holdings), s.total);
    }
    var diff := TargetOf(s.rec, s.maxPct) - weight;
    MulMonotone(s.total, diff, s.maxPct);
    MulCommutes(s.total, diff);
    hide WeightOf;
    if cash > 0.0 {
      MulQuotient(cash, s.buffer);
      MulCommutes(Allotted(s, holdings, cash), s.buffer);
      MulCommutes(cash / s.buffer, s.buffer);
      MulMonotone(s.buffer, Allotted(s, holdings, cash), cash / s.buffer);
    }
    hide Mul;
  }

  /** The gate approves each purchase of a sleeve exactly when the account is readable and above the drawdown brake:
      the sizing has already kept it within the sleeve's ceiling and the cash buffer, and it draws on no other
      budget. */
  lemma GateApprovesSleeveBuys(s: Settings, holdings: seq<Holding>, cash: real, directives: seq<(string, Directive)>,
                               o: Order, env: G.Env, spent: real, reason: string)
    requires forall d | d in directives :: d.0 in s.pool && d.0 != []
    requires o in OrdersOf(s, holdings, Cycle(cash, directives, []))
    requires s.total > 0.0 && SleeveValue(s.market, s.pool, holdings) >= 0.0
    requires SameView(s, cash, env) && |reason| >= 5 && o.code != []
    ensures G.Approved(env, spent, G.Order(o.code, G.Buy, o.qty, reason)) <==>
      env.balance.ok && env.balance.pnlRatio > -Abs(env.params.mdd)
  {
    OrderCost(s, holdings, cash, directives, o);
    AllottedWithinLimits(s, holdings, cash);
    var order := G.Order(o.code, G.Buy, o.qty, reason);
    var cost := Mul(o.qty as real, UnitOf(s.market, o.code));
    assert G.Notional(env, order) == cost by {
      MulCommutes(G.PriceOf(env, o.code), o.qty as real);
      MulAssociative(o.qty as real, G.PriceOf(env, o.code), G.RateOf(env, o.code));
    }
    MulCommutes(cost, s.buffer);
    MulCommutes(Allotted(s, holdings, cash), s.buffer);
    MulMonotone(s.buffer, cost, Allotted(s, holdings, cash));
    hide Allotted;
    JudgeSleeveOrder(s, cash, env, order, spent, Allotted(s, holdings, cash));
  }

  lemma JudgeSleeveOrder(s: Settings, cash: real, env: G.Env, o: G.Order, spent: real, allotted: real)
    requires SameView(s, cash, env) && o.side == G.Buy && o.ticker != [] && |o.reason| >= 5 && o.qty >= 1
    requires o.ticker in s.pool && G.PriceOf(env, o.ticker) > 0.0 && s.total > 0.0
    requires G.Notional(env, o) <= allotted <= Mul(s.total, s.maxPct)
    requires cash > 0.0 ==> Mul(G.Notional(env, o), s.buffer) <= cash
    ensures G.Approved(env, spent, o) <==> env.balance.ok && env.balance.pnlRatio > -Abs(env.params.mdd)
  {
    hide G.Notional;
    hide Mul;
    if !env.balance.ok {
      assert G.Breaks(env, spent, o, G.BalanceUnknown);
    } else if env.balance.pnlRatio <= -Abs(env.params.mdd) {
      assert G.Breaks(env, spent, o, G.DrawdownBrake);
    } else {
      forall i
        ensures !G.Breaks(env, spent, o, i)
      {
      }
    }
  }

  // ----- The execution list -----

  const DEFAULT_CAP: int := 2

  function IsSell(): G.Order -> bool {
    (o: G.Order) => o.side == G.Sell
  }

  function IsSleeveBuy(pool: set<string>): G.Order -> bool {
    (o: G.Order) => o.side != G.Sell && o.ticker in pool
  }

  function IsStockBuy(pool: set<string>): G.Order -> bool {
    (o: G.Order) => o.side != G.Sell && o.ticker !in pool
  }

  function CapOf(maxTrades: Option<int>): nat {
    var cap := if maxTrades.Some? then maxTrades.value else DEFAULT_CAP;
    if cap < 0 then 0 else cap
  }

  function FirstOf<T>(s: seq<T>, n: nat): seq<T> {
    if |s| <= n then s else s[..n]
  }

  /** All sales, all sleeve purchases, and as many stock purchases as the cap allows. */
  function ExecList(approved: seq<G.Order>, maxTrades: Option<int>, pool: set<string>): seq<G.Order> {
    Keep(approved, IsSell()) + Keep(approved, IsSleeveBuy(pool))
    + FirstOf(Keep(approved, IsStockBuy(pool)), CapOf(maxTrades))
  }

  lemma {:induction false} KeepAppend<T>(s: seq<T>, t: seq<T>, p: T -> bool)
    ensures Keep(s + t, p) == Keep(s, p) + Keep(t, p)
    decreases |t|
  {
    if t == [] {
      assert s + t == s;
    } else {
      var u := t[..|t| - 1];
      assert s + t == (s + u) + [t[|t| - 1]];
      KeepSnoc(s + u, t[|t| - 1], p);
      KeepAppend(s, u, p);
    }
  }

  lemma {:induction false} KeepKept<T>(s: seq<T>, p: T -> bool)
    ensures forall x | x in Keep(s, p) :: p(x)
  {
    if s != [] {
      KeepKept(s[..|s| - 1], p);
    }
  }

  lemma {:induction false} KeepAll<T>(s: seq<T>, p: T -> bool)
    requires forall x | x in s :: p(x)
    ensures Keep(s, p) == s
  {
    if s != [] {
      assert s[|s| - 1] in s;
      KeepAll(s[..|s| - 1], p);
    }
  }

  lemma {:induction false} KeepNone<T>(s: seq<T>, p: T -> bool)
    requires forall x | x in s :: !p(x)
    ensures Keep(s, p) == []
  {
    if s != [] {
      assert s[|s| - 1] in s;
      KeepNone(s[..|s| - 1], p);
    }
  }

  /** A list in three parts, each of its own kind, is told apart again by kind. */
  lemma KeepOfParts<T>(a: seq<T>, b: seq<T>, c: seq<T>, p: T -> bool)
    ensures (forall x | x in a :: p(x)) && (forall x | x in b :: !p(x)) && (forall x | x in c :: !p(x))
      ==> Keep(a + b + c, p) == a
    ensures (forall x | x in a :: !p(x)) && (forall x | x in b :: p(x)) && (forall x | x in c :: !p(x))
      ==> Keep(a + b + c, p) == b
    ensures (forall x | x in a :: !p(x)) && (forall x | x in b :: !p(x)) && (forall x | x in c :: p(x))
      ==> Keep(a + b + c, p) == c
  {
    KeepAppend(a + b, c, p);
    KeepAppend(a, b, p);
    hide Keep;
    if forall x | x in a :: p(x) { KeepAll(a, p); }
    if forall x | x in a :: !p(x) { KeepNone(a, p); }
    if forall x | x in b :: p(x) { KeepAll(b, p); }
    if forall x | x in b :: !p(x) { KeepNone(b, p); }
    if forall x | x in c :: p(x) { KeepAll(c, p); }
    if forall x | x in c :: !p(x) { KeepNone(c, p); }
  }

  /** No sale and no sleeve purchase is lost, repeated or reordered among its kind, however many stock purchases
      compete; of these exactly the first ones up to the cap are executed. */
  lemma ExecListKeepsAllButStock(approved: seq<G.Order>, maxTrades: Option<int>, pool: set<string>)
    ensures Keep(ExecList(approved, maxTrades, pool), IsSell()) == Keep(approved, IsSell())
    ensures Keep(ExecList(approved, maxTrades, pool), IsSleeveBuy(pool)) == Keep(approved, IsSleeveBuy(pool))
    ensures Keep(ExecList(approved, maxTrades, pool), IsStockBuy(pool))
      == FirstOf(Keep(approved, IsStockBuy(pool)), CapOf(maxTrades))
  {
    var a, b := Keep(approved, IsSell()), Keep(approved, IsSleeveBuy(pool));
    var stock := Keep(approved, IsStockBuy(pool));
    KeepKept(approved, IsSell());
    KeepKept(approved, IsSleeveBuy(pool));
    KeepKept(approved, IsStockBuy(pool));
    hide Keep;
    var c := FirstOf(stock, CapOf(maxTrades));
    assert forall x | x in c :: x in stock;
    KeepOfParts(a, b, c, IsSell());
    KeepOfParts(a, b, c, IsSleeveBuy(pool));
    KeepOfParts(a, b, c, IsStockBuy(pool));
  }

  /** Stock purchases are carried out up to the maximum, two without one; a negative maximum is none. */
  lemma StockPurchasesAreCapped(approved: seq<G.Order>, maxTrades: Option<int>, pool: set<string>)
    ensures var asked := Keep(approved, IsStockBuy(pool));
      var done := Keep(ExecList(approved, maxTrades, pool), IsStockBuy(pool));
      && done <= asked
      && (maxTrades == None ==> |done| == if |asked| <= 2 then |asked| else 2)
      && (maxTrades.Some? && maxTrades.value >= 0 ==>
            |done| == if |asked| <= maxTrades.value then |asked| else maxTrades.value)
      && (maxTrades.Some? && maxTrades.value < 0 ==> done == [])
  {
    ExecListKeepsAllButStock(approved, maxTrades, pool);
    hide Keep;
    hide ExecList;
  }

  /** A cycle below the band buys: of every code to be bought with a price in won of which its part of the
      allotment pays for a share. */
  lemma CycleBuys(s: Settings, holdings: seq<Holding>, c: Cycle, code: string)
    requires WeightOf(s, holdings) + s.band < Min(s.rec, s.maxPct) && s.band >= 0.0
    requires (code, BuyIt) in c.directives && code in s.market.prices && IsKrCode(code) && s.market.prices[code] > 0.0
    requires Mul(|BuyCodes(c.directives)| as real, s.market.prices[code]) <= Allotted(s, holdings, c.cash)
    ensures exists o :: o in OrdersOf(s, holdings, c) && o.code == code
  {
    var picks, all := BuyCodes(c.directives), Allotted(s, holdings, c.cash);
    PicksAre(c.directives, code);
    assert Decide(s, holdings).action == Buy;
    assert OrdersOf(s, holdings, c) == BuyOrders(s.market, picks, all / |picks| as real);
    hide *;
    PartPays(|picks| as real, s.market.prices[code], all);
    PicksAreBought(s.market, picks, all / |picks| as real, code);
  }

  lemma PartPays(n: real, price: real, all: real)
    requires n > 0.0 && Mul(n, price) <= all
    ensures price <= all / n
  {
  }
}
