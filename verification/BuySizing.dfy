/** Sizing of stock purchases (main_swarm.py), made to anticipate the limits of the risk gate
    (agents/guardrails.py). */
module BuySizing {
  import opened Common
  import G = RiskGate

  const MAX_TARGETS: nat := 8
  const MIN_US_PRICE: real := 0.01
  const DEFAULT_CYCLE_RATIO: real := 0.4

  /** What sizing sees beyond the gate's own environment: its order ratio, the buffer of the one-share rule, the
      opening-cycle and US switches, the held codes and the per-name weights. */
  datatype Inputs = Inputs(
    env: G.Env,
    perOrder: real,
    oneShareBuffer: real,
    marketOpen: bool,
    allowUs: bool,
    held: set<string>,
    weights: map<string, real>)

  /** A sized purchase; `byBudget` tells the regular path from the one-share exception. */
  datatype Sized = Sized(ticker: string, qty: int, byBudget: bool)

  // ----- Codes -----

  function UpperChar(c: char): char {
    if 'a' <= c <= 'z' then (c as int - 32) as char else c
  }

  function Upper(s: string): string {
    if s == [] then [] else [UpperChar(s[0])] + Upper(s[1..])
  }

  lemma {:induction false} UpperChars(s: string)
    ensures |Upper(s)| == |s|
    ensures forall i | 0 <= i < |s| :: Upper(s)[i] == UpperChar(s[i])
  {
    if s != [] {
      UpperChars(s[1..]);
    }
  }

  lemma UpperKeepsMarket(s: string)
    ensures IsKrCode(Upper(s)) <==> IsKrCode(s)
  {
    UpperChars(s);
    if |s| == 6 {
      assert forall i | 0 <= i < 6 :: '0' <= Upper(s)[i] <= '9' <==> '0' <= s[i] <= '9';
    }
  }

  function TickerOf(code: string): string {
    if IsKrCode(code) then code else Upper(code)
  }

  // ----- Budgets -----

  function Cash(x: Inputs): real {
    x.env.balance.cash
  }

  function Total(x: Inputs): real {
    G.TotalOf(x.env.balance)
  }

  /** A configured ratio of zero is read as missing. */
  function CycleRatio(p: G.Params): real {
    if p.maxCycle != 0.0 then p.maxCycle else DEFAULT_CYCLE_RATIO
  }

  function PerOrderBudget(x: Inputs): real {
    var target := if x.marketOpen then Mul(Total(x), Min(1.0, x.perOrder * 5.0))
                  else if Total(x) > 0.0 then Mul(Total(x), x.perOrder) else 0.0;
    if Cash(x) > 0.0 then Min(target, Cash(x)) else 0.0
  }

  function PerStockCap(x: Inputs): real {
    if Total(x) > 0.0 then Mul(Total(x), x.env.params.stockRatio) else 0.0
  }

  function CycleBudget(x: Inputs): real {
    if Cash(x) > 0.0 then Mul(Cash(x), CycleRatio(x.env.params)) else 0.0
  }

  /** The distinct codes that are not held, at least one. */
  function BuyCount(x: Inputs, targets: seq<string>): (n: nat)
    ensures n > 0
  {
    var names := set c | c in targets && c != [] && c !in x.held;
    if |names| > 1 then |names| else 1
  }

  function WeightOf(x: Inputs, key: string): real {
    if key in x.weights then x.weights[key] else 1.0
  }

  /** The order budget, tilted by the name's weight when the cycle has a budget at all. */
  function NameBudget(x: Inputs, n: nat, key: string): real
    requires n > 0
  {
    if CycleBudget(x) > 0.0 then Min(PerOrderBudget(x), Mul(CycleBudget(x) / n as real, WeightOf(x, key)))
    else PerOrderBudget(x)
  }

  /** Whole shares within the smallest of the given limits; a limit of None does not bind. */
  function AffordableBuyQty(price: real, order: real, stock: Option<real>, cycle: real): int {
    if price <= 0.0 then 0
    else
      var budget := Min(if stock.Some? then Min(order, stock.value) else order, cycle);
      if budget > 0.0 then (budget / price).Floor else 0
  }

  function CapOf(x: Inputs, rate: real): Option<real>
    requires rate > 0.0
  {
    if PerStockCap(x) > 0.0 then Some(PerStockCap(x) / rate) else None
  }

  function Remaining(x: Inputs, spent: real): real {
    Max(0.0, CycleBudget(x) - spent)
  }

  /** The regular quantity: all limits in the listing's currency, then the per-order maximum. */
  function BudgetQty(x: Inputs, n: nat, ticker: string, spent: real): int
    requires n > 0 && x.env.fx > 0.0
  {
    var rate := G.RateOf(x.env, ticker);
    var q := AffordableBuyQty(G.PriceOf(x.env, ticker), NameBudget(x, n, ticker) / rate, CapOf(x, rate),
                              Remaining(x, spent) / rate);
    if x.env.params.maxOrderQty > 0 && q > x.env.params.maxOrderQty then x.env.params.maxOrderQty else q
  }

  predicate AffordableOneShare(price: real, cash: real, buffer: real) {
    price > 0.0 && cash > 0.0 && Mul(price, buffer) <= cash
  }

  /** Codes that are passed over before any quantity is computed. */
  predicate Skipped(x: Inputs, code: string) {
    var px := G.PriceOf(x.env, TickerOf(code));
    || code == []
    || (IsKrCode(code) && (code in x.held || px <= 0.0 || PerOrderBudget(x) <= 0.0))
    || (!IsKrCode(code) && (!x.allowUs || px < MIN_US_PRICE))
  }

  /** The purchase for one target, if any. */
  function SizeOne(x: Inputs, n: nat, code: string, spent: real): Option<Sized>
    requires n > 0 && x.env.fx > 0.0
  {
    var tk := TickerOf(code);
    if Skipped(x, code) then None
    else if BudgetQty(x, n, tk, spent) >= 1 then Some(Sized(tk, BudgetQty(x, n, tk, spent), true))
    else if AffordableOneShare(G.PriceOf(x.env, tk), Cash(x) / G.RateOf(x.env, tk), x.oneShareBuffer)
      then Some(Sized(tk, 1, false))
    else None
  }

  /** The value of q shares of a ticker in won. */
  function Cost(x: Inputs, ticker: string, q: int): real {
    Mul(Mul(G.PriceOf(x.env, ticker), q as real), G.RateOf(x.env, ticker))
  }

  function Value(x: Inputs, s: Sized): real {
    Cost(x, s.ticker, s.qty)
  }

  datatype Plan = Plan(orders: seq<Sized>, spent: real)

  function Extend(x: Inputs, n: nat, plan: Plan, code: string): Plan
    requires n > 0 && x.env.fx > 0.0
  {
    match SizeOne(x, n, code, plan.spent)
    case None => plan
    case Some(s) => Plan(plan.orders + [s], plan.spent + Value(x, s))
  }

  function PlanFor(x: Inputs, n: nat, codes: seq<string>): Plan
    requires n > 0 && x.env.fx > 0.0
  {
    if codes == [] then Plan([], 0.0) else Extend(x, n, PlanFor(x, n, codes[..|codes| - 1]), codes[|codes| - 1])
  }

  lemma NothingPlanned(x: Inputs, n: nat)
    requires n > 0 && x.env.fx > 0.0
    ensures PlanFor(x, n, []) == Plan([], 0.0)
  {
  }

  lemma PlanStep(x: Inputs, n: nat, codes: seq<string>, code: string)
    requires n > 0 && x.env.fx > 0.0
    ensures PlanFor(x, n, codes + [code]) == Extend(x, n, PlanFor(x, n, codes), code)
  {
    assert (codes + [code])[..|codes|] == codes;
    hide Extend;
  }

  function Considered(targets: seq<string>): seq<string> {
    if |targets| > MAX_TARGETS then targets[..MAX_TARGETS] else targets
  }

  /** The purchase loop. */
  method SizeBuys(x: Inputs, targets: seq<string>) returns (plan: Plan)
    requires x.env.fx > 0.0
    ensures plan == PlanFor(x, BuyCount(x, targets), Considered(targets))
  {
    hide *;
    var n := BuyCount(x, targets);
    var codes := Considered(targets);
    plan := Plan([], 0.0);
    NothingPlanned(x, n);
    assert codes[..0] == [];
    for i := 0 to |codes|
      invariant plan == PlanFor(x, n, codes[..i])
    {
      PlanStep(x, n, codes[..i], codes[i]);
      assert codes[..i] + [codes[i]] == codes[..i + 1];
      plan := AddTarget(x, n, codes[i], plan);
    }
    assert codes[..|codes|] == codes;
  }

  method AddTarget(x: Inputs, n: nat, code: string, before: Plan) returns (plan: Plan)
    requires n > 0 && x.env.fx > 0.0
    ensures plan == Extend(x, n, before, code)
  {
    hide SizeOne;
    plan := before;
    var s := SizeTarget(x, n, code, before.spent);
    if s.Some? {
      plan := Plan(before.orders + [s.value], before.spent + Value(x, s.value));
    }
  }

  method SizeTarget(x: Inputs, n: nat, code: string, spent: real) returns (s: Option<Sized>)
    requires n > 0 && x.env.fx > 0.0
    ensures s == SizeOne(x, n, code, spent)
  {
    s := None;
    if code == [] {
      return;
    }
    var tk := TickerOf(code);
    var price := G.PriceOf(x.env, tk);
    if IsKrCode(code) {
      if code in x.held || price <= 0.0 || PerOrderBudget(x) <= 0.0 {
        return;
      }
    } else if !x.allowUs || price <= 0.0 || price < MIN_US_PRICE {
      return;
    }
    var qty := BudgetQty(x, n, tk, spent);
    if qty >= 1 {
      return Some(Sized(tk, qty, true));
    }
    if AffordableOneShare(price, Cash(x) / G.RateOf(x.env, tk), x.oneShareBuffer) {
      s := Some(Sized(tk, 1, false));
    }
  }

  // ----- What sizing promises -----

  /** Division by a positive rate or price, moved to the other side. */
  lemma QuotientAtLeast(a: real, b: real, c: real)
    requires b > 0.0
    ensures c <= a / b <==> Mul(c, b) <= a
  {
  }

  lemma FloorAtLeast(r: real, q: int)
    ensures q <= r.Floor <==> q as real <= r
  {
  }

  /** A quantity is affordable exactly when its cost is within every limit. */
  lemma AffordableIsLargest(price: real, order: real, stock: Option<real>, cycle: real, q: int)
    requires price > 0.0 && q >= 1
    ensures q <= AffordableBuyQty(price, order, stock, cycle) <==>
      && Mul(q as real, price) <= order
      && (stock.Some? ==> Mul(q as real, price) <= stock.value)
      && Mul(q as real, price) <= cycle
  {
    var budget := Min(if stock.Some? then Min(order, stock.value) else order, cycle);
    MulSign(q as real, price);
    FloorAtLeast(budget / price, q);
    QuotientAtLeast(budget, price, q as real);
    hide Mul;
  }

  lemma CostInCurrency(x: Inputs, ticker: string, q: int, limit: real)
    requires x.env.fx > 0.0
    ensures Mul(q as real, G.PriceOf(x.env, ticker)) <= limit / G.RateOf(x.env, ticker) <==> Cost(x, ticker, q) <= limit
  {
  }

  lemma CostIsPositive(x: Inputs, ticker: string, q: int)
    requires x.env.fx > 0.0 && G.PriceOf(x.env, ticker) > 0.0 && q >= 1
    ensures Cost(x, ticker, q) > 0.0
  {
  }

  /** The value of q shares in won fits the name's budget, the stock cap (if there is one) and what the cycle has left,
      and q keeps to the per-order maximum. */
  predicate Fits(x: Inputs, n: nat, ticker: string, spent: real, q: int)
    requires n > 0
  {
    && Cost(x, ticker, q) <= NameBudget(x, n, ticker)
    && (PerStockCap(x) > 0.0 ==> Cost(x, ticker, q) <= PerStockCap(x))
    && spent + Cost(x, ticker, q) <= CycleBudget(x)
    && (x.env.params.maxOrderQty > 0 ==> q <= x.env.params.maxOrderQty)
  }

  /** The regular quantity is the largest one within every limit: a quantity is at most the sized one exactly when
      it fits. */
  lemma BudgetQtyIsLargest(x: Inputs, n: nat, ticker: string, spent: real, q: int)
    requires n > 0 && x.env.fx > 0.0 && G.PriceOf(x.env, ticker) > 0.0 && q >= 1
    ensures q <= BudgetQty(x, n, ticker, spent) <==> Fits(x, n, ticker, spent, q)
  {
    var rate := G.RateOf(x.env, ticker);
    CostIsPositive(x, ticker, q);
    CostInCurrency(x, ticker, q, NameBudget(x, n, ticker));
    CostInCurrency(x, ticker, q, PerStockCap(x));
    CostInCurrency(x, ticker, q, Remaining(x, spent));
    AffordableIsLargest(G.PriceOf(x.env, ticker), NameBudget(x, n, ticker) / rate, CapOf(x, rate),
                        Remaining(x, spent) / rate, q);
    hide Cost;
    hide NameBudget;
    hide PerStockCap;
    hide CycleBudget;
    hide AffordableBuyQty;
    hide Mul;
  }

  /** What becomes of a target that is not passed over: as many shares as fit if one does; else one share if the cash
      allows it with the buffer; else nothing. */
  lemma TargetOutcome(x: Inputs, n: nat, code: string, spent: real)
    requires n > 0 && x.env.fx > 0.0
    ensures var tk, s := TickerOf(code), SizeOne(x, n, code, spent);
      var affordable := AffordableOneShare(G.PriceOf(x.env, tk), Cash(x) / G.RateOf(x.env, tk), x.oneShareBuffer);
      && (s.None? <==> Skipped(x, code) || (!Fits(x, n, tk, spent, 1) && !affordable))
      && (s.Some? && s.value.byBudget <==> !Skipped(x, code) && Fits(x, n, tk, spent, 1))
      && (s.Some? && s.value.byBudget ==> Fits(x, n, tk, spent, s.value.qty) && !Fits(x, n, tk, spent, s.value.qty + 1))
      && (s.Some? && !s.value.byBudget ==> s.value.qty == 1)
      && (s.Some? ==> s.value.ticker == tk)
  {
    var tk := TickerOf(code);
    hide AffordableOneShare;
    hide BudgetQty;
    hide Fits;
    if !Skipped(x, code) {
      assert G.PriceOf(x.env, tk) > 0.0;
      hide Skipped;
      BudgetQtyIsLargest(x, n, tk, spent, 1);
      var q := BudgetQty(x, n, tk, spent);
      if q >= 1 {
        BudgetQtyIsLargest(x, n, tk, spent, q);
        BudgetQtyIsLargest(x, n, tk, spent, q + 1);
      }
    }
  }

  // ----- What the gate then says -----

  /** An order made from a sized purchase: the quantity may have been cut, by the per-order ceiling or by what the
      broker says can be ordered, but never to zero. */
  predicate MadeFrom(x: Inputs, o: G.Order, s: Sized) {
    && o.ticker == s.ticker && o.side == G.Buy && |o.reason| >= 5
    && 1 <= o.qty <= s.qty
    && (G.Ceiling(x.env.params) > 0 ==> o.qty <= G.Ceiling(x.env.params))
  }

  /** What may be submitted for a plan: sales first, then the purchases in order, some of them dropped. */
  predicate Follows(x: Inputs, sized: seq<Sized>, orders: seq<G.Order>) {
    if sized == [] then forall o | o in orders :: o.side != G.Buy
    else
      || Follows(x, sized[..|sized| - 1], orders)
      || (orders != []
          && MadeFrom(x, orders[|orders| - 1], sized[|sized| - 1])
          && Follows(x, sized[..|sized| - 1], orders[..|orders| - 1]))
  }

  predicate Priced(x: Inputs, s: Sized) {
    s.ticker != [] && s.qty >= 1 && G.PriceOf(x.env, s.ticker) > 0.0
  }

  lemma SizedIsPriced(x: Inputs, n: nat, code: string, spent: real)
    requires n > 0 && x.env.fx > 0.0
    ensures SizeOne(x, n, code, spent).Some? ==> Priced(x, SizeOne(x, n, code, spent).value)
  {
  }

  lemma CostGrows(x: Inputs, ticker: string, q: int, r: int)
    requires x.env.fx > 0.0 && G.PriceOf(x.env, ticker) >= 0.0 && q <= r
    ensures Cost(x, ticker, q) <= Cost(x, ticker, r)
  {
    var px, rate := G.PriceOf(x.env, ticker), G.RateOf(x.env, ticker);
    MulMonotone(px, q as real, r as real);
    MulCommutes(Mul(px, q as real), rate);
    MulCommutes(Mul(px, r as real), rate);
    MulMonotone(rate, Mul(px, q as real), Mul(px, r as real));
  }

  lemma MadeCostsNoMore(x: Inputs, o: G.Order, s: Sized)
    requires x.env.fx > 0.0 && Priced(x, s) && MadeFrom(x, o, s)
    ensures G.Notional(x.env, o) == Cost(x, o.ticker, o.qty)
    ensures 0.0 < G.Notional(x.env, o) <= Value(x, s)
  {
    CostGrows(x, o.ticker, o.qty, s.qty);
    CostIsPositive(x, o.ticker, o.qty);
  }

  lemma {:induction false} SalesSpendNothing(env: G.Env, orders: seq<G.Order>)
    requires forall o | o in orders :: o.side != G.Buy
    ensures G.Spent(env, orders) == 0.0
  {
    if orders != [] {
      SalesSpendNothing(env, orders[..|orders| - 1]);
      assert orders[|orders| - 1] in orders;
    }
  }

  /** The gate never counts more than sizing did: whatever is dropped or cut on the way, what it has approved for a
      plan's orders is at most what sizing has set aside for them. */
  lemma {:induction false} GateCountsNoMore(x: Inputs, n: nat, codes: seq<string>, orders: seq<G.Order>)
    requires n > 0 && x.env.fx > 0.0
    requires Follows(x, PlanFor(x, n, codes).orders, orders)
    ensures G.Spent(x.env, orders) <= PlanFor(x, n, codes).spent
    decreases |codes|, 1
  {
    if codes == [] {
      SalesSpendNothing(x.env, orders);
    } else {
      var before := PlanFor(x, n, codes[..|codes| - 1]);
      var s := SizeOne(x, n, codes[|codes| - 1], before.spent);
      if s.None? {
        GateCountsNoMore(x, n, codes[..|codes| - 1], orders);
      } else {
        SizedIsPriced(x, n, codes[|codes| - 1], before.spent);
        assert (before.orders + [s.value])[..|before.orders|] == before.orders;
        StepCountsNoMore(x, n, codes, before, s.value, orders);
      }
    }
  }

  lemma {:induction false} StepCountsNoMore(x: Inputs, n: nat, codes: seq<string>, before: Plan, s: Sized,
                                            orders: seq<G.Order>)
    requires n > 0 && x.env.fx > 0.0 && codes != []
    requires before == PlanFor(x, n, codes[..|codes| - 1]) && Priced(x, s)
    requires Follows(x, before.orders, orders)
      || (orders != [] && MadeFrom(x, orders[|orders| - 1], s) && Follows(x, before.orders, orders[..|orders| - 1]))
    ensures G.Spent(x.env, orders) <= before.spent + Value(x, s)
    decreases |codes|, 0
  {
    CostIsPositive(x, s.ticker, s.qty);
    hide PlanFor;
    hide Follows;
    if Follows(x, before.orders, orders) {
      GateCountsNoMore(x, n, codes[..|codes| - 1], orders);
    } else {
      GateCountsNoMore(x, n, codes[..|codes| - 1], orders[..|orders| - 1]);
      MadeCostsNoMore(x, orders[|orders| - 1], s);
      hide G.Approved;
    }
  }

  /** No regular purchase needs more than the cash once the gate's buffer is added: see BufferedIsExact. */
  predicate Buffered(p: G.Params) {
    p.minBuffer <= 1.0 || Mul(CycleRatio(p), p.minBuffer) <= 1.0
  }

  /** The gate's conditions that do not depend on the order. */
  predicate Healthy(x: Inputs) {
    var p := x.env.params;
    && x.env.balance.ok && x.env.balance.pnlRatio > -Abs(p.mdd)
    && p.maxCycle != 0.0
    && (Total(x) > 0.0 ==> p.stockRatio > 0.0)
  }

  /** A regular purchase and the limits it was made for. */
  lemma RegularPurchaseFits(x: Inputs, n: nat, code: string, spent: real)
    requires n > 0 && x.env.fx > 0.0
    requires SizeOne(x, n, code, spent).Some? && SizeOne(x, n, code, spent).value.byBudget
    ensures Cash(x) > 0.0
    ensures var s := SizeOne(x, n, code, spent).value;
      && Value(x, s) <= Cash(x)
      && (PerStockCap(x) > 0.0 ==> Value(x, s) <= PerStockCap(x))
      && spent + Value(x, s) <= Mul(Cash(x), CycleRatio(x.env.params))
  {
    var s := SizeOne(x, n, code, spent).value;
    SizedIsPriced(x, n, code, spent);
    CostIsPositive(x, s.ticker, s.qty);
    BudgetQtyIsLargest(x, n, s.ticker, spent, s.qty);
    hide Mul;
    hide Cost;
    hide BudgetQty;
    hide PerStockCap;
    assert Value(x, s) <= PerOrderBudget(x);
  }

  lemma WithinCash(x: Inputs, value: real)
    requires Buffered(x.env.params) && 0.0 < value <= Cash(x) && value <= Mul(Cash(x), CycleRatio(x.env.params))
    ensures Mul(value, x.env.params.minBuffer) <= Cash(x)
  {
  }

  /** Sizing anticipates the gate: an order from the regular path, whatever was submitted before it and however its
      quantity was cut on the way, is approved exactly when the account-wide conditions hold. */
  lemma RegularOrderPassesGate(x: Inputs, n: nat, codes: seq<string>, before: seq<G.Order>, code: string, o: G.Order)
    requires n > 0 && x.env.fx > 0.0 && Buffered(x.env.params)
    requires Follows(x, PlanFor(x, n, codes).orders, before)
    requires var s := SizeOne(x, n, code, PlanFor(x, n, codes).spent);
      s.Some? && s.value.byBudget && MadeFrom(x, o, s.value)
    requires !G.IsSleeve(x.env, o.ticker)
    ensures G.Approved(x.env, G.Spent(x.env, before), o) <==> Healthy(x)
  {
    var planned := PlanFor(x, n, codes).spent;
    var s := SizeOne(x, n, code, planned).value;
    GateCountsNoMore(x, n, codes, before);
    SizedIsPriced(x, n, code, planned);
    RegularPurchaseFits(x, n, code, planned);
    MadeCostsNoMore(x, o, s);
    G.SpentWithinBudget(x.env, before);
    WithinCash(x, G.Notional(x.env, o));
    JudgeRegular(x, G.Spent(x.env, before), o);
  }

  lemma JudgeRegular(x: Inputs, spent: real, o: G.Order)
    requires o.side == G.Buy && o.ticker != [] && |o.reason| >= 5 && 1 <= o.qty
    requires G.Ceiling(x.env.params) > 0 ==> o.qty <= G.Ceiling(x.env.params)
    requires G.PriceOf(x.env, o.ticker) > 0.0 && !G.IsSleeve(x.env, o.ticker)
    requires Cash(x) > 0.0 && spent >= 0.0 && 0.0 < G.Notional(x.env, o)
    requires PerStockCap(x) > 0.0 ==> G.Notional(x.env, o) <= PerStockCap(x)
    requires spent + G.Notional(x.env, o) <= Mul(Cash(x), CycleRatio(x.env.params))
    requires Mul(G.Notional(x.env, o), x.env.params.minBuffer) <= Cash(x)
    ensures G.Approved(x.env, spent, o) <==> Healthy(x)
  {
    hide G.Notional;
    var p := x.env.params;
    MulZero(Cash(x));
    if Total(x) > 0.0 {
      MulSign(Total(x), p.stockRatio);
    }
    hide Mul;
    if Healthy(x) {
      forall i
        ensures !G.Breaks(x.env, spent, o, i)
      {
      }
    } else if !x.env.balance.ok {
      assert G.Breaks(x.env, spent, o, G.BalanceUnknown);
    } else if x.env.balance.pnlRatio <= -Abs(p.mdd) {
      assert G.Breaks(x.env, spent, o, G.DrawdownBrake);
    } else if p.maxCycle == 0.0 {
      assert G.Breaks(x.env, spent, o, G.CycleBudget);
    } else {
      assert G.Breaks(x.env, spent, o, G.Concentration);
    }
  }

  /** The gate refuses no purchase of a batch. */
  ghost predicate BuysPass(env: G.Env, orders: seq<G.Order>) {
    forall k | 0 <= k < |orders| && orders[k].side == G.Buy :: G.Approved(env, G.Spent(env, orders[..k]), orders[k])
  }

  lemma BuysPassStep(env: G.Env, orders: seq<G.Order>, o: G.Order)
    requires BuysPass(env, orders) && G.Approved(env, G.Spent(env, orders), o)
    ensures BuysPass(env, orders + [o])
  {
    hide G.Approved;
    hide G.Spent;
    forall k | 0 <= k < |orders| + 1 && (orders + [o])[k].side == G.Buy
      ensures G.Approved(env, G.Spent(env, (orders + [o])[..k]), (orders + [o])[k])
    {
      assert (orders + [o])[..k] == orders[..k];
      assert orders[..|orders|] == orders;
    }
  }

  lemma SalesPass(env: G.Env, orders: seq<G.Order>)
    requires forall o | o in orders :: o.side != G.Buy
    ensures BuysPass(env, orders)
  {
  }

  /** Every purchase of the plan is a regular one of a stock. */
  predicate AllRegular(x: Inputs, sized: seq<Sized>) {
    sized == [] || (AllRegular(x, sized[..|sized| - 1]) && sized[|sized| - 1].byBudget
                    && !G.IsSleeve(x.env, sized[|sized| - 1].ticker))
  }

  /** A whole plan passes: if its purchases are regular ones of stocks and the account-wide conditions hold, no
      order made from it is refused. */
  lemma {:induction false} PlanPassesGate(x: Inputs, n: nat, codes: seq<string>, orders: seq<G.Order>)
    requires n > 0 && x.env.fx > 0.0 && Buffered(x.env.params) && Healthy(x)
    requires AllRegular(x, PlanFor(x, n, codes).orders)
    requires Follows(x, PlanFor(x, n, codes).orders, orders)
    ensures BuysPass(x.env, orders)
    decreases |codes|, 1
  {
    hide BuysPass;
    if codes == [] {
      SalesPass(x.env, orders);
    } else {
      var init, code := codes[..|codes| - 1], codes[|codes| - 1];
      var plan := PlanFor(x, n, init);
      var s := SizeOne(x, n, code, plan.spent);
      if s.None? {
        PlanPassesGate(x, n, init, orders);
      } else {
        assert (plan.orders + [s.value])[..|plan.orders|] == plan.orders;
        OrderPassesGate(x, n, init, code, orders);
      }
    }
  }

  lemma {:induction false} OrderPassesGate(x: Inputs, n: nat, codes: seq<string>, code: string, orders: seq<G.Order>)
    requires n > 0 && x.env.fx > 0.0 && Buffered(x.env.params) && Healthy(x)
    requires AllRegular(x, PlanFor(x, n, codes).orders)
    requires var s := SizeOne(x, n, code, PlanFor(x, n, codes).spent);
      && s.Some? && s.value.byBudget && !G.IsSleeve(x.env, s.value.ticker)
      && (Follows(x, PlanFor(x, n, codes).orders, orders)
          || (orders != [] && MadeFrom(x, orders[|orders| - 1], s.value)
              && Follows(x, PlanFor(x, n, codes).orders, orders[..|orders| - 1])))
    ensures BuysPass(x.env, orders)
    decreases |codes|, 2
  {
    hide PlanFor;
    hide Follows;
    hide SizeOne;
    hide Healthy;
    hide BuysPass;
    if Follows(x, PlanFor(x, n, codes).orders, orders) {
      PlanPassesGate(x, n, codes, orders);
    } else {
      var m := |orders| - 1;
      assert orders == orders[..m] + [orders[m]];
      PlanPassesGate(x, n, codes, orders[..m]);
      RegularOrderPassesGate(x, n, codes, orders[..m], code, orders[m]);
      BuysPassStep(x.env, orders[..m], orders[m]);
    }
  }

  // ----- The per-order ceiling -----

  const CLAMP_NOTE: string := " [clamped]"

  /** A purchase above the ceiling is cut down to it instead of being refused later. */
  function Clamp(p: G.Params, o: G.Order): G.Order {
    if o.side == G.Buy && G.Ceiling(p) > 0 && o.qty > G.Ceiling(p) then
      o.(qty := G.Ceiling(p), reason := o.reason + CLAMP_NOTE)
    else o
  }

  /** Clamps the orders in place. */
  method ClampToMaxQty(p: G.Params, orders: array<G.Order>)
    modifies orders
    ensures forall i | 0 <= i < orders.Length :: orders[i] == Clamp(p, old(orders[i]))
  {
    var ceiling := G.Ceiling(p);
    if ceiling <= 0 {
      return;
    }
    for i := 0 to orders.Length
      invariant forall j | 0 <= j < i :: orders[j] == Clamp(p, old(orders[j]))
      invariant forall j | i <= j < orders.Length :: orders[j] == old(orders[j])
    {
      if orders[i].side == G.Buy && orders[i].qty > ceiling {
        orders[i] := orders[i].(qty := ceiling, reason := orders[i].reason + CLAMP_NOTE);
      }
    }
  }

  /** The batch submitted when nothing else intervenes: the sales, then one clamped order per sized purchase. */
  function Drafted(p: G.Params, sales: seq<G.Order>, sized: seq<Sized>, reason: string): seq<G.Order> {
    if sized == [] then sales
    else
      var s := sized[|sized| - 1];
      Drafted(p, sales, sized[..|sized| - 1], reason) + [Clamp(p, G.Order(s.ticker, G.Buy, s.qty, reason))]
  }

  lemma {:induction false} DraftFollowsPlan(x: Inputs, n: nat, codes: seq<string>, sales: seq<G.Order>, reason: string)
    requires n > 0 && x.env.fx > 0.0 && |reason| >= 5
    requires forall o | o in sales :: o.side != G.Buy
    ensures Follows(x, PlanFor(x, n, codes).orders, Drafted(x.env.params, sales, PlanFor(x, n, codes).orders, reason))
    decreases |codes|
  {
    if codes != [] {
      var init, code := codes[..|codes| - 1], codes[|codes| - 1];
      var plan := PlanFor(x, n, init);
      var s := SizeOne(x, n, code, plan.spent);
      DraftFollowsPlan(x, n, init, sales, reason);
      if s.Some? {
        SizedIsPriced(x, n, code, plan.spent);
        DraftStep(x, plan.orders, s.value, sales, reason);
      }
    }
  }

  lemma DraftStep(x: Inputs, sized: seq<Sized>, s: Sized, sales: seq<G.Order>, reason: string)
    requires Priced(x, s) && |reason| >= 5
    requires Follows(x, sized, Drafted(x.env.params, sales, sized, reason))
    ensures Follows(x, sized + [s], Drafted(x.env.params, sales, sized + [s], reason))
  {
    var o := Clamp(x.env.params, G.Order(s.ticker, G.Buy, s.qty, reason));
    var before := Drafted(x.env.params, sales, sized, reason);
    assert (sized + [s])[..|sized|] == sized;
    assert Drafted(x.env.params, sales, sized + [s], reason) == before + [o];
    assert (before + [o])[..|before|] == before;
    assert MadeFrom(x, o, s);
  }

  /** From targets to approvals: the sized and clamped batch goes through the gate without a refused purchase. */
  lemma SizedBatchIsApproved(x: Inputs, targets: seq<string>, sales: seq<G.Order>, reason: string)
    requires x.env.fx > 0.0 && |reason| >= 5 && Buffered(x.env.params) && Healthy(x)
    requires forall o | o in sales :: o.side != G.Buy
    requires AllRegular(x, PlanFor(x, BuyCount(x, targets), Considered(targets)).orders)
    ensures BuysPass(x.env, Drafted(x.env.params, sales,
                                    PlanFor(x, BuyCount(x, targets), Considered(targets)).orders, reason))
  {
    hide BuyCount;
    hide Considered;
    hide PlanFor;
    var n, codes := BuyCount(x, targets), Considered(targets);
    DraftFollowsPlan(x, n, codes, sales, reason);
    PlanPassesGate(x, n, codes, Drafted(x.env.params, sales, PlanFor(x, n, codes).orders, reason));
  }

  // ----- Where the two disagree -----

  /** No regular purchase, cut or not, is short of cash at the gate, whatever the account and the prices. */
  ghost predicate NeverShort(p: G.Params) {
    forall x: Inputs, n: nat, code: string, spent: real, o: G.Order ::
      && x.env.params == p && x.env.fx > 0.0 && n > 0
      && SizeOne(x, n, code, spent).Some? && SizeOne(x, n, code, spent).value.byBudget
      && MadeFrom(x, o, SizeOne(x, n, code, spent).value) && spent >= 0.0
      ==> !G.Breaks(x.env, spent, o, G.CashShort)
  }

  function SampleInputs(p: G.Params, price: real): Inputs {
    var total := if p.stockRatio > 0.0 then Max(100.0, 100.0 / p.stockRatio) else 100.0;
    Inputs(G.Env(p, G.Balance(100.0, total, 0.0, true), map["005930" := price], 1.0, map[]),
           1.0, 1.0, false, false, {}, map[])
  }

  /** The condition on the limits is exact: sizing never proposes more than the gate's cash buffer allows if and only
      if the buffer is at most one, or at most the inverse of the cycle ratio. */
  lemma BufferedIsExact(p: G.Params)
    ensures NeverShort(p) <==> Buffered(p)
  {
    if Buffered(p) {
      BufferedIsEnough(p);
    } else {
      BufferedIsNeeded(p);
    }
  }

  lemma BufferedIsEnough(p: G.Params)
    requires Buffered(p)
    ensures NeverShort(p)
  {
    hide SizeOne;
    hide Buffered;
    forall x: Inputs, n: nat, code: string, spent: real, o: G.Order |
      && x.env.params == p && x.env.fx > 0.0 && n > 0
      && SizeOne(x, n, code, spent).Some? && SizeOne(x, n, code, spent).value.byBudget
      && MadeFrom(x, o, SizeOne(x, n, code, spent).value) && spent >= 0.0
      ensures !G.Breaks(x.env, spent, o, G.CashShort)
    {
      SizedIsPriced(x, n, code, spent);
      RegularPurchaseFits(x, n, code, spent);
      MadeCostsNoMore(x, o, SizeOne(x, n, code, spent).value);
      WithinCash(x, G.Notional(x.env, o));
    }
  }

  lemma BufferedIsNeeded(p: G.Params)
    requires !Buffered(p)
    ensures !NeverShort(p)
  {
    var ratio := CycleRatio(p);
    NotBufferedRatio(ratio, p.minBuffer);
    var price := 100.0 * Min(1.0, ratio);
    var x, o := SampleInputs(p, price), G.Order("005930", G.Buy, 1, "entry");
    SampleShare(x, price);
    SampleFits(p, price);
    assert Fits(x, 1, "005930", 0.0, 1);
    TargetOutcome(x, 1, "005930", 0.0);
    MulOne(price);
    assert G.Notional(x.env, o) == Cost(x, "005930", 1);
    assert Mul(price, p.minBuffer) > 100.0;
    hide SizeOne;
    hide Fits;
    hide G.Notional;
    hide Cost;
    hide Mul;
    hide BudgetQty;
    hide Skipped;
    hide CycleRatio;
    assert MadeFrom(x, o, SizeOne(x, 1, "005930", 0.0).value);
    assert G.Breaks(x.env, 0.0, o, G.CashShort);
  }

  lemma NotBufferedRatio(ratio: real, buffer: real)
    requires buffer > 1.0 && Mul(ratio, buffer) > 1.0
    ensures ratio > 0.0
    ensures Mul(100.0 * Min(1.0, ratio), buffer) > 100.0
  {
    if ratio <= 0.0 {
      MulCommutes(ratio, buffer);
      MulMonotone(buffer, ratio, 0.0);
      MulZero(buffer);
      assert false;
    }
    assert Mul(100.0 * ratio, buffer) == 100.0 * Mul(ratio, buffer);
    assert Mul(100.0, buffer) == 100.0 * buffer;
    hide Mul;
  }

  lemma SampleFits(p: G.Params, price: real)
    requires 0.0 < price <= 100.0 && price <= 100.0 * CycleRatio(p)
    ensures var x := SampleInputs(p, price);
      && Cost(x, "005930", 1) == price
      && price <= NameBudget(x, 1, "005930")
      && (PerStockCap(x) > 0.0 ==> price <= PerStockCap(x))
      && price <= CycleBudget(x)
      && !Skipped(x, "005930")
  {
  }

  lemma OneShareFitsCash(x: Inputs, n: nat, code: string, spent: real)
    requires n > 0 && x.env.fx > 0.0
    requires SizeOne(x, n, code, spent).Some? && !SizeOne(x, n, code, spent).value.byBudget
    ensures Cash(x) > 0.0 && SizeOne(x, n, code, spent).value.qty == 1
    ensures Mul(Value(x, SizeOne(x, n, code, spent).value), x.oneShareBuffer) <= Cash(x)
  {
    hide BudgetQty;
    var tk, buffer := TickerOf(code), x.oneShareBuffer;
    var px, rate := G.PriceOf(x.env, tk), G.RateOf(x.env, tk);
    assert AffordableOneShare(px, Cash(x) / rate, buffer);
    assert Cash(x) > 0.0 by {
      MulQuotient(Cash(x), rate);
      MulSign(Cash(x) / rate, rate);
    }
    QuotientAtLeast(Cash(x), rate, Mul(px, buffer));
    MulOne(px);
    MulAssociative(px, buffer, rate);
    MulCommutes(buffer, rate);
    MulAssociative(px, rate, buffer);
  }

  /** The one-share exception answers to its own buffer only: the stock cap, the cycle budget and the account's own
      buffer decide whether its purchase is approved. */
  lemma OneShareIsApprovedIff(x: Inputs, n: nat, code: string, planned: real, spent: real, o: G.Order)
    requires n > 0 && x.env.fx > 0.0 && Healthy(x)
    requires var s := SizeOne(x, n, code, planned);
      s.Some? && !s.value.byBudget && MadeFrom(x, o, s.value)
    requires !G.IsSleeve(x.env, o.ticker)
    ensures G.Approved(x.env, spent, o) <==>
      && (Total(x) > 0.0 ==> Cost(x, o.ticker, 1) <= PerStockCap(x))
      && spent + Cost(x, o.ticker, 1) <= CycleBudget(x)
      && Mul(Cost(x, o.ticker, 1), x.env.params.minBuffer) <= Cash(x)
  {
    SizedIsPriced(x, n, code, planned);
    OneShareFitsCash(x, n, code, planned);
    MadeCostsNoMore(x, o, SizeOne(x, n, code, planned).value);
    hide SizeOne;
    JudgeOneShare(x, spent, o);
  }

  lemma JudgeOneShare(x: Inputs, spent: real, o: G.Order)
    requires o.side == G.Buy && o.ticker != [] && |o.reason| >= 5 && o.qty == 1 && Healthy(x) && Cash(x) > 0.0
    requires G.Ceiling(x.env.params) > 0 ==> o.qty <= G.Ceiling(x.env.params)
    requires G.PriceOf(x.env, o.ticker) > 0.0 && !G.IsSleeve(x.env, o.ticker)
    requires G.Notional(x.env, o) == Cost(x, o.ticker, 1)
    ensures G.Approved(x.env, spent, o) <==>
      && (Total(x) > 0.0 ==> Cost(x, o.ticker, 1) <= PerStockCap(x))
      && spent + Cost(x, o.ticker, 1) <= CycleBudget(x)
      && Mul(Cost(x, o.ticker, 1), x.env.params.minBuffer) <= Cash(x)
  {
    hide Mul;
    hide Cost;
    hide G.Notional;
    if spent + Cost(x, o.ticker, 1) > CycleBudget(x) {
      assert G.Breaks(x.env, spent, o, G.CycleBudget);
    } else if Mul(Cost(x, o.ticker, 1), x.env.params.minBuffer) > Cash(x) {
      assert G.Breaks(x.env, spent, o, G.CashShort);
    } else if Total(x) > 0.0 && Cost(x, o.ticker, 1) > PerStockCap(x) {
      assert G.Breaks(x.env, spent, o, G.Concentration);
    } else {
      forall i
        ensures !G.Breaks(x.env, spent, o, i)
      {
      }
    }
  }

  /** Whatever the account and the prices, a one-share purchase leaves the gate its cash buffer. */
  ghost predicate OneShareNeverShort(own: real, minBuffer: real) {
    forall x: Inputs, n: nat, code: string, spent: real ::
      && x.oneShareBuffer == own && x.env.params.minBuffer == minBuffer && x.env.fx > 0.0 && n > 0
      && SizeOne(x, n, code, spent).Some? && !SizeOne(x, n, code, spent).value.byBudget
      ==> Mul(Value(x, SizeOne(x, n, code, spent).value), minBuffer) <= Cash(x)
  }

  /** The exception is sized with the common buffer and judged by the account's own: it is never short of cash at the
      gate if and only if the account asks for no more than the common buffer (or for none at all). */
  lemma OneShareBufferIsExact(own: real, minBuffer: real)
    ensures OneShareNeverShort(own, minBuffer) <==> minBuffer <= own || minBuffer <= 0.0
  {
    if minBuffer <= own || minBuffer <= 0.0 {
      OneShareBufferIsEnough(own, minBuffer);
    } else {
      OneShareBufferIsNeeded(own, minBuffer);
    }
  }

  lemma OneShareBufferIsEnough(own: real, minBuffer: real)
    requires minBuffer <= own || minBuffer <= 0.0
    ensures OneShareNeverShort(own, minBuffer)
  {
    hide SizeOne;
    forall x: Inputs, n: nat, code: string, spent: real |
      && x.oneShareBuffer == own && x.env.params.minBuffer == minBuffer && x.env.fx > 0.0 && n > 0
      && SizeOne(x, n, code, spent).Some? && !SizeOne(x, n, code, spent).value.byBudget
      ensures Mul(Value(x, SizeOne(x, n, code, spent).value), minBuffer) <= Cash(x)
    {
      var s := SizeOne(x, n, code, spent).value;
      SizedIsPriced(x, n, code, spent);
      OneShareFitsCash(x, n, code, spent);
      CostIsPositive(x, s.ticker, s.qty);
      BufferOrder(Value(x, s), minBuffer, own, Cash(x));
    }
  }

  lemma BufferOrder(value: real, minBuffer: real, own: real, cash: real)
    requires value > 0.0 && cash > 0.0 && Mul(value, own) <= cash && (minBuffer <= own || minBuffer <= 0.0)
    ensures Mul(value, minBuffer) <= cash
  {
    if minBuffer <= own {
      MulMonotone(value, minBuffer, own);
    } else {
      MulSign(value, minBuffer);
    }
    hide Mul;
  }

  /** An account whose one share costs more than the order budget: price 100 / k, budget 50 / k. */
  function DearShare(own: real, minBuffer: real, k: real): Inputs
    requires k > 0.0
  {
    Inputs(G.Env(G.Params(0.2, 0.0, minBuffer, 1.0, 0, 1000), G.Balance(100.0, 100.0, 0.0, true),
                 map["005930" := 100.0 / k], 1.0, map[]),
           1.0 / (2.0 * k), own, false, false, {}, map[])
  }

  lemma DearShareIsExcepted(own: real, minBuffer: real, k: real)
    requires k > 0.0 && own <= k < minBuffer
    ensures var x := DearShare(own, minBuffer, k);
      && SizeOne(x, 1, "005930", 0.0) == Some(Sized("005930", 1, false))
      && Mul(Cost(x, "005930", 1), minBuffer) > 100.0
  {
    var x, price := DearShare(own, minBuffer, k), 100.0 / k;
    DearSharePrice(k, own, minBuffer);
    assert G.PriceOf(x.env, "005930") == price && G.RateOf(x.env, "005930") == 1.0;
    MulOne(price);
    assert Cost(x, "005930", 1) == price;
    assert Mul(100.0, 1.0 / (2.0 * k)) == price / 2.0;
    assert 0.0 < PerOrderBudget(x) <= price / 2.0;
    assert !Fits(x, 1, "005930", 0.0, 1) by {
      assert NameBudget(x, 1, "005930") <= PerOrderBudget(x);
    }
    hide Mul;
    TargetOutcome(x, 1, "005930", 0.0);
  }

  lemma DearSharePrice(k: real, own: real, minBuffer: real)
    requires k > 0.0 && own <= k < minBuffer
    ensures 100.0 / k > 0.0
    ensures Mul(100.0 / k, own) <= 100.0 < Mul(100.0 / k, minBuffer)
  {
    var price := 100.0 / k;
    MulQuotient(100.0, k);
    MulMonotone(price, own, k);
    MulLeft(price, minBuffer, k);
    MulSign(price, minBuffer - k);
    hide Mul;
  }

  lemma OneShareBufferIsNeeded(own: real, minBuffer: real)
    requires 0.0 < minBuffer && own < minBuffer
    ensures !OneShareNeverShort(own, minBuffer)
  {
    var k := if own > 0.0 then own else minBuffer / 2.0;
    var x := DearShare(own, minBuffer, k);
    DearShareIsExcepted(own, minBuffer, k);
    hide SizeOne;
    hide Cost;
    hide Mul;
    assert Mul(Value(x, SizeOne(x, 1, "005930", 0.0).value), minBuffer) > Cash(x);
  }

  /** An account that asks for a buffer of 1.5 where the exception reckons with 1.1: one share of 80 out of 100 is
      proposed, within the stock cap and the cycle budget, and refused for cash. */
  lemma OwnBufferMayRefuse()
    ensures var p := G.Params(0.2, 1.0, 1.5, 1.0, 0, 1000);
      var x := SampleInputs(p, 80.0).(perOrder := 0.1, oneShareBuffer := 1.1);
      var o := G.Order("005930", G.Buy, 1, "entry");
      && Healthy(x)
      && SizeOne(x, 1, "005930", 0.0) == Some(Sized("005930", 1, false))
      && MadeFrom(x, o, Sized("005930", 1, false))
      && G.Breaks(x.env, 0.0, o, G.CashShort)
      && !G.Breaks(x.env, 0.0, o, G.Concentration) && !G.Breaks(x.env, 0.0, o, G.CycleBudget)
  {
    var x := SampleInputs(G.Params(0.2, 1.0, 1.5, 1.0, 0, 1000), 80.0).(perOrder := 0.1, oneShareBuffer := 1.1);
    ExceptedShare(x, 80.0);
    hide SizeOne;
  }

  /** A share dearer than the order budget that the cash allows with the exception's buffer. */
  lemma ExceptedShare(x: Inputs, price: real)
    requires x.env.prices == map["005930" := price] && x.env.fx > 0.0 && x.held == {}
    requires 0.0 < PerOrderBudget(x) < price && Mul(price, x.oneShareBuffer) <= Cash(x)
    ensures SizeOne(x, 1, "005930", 0.0) == Some(Sized("005930", 1, false))
  {
    SampleShare(x, price);
    PositiveBudgetNeedsCash(x);
    hide G.PriceOf;
    hide G.RateOf;
    hide Cost;
    hide Mul;
    hide CycleBudget;
    hide PerStockCap;
    assert NameBudget(x, 1, "005930") <= PerOrderBudget(x);
    assert !Fits(x, 1, "005930", 0.0, 1);
    assert AffordableOneShare(price, Cash(x) / 1.0, x.oneShareBuffer);
    hide PerOrderBudget;
    assert !Skipped(x, "005930");
    hide *;
    TargetOutcome(x, 1, "005930", 0.0);
  }

  lemma SampleShare(x: Inputs, price: real)
    requires x.env.prices == map["005930" := price]
    ensures TickerOf("005930") == "005930" && IsKrCode("005930")
    ensures G.PriceOf(x.env, "005930") == price && G.RateOf(x.env, "005930") == 1.0
    ensures Cost(x, "005930", 1) == price
  {
    MulOne(price);
    hide Mul;
  }

  lemma PositiveBudgetNeedsCash(x: Inputs)
    requires PerOrderBudget(x) > 0.0
    ensures Cash(x) > 0.0
  {
  }

  /** Sizing and gate on the two zero settings. */
  function ZeroSetting(stockRatio: real, maxCycle: real): Inputs {
    SampleInputs(G.Params(0.2, stockRatio, 1.0, maxCycle, 0, 1000), 10.0)
  }

  lemma ZeroSettingQty(x: Inputs, q: int)
    requires (x == ZeroSetting(1.0, 0.0) && q == 4) || (x == ZeroSetting(0.0, 1.0) && q == 10)
    ensures SizeOne(x, 1, "005930", 0.0) == Some(Sized("005930", q, true))
  {
    assert Cost(x, "005930", q) == 10.0 * q as real && Cost(x, "005930", q + 1) == 10.0 * (q + 1) as real;
    assert G.PriceOf(x.env, "005930") == 10.0;
    assert PerOrderBudget(x) == 100.0 && CycleBudget(x) == 10.0 * q as real;
    assert NameBudget(x, 1, "005930") == 10.0 * q as real;
    assert PerStockCap(x) == if q == 4 then 100.0 else 0.0;
    BudgetQtyIsLargest(x, 1, "005930", 0.0, q);
    BudgetQtyIsLargest(x, 1, "005930", 0.0, q + 1);
    assert BudgetQty(x, 1, "005930", 0.0) == q;
    hide BudgetQty;
    hide PerOrderBudget;
    hide Mul;
  }

  /** A cycle ratio of zero: sizing takes it for 0.4 and proposes four shares, the gate for a budget of nothing. */
  lemma ZeroCycleRatioIsRefused()
    ensures var x, o := ZeroSetting(1.0, 0.0), G.Order("005930", G.Buy, 4, "entry");
      && SizeOne(x, 1, "005930", 0.0) == Some(Sized("005930", 4, true))
      && MadeFrom(x, o, Sized("005930", 4, true))
      && G.Breaks(x.env, 0.0, o, G.CycleBudget)
  {
    ZeroSettingQty(ZeroSetting(1.0, 0.0), 4);
    hide SizeOne;
  }

  /** A stock ratio of zero: sizing applies no cap, the gate allows nothing. */
  lemma ZeroStockCapIsRefused()
    ensures var x, o := ZeroSetting(0.0, 1.0), G.Order("005930", G.Buy, 10, "entry");
      && SizeOne(x, 1, "005930", 0.0) == Some(Sized("005930", 10, true))
      && MadeFrom(x, o, Sized("005930", 10, true))
      && G.Breaks(x.env, 0.0, o, G.Concentration)
  {
    ZeroSettingQty(ZeroSetting(0.0, 1.0), 10);
    hide SizeOne;
  }

  /** With limits like the defaults the one-share exception can propose half of the account, which the gate refuses. */
  lemma OneShareMayBeRefused()
    ensures var p := G.Params(0.2, 0.15, 1.1, 0.4, 0, 1000);
      var x := SampleInputs(p, 50.0).(perOrder := 0.1, oneShareBuffer := 1.1,
        env := SampleInputs(p, 50.0).env.(balance := G.Balance(100.0, 100.0, 0.0, true)));
      var o := G.Order("005930", G.Buy, 1, "entry");
      && Healthy(x) && Buffered(p)
      && SizeOne(x, 1, "005930", 0.0) == Some(Sized("005930", 1, false))
      && MadeFrom(x, o, Sized("005930", 1, false))
      && G.Breaks(x.env, 0.0, o, G.Concentration)
  {
    var p := G.Params(0.2, 0.15, 1.1, 0.4, 0, 1000);
    var x := SampleInputs(p, 50.0).(perOrder := 0.1, oneShareBuffer := 1.1,
      env := SampleInputs(p, 50.0).env.(balance := G.Balance(100.0, 100.0, 0.0, true)));
    ExceptedShare(x, 50.0);
    hide SizeOne;
  }
}
