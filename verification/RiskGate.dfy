/** The deterministic risk gate over a batch of orders (agents/guardrails.py). */
module RiskGate {
  import opened Common

  datatype Params = Params(
    mdd: real,
    stockRatio: real,
    minBuffer: real,
    maxCycle: real,
    maxOrderQty: int,
    hardMaxOrderQty: int)

  datatype Balance = Balance(cash: real, totalEval: real, pnlRatio: real, ok: bool)

  /** What every check of a batch sees: limits, account, prices, the exchange rate, and for the tickers of an
      allocation sleeve that sleeve's target ceiling. */
  datatype Env = Env(
    params: Params,
    balance: Balance,
    prices: map<string, real>,
    fx: real,
    sleeveCaps: map<string, real>)

  datatype Side = Buy | Sell | OtherSide

  datatype Order = Order(ticker: string, side: Side, qty: int, reason: string)

  datatype Issue =
    | NoTicker | BadQty | OverCeiling | NoReason | NoPrice
    | BalanceUnknown | DrawdownBrake | Concentration | CashShort | CycleBudget

  // ----- Quantities -----

  predicate IsSleeve(env: Env, ticker: string) {
    ticker in env.sleeveCaps
  }

  function ConcentrationRatio(env: Env, ticker: string): real {
    if IsSleeve(env, ticker) then env.sleeveCaps[ticker] else env.params.stockRatio
  }

  function Ceiling(p: Params): int {
    if p.maxOrderQty > 0 then p.maxOrderQty else p.hardMaxOrderQty
  }

  function PriceOf(env: Env, ticker: string): real {
    if ticker in env.prices then env.prices[ticker] else 0.0
  }

  function RateOf(env: Env, ticker: string): real {
    if IsKrCode(ticker) then 1.0 else env.fx
  }

  /** The order's value in won. */
  function Notional(env: Env, o: Order): real {
    Mul(Mul(PriceOf(env, o.ticker), (if o.qty > 0 then o.qty else 0) as real), RateOf(env, o.ticker))
  }

  function TotalOf(b: Balance): real {
    if b.totalEval != 0.0 then b.totalEval else b.cash
  }

  // ----- The rules -----

  /** Whether an order breaks one rule, when `spent` has been approved before it. */
  predicate Breaks(env: Env, spent: real, o: Order, i: Issue) {
    var b, p := env.balance, env.params;
    var known := o.side == Buy && b.ok;
    match i
    case NoTicker => o.ticker == []
    case BadQty => o.qty <= 0
    case OverCeiling => o.side == Buy && !IsSleeve(env, o.ticker) && 0 < Ceiling(p) < o.qty
    case NoReason => |o.reason| < 5
    case NoPrice => o.side == Buy && PriceOf(env, o.ticker) <= 0.0
    case BalanceUnknown => o.side == Buy && !b.ok
    case DrawdownBrake => known && b.pnlRatio <= -Abs(p.mdd)
    case Concentration => known && TotalOf(b) > 0.0
      && Notional(env, o) > Mul(TotalOf(b), ConcentrationRatio(env, o.ticker))
    case CashShort => known && b.cash > 0.0 && Mul(Notional(env, o), p.minBuffer) > b.cash
    case CycleBudget =>
      known && !IsSleeve(env, o.ticker) && b.cash > 0.0 && spent + Notional(env, o) > Mul(b.cash, p.maxCycle)
  }

  ghost predicate Approved(env: Env, spent: real, o: Order) {
    forall i :: !Breaks(env, spent, o, i)
  }

  /** Stock purchases draw on the cycle budget; sales and sleeve purchases do not. */
  predicate Counted(env: Env, o: Order) {
    o.side == Buy && !IsSleeve(env, o.ticker)
  }

  ghost function SpentAfter(env: Env, spent: real, o: Order): real {
    if Approved(env, spent, o) && Counted(env, o) then spent + Notional(env, o) else spent
  }

  /** The approved stock purchases of a batch. */
  ghost function Spent(env: Env, orders: seq<Order>): real {
    if orders == [] then 0.0 else SpentAfter(env, Spent(env, orders[..|orders| - 1]), orders[|orders| - 1])
  }

  /** The running total shared by the checks of one batch. */
  class CycleState {
    var spent: real

    constructor ()
      ensures spent == 0.0
    {
      spent := 0.0;
    }
  }

  /** Checks one order; the issues found are exactly the rules it breaks. */
  method CheckSingleOrder(env: Env, o: Order, state: CycleState) returns (approved: bool, issues: seq<Issue>)
    modifies state
    ensures forall i :: i in issues <==> Breaks(env, old(state.spent), o, i)
    ensures approved == Approved(env, old(state.spent), o)
    ensures state.spent == SpentAfter(env, old(state.spent), o)
  {
    var structural := StructuralIssues(env, o);
    var money := if o.side == Buy then MoneyIssues(env, o, state.spent) else [];
    issues := structural + money;
    NoIssues(env, state.spent, o, issues);
    approved := issues == [];
    if approved && o.side == Buy && !IsSleeve(env, o.ticker) {
      state.spent := state.spent + Notional(env, o);
    }
  }

  function One(c: bool, i: Issue): seq<Issue> {
    if c then [i] else []
  }

  predicate Structural(i: Issue) {
    i.NoTicker? || i.BadQty? || i.OverCeiling? || i.NoReason?
  }

  predicate Limit(i: Issue) {
    i.DrawdownBrake? || i.Concentration? || i.CashShort? || i.CycleBudget?
  }

  /** Ticker, quantity and reason, for either side. */
  function StructuralIssues(env: Env, o: Order): (issues: seq<Issue>)
    ensures forall i :: i in issues <==> Structural(i) && Breaks(env, 0.0, o, i)
  {
    var ceiling := Ceiling(env.params);
    One(o.ticker == [], NoTicker) + One(o.qty <= 0, BadQty)
    + One(o.side == Buy && !IsSleeve(env, o.ticker) && ceiling > 0 && o.qty > ceiling, OverCeiling)
    + One(|o.reason| < 5, NoReason)
  }

  /** The price and money checks of a purchase. */
  function MoneyIssues(env: Env, o: Order, spent: real): (issues: seq<Issue>)
    requires o.side == Buy
    ensures forall i :: i in issues <==> !Structural(i) && Breaks(env, spent, o, i)
  {
    One(PriceOf(env, o.ticker) <= 0.0, NoPrice)
    + if !env.balance.ok then [BalanceUnknown] else LimitIssues(env, o, spent)
  }

  /** The limits that need the account's figures. */
  function LimitIssues(env: Env, o: Order, spent: real): (issues: seq<Issue>)
    requires o.side == Buy && env.balance.ok
    ensures forall i :: i in issues <==> Limit(i) && Breaks(env, spent, o, i)
  {
    var b, p := env.balance, env.params;
    var total, value := TotalOf(b), Notional(env, o);
    One(b.pnlRatio <= -Abs(p.mdd), DrawdownBrake)
    + One(total > 0.0 && value > Mul(total, ConcentrationRatio(env, o.ticker)), Concentration)
    + One(b.cash > 0.0 && Mul(value, p.minBuffer) > b.cash, CashShort)
    + One(!IsSleeve(env, o.ticker) && b.cash > 0.0 && spent + value > Mul(b.cash, p.maxCycle), CycleBudget)
  }

  lemma NoIssues(env: Env, spent: real, o: Order, issues: seq<Issue>)
    requires forall i :: i in issues <==> Breaks(env, spent, o, i)
    ensures issues == [] <==> Approved(env, spent, o)
  {
    if issues != [] {
      assert issues[0] in issues;
    }
  }

  /** Checks a batch in order, starting from an empty budget. */
  method ValidateOrders(env: Env, orders: seq<Order>) returns (approved: seq<bool>, spent: real)
    ensures |approved| == |orders|
    ensures forall k | 0 <= k < |orders| :: approved[k] == Approved(env, Spent(env, orders[..k]), orders[k])
    ensures spent == Spent(env, orders)
  {
    var state := new CycleState();
    approved := [];
    hide Approved;
    hide SpentAfter;
    hide Breaks;
    assert Spent(env, []) == 0.0;
    for k := 0 to |orders|
      invariant |approved| == k && state.spent == Spent(env, orders[..k])
      invariant forall j | 0 <= j < k :: approved[j] == Approved(env, Spent(env, orders[..j]), orders[j])
    {
      SpentStep(env, orders, k);
      var verdict, issues := CheckSingleOrder(env, orders[k], state);
      approved := approved + [verdict];
    }
    assert orders[..|orders|] == orders;
    spent := state.spent;
  }

  lemma SpentStep(env: Env, orders: seq<Order>, k: nat)
    requires k < |orders|
    ensures Spent(env, orders[..k + 1]) == SpentAfter(env, Spent(env, orders[..k]), orders[k])
  {
    assert orders[..k + 1][..k] == orders[..k];
  }

  // ----- The cycle budget -----

  /** An approved purchase is worth something. */
  lemma ApprovedIsPositive(env: Env, spent: real, o: Order)
    requires Approved(env, spent, o) && o.side == Buy && env.fx > 0.0
    ensures Notional(env, o) > 0.0
  {
    assert !Breaks(env, spent, o, NoPrice) && !Breaks(env, spent, o, BadQty);
    MulSign(PriceOf(env, o.ticker), o.qty as real);
    MulSign(Mul(PriceOf(env, o.ticker), o.qty as real), RateOf(env, o.ticker));
  }

  /** Whatever is submitted, the approved stock purchases stay within the cycle budget if there is cash. */
  lemma {:induction false} SpentWithinBudget(env: Env, orders: seq<Order>)
    requires env.fx > 0.0 && env.balance.cash > 0.0
    ensures Spent(env, orders) >= 0.0
    ensures Spent(env, orders) == 0.0 || Spent(env, orders) <= Mul(env.balance.cash, env.params.maxCycle)
  {
    if orders != [] {
      var n := |orders| - 1;
      SpentWithinBudget(env, orders[..n]);
      var before := Spent(env, orders[..n]);
      if Approved(env, before, orders[n]) && Counted(env, orders[n]) {
        ApprovedIsPositive(env, before, orders[n]);
        assert !Breaks(env, before, orders[n], BalanceUnknown);
        assert !Breaks(env, before, orders[n], CycleBudget);
      }
    }
  }

  // ----- What approval means -----

  /** A sale is approved exactly if it names a ticker, a number of shares and a reason. */
  lemma ApprovedSaleIff(env: Env, spent: real, o: Order)
    requires o.side == Sell
    ensures Approved(env, spent, o) <==> o.ticker != [] && o.qty >= 1 && |o.reason| >= 5
  {
    assert !Breaks(env, spent, o, NoTicker) && !Breaks(env, spent, o, BadQty) && !Breaks(env, spent, o, NoReason) ==>
      forall i :: !Breaks(env, spent, o, i);
    assert Breaks(env, spent, o, NoTicker) || Breaks(env, spent, o, BadQty) || Breaks(env, spent, o, NoReason) ==>
      !Approved(env, spent, o);
    hide Approved;
  }

  /** The most that one stock order may ask for: the configured maximum or, without one, the fixed ceiling; a ceiling of
      zero is none. */
  predicate WithinOneOrder(p: Params, qty: int) {
    if p.maxOrderQty >= 1 then qty <= p.maxOrderQty else p.hardMaxOrderQty >= 1 ==> qty <= p.hardMaxOrderQty
  }

  /** A purchase is approved exactly if besides that it has a price, the balance is readable and not at the drawdown
      brake, its value fits its share of the account (the cash, if no total is known) and, buffer included, the cash;
      and if, for stocks, it keeps to the order ceiling and to what the cycle budget has left. */
  lemma ApprovedPurchaseIff(env: Env, spent: real, o: Order)
    requires o.side == Buy
    ensures var b, p, value, stock := env.balance, env.params, Notional(env, o), o.ticker !in env.sleeveCaps;
      var total := if b.totalEval == 0.0 then b.cash else b.totalEval;
      var share := if stock then p.stockRatio else env.sleeveCaps[o.ticker];
      Approved(env, spent, o) <==>
        && o.ticker != [] && o.qty >= 1 && |o.reason| >= 5
        && o.ticker in env.prices && env.prices[o.ticker] > 0.0
        && b.ok && b.pnlRatio > -Abs(p.mdd)
        && (total > 0.0 ==> value <= Mul(total, share))
        && (b.cash > 0.0 ==> Mul(value, p.minBuffer) <= b.cash)
        && (stock ==> WithinOneOrder(p, o.qty))
        && (stock && b.cash > 0.0 ==> spent + value <= Mul(b.cash, p.maxCycle))
  {
    ApprovedIs(env, spent, o);
    hide Approved;
    hide Mul;
    hide Notional;
    hide Abs;
  }

  lemma ApprovedIs(env: Env, spent: real, o: Order)
    ensures Approved(env, spent, o) <==>
      && !Breaks(env, spent, o, NoTicker) && !Breaks(env, spent, o, BadQty) && !Breaks(env, spent, o, OverCeiling)
      && !Breaks(env, spent, o, NoReason) && !Breaks(env, spent, o, NoPrice) && !Breaks(env, spent, o, BalanceUnknown)
      && !Breaks(env, spent, o, DrawdownBrake) && !Breaks(env, spent, o, Concentration)
      && !Breaks(env, spent, o, CashShort) && !Breaks(env, spent, o, CycleBudget)
  {
    hide Breaks;
    if && !Breaks(env, spent, o, NoTicker) && !Breaks(env, spent, o, BadQty) && !Breaks(env, spent, o, OverCeiling)
       && !Breaks(env, spent, o, NoReason) && !Breaks(env, spent, o, NoPrice) && !Breaks(env, spent, o, BalanceUnknown)
       && !Breaks(env, spent, o, DrawdownBrake) && !Breaks(env, spent, o, Concentration)
       && !Breaks(env, spent, o, CashShort) && !Breaks(env, spent, o, CycleBudget)
    {
      forall i
        ensures !Breaks(env, spent, o, i)
      {
        match i
        case NoTicker =>
        case BadQty =>
        case OverCeiling =>
        case NoReason =>
        case NoPrice =>
        case BalanceUnknown =>
        case DrawdownBrake =>
        case Concentration =>
        case CashShort =>
        case CycleBudget =>
      }
    }
  }

  // ----- The purchases of a batch, sleeves included -----

  predicate SleevePurchase(env: Env, o: Order) {
    o.side == Buy && IsSleeve(env, o.ticker)
  }

  /** How many sleeve purchases of a batch are approved. */
  ghost function SleeveCount(env: Env, orders: seq<Order>): nat {
    if orders == [] then 0
    else
      var pre, o := orders[..|orders| - 1], orders[|orders| - 1];
      SleeveCount(env, pre) + if Approved(env, Spent(env, pre), o) && SleevePurchase(env, o) then 1 else 0
  }

  /** The value of all approved purchases of a batch. */
  ghost function Bought(env: Env, orders: seq<Order>): real {
    if orders == [] then 0.0
    else
      var pre, o := orders[..|orders| - 1], orders[|orders| - 1];
      Bought(env, pre) + if Approved(env, Spent(env, pre), o) && o.side == Buy then Notional(env, o) else 0.0
  }

  lemma SleeveFitsCash(env: Env, spent: real, o: Order)
    requires env.balance.cash > 0.0 && env.params.minBuffer > 0.0
    requires Approved(env, spent, o) && SleevePurchase(env, o)
    ensures Notional(env, o) <= env.balance.cash / env.params.minBuffer
  {
    assert !Breaks(env, spent, o, BalanceUnknown) && !Breaks(env, spent, o, CashShort);
    hide Notional;
    QuotientBound(Notional(env, o), env.params.minBuffer, env.balance.cash);
  }

  lemma QuotientBound(a: real, b: real, c: real)
    requires b > 0.0 && Mul(a, b) <= c
    ensures a <= c / b
  {
  }

  lemma {:induction false} BoughtIsSpentAndSleeves(env: Env, orders: seq<Order>)
    requires env.balance.cash > 0.0 && env.params.minBuffer > 0.0
    ensures Bought(env, orders)
      <= Spent(env, orders) + Mul(SleeveCount(env, orders) as real, env.balance.cash / env.params.minBuffer)
  {
    var each := env.balance.cash / env.params.minBuffer;
    if orders == [] {
      MulZero(each);
    } else {
      var pre, o := orders[..|orders| - 1], orders[|orders| - 1];
      BoughtIsSpentAndSleeves(env, pre);
      MulCount(SleeveCount(env, pre), each);
      if Approved(env, Spent(env, pre), o) && SleevePurchase(env, o) {
        SleeveFitsCash(env, Spent(env, pre), o);
      }
      hide Mul;
      hide Approved;
      hide Notional;
    }
  }

  /** All approved purchases of a batch together cost at most the cycle budget and, for each sleeve purchase among them,
      what one order may cost: cash * (maxCycle + k / minBuffer) for k of them. */
  lemma BoughtWithin(env: Env, orders: seq<Order>)
    requires env.fx > 0.0 && env.balance.cash > 0.0
    requires env.params.minBuffer > 0.0 && env.params.maxCycle >= 0.0
    ensures Bought(env, orders)
      <= Mul(env.balance.cash, env.params.maxCycle + SleeveCount(env, orders) as real / env.params.minBuffer)
  {
    hide *;
    var cash, k, buffer := env.balance.cash, SleeveCount(env, orders) as real, env.params.minBuffer;
    SpentWithinBudget(env, orders);
    BoughtIsSpentAndSleeves(env, orders);
    MulSign(cash, env.params.maxCycle);
    MulLeft(cash, env.params.maxCycle, k / buffer);
    QuotientMoves(k, cash, buffer);
  }

  lemma QuotientMoves(k: real, cash: real, buffer: real)
    requires buffer > 0.0
    ensures Mul(k, cash / buffer) == Mul(cash, k / buffer)
  {
  }

  /** The sleeves do not share the cash: two purchases of ninety are both approved out of a hundred. */
  lemma SleevesOutspendCash()
    ensures var env := Env(Params(0.2, 0.2, 1.1, 0.4, 0, 1000), Balance(100.0, 1000.0, 0.0, true),
                           map["TLT" := 90.0, "GLD" := 90.0], 1.0, map["TLT" := 0.4, "GLD" := 0.2]);
      var a, b := Order("TLT", Buy, 1, "entry"), Order("GLD", Buy, 1, "entry");
      && Approved(env, 0.0, a) && Approved(env, 0.0, b)
      && Bought(env, [a, b]) == 180.0 && SleeveCount(env, [a, b]) == 2
  {
    var env := Env(Params(0.2, 0.2, 1.1, 0.4, 0, 1000), Balance(100.0, 1000.0, 0.0, true),
                   map["TLT" := 90.0, "GLD" := 90.0], 1.0, map["TLT" := 0.4, "GLD" := 0.2]);
    var a, b := Order("TLT", Buy, 1, "entry"), Order("GLD", Buy, 1, "entry");
    assert Notional(env, a) == 90.0 && Notional(env, b) == 90.0;
    assert Approved(env, 0.0, a) && Approved(env, 0.0, b);
    hide Approved;
    hide Notional;
    assert [a, b][..1] == [a] && [a][..0] == [];
    assert Spent(env, [a]) == 0.0;
    assert Bought(env, [a]) == 90.0 && SleeveCount(env, [a]) == 1;
  }

  function Repeat(o: Order, n: nat): seq<Order> {
    if n == 0 then [] else Repeat(o, n - 1) + [o]
  }

  lemma ApprovedAnyway(env: Env, spent: real, o: Order)
    requires env.balance.cash <= 0.0 && Approved(env, 0.0, o)
    ensures Approved(env, spent, o)
  {
    forall i
      ensures !Breaks(env, spent, o, i)
    {
      assert !Breaks(env, 0.0, o, i);
    }
  }

  /** Without cash the budget rule is skipped: an order that is approved once is approved any number of times. */
  lemma {:induction false} UnlimitedWithoutCash(env: Env, o: Order, n: nat)
    requires env.balance.cash <= 0.0 && Approved(env, 0.0, o) && Counted(env, o)
    ensures Spent(env, Repeat(o, n)) == Mul(n as real, Notional(env, o))
  {
    hide Approved;
    hide Notional;
    hide Mul;
    if n == 0 {
      MulZero(Notional(env, o));
    } else {
      hide Spent;
      UnlimitedWithoutCash(env, o, n - 1);
      OnceMore(env, o, Repeat(o, n - 1));
      MulCount(n - 1, Notional(env, o));
    }
  }

  lemma OnceMore(env: Env, o: Order, before: seq<Order>)
    requires env.balance.cash <= 0.0 && Approved(env, 0.0, o) && Counted(env, o)
    ensures Spent(env, before + [o]) == Spent(env, before) + Notional(env, o)
  {
    ApprovedAnyway(env, Spent(env, before), o);
    assert (before + [o])[..|before|] == before;
    hide Approved;
    hide Notional;
  }

  /** As soon as some stock purchase would be approved on its own, the cycle budget bounds every batch exactly when
      there is cash. */
  lemma BudgetHoldsIffCash(env: Env, o: Order)
    requires env.fx > 0.0 && env.params.maxCycle >= 0.0
    requires Approved(env, 0.0, o) && Counted(env, o)
    ensures (forall orders :: Spent(env, orders) <= Mul(env.balance.cash, env.params.maxCycle))
      <==> env.balance.cash > 0.0
  {
    var budget := Mul(env.balance.cash, env.params.maxCycle);
    if env.balance.cash > 0.0 {
      MulSign(env.balance.cash, env.params.maxCycle);
      forall orders
        ensures Spent(env, orders) <= budget
      {
        SpentWithinBudget(env, orders);
      }
    } else {
      UnlimitedWithoutCash(env, o, 1);
      MulOne(Notional(env, o));
      ApprovedIsPositive(env, 0.0, o);
      MulCommutes(env.balance.cash, env.params.maxCycle);
      MulMonotone(env.params.maxCycle, env.balance.cash, 0.0);
      MulZero(env.params.maxCycle);
      assert Spent(env, Repeat(o, 1)) > budget;
    }
  }

  /** An account of a thousand without cash: two orders for one share of 100 are both approved, two hundred spent out of
      a budget of nothing. */
  lemma NoCashNoBudget()
    ensures var env := Env(Params(0.2, 0.2, 1.1, 0.4, 0, 1000), Balance(0.0, 1000.0, 0.0, true),
                           map["005930" := 100.0], 1.0, map[]);
      var o := Order("005930", Buy, 1, "entry");
      && Approved(env, 0.0, o) && Counted(env, o)
      && Spent(env, [o, o]) == 200.0 && Mul(env.balance.cash, env.params.maxCycle) == 0.0
  {
    var env := Env(Params(0.2, 0.2, 1.1, 0.4, 0, 1000), Balance(0.0, 1000.0, 0.0, true),
                   map["005930" := 100.0], 1.0, map[]);
    var o := Order("005930", Buy, 1, "entry");
    assert Notional(env, o) == 100.0;
    assert Approved(env, 0.0, o);
    UnlimitedWithoutCash(env, o, 2);
    assert Repeat(o, 1) == [o] && Repeat(o, 2) == [o, o];
    hide Approved;
    hide Spent;
  }
}
