/** Which targets the sizing of stock purchases (main_swarm.py) may and must buy, and how the budgets are shared. */
module PurchaseRules {
  import opened Common
  import opened BuySizing
  import G = RiskGate

  // ----- Which targets are bought -----

  /** A Korean name that is not held, with a price and an order budget; or a US name, if they are allowed, of at least
      the smallest price that can be ordered. */
  predicate MayBuy(x: Inputs, code: string) {
    && code != []
    && if IsKrCode(code) then code !in x.held && G.PriceOf(x.env, code) > 0.0 && PerOrderBudget(x) > 0.0
       else x.allowUs && G.PriceOf(x.env, Upper(code)) >= 0.01
  }

  /** One share, with the buffer of the exception, is within the cash. */
  predicate OneShareInCash(x: Inputs, ticker: string) {
    G.PriceOf(x.env, ticker) > 0.0 && Cash(x) > 0.0 && Mul(Cost(x, ticker, 1), x.oneShareBuffer) <= Cash(x)
  }

  lemma SkippedIff(x: Inputs, code: string)
    ensures Skipped(x, code) <==> !MayBuy(x, code)
  {
  }

  lemma OneShareIff(x: Inputs, ticker: string)
    requires x.env.fx > 0.0
    ensures AffordableOneShare(G.PriceOf(x.env, ticker), Cash(x) / G.RateOf(x.env, ticker), x.oneShareBuffer)
      <==> OneShareInCash(x, ticker)
  {
    var price, rate, cash := G.PriceOf(x.env, ticker), G.RateOf(x.env, ticker), Cash(x);
    assert rate > 0.0;
    assert Cost(x, ticker, 1) == Mul(price, rate) by {
      MulOne(price);
    }
    hide G.PriceOf;
    hide G.RateOf;
    hide Cash;
    hide Cost;
    InCurrency(price, x.oneShareBuffer, cash, rate);
  }

  lemma InCurrency(price: real, buffer: real, cash: real, rate: real)
    requires rate > 0.0
    ensures cash / rate > 0.0 <==> cash > 0.0
    ensures Mul(price, buffer) <= cash / rate <==> Mul(Mul(price, rate), buffer) <= cash
  {
    QuotientAtLeast(cash, rate, Mul(price, buffer));
    MulAssociative(price, buffer, rate);
    MulCommutes(buffer, rate);
    MulAssociative(price, rate, buffer);
  }

  /** A target adds one order for its ticker exactly if it may be bought and one share fits the limits left, or at least
      the cash; otherwise it adds nothing. */
  lemma TargetIsBoughtIff(x: Inputs, n: nat, codes: seq<string>, code: string)
    requires n > 0 && x.env.fx > 0.0
    ensures var before, after := PlanFor(x, n, codes), PlanFor(x, n, codes + [code]); var tk := TickerOf(code);
      if MayBuy(x, code) && (Fits(x, n, tk, before.spent, 1) || OneShareInCash(x, tk)) then
        && |after.orders| == |before.orders| + 1 && after.orders[..|before.orders|] == before.orders
        && after.orders[|before.orders|].ticker == tk && after.orders[|before.orders|].qty >= 1
        && after.spent == before.spent + Value(x, after.orders[|before.orders|])
      else after == before
  {
    var before := PlanFor(x, n, codes);
    PlanStep(x, n, codes, code);
    SkippedIff(x, code);
    OneShareIff(x, TickerOf(code));
    TargetOutcome(x, n, code, before.spent);
    QtyIsPositive(x, n, code, before.spent);
    hide SizeOne;
    hide Skipped;
    hide MayBuy;
    hide Fits;
    hide AffordableOneShare;
    hide OneShareInCash;
    hide PlanFor;
    hide TickerOf;
  }

  lemma QtyIsPositive(x: Inputs, n: nat, code: string, spent: real)
    requires n > 0 && x.env.fx > 0.0
    ensures SizeOne(x, n, code, spent).Some? ==> SizeOne(x, n, code, spent).value.qty >= 1
  {
    hide BudgetQty;
    hide Skipped;
    hide AffordableOneShare;
  }

  lemma {:induction false} PlanGrows(x: Inputs, n: nat, codes: seq<string>, i: nat)
    requires n > 0 && x.env.fx > 0.0 && i <= |codes|
    ensures PlanFor(x, n, codes[..i]).orders <= PlanFor(x, n, codes).orders
    decreases |codes|
  {
    if i == |codes| {
      assert codes[..i] == codes;
    } else {
      var m := |codes| - 1;
      PlanGrows(x, n, codes[..m], i);
      assert codes[..m][..i] == codes[..i] && codes[..m] + [codes[m]] == codes;
      TargetIsBoughtIff(x, n, codes[..m], codes[m]);
      hide PlanFor;
      hide Fits;
    }
  }

  /** So a target that may be bought when its turn comes, and of which one share fits, is in the plan. */
  lemma TargetIsInPlan(x: Inputs, n: nat, codes: seq<string>, i: nat)
    requires n > 0 && x.env.fx > 0.0 && i < |codes| && MayBuy(x, codes[i])
    requires Fits(x, n, TickerOf(codes[i]), PlanFor(x, n, codes[..i]).spent, 1)
          || OneShareInCash(x, TickerOf(codes[i]))
    ensures exists s :: s in PlanFor(x, n, codes).orders && s.ticker == TickerOf(codes[i])
  {
    hide *;
    var before, after := PlanFor(x, n, codes[..i]), PlanFor(x, n, codes[..i + 1]);
    assert codes[..i] + [codes[i]] == codes[..i + 1];
    TargetIsBoughtIff(x, n, codes[..i], codes[i]);
    PlanGrows(x, n, codes, i + 1);
    PrefixElement(after.orders, PlanFor(x, n, codes).orders, |before.orders|);
  }

  lemma PrefixElement(a: seq<Sized>, b: seq<Sized>, k: nat)
    requires a <= b && k < |a|
    ensures a[k] in b
  {
    assert b[k] == a[k];
  }

  /** Every order of a plan is for at least one share of a target that may be bought. */
  lemma {:induction false} OrdersAreAllowed(x: Inputs, n: nat, codes: seq<string>, s: Sized)
    requires n > 0 && x.env.fx > 0.0 && s in PlanFor(x, n, codes).orders
    ensures s.qty >= 1
    ensures exists i :: 0 <= i < |codes| && s.ticker == TickerOf(codes[i]) && MayBuy(x, codes[i])
  {
    if codes != [] {
      var m := |codes| - 1;
      var pre, code := codes[..m], codes[m];
      assert codes == pre + [code];
      TargetIsBoughtIff(x, n, pre, code);
      var before := PlanFor(x, n, pre);
      hide MayBuy;
      hide Fits;
      hide TickerOf;
      if s in before.orders {
        OrdersAreAllowed(x, n, pre, s);
        var i :| 0 <= i < |pre| && s.ticker == TickerOf(pre[i]) && MayBuy(x, pre[i]);
        assert codes[i] == pre[i];
      } else {
        var after := PlanFor(x, n, codes);
        assert after.orders == before.orders + [after.orders[|before.orders|]];
        assert s.ticker == TickerOf(codes[m]) && MayBuy(x, codes[m]);
      }
    }
  }

  /** No purchase is for a Korean code that is held, nor for a US ticker where they are not allowed; and none is for a
      target beyond the first eight. */
  lemma NothingForbiddenIsBought(x: Inputs, targets: seq<string>, s: Sized)
    requires x.env.fx > 0.0 && s in PlanFor(x, BuyCount(x, targets), Considered(targets)).orders
    ensures s.qty >= 1
    ensures IsKrCode(s.ticker) ==> s.ticker !in x.held
    ensures !IsKrCode(s.ticker) ==> x.allowUs
    ensures exists i :: 0 <= i < |targets| && i < 8 && s.ticker == TickerOf(targets[i])
  {
    var codes := Considered(targets);
    OrdersAreAllowed(x, BuyCount(x, targets), codes, s);
    hide PlanFor;
    hide BuyCount;
    var i :| 0 <= i < |codes| && s.ticker == TickerOf(codes[i]) && MayBuy(x, codes[i]);
    UpperKeepsMarket(codes[i]);
    assert codes[i] == targets[i];
    hide IsKrCode;
  }

  // ----- The order budget -----

  /** The order budget is never more than the cash. At the opening it is at least that of any other time, at most five
      times as much, and never more than the account is worth. */
  lemma OpeningBudget(x: Inputs)
    requires Cash(x) > 0.0 && Total(x) > 0.0 && 0.0 <= x.perOrder <= 1.0
    ensures var open, other := PerOrderBudget(x.(marketOpen := true)), PerOrderBudget(x.(marketOpen := false));
      && 0.0 <= other <= open <= 5.0 * other
      && open <= Cash(x) && open <= Total(x)
      && (x.perOrder >= 0.2 ==> open == Min(Cash(x), Total(x)))
      && (open < Cash(x) && open < Total(x) ==> open == 5.0 * Mul(Total(x), x.perOrder))
      && (other < Cash(x) ==> other == Mul(Total(x), x.perOrder))
  {
    var total, p := Total(x), x.perOrder;
    assert Total(x.(marketOpen := true)) == total && Total(x.(marketOpen := false)) == total;
    assert Cash(x.(marketOpen := true)) == Cash(x) && Cash(x.(marketOpen := false)) == Cash(x);
    MulMonotone(total, 0.0, p);
    MulZero(total);
    MulMonotone(total, p, Min(1.0, p * 5.0));
    MulMonotone(total, Min(1.0, p * 5.0), 1.0);
    MulOne(total);
    FiveFold(total, p);
    hide Total;
    hide Cash;
    hide Mul;
  }

  lemma FiveFold(total: real, p: real)
    requires total > 0.0 && p >= 0.0
    ensures Mul(total, p * 5.0) == 5.0 * Mul(total, p)
    ensures p * 5.0 >= 1.0 ==> 5.0 * Mul(total, p) >= total
  {
  }

  // ----- The cycle budget is shared -----

  function NameBudgets(x: Inputs, n: nat, names: seq<string>): real
    requires n > 0
  {
    if names == [] then 0.0
    else NameBudgets(x, n, names[..|names| - 1]) + NameBudget(x, n, names[|names| - 1])
  }

  function SumWeights(x: Inputs, names: seq<string>): real {
    if names == [] then 0.0 else SumWeights(x, names[..|names| - 1]) + WeightOf(x, names[|names| - 1])
  }

  lemma {:induction false} BudgetsWithin(x: Inputs, n: nat, names: seq<string>)
    requires n > 0 && CycleBudget(x) > 0.0
    ensures NameBudgets(x, n, names) <= Mul(CycleBudget(x) / n as real, SumWeights(x, names))
  {
    var share := CycleBudget(x) / n as real;
    if names == [] {
      MulZero(share);
    } else {
      var m := |names| - 1;
      BudgetsWithin(x, n, names[..m]);
      MulLeft(share, SumWeights(x, names[..m]), WeightOf(x, names[m]));
      hide Mul;
      hide CycleBudget;
      hide PerOrderBudget;
      hide WeightOf;
    }
  }

  /** With one weight for every name to be bought, adding up to their number, the budgets of all names together never
      exceed the cycle budget. */
  lemma NamesShareCycle(x: Inputs, targets: seq<string>, names: seq<string>)
    requires CycleBudget(x) > 0.0 && names != []
    requires forall i, j | 0 <= i < j < |names| :: names[i] != names[j]
    requires forall c :: c in names <==> c in targets && c != [] && c !in x.held
    requires SumWeights(x, names) == |names| as real
    ensures BuyCount(x, targets) == |names|
    ensures NameBudgets(x, BuyCount(x, targets), names) <= CycleBudget(x)
  {
    CountOfNames(names);
    assert (set c | c in names) == set c | c in targets && c != [] && c !in x.held;
    BudgetsWithin(x, |names|, names);
    MulQuotient(CycleBudget(x), |names| as real);
    hide CycleBudget;
    hide NameBudgets;
  }

  lemma {:induction false} CountOfNames(names: seq<string>)
    requires forall i, j | 0 <= i < j < |names| :: names[i] != names[j]
    ensures |set c | c in names| == |names|
  {
    if names != [] {
      var n := |names| - 1;
      CountOfNames(names[..n]);
      assert (set c | c in names) == (set c | c in names[..n]) + {names[n]};
    }
  }

  /** Ten shares of a name that is held already are not bought again. */
  lemma HeldNameIsPassedOver()
    ensures var env := G.Env(G.Params(0.2, 1.0, 1.0, 1.0, 0, 1000), G.Balance(100.0, 100.0, 0.0, true),
                             map["005930" := 10.0], 1.0, map[]);
      PlanFor(Inputs(env, 1.0, 1.1, false, true, {"005930"}, map[]), 1, ["005930"]).orders == []
  {
    var env := G.Env(G.Params(0.2, 1.0, 1.0, 1.0, 0, 1000), G.Balance(100.0, 100.0, 0.0, true),
                     map["005930" := 10.0], 1.0, map[]);
    var x := Inputs(env, 1.0, 1.1, false, true, {"005930"}, map[]);
    assert IsKrCode("005930");
    assert !MayBuy(x, "005930");
    assert PlanFor(x, 1, []).orders == [];
    assert [] + ["005930"] == ["005930"];
    hide *;
    TargetIsBoughtIff(x, 1, [], "005930");
  }

  // ----- Tickers and weights -----

  /** Upper-casing leaves no lower-case letter, moves each back by the distance of the two alphabets and touches nothing
      else. */
  lemma UpperIs(s: string)
    ensures |Upper(s)| == |s|
    ensures forall i | 0 <= i < |s| :: !('a' <= Upper(s)[i] <= 'z')
    ensures forall i | 0 <= i < |s| && !('a' <= s[i] <= 'z') :: Upper(s)[i] == s[i]
    ensures forall i | 0 <= i < |s| && 'a' <= s[i] <= 'z' :: Upper(s)[i] as int - 'A' as int == s[i] as int - 'a' as int
    ensures Upper(Upper(s)) == Upper(s)
  {
    UpperChars(s);
    UpperChars(Upper(s));
  }

  /** Names without weights of their own count one each, as an equal split does. */
  lemma {:induction false} MissingWeightsCountOne(x: Inputs, names: seq<string>)
    requires forall c | c in names :: c !in x.weights
    ensures SumWeights(x, names) == |names| as real
  {
    if names != [] {
      MissingWeightsCountOne(x, names[..|names| - 1]);
      assert names[|names| - 1] in names;
    }
  }

  /** Where the order budget does not bind, the budgets of two names are in proportion to their weights. */
  lemma BudgetsFollowWeights(x: Inputs, n: nat, c: string, d: string)
    requires n > 0 && CycleBudget(x) > 0.0 && c in x.weights && d in x.weights
    requires NameBudget(x, n, c) < PerOrderBudget(x) && NameBudget(x, n, d) < PerOrderBudget(x)
    ensures Mul(NameBudget(x, n, c), x.weights[d]) == Mul(NameBudget(x, n, d), x.weights[c])
    ensures x.weights[c] == 1.0 ==> Mul(n as real, NameBudget(x, n, c)) == CycleBudget(x)
  {
    var share := CycleBudget(x) / n as real;
    MulQuotient(CycleBudget(x), n as real);
    MulCommutes(share, n as real);
    MulOne(share);
    MulAssociative(share, x.weights[c], x.weights[d]);
    MulAssociative(share, x.weights[d], x.weights[c]);
    MulCommutes(x.weights[c], x.weights[d]);
    hide Mul;
    hide PerOrderBudget;
    hide CycleBudget;
  }

  /** The ceiling changes the number of shares and adds a note to the reason, nothing else. */
  lemma ClampChangesQtyOnly(p: G.Params, o: G.Order)
    ensures var c := Clamp(p, o);
      && c == o.(qty := c.qty, reason := c.reason)
      && c.qty <= o.qty && o.reason <= c.reason
      && (c.qty < o.qty ==> o.side == G.Buy && |c.reason| > |o.reason|)
  {
  }
}
