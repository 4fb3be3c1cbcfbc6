/** Polling accepted but unconfirmed orders until they fill or their market closes (main_swarm.py). */
module FillPolling {
  import opened Common

  const POLL_MAX_ATTEMPTS: nat := 36

  datatype Side = Buy | Sell

  datatype Order = Order(ticker: string, side: Side, qty: int)

  datatype Holding = Holding(code: string, qty: int)

  /** The domestic read of a poll: it raises, it shows some of the positions (all, if nothing fails), or it carries an
      earlier list over. */
  datatype KrRead = KrRaised | KrPart(kept: set<string>) | KrCarried(earlier: seq<Holding>)

  /** The overseas read: it raises, or exchanges and pages that fail are silently left out. */
  datatype UsRead = UsRaised | UsPart(kept: set<string>)

  /** What is held when a poll looks, how its two reads go, and which markets have closed. */
  datatype Poll = Poll(
    trueKr: seq<Holding>,
    trueUs: seq<Holding>,
    kr: KrRead,
    us: UsRead,
    krClosed: bool,
    usClosed: bool)

  /** The quantity of the first holding with that code, 0 if there is none. */
  function QtyOf(hs: seq<Holding>, code: string): int {
    if hs == [] then 0 else if hs[0].code == code then hs[0].qty else QtyOf(hs[1..], code)
  }

  function Part(hs: seq<Holding>, kept: set<string>): seq<Holding> {
    if hs == [] then [] else (if hs[0].code in kept then [hs[0]] else []) + Part(hs[1..], kept)
  }

  /** Only a raising domestic read makes a poll unreadable; a raising overseas read shows an empty list. */
  predicate Readable(p: Poll) {
    !p.kr.KrRaised?
  }

  function ShownKr(p: Poll): seq<Holding> {
    match p.kr
    case KrRaised => []
    case KrPart(kept) => Part(p.trueKr, kept)
    case KrCarried(earlier) => earlier
  }

  function ShownUs(p: Poll): seq<Holding> {
    match p.us
    case UsRaised => []
    case UsPart(kept) => Part(p.trueUs, kept)
  }

  function ShownQty(p: Poll, ticker: string): int {
    QtyOf(if IsKrCode(ticker) then ShownKr(p) else ShownUs(p), ticker)
  }

  // ----- One order -----

  datatype Fate = Waiting | Confirmed | Dropped

  predicate Moves(side: Side, before: int, after: int) {
    (side == Buy && after > before) || (side == Sell && after < before)
  }

  /** The holdings shown moved in the order's direction since the recorded baseline. */
  predicate Moved(o: Order, baseline: seq<Holding>, p: Poll) {
    Moves(o.side, QtyOf(baseline, o.ticker), ShownQty(p, o.ticker))
  }

  predicate Closed(o: Order, p: Poll) {
    if IsKrCode(o.ticker) then p.krClosed else p.usClosed
  }

  function FateAt(o: Order, baseline: seq<Holding>, p: Poll): Fate {
    if !Readable(p) then Waiting
    else if Moved(o, baseline, p) then Confirmed
    else if Closed(o, p) then Dropped
    else Waiting
  }

  /** The fate of a single order that is watched on its own through some polls. */
  function FateAfter(o: Order, baseline: seq<Holding>, polls: seq<Poll>): Fate {
    if polls == [] then Waiting
    else
      var f := FateAfter(o, baseline, polls[..|polls| - 1]);
      if f != Waiting then f else FateAt(o, baseline, polls[|polls| - 1])
  }

  // ----- The batch -----

  function Only(o: Order, keep: bool): seq<Order> {
    if keep then [o] else []
  }

  /** The orders, in their order, that a poll leaves with the given fate. */
  function Select(orders: seq<Order>, baseline: seq<Holding>, p: Poll, f: Fate): seq<Order> {
    if orders == [] then []
    else
      var n := |orders| - 1;
      Select(orders[..n], baseline, p, f) + Only(orders[n], FateAt(orders[n], baseline, p) == f)
  }

  /** The batch after some polls. */
  datatype Batch = Batch(confirmed: seq<Order>, dropped: seq<Order>, remaining: seq<Order>)

  function AfterPoll(b: Batch, baseline: seq<Holding>, p: Poll): Batch {
    Batch(b.confirmed + Select(b.remaining, baseline, p, Confirmed),
          b.dropped + Select(b.remaining, baseline, p, Dropped),
          Select(b.remaining, baseline, p, Waiting))
  }

  function AfterPolls(pending: seq<Order>, baseline: seq<Holding>, polls: seq<Poll>): Batch {
    if polls == [] then Batch([], [], pending)
    else AfterPoll(AfterPolls(pending, baseline, polls[..|polls| - 1]), baseline, polls[|polls| - 1])
  }

  class Trader {
    var tradesExecuted: nat
    var tradeLog: seq<Order>

    /** Since the counter stood at `count` and the log at `log`, exactly the confirmed orders came on top. */
    ghost predicate Logged(b: Batch, count: nat, log: seq<Order>)
      reads this
    {
      tradesExecuted == count + |b.confirmed| && tradeLog == log + b.confirmed
    }

    /** Polls until nothing remains, the attempts are used up, or the stop event is set after |polls| polls. */
    method PollFillsUntilConfirmed(pending: seq<Order>, baseline: seq<Holding>, polls: seq<Poll>)
      returns (b: Batch, attempts: nat)
      modifies this
      ensures attempts <= |polls| && attempts <= POLL_MAX_ATTEMPTS
      ensures b == AfterPolls(pending, baseline, polls[..attempts])
      ensures b.remaining == [] || attempts == |polls| || attempts == POLL_MAX_ATTEMPTS
      ensures tradesExecuted == old(tradesExecuted) + |b.confirmed|
      ensures tradeLog == old(tradeLog) + b.confirmed
    {
      hide AfterPolls;
      hide AfterPoll;
      b, attempts := Batch([], [], pending), 0;
      NoPolls(pending, baseline);
      assert polls[..0] == [];
      while b.remaining != [] && attempts < POLL_MAX_ATTEMPTS && attempts < |polls|
        invariant attempts <= |polls| && attempts <= POLL_MAX_ATTEMPTS
        invariant b == AfterPolls(pending, baseline, polls[..attempts])
        invariant Logged(b, old(tradesExecuted), old(tradeLog))
        decreases POLL_MAX_ATTEMPTS - attempts
      {
        OnePollMore(pending, baseline, polls, attempts);
        b := PollOnce(b, baseline, polls[attempts], old(tradesExecuted), old(tradeLog));
        attempts := attempts + 1;
      }
    }

    /** One poll: an unreadable one changes nothing, otherwise every remaining order is settled or kept. */
    method PollOnce(before: Batch, baseline: seq<Holding>, p: Poll, ghost count: nat, ghost log: seq<Order>)
      returns (b: Batch)
      requires Logged(before, count, log)
      modifies this
      ensures b == AfterPoll(before, baseline, p)
      ensures Logged(b, count, log)
    {
      hide FateAt;
      hide ShownKr;
      hide ShownUs;
      if p.kr.KrRaised? {
        UnreadablePoll(before, baseline, p);
        hide AfterPoll;
        return before;
      }
      hide Select;
      var confirmed, dropped, still := Settle(before.remaining, baseline, p);
      b := Batch(before.confirmed + confirmed, before.dropped + dropped, still);
    }

    method Settle(todo: seq<Order>, baseline: seq<Holding>, p: Poll)
      returns (confirmed: seq<Order>, dropped: seq<Order>, still: seq<Order>)
      requires Readable(p)
      modifies this
      ensures confirmed == Select(todo, baseline, p, Confirmed)
      ensures dropped == Select(todo, baseline, p, Dropped)
      ensures still == Select(todo, baseline, p, Waiting)
      ensures tradesExecuted == old(tradesExecuted) + |confirmed|
      ensures tradeLog == old(tradeLog) + confirmed
    {
      confirmed, dropped, still := [], [], [];
      NothingSelected(baseline, p);
      hide *;
      for i := 0 to |todo|
        invariant confirmed == Select(todo[..i], baseline, p, Confirmed)
        invariant dropped == Select(todo[..i], baseline, p, Dropped)
        invariant still == Select(todo[..i], baseline, p, Waiting)
        invariant tradesExecuted == old(tradesExecuted) + |confirmed|
        invariant tradeLog == old(tradeLog) + confirmed
      {
        SettleStep(todo, i, baseline, p);
        if Moved(todo[i], baseline, p) {
          tradesExecuted := tradesExecuted + 1;
          tradeLog := tradeLog + [todo[i]];
          confirmed := confirmed + [todo[i]];
        } else if !Closed(todo[i], p) {
          still := still + [todo[i]];
        } else {
          dropped := dropped + [todo[i]];
        }
      }
      assert todo[..|todo|] == todo;
    }
  }

  lemma NoPolls(pending: seq<Order>, baseline: seq<Holding>)
    ensures AfterPolls(pending, baseline, []) == Batch([], [], pending)
  {
  }

  lemma OnePollMore(pending: seq<Order>, baseline: seq<Holding>, polls: seq<Poll>, i: nat)
    requires i < |polls|
    ensures AfterPolls(pending, baseline, polls[..i + 1])
         == AfterPoll(AfterPolls(pending, baseline, polls[..i]), baseline, polls[i])
  {
    assert polls[..i + 1][..i] == polls[..i];
  }

  lemma SelectLast(orders: seq<Order>, o: Order, baseline: seq<Holding>, p: Poll, f: Fate)
    ensures Select(orders + [o], baseline, p, f)
         == Select(orders, baseline, p, f) + Only(o, FateAt(o, baseline, p) == f)
  {
    assert (orders + [o])[..|orders|] == orders;
  }

  lemma NothingSelected(baseline: seq<Holding>, p: Poll)
    ensures forall f :: Select([], baseline, p, f) == []
  {
  }

  lemma SettleStep(todo: seq<Order>, i: nat, baseline: seq<Holding>, p: Poll)
    requires i < |todo| && Readable(p)
    ensures Select(todo[..i + 1], baseline, p, Confirmed)
         == Select(todo[..i], baseline, p, Confirmed) + if Moved(todo[i], baseline, p) then [todo[i]] else []
    ensures Select(todo[..i + 1], baseline, p, Dropped)
         == Select(todo[..i], baseline, p, Dropped)
            + if !Moved(todo[i], baseline, p) && Closed(todo[i], p) then [todo[i]] else []
    ensures Select(todo[..i + 1], baseline, p, Waiting)
         == Select(todo[..i], baseline, p, Waiting)
            + if !Moved(todo[i], baseline, p) && !Closed(todo[i], p) then [todo[i]] else []
  {
    hide Select;
    hide Moved;
    hide Closed;
    assert todo[..i + 1] == todo[..i] + [todo[i]];
    SelectLast(todo[..i], todo[i], baseline, p, Confirmed);
    SelectLast(todo[..i], todo[i], baseline, p, Dropped);
    SelectLast(todo[..i], todo[i], baseline, p, Waiting);
  }

  lemma {:induction false} UnreadableSelect(orders: seq<Order>, baseline: seq<Holding>, p: Poll)
    requires !Readable(p)
    ensures Select(orders, baseline, p, Waiting) == orders
    ensures Select(orders, baseline, p, Confirmed) == []
    ensures Select(orders, baseline, p, Dropped) == []
  {
    if orders != [] {
      UnreadableSelect(orders[..|orders| - 1], baseline, p);
      assert FateAt(orders[|orders| - 1], baseline, p) == Waiting;
      hide FateAt;
    }
  }

  lemma UnreadablePoll(b: Batch, baseline: seq<Holding>, p: Poll)
    requires !Readable(p)
    ensures AfterPoll(b, baseline, p) == b
  {
    UnreadableSelect(b.remaining, baseline, p);
  }

  // ----- Laws -----

  /** How often an order occurs in a list. */
  function Times(orders: seq<Order>, o: Order): nat {
    if orders == [] then 0 else Times(orders[..|orders| - 1], o) + if orders[|orders| - 1] == o then 1 else 0
  }

  lemma {:induction false} TimesAppend(a: seq<Order>, b: seq<Order>, o: Order)
    ensures Times(a + b, o) == Times(a, o) + Times(b, o)
    decreases |b|
  {
    if b == [] {
      assert a + b == a;
    } else {
      TimesAppend(a, b[..|b| - 1], o);
      assert (a + b)[..|a + b| - 1] == a + b[..|b| - 1];
    }
  }

  lemma TimesOnly(a: seq<Order>, last: Order, keep: bool, o: Order)
    ensures Times(a + Only(last, keep), o) == Times(a, o) + if keep && last == o then 1 else 0
  {
    TimesAppend(a, Only(last, keep), o);
  }

  lemma {:induction false} SelectPartitions(orders: seq<Order>, baseline: seq<Holding>, p: Poll, o: Order)
    ensures Times(Select(orders, baseline, p, Confirmed), o) + Times(Select(orders, baseline, p, Dropped), o)
            + Times(Select(orders, baseline, p, Waiting), o) == Times(orders, o)
  {
    if orders != [] {
      var pre, last := orders[..|orders| - 1], orders[|orders| - 1];
      SelectPartitions(pre, baseline, p, o);
      var fate := FateAt(last, baseline, p);
      TimesOnly(Select(pre, baseline, p, Confirmed), last, fate == Confirmed, o);
      TimesOnly(Select(pre, baseline, p, Dropped), last, fate == Dropped, o);
      TimesOnly(Select(pre, baseline, p, Waiting), last, fate == Waiting, o);
    }
  }

  function Occurrences(b: Batch, o: Order): nat {
    Times(b.confirmed, o) + Times(b.dropped, o) + Times(b.remaining, o)
  }

  lemma PollKeepsOccurrences(b: Batch, baseline: seq<Holding>, p: Poll, o: Order)
    ensures Occurrences(AfterPoll(b, baseline, p), o) == Occurrences(b, o)
  {
    SelectPartitions(b.remaining, baseline, p, o);
    TimesAppend(b.confirmed, Select(b.remaining, baseline, p, Confirmed), o);
    TimesAppend(b.dropped, Select(b.remaining, baseline, p, Dropped), o);
  }

  /** At every moment the pending orders are the disjoint union of confirmed, dropped and remaining ones:
      each occurs among the three exactly as often as it was pending. */
  lemma {:induction false} NoOrderLostOrDoubled(pending: seq<Order>, baseline: seq<Holding>, polls: seq<Poll>, o: Order)
    ensures Occurrences(AfterPolls(pending, baseline, polls), o) == Times(pending, o)
  {
    if polls != [] {
      NoOrderLostOrDoubled(pending, baseline, polls[..|polls| - 1], o);
      PollKeepsOccurrences(AfterPolls(pending, baseline, polls[..|polls| - 1]), baseline, polls[|polls| - 1], o);
    }
  }

  /** The orders with a given fate when each is watched on its own. */
  function WithFate(orders: seq<Order>, baseline: seq<Holding>, polls: seq<Poll>, f: Fate): seq<Order> {
    if orders == [] then []
    else
      var n := |orders| - 1;
      WithFate(orders[..n], baseline, polls, f) + Only(orders[n], FateAfter(orders[n], baseline, polls) == f)
  }

  lemma FateStep(o: Order, baseline: seq<Holding>, polls: seq<Poll>, p: Poll)
    ensures FateAfter(o, baseline, polls + [p])
         == if FateAfter(o, baseline, polls) != Waiting then FateAfter(o, baseline, polls) else FateAt(o, baseline, p)
  {
    assert (polls + [p])[..|polls|] == polls;
  }

  lemma SelectMaybe(w: seq<Order>, last: Order, keep: bool, baseline: seq<Holding>, p: Poll, f: Fate)
    ensures Select(w + Only(last, keep), baseline, p, f)
         == Select(w, baseline, p, f) + Only(last, keep && FateAt(last, baseline, p) == f)
  {
    if keep {
      SelectLast(w, last, baseline, p, f);
    } else {
      assert w + [] == w;
    }
  }

  lemma {:induction false} WaitingNarrows(orders: seq<Order>, baseline: seq<Holding>, polls: seq<Poll>, p: Poll)
    ensures Select(WithFate(orders, baseline, polls, Waiting), baseline, p, Waiting)
         == WithFate(orders, baseline, polls + [p], Waiting)
  {
    if orders != [] {
      var pre, last := orders[..|orders| - 1], orders[|orders| - 1];
      WaitingNarrows(pre, baseline, polls, p);
      FateStep(last, baseline, polls, p);
      SelectMaybe(WithFate(pre, baseline, polls, Waiting), last, FateAfter(last, baseline, polls) == Waiting,
        baseline, p, Waiting);
    }
  }

  lemma {:induction false} SettledGrows(orders: seq<Order>, baseline: seq<Holding>, polls: seq<Poll>,
                                        p: Poll, f: Fate, o: Order)
    requires f != Waiting
    ensures Times(WithFate(orders, baseline, polls, f), o)
            + Times(Select(WithFate(orders, baseline, polls, Waiting), baseline, p, f), o)
         == Times(WithFate(orders, baseline, polls + [p], f), o)
  {
    if orders != [] {
      hide *;
      var pre, last := orders[..|orders| - 1], orders[|orders| - 1];
      assert orders == pre + [last];
      SettledGrows(pre, baseline, polls, p, f, o);
      SettledOne(pre, last, baseline, polls, p, f, o);
    }
  }

  lemma WithFateLast(orders: seq<Order>, last: Order, baseline: seq<Holding>, polls: seq<Poll>, f: Fate)
    ensures WithFate(orders + [last], baseline, polls, f)
         == WithFate(orders, baseline, polls, f) + Only(last, FateAfter(last, baseline, polls) == f)
  {
    assert (orders + [last])[..|orders|] == orders;
  }

  lemma SettledOne(pre: seq<Order>, last: Order, baseline: seq<Holding>, polls: seq<Poll>, p: Poll, f: Fate, o: Order)
    requires f != Waiting
    requires Times(WithFate(pre, baseline, polls, f), o)
            + Times(Select(WithFate(pre, baseline, polls, Waiting), baseline, p, f), o)
         == Times(WithFate(pre, baseline, polls + [p], f), o)
    ensures Times(WithFate(pre + [last], baseline, polls, f), o)
            + Times(Select(WithFate(pre + [last], baseline, polls, Waiting), baseline, p, f), o)
         == Times(WithFate(pre + [last], baseline, polls + [p], f), o)
  {
    hide *;
    var was, now := FateAfter(last, baseline, polls), FateAfter(last, baseline, polls + [p]);
    FateStep(last, baseline, polls, p);
    WithFateLast(pre, last, baseline, polls, f);
    WithFateLast(pre, last, baseline, polls, Waiting);
    WithFateLast(pre, last, baseline, polls + [p], f);
    SelectMaybe(WithFate(pre, baseline, polls, Waiting), last, was == Waiting, baseline, p, f);
    TimesOnly(WithFate(pre, baseline, polls, f), last, was == f, o);
    TimesOnly(WithFate(pre, baseline, polls + [p], f), last, now == f, o);
    TimesOnly(Select(WithFate(pre, baseline, polls, Waiting), baseline, p, f), last,
              was == Waiting && FateAt(last, baseline, p) == f, o);
  }

  /** The batch agrees with watching every order alone. */
  ghost predicate Agrees(b: Batch, pending: seq<Order>, baseline: seq<Holding>, polls: seq<Poll>, o: Order) {
    && b.remaining == WithFate(pending, baseline, polls, Waiting)
    && Times(b.confirmed, o) == Times(WithFate(pending, baseline, polls, Confirmed), o)
    && Times(b.dropped, o) == Times(WithFate(pending, baseline, polls, Dropped), o)
  }

  lemma PollKeepsAgreement(b: Batch, pending: seq<Order>, baseline: seq<Holding>, polls: seq<Poll>, p: Poll, o: Order)
    requires Agrees(b, pending, baseline, polls, o)
    ensures Agrees(AfterPoll(b, baseline, p), pending, baseline, polls + [p], o)
  {
    hide Select;
    hide WithFate;
    hide Times;
    WaitingNarrows(pending, baseline, polls, p);
    SettledGrows(pending, baseline, polls, p, Confirmed, o);
    SettledGrows(pending, baseline, polls, p, Dropped, o);
    TimesAppend(b.confirmed, Select(b.remaining, baseline, p, Confirmed), o);
    TimesAppend(b.dropped, Select(b.remaining, baseline, p, Dropped), o);
  }

  /** The batch loop settles every order exactly as if it had been watched alone: what remains is the pending
      list without the settled orders, and the confirmed and dropped ones are those with that fate. */
  lemma {:induction false} OrdersAreIndependent(pending: seq<Order>, baseline: seq<Holding>, polls: seq<Poll>, o: Order)
    ensures Agrees(AfterPolls(pending, baseline, polls), pending, baseline, polls, o)
  {
    if polls == [] {
      AllWaiting(pending, baseline);
    } else {
      var pre, p := polls[..|polls| - 1], polls[|polls| - 1];
      OrdersAreIndependent(pending, baseline, pre, o);
      hide Agrees;
      PollKeepsAgreement(AfterPolls(pending, baseline, pre), pending, baseline, pre, p, o);
      assert polls == pre + [p];
    }
  }

  lemma {:induction false} AllWaiting(orders: seq<Order>, baseline: seq<Holding>)
    ensures WithFate(orders, baseline, [], Waiting) == orders
    ensures WithFate(orders, baseline, [], Confirmed) == []
    ensures WithFate(orders, baseline, [], Dropped) == []
  {
    if orders != [] {
      AllWaiting(orders[..|orders| - 1], baseline);
      LastWaits(orders, baseline);
      hide *;
    }
  }

  lemma LastWaits(orders: seq<Order>, baseline: seq<Holding>)
    requires orders != []
    ensures var pre, last := orders[..|orders| - 1], orders[|orders| - 1];
      && WithFate(orders, baseline, [], Waiting) == WithFate(pre, baseline, [], Waiting) + [last]
      && WithFate(orders, baseline, [], Confirmed) == WithFate(pre, baseline, [], Confirmed)
      && WithFate(orders, baseline, [], Dropped) == WithFate(pre, baseline, [], Dropped)
  {
    assert FateAfter(orders[|orders| - 1], baseline, []) == Waiting;
    hide FateAfter;
  }

  /** The poll showed the order's holding moved its way, or its market closed. */
  predicate Decisive(o: Order, baseline: seq<Holding>, p: Poll) {
    Readable(p) && (Moved(o, baseline, p) || Closed(o, p))
  }

  lemma {:induction false} WaitingMeansUndecided(o: Order, baseline: seq<Holding>, polls: seq<Poll>)
    ensures FateAfter(o, baseline, polls) == Waiting
      <==> forall i | 0 <= i < |polls| :: !Decisive(o, baseline, polls[i])
  {
    if polls != [] {
      var init, p := polls[..|polls| - 1], polls[|polls| - 1];
      UndecidedWaits(o, baseline, p);
      hide FateAt;
      hide Decisive;
      WaitingMeansUndecided(o, baseline, init);
      assert FateAfter(o, baseline, polls) == Waiting
        <==> FateAfter(o, baseline, init) == Waiting && FateAt(o, baseline, p) == Waiting;
      hide FateAfter;
      assert forall i | 0 <= i < |init| :: polls[i] == init[i];
    }
  }

  lemma UndecidedWaits(o: Order, baseline: seq<Holding>, p: Poll)
    ensures FateAt(o, baseline, p) == Waiting <==> !Decisive(o, baseline, p)
  {
    hide Moved;
    hide Closed;
    hide Readable;
  }

  /** The first decisive poll settles the order: confirmed if the holding it shows moved its way, dropped if not. */
  lemma {:induction false} FirstDecisivePollSettles(o: Order, baseline: seq<Holding>, polls: seq<Poll>, j: nat)
    requires j < |polls| && Decisive(o, baseline, polls[j])
    requires forall i | 0 <= i < j :: !Decisive(o, baseline, polls[i])
    ensures FateAfter(o, baseline, polls) == if Moved(o, baseline, polls[j]) then Confirmed else Dropped
    decreases |polls|
  {
    var n := |polls| - 1;
    assert FateAfter(o, baseline, polls)
      == if FateAfter(o, baseline, polls[..n]) != Waiting then FateAfter(o, baseline, polls[..n])
         else FateAt(o, baseline, polls[n]);
    hide FateAfter;
    hide Moved;
    hide Closed;
    hide Readable;
    if j < n {
      FirstDecisivePollSettles(o, baseline, polls[..n], j);
    } else {
      WaitingMeansUndecided(o, baseline, polls[..n]);
    }
  }

  // ----- The close of the market -----

  /** The market in which the order's ticker is listed has closed. */
  predicate OwnClosed(o: Order, p: Poll) {
    (IsKrCode(o.ticker) && p.krClosed) || (!IsKrCode(o.ticker) && p.usClosed)
  }

  /** An order is dropped only at a readable poll after the close of its own market, the other one's does not matter;
      and no order waits beyond such a poll. */
  lemma {:induction false} OwnCloseDecides(o: Order, baseline: seq<Holding>, polls: seq<Poll>)
    ensures FateAfter(o, baseline, polls) == Dropped ==>
      exists i :: 0 <= i < |polls| && Readable(polls[i]) && OwnClosed(o, polls[i])
    ensures FateAfter(o, baseline, polls) == Waiting ==>
      forall i | 0 <= i < |polls| && Readable(polls[i]) :: !OwnClosed(o, polls[i])
  {
    if polls != [] {
      var init, p := polls[..|polls| - 1], polls[|polls| - 1];
      OwnCloseDecides(o, baseline, init);
      assert forall i | 0 <= i < |init| :: polls[i] == init[i];
      assert Closed(o, p) <==> OwnClosed(o, p);
      hide Moved;
      hide Closed;
      hide OwnClosed;
      hide Readable;
    }
  }

  // ----- What is shown and what is held -----

  function TrueQty(p: Poll, ticker: string): int {
    QtyOf(if IsKrCode(ticker) then p.trueKr else p.trueUs, ticker)
  }

  /** The holding really moved in the order's direction since the orders were placed. */
  predicate TrulyMoved(o: Order, start: seq<Holding>, p: Poll) {
    Moves(o.side, QtyOf(start, o.ticker), TrueQty(p, o.ticker))
  }

  /** The order is judged by an earlier domestic list. */
  predicate Carried(o: Order, p: Poll) {
    IsKrCode(o.ticker) && p.kr.KrCarried?
  }

  /** The read left the order's position out. */
  predicate ReadLost(o: Order, p: Poll) {
    ShownQty(p, o.ticker) == 0 != TrueQty(p, o.ticker)
  }

  /** So did the baseline, recorded as part of what was held at the start. */
  predicate BaselineLost(o: Order, start: seq<Holding>, kept: set<string>) {
    QtyOf(start, o.ticker) != 0 && o.ticker !in kept
  }

  predicate LongOnly(hs: seq<Holding>) {
    forall h | h in hs :: h.qty >= 0
  }

  lemma {:induction false} LongQty(hs: seq<Holding>, code: string)
    requires LongOnly(hs)
    ensures QtyOf(hs, code) >= 0
  {
    if hs != [] {
      assert hs[0] in hs;
      LongQty(hs[1..], code);
    }
  }

  lemma {:induction false} PartQty(hs: seq<Holding>, kept: set<string>, code: string)
    ensures QtyOf(Part(hs, kept), code) == if code in kept then QtyOf(hs, code) else 0
  {
    if hs != [] {
      PartQty(hs[1..], kept, code);
      if hs[0].code in kept {
        assert Part(hs, kept)[1..] == Part(hs[1..], kept);
      } else {
        assert Part(hs, kept) == Part(hs[1..], kept);
      }
    }
  }

  lemma ShownIsTrueOrNothing(p: Poll, o: Order)
    requires Readable(p) && !Carried(o, p)
    ensures ShownQty(p, o.ticker) == TrueQty(p, o.ticker) || ShownQty(p, o.ticker) == 0
  {
    if IsKrCode(o.ticker) {
      PartQty(p.trueKr, p.kr.kept, o.ticker);
    } else if p.us.UsPart? {
      PartQty(p.trueUs, p.us.kept, o.ticker);
    }
  }

  /** Whether a readable poll confirms an order, in terms of what is held and what was lost on the way. */
  predicate ConfirmsOf(o: Order, start: seq<Holding>, kept: set<string>, p: Poll) {
    var before := if BaselineLost(o, start, kept) then 0 else QtyOf(start, o.ticker);
    if Carried(o, p) then Moves(o.side, before, QtyOf(p.kr.earlier, o.ticker))
    else if BaselineLost(o, start, kept) then o.side == Buy && TrueQty(p, o.ticker) > 0 && !ReadLost(o, p)
    else if ReadLost(o, p) then o.side == Sell && before > 0
    else TrulyMoved(o, start, p)
  }

  /** A poll confirms an order exactly if its holding truly moved its way and both reads saw it, or it is the sale of
      a position that this read lost, or the purchase of one that the baseline had lost (or an earlier list that is
      carried over says so). */
  lemma ConfirmedAtIff(o: Order, start: seq<Holding>, kept: set<string>, p: Poll)
    requires LongOnly(start) && LongOnly(p.trueKr) && LongOnly(p.trueUs)
    ensures FateAt(o, Part(start, kept), p) == Confirmed <==> Readable(p) && ConfirmsOf(o, start, kept, p)
  {
    PartQty(start, kept, o.ticker);
    LongQty(start, o.ticker);
    LongQty(p.trueKr, o.ticker);
    LongQty(p.trueUs, o.ticker);
    if Readable(p) && !Carried(o, p) {
      ShownIsTrueOrNothing(p, o);
    }
    hide Part;
    hide QtyOf;
    hide IsKrCode;
  }

  // ----- Runs that mislead -----

  function Codes(hs: seq<Holding>): set<string> {
    set h | h in hs :: h.code
  }

  /** The same poll with both reads complete. */
  function Honest(p: Poll): Poll {
    p.(kr := if p.kr.KrRaised? then KrRaised else KrPart(Codes(p.trueKr)), us := UsPart(Codes(p.trueUs)))
  }

  function HonestRun(polls: seq<Poll>): seq<Poll> {
    if polls == [] then [] else HonestRun(polls[..|polls| - 1]) + [Honest(polls[|polls| - 1])]
  }

  lemma {:induction false} UnlistedQty(hs: seq<Holding>, code: string)
    requires code !in Codes(hs)
    ensures QtyOf(hs, code) == 0
  {
    if hs != [] {
      assert hs[0] in hs;
      assert Codes(hs[1..]) <= Codes(hs);
      UnlistedQty(hs[1..], code);
    }
  }

  lemma HonestShowsTruth(p: Poll, ticker: string)
    requires Readable(p)
    ensures ShownQty(Honest(p), ticker) == TrueQty(p, ticker)
  {
    var hs := if IsKrCode(ticker) then p.trueKr else p.trueUs;
    PartQty(hs, Codes(hs), ticker);
    if ticker !in Codes(hs) {
      UnlistedQty(hs, ticker);
    }
    hide Part;
    hide QtyOf;
    hide Codes;
    hide IsKrCode;
  }

  /** The poll gives the order another fate than complete reads would. */
  predicate Misleads(o: Order, start: seq<Holding>, kept: set<string>, p: Poll) {
    FateAt(o, Part(start, kept), p) != FateAt(o, start, Honest(p))
  }

  /** The poll confirms the order although its holding did not truly move its way. */
  predicate ConfirmedWrongly(o: Order, start: seq<Holding>, kept: set<string>, p: Poll) {
    FateAt(o, Part(start, kept), p) == Confirmed && !TrulyMoved(o, start, p)
  }

  /** A readable poll does not confirm it although it did. */
  predicate Missed(o: Order, start: seq<Holding>, kept: set<string>, p: Poll) {
    Readable(p) && FateAt(o, Part(start, kept), p) != Confirmed && TrulyMoved(o, start, p)
  }

  lemma LongQtys(o: Order, start: seq<Holding>, p: Poll)
    requires LongOnly(start) && LongOnly(p.trueKr) && LongOnly(p.trueUs)
    ensures QtyOf(start, o.ticker) >= 0 && TrueQty(p, o.ticker) >= 0
  {
    LongQty(start, o.ticker);
    LongQty(p.trueKr, o.ticker);
    LongQty(p.trueUs, o.ticker);
  }

  /** A poll misleads exactly if it is readable and confirms an order whose holding did not truly move its way, or does
      not confirm one whose holding did. */
  lemma MisleadsIff(o: Order, start: seq<Holding>, kept: set<string>, p: Poll)
    requires LongOnly(start) && LongOnly(p.trueKr) && LongOnly(p.trueUs)
    ensures Misleads(o, start, kept, p) <==>
      ConfirmedWrongly(o, start, kept, p) || Missed(o, start, kept, p)
  {
    ConfirmedAtIff(o, start, kept, p);
    if Readable(p) {
      HonestShowsTruth(p, o.ticker);
    }
    hide ConfirmsOf;
    hide Part;
    hide QtyOf;
    hide IsKrCode;
    hide ShownQty;
    hide TrueQty;
  }

  /** A sale is confirmed by mistake exactly if the read lost its position and nothing was sold, and missed exactly if
      the baseline had lost a position of which something was sold. */
  lemma SaleMisledIff(o: Order, start: seq<Holding>, kept: set<string>, p: Poll)
    requires LongOnly(start) && LongOnly(p.trueKr) && LongOnly(p.trueUs)
    requires o.side == Sell && !Carried(o, p)
    ensures ConfirmedWrongly(o, start, kept, p) <==>
      Readable(p) && !BaselineLost(o, start, kept) && ReadLost(o, p)
      && 0 < QtyOf(start, o.ticker) <= TrueQty(p, o.ticker)
    ensures Missed(o, start, kept, p) <==>
      Readable(p) && BaselineLost(o, start, kept) && TrueQty(p, o.ticker) < QtyOf(start, o.ticker)
  {
    ConfirmedAtIff(o, start, kept, p);
    LongQtys(o, start, p);
    hide FateAt;
    hide QtyOf;
    hide TrueQty;
    hide ShownQty;
    hide Part;
  }

  /** A purchase is confirmed by mistake exactly if the baseline had lost a position that did not grow and this read
      shows, and missed exactly if this read lost a position that did grow. */
  lemma PurchaseMisledIff(o: Order, start: seq<Holding>, kept: set<string>, p: Poll)
    requires LongOnly(start) && LongOnly(p.trueKr) && LongOnly(p.trueUs)
    requires o.side == Buy && !Carried(o, p)
    ensures ConfirmedWrongly(o, start, kept, p) <==>
      Readable(p) && BaselineLost(o, start, kept) && !ReadLost(o, p)
      && 0 < TrueQty(p, o.ticker) <= QtyOf(start, o.ticker)
    ensures Missed(o, start, kept, p) <==>
      Readable(p) && ReadLost(o, p) && QtyOf(start, o.ticker) < TrueQty(p, o.ticker)
  {
    ConfirmedAtIff(o, start, kept, p);
    LongQtys(o, start, p);
    hide FateAt;
    hide QtyOf;
    hide TrueQty;
    hide ShownQty;
    hide Part;
  }

  /** A carried list misleads exactly if it tells another move from what the baseline kept than there was. */
  lemma CarriedMisledIff(o: Order, start: seq<Holding>, kept: set<string>, p: Poll)
    requires LongOnly(start) && LongOnly(p.trueKr) && LongOnly(p.trueUs)
    requires Carried(o, p)
    ensures var held, now, told := QtyOf(start, o.ticker), TrueQty(p, o.ticker), QtyOf(p.kr.earlier, o.ticker);
      var before := if BaselineLost(o, start, kept) then 0 else held;
      && (o.side == Buy ==>
            && (ConfirmedWrongly(o, start, kept, p) <==> told > before && now <= held)
            && (Missed(o, start, kept, p) <==> told <= before && now > held))
      && (o.side == Sell ==>
            && (ConfirmedWrongly(o, start, kept, p) <==> told < before && now >= held)
            && (Missed(o, start, kept, p) <==> told >= before && now < held))
  {
    ConfirmedAtIff(o, start, kept, p);
    hide FateAt;
    hide QtyOf;
    hide TrueQty;
    hide Part;
  }

  /** At every moment of the run the order has the fate that complete reads would have given it. */
  predicate AlwaysRight(o: Order, start: seq<Holding>, kept: set<string>, polls: seq<Poll>) {
    && FateAfter(o, Part(start, kept), polls) == FateAfter(o, start, HonestRun(polls))
    && (polls != [] ==> AlwaysRight(o, start, kept, polls[..|polls| - 1]))
  }

  /** No poll misleads while the order waits. */
  predicate NeverMisled(o: Order, start: seq<Holding>, kept: set<string>, polls: seq<Poll>) {
    polls == []
    || (NeverMisled(o, start, kept, polls[..|polls| - 1])
        && (FateAfter(o, Part(start, kept), polls[..|polls| - 1]) == Waiting ==>
              !Misleads(o, start, kept, polls[|polls| - 1])))
  }

  /** Over any run, an order always has its rightful fate if and only if no poll misleads while it waits. */
  lemma {:induction false} RightIffNeverMisled(o: Order, start: seq<Holding>, kept: set<string>, polls: seq<Poll>)
    ensures AlwaysRight(o, start, kept, polls) <==> NeverMisled(o, start, kept, polls)
    decreases |polls|
  {
    if polls != [] {
      var init, p := polls[..|polls| - 1], polls[|polls| - 1];
      RightIffNeverMisled(o, start, kept, init);
      assert polls == init + [p];
      FateStep(o, Part(start, kept), init, p);
      FateStep(o, start, HonestRun(init), Honest(p));
      assert AlwaysRight(o, start, kept, init) ==>
        FateAfter(o, Part(start, kept), init) == FateAfter(o, start, HonestRun(init));
      hide FateAfter;
      hide FateAt;
      hide Part;
      hide Honest;
    }
  }

  /** One failed overseas read confirms a sale of which no share was sold. */
  lemma FailedReadConfirmsSale()
    ensures var o, held := Order("TLT", Sell, 5), [Holding("TLT", 5)];
      var p := Poll([], held, KrPart({}), UsRaised, false, false);
      FateAfter(o, held, [p]) == Confirmed && !TrulyMoved(o, held, p)
  {
    var p := Poll([], [Holding("TLT", 5)], KrPart({}), UsRaised, false, false);
    assert [p][..0] == [];
    assert QtyOf([], "TLT") == 0;
  }

  // ----- What is booked and what was filled -----

  /** Only ticker and side decide about an order. */
  lemma {:induction false} QuantityIsIgnored(o: Order, qty: int, baseline: seq<Holding>, polls: seq<Poll>)
    ensures FateAfter(o.(qty := qty), baseline, polls) == FateAfter(o, baseline, polls)
  {
    if polls != [] {
      QuantityIsIgnored(o, qty, baseline, polls[..|polls| - 1]);
    }
  }

  predicate IsFor(o: Order, ticker: string, side: Side) {
    o.ticker == ticker && o.side == side
  }

  /** The quantity of the orders for one side of a ticker: what confirming them books. */
  function QtyFor(orders: seq<Order>, ticker: string, side: Side): int {
    if orders == [] then 0
    else
      var o := orders[|orders| - 1];
      QtyFor(orders[..|orders| - 1], ticker, side) + if IsFor(o, ticker, side) then o.qty else 0
  }

  lemma {:induction false} QtyForAppend(a: seq<Order>, b: seq<Order>, ticker: string, side: Side)
    ensures QtyFor(a + b, ticker, side) == QtyFor(a, ticker, side) + QtyFor(b, ticker, side)
    decreases |b|
  {
    if b == [] {
      assert a + b == a;
    } else {
      QtyForAppend(a, b[..|b| - 1], ticker, side);
      assert (a + b)[..|a + b| - 1] == a + b[..|b| - 1];
    }
  }

  /** The fate of one share of that side. */
  function ShareFate(ticker: string, side: Side, baseline: seq<Holding>, p: Poll): Fate {
    FateAt(Order(ticker, side, 1), baseline, p)
  }

  lemma {:induction false} SelectedQty(orders: seq<Order>, baseline: seq<Holding>, p: Poll, f: Fate,
                                       ticker: string, side: Side)
    ensures QtyFor(Select(orders, baseline, p, f), ticker, side)
      == if ShareFate(ticker, side, baseline, p) == f then QtyFor(orders, ticker, side) else 0
  {
    if orders != [] {
      var pre, last := orders[..|orders| - 1], orders[|orders| - 1];
      var keep := FateAt(last, baseline, p) == f;
      SelectedQty(pre, baseline, p, f, ticker, side);
      assert IsFor(last, ticker, side) ==> FateAt(last, baseline, p) == ShareFate(ticker, side, baseline, p);
      assert Select(orders, baseline, p, f) == Select(pre, baseline, p, f) + Only(last, keep);
      assert QtyFor(orders, ticker, side)
        == QtyFor(pre, ticker, side) + if IsFor(last, ticker, side) then last.qty else 0;
      hide *;
      OnlyQty(last, keep, ticker, side);
      QtyForAppend(Select(pre, baseline, p, f), Only(last, keep), ticker, side);
    }
  }

  lemma OnlyQty(o: Order, keep: bool, ticker: string, side: Side)
    ensures QtyFor(Only(o, keep), ticker, side) == if keep && IsFor(o, ticker, side) then o.qty else 0
  {
    if keep {
      assert [o][..0] == [];
    }
  }

  function FateFor(ticker: string, side: Side, baseline: seq<Holding>, polls: seq<Poll>): Fate {
    FateAfter(Order(ticker, side, 1), baseline, polls)
  }

  /** All orders for one side of a ticker are booked together, in full, or not at all. */
  lemma {:induction false} BookedAllOrNothing(pending: seq<Order>, baseline: seq<Holding>, polls: seq<Poll>,
                                              ticker: string, side: Side)
    ensures var fate, b := FateFor(ticker, side, baseline, polls), AfterPolls(pending, baseline, polls);
      && QtyFor(b.confirmed, ticker, side) == (if fate == Confirmed then QtyFor(pending, ticker, side) else 0)
      && QtyFor(b.remaining, ticker, side) == (if fate == Waiting then QtyFor(pending, ticker, side) else 0)
    decreases |polls|
  {
    if polls != [] {
      var init, p := polls[..|polls| - 1], polls[|polls| - 1];
      BookedAllOrNothing(pending, baseline, init, ticker, side);
      var b := AfterPolls(pending, baseline, init);
      SelectedQty(b.remaining, baseline, p, Confirmed, ticker, side);
      SelectedQty(b.remaining, baseline, p, Waiting, ticker, side);
      QtyForAppend(b.confirmed, Select(b.remaining, baseline, p, Confirmed), ticker, side);
      assert FateFor(ticker, side, baseline, polls)
        == if FateFor(ticker, side, baseline, init) != Waiting then FateFor(ticker, side, baseline, init)
           else ShareFate(ticker, side, baseline, p);
      hide QtyFor;
      hide Select;
      hide FateFor;
      hide ShareFate;
    }
  }

  /** How much of each order has been filled: anything from nothing to all of it. */
  predicate ValidFills(pending: seq<Order>, fills: seq<int>) {
    |fills| == |pending| && forall i | 0 <= i < |pending| :: 0 <= fills[i] <= pending[i].qty
  }

  function FilledFor(pending: seq<Order>, fills: seq<int>, ticker: string, side: Side): int
    requires |fills| == |pending|
  {
    if pending == [] then 0
    else
      var n := |pending| - 1;
      FilledFor(pending[..n], fills[..n], ticker, side) + if IsFor(pending[n], ticker, side) then fills[n] else 0
  }

  /** Every order of that side is filled completely. */
  predicate AllFull(pending: seq<Order>, fills: seq<int>, ticker: string, side: Side)
    requires |fills| == |pending|
  {
    forall i | 0 <= i < |pending| && IsFor(pending[i], ticker, side) :: fills[i] == pending[i].qty
  }

  lemma {:induction false} FilledAtMost(pending: seq<Order>, fills: seq<int>, ticker: string, side: Side)
    requires ValidFills(pending, fills)
    ensures 0 <= FilledFor(pending, fills, ticker, side) <= QtyFor(pending, ticker, side)
    ensures FilledFor(pending, fills, ticker, side) == QtyFor(pending, ticker, side)
      <==> AllFull(pending, fills, ticker, side)
  {
    if pending != [] {
      var n := |pending| - 1;
      FilledAtMost(pending[..n], fills[..n], ticker, side);
      assert AllFull(pending, fills, ticker, side) <==>
        AllFull(pending[..n], fills[..n], ticker, side)
          && (IsFor(pending[n], ticker, side) ==> fills[n] == pending[n].qty);
      hide AllFull;
    }
  }

  /** At the poll that decides about a side of a ticker, when the holding shown has moved by exactly what was bought
      less what was sold: the quantity booked is the quantity filled if and only if the balance moved that side's way
      and every order of it is full, or nothing of it was filled. */
  lemma BookedIsFilledIff(pending: seq<Order>, fills: seq<int>, baseline: seq<Holding>, polls: seq<Poll>, p: Poll,
                          ticker: string, side: Side)
    requires ValidFills(pending, fills) && Readable(p)
    requires FateFor(ticker, side, baseline, polls) == Waiting
    requires ShownQty(p, ticker) == QtyOf(baseline, ticker) + FilledFor(pending, fills, ticker, Buy)
                                    - FilledFor(pending, fills, ticker, Sell)
    ensures var bought, sold := FilledFor(pending, fills, ticker, Buy), FilledFor(pending, fills, ticker, Sell);
      QtyFor(AfterPolls(pending, baseline, polls + [p]).confirmed, ticker, side)
        == FilledFor(pending, fills, ticker, side)
      <==> if Moves(side, 0, bought - sold) then AllFull(pending, fills, ticker, side)
           else FilledFor(pending, fills, ticker, side) == 0
  {
    hide ValidFills;
    hide FilledFor;
    hide AllFull;
    hide FateFor;
    hide ShownQty;
    hide QtyOf;
    hide QtyFor;
    hide AfterPolls;
    hide Readable;
    FilledAtMost(pending, fills, ticker, side);
    DecidingPollBooks(pending, baseline, polls, p, ticker, side);
  }

  /** The first readable poll after waiting books everything if the holding shown has moved, and nothing otherwise. */
  lemma DecidingPollBooks(pending: seq<Order>, baseline: seq<Holding>, polls: seq<Poll>, p: Poll, ticker: string,
                          side: Side)
    requires Readable(p) && FateFor(ticker, side, baseline, polls) == Waiting
    ensures QtyFor(AfterPolls(pending, baseline, polls + [p]).confirmed, ticker, side)
      == if Moves(side, QtyOf(baseline, ticker), ShownQty(p, ticker)) then QtyFor(pending, ticker, side) else 0
  {
    hide *;
    DecidingPoll(ticker, side, baseline, polls, p);
    BookedAllOrNothing(pending, baseline, polls + [p], ticker, side);
  }

  /** The first readable poll after waiting confirms exactly if the holding shown has moved. */
  lemma DecidingPoll(ticker: string, side: Side, baseline: seq<Holding>, polls: seq<Poll>, p: Poll)
    requires Readable(p) && FateFor(ticker, side, baseline, polls) == Waiting
    ensures FateFor(ticker, side, baseline, polls + [p]) == Confirmed
      <==> Moves(side, QtyOf(baseline, ticker), ShownQty(p, ticker))
  {
    FateStep(Order(ticker, side, 1), baseline, polls, p);
    hide FateAfter;
    hide QtyOf;
    hide ShownQty;
  }

  /** If nothing on the other side of the ticker was filled (there need be no order): exactly if nothing was filled, or
      everything. */
  lemma BookedIsFilledOneSideIff(pending: seq<Order>, fills: seq<int>, baseline: seq<Holding>,
                                 polls: seq<Poll>, p: Poll,
                                 ticker: string, side: Side)
    requires ValidFills(pending, fills) && Readable(p)
    requires FateFor(ticker, side, baseline, polls) == Waiting
    requires FilledFor(pending, fills, ticker, Other(side)) == 0
    requires ShownQty(p, ticker) == QtyOf(baseline, ticker) + FilledFor(pending, fills, ticker, Buy)
                                    - FilledFor(pending, fills, ticker, Sell)
    ensures QtyFor(AfterPolls(pending, baseline, polls + [p]).confirmed, ticker, side)
      == FilledFor(pending, fills, ticker, side)
      <==> FilledFor(pending, fills, ticker, side) == 0 || AllFull(pending, fills, ticker, side)
  {
    hide FilledFor;
    hide ValidFills;
    hide AllFull;
    hide QtyFor;
    hide AfterPolls;
    hide FateFor;
    hide QtyOf;
    hide ShownQty;
    FilledAtMost(pending, fills, ticker, side);
    BookedIsFilledIff(pending, fills, baseline, polls, p, ticker, side);
  }

  function Other(side: Side): Side {
    if side == Buy then Sell else Buy
  }

  /** Two purchases of ten shares each and one share bought: twenty are booked. */
  lemma OneShareBooksTwenty()
    ensures var o, held := Order("005930", Buy, 10), [Holding("005930", 5)];
      var p := Poll([Holding("005930", 6)], [], KrPart({"005930"}), UsPart({}), false, false);
      && ValidFills([o, o], [1, 0]) && FilledFor([o, o], [1, 0], "005930", Buy) == 1
      && AfterPolls([o, o], held, [p]).confirmed == [o, o]
      && QtyFor([o, o], "005930", Buy) == 20
  {
    var o, held := Order("005930", Buy, 10), [Holding("005930", 5)];
    var p := Poll([Holding("005930", 6)], [], KrPart({"005930"}), UsPart({}), false, false);
    assert [p][..0] == [] && [o, o][..1] == [o] && [o][..0] == [] && [1, 0][..1] == [1] && [1][..0] == [];
    assert Part(p.trueKr, {"005930"}) == [Holding("005930", 6)] + Part(p.trueKr[1..], {"005930"});
    assert FateAt(o, held, p) == Confirmed;
    assert Select([o], held, p, Confirmed) == [o];
    assert FilledFor([o], [1], "005930", Buy) == 1;
    assert QtyFor([o], "005930", Buy) == 10;
  }

  // ----- The price of a confirmed buy -----

  /** The fill price reconstructed from the average cost before and after. */
  function RecoveredPrice(beforeAvg: real, beforeQty: int, afterAvg: real, afterQty: int): real
    requires afterQty > beforeQty
  {
    (afterAvg * afterQty as real - beforeAvg * beforeQty as real) / (afterQty - beforeQty) as real
  }

  /** Blending a fill into a position and reconstructing its price from the two averages gives the price back. */
  lemma RecoveredPriceIsFillPrice(beforeAvg: real, beforeQty: int, price: real, qty: int, afterAvg: real)
    requires beforeQty >= 0 && qty > 0
    requires afterAvg == (beforeAvg * beforeQty as real + price * qty as real) / (beforeQty + qty) as real
    ensures RecoveredPrice(beforeAvg, beforeQty, afterAvg, beforeQty + qty) == price
  {
  }
}
