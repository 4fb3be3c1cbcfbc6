/** First-in-first-out matching of sales to earlier buys (main_swarm.py): the second, independent account of
    realized profit. */
module FifoMatcher {
  import opened Common
  import opened Sorting

  datatype Side = Buy | Sell | OtherSide

  datatype Source = Actual | Estimated | Unknown

  /** A logged trade. The estimated price and the profit hint come from the cycle log and may be missing. */
  datatype Event = Event(
    ticker: string,
    side: Side,
    qty: int,
    filled: bool,
    ts: real,
    fillPrice: Option<real>,
    estPrice: Option<real>,
    hint: Option<real>,
    avgCost: Option<real>)

  datatype Lot = Lot(qty: int, price: real, ts: real, source: Source)

  datatype Match = Match(buyQty: int, buyPrice: real, buyTs: real, sellPrice: real, pnl: real)

  type Lots = map<string, seq<Lot>>

  function Or<T>(x: Option<T>, y: Option<T>): Option<T> {
    if x.Some? then x else y
  }

  /** Python's truth of an optional number. */
  predicate Truthy(x: Option<real>) {
    x.Some? && x.value != 0.0
  }

  function EffectivePrice(e: Event): Option<real> {
    Or(e.fillPrice, e.estPrice)
  }

  function PriceSource(e: Event): Source {
    if e.fillPrice.Some? then Actual else if Truthy(e.estPrice) then Estimated else Unknown
  }

  // ----- Profit -----

  /** Profit of a closed trade after costs on both legs; None if anything is missing. */
  function NetRealizedPnl(buy: real, sell: real, qty: int, isUs: bool): Option<real> {
    if buy == 0.0 || sell == 0.0 || qty == 0 then None
    else
      var gross := Mul(sell - buy, qty as real);
      if !isUs then Some(gross) else Some(gross - Mul(Mul(US_TRADE_COST_RATE, buy + sell), qty as real))
  }

  /** The price a sale is taken to have fetched against one lot. */
  function SellPrice(e: Event, lotPrice: real): real {
    if EffectivePrice(e).Some? then EffectivePrice(e).value
    else if e.hint.Some? && lotPrice != 0.0 then Mul(lotPrice, 1.0 + e.hint.value / 100.0)
    else lotPrice
  }

  function MatchPnl(e: Event, price: real, qty: int): real {
    if SellPrice(e, price) != 0.0 && price != 0.0 then
      var pnl := NetRealizedPnl(price, SellPrice(e, price), qty, !IsKrCode(e.ticker));
      if pnl.Some? then pnl.value else 0.0
    else 0.0
  }

  function MatchOf(e: Event, part: Lot): Match {
    Match(part.qty, part.price, part.ts, SellPrice(e, part.price), MatchPnl(e, part.price, part.qty))
  }

  // ----- Taking from a queue -----

  predicate SoundLots(lots: seq<Lot>) {
    forall i | 0 <= i < |lots| :: lots[i].qty >= 1
  }

  /** The parts of lots that a sale of n shares takes, oldest first. */
  function Taken(lots: seq<Lot>, n: int): seq<Lot> {
    if n <= 0 || lots == [] then []
    else if lots[0].qty <= n then [lots[0]] + Taken(lots[1..], n - lots[0].qty)
    else [lots[0].(qty := n)]
  }

  /** What such a sale leaves in the queue. */
  function Left(lots: seq<Lot>, n: int): seq<Lot> {
    if n <= 0 || lots == [] then lots
    else if lots[0].qty <= n then Left(lots[1..], n - lots[0].qty)
    else [lots[0].(qty := lots[0].qty - n)] + lots[1..]
  }

  /** The shares the queue could not serve. */
  function Unserved(lots: seq<Lot>, n: int): int {
    if n <= 0 || lots == [] then n
    else if lots[0].qty <= n then Unserved(lots[1..], n - lots[0].qty)
    else 0
  }

  function Matches(e: Event, parts: seq<Lot>): seq<Match> {
    if parts == [] then [] else Matches(e, parts[..|parts| - 1]) + [MatchOf(e, parts[|parts| - 1])]
  }

  // ----- One event -----

  function LotsOf(lots: Lots, ticker: string): seq<Lot> {
    if ticker in lots then lots[ticker] else []
  }

  predicate OpensLot(e: Event) {
    e.filled && e.side == Buy && Truthy(EffectivePrice(e)) && e.qty > 0
  }

  predicate IsSale(e: Event) {
    e.filled && e.side == Sell
  }

  function NewLot(e: Event): Lot
    requires OpensLot(e)
  {
    Lot(e.qty, EffectivePrice(e).value, e.ts, PriceSource(e))
  }

  function QueueAfter(q: seq<Lot>, e: Event): seq<Lot> {
    if OpensLot(e) then q + [NewLot(e)] else if IsSale(e) then Left(q, e.qty) else q
  }

  function After(lots: Lots, e: Event): Lots {
    if OpensLot(e) || (IsSale(e) && e.ticker in lots) then lots[e.ticker := QueueAfter(LotsOf(lots, e.ticker), e)]
    else lots
  }

  datatype SellDetail = SellDetail(
    matched: seq<Match>,
    shownSell: Option<real>,
    totalPnl: Option<real>,
    unmatchedQty: int,
    costBasis: Option<real>,
    realizedPnl: Option<real>,
    noCostBasis: bool)

  datatype Detail =
    | Unfilled
    | BuyInfo(buyPrice: Option<real>, qty: int)
    | SellInfo(sell: SellDetail)
    | NoInfo

  function TotalPnl(ms: seq<Match>): real {
    if ms == [] then 0.0 else TotalPnl(ms[..|ms| - 1]) + ms[|ms| - 1].pnl
  }

  /** The detail of a sale. A positive average cost recorded with the sale overrides the matched profit, and a
      sale with neither such a cost nor any match has an unknown profit. */
  function SaleDetail(e: Event, ms: seq<Match>, unmatched: int): SellDetail {
    var shown := if e.fillPrice.Some? then e.fillPrice
                 else if Truthy(e.estPrice) then e.estPrice
                 else if ms != [] then Some(ms[0].sellPrice) else None;
    var basis := if Truthy(e.avgCost) then e.avgCost else None;
    var known := basis.Some? && basis.value > 0.0;
    var realized := if known && Truthy(shown) then NetRealizedPnl(basis.value, shown.value, e.qty, !IsKrCode(e.ticker))
      else None;
    var noBasis := !known && ms == [];
    SellDetail(ms, shown,
               if noBasis then None else if realized.Some? then realized else Some(TotalPnl(ms)),
               unmatched, basis, realized, noBasis)
  }

  function DetailOf(lots: Lots, e: Event): Detail {
    if !e.filled then Unfilled
    else match e.side
      case Buy => BuyInfo(EffectivePrice(e), e.qty)
      case Sell =>
        var q := LotsOf(lots, e.ticker);
        SellInfo(SaleDetail(e, Matches(e, Taken(q, e.qty)), Unserved(q, e.qty)))
      case OtherSide => NoInfo
  }

  function Run(lots: Lots, es: seq<Event>): Lots {
    if es == [] then lots else After(Run(lots, es[..|es| - 1]), es[|es| - 1])
  }

  function Details(es: seq<Event>): (ds: seq<Detail>)
    ensures |ds| == |es|
  {
    if es == [] then []
    else Details(es[..|es| - 1]) + [DetailOf(Run(map[], es[..|es| - 1]), es[|es| - 1])]
  }

  function ByTime(): Event -> real {
    (e: Event) => e.ts
  }

  class TradeHistory {
    var lots: Lots

    predicate Valid()
      reads this
    {
      forall tk | tk in lots :: SoundLots(lots[tk])
    }

    /** Annotates every trade, oldest first. */
    method EnrichTradeHistory(events: seq<Event>) returns (es: seq<Event>, details: seq<Detail>)
      modifies this
      ensures es == SortBy(events, ByTime())
      ensures details == Details(es)
      ensures Valid() && lots == Run(map[], es)
    {
      es := SortBy(events, ByTime());
      lots, details := map[], [];
      for i := 0 to |es|
        invariant Valid() && lots == Run(map[], es[..i])
        invariant details == Details(es[..i])
      {
        assert es[..i + 1][..i] == es[..i];
        var d := Process(es[i]);
        details := details + [d];
      }
      assert es[..|es|] == es;
    }

    method Process(e: Event) returns (d: Detail)
      requires Valid()
      modifies this
      ensures Valid() && lots == After(old(lots), e)
      ensures d == DetailOf(old(lots), e)
    {
      if !e.filled {
        return Unfilled;
      }
      if e.side == Buy {
        if Truthy(EffectivePrice(e)) && e.qty > 0 {
          lots := lots[e.ticker := LotsOf(lots, e.ticker) + [NewLot(e)]];
        }
        d := BuyInfo(EffectivePrice(e), e.qty);
      } else if e.side == Sell {
        var ms, rest, remaining := MatchSale(LotsOf(lots, e.ticker), e);
        if e.ticker in lots {
          lots := lots[e.ticker := rest];
        }
        d := SellInfo(SaleDetail(e, ms, remaining));
      } else {
        d := NoInfo;
      }
    }

    /** The inner loop: takes from the head lot until the sale is served or the queue is empty. */
    static method MatchSale(queue: seq<Lot>, e: Event) returns (ms: seq<Match>, rest: seq<Lot>, remaining: int)
      requires SoundLots(queue)
      ensures ms == Matches(e, Taken(queue, e.qty))
      ensures rest == Left(queue, e.qty) && SoundLots(rest)
      ensures remaining == Unserved(queue, e.qty)
    {
      rest, remaining, ms := queue, e.qty, [];
      ghost var parts: seq<Lot> := [];
      hide Taken;
      hide Left;
      hide Unserved;
      hide Matches;
      hide MatchOf;
      MatchesNone(e);
      while remaining > 0 && rest != []
        invariant SoundLots(rest)
        invariant ms == Matches(e, parts)
        invariant parts + Taken(rest, remaining) == Taken(queue, e.qty)
        invariant Left(rest, remaining) == Left(queue, e.qty)
        invariant Unserved(rest, remaining) == Unserved(queue, e.qty)
        decreases if remaining > 0 then remaining else 0
      {
        var head := rest[0];
        var take := if head.qty <= remaining then head.qty else remaining;
        var part := head.(qty := take);
        ms := ms + [MatchOf(e, part)];
        MatchesSnoc(e, parts, part);
        TakeHead(rest, remaining, parts);
        parts := parts + [part];
        rest := if head.qty - take <= 0 then rest[1..] else [head.(qty := head.qty - take)] + rest[1..];
        remaining := remaining - take;
      }
      NothingLeftToTake(rest, remaining);
      assert parts + [] == parts;
    }
  }

  lemma MatchesSnoc(e: Event, parts: seq<Lot>, part: Lot)
    ensures Matches(e, parts + [part]) == Matches(e, parts) + [MatchOf(e, part)]
  {
    assert (parts + [part])[..|parts|] == parts;
  }

  lemma MatchesNone(e: Event)
    ensures Matches(e, []) == []
  {
  }

  /** A sale that uses up the oldest lot continues with the others; one that does not ends within it. */
  lemma TakeFromHead(lots: seq<Lot>, n: int)
    requires lots != [] && n > 0
    ensures lots[0].qty <= n ==>
      && Taken(lots, n) == [lots[0]] + Taken(lots[1..], n - lots[0].qty)
      && Left(lots, n) == Left(lots[1..], n - lots[0].qty)
      && Unserved(lots, n) == Unserved(lots[1..], n - lots[0].qty)
    ensures lots[0].qty > n ==>
      && Taken(lots, n) == [lots[0].(qty := n)]
      && Left(lots, n) == [lots[0].(qty := lots[0].qty - n)] + lots[1..]
      && Unserved(lots, n) == 0
  {
  }

  lemma Regroup(parts: seq<Lot>, head: Lot, tail: seq<Lot>)
    ensures parts + ([head] + tail) == (parts + [head]) + tail
  {
  }

  /** One round of the matching loop, on the specification side. */
  lemma TakeHead(lots: seq<Lot>, n: int, parts: seq<Lot>)
    requires SoundLots(lots) && lots != [] && n > 0
    ensures var head := lots[0];
            var take := if head.qty <= n then head.qty else n;
            var rest := if head.qty - take <= 0 then lots[1..] else [head.(qty := head.qty - take)] + lots[1..];
            && SoundLots(rest)
            && parts + Taken(lots, n) == (parts + [head.(qty := take)]) + Taken(rest, n - take)
            && Left(lots, n) == Left(rest, n - take)
            && Unserved(lots, n) == Unserved(rest, n - take)
  {
    var head, rest := lots[0], lots[1..];
    TakeFromHead(lots, n);
    if head.qty <= n {
      Regroup(parts, head, Taken(rest, n - head.qty));
      hide Taken;
      hide Left;
      hide Unserved;
    } else {
      NothingLeftToTake([head.(qty := head.qty - n)] + rest, 0);
      hide Taken;
      hide Left;
      hide Unserved;
    }
  }

  lemma NothingLeftToTake(lots: seq<Lot>, n: int)
    requires n <= 0 || lots == []
    ensures Taken(lots, n) == [] && Left(lots, n) == lots && Unserved(lots, n) == n
  {
  }

  // ----- The queue of single shares -----

  /** One share and where it came from. */
  datatype Share = Share(price: real, ts: real, source: Source)

  function Copies(s: Share, n: int): seq<Share> {
    if n <= 0 then [] else Copies(s, n - 1) + [s]
  }

  /** The lots of a queue, share by share. */
  function Units(lots: seq<Lot>): seq<Share> {
    if lots == [] then [] else Units(lots[..|lots| - 1]) + Copies(ShareOf(lots[|lots| - 1]), lots[|lots| - 1].qty)
  }

  function ShareOf(l: Lot): Share {
    Share(l.price, l.ts, l.source)
  }

  lemma {:induction false} UnitsAppend(a: seq<Lot>, b: seq<Lot>)
    ensures Units(a + b) == Units(a) + Units(b)
    decreases |b|
  {
    if b == [] {
      assert a + b == a;
    } else {
      var init, last := b[..|b| - 1], b[|b| - 1];
      UnitsAppend(a, init);
      assert (a + b)[..|a + b| - 1] == a + init;
      assert Units(a + b) == Units(a + init) + Copies(ShareOf(last), last.qty);
      assert Units(b) == Units(init) + Copies(ShareOf(last), last.qty);
      hide Units;
    }
  }

  lemma UnitsOne(l: Lot)
    ensures Units([l]) == Copies(ShareOf(l), l.qty)
  {
    assert [l][..0] == [];
  }

  lemma {:induction false} CopiesSplit(s: Share, m: int, n: int)
    requires m >= 0 && n >= 0
    ensures Copies(s, m + n) == Copies(s, m) + Copies(s, n)
    decreases n
  {
    if n > 0 {
      CopiesSplit(s, m, n - 1);
    }
  }

  lemma UnitsCons(l: Lot, rest: seq<Lot>)
    ensures Units([l] + rest) == Copies(ShareOf(l), l.qty) + Units(rest)
  {
    UnitsOne(l);
    UnitsAppend([l], rest);
  }

  lemma PrependLot(head: Lot, taken: seq<Lot>, left: seq<Lot>, rest: seq<Lot>)
    requires Units(taken) + Units(left) == Units(rest)
    ensures Units([head] + taken) + Units(left) == Units([head] + rest)
  {
    hide *;
    UnitsCons(head, rest);
    UnitsCons(head, taken);
    var c := Copies(ShareOf(head), head.qty);
    assert (c + Units(taken)) + Units(left) == c + (Units(taken) + Units(left));
  }

  lemma SplitLot(head: Lot, rest: seq<Lot>, n: int)
    requires 0 < n < head.qty
    ensures Units([head.(qty := n)]) + Units([head.(qty := head.qty - n)] + rest) == Units([head] + rest)
  {
    hide Units;
    hide Copies;
    var part, kept := head.(qty := n), head.(qty := head.qty - n);
    UnitsOne(part);
    UnitsCons(kept, rest);
    UnitsCons(head, rest);
    CopiesSplit(ShareOf(head), n, head.qty - n);
  }

  /** A sale takes its shares from the front of the queue and leaves the others in place. */
  lemma {:induction false} SaleTakesOldestShares(lots: seq<Lot>, n: int)
    requires SoundLots(lots)
    ensures Units(Taken(lots, n)) + Units(Left(lots, n)) == Units(lots)
    decreases |lots|
  {
    if n <= 0 || lots == [] {
      assert Taken(lots, n) == [] && Left(lots, n) == lots;
      assert [] + Units(lots) == Units(lots);
    } else {
      var head, rest := lots[0], lots[1..];
      assert lots == [head] + rest;
      if head.qty <= n {
        SaleTakesOldestShares(rest, n - head.qty);
        assert Taken(lots, n) == [head] + Taken(rest, n - head.qty);
        assert Left(lots, n) == Left(rest, n - head.qty);
        hide *;
        PrependLot(head, Taken(rest, n - head.qty), Left(rest, n - head.qty), rest);
      } else {
        assert Taken(lots, n) == [head.(qty := n)];
        assert Left(lots, n) == [head.(qty := head.qty - n)] + rest;
        hide *;
        SplitLot(head, rest, n);
      }
    }
  }

  function TotalQty(lots: seq<Lot>): int {
    if lots == [] then 0 else TotalQty(lots[..|lots| - 1]) + lots[|lots| - 1].qty
  }

  lemma {:induction false} TotalQtyCons(l: Lot, rest: seq<Lot>)
    ensures TotalQty([l] + rest) == l.qty + TotalQty(rest)
    decreases |rest|
  {
    if rest == [] {
      assert [l] + rest == [l] && [l][..0] == [];
    } else {
      TotalQtyCons(l, rest[..|rest| - 1]);
      assert ([l] + rest)[..|rest|] == [l] + rest[..|rest| - 1];
    }
  }

  lemma SingleLot(l: Lot)
    ensures TotalQty([l]) == l.qty && (l.qty >= 1 ==> SoundLots([l]))
  {
    assert [l][..0] == [];
  }

  lemma SoundTail(lots: seq<Lot>)
    requires SoundLots(lots) && lots != []
    ensures lots[0].qty >= 1 && SoundLots(lots[1..])
  {
  }

  lemma SoundCons(l: Lot, rest: seq<Lot>)
    requires l.qty >= 1 && SoundLots(rest)
    ensures SoundLots([l] + rest)
  {
  }

  /** A sale of n shares takes and misses n together, and misses some only if it empties the queue. */
  lemma {:induction false} SaleCounts(lots: seq<Lot>, n: int)
    requires SoundLots(lots)
    ensures TotalQty(Taken(lots, n)) + Unserved(lots, n) == n
    ensures Unserved(lots, n) > 0 ==> Left(lots, n) == [] || n <= 0
    ensures SoundLots(Left(lots, n)) && SoundLots(Taken(lots, n))
    decreases |lots|
  {
    hide *;
    if n <= 0 || lots == [] {
      NothingLeftToTake(lots, n);
      NoLots();
    } else {
      var head, rest := lots[0], lots[1..];
      SoundTail(lots);
      TakeFromHead(lots, n);
      if head.qty <= n {
        SaleCounts(rest, n - head.qty);
        if head.qty == n {
          NothingLeftToTake(rest, 0);
        }
        TotalQtyCons(head, Taken(rest, n - head.qty));
        SoundCons(head, Taken(rest, n - head.qty));
      } else {
        SingleLot(head.(qty := n));
        SoundCons(head.(qty := head.qty - n), rest);
      }
    }
  }

  lemma NoLots()
    ensures TotalQty([]) == 0 && SoundLots([])
  {
  }

  // ----- Prices that are missing -----

  /** A trade that was not filled opens, closes and shows nothing. */
  lemma UnfilledShowsNothing(lots: Lots, e: Event)
    requires !e.filled
    ensures After(lots, e) == lots && DetailOf(lots, e) == Unfilled
  {
  }

  /** A profit is known exactly if both prices and the quantity are. */
  lemma ProfitIsKnownIff(buy: real, sell: real, qty: int, isUs: bool)
    ensures NetRealizedPnl(buy, sell, qty, isUs) == None <==> Mul(Mul(buy, sell), qty as real) == 0.0
  {
    if buy != 0.0 && sell != 0.0 && qty != 0 {
      NonZeroProduct(buy, sell);
      NonZeroProduct(Mul(buy, sell), qty as real);
    }
  }

  lemma NonZeroProduct(x: real, y: real)
    requires x != 0.0 && y != 0.0
    ensures Mul(x, y) != 0.0
  {
  }

  /** With a fill price neither an estimate nor a hint matters. */
  lemma FillPriceWins(lots: Lots, e: Event, est: Option<real>, hint: Option<real>)
    requires e.fillPrice.Some?
    ensures var f := e.(estPrice := est, hint := hint);
      && After(lots, f) == After(lots, e) && DetailOf(lots, f) == DetailOf(lots, e)
      && PriceSource(f) == Actual && (OpensLot(e) ==> NewLot(e).price == e.fillPrice.value)
  {
    var f := e.(estPrice := est, hint := hint);
    FillPriceMatches(e, f, Taken(LotsOf(lots, e.ticker), e.qty));
    hide Taken;
    hide Left;
    hide Unserved;
    hide Matches;
    hide TotalPnl;
    hide NetRealizedPnl;
  }

  lemma {:induction false} FillPriceMatches(e: Event, f: Event, parts: seq<Lot>)
    requires e.ticker == f.ticker && e.fillPrice.Some? && e.fillPrice == f.fillPrice
    ensures Matches(e, parts) == Matches(f, parts)
  {
    if parts != [] {
      FillPriceMatches(e, f, parts[..|parts| - 1]);
    }
  }

  /** Without a fill price an estimate stands in for it: lots open at it and sales are matched at it, marked as
      estimated. */
  lemma EstimateStandsIn(lots: Lots, e: Event, price: real)
    requires price > 0.0 && e.fillPrice == None && e.estPrice == Some(price)
    ensures var f := e.(fillPrice := Some(price), estPrice := None);
      && PriceSource(f) == Actual && PriceSource(e) == Estimated
      && (OpensLot(e) <==> OpensLot(f))
      && (OpensLot(e) ==> NewLot(e) == NewLot(f).(source := Estimated))
      && (IsSale(e) ==> DetailOf(lots, e) == DetailOf(lots, f))
  {
    var f := e.(fillPrice := Some(price), estPrice := None);
    var taken := Taken(LotsOf(lots, e.ticker), e.qty);
    SamePrices(e, f, taken);
    hide Taken;
    hide Unserved;
    hide Matches;
    hide TotalPnl;
    hide NetRealizedPnl;
  }

  lemma {:induction false} SamePrices(e: Event, f: Event, parts: seq<Lot>)
    requires e.ticker == f.ticker && e.hint == f.hint
    requires EffectivePrice(e).Some? && EffectivePrice(e) == EffectivePrice(f)
    ensures Matches(e, parts) == Matches(f, parts)
  {
    if parts != [] {
      SamePrices(e, f, parts[..|parts| - 1]);
    }
  }

  /** Without either, a purchase opens nothing, and a sale is taken to have fetched the lot's price raised by the hint,
      or just the lot's price: in Korea it gains the hinted part of the cost. */
  lemma HintIsTheGain(e: Event, part: Lot)
    requires e.fillPrice == None && e.estPrice == None
    requires IsKrCode(e.ticker) && part.price > 0.0 && part.qty >= 1
    ensures !OpensLot(e) && PriceSource(e) == Unknown
    ensures MatchOf(e, part).pnl
      == if e.hint.Some? && e.hint.value != -100.0
         then Mul(Mul(part.price, part.qty as real), e.hint.value / 100.0) else 0.0
  {
    if e.hint.Some? {
      var rate, price, qty := e.hint.value / 100.0, part.price, part.qty as real;
      MulLeft(price, 1.0, rate);
      MulOne(price);
      MulAssociative(price, rate, qty);
      MulCommutes(rate, qty);
      MulAssociative(price, qty, rate);
      ScaledPrice(price, rate);
    }
    MulZero(part.qty as real);
    hide Mul;
  }

  lemma ScaledPrice(price: real, rate: real)
    requires price > 0.0
    ensures Mul(price, 1.0 + rate) == 0.0 <==> rate == -1.0
  {
    MulZero(price);
    if rate != -1.0 {
      NonZeroProduct(price, 1.0 + rate);
    }
    hide Mul;
  }

  /** A fill price is shown as it is; without one, and without an estimate, a sale shows what its first match is taken
      to have fetched. A cost of zero is no cost. */
  lemma PriceShown(e: Event, ms: seq<Match>, unmatched: int)
    ensures var d := SaleDetail(e, ms, unmatched);
      && (e.fillPrice.Some? ==> d.shownSell == e.fillPrice)
      && (e.fillPrice.None? && e.estPrice.Some? && e.estPrice.value != 0.0 ==> d.shownSell == e.estPrice)
      && (e.fillPrice.None? && e.estPrice.None? ==>
            d.shownSell == if ms == [] then None else Some(ms[0].sellPrice))
      && d.costBasis != Some(0.0)
      && (d.costBasis.Some? ==> d.costBasis == e.avgCost)
      && (d.noCostBasis <==> ms == [] && (e.avgCost.Some? ==> e.avgCost.value <= 0.0))
  {
    hide TotalPnl;
    hide NetRealizedPnl;
  }

  // ----- Over a whole history -----

  /** Every share bought of a ticker, in order. */
  function BoughtUnits(es: seq<Event>, tk: string): seq<Share> {
    if es == [] then []
    else
      var e := es[|es| - 1];
      BoughtUnits(es[..|es| - 1], tk) + if e.ticker == tk && OpensLot(e) then Units([NewLot(e)]) else []
  }

  /** Every share of a ticker that the sales were matched to, in order. */
  function SoldUnits(es: seq<Event>, tk: string): seq<Share> {
    if es == [] then []
    else
      var pre, e := es[..|es| - 1], es[|es| - 1];
      SoldUnits(pre, tk)
      + if e.ticker == tk && IsSale(e) then Units(Taken(LotsOf(Run(map[], pre), tk), e.qty)) else []
  }

  lemma QueueOf(lots: Lots, e: Event, tk: string)
    ensures LotsOf(After(lots, e), tk) == if e.ticker == tk then QueueAfter(LotsOf(lots, tk), e) else LotsOf(lots, tk)
  {
  }

  /** The queue with what was taken before it and what was put behind it. */
  lemma EventMovesShares(q: seq<Lot>, e: Event, sold: seq<Share>, bought: seq<Share>)
    requires SoundLots(q) && sold + Units(q) == bought
    ensures SoundLots(QueueAfter(q, e))
    ensures (sold + if IsSale(e) then Units(Taken(q, e.qty)) else []) + Units(QueueAfter(q, e))
         == bought + if OpensLot(e) then Units([NewLot(e)]) else []
  {
    hide Units;
    hide Taken;
    hide Left;
    if OpensLot(e) {
      UnitsAppend(q, [NewLot(e)]);
      assert sold + [] == sold;
    } else if IsSale(e) {
      SaleTakesOldestShares(q, e.qty);
      SaleCounts(q, e.qty);
      assert bought + [] == bought;
    } else {
      assert sold + [] == sold && bought + [] == bought;
    }
  }

  /** The matcher is a queue of single shares: after any history, for every ticker, the shares sold followed by
      the shares still open are exactly the shares bought, in order; and no open lot is empty. */
  lemma {:induction false} MatcherIsShareQueue(es: seq<Event>, tk: string)
    ensures SoldUnits(es, tk) + Units(LotsOf(Run(map[], es), tk)) == BoughtUnits(es, tk)
    ensures SoundLots(LotsOf(Run(map[], es), tk))
  {
    if es != [] {
      var pre, e := es[..|es| - 1], es[|es| - 1];
      MatcherIsShareQueue(pre, tk);
      var q := LotsOf(Run(map[], pre), tk);
      QueueOf(Run(map[], pre), e, tk);
      if e.ticker == tk {
        EventMovesShares(q, e, SoldUnits(pre, tk), BoughtUnits(pre, tk));
      } else {
        assert SoldUnits(pre, tk) + [] == SoldUnits(pre, tk);
        assert BoughtUnits(pre, tk) + [] == BoughtUnits(pre, tk);
      }
      hide Units;
      hide QueueAfter;
    }
  }

  function MatchedQty(ms: seq<Match>): int {
    if ms == [] then 0 else MatchedQty(ms[..|ms| - 1]) + ms[|ms| - 1].buyQty
  }

  lemma {:induction false} MatchedQtyIsTotal(e: Event, parts: seq<Lot>)
    ensures MatchedQty(Matches(e, parts)) == TotalQty(parts)
  {
    if parts != [] {
      MatchedQtyIsTotal(e, parts[..|parts| - 1]);
    }
  }

  /** Every sale's detail accounts for its whole quantity, and leaves shares unmatched only when none were open. */
  lemma SaleAccountsForQuantity(es: seq<Event>, e: Event)
    requires IsSale(e)
    ensures DetailOf(Run(map[], es), e).SellInfo?
    ensures var d := DetailOf(Run(map[], es), e).sell;
            && MatchedQty(d.matched) + d.unmatchedQty == e.qty
            && (d.unmatchedQty > 0 ==> LotsOf(After(Run(map[], es), e), e.ticker) == [] || e.qty <= 0)
  {
    var q := LotsOf(Run(map[], es), e.ticker);
    MatcherIsShareQueue(es, e.ticker);
    SaleCounts(q, e.qty);
    MatchedQtyIsTotal(e, Taken(q, e.qty));
    QueueOf(Run(map[], es), e, e.ticker);
    hide Units;
    hide Run;
  }

  /** The annotated history is the logged one in time order: nothing is lost or added, and trades with equal
      timestamps keep their logged order. */
  lemma HistoryIsSorted(events: seq<Event>, ts: real)
    ensures Ascending(SortBy(events, ByTime()), ByTime())
    ensures multiset(SortBy(events, ByTime())) == multiset(events)
    ensures Keep(SortBy(events, ByTime()), HasKey(ByTime(), ts)) == Keep(events, HasKey(ByTime(), ts))
  {
    SortProperties(events, ByTime());
    SortStable(events, ByTime(), ts);
  }
}
