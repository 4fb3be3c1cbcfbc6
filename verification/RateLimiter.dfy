/** The in-process sliding-window limiter (infra/rate_limit.py). The clock is an argument. */
module RateLimiter {
  import opened Common
  import opened Sorting

  // ----- One bucket -----

  /** Drops the leading timestamps that have left the window. */
  function Expire(q: seq<real>, cutoff: real): seq<real> {
    if q != [] && q[0] <= cutoff then Expire(q[1..], cutoff) else q
  }

  predicate Admits(max: int, win: real, q: seq<real>, now: real) {
    |Expire(q, now - win)| < max
  }

  function BucketAfter(max: int, win: real, q: seq<real>, now: real): seq<real> {
    if Admits(max, win, q, now) then Expire(q, now - win) + [now] else Expire(q, now - win)
  }

  /** None when the hit is admitted, otherwise the seconds to wait. */
  function RetryAfter(max: int, win: real, q: seq<real>, now: real): Option<real> {
    if Admits(max, win, q, now) then None
    else
      var kept := Expire(q, now - win);
      Some(Max(0.001, if kept == [] then win else win - (now - kept[0])))
  }

  class SlidingWindowLimiter {
    const max: int
    const win: real
    var buckets: map<string, seq<real>>

    constructor (maxHits: int, windowSec: real)
      ensures max == maxHits && win == windowSec && buckets == map[]
    {
      max, win, buckets := maxHits, windowSec, map[];
    }

    method Hit(key: string, now: real) returns (retry: Option<real>)
      modifies this
      ensures retry == RetryAfter(max, win, BucketOf(old(buckets), key), now)
      ensures buckets == old(buckets)[key := BucketAfter(max, win, BucketOf(old(buckets), key), now)]
    {
      var q := BucketOf(buckets, key);
      var cutoff := now - win;
      while q != [] && q[0] <= cutoff
        invariant Expire(q, cutoff) == Expire(BucketOf(old(buckets), key), cutoff)
        decreases |q|
      {
        q := q[1..];
      }
      if |q| >= max {
        buckets := buckets[key := q];
        retry := Some(Max(0.001, if q != [] then win - (now - q[0]) else win));
      } else {
        buckets := buckets[key := q + [now]];
        retry := None;
      }
    }

    method Reset(key: string)
      modifies this
      ensures buckets == old(buckets) - {key}
    {
      buckets := buckets - {key};
    }
  }

  function BucketOf(buckets: map<string, seq<real>>, key: string): seq<real> {
    if key in buckets then buckets[key] else []
  }

  // ----- Runs -----

  datatype Event = Hit(key: string, now: real) | Reset(key: string, now: real)

  function After(max: int, win: real, buckets: map<string, seq<real>>, e: Event): map<string, seq<real>> {
    match e
    case Hit(k, now) => buckets[k := BucketAfter(max, win, BucketOf(buckets, k), now)]
    case Reset(k, _) => buckets - {k}
  }

  /** The limiter's state after a run. */
  function Buckets(max: int, win: real, es: seq<Event>): map<string, seq<real>> {
    if es == [] then map[] else After(max, win, Buckets(max, win, es[..|es| - 1]), es[|es| - 1])
  }

  /** Every hit that was ever admitted for a key. */
  function EverAdmitted(max: int, win: real, es: seq<Event>, key: string): seq<real> {
    if es == [] then []
    else
      var before, e := es[..|es| - 1], es[|es| - 1];
      EverAdmitted(max, win, before, key)
      + if e.Hit? && e.key == key && Admits(max, win, BucketOf(Buckets(max, win, before), key), e.now)
        then [e.now] else []
  }

  /** Those of them since the key was last reset. */
  function Admitted(max: int, win: real, es: seq<Event>, key: string): seq<real> {
    if es == [] then []
    else
      var before, e := es[..|es| - 1], es[|es| - 1];
      var log := Admitted(max, win, before, key);
      if e.key != key then log
      else if e.Reset? then []
      else if Admits(max, win, BucketOf(Buckets(max, win, before), key), e.now) then log + [e.now]
      else log
  }

  /** The clock of a run never runs backwards and has not passed `now`. */
  ghost predicate ClockUpTo(es: seq<Event>, now: real) {
    && (forall i | 0 <= i < |es| :: es[i].now <= now)
    && (forall i, j | 0 <= i < j < |es| :: es[i].now <= es[j].now)
  }

  /** The bucket is the tail of the log since the last reset, and whatever it has forgotten had left the window by
      `now`. */
  ghost predicate Remembers(win: real, log: seq<real>, q: seq<real>, now: real) {
    && |q| <= |log|
    && q == log[|log| - |q|..]
    && forall i | 0 <= i < |log| - |q| :: log[i] <= now - win
  }

  ghost predicate Chronological(log: seq<real>, now: real) {
    && (forall i | 0 <= i < |log| :: log[i] <= now)
    && (forall i, j | 0 <= i < j < |log| :: log[i] <= log[j])
  }

  function Limit(max: int): nat {
    if max > 0 then max else 0
  }

  /** Two admissions with max - 1 or more others between them lie at least a whole window apart. */
  ghost predicate Spread(max: int, win: real, log: seq<real>) {
    if max <= 0 then log == []
    else forall i, j | 0 <= i < j < |log| && i + max <= j :: log[i] <= log[j] - win
  }

  lemma {:induction false} ExpireIsSuffix(q: seq<real>, cutoff: real)
    ensures |Expire(q, cutoff)| <= |q|
    ensures Expire(q, cutoff) == q[|q| - |Expire(q, cutoff)|..]
    ensures forall i | 0 <= i < |q| - |Expire(q, cutoff)| :: q[i] <= cutoff
    ensures Expire(q, cutoff) != [] ==> Expire(q, cutoff)[0] > cutoff
  {
    if q != [] && q[0] <= cutoff {
      ExpireIsSuffix(q[1..], cutoff);
      var d := |q[1..]| - |Expire(q[1..], cutoff)|;
      assert forall i | 1 <= i < d + 1 :: q[i] == q[1..][i - 1];
    }
  }

  lemma {:induction false} ExpireShrinks(q: seq<real>, cutoff: real)
    ensures |Expire(q, cutoff)| <= |q|
  {
    if q != [] && q[0] <= cutoff {
      ExpireShrinks(q[1..], cutoff);
    }
  }

  lemma ExpireRemembers(win: real, log: seq<real>, q: seq<real>, before: real, now: real)
    requires Remembers(win, log, q, before) && before <= now
    ensures Remembers(win, log, Expire(q, now - win), now)
  {
    ExpireIsSuffix(q, now - win);
    var d := |log| - |q|;
    forall i | 0 <= i < |log| - |Expire(q, now - win)|
      ensures log[i] <= now - win
    {
      assert i >= d ==> log[i] == q[i - d];
    }
  }

  lemma AppendRemembers(win: real, log: seq<real>, q: seq<real>, now: real)
    requires Remembers(win, log, q, now)
    ensures Remembers(win, log + [now], q + [now], now)
  {
  }

  lemma AdmissionSpreads(max: int, win: real, log: seq<real>, kept: seq<real>, now: real)
    requires Remembers(win, log, kept, now) && Spread(max, win, log) && |kept| < max
    ensures Spread(max, win, log + [now])
  {
  }

  /** The invariant of every run, for every key. */
  ghost predicate Sound(max: int, win: real, log: seq<real>, q: seq<real>, now: real) {
    && Remembers(win, log, q, now)
    && Chronological(log, now)
    && Spread(max, win, log)
    && |q| <= Limit(max)
  }

  lemma ChronologyGoesOn(log: seq<real>, before: real, now: real)
    requires Chronological(log, before) && before <= now
    ensures Chronological(log, now) && Chronological(log + [now], now)
  {
  }

  lemma HitKeepsSound(max: int, win: real, log: seq<real>, q: seq<real>, before: real, now: real)
    requires Sound(max, win, log, q, before) && before <= now
    ensures Sound(max, win, if Admits(max, win, q, now) then log + [now] else log,
                  BucketAfter(max, win, q, now), now)
  {
    ExpireShrinks(q, now - win);
    ExpireRemembers(win, log, q, before, now);
    ChronologyGoesOn(log, before, now);
    hide Expire;
    hide Remembers;
    hide Spread;
    hide Chronological;
    if Admits(max, win, q, now) {
      AppendRemembers(win, log, Expire(q, now - win), now);
      AdmissionSpreads(max, win, log, Expire(q, now - win), now);
    }
  }

  lemma TimePasses(max: int, win: real, log: seq<real>, q: seq<real>, before: real, now: real)
    requires Sound(max, win, log, q, before) && before <= now
    ensures Sound(max, win, log, q, now)
  {
  }

  lemma {:induction false} LimiterInvariant(max: int, win: real, es: seq<Event>, now: real, key: string)
    requires ClockUpTo(es, now)
    ensures Sound(max, win, Admitted(max, win, es, key), BucketOf(Buckets(max, win, es), key), now)
    decreases |es|
  {
    hide *;
    if es == [] {
      StartIsSound(max, win, now, key);
    } else {
      var n := |es| - 1;
      ClockOfPrefix(es, now);
      LimiterInvariant(max, win, es[..n], es[n].now, key);
      EventKeepsSound(max, win, es[..n], es[n], key, now);
      assert es == es[..n] + [es[n]];
    }
  }

  lemma StartIsSound(max: int, win: real, now: real, key: string)
    ensures Sound(max, win, Admitted(max, win, [], key), BucketOf(Buckets(max, win, []), key), now)
  {
  }

  lemma EventKeepsSound(max: int, win: real, before: seq<Event>, e: Event, key: string, now: real)
    requires e.now <= now
    requires Sound(max, win, Admitted(max, win, before, key), BucketOf(Buckets(max, win, before), key), e.now)
    ensures Sound(max, win, Admitted(max, win, before + [e], key), BucketOf(Buckets(max, win, before + [e]), key), now)
  {
    var es, time := before + [e], e.now;
    assert es[..|es| - 1] == before && es[|es| - 1] == e;
    var log, q := Admitted(max, win, before, key), BucketOf(Buckets(max, win, before), key);
    var log', q' := Admitted(max, win, es, key), BucketOf(Buckets(max, win, es), key);
    if e.key != key {
      assert log' == log && q' == q;
      hide *;
      TimePasses(max, win, log, q, time, now);
    } else if e.Hit? {
      assert q' == BucketAfter(max, win, q, time);
      assert log' == if Admits(max, win, q, time) then log + [time] else log;
      hide *;
      HitKeepsSound(max, win, log, q, time, time);
      TimePasses(max, win, log', q', time, now);
    } else {
      assert log' == [] && q' == [];
      FreshIsSound(max, win, now);
    }
  }

  lemma FreshIsSound(max: int, win: real, now: real)
    ensures Sound(max, win, [], [], now)
  {
  }

  lemma ClockOfPrefix(es: seq<Event>, now: real)
    requires ClockUpTo(es, now) && es != []
    ensures es[|es| - 1].now <= now
    ensures ClockUpTo(es[..|es| - 1], es[|es| - 1].now)
  {
  }

  function InWindow(start: real, win: real): real -> bool {
    t => start <= t < start + win
  }

  lemma {:induction false} CountAtMost(s: seq<real>, p: real -> bool)
    ensures CountIf(s, p) <= |s|
  {
    if s != [] {
      CountAtMost(s[..|s| - 1], p);
    }
  }

  lemma {:induction false} CountNone(s: seq<real>, p: real -> bool)
    requires forall i | 0 <= i < |s| :: !p(s[i])
    ensures CountIf(s, p) == 0
  {
    if s != [] {
      CountNone(s[..|s| - 1], p);
    }
  }

  /** If the newest admission is in the window, only the newest max can be. */
  lemma NewestInWindow(max: int, win: real, log: seq<real>, start: real)
    requires Spread(max, win, log) && 0 < max < |log|
    requires forall i, j | 0 <= i < j < |log| :: log[i] <= log[j]
    requires log[|log| - 1] < start + win
    ensures CountIf(log, InWindow(start, win)) <= max
  {
    hide CountIf;
    var n := |log|;
    var early, recent := log[..n - max], log[n - max..];
    assert log == early + recent;
    CountIfAppend(early, recent, InWindow(start, win));
    CountAtMost(recent, InWindow(start, win));
    var last := log[n - 1 - max];
    assert last <= log[n - 1] - win;
    forall i | 0 <= i < |early|
      ensures !InWindow(start, win)(early[i])
    {
      assert early[i] == log[i] <= last;
    }
    CountNone(early, InWindow(start, win));
  }

  lemma {:induction false} SpreadBoundsWindow(max: int, win: real, log: seq<real>, start: real)
    requires Spread(max, win, log)
    requires forall i, j | 0 <= i < j < |log| :: log[i] <= log[j]
    ensures CountIf(log, InWindow(start, win)) <= Limit(max)
    decreases |log|
  {
    if |log| <= Limit(max) {
      CountAtMost(log, InWindow(start, win));
    } else if log[|log| - 1] < start + win {
      NewestInWindow(max, win, log, start);
    } else {
      SpreadBoundsWindow(max, win, log[..|log| - 1], start);
    }
  }

  // ----- Windows -----

  /** How often a key was reset within a window. */
  function ResetsIn(es: seq<Event>, key: string, start: real, win: real): nat {
    if es == [] then 0
    else
      var e := es[|es| - 1];
      ResetsIn(es[..|es| - 1], key, start, win)
      + if e.Reset? && e.key == key && start <= e.now < start + win then 1 else 0
  }

  /** The largest number of hits that may be admitted between n resets. */
  function Allowance(max: int, n: nat): nat {
    if n == 0 then Limit(max) else Allowance(max, n - 1) + Limit(max)
  }

  lemma {:induction false} AllowanceIs(max: int, n: nat)
    ensures Allowance(max, n) == Limit(max) * (n + 1)
  {
    if n > 0 {
      AllowanceIs(max, n - 1);
    }
  }

  lemma {:induction false} NothingAhead(max: int, win: real, es: seq<Event>, now: real, key: string, start: real)
    requires ClockUpTo(es, now) && now < start
    ensures CountIf(EverAdmitted(max, win, es, key), InWindow(start, win)) == 0
  {
    if es != [] {
      ClockOfPrefix(es, now);
      NothingAhead(max, win, es[..|es| - 1], es[|es| - 1].now, key, start);
      EverAdmittedCount(max, win, es[..|es| - 1], es[|es| - 1], key, start);
      assert es == es[..|es| - 1] + [es[|es| - 1]];
      hide CountIf;
    }
  }

  /** One event's contribution to the count of a window. */
  lemma EverAdmittedCount(max: int, win: real, before: seq<Event>, e: Event, key: string, start: real)
    ensures CountIf(EverAdmitted(max, win, before + [e], key), InWindow(start, win))
      == CountIf(EverAdmitted(max, win, before, key), InWindow(start, win))
         + if e.Hit? && e.key == key && Admits(max, win, BucketOf(Buckets(max, win, before), key), e.now)
              && start <= e.now < start + win then 1 else 0
  {
    assert (before + [e])[..|before|] == before;
    var log := EverAdmitted(max, win, before, key);
    CountIfSnoc(log, e.now, InWindow(start, win));
    assert log + [] == log;
    hide CountIf;
    hide Admits;
    hide Buckets;
    hide BucketOf;
  }

  lemma AdmittedCount(max: int, win: real, before: seq<Event>, e: Event, key: string, start: real)
    requires !(e.Reset? && e.key == key)
    ensures CountIf(Admitted(max, win, before + [e], key), InWindow(start, win))
      == CountIf(Admitted(max, win, before, key), InWindow(start, win))
         + if e.Hit? && e.key == key && Admits(max, win, BucketOf(Buckets(max, win, before), key), e.now)
              && start <= e.now < start + win then 1 else 0
  {
    assert (before + [e])[..|before|] == before;
    CountIfSnoc(Admitted(max, win, before, key), e.now, InWindow(start, win));
    hide CountIf;
    hide Admits;
    hide Buckets;
    hide BucketOf;
  }

  /** While the clock is still in or before the window, all but the hits since the last reset are paid for by the
      resets in it. */
  ghost predicate Counted(max: int, win: real, es: seq<Event>, now: real, key: string, start: real) {
    var ever, recent := EverAdmitted(max, win, es, key), Admitted(max, win, es, key);
    var n := ResetsIn(es, key, start, win);
    && CountIf(ever, InWindow(start, win)) <= Allowance(max, n)
    && (now < start + win ==>
          CountIf(ever, InWindow(start, win)) + Limit(max) <= Allowance(max, n) + CountIf(recent, InWindow(start, win)))
  }

  lemma SegmentBound(max: int, win: real, es: seq<Event>, now: real, key: string, start: real)
    requires ClockUpTo(es, now)
    ensures CountIf(Admitted(max, win, es, key), InWindow(start, win)) <= Limit(max)
  {
    LimiterInvariant(max, win, es, now, key);
    SpreadBoundsWindow(max, win, Admitted(max, win, es, key), start);
  }

  lemma {:induction false} WindowIsCounted(max: int, win: real, es: seq<Event>, now: real, key: string, start: real)
    requires ClockUpTo(es, now)
    ensures Counted(max, win, es, now, key, start)
  {
    if es != [] {
      var before, e := es[..|es| - 1], es[|es| - 1];
      assert es == before + [e];
      ClockOfPrefix(es, now);
      WindowIsCounted(max, win, before, e.now, key, start);
      SegmentBound(max, win, es, now, key, start);
      hide Counted;
      if e.Reset? && e.key == key {
        ResetIsCounted(max, win, before, e, now, key, start);
      } else {
        OtherEventIsCounted(max, win, before, e, now, key, start);
      }
    }
  }

  lemma ResetsStep(before: seq<Event>, e: Event, key: string, start: real, win: real)
    ensures ResetsIn(before + [e], key, start, win)
      == ResetsIn(before, key, start, win) + if e.Reset? && e.key == key && start <= e.now < start + win then 1 else 0
  {
    assert (before + [e])[..|before|] == before;
  }

  lemma ResetIsCounted(max: int, win: real, before: seq<Event>, e: Event, now: real, key: string, start: real)
    requires e.Reset? && e.key == key && ClockUpTo(before, e.now) && e.now <= now
    requires Counted(max, win, before, e.now, key, start)
    ensures Counted(max, win, before + [e], now, key, start)
  {
    EverAdmittedCount(max, win, before, e, key, start);
    ResetsStep(before, e, key, start, win);
    assert (before + [e])[..|before|] == before;
    assert Admitted(max, win, before + [e], key) == [];
    SegmentBound(max, win, before, e.now, key, start);
    if e.now < start {
      NothingAhead(max, win, before, e.now, key, start);
    }
    hide EverAdmitted;
    hide Admitted;
    hide ResetsIn;
  }

  lemma OtherEventIsCounted(max: int, win: real, before: seq<Event>, e: Event, now: real, key: string, start: real)
    requires !(e.Reset? && e.key == key) && e.now <= now
    requires Counted(max, win, before, e.now, key, start)
    requires CountIf(Admitted(max, win, before + [e], key), InWindow(start, win)) <= Limit(max)
    ensures Counted(max, win, before + [e], now, key, start)
  {
    EverAdmittedCount(max, win, before, e, key, start);
    AdmittedCount(max, win, before, e, key, start);
    ResetsStep(before, e, key, start, win);
    hide EverAdmitted;
    hide Admitted;
    hide ResetsIn;
    hide CountIf;
    hide Allowance;
    hide Admits;
    hide BucketOf;
    hide Buckets;
  }

  /** Whatever the run, a half-open window of length win holds at most max admitted hits of a key for each time the
      key was reset in it, and max more; without a reset in it, at most max. */
  lemma WindowBound(max: int, win: real, es: seq<Event>, now: real, key: string, start: real)
    requires ClockUpTo(es, now)
    ensures CountIf(EverAdmitted(max, win, es, key), InWindow(start, win))
      <= Limit(max) * (ResetsIn(es, key, start, win) + 1)
    ensures ResetsIn(es, key, start, win) == 0 ==>
      CountIf(EverAdmitted(max, win, es, key), InWindow(start, win)) <= Limit(max)
  {
    WindowIsCounted(max, win, es, now, key, start);
    AllowanceIs(max, ResetsIn(es, key, start, win));
    hide CountIf;
    hide EverAdmitted;
    hide ResetsIn;
    hide Limit;
  }

  /** The bound with resets is met: one hit a minute, but two within a second with a reset between them. */
  lemma ResetReopensWindow()
    ensures var es := [Hit("k", 0.0), Reset("k", 0.5), Hit("k", 1.0)];
      EverAdmitted(1, 60.0, es, "k") == [0.0, 1.0] && ResetsIn(es, "k", 0.0, 60.0) == 1
  {
    var a, b, c := Hit("k", 0.0), Reset("k", 0.5), Hit("k", 1.0);
    var es := [a, b, c];
    assert es[..2] == [a, b] && [a, b][..1] == [a] && [a][..0] == [];
    assert Buckets(1, 60.0, [a]) == After(1, 60.0, map[], a);
    assert Buckets(1, 60.0, [a, b]) == After(1, 60.0, Buckets(1, 60.0, [a]), b);
    assert BucketOf(Buckets(1, 60.0, [a, b]), "k") == [];
    assert EverAdmitted(1, 60.0, [a], "k") == [0.0];
    assert EverAdmitted(1, 60.0, [a, b], "k") == [0.0];
    assert ResetsIn([a], "k", 0.0, 60.0) == 0;
  }

  lemma FullBucket(max: int, win: real, kept: seq<real>, now: real, later: real)
    requires |kept| == max >= 1 && now <= later
    ensures Admits(max, win, kept, later) <==> later >= kept[0] + win
  {
    if kept[0] <= later - win {
      ExpireShrinks(kept[1..], later - win);
    }
  }

  /** After a refusal the next hit of that key succeeds exactly from (oldest kept + win) on, and the returned
      time is the wait until then, though never less than a millisecond. */
  lemma RetryIsExact(max: int, win: real, es: seq<Event>, key: string, q: seq<real>, now: real,
                     later: real, retry: real)
    requires max >= 1 && ClockUpTo(es, now) && now <= later
    requires q == BucketOf(Buckets(max, win, es), key)
    requires RetryAfter(max, win, q, now) == Some(retry)
    ensures |BucketAfter(max, win, q, now)| == max
    ensures Admits(max, win, BucketAfter(max, win, q, now), later) <==> later >= BucketAfter(max, win, q, now)[0] + win
    ensures retry == Max(0.001, BucketAfter(max, win, q, now)[0] + win - now)
  {
    BucketWithinLimit(max, win, es, now, key);
    hide *;
    RefusedBucket(max, win, q, now, retry);
    FullBucket(max, win, BucketAfter(max, win, q, now), now, later);
  }

  lemma BucketWithinLimit(max: int, win: real, es: seq<Event>, now: real, key: string)
    requires max >= 1 && ClockUpTo(es, now)
    ensures |BucketOf(Buckets(max, win, es), key)| <= max
  {
    LimiterInvariant(max, win, es, now, key);
  }

  lemma RefusedBucket(max: int, win: real, q: seq<real>, now: real, retry: real)
    requires max >= 1 && |q| <= max
    requires RetryAfter(max, win, q, now) == Some(retry)
    ensures |BucketAfter(max, win, q, now)| == max
    ensures retry == Max(0.001, BucketAfter(max, win, q, now)[0] + win - now)
  {
    ExpireShrinks(q, now - win);
    hide Expire;
  }

  /** Hits and resets of one key never touch another key's bucket. */
  lemma KeysAreIndependent(max: int, win: real, buckets: map<string, seq<real>>, e: Event, key: string)
    requires e.key != key
    ensures BucketOf(After(max, win, buckets, e), key) == BucketOf(buckets, key)
  {
  }

  /** With a limit of zero nothing is ever admitted. */
  lemma {:induction false} ZeroLimitBlocks(max: int, win: real, es: seq<Event>, key: string)
    requires max <= 0
    ensures EverAdmitted(max, win, es, key) == []
  {
    if es != [] {
      ZeroLimitBlocks(max, win, es[..|es| - 1], key);
    }
  }
}
