/** The oracle's rate limiter (oracle/app/ratelimit.py).

    Beside the limiter's own dictionary of deques, a ghost log keeps every accepted event for ever.
    `Allow` is proved to answer from that log: popping and sweeping are never visible. The clock is
    a parameter of the calls, and never goes back. */
module RateLimiter {

  datatype Hit = Hit(key: string, at: real)

  /** The accepted times of one key, oldest first. */
  function TimesOf(log: seq<Hit>, key: string): seq<real> {
    if log == [] then []
    else
      var front, h := TimesOf(log[..|log| - 1], key), log[|log| - 1];
      if h.key == key then front + [h.at] else front
  }

  function Fresh(times: seq<real>, cutoff: real): seq<real> {
    if times == [] then []
    else
      var front, t := Fresh(times[..|times| - 1], cutoff), times[|times| - 1];
      if t > cutoff then front + [t] else front
  }

  /** The unswept answer: fewer than `limit` accepted events of the key lie in the window ending now. */
  predicate Admits(log: seq<Hit>, limit: int, window: real, key: string, now: real) {
    |Fresh(TimesOf(log, key), now - window)| < limit
  }

  ghost predicate InOrder(times: seq<real>) {
    forall i, j :: 0 <= i < j < |times| ==> times[i] <= times[j]
  }

  lemma {:induction false} FreshTwice(times: seq<real>, c: real, d: real)
    requires c <= d
    ensures Fresh(Fresh(times, c), d) == Fresh(times, d)
  {
    if times != [] { FreshTwice(times[..|times| - 1], c, d); }
  }

  lemma {:induction false} FreshAppend(a: seq<real>, b: seq<real>, cutoff: real)
    ensures Fresh(a + b, cutoff) == Fresh(a, cutoff) + Fresh(b, cutoff)
  {
    if b == [] {
      assert a + b == a;
    } else {
      assert (a + b)[..|a + b| - 1] == a + b[..|b| - 1];
      FreshAppend(a, b[..|b| - 1], cutoff);
    }
  }

  lemma {:induction false} FreshKeepsAll(times: seq<real>, cutoff: real)
    requires forall i :: 0 <= i < |times| ==> times[i] > cutoff
    ensures Fresh(times, cutoff) == times
  {
    if times != [] {
      FreshKeepsAll(times[..|times| - 1], cutoff);
      assert times == times[..|times| - 1] + [times[|times| - 1]];
    }
  }

  lemma {:induction false} FreshDropsAll(times: seq<real>, cutoff: real)
    requires forall i :: 0 <= i < |times| ==> times[i] <= cutoff
    ensures Fresh(times, cutoff) == []
  {
    if times != [] { FreshDropsAll(times[..|times| - 1], cutoff); }
  }

  lemma {:induction false} FreshMembers(times: seq<real>, cutoff: real)
    requires InOrder(times)
    ensures InOrder(Fresh(times, cutoff)) && forall t :: t in Fresh(times, cutoff) ==> t in times && t > cutoff
  {
    if times != [] {
      var front := times[..|times| - 1];
      FreshMembers(front, cutoff);
      var f := Fresh(front, cutoff);
      forall i | 0 <= i < |f| ensures f[i] <= times[|times| - 1] {
        assert f[i] in f;
        var k :| 0 <= k < |front| && front[k] == f[i];
      }
    }
  }

  /** Drops the times at the front that have left the window. */
  method Expire(times: seq<real>, cutoff: real) returns (dq: seq<real>)
    requires InOrder(times)
    ensures dq == Fresh(times, cutoff)
  {
    hide Fresh;
    dq := times;
    ghost var popped := 0;
    while dq != [] && dq[0] <= cutoff
      invariant popped <= |times| && dq == times[popped..]
      invariant forall i :: 0 <= i < popped ==> times[i] <= cutoff
      decreases |dq|
    {
      dq := dq[1..];
      popped := popped + 1;
    }
    PoppedIsExpired(times, popped, cutoff);
  }

  lemma PoppedIsExpired(times: seq<real>, popped: nat, cutoff: real)
    requires InOrder(times) && popped <= |times|
    requires forall i :: 0 <= i < popped ==> times[i] <= cutoff
    requires popped < |times| ==> times[popped] > cutoff
    ensures Fresh(times, cutoff) == times[popped..]
  {
    hide Fresh;
    assert times == times[..popped] + times[popped..];
    FreshAppend(times[..popped], times[popped..], cutoff);
    FreshDropsAll(times[..popped], cutoff);
    FreshKeepsAll(times[popped..], cutoff);
  }

  /** The sweep's two loops: expire every deque, then drop the empty ones. */
  method Purge(before: map<string, seq<real>>, cutoff: real) returns (hits: map<string, seq<real>>)
    requires forall k :: k in before ==> InOrder(before[k])
    ensures hits == Swept(before, cutoff)
  {
    hide Fresh, InOrder;
    hits := before;
    var todo, dead: set<string> := hits.Keys, {};
    while todo != {}
      invariant todo <= before.Keys && dead <= before.Keys - todo && hits.Keys == before.Keys
      invariant forall k :: k in before ==> hits[k] == if k in todo then before[k] else Fresh(before[k], cutoff)
      invariant forall k :: k in before && k !in todo ==> (k in dead <==> Fresh(before[k], cutoff) == [])
      decreases |todo|
    {
      var k :| k in todo;
      var dq := Expire(hits[k], cutoff);
      hits := hits[k := dq];
      if dq == [] { dead := dead + {k}; }
      todo := todo - {k};
    }
    hits := map k | k in hits && k !in dead :: hits[k];
  }

  class FixedWindowLimiter {
    const limit: int
    const window: real
    const threshold: nat
    var hits: map<string, seq<real>>
    ghost var log: seq<Hit>
    ghost var clock: real

    ghost predicate Valid()
      reads this
    {
      Faithful(hits, log, clock, window)
    }

    constructor (limit: int, window: real, threshold: int, ghost start: real)
      ensures Valid() && hits == map[] && log == [] && clock == start
      ensures this.limit == limit && this.window == window && this.threshold == if threshold < 0 then 0 else threshold
    {
      this.limit, this.window := limit, window;
      this.threshold := if threshold < 0 then 0 else threshold;
      hits, log, clock := map[], [], start;
    }

    /** A limiter switched off lets everything pass. Otherwise the answer is the unswept one. */
    method Allow(key: string, now: real) returns (ok: bool)
      requires Valid() && clock <= now
      modifies this
      ensures Valid()
      ensures limit <= 0 ==> ok && log == old(log) && hits == old(hits)
      ensures limit > 0 ==>
                && clock == now
                && ok == Admits(old(log), limit, window, key, now)
                && log == old(log) + if ok then [Hit(key, now)] else []
    {
      hide Fresh, TimesOf, InOrder, Faithful;
      if limit <= 0 { return true; }
      TimePasses(hits, log, clock, now, window);
      clock := now;
      if threshold > 0 && |hits| > threshold { Sweep(now); }
      var dq := if key in hits then hits[key] else [];
      HeldIsInOrder(hits, log, key, now, window);
      dq := Expire(dq, now - window);
      ExpiredStays(hits, log, key, now, window);
      ghost var held := hits;
      hits := hits[key := dq];
      if |dq| >= limit { return false; }
      AcceptedStays(held, log, key, now, window);
      hits := hits[key := dq + [now]];
      assert hits == held[key := dq + [now]];
      log := log + [Hit(key, now)];
      return true;
    }

    /** Every fully aged key is gone, and nothing a window can still see has changed. */
    method Sweep(now: real)
      requires Valid() && clock == now
      modifies this`hits
      ensures Valid()
      ensures hits == Swept(old(hits), now - window)
      ensures forall k :: k in hits ==> hits[k] != [] && hits[k][0] > now - window
    {
      hide Fresh, TimesOf;
      SweptIsFaithful(hits, log, now, window);
      hits := Purge(hits, now - window);
    }
  }

  /** An expired deque stays in order, also with the new time at its end. */
  lemma ExpiredIsGood(times: seq<real>, now: real, window: real)
    requires InOrder(times) && forall i :: 0 <= i < |times| ==> times[i] <= now
    ensures var dq := Fresh(times, now - window);
            && InOrder(dq) && InOrder(dq + [now])
            && forall i :: 0 <= i < |dq| ==> dq[i] <= now
  {
    FreshMembers(times, now - window);
    hide Fresh;
    var dq := Fresh(times, now - window);
    forall i | 0 <= i < |dq| ensures dq[i] <= now {
      assert dq[i] in dq;
      var k :| 0 <= k < |times| && times[k] == dq[i];
    }
  }

  /** What a key's deque holds; a missing key holds nothing. */
  ghost function Held(hits: map<string, seq<real>>, key: string): seq<real> {
    if key in hits then hits[key] else []
  }

  ghost function Swept(hits: map<string, seq<real>>, cutoff: real): map<string, seq<real>> {
    map k | k in hits && Fresh(hits[k], cutoff) != [] :: Fresh(hits[k], cutoff)
  }

  /** As far as any later window can see, the deques hold what the log holds, in order. */
  ghost predicate Faithful(hits: map<string, seq<real>>, log: seq<Hit>, now: real, window: real) {
    && (forall k :: Fresh(Held(hits, k), now - window) == Fresh(TimesOf(log, k), now - window))
    && (forall k :: k in hits ==> InOrder(hits[k]) && forall i :: 0 <= i < |hits[k]| ==> hits[k][i] <= now)
  }

  lemma TimePasses(hits: map<string, seq<real>>, log: seq<Hit>, before: real, now: real, window: real)
    requires before <= now && Faithful(hits, log, before, window)
    ensures Faithful(hits, log, now, window)
  {
    hide Fresh;
    forall k ensures Fresh(Held(hits, k), now - window) == Fresh(TimesOf(log, k), now - window) {
      FreshTwice(Held(hits, k), before - window, now - window);
      FreshTwice(TimesOf(log, k), before - window, now - window);
    }
  }

  lemma SweptIsFaithful(hits: map<string, seq<real>>, log: seq<Hit>, now: real, window: real)
    requires Faithful(hits, log, now, window)
    ensures var swept := Swept(hits, now - window);
            && Faithful(swept, log, now, window)
            && forall k :: k in swept ==> swept[k] != [] && swept[k][0] > now - window
  {
    hide Fresh;
    var swept := Swept(hits, now - window);
    forall k ensures Fresh(Held(swept, k), now - window) == Fresh(TimesOf(log, k), now - window) {
      FreshTwice(Held(hits, k), now - window, now - window);
    }
    forall k | k in swept ensures InOrder(swept[k]) && forall i :: 0 <= i < |swept[k]| ==> swept[k][i] <= now {
      ExpiredIsGood(hits[k], now, window);
    }
    forall k | k in swept ensures swept[k][0] > now - window {
      FreshMembers(hits[k], now - window);
      assert swept[k][0] in swept[k];
    }
  }

  lemma HeldIsInOrder(hits: map<string, seq<real>>, log: seq<Hit>, key: string, now: real, window: real)
    requires Faithful(hits, log, now, window)
    ensures InOrder(Held(hits, key))
  {}

  lemma ExpiredStays(hits: map<string, seq<real>>, log: seq<Hit>, key: string, now: real, window: real)
    requires Faithful(hits, log, now, window)
    ensures var dq := Fresh(Held(hits, key), now - window);
            dq == Fresh(TimesOf(log, key), now - window) && Faithful(hits[key := dq], log, now, window)
  {
    hide Fresh;
    FreshTwice(Held(hits, key), now - window, now - window);
    ExpiredIsGood(Held(hits, key), now, window);
    var next := hits[key := Fresh(Held(hits, key), now - window)];
    forall k ensures Fresh(Held(next, k), now - window) == Fresh(TimesOf(log, k), now - window) {
      assert Fresh(Held(hits, k), now - window) == Fresh(TimesOf(log, k), now - window);
    }
  }

  lemma AcceptedStays(hits: map<string, seq<real>>, log: seq<Hit>, key: string, now: real, window: real)
    requires Faithful(hits, log, now, window)
    ensures Faithful(hits[key := Fresh(Held(hits, key), now - window) + [now]], log + [Hit(key, now)], now, window)
  {
    var more, dq := log + [Hit(key, now)], Fresh(Held(hits, key), now - window);
    hide Fresh, TimesOf;
    ExpiredIsGood(Held(hits, key), now, window);
    FreshTwice(Held(hits, key), now - window, now - window);
    FreshAppend(dq, [now], now - window);
    FreshAppend(TimesOf(log, key), [now], now - window);
    var next := hits[key := dq + [now]];
    forall k ensures Fresh(Held(next, k), now - window) == Fresh(TimesOf(more, k), now - window) {
      assert Fresh(Held(hits, k), now - window) == Fresh(TimesOf(log, k), now - window);
      TimesOfAppend(log, Hit(key, now), k);
    }
  }

  lemma TimesOfAppend(log: seq<Hit>, h: Hit, key: string)
    ensures TimesOf(log + [h], key) == if h.key == key then TimesOf(log, key) + [h.at] else TimesOf(log, key)
  {
    assert (log + [h])[..|log|] == log;
  }

  // No window holds more than the limit.

  datatype Call = Call(key: string, now: real)

  /** What one call adds to the unswept log. */
  function Logged(log: seq<Hit>, c: Call, limit: int, window: real): seq<Hit> {
    if Admits(log, limit, window, c.key, c.now) then log + [Hit(c.key, c.now)] else log
  }

  /** The log of any run of calls against the unswept reference, which `Allow` follows step by step. */
  function LogOf(calls: seq<Call>, limit: int, window: real): seq<Hit> {
    if calls == [] then []
    else Logged(LogOf(calls[..|calls| - 1], limit, window), calls[|calls| - 1], limit, window)
  }

  ghost predicate ClockForward(calls: seq<Call>) {
    forall i, j :: 0 <= i < j < |calls| ==> calls[i].now <= calls[j].now
  }

  /** The accepted times that lie in (lo, hi]. */
  function InWindow(times: seq<real>, lo: real, hi: real): seq<real> {
    if times == [] then []
    else
      var front, t := InWindow(times[..|times| - 1], lo, hi), times[|times| - 1];
      if lo < t <= hi then front + [t] else front
  }

  /** Each time was admitted against the ones before it. */
  ghost predicate EachAdmitted(times: seq<real>, limit: int, window: real) {
    forall i :: 0 <= i < |times| ==> |Fresh(times[..i], times[i] - window)| < limit
  }

  lemma {:induction false} FewerFresh(times: seq<real>, c: real, d: real)
    requires c <= d
    ensures |Fresh(times, d)| <= |Fresh(times, c)|
  {
    if times != [] { FewerFresh(times[..|times| - 1], c, d); }
  }

  lemma {:induction false} WindowIsFresh(times: seq<real>, lo: real, hi: real)
    ensures |InWindow(times, lo, hi)| <= |Fresh(times, lo)|
  {
    if times != [] { WindowIsFresh(times[..|times| - 1], lo, hi); }
  }

  lemma {:induction false} WindowBound(times: seq<real>, limit: nat, window: real, t: real)
    requires InOrder(times) && EachAdmitted(times, limit, window)
    ensures |InWindow(times, t - window, t)| <= limit
  {
    hide Fresh;
    if times != [] {
      var m := |times| - 1;
      var front, last := times[..m], times[m];
      forall i | 0 <= i < m ensures |Fresh(front[..i], front[i] - window)| < limit {
        assert front[..i] == times[..i];
      }
      WindowBound(front, limit, window, t);
      if t - window < last <= t {
        WindowIsFresh(front, t - window, t);
        FewerFresh(front, last - window, t - window);
      }
    }
  }

  /** Accepted times in order, each admitted, none after `now`. */
  ghost predicate GoodTimes(times: seq<real>, limit: int, window: real, now: real) {
    EachAdmitted(times, limit, window) && InOrder(times) && forall i :: 0 <= i < |times| ==> times[i] <= now
  }

  lemma {:induction false} LogIsAdmitted(calls: seq<Call>, limit: nat, window: real, key: string, now: real)
    requires ClockForward(calls) && (calls != [] ==> calls[|calls| - 1].now <= now)
    ensures GoodTimes(TimesOf(LogOf(calls, limit, window), key), limit, window, now)
  {
    if calls == [] {
      NothingLogged(limit, window, now);
    } else {
      hide TimesOf, GoodTimes, Logged;
      var front, c := calls[..|calls| - 1], calls[|calls| - 1];
      LogIsAdmitted(front, limit, window, key, c.now);
      LogStep(LogOf(front, limit, window), c, limit, window, key, now);
    }
  }

  lemma NothingLogged(limit: nat, window: real, now: real)
    ensures forall key :: GoodTimes(TimesOf([], key), limit, window, now)
  {}

  lemma LogStep(log: seq<Hit>, c: Call, limit: nat, window: real, key: string, now: real)
    requires GoodTimes(TimesOf(log, key), limit, window, c.now) && c.now <= now
    ensures GoodTimes(TimesOf(Logged(log, c, limit, window), key), limit, window, now)
  {
    hide Fresh, TimesOf, GoodTimes;
    var times := TimesOf(log, key);
    TimesOfAppend(log, Hit(c.key, c.now), key);
    LaterIsGood(times, limit, window, c.now, now);
    if Admits(log, limit, window, c.key, c.now) && c.key == key {
      AdmittedSnoc(times, limit, window, c.now);
      LaterIsGood(times + [c.now], limit, window, c.now, now);
    }
  }

  lemma LaterIsGood(times: seq<real>, limit: nat, window: real, before: real, now: real)
    requires GoodTimes(times, limit, window, before) && before <= now
    ensures GoodTimes(times, limit, window, now)
  {}

  lemma AdmittedSnoc(times: seq<real>, limit: nat, window: real, now: real)
    requires GoodTimes(times, limit, window, now) && |Fresh(times, now - window)| < limit
    ensures GoodTimes(times + [now], limit, window, now)
  {
    hide Fresh;
    var more := times + [now];
    forall i | 0 <= i < |more| ensures |Fresh(more[..i], more[i] - window)| < limit {
      if i < |times| { assert more[..i] == times[..i]; } else { assert more[..i] == times; }
    }
  }

  /** For every run with a clock that never goes back, every key and every instant: the window ending
      then holds no more than `limit` accepted events. */
  lemma NoWindowHoldsMore(calls: seq<Call>, limit: nat, window: real, key: string, t: real)
    requires ClockForward(calls)
    ensures |InWindow(TimesOf(LogOf(calls, limit, window), key), t - window, t)| <= limit
  {
    LogIsAdmitted(calls, limit, window, key, if calls == [] then 0.0 else calls[|calls| - 1].now);
    WindowBound(TimesOf(LogOf(calls, limit, window), key), limit, window, t);
  }

  /** Any client of a limiter that is on: its log is the unswept one, every answer is what that log says, and
      no window of any key ever holds more than `limit` accepted events. */
  method Serve(limiter: FixedWindowLimiter, calls: seq<Call>) returns (answers: seq<bool>)
    requires limiter.Valid() && limiter.limit > 0 && limiter.log == []
    requires ClockForward(calls) && (calls != [] ==> limiter.clock <= calls[0].now)
    modifies limiter
    ensures limiter.Valid() && limiter.log == LogOf(calls, limiter.limit, limiter.window)
    ensures |answers| == |calls|
    ensures forall i :: 0 <= i < |calls| ==>
              answers[i] == Admits(LogOf(calls[..i], limiter.limit, limiter.window), limiter.limit, limiter.window,
                                   calls[i].key, calls[i].now)
    ensures Bounded(limiter.log, limiter.limit, limiter.window)
  {
    hide Admits, TimesOf, InWindow, Bounded, Faithful;
    answers := [];
    for i := 0 to |calls|
      invariant limiter.Valid() && limiter.log == LogOf(calls[..i], limiter.limit, limiter.window)
      invariant i < |calls| ==> limiter.clock <= calls[i].now
      invariant |answers| == i
      invariant forall k :: 0 <= k < i ==>
                  answers[k] == Admits(LogOf(calls[..k], limiter.limit, limiter.window), limiter.limit, limiter.window,
                                       calls[k].key, calls[k].now)
    {
      assert calls[..i + 1][..i] == calls[..i];
      var ok := limiter.Allow(calls[i].key, calls[i].now);
      answers := answers + [ok];
    }
    assert calls[..|calls|] == calls;
    EveryWindowIsBounded(calls, limiter.limit, limiter.window);
  }

  ghost predicate Bounded(log: seq<Hit>, limit: int, window: real) {
    forall key, t :: HeldIn(log, key, window, t) <= limit
  }

  /** How many accepted events of the key lie in the window that ends at t. */
  function HeldIn(log: seq<Hit>, key: string, window: real, t: real): nat {
    |InWindow(TimesOf(log, key), t - window, t)|
  }

  lemma EveryWindowIsBounded(calls: seq<Call>, limit: nat, window: real)
    requires ClockForward(calls)
    ensures Bounded(LogOf(calls, limit, window), limit, window)
  {
    hide TimesOf, InWindow, LogOf;
    forall key, t ensures HeldIn(LogOf(calls, limit, window), key, window, t) <= limit {
      NoWindowHoldsMore(calls, limit, window, key, t);
    }
  }
}
