/** The fixed-window request counter: INCR, then EXPIRE when the counter was created by that INCR.
    The two commands are separate steps, so other callers run between them. */
module RateLimit {
  import opened Arithmetic
  import opened Wrappers
  import opened Redis

  type Caller = int

  /** The counter, and the callers that created it and still owe it an EXPIRE. */
  datatype Counter = Counter(cell: Cell<int>, owing: set<Caller>)

  datatype Event =
    | Incr(caller: Caller, at: int)
    | Expire(caller: Caller, at: int)

  const FRESH := Counter(None, {})

  function WindowMs(windowSeconds: int): int {
    1000 * windowSeconds
  }

  /** INCR on a missing or expired key creates it with value 1 and no expiry. */
  function CountAfterIncr(cell: Cell<int>, now: int): int {
    match Live(cell, now)
    case Some(n) => n + 1
    case None => 1
  }

  function CellAfterIncr(cell: Cell<int>, now: int): Cell<int> {
    match Live(cell, now)
    case Some(n) => Some(Entry(n + 1, cell.value.expires))
    case None => Some(Entry(1, None))
  }

  /** EXPIRE on a missing or expired key does nothing. */
  function CellAfterExpire(cell: Cell<int>, now: int, windowSeconds: int): Cell<int> {
    match Live(cell, now)
    case Some(n) => Some(Entry(n, Some(now + WindowMs(windowSeconds))))
    case None => cell
  }

  /** One command reaching Redis; an EXPIRE is sent only by a caller that owes one. */
  function Step(s: Counter, e: Event, windowSeconds: int): Counter {
    match e
    case Incr(caller, at) =>
      Counter(CellAfterIncr(s.cell, at),
              if CountAfterIncr(s.cell, at) == 1 then s.owing + {caller} else s.owing)
    case Expire(caller, at) =>
      if caller in s.owing
      then Counter(CellAfterExpire(s.cell, at, windowSeconds), s.owing - {caller})
      else s
  }

  function Run(es: seq<Event>, windowSeconds: int): Counter {
    if es == [] then FRESH else Step(Run(es[..|es| - 1], windowSeconds), es[|es| - 1], windowSeconds)
  }

  ghost predicate Ordered(es: seq<Event>) {
    forall i, j :: 0 <= i < j < |es| ==> es[i].at <= es[j].at
  }

  /** The number of calls allowed by the run at instants in `[from, from + 1000 * windowSeconds)`. */
  function Granted(es: seq<Event>, limit: int, windowSeconds: int, from: int): nat {
    if es == [] then 0 else
      var before, e := es[..|es| - 1], es[|es| - 1];
      Granted(before, limit, windowSeconds, from) +
      if e.Incr? && from <= e.at < from + 1000 * windowSeconds
         && CountAfterIncr(Run(before, windowSeconds).cell, e.at) <= limit
      then 1 else 0
  }

  /** The instant at which the counter last restarted from 1. */
  ghost function Born(es: seq<Event>, windowSeconds: int): int {
    if es == [] then 0 else
      var before, e := es[..|es| - 1], es[|es| - 1];
      if e.Incr? && CountAfterIncr(Run(before, windowSeconds).cell, e.at) == 1 then e.at
      else Born(before, windowSeconds)
  }

  /** Only the creator of a counter owes it an expiry, so the counter cannot restart before its
      expiry is set, and then not before a whole window after it was born. */
  ghost predicate Lifetime(s: Counter, born: int, now: int, windowSeconds: int) {
    && (s.cell.None? ==> s.owing == {})
    && (s.cell.Some? ==>
          && s.cell.value.value >= 1
          && born <= now
          && (s.cell.value.expires.Some? ==>
                s.owing == {} && s.cell.value.expires.value >= born + WindowMs(windowSeconds)))
    && (forall x, y :: x in s.owing && y in s.owing ==> x == y)
  }

  /** How many of the granted calls can lie in the window, by where the current counter was born. */
  ghost predicate Quota(s: Counter, granted: int, born: int, now: int, limit: int, windowSeconds: int, from: int) {
    && (s.cell.None? || now < from ==> granted == 0)
    && (s.cell.Some? ==>
          var used := Min(s.cell.value.value, limit);
          if born < from then granted <= used - 1
          else if born < from + WindowMs(windowSeconds) then granted <= limit - 1 + used
          else granted <= 2 * limit - 1)
  }

  lemma {:induction false} LifetimeHolds(es: seq<Event>, windowSeconds: int)
    requires Ordered(es) && es != []
    ensures Lifetime(Run(es, windowSeconds), Born(es, windowSeconds), es[|es| - 1].at, windowSeconds)
  {
    var before, e := es[..|es| - 1], es[|es| - 1];
    if before != [] {
      LifetimeHolds(before, windowSeconds);
      assert before[|before| - 1].at <= e.at;
      var owing := Run(before, windowSeconds).owing;
      if e.caller in owing {
        assert forall x :: x in owing ==> x == e.caller;
        assert owing - {e.caller} == {};
      }
    }
  }

  lemma {:induction false} QuotaHolds(es: seq<Event>, limit: int, windowSeconds: int, from: int)
    requires Ordered(es) && es != [] && limit >= 1 && windowSeconds > 0
    ensures Quota(Run(es, windowSeconds), Granted(es, limit, windowSeconds, from), Born(es, windowSeconds),
                  es[|es| - 1].at, limit, windowSeconds, from)
  {
    var before, e := es[..|es| - 1], es[|es| - 1];
    if before != [] {
      QuotaHolds(before, limit, windowSeconds, from);
      LifetimeHolds(before, windowSeconds);
      assert before[|before| - 1].at <= e.at;
    }
  }

  lemma {:induction false} NoneGranted(es: seq<Event>, limit: int, windowSeconds: int, from: int)
    requires Ordered(es) && (limit < 1 || windowSeconds <= 0)
    ensures Granted(es, limit, windowSeconds, from) == 0
  {
    if es != [] {
      var before := es[..|es| - 1];
      NoneGranted(before, limit, windowSeconds, from);
      if before != [] { LifetimeHolds(before, windowSeconds); }
    }
  }

  /** In any run without Redis errors, however late each EXPIRE is and whether or not it is sent, a
      half-open interval one window long holds at most `2 * limit - 1` allowed calls. */
  lemma SlidingWindowBound(es: seq<Event>, limit: int, windowSeconds: int, from: int)
    requires Ordered(es)
    ensures Granted(es, limit, windowSeconds, from) <= if limit < 1 then 0 else 2 * limit - 1
  {
    if limit < 1 || windowSeconds <= 0 {
      NoneGranted(es, limit, windowSeconds, from);
    } else if es != [] {
      QuotaHolds(es, limit, windowSeconds, from);
    }
  }

  // ---- the bound is reached ----

  function Calls(n: nat, at: int): (es: seq<Event>)
    ensures |es| == n && forall k :: 0 <= k < n ==> es[k] == Incr(0, at)
  {
    seq(n, _ => Incr(0, at))
  }

  /** A first call, then the rest of its quota just after, then a whole quota once it has expired. */
  function Burst(limit: nat, windowSeconds: nat): seq<Event>
    requires limit >= 1
  {
    [Incr(0, 0), Expire(0, 0)] + Calls(limit - 1, 1) + Calls(limit, WindowMs(windowSeconds))
  }

  lemma OneMore(es: seq<Event>, e: Event, limit: int, windowSeconds: int, from: int)
    ensures Run(es + [e], windowSeconds) == Step(Run(es, windowSeconds), e, windowSeconds)
    ensures Granted(es + [e], limit, windowSeconds, from) ==
            Granted(es, limit, windowSeconds, from) +
            if e.Incr? && from <= e.at < from + WindowMs(windowSeconds)
               && CountAfterIncr(Run(es, windowSeconds).cell, e.at) <= limit
            then 1 else 0
  {
    assert (es + [e])[..|es + [e]| - 1] == es;
  }

  lemma {:induction false} CallsOnLiveKey(es: seq<Event>, n: nat, at: int, limit: int, windowSeconds: int, from: int, count: int)
    requires Live(Run(es, windowSeconds).cell, at) == Some(count)
    requires count >= 1 && count + n <= limit && from <= at < from + WindowMs(windowSeconds)
    ensures Granted(es + Calls(n, at), limit, windowSeconds, from) == Granted(es, limit, windowSeconds, from) + n
    ensures Run(es + Calls(n, at), windowSeconds).cell ==
            Some(Entry(count + n, Run(es, windowSeconds).cell.value.expires))
  {
    hide Run, Granted;
    if n == 0 {
      assert es + Calls(n, at) == es;
    } else {
      CallsOnLiveKey(es, n - 1, at, limit, windowSeconds, from, count);
      OneMore(es + Calls(n - 1, at), Incr(0, at), limit, windowSeconds, from);
      assert es + Calls(n, at) == es + Calls(n - 1, at) + [Incr(0, at)];
    }
  }

  lemma OpeningOfBurst(limit: nat, windowSeconds: nat)
    requires limit >= 1
    ensures var opening := [Incr(0, 0), Expire(0, 0)];
            && Run(opening, windowSeconds).cell == Some(Entry(1, Some(WindowMs(windowSeconds))))
            && Granted(opening, limit, windowSeconds, 1) == 0
  {
    OneMore([], Incr(0, 0), limit, windowSeconds, 1);
    OneMore([] + [Incr(0, 0)], Expire(0, 0), limit, windowSeconds, 1);
    assert [] + [Incr(0, 0)] + [Expire(0, 0)] == [Incr(0, 0), Expire(0, 0)];
    assert 0 in Run([] + [Incr(0, 0)], windowSeconds).owing;
  }

  lemma BurstIsOrdered(limit: nat, windowSeconds: nat)
    requires limit >= 1 && windowSeconds >= 1
    ensures Ordered(Burst(limit, windowSeconds))
  {
    var es := Burst(limit, windowSeconds);
    assert forall i :: 0 <= i < |es| ==>
      es[i].at == if i < 2 then 0 else if i < limit + 1 then 1 else WindowMs(windowSeconds);
  }

  /** For every limit and window the bound is reached. */
  lemma SlidingWindowBoundReached(limit: nat, windowSeconds: nat)
    requires limit >= 1 && windowSeconds >= 1
    ensures Ordered(Burst(limit, windowSeconds))
    ensures Granted(Burst(limit, windowSeconds), limit, windowSeconds, 1) == 2 * limit - 1
  {
    var w := WindowMs(windowSeconds);
    var opening := [Incr(0, 0), Expire(0, 0)];
    hide Run, Granted, Ordered;
    BurstIsOrdered(limit, windowSeconds);
    OpeningOfBurst(limit, windowSeconds);
    CallsOnLiveKey(opening, limit - 1, 1, limit, windowSeconds, 1, 1);
    var used := opening + Calls(limit - 1, 1);
    OneMore(used, Incr(0, w), limit, windowSeconds, 1);
    CallsOnLiveKey(used + [Incr(0, w)], limit - 1, w, limit, windowSeconds, 1, 1);
    assert Burst(limit, windowSeconds) == used + [Incr(0, w)] + Calls(limit - 1, w);
  }

  /** A counter whose EXPIRE is never sent admits `limit` calls in its whole life, not per window. */
  lemma {:induction false} WithoutExpire(es: seq<Event>, limit: nat, windowSeconds: int, from: int)
    requires forall e :: e in es ==> e.Incr?
    ensures Granted(es, limit, windowSeconds, from) <= limit
    ensures var cell := Run(es, windowSeconds).cell;
            if es == [] then cell == None
            else cell == Some(Entry(|es|, None)) && Granted(es, limit, windowSeconds, from) <= |es|
  {
    if es != [] {
      var before := es[..|es| - 1];
      WithoutExpire(before, limit, windowSeconds, from);
    }
  }

  // ---- the helper itself ----

  /** The counter's key; `CheckRateLimit` is the helper run with nobody in between its two commands. */
  class CounterKey {
    var cell: Cell<int>

    constructor ()
      ensures cell == None
    {
      cell := None;
    }

    method IncrKey(now: int) returns (count: int)
      modifies this
      ensures cell == CellAfterIncr(old(cell), now)
      ensures count == CountAfterIncr(old(cell), now)
    {
      if Live(cell, now).None? {
        cell := Some(Entry(0, None));
      }
      count := cell.value.value + 1;
      cell := Some(Entry(count, cell.value.expires));
    }

    method ExpireKey(now: int, windowSeconds: int)
      modifies this
      ensures cell == CellAfterExpire(old(cell), now, windowSeconds)
    {
      if Live(cell, now).Some? {
        cell := Some(Entry(cell.value.value, Some(now + WindowMs(windowSeconds))));
      }
    }

    /** Without a client, or on a Redis error in either command, the call is allowed. Otherwise the
        answer is whether the count is within the limit, and the key is what the two steps leave. */
    method CheckRateLimit(connected: bool, incrFails: bool, expireFails: bool,
                          now: int, limit: int, windowSeconds: int) returns (allowed: bool)
      modifies this
      ensures !connected || incrFails ==> allowed && cell == old(cell)
      ensures connected && !incrFails ==>
                var count := CountAfterIncr(old(cell), now);
                if count == 1 && expireFails then allowed && cell == CellAfterIncr(old(cell), now)
                else
                  && allowed == (count <= limit)
                  && Counter(cell, {}) ==
                     Step(Step(Counter(old(cell), {}), Incr(0, now), windowSeconds), Expire(0, now), windowSeconds)
    {
      if !connected { return true; }
      if incrFails { return true; }
      var count := IncrKey(now);
      if count == 1 {
        if expireFails { return true; }
        ExpireKey(now, windowSeconds);
      }
      return count <= limit;
    }
  }
}
