/** Who holds the lock of a cached key, over every interleaving of callers, expiry, lost replies,
    crashes and fallback deletes. */
module CacheLock {
  import opened Wrappers
  import opened Redis
  import opened CacheProtocol

  // ---- vocabulary ----

  predicate Holding(pc: Pc) {
    match pc
    case Build(way) => way.Locked?
    case Store(way, _, _) => way.Locked?
    case Unlock(_, _) => true
    case UnlockGet(_, _) => true
    case UnlockDel(_, _, _) => true
    case _ => false
  }

  function Since(pc: Pc): int
    requires Holding(pc)
  {
    match pc
    case Build(way) => way.since
    case Store(way, _, _) => way.since
    case Unlock(since, _) => since
    case UnlockGet(since, _) => since
    case UnlockDel(since, _, _) => since
  }

  predicate Building(s: State, c: Id) {
    c in s.callers && (s.callers[c].pc.Build? || s.callers[c].pc.Store?)
  }

  predicate LockedBuild(s: State, c: Id) {
    Building(s, c) && s.callers[c].pc.way.Locked?
  }

  predicate Overran(cfg: Config, s: State, c: Id)
    requires c in s.callers && Holding(s.callers[c].pc)
  {
    Since(s.callers[c].pc) + cfg.lockTtl <= s.now
  }

  /** Every holder is still within the time its lock was taken for. */
  ghost predicate Timely(cfg: Config, s: State) {
    forall c :: c in s.callers && Holding(s.callers[c].pc) ==> !Overran(cfg, s, c)
  }

  ghost predicate TimelyRun(cfg: Config, s: State, es: seq<Event>) {
    forall i :: 0 <= i <= |es| ==> Timely(cfg, After(cfg, s, es[..i]))
  }

  /** The second half of the non-atomic release reaching Redis. */
  predicate FallbackDel(s: State, e: Event) {
    e.Go? && !e.fate.Lost? && e.id in s.callers && s.callers[e.id].pc.UnlockDel?
  }

  /** A fallback DEL that removes a live lock stored by another caller. */
  predicate Misfire(s: State, e: Event) {
    && FallbackDel(s, e)
    && Live(s.lock, s.now).Some? && Live(s.lock, s.now).value != e.id
  }

  /** The callers whose live lock was removed by somebody else's misfire. */
  function Robbed(cfg: Config, s: State, es: seq<Event>): set<Id> {
    if es == [] then {} else
      var before, e := es[..|es| - 1], es[|es| - 1];
      Robbed(cfg, s, before) + RobbedNow(After(cfg, s, before), e)
  }

  function RobbedNow(s: State, e: Event): set<Id> {
    if Misfire(s, e) then {s.lock.value.value} else {}
  }

  // ---- the invariant ----

  function OwnEntry(cfg: Config, c: Id, since: int): Cell<Id> {
    Some(Entry(c, Some(since + cfg.lockTtl)))
  }

  /** A holder's own entry is in place, or its time is over and any later lock was taken after that,
      or it was robbed. */
  predicate OwnsOrLost(cfg: Config, s: State, c: Id, since: int, robbed: set<Id>) {
    || s.lock == OwnEntry(cfg, c, since)
    || (&& since + cfg.lockTtl <= s.now
        && (s.lock.Some? && s.lock.value.expires.Some? ==>
              since + cfg.lockTtl <= s.lock.value.expires.value - cfg.lockTtl))
    || c in robbed
  }

  predicate PlaceOk(cfg: Config, s: State, c: Id, pc: Pc, robbed: set<Id>) {
    var mine := s.lock.Some? && s.lock.value.value == c;
    match pc
    case Start => !mine
    case Lookup => !mine
    case TryLock => !mine
    case UnlockGet(since, _) => mine ==> s.lock == OwnEntry(cfg, c, since)
    case UnlockDel(since, checkedAt, _) =>
      && OwnsOrLost(cfg, s, c, since, robbed)
      && checkedAt < since + cfg.lockTtl && checkedAt <= s.now
      && (mine ==> s.lock == OwnEntry(cfg, c, since))
    case _ =>
      Holding(pc) ==>
        && OwnsOrLost(cfg, s, c, Since(pc), robbed)
        && (mine ==> s.lock == OwnEntry(cfg, c, Since(pc)))
  }

  predicate CallerOk(cfg: Config, s: State, c: Id, robbed: set<Id>) {
    if c in s.callers then PlaceOk(cfg, s, c, s.callers[c].pc, robbed)
    else !(s.lock.Some? && s.lock.value.value == c)
  }

  predicate LockOk(cfg: Config, s: State) {
    s.lock.Some? ==> s.lock.value.expires.Some? && s.lock.value.expires.value <= s.now + cfg.lockTtl
  }

  ghost predicate LockInv(cfg: Config, s: State, robbed: set<Id>) {
    LockOk(cfg, s) && forall c :: CallerOk(cfg, s, c, robbed)
  }

  lemma ActorStaysOk(cfg: Config, s: State, e: Event, robbed: set<Id>)
    requires e.Go? && LockOk(cfg, s) && CallerOk(cfg, s, e.id, robbed)
    ensures CallerOk(cfg, Step(cfg, s, e), e.id, robbed + RobbedNow(s, e))
  {
  }

  /** All that a step of somebody else can do to the lock, as another caller `c` sees it. */
  lemma LockMoves(cfg: Config, s: State, e: Event, c: Id)
    requires e.Go? ==> e.id != c
    ensures var next := Step(cfg, s, e);
            && s.now <= next.now
            && (c in next.callers && c in s.callers && !next.callers[c].pc.Ended? ==> next.callers[c].pc == s.callers[c].pc)
            && (c in next.callers && c !in s.callers ==> next.callers[c].pc.Start?)
            && (c in s.callers ==> c in next.callers)
            && (|| next.lock == s.lock
                || (Live(s.lock, s.now).None? && e.Go? && next.lock == Some(Entry(e.id, Some(next.now + cfg.lockTtl))))
                || (next.lock.None? && (Live(s.lock, s.now).None? || s.lock.value.value != c || c in RobbedNow(s, e))))
  {
    hide Advance, View, DataAfter;
  }

  lemma OthersStayOk(cfg: Config, s: State, e: Event, c: Id, robbed: set<Id>)
    requires LockOk(cfg, s) && CallerOk(cfg, s, c, robbed)
    requires e.Go? ==> e.id != c
    ensures CallerOk(cfg, Step(cfg, s, e), c, robbed + RobbedNow(s, e))
  {
    LockMoves(cfg, s, e, c);
    hide Step, RobbedNow;
  }

  lemma StepKeepsLock(cfg: Config, s: State, e: Event, robbed: set<Id>)
    requires LockInv(cfg, s, robbed)
    ensures LockInv(cfg, Step(cfg, s, e), robbed + RobbedNow(s, e))
  {
    forall c ensures CallerOk(cfg, Step(cfg, s, e), c, robbed + RobbedNow(s, e)) {
      assert CallerOk(cfg, s, c, robbed);
      if e.Go? && e.id == c {
        ActorStaysOk(cfg, s, e, robbed);
      } else {
        OthersStayOk(cfg, s, e, c, robbed);
      }
    }
  }

  lemma {:induction false} LockInvariant(cfg: Config, source: Payload, es: seq<Event>)
    ensures LockInv(cfg, After(cfg, Initial(source), es), Robbed(cfg, Initial(source), es))
  {
    if es != [] {
      var before := es[..|es| - 1];
      LockInvariant(cfg, source, before);
      StepKeepsLock(cfg, After(cfg, Initial(source), before), es[|es| - 1], Robbed(cfg, Initial(source), before));
    }
  }

  // ---- what it means ----

  /** In every run, two callers that build under the lock at once have a cause: one of them is past
      its lock's lifetime, or a fallback DEL of another caller removed its lock. */
  lemma OverlapHasACause(cfg: Config, source: Payload, es: seq<Event>, c: Id, d: Id)
    requires var s := After(cfg, Initial(source), es); c != d && LockedBuild(s, c) && LockedBuild(s, d)
    ensures var s, robbed := After(cfg, Initial(source), es), Robbed(cfg, Initial(source), es);
            Overran(cfg, s, c) || Overran(cfg, s, d) || c in robbed || d in robbed
  {
    LockInvariant(cfg, source, es);
    var s, robbed := After(cfg, Initial(source), es), Robbed(cfg, Initial(source), es);
    assert CallerOk(cfg, s, c, robbed) && CallerOk(cfg, s, d, robbed);
  }

  /** In every run a holder's lock outlives everything but its own release, its lifetime and a
      misfire: until then no caller can take the lock. */
  lemma LockLastsItsLifetime(cfg: Config, source: Payload, es: seq<Event>, c: Id)
    requires var s := After(cfg, Initial(source), es);
             LockedBuild(s, c) && !Overran(cfg, s, c) && c !in Robbed(cfg, Initial(source), es)
    ensures var s := After(cfg, Initial(source), es); Live(s.lock, s.now) == Some(c)
  {
    LockInvariant(cfg, source, es);
    assert CallerOk(cfg, After(cfg, Initial(source), es), c, Robbed(cfg, Initial(source), es));
  }

  /** A robbed caller has had its lock, and never owns one again. */
  predicate RobbedOk(s: State, c: Id) {
    && c in s.callers
    && !(s.callers[c].pc.Start? || s.callers[c].pc.Lookup? || s.callers[c].pc.TryLock?)
    && !(s.lock.Some? && s.lock.value.value == c)
  }

  lemma RobbedStep(cfg: Config, s: State, e: Event, c: Id)
    requires RobbedOk(s, c)
    ensures RobbedOk(Step(cfg, s, e), c)
  {
  }

  lemma RobbedFirst(cfg: Config, s: State, e: Event, robbed: set<Id>)
    requires LockInv(cfg, s, robbed) && Misfire(s, e)
    ensures RobbedOk(Step(cfg, s, e), s.lock.value.value)
  {
    assert CallerOk(cfg, s, s.lock.value.value, robbed);
  }

  lemma {:induction false} RobbedOwnNothing(cfg: Config, source: Payload, es: seq<Event>, c: Id)
    requires c in Robbed(cfg, Initial(source), es)
    ensures RobbedOk(After(cfg, Initial(source), es), c)
  {
    hide Step, RobbedOk;
    var before, e := es[..|es| - 1], es[|es| - 1];
    var s := After(cfg, Initial(source), before);
    if c in Robbed(cfg, Initial(source), before) {
      RobbedOwnNothing(cfg, source, before, c);
      RobbedStep(cfg, s, e, c);
    } else {
      LockInvariant(cfg, source, before);
      RobbedFirst(cfg, s, e, Robbed(cfg, Initial(source), before));
    }
  }

  /** A fallback DEL in any run is a misfire exactly if some lock is live and the caller's lifetime is over
      or the caller was itself robbed. In the first case the removed lock was taken after the lifetime,
      and so after the caller's GET. */
  lemma MisfireHasACause(cfg: Config, source: Payload, es: seq<Event>, e: Event)
    requires FallbackDel(After(cfg, Initial(source), es), e)
    ensures var s := After(cfg, Initial(source), es);
            var pc := s.callers[e.id].pc;
            var robbed := e.id in Robbed(cfg, Initial(source), es);
            && (Misfire(s, e) <==> Live(s.lock, s.now).Some? && (Overran(cfg, s, e.id) || robbed))
            && (Misfire(s, e) && !robbed ==>
                  && s.lock.value.expires.Some?
                  && pc.checkedAt < pc.since + cfg.lockTtl <= s.lock.value.expires.value - cfg.lockTtl <= s.now)
  {
    LockInvariant(cfg, source, es);
    assert CallerOk(cfg, After(cfg, Initial(source), es), e.id, Robbed(cfg, Initial(source), es));
    if e.id in Robbed(cfg, Initial(source), es) { RobbedOwnNothing(cfg, source, es, e.id); }
  }

  /** What a step does to a live lock, in every state and so in every run: it goes only by expiry, by its own owner's release,
      or by a fallback DEL, which takes another's lock only as a misfire. The script itself never
      deletes another's lock, even after its caller's lock expired and was taken over. */
  lemma AtomicReleaseIsSafe(cfg: Config, s: State, e: Event)
    ensures var next := Step(cfg, s, e);
            Live(s.lock, s.now).Some? && Live(next.lock, next.now) != Live(s.lock, s.now) ==>
              || (e.Tick? && next.lock == s.lock)
              || (e.Go? && e.id == Live(s.lock, s.now).value && (s.callers[e.id].pc.Unlock? || FallbackDel(s, e)))
              || Misfire(s, e)
  {
  }

  ghost predicate AtomicReleasesOnly(cfg: Config, s: State, es: seq<Event>) {
    forall i :: 0 <= i < |es| ==> !FallbackDel(After(cfg, s, es[..i]), es[i])
  }

  /** The step at `i` is a fallback DEL that removes the caller's live lock. */
  ghost predicate RobbedAt(cfg: Config, s: State, es: seq<Event>, i: nat, c: Id)
    requires i < |es|
  {
    var before := After(cfg, s, es[..i]);
    FallbackDel(before, es[i]) && es[i].id != c && Live(before.lock, before.now) == Some(c)
  }

  /** In every run, being robbed means that some step was another caller's fallback DEL; where the script
      does all releases nobody is robbed. */
  lemma {:induction false} RobbedByFallbackOnly(cfg: Config, source: Payload, es: seq<Event>, c: Id)
    ensures c in Robbed(cfg, Initial(source), es) <==>
            exists i: nat :: i < |es| && RobbedAt(cfg, Initial(source), es, i, c)
    ensures AtomicReleasesOnly(cfg, Initial(source), es) ==> c !in Robbed(cfg, Initial(source), es)
  {
    hide After, AtomicReleasesOnly, Robbed;
    var s := Initial(source);
    RobbedLast(cfg, s, es);
    if es != [] {
      var n := |es| - 1;
      RobbedByFallbackOnly(cfg, source, es[..n], c);
      if c in Robbed(cfg, s, es[..n]) {
        var i: nat :| i < n && RobbedAt(cfg, s, es[..n], i, c);
        assert es[..n][..i] == es[..i];
        assert RobbedAt(cfg, s, es, i, c);
      }
      if c in RobbedNow(After(cfg, s, es[..n]), es[n]) {
        assert RobbedAt(cfg, s, es, n, c);
      }
      if i: nat :| i < |es| && RobbedAt(cfg, s, es, i, c) {
        assert i < n ==> es[..n][..i] == es[..i] && RobbedAt(cfg, s, es[..n], i, c);
      }
    }
    if AtomicReleasesOnly(cfg, s, es) { AtomicMeansNoDel(cfg, s, es, c); }
  }

  lemma AtomicMeansNoDel(cfg: Config, s: State, es: seq<Event>, c: Id)
    requires AtomicReleasesOnly(cfg, s, es)
    ensures forall i: nat :: i < |es| ==> !RobbedAt(cfg, s, es, i, c)
  {
    hide After;
  }

  lemma RobbedLast(cfg: Config, s: State, es: seq<Event>)
    ensures Robbed(cfg, s, es) ==
            if es == [] then {}
            else Robbed(cfg, s, es[..|es| - 1]) + RobbedNow(After(cfg, s, es[..|es| - 1]), es[|es| - 1])
  {
  }

  lemma {:induction false} TimelyRunsRobNobody(cfg: Config, source: Payload, es: seq<Event>)
    requires TimelyRun(cfg, Initial(source), es)
    ensures Robbed(cfg, Initial(source), es) == {}
  {
    if es != [] {
      var before, e := es[..|es| - 1], es[|es| - 1];
      assert forall i :: 0 <= i <= |before| ==> before[..i] == es[..i];
      TimelyRunsRobNobody(cfg, source, before);
      var s := After(cfg, Initial(source), before);
      assert Timely(cfg, After(cfg, Initial(source), es[..|before|]));
      if Misfire(s, e) {
        MisfireHasACause(cfg, source, before, e);
      }
    }
  }

  // ---- the lock is given back ----

  /** The caller does not die, and no command of its fails; its build may raise. */
  predicate CleanStep(s: State, e: Event, c: Id) {
    && !(e.Crash? && e.id == c)
    && (e.Go? && e.id == c && c in s.callers && !s.callers[c].pc.Build? ==> e.fate.Fine?)
  }

  ghost predicate CleanRun(cfg: Config, s: State, es: seq<Event>, c: Id) {
    forall i :: 0 <= i < |es| ==> CleanStep(After(cfg, s, es[..i]), es[i], c)
  }

  predicate GivenBack(s: State, c: Id) {
    (c in s.callers && Holding(s.callers[c].pc)) || Live(s.lock, s.now) != Some(c)
  }

  lemma StepGivesBack(cfg: Config, s: State, e: Event, c: Id)
    requires GivenBack(s, c) && CleanStep(s, e, c)
    ensures GivenBack(Step(cfg, s, e), c)
  {
  }

  lemma CleanSplit(cfg: Config, s: State, es: seq<Event>, c: Id)
    requires es != [] && CleanRun(cfg, s, es, c)
    ensures CleanRun(cfg, s, es[..|es| - 1], c) && CleanStep(After(cfg, s, es[..|es| - 1]), es[|es| - 1], c)
  {
    hide After, CleanStep;
    var n := |es| - 1;
    forall i | 0 <= i < n
      ensures CleanStep(After(cfg, s, es[..n][..i]), es[..n][i], c)
    {
      assert es[..n][..i] == es[..i];
    }
  }

  /** In every run, a caller whose commands do not fail has given its lock back once its call is over, also
      if its build raised. */
  lemma {:induction false} LockIsGivenBack(cfg: Config, source: Payload, es: seq<Event>, c: Id)
    requires CleanRun(cfg, Initial(source), es, c)
    ensures GivenBack(After(cfg, Initial(source), es), c)
  {
    hide Step, GivenBack, CleanRun;
    if es == [] {
      FreeAtFirst(cfg, source, c);
    } else {
      CleanSplit(cfg, Initial(source), es, c);
      LockIsGivenBack(cfg, source, es[..|es| - 1], c);
      StepGivesBack(cfg, After(cfg, Initial(source), es[..|es| - 1]), es[|es| - 1], c);
    }
  }

  lemma FreeAtFirst(cfg: Config, source: Payload, c: Id)
    ensures GivenBack(After(cfg, Initial(source), []), c)
  {
  }

  // ---- overlapping builds ----

  predicate Faulted(es: seq<Event>, c: Id) {
    exists e :: e in es && e.Go? && e.id == c && !e.fate.Fine?
  }

  predicate WayOk(cfg: Config, caller: Caller, faulted: bool) {
    && (caller.pc.Poll? ==> caller.pc.waited == POLL_INTERVAL * caller.polls)
    && (caller.pc.Start? || caller.pc.Lookup? || caller.pc.TryLock? ==> caller.polls == 0)
    && (caller.pc.Build? || caller.pc.Store? ==>
          match caller.pc.way
          case Locked(_) => true
          case Timeout => 50 * caller.polls >= cfg.maxWait
          case GetError => faulted && caller.mode.Value?
          case _ => faulted)
  }

  lemma StepKeepsWay(cfg: Config, s: State, e: Event, c: Id, faulted: bool)
    requires c in s.callers && WayOk(cfg, s.callers[c], faulted)
    ensures WayOk(cfg, Step(cfg, s, e).callers[c], faulted || (e.Go? && e.id == c && !e.fate.Fine?))
  {
  }

  lemma {:induction false} WaysAreEarned(cfg: Config, source: Payload, es: seq<Event>, c: Id)
    requires c in After(cfg, Initial(source), es).callers
    ensures WayOk(cfg, After(cfg, Initial(source), es).callers[c], Faulted(es, c))
  {
    if es != [] {
      var before, e := es[..|es| - 1], es[|es| - 1];
      assert es == before + [e];
      var s := After(cfg, Initial(source), before);
      assert e in es;
      if c in s.callers {
        assert Faulted(es, c) <==> Faulted(before, c) || (e.Go? && e.id == c && !e.fate.Fine?);
        WaysAreEarned(cfg, source, before, c);
        hide Step, WayOk, Faulted;
        StepKeepsWay(cfg, s, e, c, Faulted(before, c));
      }
    }
  }

  /** If every lock holder keeps within its lock's lifetime, then of any two callers building at once
      at most one holds the lock, and each of the others has polled for its whole `maxWait` or met a
      failure of Redis (or a missing client). */
  lemma LockedBuildsNeverOverlap(cfg: Config, source: Payload, es: seq<Event>, c: Id, d: Id)
    requires TimelyRun(cfg, Initial(source), es)
    requires var s := After(cfg, Initial(source), es); c != d && Building(s, c) && Building(s, d)
    ensures var s := After(cfg, Initial(source), es);
            && !(LockedBuild(s, c) && LockedBuild(s, d))
            && forall x :: x in {c, d} && !LockedBuild(s, x) ==>
                 if s.callers[x].pc.way.Timeout?
                 then 50 * s.callers[x].polls >= cfg.maxWait
                 else Faulted(es, x)
  {
    var s := After(cfg, Initial(source), es);
    TimelyRunsRobNobody(cfg, source, es);
    assert es[..|es|] == es;
    assert Timely(cfg, s);
    if LockedBuild(s, c) && LockedBuild(s, d) {
      OverlapHasACause(cfg, source, es, c, d);
    }
    WaysAreEarned(cfg, source, es, c);
    WaysAreEarned(cfg, source, es, d);
  }
}
