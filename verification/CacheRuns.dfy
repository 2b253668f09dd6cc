/** Concrete runs of the stampede-protected cache that show where its guarantees stop. */
module CacheRuns {
  import opened Wrappers
  import opened Redis
  import opened CacheProtocol
  import opened CacheLock

  /** The states of a run, one step after the other. */
  ghost predicate IsTrace(cfg: Config, es: seq<Event>, states: seq<State>) {
    |states| == |es| + 1 && forall i :: 0 <= i < |es| ==> states[i + 1] == Step(cfg, states[i], es[i])
  }

  lemma {:induction false} TraceEnds(cfg: Config, es: seq<Event>, states: seq<State>)
    requires IsTrace(cfg, es, states)
    ensures After(cfg, states[0], es) == states[|es|]
  {
    if es != [] {
      var n := |es| - 1;
      TraceEnds(cfg, es[..n], states[..n + 1]);
      assert states[n + 1] == Step(cfg, states[n], es[n]);
    }
  }

  function With(s: State, id: Id, pc: Pc, builds: nat): State {
    s.(callers := s.callers[id := Caller(Handler, pc, builds, 0)])
  }

  lemma Moves(cfg: Config, s: State, id: Id, pc: Pc, builds: nat, fate: Fate)
    requires !pc.Poll?
    ensures Step(cfg, With(s, id, pc, builds), Go(id, fate)) ==
            With(s.(data := if fate.Lost? then s.data else DataAfter(cfg, s, pc),
                    lock := if fate.Lost? then s.lock else LockAfter(cfg, s, id, pc)),
                 id, Advance(cfg, id, Handler, pc, View(s, fate)), builds + if pc.Build? then 1 else 0)
  {
    var before := With(s, id, pc, builds);
    assert Moved(cfg, before, id, fate) ==
           Caller(Handler, Advance(cfg, id, Handler, pc, View(s, fate)), builds + if pc.Build? then 1 else 0, 0);
    assert Step(cfg, before, Go(id, fate)).callers == s.callers[id := Moved(cfg, before, id, fate)];
  }

  lemma Arrives(cfg: Config, s: State, id: Id)
    requires id !in s.callers
    ensures Step(cfg, s, Arrive(id, Handler)) == With(s, id, Start, 0)
  {
  }

  function ToBuild(id: Id): seq<Event> {
    [Arrive(id, Handler), Go(id, Fine), Go(id, Fine), Go(id, Fine)]
  }

  lemma ReachesBuild(cfg: Config, s: State, id: Id)
    requires id !in s.callers && s.data.None? && Live(s.lock, s.now).None?
    ensures After(cfg, s, ToBuild(id)) ==
            With(s, id, Build(Locked(s.now)), 0).(lock := Some(Entry(id, Some(s.now + cfg.lockTtl))))
  {
    var locked := s.(lock := Some(Entry(id, Some(s.now + cfg.lockTtl))));
    Arrives(cfg, s, id);
    Moves(cfg, s, id, Start, 0, Fine);
    Moves(cfg, s, id, Lookup, 0, Fine);
    Moves(cfg, s, id, TryLock, 0, Fine);
    var states := [s, With(s, id, Start, 0), With(s, id, Lookup, 0), With(s, id, TryLock, 0),
                   With(locked, id, Build(Locked(s.now)), 0)];
    hide Step;
    TraceEnds(cfg, ToBuild(id), states);
  }

  // ---- a fallback DEL that hits an unexpired owner's successor ----

  /** A caller whose build raises and whose release script fails, up to its fallback DEL. */
  function ToFallbackDel(id: Id): seq<Event> {
    ToBuild(id) + [Go(id, Lost), Go(id, Lost), Go(id, Fine)]
  }

  lemma ReachesFallbackDel(cfg: Config, s: State, id: Id)
    requires cfg.lockTtl > 0 && id !in s.callers && s.data.None? && Live(s.lock, s.now).None?
    ensures After(cfg, s, ToFallbackDel(id)) ==
            With(s, id, UnlockDel(s.now, s.now, Raised), 1).(lock := Some(Entry(id, Some(s.now + cfg.lockTtl))))
  {
    var locked := s.(lock := Some(Entry(id, Some(s.now + cfg.lockTtl))));
    ReachesBuild(cfg, s, id);
    Moves(cfg, locked, id, Build(Locked(s.now)), 0, Lost);
    Moves(cfg, locked, id, Unlock(s.now, Raised), 1, Lost);
    Moves(cfg, locked, id, UnlockGet(s.now, Raised), 1, Fine);
    var states := [With(locked, id, Build(Locked(s.now)), 0), With(locked, id, Unlock(s.now, Raised), 1),
                   With(locked, id, UnlockGet(s.now, Raised), 1), With(locked, id, UnlockDel(s.now, s.now, Raised), 1)];
    hide Step;
    TraceEnds(cfg, [Go(id, Lost), Go(id, Lost), Go(id, Fine)], states);
    AfterBoth(cfg, s, ToBuild(id), [Go(id, Lost), Go(id, Lost), Go(id, Fine)]);
  }

  lemma Ticks(cfg: Config, s: State, ms: nat)
    ensures After(cfg, s, [Tick(ms)]) == s.(now := s.now + ms)
  {
    AfterOne(cfg, s, [], Tick(ms));
    assert [] + [Tick(ms)] == [Tick(ms)];
  }

  /** Caller 1's lock expires between its GET and its DEL and caller 2 takes over; the DEL robs
      caller 2, caller 3 takes over, and now caller 2's DEL robs caller 3. */
  function ChainRun(cfg: Config): seq<Event>
    requires cfg.lockTtl >= 0
  {
    ToFallbackDel(1) + ([Tick(cfg.lockTtl)] + (ToFallbackDel(2) + ([Go(1, Fine)] + ToFallbackDel(3))))
  }

  lemma ChainParts(cfg: Config, s: State)
    requires cfg.lockTtl >= 0
    ensures After(cfg, s, ChainRun(cfg)) ==
            After(cfg, After(cfg, After(cfg, After(cfg, After(cfg, s,
              ToFallbackDel(1)), [Tick(cfg.lockTtl)]), ToFallbackDel(2)), [Go(1, Fine)]), ToFallbackDel(3))
  {
    hide Step, After, ToFallbackDel;
    var s1 := After(cfg, s, ToFallbackDel(1));
    var s2 := After(cfg, s1, [Tick(cfg.lockTtl)]);
    var s3 := After(cfg, s2, ToFallbackDel(2));
    AfterBoth(cfg, s3, [Go(1, Fine)], ToFallbackDel(3));
    AfterBoth(cfg, s2, ToFallbackDel(2), [Go(1, Fine)] + ToFallbackDel(3));
    AfterBoth(cfg, s1, [Tick(cfg.lockTtl)], ToFallbackDel(2) + ([Go(1, Fine)] + ToFallbackDel(3)));
    AfterBoth(cfg, s, ToFallbackDel(1), [Tick(cfg.lockTtl)] + (ToFallbackDel(2) + ([Go(1, Fine)] + ToFallbackDel(3))));
  }

  lemma Deletes(cfg: Config, s: State, id: Id)
    requires id in s.callers && s.callers[id] == Caller(Handler, UnlockDel(0, 0, Raised), 1, 0)
    ensures After(cfg, s, [Go(id, Fine)]) == With(s, id, Ended(Raised), 1).(lock := None)
  {
    AfterOne(cfg, s, [], Go(id, Fine));
    assert [] + [Go(id, Fine)] == [Go(id, Fine)];
  }

  /** A misfire by a caller whose own lock has not expired: the only cause left is that the caller was
      itself robbed. Any lock lifetime and any source will do. */
  lemma MisfiresChain(cfg: Config, source: Payload)
    requires cfg.lockTtl > 0
    ensures var s := After(cfg, Initial(source), ChainRun(cfg));
            && Misfire(s, Go(2, Fine))
            && Holding(s.callers[2].pc) && !Overran(cfg, s, 2)
  {
    hide Step, After, ToFallbackDel, ChainRun;
    var T := cfg.lockTtl;
    var s0 := Initial(source);
    ChainParts(cfg, s0);
    ReachesFallbackDel(cfg, s0, 1);
    Ticks(cfg, After(cfg, s0, ToFallbackDel(1)), T);
    var one := After(cfg, s0, ToFallbackDel(1)).(now := T);
    assert one.lock == Some(Entry(1, Some(T))) && one.callers.Keys == {1};
    ReachesFallbackDel(cfg, one, 2);
    var two := After(cfg, one, ToFallbackDel(2));
    assert two.lock == Some(Entry(2, Some(T + T))) && two.callers.Keys == {1, 2};
    Deletes(cfg, two, 1);
    var freed := After(cfg, two, [Go(1, Fine)]);
    assert freed.callers[2].pc == UnlockDel(T, T, Raised) && freed.lock == None;
    ReachesFallbackDel(cfg, freed, 3);
    var last := After(cfg, freed, ToFallbackDel(3));
    assert last.callers[2].pc == UnlockDel(T, T, Raised) && last.lock == Some(Entry(3, Some(T + T)));
  }

  // ---- a build that outlives its lock ----

  /** Without the lifetime condition locked builds do overlap, even if no command ever fails. */
  lemma LateBuildOverlaps(cfg: Config, source: Payload)
    requires cfg.lockTtl >= 0
    ensures var s := After(cfg, Initial(source), ToBuild(1) + ([Tick(cfg.lockTtl)] + ToBuild(2)));
            LockedBuild(s, 1) && LockedBuild(s, 2)
  {
    var s0 := Initial(source);
    var s1 := After(cfg, s0, ToBuild(1));
    ReachesBuild(cfg, s0, 1);
    var s2 := After(cfg, s1, [Tick(cfg.lockTtl)]);
    Ticks(cfg, s1, cfg.lockTtl);
    ReachesBuild(cfg, s2, 2);
    AfterBoth(cfg, s1, [Tick(cfg.lockTtl)], ToBuild(2));
    AfterBoth(cfg, s0, ToBuild(1), [Tick(cfg.lockTtl)] + ToBuild(2));
  }

  // ---- an old text that outlives its invalidation ----

  /** A build reads the source, the source is written and the key invalidated, and only then, `delay`
      later, does the build store what it read. */
  function StaleRun(cfg: Config, newer: Payload, delay: nat): seq<Event>
    requires cfg.ttl > 0
  {
    ToBuild(1) + [Go(1, Fine), Write(newer), Invalidate, Tick(delay), Go(1, Fine), Tick(cfg.ttl - 1)]
  }

  /** The staleness bound is reached: `delay + ttl - 1` after the old source was replaced, and although
      the invalidation worked, the old text is still served. */
  lemma StalenessBoundIsReached(cfg: Config, source: Payload, newer: Payload, delay: nat)
    requires cfg.ttl > 0
    ensures var s := After(cfg, Initial(source), StaleRun(cfg, newer, delay));
            && s.source == newer && s.now == delay + cfg.ttl - 1
            && Live(s.data, s.now) == Some(cfg.dumps(source))
  {
    var s, text := Initial(source), cfg.dumps(source);
    var locked := s.(lock := Some(Entry(1, Some(cfg.lockTtl))));
    var late := locked.(source := newer, now := delay);
    var out := Answered(Raw(text), Miss);
    ReachesBuild(cfg, s, 1);
    var stored := With(late.(data := Some(Entry(text, Some(delay + cfg.ttl)))), 1, Unlock(0, out), 1);
    Moves(cfg, locked, 1, Build(Locked(0)), 0, Fine);
    Moves(cfg, late, 1, Store(Locked(0), text, 0), 1, Fine);
    var steps := [Go(1, Fine), Write(newer), Invalidate, Tick(delay), Go(1, Fine), Tick(cfg.ttl - 1)];
    var written := With(locked.(source := newer), 1, Store(Locked(0), text, 0), 1);
    assert Step(cfg, With(locked, 1, Store(Locked(0), text, 0), 1), Write(newer)) == written;
    assert Step(cfg, written, Invalidate) == written;
    assert Step(cfg, written, Tick(delay)) == With(late, 1, Store(Locked(0), text, 0), 1);
    assert Step(cfg, stored, Tick(cfg.ttl - 1)) == stored.(now := delay + (cfg.ttl - 1));
    hide Step;
    TraceEnds(cfg, steps, [
      With(locked, 1, Build(Locked(0)), 0), With(locked, 1, Store(Locked(0), text, 0), 1), written, written,
      With(late, 1, Store(Locked(0), text, 0), 1), stored, stored.(now := delay + (cfg.ttl - 1))]);
    AfterBoth(cfg, s, ToBuild(1), steps);
  }

  // ---- a second build although the text is cached ----

  function BothMissed(source: Payload): State {
    With(With(Initial(source), 1, TryLock, 0), 2, TryLock, 0)
  }

  const BOTH_MISS: seq<Event> :=
    [Arrive(1, Handler), Go(1, Fine), Go(1, Fine), Arrive(2, Handler), Go(2, Fine), Go(2, Fine)]

  lemma ReachesBothMissed(cfg: Config, source: Payload)
    ensures After(cfg, Initial(source), BOTH_MISS) == BothMissed(source)
  {
    var s := Initial(source);
    var first := With(s, 1, TryLock, 0);
    Arrives(cfg, s, 1);
    Moves(cfg, s, 1, Start, 0, Fine);
    Moves(cfg, s, 1, Lookup, 0, Fine);
    Arrives(cfg, first, 2);
    Moves(cfg, first, 2, Start, 0, Fine);
    Moves(cfg, first, 2, Lookup, 0, Fine);
    hide Step;
    TraceEnds(cfg, BOTH_MISS, [
      s, With(s, 1, Start, 0), With(s, 1, Lookup, 0), first,
      With(first, 2, Start, 0), With(first, 2, Lookup, 0), BothMissed(source)]);
  }

  /** The first caller builds, stores and releases; the second then takes the lock, which is free
      again, and builds: nothing is looked up once a lock is taken. */
  const SECOND_BUILD: seq<Event> :=
    BOTH_MISS + ([Go(1, Fine), Go(1, Fine), Go(1, Fine)] + [Go(1, Fine), Go(2, Fine)])

  function Stored(cfg: Config, source: Payload): State {
    BothMissed(source).(lock := Some(Entry(1, Some(cfg.lockTtl))),
                        data := Some(Entry(cfg.dumps(source), Some(cfg.ttl))))
  }

  function Answer(cfg: Config, source: Payload): Outcome {
    Answered(Raw(cfg.dumps(source)), Miss)
  }

  lemma ReachesStored(cfg: Config, source: Payload)
    ensures After(cfg, BothMissed(source), [Go(1, Fine), Go(1, Fine), Go(1, Fine)]) ==
            With(Stored(cfg, source), 1, Unlock(0, Answer(cfg, source)), 1)
  {
    var s, text := BothMissed(source), cfg.dumps(source);
    var locked := s.(lock := Some(Entry(1, Some(cfg.lockTtl))));
    assert With(s, 1, TryLock, 0) == s;
    Moves(cfg, s, 1, TryLock, 0, Fine);
    Moves(cfg, locked, 1, Build(Locked(0)), 0, Fine);
    Moves(cfg, locked, 1, Store(Locked(0), text, 0), 1, Fine);
    hide Step;
    TraceEnds(cfg, [Go(1, Fine), Go(1, Fine), Go(1, Fine)], [
      s, With(locked, 1, Build(Locked(0)), 0), With(locked, 1, Store(Locked(0), text, 0), 1),
      With(Stored(cfg, source), 1, Unlock(0, Answer(cfg, source)), 1)]);
  }

  lemma ReachesSecondBuild(cfg: Config, source: Payload)
    requires cfg.lockTtl > 0
    ensures After(cfg, With(Stored(cfg, source), 1, Unlock(0, Answer(cfg, source)), 1), [Go(1, Fine), Go(2, Fine)]) ==
            With(With(Stored(cfg, source).(lock := Some(Entry(2, Some(cfg.lockTtl)))), 1, Ended(Answer(cfg, source)), 1),
                 2, Build(Locked(0)), 0)
  {
    var stored, out := Stored(cfg, source), Answer(cfg, source);
    var done := With(stored.(lock := None), 1, Ended(out), 1);
    Moves(cfg, stored, 1, Unlock(0, out), 1, Fine);
    assert With(done, 2, TryLock, 0) == done;
    Moves(cfg, done, 2, TryLock, 0, Fine);
    hide Step;
    TraceEnds(cfg, [Go(1, Fine), Go(2, Fine)], [
      With(stored, 1, Unlock(0, out), 1), done,
      With(done.(lock := Some(Entry(2, Some(cfg.lockTtl)))), 2, Build(Locked(0)), 0)]);
  }

  /** "Exactly one build" is no theorem, even with a fixed source, no failure and no time passing:
      caller 2 builds under the lock while a live entry with the right text is in place. */
  lemma SecondBuildHappens(cfg: Config, source: Payload)
    requires cfg.ttl > 0 && cfg.lockTtl > 0
    ensures var s := After(cfg, Initial(source), SECOND_BUILD);
            && LockedBuild(s, 2)
            && 1 in s.callers && s.callers[1].pc.Ended? && s.callers[1].builds == 1
            && Live(s.data, s.now) == Some(cfg.dumps(source))
  {
    hide Step, After;
    ReachesBothMissed(cfg, source);
    ReachesStored(cfg, source);
    ReachesSecondBuild(cfg, source);
    AfterBoth(cfg, BothMissed(source), [Go(1, Fine), Go(1, Fine), Go(1, Fine)], [Go(1, Fine), Go(2, Fine)]);
    AfterBoth(cfg, Initial(source), BOTH_MISS, [Go(1, Fine), Go(1, Fine), Go(1, Fine)] + [Go(1, Fine), Go(2, Fine)]);
  }
}
