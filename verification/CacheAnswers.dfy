/** What callers of the stampede-protected cache get back, in every interleaving: the same answer as
    an uncached build while the source does not change, and a bounded age when it does. */
module CacheAnswers {
  import opened Wrappers
  import opened Redis
  import opened CacheProtocol

  // ---- a fixed source ----

  /** The payload survives being stored as text; the case of values JSON can represent. */
  predicate JsonNative(cfg: Config, payload: Payload) {
    cfg.loads(cfg.dumps(payload)) == Some(payload)
  }

  /** What a call without any cache answers. */
  function Uncached(cfg: Config, mode: Mode, source: Payload): Answer {
    if mode.Handler? then Raw(cfg.dumps(source)) else Decoded(source)
  }

  predicate NoWrites(es: seq<Event>) {
    forall e :: e in es ==> !e.Write?
  }

  /** The stored text as the entry reports it; only a call that never got to Redis's text may hand over
      the payload itself. */
  predicate OutcomeOk(cfg: Config, mode: Mode, source: Payload, out: Outcome) {
    out.Answered? ==>
      || out.answer == Reported(cfg, mode, cfg.dumps(source))
      || (out.caption.Bypass? && out.answer == Uncached(cfg, mode, source))
  }

  predicate PlaceTells(cfg: Config, mode: Mode, source: Payload, pc: Pc) {
    match pc
    case Store(_, text, _) => text == cfg.dumps(source)
    case Unlock(_, out) => OutcomeOk(cfg, mode, source, out)
    case UnlockGet(_, out) => OutcomeOk(cfg, mode, source, out)
    case UnlockDel(_, _, out) => OutcomeOk(cfg, mode, source, out)
    case Ended(out) => OutcomeOk(cfg, mode, source, out)
    case _ => true
  }

  ghost predicate AllTell(cfg: Config, s: State, source: Payload) {
    && s.source == source
    && (s.data.Some? ==> s.data.value.value == cfg.dumps(source))
    && forall c :: c in s.callers ==> PlaceTells(cfg, s.callers[c].mode, source, s.callers[c].pc)
  }

  lemma {:induction false} FixedSourceInvariant(cfg: Config, source: Payload, es: seq<Event>)
    requires NoWrites(es)
    ensures AllTell(cfg, After(cfg, Initial(source), es), source)
  {
    if es != [] {
      var e := es[|es| - 1];
      assert e in es;
      FixedSourceInvariant(cfg, source, es[..|es| - 1]);
    }
  }

  /** Builds and polls by the way a caller came: an answer is a HIT exactly if nothing was built. */
  predicate CountsOk(cfg: Config, caller: Caller) {
    && caller.builds <= 1
    && caller.polls <= PollLimit(cfg)
    && (match caller.pc
        case Store(_, _, _) => caller.builds == 1
        case Unlock(_, out) => CountFits(caller, out) && caller.builds == 1
        case UnlockGet(_, out) => CountFits(caller, out) && caller.builds == 1
        case UnlockDel(_, _, out) => CountFits(caller, out) && caller.builds == 1
        case Ended(out) => CountFits(caller, out)
        case Poll(waited) =>
          caller.builds == 0 && waited == POLL_INTERVAL * caller.polls && waited < cfg.maxWait
        case Build(_) => caller.builds == 0
        case _ => caller.builds == 0 && caller.polls == 0)
  }

  predicate CountFits(caller: Caller, out: Outcome) {
    out.Answered? ==> (caller.builds == 0 <==> out.caption.Hit?)
  }

  lemma StepKeepsCounts(cfg: Config, s: State, e: Event, c: Id)
    requires c in Step(cfg, s, e).callers && (c in s.callers ==> CountsOk(cfg, s.callers[c]))
    ensures CountsOk(cfg, Step(cfg, s, e).callers[c])
  {
  }

  lemma {:induction false} CountsHold(cfg: Config, source: Payload, es: seq<Event>, c: Id)
    requires c in After(cfg, Initial(source), es).callers
    ensures CountsOk(cfg, After(cfg, Initial(source), es).callers[c])
  {
    hide Step, CountsOk;
    if es != [] {
      var s, e := After(cfg, Initial(source), es[..|es| - 1]), es[|es| - 1];
      if c in s.callers { CountsHold(cfg, source, es[..|es| - 1], c); }
      StepKeepsCounts(cfg, s, e, c);
    }
  }

  /** The cache is transparent: under any interleaving, expiry, invalidation, crash or Redis failure,
      a caller that is answered gets what an uncached build would have given, after at most one
      build of its own and a bounded number of polls, with no build exactly on a HIT. The endpoint
      entry needs nothing for this; the value-returning entry is transparent through the cache
      exactly for the values that survive JSON. */
  lemma CacheIsTransparent(cfg: Config, source: Payload, es: seq<Event>, c: Id)
    requires NoWrites(es)
    requires var s := After(cfg, Initial(source), es);
             c in s.callers && s.callers[c].pc.Ended? && s.callers[c].pc.out.Answered?
    ensures var caller := After(cfg, Initial(source), es).callers[c];
            var through := caller.pc.out.caption != Bypass;
            && (caller.mode.Handler? || JsonNative(cfg, source) ==> caller.pc.out.answer == Uncached(cfg, caller.mode, source))
            && (caller.mode.Value? && through ==>
                  caller.pc.out.answer == match cfg.loads(cfg.dumps(source))
                                          case Some(payload) => Decoded(payload)
                                          case None => Raw(cfg.dumps(source)))
            && (caller.mode.Value? && through ==>
                  (caller.pc.out.answer == Uncached(cfg, Value, source) <==> JsonNative(cfg, source)))
            && caller.builds <= 1 && (caller.builds == 0 <==> caller.pc.out.caption.Hit?)
            && caller.polls <= PollLimit(cfg)
  {
    FixedSourceInvariant(cfg, source, es);
    CountsHold(cfg, source, es, c);
  }

  // ---- a source that is written ----

  /** Some state of the run, at `since` or later, had a source with this text. */
  ghost predicate ReadSince(cfg: Config, s: State, es: seq<Event>, text: string, since: int) {
    exists i :: 0 <= i <= |es| && WasSource(cfg, After(cfg, s, es[..i]), text, since)
  }

  predicate WasSource(cfg: Config, s: State, text: string, since: int) {
    cfg.dumps(s.source) == text && since <= s.now
  }

  /** Every SET that takes effect runs within `delay` of the read it stores. */
  ghost predicate PromptStores(cfg: Config, s: State, es: seq<Event>, delay: int) {
    forall i :: 0 <= i < |es| ==> PromptStep(After(cfg, s, es[..i]), es[i], delay)
  }

  predicate PromptStep(s: State, e: Event, delay: int) {
    e.Go? && !e.fate.Lost? && e.id in s.callers && s.callers[e.id].pc.Store? ==>
      s.now <= s.callers[e.id].pc.readAt + delay
  }

  ghost predicate AllAged(cfg: Config, s: State, es: seq<Event>, delay: int) {
    var last := After(cfg, s, es);
    && (last.data.Some? ==>
          && last.data.value.expires.Some?
          && ReadSince(cfg, s, es, last.data.value.value, last.data.value.expires.value - cfg.ttl - delay))
    && forall c :: c in last.callers && last.callers[c].pc.Store? ==>
         ReadSince(cfg, s, es, last.callers[c].pc.text, last.callers[c].pc.readAt)
  }

  lemma ReadStays(cfg: Config, s: State, es: seq<Event>, e: Event, text: string, since: int, later: int)
    requires ReadSince(cfg, s, es, text, since) && later <= since
    ensures ReadSince(cfg, s, es + [e], text, later)
  {
    var i :| 0 <= i <= |es| && WasSource(cfg, After(cfg, s, es[..i]), text, since);
    assert (es + [e])[..i] == es[..i];
    assert WasSource(cfg, After(cfg, s, (es + [e])[..i]), text, later);
  }

  lemma ReadNow(cfg: Config, s: State, es: seq<Event>, e: Event)
    ensures var last := After(cfg, s, es); ReadSince(cfg, s, es + [e], cfg.dumps(last.source), last.now)
  {
    assert (es + [e])[..|es|] == es;
    assert WasSource(cfg, After(cfg, s, (es + [e])[..|es|]), cfg.dumps(After(cfg, s, es).source), After(cfg, s, es).now);
  }

  lemma StepStores(cfg: Config, s: State, e: Event, delay: int)
    requires PromptStep(s, e, delay)
    ensures var next := Step(cfg, s, e);
            && (next.data.Some? && next.data != s.data ==>
                  && e.Go? && e.id in s.callers && s.callers[e.id].pc.Store?
                  && next.data == Some(Entry(s.callers[e.id].pc.text, Some(s.now + cfg.ttl)))
                  && s.now <= s.callers[e.id].pc.readAt + delay)
            && forall c :: c in next.callers && next.callers[c].pc.Store? ==>
                 || (c in s.callers && next.callers[c] == s.callers[c])
                 || (next.callers[c].pc.text == cfg.dumps(s.source) && next.callers[c].pc.readAt == s.now)
  {
  }

  lemma StepKeepsAges(cfg: Config, s: State, es: seq<Event>, e: Event, delay: int)
    requires AllAged(cfg, s, es, delay) && PromptStep(After(cfg, s, es), e, delay)
    ensures AllAged(cfg, s, es + [e], delay)
  {
    var last, next := After(cfg, s, es), After(cfg, s, es + [e]);
    AfterOne(cfg, s, es, e);
    StepStores(cfg, last, e, delay);
    hide After, Step, ReadSince;
    if next.data.Some? {
      if next.data == last.data {
        var since := last.data.value.expires.value - cfg.ttl - delay;
        ReadStays(cfg, s, es, e, last.data.value.value, since, since);
      } else {
        var pc := last.callers[e.id].pc;
        ReadStays(cfg, s, es, e, pc.text, pc.readAt, last.now - delay);
      }
    }
    forall c | c in next.callers && next.callers[c].pc.Store?
      ensures ReadSince(cfg, s, es + [e], next.callers[c].pc.text, next.callers[c].pc.readAt)
    {
      if c in last.callers && next.callers[c] == last.callers[c] {
        ReadStays(cfg, s, es, e, last.callers[c].pc.text, last.callers[c].pc.readAt, last.callers[c].pc.readAt);
      } else {
        ReadNow(cfg, s, es, e);
      }
    }
  }

  lemma {:induction false} AgesHold(cfg: Config, source: Payload, es: seq<Event>, delay: int)
    requires PromptStores(cfg, Initial(source), es, delay)
    ensures AllAged(cfg, Initial(source), es, delay)
  {
    if es != [] {
      var before, e := es[..|es| - 1], es[|es| - 1];
      assert es == before + [e];
      forall i | 0 <= i < |before|
        ensures PromptStep(After(cfg, Initial(source), before[..i]), before[i], delay)
      {
        assert before[..i] == es[..i] && before[i] == es[i];
      }
      AgesHold(cfg, source, before, delay);
      assert PromptStep(After(cfg, Initial(source), es[..|before|]), es[|before|], delay);
      StepKeepsAges(cfg, Initial(source), before, e, delay);
    }
  }

  /** The command is a GET of the cached key that finds it. */
  predicate IsHit(s: State, e: Event) {
    && e.Go? && e.fate.Fine? && e.id in s.callers
    && (s.callers[e.id].pc.Lookup? || s.callers[e.id].pc.Poll?)
    && Live(s.data, s.now).Some?
  }

  /** After the event the caller has been answered with this text, as a HIT. */
  predicate AnswersWith(cfg: Config, s: State, e: Event, text: string) {
    && e.Go? && e.id in s.callers && e.id in Step(cfg, s, e).callers
    && Step(cfg, s, e).callers[e.id].pc == Ended(Answered(Reported(cfg, s.callers[e.id].mode, text), Hit))
  }

  lemma ReadEarlier(cfg: Config, s: State, es: seq<Event>, text: string, since: int, earlier: int)
    requires ReadSince(cfg, s, es, text, since) && earlier <= since
    ensures ReadSince(cfg, s, es, text, earlier)
  {
    hide After;
    var i :| 0 <= i <= |es| && WasSource(cfg, After(cfg, s, es[..i]), text, since);
    assert WasSource(cfg, After(cfg, s, es[..i]), text, earlier);
  }

  lemma DataIsRecent(cfg: Config, s: State, es: seq<Event>, delay: int)
    requires AllAged(cfg, s, es, delay)
    ensures var last := After(cfg, s, es);
            Live(last.data, last.now).Some? ==>
              ReadSince(cfg, s, es, last.data.value.value, last.now - cfg.ttl - delay + 1)
  {
    var last := After(cfg, s, es);
    hide After, ReadSince;
    if Live(last.data, last.now).Some? {
      var text, since := last.data.value.value, last.data.value.expires.value - cfg.ttl - delay;
      ReadEarlier(cfg, s, es, text, since, last.now - cfg.ttl - delay + 1);
    }
  }

  /** Staleness is bounded in every run, whatever is written, whichever invalidations get lost and
      whenever late builds store: a HIT at time `t` answers with the text of a source that the
      database held at some instant after `t - ttl - delay`. */
  lemma StalenessIsBounded(cfg: Config, source: Payload, es: seq<Event>, e: Event, delay: int)
    requires PromptStores(cfg, Initial(source), es, delay)
    requires IsHit(After(cfg, Initial(source), es), e)
    ensures var s := After(cfg, Initial(source), es);
            exists text ::
              && AnswersWith(cfg, s, e, text)
              && ReadSince(cfg, Initial(source), es, text, s.now - cfg.ttl - delay + 1)
  {
    hide After, ReadSince, PromptStores;
    AgesHold(cfg, source, es, delay);
    DataIsRecent(cfg, Initial(source), es, delay);
    var s := After(cfg, Initial(source), es);
    assert AnswersWith(cfg, s, e, Live(s.data, s.now).value);
  }

  // ---- who builds ----

  /** The caller finds no client, or its GET of the cached key fails or finds nothing. */
  predicate Misses(s: State, e: Event, c: Id) {
    && e.Go? && e.id == c && c in s.callers
    && ((s.callers[c].pc.Start? && !e.fate.Fine?)
        || (s.callers[c].pc.Lookup? && (!e.fate.Fine? || Live(s.data, s.now).None?)))
  }

  predicate HasMissed(cfg: Config, s: State, es: seq<Event>, c: Id) {
    exists i: nat :: i < |es| && Misses(After(cfg, s, es[..i]), es[i], c)
  }

  /** A caller that has not missed has at most looked up, answered a HIT, or died. */
  predicate Unmissed(caller: Caller) {
    && caller.builds == 0
    && (caller.pc.Start? || caller.pc.Lookup?
        || (caller.pc.Ended? && (caller.pc.out.Raised? || caller.pc.out.caption.Hit?)))
  }

  lemma UnmissedStep(cfg: Config, s: State, e: Event, c: Id)
    requires c in s.callers ==> Unmissed(s.callers[c])
    requires !Misses(s, e, c)
    ensures c in Step(cfg, s, e).callers ==> Unmissed(Step(cfg, s, e).callers[c])
  {
  }

  /** In every run, whoever builds, or comes to the lock at all, has missed before: it looked the key up
      and the GET failed or found nothing, or it had no client. */
  lemma {:induction false} BuildersHaveMissed(cfg: Config, source: Payload, es: seq<Event>, c: Id)
    requires c in After(cfg, Initial(source), es).callers && !Unmissed(After(cfg, Initial(source), es).callers[c])
    ensures HasMissed(cfg, Initial(source), es, c)
  {
    hide Step, Misses, Unmissed;
    var s0 := Initial(source);
    if es != [] {
      var n := |es| - 1;
      var s, e := After(cfg, s0, es[..n]), es[n];
      if Misses(s, e, c) {
      } else if c in s.callers && !Unmissed(s.callers[c]) {
        BuildersHaveMissed(cfg, source, es[..n], c);
        var i: nat :| i < n && Misses(After(cfg, s0, es[..n][..i]), es[..n][i], c);
        assert es[..n][..i] == es[..i];
      } else {
        UnmissedStep(cfg, s, e, c);
      }
    }
  }

  predicate Expiring(cfg: Config, s: State) {
    s.data.Some? ==> s.data.value.expires.Some? && s.data.value.expires.value <= s.now + cfg.ttl
  }

  lemma {:induction false} DataExpires(cfg: Config, source: Payload, es: seq<Event>)
    ensures Expiring(cfg, After(cfg, Initial(source), es))
  {
    if es != [] { DataExpires(cfg, source, es[..|es| - 1]); }
  }

  /** The key holds an entry that lives until `until` at least. */
  predicate HeldUntil(s: State, until: int) {
    s.data.Some? && s.data.value.expires.Some? && until <= s.data.value.expires.value
  }

  predicate Undisturbed(e: Event, c: Id) {
    !e.Invalidate? && (e.Go? && e.id == c ==> e.fate.Fine?)
  }

  /** A caller that has built nothing and is looking the key up, first or polling behind another's lock,
      or has answered a HIT, or died. */
  predicate Harmless(caller: Caller) {
    && caller.builds == 0
    && (caller.pc.Start? || caller.pc.Lookup? || caller.pc.Poll?
        || (caller.pc.Ended? && (caller.pc.out.Raised? || caller.pc.out.caption.Hit?)))
  }

  lemma HeldStep(cfg: Config, s: State, e: Event, c: Id, until: int)
    requires Expiring(cfg, s) && HeldUntil(s, until) && s.now < until && Undisturbed(e, c)
    requires c in s.callers ==> Harmless(s.callers[c])
    ensures HeldUntil(Step(cfg, s, e), until)
    ensures c in Step(cfg, s, e).callers ==> Harmless(Step(cfg, s, e).callers[c])
  {
  }

  lemma ClockGoesOn(cfg: Config, s: State, e: Event)
    ensures s.now <= Step(cfg, s, e).now
  {
  }

  /** When only one caller computes: once the key holds an entry, then until its expiry, as long as
      nobody invalidates it, a caller that is still to look the key up, or is polling for it, and meets
      no failure never builds and never comes to the lock; all it can end with is a HIT, unless it dies. */
  lemma {:induction false} LateCallersDoNotBuild(cfg: Config, source: Payload, es: seq<Event>, more: seq<Event>, c: Id, until: int)
    requires var s := After(cfg, Initial(source), es);
             HeldUntil(s, until) && (c in s.callers ==> Harmless(s.callers[c]))
    requires After(cfg, Initial(source), es + more).now < until
    requires forall e :: e in more ==> Undisturbed(e, c)
    ensures var s := After(cfg, Initial(source), es + more);
            HeldUntil(s, until) && (c in s.callers ==> Harmless(s.callers[c]))
  {
    hide Step, Harmless, HeldUntil, Undisturbed;
    if more == [] {
      assert es + more == es;
    } else {
      var n := |more| - 1;
      var fewer, e := more[..n], more[n];
      assert es + more == es + fewer + [e];
      AfterOne(cfg, Initial(source), es + fewer, e);
      var s := After(cfg, Initial(source), es + fewer);
      ClockGoesOn(cfg, s, e);
      LateCallersDoNotBuild(cfg, source, es, fewer, c, until);
      DataExpires(cfg, source, es + fewer);
      assert e in more;
      HeldStep(cfg, s, e, c, until);
    }
  }

  /** A caller about to send its SET NX has missed, and whether it builds is decided there: it does
      exactly if no lock is live, or it may not wait at all; otherwise it joins those that poll. */
  lemma LockDecides(cfg: Config, source: Payload, es: seq<Event>, c: Id)
    requires var s := After(cfg, Initial(source), es); c in s.callers && s.callers[c].pc.TryLock?
    ensures var s := After(cfg, Initial(source), es);
            var next := Step(cfg, s, Go(c, Fine)).callers[c];
            && (Live(s.lock, s.now).None? <==> next.pc == Build(Locked(s.now)))
            && (next.pc.Build? <==> Live(s.lock, s.now).None? || cfg.maxWait <= 0)
            && (Harmless(next) <==> !next.pc.Build?)
  {
    CountsHold(cfg, source, es, c);
  }

  // ---- what a caption says ----

  predicate SendsSet(s: State, e: Event, c: Id) {
    e.Go? && e.id == c && c in s.callers && s.callers[c].pc.Store?
  }

  ghost predicate HasSentSet(cfg: Config, s: State, es: seq<Event>, c: Id) {
    exists i: nat :: i < |es| && SendsSet(After(cfg, s, es[..i]), es[i], c)
  }

  predicate CaptionFits(out: Outcome, sent: bool) {
    out.Answered? ==> (out.caption.Miss? <==> sent)
  }

  predicate PlaceFits(pc: Pc, sent: bool) {
    match pc
    case Unlock(_, out) => CaptionFits(out, sent)
    case UnlockGet(_, out) => CaptionFits(out, sent)
    case UnlockDel(_, _, out) => CaptionFits(out, sent)
    case Ended(out) => CaptionFits(out, sent)
    case _ => !sent
  }

  lemma StepFits(cfg: Config, s: State, e: Event, c: Id, sent: bool)
    requires if c in s.callers then PlaceFits(s.callers[c].pc, sent) else !sent
    ensures var next := Step(cfg, s, e);
            if c in next.callers then PlaceFits(next.callers[c].pc, sent || SendsSet(s, e, c)) else !sent
  {
  }

  lemma HasSentOneMore(cfg: Config, s: State, es: seq<Event>, c: Id)
    requires es != []
    ensures var n := |es| - 1;
            HasSentSet(cfg, s, es, c) <==> HasSentSet(cfg, s, es[..n], c) || SendsSet(After(cfg, s, es[..n]), es[n], c)
  {
    hide After, SendsSet;
    var n := |es| - 1;
    if HasSentSet(cfg, s, es[..n], c) {
      var i: nat :| i < n && SendsSet(After(cfg, s, es[..n][..i]), es[..n][i], c);
      assert es[..n][..i] == es[..i];
    }
    if HasSentSet(cfg, s, es, c) {
      var i: nat :| i < |es| && SendsSet(After(cfg, s, es[..i]), es[i], c);
      assert i < n ==> es[..n][..i] == es[..i] && es[..n][i] == es[i];
    }
  }

  lemma {:induction false} CaptionsFit(cfg: Config, source: Payload, es: seq<Event>, c: Id)
    ensures var s, sent := After(cfg, Initial(source), es), HasSentSet(cfg, Initial(source), es, c);
            if c in s.callers then PlaceFits(s.callers[c].pc, sent) else !sent
  {
    hide Step, PlaceFits, HasSentSet, SendsSet;
    var s0 := Initial(source);
    if es == [] {
      NothingSentYet(cfg, s0, c);
    } else {
      var n := |es| - 1;
      CaptionsFit(cfg, source, es[..n], c);
      HasSentOneMore(cfg, s0, es, c);
      StepFits(cfg, After(cfg, s0, es[..n]), es[n], c, HasSentSet(cfg, s0, es[..n], c));
      if c !in After(cfg, s0, es).callers { NoCallerNoSet(cfg, After(cfg, s0, es[..n]), es[n], c); }
    }
  }

  lemma NothingSentYet(cfg: Config, s: State, c: Id)
    ensures !HasSentSet(cfg, s, [], c)
  {
  }

  lemma NoCallerNoSet(cfg: Config, s: State, e: Event, c: Id)
    requires c !in Step(cfg, s, e).callers
    ensures !SendsSet(s, e, c)
  {
  }

  /** In every run the caption says what an answered call did: MISS exactly if it built and sent what it
      built to be stored, also after a wait that timed out; HIT exactly if it built nothing; BYPASS
      exactly if it built and stored nothing. */
  lemma CaptionsTell(cfg: Config, source: Payload, es: seq<Event>, c: Id)
    requires var s := After(cfg, Initial(source), es);
             c in s.callers && s.callers[c].pc.Ended? && s.callers[c].pc.out.Answered?
    ensures var caller, sent := After(cfg, Initial(source), es).callers[c], HasSentSet(cfg, Initial(source), es, c);
            var caption := caller.pc.out.caption;
            && (caption.Miss? <==> caller.builds == 1 && sent)
            && (caption.Hit? <==> caller.builds == 0)
            && (caption.Bypass? <==> caller.builds == 1 && !sent)
  {
    CaptionsFit(cfg, source, es, c);
    CountsHold(cfg, source, es, c);
  }

  // ---- when an invalidation works ----

  /** No caller is about to store a text other than this payload's. */
  ghost predicate StoresOnly(cfg: Config, s: State, source: Payload) {
    forall c :: c in s.callers && s.callers[c].pc.Store? ==> s.callers[c].pc.text == cfg.dumps(source)
  }

  predicate HoldsOnly(cfg: Config, s: State, source: Payload) {
    s.data.Some? ==> s.data.value.value == cfg.dumps(source)
  }

  lemma StepStoresOnly(cfg: Config, s: State, e: Event, source: Payload)
    requires s.source == source && StoresOnly(cfg, s, source) && HoldsOnly(cfg, s, source) && !e.Write?
    ensures var next := Step(cfg, s, e);
            next.source == source && StoresOnly(cfg, next, source) && HoldsOnly(cfg, next, source)
  {
  }

  lemma {:induction false} RunStoresOnly(cfg: Config, s: State, es: seq<Event>, source: Payload)
    requires s.source == source && StoresOnly(cfg, s, source) && HoldsOnly(cfg, s, source) && NoWrites(es)
    ensures var last := After(cfg, s, es);
            last.source == source && StoresOnly(cfg, last, source) && HoldsOnly(cfg, last, source)
  {
    if es != [] {
      var n := |es| - 1;
      assert es[n] in es;
      RunStoresOnly(cfg, s, es[..n], source);
      StepStoresOnly(cfg, After(cfg, s, es[..n]), es[n], source);
    }
  }

  /** Until the source is written again, the key never holds another text than this payload's. */
  ghost predicate StaysReplaced(cfg: Config, s: State, source: Payload) {
    forall es :: NoWrites(es) ==> HoldsOnly(cfg, After(cfg, s, es), source)
  }

  /** In any state: the invalidation that runs there gets rid of every text but the current source's, until
      the source is written again, if and only if no caller is about to store another text. */
  lemma InvalidationWorks(cfg: Config, s: State)
    ensures StaysReplaced(cfg, Step(cfg, s, Invalidate), s.source) <==> StoresOnly(cfg, s, s.source)
  {
    var after := Step(cfg, s, Invalidate);
    if StoresOnly(cfg, s, s.source) {
      forall es | NoWrites(es)
        ensures HoldsOnly(cfg, After(cfg, after, es), s.source)
      {
        RunStoresOnly(cfg, after, es, s.source);
      }
    } else {
      var c :| c in s.callers && s.callers[c].pc.Store? && s.callers[c].pc.text != cfg.dumps(s.source);
      var es := [Go(c, Fine)];
      assert es[..0] == [];
      assert NoWrites(es) && !HoldsOnly(cfg, After(cfg, after, es), s.source);
    }
  }

  /** So a write with its invalidation straight after works unless a caller still has an older read's text
      to store. */
  lemma WriteIsSeen(cfg: Config, s: State, source: Payload)
    ensures StaysReplaced(cfg, After(cfg, s, [Write(source), Invalidate]), source) <==> StoresOnly(cfg, s, source)
  {
    AfterOne(cfg, s, [], Write(source));
    AfterOne(cfg, s, [] + [Write(source)], Invalidate);
    assert [] + [Write(source)] + [Invalidate] == [Write(source), Invalidate];
    InvalidationWorks(cfg, s.(source := source));
  }
}
