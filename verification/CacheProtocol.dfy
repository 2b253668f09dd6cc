/** The stampede-protected cache as a state machine. Any number of callers run the same program
    against one cached key and its lock key; every Redis command of every caller is one step, and
    between two steps anything else may happen: time passes, the source is written, the cached key
    is invalidated, another caller moves, a caller dies. */
module CacheProtocol {
  import opened Wrappers
  import opened Redis

  /** Stands for the caller's owner token as well: tokens are taken to be distinct. */
  type Id = nat

  /** A value returned by `build`; payloads are only compared, so a number stands for each. */
  type Payload = int

  /** All durations are in milliseconds. */
  datatype Config = Config(
    ttl: int,
    lockTtl: int,
    maxWait: int,
    dumps: Payload -> string,
    loads: string -> Option<Payload>)

  const POLL_INTERVAL := 50

  /** `cached_response` and `cache_get_or_compute`. */
  datatype Mode = Handler | Value

  datatype Caption = Hit | Miss | Bypass

  datatype Answer = Raw(text: string) | Decoded(payload: Payload)

  /** A call that raises, or whose process dies, ends without an answer. */
  datatype Outcome = Answered(answer: Answer, caption: Caption) | Raised

  /** Why a caller is building. */
  datatype Way = Locked(since: int) | Timeout | PollError | NoLock | NoClient | GetError

  /** Where a caller is: about to send the named command, or building. A lock holder remembers when
      it acquired the lock, a writer when it read the source, a fallback DEL when its GET ran. */
  datatype Pc =
    | Start
    | Lookup
    | TryLock
    | Poll(waited: int)
    | Build(way: Way)
    | Store(way: Way, text: string, readAt: int)
    | Unlock(since: int, out: Outcome)
    | UnlockGet(since: int, out: Outcome)
    | UnlockDel(since: int, checkedAt: int, out: Outcome)
    | Ended(out: Outcome)

  datatype Caller = Caller(mode: Mode, pc: Pc, builds: nat, polls: nat)

  datatype State = State(
    now: int,
    source: Payload,
    data: Cell<string>,
    lock: Cell<Id>,
    callers: map<Id, Caller>)

  /** A command works, fails without reaching Redis, or takes effect and then fails in the caller's
      eyes. At `Start` a failure is the missing client, at `Build` an exception raised by the build. */
  datatype Fate = Fine | Lost | Applied

  datatype Event =
    | Tick(ms: nat)
    | Write(source: Payload)
    | Invalidate
    | Arrive(id: Id, mode: Mode)
    | Crash(id: Id)
    | Go(id: Id, fate: Fate)

  /** What a caller can learn by its next command; each command looks at its own part. */
  datatype Reply = Reply(failed: bool, text: Option<string>, owner: Option<Id>, source: Payload, at: int)

  // ---- the caller's program ----

  /** The value-returning entry decodes the text, or hands it over as it is. */
  function Reported(cfg: Config, mode: Mode, text: string): Answer {
    if mode.Handler? then Raw(text) else
      match cfg.loads(text)
      case Some(payload) => Decoded(payload)
      case None => Raw(text)
  }

  function Waiting(cfg: Config, waited: int): Pc {
    if waited < cfg.maxWait then Poll(waited) else Build(Timeout)
  }

  function Built(cfg: Config, mode: Mode, way: Way, r: Reply): Pc {
    var text := cfg.dumps(r.source);
    match way
    case Locked(_) => Store(way, text, r.at)
    case Timeout => Store(way, text, r.at)
    case PollError => Store(way, text, r.at)
    case NoLock => Ended(Answered(Reported(cfg, mode, text), Bypass))
    case _ => Ended(Answered(if mode.Handler? then Raw(text) else Decoded(r.source), Bypass))
  }

  /** A lock holder releases on the way out, whether it answers or raises. */
  function Leave(way: Way, out: Outcome): Pc {
    if way.Locked? then Unlock(way.since, out) else Ended(out)
  }

  /** The caller's next position, given the reply to the command it was about to send. */
  function Advance(cfg: Config, id: Id, mode: Mode, pc: Pc, r: Reply): Pc {
    match pc
    case Start => if r.failed then Build(NoClient) else Lookup
    case Lookup =>
      if r.failed then (if mode.Handler? then TryLock else Build(GetError))
      else if r.text.Some? then Ended(Answered(Reported(cfg, mode, r.text.value), Hit))
      else TryLock
    case TryLock =>
      if r.failed then Build(NoLock)
      else if r.owner.None? then Build(Locked(r.at))
      else Waiting(cfg, 0)
    case Poll(waited) =>
      if r.failed then Build(PollError)
      else if r.text.Some? then Ended(Answered(Reported(cfg, mode, r.text.value), Hit))
      else Waiting(cfg, waited + POLL_INTERVAL)
    case Build(way) => if r.failed then Leave(way, Raised) else Built(cfg, mode, way, r)
    case Store(way, text, _) => Leave(way, Answered(Reported(cfg, mode, text), Miss))
    case Unlock(since, out) => if r.failed then UnlockGet(since, out) else Ended(out)
    case UnlockGet(since, out) =>
      if !r.failed && r.owner == Some(id) then UnlockDel(since, r.at, out) else Ended(out)
    case UnlockDel(_, _, out) => Ended(out)
    case Ended(_) => pc
  }

  // ---- one step ----

  function View(s: State, fate: Fate): Reply {
    Reply(!fate.Fine?, Live(s.data, s.now), Live(s.lock, s.now), s.source, s.now)
  }

  /** SET NX EX, the compare-and-delete script, and the fallback's plain DEL. */
  function LockAfter(cfg: Config, s: State, id: Id, pc: Pc): Cell<Id> {
    match pc
    case TryLock => if Live(s.lock, s.now).None? then Some(Entry(id, Some(s.now + cfg.lockTtl))) else s.lock
    case Unlock(_, _) => if Live(s.lock, s.now) == Some(id) then None else s.lock
    case UnlockDel(_, _, _) => None
    case _ => s.lock
  }

  function DataAfter(cfg: Config, s: State, pc: Pc): Cell<string> {
    if pc.Store? then Some(Entry(pc.text, Some(s.now + cfg.ttl))) else s.data
  }

  function Moved(cfg: Config, s: State, id: Id, fate: Fate): Caller
    requires id in s.callers
  {
    var c := s.callers[id];
    Caller(c.mode,
           Advance(cfg, id, c.mode, c.pc, View(s, fate)),
           c.builds + if c.pc.Build? then 1 else 0,
           c.polls + if c.pc.Poll? then 1 else 0)
  }

  function Step(cfg: Config, s: State, e: Event): State {
    match e
    case Tick(ms) => s.(now := s.now + ms)
    case Write(source) => s.(source := source)
    case Invalidate => s.(data := None)
    case Arrive(id, mode) =>
      if id in s.callers then s else s.(callers := s.callers[id := Caller(mode, Start, 0, 0)])
    case Crash(id) =>
      if id !in s.callers || s.callers[id].pc.Ended? then s
      else s.(callers := s.callers[id := s.callers[id].(pc := Ended(Raised))])
    case Go(id, fate) =>
      if id !in s.callers then s else
        var pc := s.callers[id].pc;
        s.(data := if fate.Lost? then s.data else DataAfter(cfg, s, pc),
           lock := if fate.Lost? then s.lock else LockAfter(cfg, s, id, pc),
           callers := s.callers[id := Moved(cfg, s, id, fate)])
  }

  function Initial(source: Payload): State {
    State(0, source, None, None, map[])
  }

  function After(cfg: Config, s: State, es: seq<Event>): State {
    if es == [] then s else Step(cfg, After(cfg, s, es[..|es| - 1]), es[|es| - 1])
  }

  lemma AfterOne(cfg: Config, s: State, es: seq<Event>, e: Event)
    ensures After(cfg, s, es + [e]) == Step(cfg, After(cfg, s, es), e)
  {
    assert (es + [e])[..|es + [e]| - 1] == es;
  }

  lemma {:induction false} AfterBoth(cfg: Config, s: State, a: seq<Event>, b: seq<Event>)
    ensures After(cfg, s, a + b) == After(cfg, After(cfg, s, a), b)
  {
    if b == [] {
      assert a + b == a;
    } else {
      AfterBoth(cfg, s, a, b[..|b| - 1]);
      assert a + b == a + b[..|b| - 1] + [b[|b| - 1]];
      AfterOne(cfg, s, a + b[..|b| - 1], b[|b| - 1]);
    }
  }

  // ---- every call ends ----

  function PollLimit(cfg: Config): nat {
    if cfg.maxWait <= 0 then 0 else (cfg.maxWait + POLL_INTERVAL - 1) / POLL_INTERVAL
  }

  function PollsLeft(cfg: Config, waited: int): int {
    if waited < cfg.maxWait then (cfg.maxWait - waited + POLL_INTERVAL - 1) / POLL_INTERVAL else 0
  }

  /** An upper bound on the commands a caller still has to send. */
  function Remaining(cfg: Config, pc: Pc): int {
    match pc
    case Start => 8 + PollLimit(cfg)
    case Lookup => 7 + PollLimit(cfg)
    case TryLock => 6 + PollLimit(cfg)
    case Poll(waited) => 5 + PollsLeft(cfg, waited)
    case Build(_) => 5
    case Store(_, _, _) => 4
    case Unlock(_, _) => 3
    case UnlockGet(_, _) => 2
    case UnlockDel(_, _, _) => 1
    case Ended(_) => 0
  }

  lemma EachCommandHelps(cfg: Config, id: Id, mode: Mode, pc: Pc, r: Reply)
    requires !pc.Ended? && (pc.Poll? ==> pc.waited < cfg.maxWait)
    ensures var next := Advance(cfg, id, mode, pc, r);
            && 0 <= Remaining(cfg, next) < Remaining(cfg, pc)
            && (next.Poll? ==> next.waited < cfg.maxWait)
  {
  }

  /** The caller's position once it has heard these replies. */
  function Driven(cfg: Config, id: Id, mode: Mode, heard: seq<Reply>): Pc {
    if heard == [] then Start
    else Advance(cfg, id, mode, Driven(cfg, id, mode, heard[..|heard| - 1]), heard[|heard| - 1])
  }

  lemma {:induction false} DrivenMeasure(cfg: Config, id: Id, mode: Mode, heard: seq<Reply>)
    ensures var pc := Driven(cfg, id, mode, heard);
            && (pc.Poll? ==> pc.waited < cfg.maxWait)
            && (!pc.Ended? ==> Remaining(cfg, pc) <= 8 + PollLimit(cfg) - |heard|)
            && Remaining(cfg, pc) >= 0
  {
    if heard != [] {
      var before := heard[..|heard| - 1];
      DrivenMeasure(cfg, id, mode, before);
      var pc := Driven(cfg, id, mode, before);
      if !pc.Ended? { EachCommandHelps(cfg, id, mode, pc, heard[|heard| - 1]); }
    }
  }

  /** Nobody waits for ever: whatever Redis, the build and the other callers do, a call is over after
      at most eight commands and its polls. */
  lemma EveryCallEnds(cfg: Config, id: Id, mode: Mode, heard: seq<Reply>)
    requires |heard| >= 8 + PollLimit(cfg)
    ensures Driven(cfg, id, mode, heard).Ended?
  {
    DrivenMeasure(cfg, id, mode, heard);
  }

  /** The endpoints' own settings: a lock for five seconds, a wait of half a second. */
  function Endpoint(cfg: Config): Config {
    cfg.(lockTtl := 5_000, maxWait := 500)
  }

  /** An endpoint's call polls ten times at most and is over after eighteen commands. */
  lemma EndpointCallsEnd(cfg: Config, id: Id, heard: seq<Reply>)
    requires |heard| >= 18
    ensures PollLimit(Endpoint(cfg)) == 10 && Driven(Endpoint(cfg), id, Handler, heard).Ended?
  {
    EveryCallEnds(Endpoint(cfg), id, Handler, heard);
  }

  /** The replies one caller gets in a run. */
  function Heard(cfg: Config, s: State, es: seq<Event>, c: Id): seq<Reply> {
    if es == [] then [] else
      var before, e := es[..|es| - 1], es[|es| - 1];
      var last := After(cfg, s, before);
      Heard(cfg, s, before, c) + if e.Go? && e.id == c && c in last.callers then [View(last, e.fate)] else []
  }

  /** In every run, a caller that does not die stands where its own program takes it on the replies it
      got: the other callers act on it only through those replies. */
  lemma {:induction false} CallerRunsItsProgram(cfg: Config, source: Payload, es: seq<Event>, c: Id)
    requires Crash(c) !in es && c in After(cfg, Initial(source), es).callers
    ensures var caller := After(cfg, Initial(source), es).callers[c];
            caller.pc == Driven(cfg, c, caller.mode, Heard(cfg, Initial(source), es, c))
  {
    var before, e := es[..|es| - 1], es[|es| - 1];
    var last := After(cfg, Initial(source), before);
    if c in last.callers {
      CallerRunsItsProgram(cfg, source, before, c);
      assert e in es;
      var heard := Heard(cfg, Initial(source), before, c);
      if e.Go? && e.id == c {
        assert (heard + [View(last, e.fate)])[..|heard|] == heard;
      } else {
        assert heard + [] == heard;
      }
    } else {
      HearsNothing(cfg, source, before, c);
    }
  }

  lemma {:induction false} HearsNothing(cfg: Config, source: Payload, es: seq<Event>, c: Id)
    requires c !in After(cfg, Initial(source), es).callers
    ensures Heard(cfg, Initial(source), es, c) == []
  {
    if es != [] {
      HearsNothing(cfg, source, es[..|es| - 1], c);
    }
  }
}
