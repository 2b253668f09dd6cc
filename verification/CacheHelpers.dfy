/** The cache helpers themselves, command by command, against the caller's program of the protocol. */
module CacheHelpers {
  import opened Wrappers
  import opened CacheProtocol

  /** What a caller does next, with the arguments it passes. */
  datatype Command =
    | Connect
    | Get
    | SetNx(owner: Id, ttl: int)
    | SleepThenGet(ms: int)
    | RunBuild
    | Set(text: string, ttl: int)
    | CompareAndDelete(owner: Id)
    | GetLock
    | DelLock
    | Nothing

  function CommandOf(cfg: Config, id: Id, pc: Pc): Command {
    match pc
    case Start => Connect
    case Lookup => Get
    case TryLock => SetNx(id, cfg.lockTtl)
    case Poll(_) => SleepThenGet(POLL_INTERVAL)
    case Build(_) => RunBuild
    case Store(_, text, _) => Set(text, cfg.ttl)
    case Unlock(_, _) => CompareAndDelete(id)
    case UnlockGet(_, _) => GetLock
    case UnlockDel(_, _, _) => DelLock
    case Ended(_) => Nothing
  }

  /** The caller sent just what the protocol's program sends on hearing these replies. */
  ghost predicate Scripted(cfg: Config, id: Id, mode: Mode, sent: seq<Command>, heard: seq<Reply>) {
    && |sent| == |heard|
    && forall i :: 0 <= i < |sent| ==> sent[i] == CommandOf(cfg, id, Driven(cfg, id, mode, heard[..i]))
  }

  lemma ScriptExtends(cfg: Config, id: Id, mode: Mode, sent: seq<Command>, heard: seq<Reply>)
    requires Scripted(cfg, id, mode, sent, heard)
    ensures forall command, r :: command == CommandOf(cfg, id, Driven(cfg, id, mode, heard)) ==>
              && Scripted(cfg, id, mode, sent + [command], heard + [r])
              && Driven(cfg, id, mode, heard + [r]) == Advance(cfg, id, mode, Driven(cfg, id, mode, heard), r)
  {
    forall command, r | command == CommandOf(cfg, id, Driven(cfg, id, mode, heard))
      ensures Scripted(cfg, id, mode, sent + [command], heard + [r])
      ensures Driven(cfg, id, mode, heard + [r]) == Advance(cfg, id, mode, Driven(cfg, id, mode, heard), r)
    {
      assert (heard + [r])[..|heard|] == heard;
      assert forall i :: 0 <= i < |heard| ==> (heard + [r])[..i] == heard[..i];
    }
  }

  /** One caller's conversation with the world: what it sent and what it heard. The replies are any. */
  class Conversation {
    const world: nat -> Reply
    var sent: seq<Command>
    var heard: seq<Reply>

    constructor (world: nat -> Reply)
      ensures this.world == world && sent == [] && heard == []
    {
      this.world := world;
      sent, heard := [], [];
    }

    method Send(command: Command) returns (r: Reply)
      modifies this
      ensures sent == old(sent) + [command] && heard == old(heard) + [r]
    {
      r := world(|heard|);
      sent, heard := sent + [command], heard + [r];
    }

    ghost function Place(cfg: Config, id: Id, mode: Mode): Pc
      reads this
    {
      Driven(cfg, id, mode, heard)
    }

    ghost predicate OnScript(cfg: Config, id: Id, mode: Mode)
      reads this
    {
      Scripted(cfg, id, mode, sent, heard)
    }

    /** Sending the command the program sends next keeps to the script and moves to its next place. */
    method SendNext(cfg: Config, id: Id, ghost mode: Mode, command: Command) returns (r: Reply)
      requires OnScript(cfg, id, mode) && command == CommandOf(cfg, id, Place(cfg, id, mode))
      modifies this
      ensures OnScript(cfg, id, mode)
      ensures Place(cfg, id, mode) == Advance(cfg, id, mode, old(Place(cfg, id, mode)), r)
    {
      ScriptExtends(cfg, id, mode, sent, heard);
      r := Send(command);
    }
  }

  /** The pair the helpers pass on; nothing if the build raised. */
  function Packed(cfg: Config, mode: Mode, result: Option<(string, Caption)>): Outcome {
    match result
    case None => Raised
    case Some((body, caption)) => Answered(Reported(cfg, mode, body), caption)
  }

  method ReleaseLock(io: Conversation, cfg: Config, owner: Id, ghost mode: Mode, ghost out: Outcome)
    requires io.OnScript(cfg, owner, mode)
    requires io.Place(cfg, owner, mode).Unlock? && io.Place(cfg, owner, mode).out == out
    modifies io
    ensures io.OnScript(cfg, owner, mode) && io.Place(cfg, owner, mode) == Ended(out)
  {
    hide Driven;
    var r := io.SendNext(cfg, owner, mode, CompareAndDelete(owner));
    if !r.failed { return; }
    r := io.SendNext(cfg, owner, mode, GetLock);
    if r.failed { return; }
    if r.owner == Some(owner) {
      r := io.SendNext(cfg, owner, mode, DelLock);
    }
  }

  method CachedStringWithLock(io: Conversation, cfg: Config, owner: Id, ghost mode: Mode)
    returns (result: Option<(string, Caption)>)
    requires io.OnScript(cfg, owner, mode) && io.Place(cfg, owner, mode) == TryLock
    modifies io
    ensures io.OnScript(cfg, owner, mode) && io.Place(cfg, owner, mode) == Ended(Packed(cfg, mode, result))
  {
    hide Driven;
    var r := io.SendNext(cfg, owner, mode, SetNx(owner, cfg.lockTtl));
    if r.failed {
      r := io.SendNext(cfg, owner, mode, RunBuild);
      return if r.failed then None else Some((cfg.dumps(r.source), Bypass));
    }

    if r.owner.None? {
      r := io.SendNext(cfg, owner, mode, RunBuild);
      if r.failed {
        ReleaseLock(io, cfg, owner, mode, Raised);
        return None;
      }
      var body := cfg.dumps(r.source);
      r := io.SendNext(cfg, owner, mode, Set(body, cfg.ttl));
      ReleaseLock(io, cfg, owner, mode, Answered(Reported(cfg, mode, body), Miss));
      return Some((body, Miss));
    }

    var waited := 0;
    while waited < cfg.maxWait
      invariant io.OnScript(cfg, owner, mode) && io.Place(cfg, owner, mode) == Waiting(cfg, waited)
    {
      r := io.SendNext(cfg, owner, mode, SleepThenGet(POLL_INTERVAL));
      waited := waited + POLL_INTERVAL;
      if r.failed { break; }
      if r.text.Some? {
        return Some((r.text.value, Hit));
      }
    }

    r := io.SendNext(cfg, owner, mode, RunBuild);
    if r.failed { return None; }
    var body := cfg.dumps(r.source);
    r := io.SendNext(cfg, owner, mode, Set(body, cfg.ttl));
    return Some((body, Miss));
  }

  /** The endpoint entry takes no settings for the lock: it runs with the endpoints' own. */
  method CachedResponse(io: Conversation, cfg: Config, owner: Id) returns (response: Option<(string, Caption)>)
    requires io.sent == [] && io.heard == []
    modifies io
    ensures io.OnScript(Endpoint(cfg), owner, Handler)
    ensures io.Place(Endpoint(cfg), owner, Handler) == Ended(Packed(Endpoint(cfg), Handler, response))
  {
    var own := Endpoint(cfg);
    assert io.Place(own, owner, Handler) == Start;
    hide Driven;
    var r := io.SendNext(own, owner, Handler, Connect);
    if r.failed {
      r := io.SendNext(own, owner, Handler, RunBuild);
      return if r.failed then None else Some((own.dumps(r.source), Bypass));
    }
    r := io.SendNext(own, owner, Handler, Get);
    if !r.failed && r.text.Some? {
      return Some((r.text.value, Hit));
    }
    response := CachedStringWithLock(io, own, owner, Handler);
  }

  method CacheGetOrCompute(io: Conversation, cfg: Config, owner: Id) returns (value: Option<Answer>)
    requires io.sent == [] && io.heard == []
    modifies io
    ensures io.OnScript(cfg, owner, Value)
    ensures var pc := io.Place(cfg, owner, Value);
            && pc.Ended?
            && (value.None? <==> pc.out.Raised?)
            && (value.Some? ==> pc.out.answer == value.value)
  {
    assert io.Place(cfg, owner, Value) == Start;
    hide Driven;
    var r := io.SendNext(cfg, owner, Value, Connect);
    if !r.failed {
      r := io.SendNext(cfg, owner, Value, Get);
      if !r.failed && r.text.Some? {
        return Some(Reported(cfg, Value, r.text.value));
      }
    }
    if r.failed {
      r := io.SendNext(cfg, owner, Value, RunBuild);
      return if r.failed then None else Some(Decoded(r.source));
    }
    var result := CachedStringWithLock(io, cfg, owner, Value);
    match result
    case None => return None;
    case Some((body, _)) => return Some(Reported(cfg, Value, body));
  }
}
