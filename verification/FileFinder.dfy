/** `FileFinder` as the object it is: one shared `active` slot, one cache, and a record per call
    that methods change in place. Each method is one atomic step of a call, and its contract
    says that the object's abstract state moves exactly as `FindProtocol` says. */
module FileFinder {
  import opened FindProtocol

  /** A listing process, seen through its handle. `position` is the call that spawned it. */
  class ListingProc {
    const position: nat
    var killed: bool
    var exited: bool
    var exitCode: int

    constructor (position: nat)
      ensures this.position == position && !killed && !exited && exitCode == 0
    {
      this.position := position;
      killed, exited, exitCode := false, false, 0;
    }
  }

  /** One call's mutable record, with the suspended frame's own variables: the process it
      spawned, its timeout, and where it is suspended. */
  class ActiveFind {
    const position: nat
    const rawId: string
    const requestId: string
    const includeIgnored: bool
    const seqAt: int
    const askedAt: int
    var proc: ListingProc?
    var killed: bool
    var timedOut: bool
    var spawned: ListingProc?
    var armed: bool
    var stage: Stage

    constructor (position: nat, rawId: string, requestId: string, includeIgnored: bool, seqAt: int, askedAt: int, stage: Stage)
      ensures this.position == position && this.rawId == rawId && this.requestId == requestId
      ensures this.includeIgnored == includeIgnored
      ensures this.seqAt == seqAt && this.askedAt == askedAt && this.stage == stage
      ensures proc == null && spawned == null && !killed && !timedOut && armed
    {
      this.position, this.rawId, this.requestId := position, rawId, requestId;
      this.includeIgnored := includeIgnored;
      this.seqAt, this.askedAt, this.stage := seqAt, askedAt, stage;
      proc, spawned, killed, timedOut, armed := null, null, false, false, true;
    }

    ghost function View(): Request
      reads this, spawned
    {
      Request(rawId, requestId, includeIgnored, seqAt, askedAt, proc != null, killed, timedOut, armed,
              if spawned == null then NoProcess else Process(spawned.killed, spawned.exited, spawned.exitCode),
              stage)
    }
  }

  class Finder {
    var active: ActiveFind?
    var cache: map<bool, CacheEntry>
    var sent: seq<Reply>
    /** Every call made so far, which is what gives a record its identity in the model. */
    var calls: seq<ActiveFind>
    ghost var procs: set<ListingProc>

    ghost predicate Valid()
      reads this, calls, procs
    {
      && (forall i | 0 <= i < |calls| :: Owned(calls[i], i))
      && (active != null ==> active in calls)
    }

    ghost predicate Owned(c: ActiveFind, i: nat)
      reads this, c, procs
    {
      && c.position == i
      && (c.spawned != null ==> c.spawned in procs && c.spawned.position == i)
      && (c.proc != null ==> c.proc == c.spawned)
    }

    ghost function CallView(i: nat): Request
      requires Valid() && i < |calls|
      reads this, calls, procs
    {
      assert Owned(calls[i], i);
      calls[i].View()
    }

    ghost function State(): FindProtocol.Finder
      requires Valid()
      reads this, calls, procs
    {
      FindProtocol.Finder(seq(|calls|, i requires Valid() && 0 <= i < |calls| reads this, calls, procs => CallView(i)),
                          if active == null then -1 else active.position, cache, sent)
    }

    constructor ()
      ensures Valid() && State() == Init
    {
      active, cache, sent, calls, procs := null, map[], [], [], {};
    }

    method Abort()
      requires Valid()
      modifies this, calls, procs
      ensures Valid() && State() == FindProtocol.Abort(old(State()))
      ensures calls == old(calls) && procs == old(procs)
    {
      var a := active;
      if a == null {
        return;
      }
      a.killed := true;
      if a.proc != null {
        a.proc.killed := true;
      }
      a.proc := null;
      active := null;
    }

    /** A new call becomes the active one. */
    method Enroll(raw: string, id: string, includeIgnored: bool, seqAt: int, now: int, stage: Stage) returns (call: ActiveFind)
      requires Valid()
      modifies this
      ensures Valid() && fresh(call) && calls == old(calls) + [call] && procs == old(procs)
      ensures var s := old(State());
              State() == s.(reqs := s.reqs + [Request(raw, id, includeIgnored, seqAt, now, false, false, false, true, NoProcess, stage)],
                            active := |s.reqs|)
    {
      call := new ActiveFind(|calls|, raw, id, includeIgnored, seqAt, now, stage);
      calls := calls + [call];
      active := call;
      assert forall i | 0 <= i < |old(calls)| :: CallView(i) == old(CallView(i));
    }

    /** `find`, up to its first suspension. */
    method Find(rawId: RawId, includeIgnored: bool, seqAt: int, now: int, rulesError: string) returns (call: ActiveFind)
      requires Valid()
      modifies this, calls, procs
      ensures Valid() && fresh(call) && calls == old(calls) + [call] && procs == old(procs)
      ensures State() == Step(old(State()), Begin(rawId, includeIgnored, seqAt, now, rulesError))
    {
      Abort();
      var stage: Stage;
      if includeIgnored in cache && IsFresh(cache[includeIgnored], seqAt, now) {
        stage := Listed(cache[includeIgnored]);
      } else if rulesError != "" {
        stage := Failed(rulesError);
      } else {
        stage := Detecting;
      }
      call := Enroll(IdText(rawId), ClampId(rawId), includeIgnored, seqAt, now, stage);
    }

    /** `stop`, up to the wait for `awaited`'s exit. */
    method Stop() returns (awaited: ListingProc?)
      requires Valid()
      modifies this, calls, procs
      ensures Valid() && State() == Step(old(State()), Event.Stop)
      ensures old(active) == null ==> awaited == null
      ensures old(active) != null ==> awaited == old(active.proc)
    {
      awaited := if active == null then null else active.proc;
      Abort();
    }

    ghost predicate Mine(call: ActiveFind)
      reads this, call
    {
      call in calls && call.position < |calls| && calls[call.position] == call
    }

    twostate lemma OnlyMoved(call: ActiveFind)
      requires old(Valid()) && Valid() && calls == old(calls) && Mine(call)
      requires forall i | 0 <= i < |calls| && i != call.position :: CallView(i) == old(CallView(i))
      ensures State().reqs == old(State()).reqs[call.position := call.View()]
    {
    }

    /** A call moves on without touching anything shared. */
    method Advance(call: ActiveFind, stage: Stage)
      requires Valid() && Mine(call)
      modifies call`stage
      ensures Valid() && State() == Put(old(State()), call.position, old(call.View()).(stage := stage))
    {
      call.stage := stage;
      assert forall i | 0 <= i < |calls| && i != call.position :: CallView(i) == old(CallView(i));
    }

    /** `listFresh`, once the engine is known. */
    method EngineDetected(call: ActiveFind, engine: Engine, spawnError: string)
      requires Valid() && Mine(call) && call.stage.Detecting? && engine != NoEngine
      modifies this, call
      ensures Valid() && calls == old(calls)
      ensures State() == Step(old(State()), Event.EngineDetected(call.position, engine, spawnError))
    {
      assert CallView(call.position) == call.View();
      if active != call || call.killed {
        Advance(call, Fresh(Aborted));
      } else if engine == Walk {
        Advance(call, Walking);
      } else if spawnError != "" {
        Advance(call, Failed(spawnError));
      } else {
        Spawn(call, engine);
      }
    }

    method Spawn(call: ActiveFind, engine: Engine)
      requires Valid() && Mine(call)
      modifies this, call
      ensures Valid() && calls == old(calls)
      ensures State() == Put(old(State()), call.position,
                             old(call.View()).(stage := Reading(engine), held := true, process := Process(false, false, 0)))
    {
      var proc := new ListingProc(call.position);
      procs := procs + {proc};
      call.spawned := proc;
      call.proc := proc;
      call.stage := Reading(engine);
      assert forall i | 0 <= i < |calls| && i != call.position :: CallView(i) == old(CallView(i));
    }

    /** The read loop is over; a capped one kills its own process. */
    method StreamEnds(call: ActiveFind, paths: seq<string>, capped: bool)
      requires Valid() && Mine(call) && call.stage.Reading? && call.spawned != null
      modifies call, call.spawned
      ensures Valid()
      ensures State() == Step(old(State()), Event.StreamEnds(call.position, paths, capped))
    {
      if capped {
        call.spawned.killed := true;
      }
      call.stage := Exiting(call.stage.engine, paths, capped);
      assert forall i | 0 <= i < |calls| && i != call.position :: CallView(i) == old(CallView(i));
    }

    /** The environment: a process is gone. */
    method ProcessExits(call: ActiveFind, exitCode: int)
      requires Valid() && Mine(call) && call.spawned != null && !call.spawned.exited
      modifies call.spawned
      ensures Valid()
      ensures State() == Step(old(State()), Event.ProcessExits(call.position, exitCode))
    {
      call.spawned.exited := true;
      call.spawned.exitCode := exitCode;
      assert forall i | 0 <= i < |calls| && i != call.position :: CallView(i) == old(CallView(i));
    }

    /** `listViaSpawn`, after `proc.exited`. */
    method ExitSeen(call: ActiveFind)
      requires Valid() && Mine(call) && call.stage.Exiting? && call.spawned != null && call.spawned.exited
      modifies call
      ensures Valid()
      ensures State() == Step(old(State()), Event.ExitSeen(call.position))
    {
      var proc, engine := call.spawned, call.stage.engine;
      if call.proc == proc {
        call.proc := null;
      }
      var complete := if call.killed then false else call.stage.capped || proc.exitCode == 0;
      call.stage := SpawnDone(engine, Listing(call.stage.paths, call.stage.capped, engine, complete, call.killed));
      assert forall i | 0 <= i < |calls| && i != call.position :: CallView(i) == old(CallView(i));
      OnlyMoved(call);
    }

    /** `listFresh`, after the spawn: git's own failure, and only that, falls back to the walk. */
    method SpawnReturned(call: ActiveFind)
      requires Valid() && Mine(call) && call.stage.SpawnDone?
      modifies call
      ensures Valid()
      ensures State() == Step(old(State()), Event.SpawnReturned(call.position))
    {
      var result := call.stage.listing;
      if call.stage.engine == GitLsFiles && !(result.complete || call.killed) {
        call.stage := Walking;
      } else {
        call.stage := Fresh(result);
      }
      assert forall i | 0 <= i < |calls| && i != call.position :: CallView(i) == old(CallView(i));
      OnlyMoved(call);
    }

    /** The walk's poll: superseded, stopped or timed out. */
    predicate WalkCancelled(call: ActiveFind)
      reads this, call
    {
      call.killed || active != call
    }

    method WalkReturned(call: ActiveFind, cancelSeen: bool, paths: seq<string>, truncated: bool)
      requires Valid() && Mine(call) && call.stage.Walking? && (cancelSeen ==> WalkCancelled(call))
      modifies call
      ensures Valid()
      ensures State() == Step(old(State()), if cancelSeen then Event.WalkStopped(call.position)
                                            else Event.WalkEnds(call.position, paths, truncated))
    {
      call.stage := Fresh(if cancelSeen then Aborted else Listing(paths, truncated, Walk, true, false));
      assert forall i | 0 <= i < |calls| && i != call.position :: CallView(i) == old(CallView(i));
    }

    /** `listPaths`, after `listFresh`: the one place the cache is written. */
    method ListFreshReturned(call: ActiveFind)
      requires Valid() && Mine(call) && call.stage.Fresh?
      modifies this, call
      ensures Valid() && calls == old(calls)
      ensures State() == Step(old(State()), Event.ListFreshReturned(call.position))
    {
      var result := call.stage.listing;
      var entry := CacheEntry(call.seqAt, call.askedAt, result, call.position);
      if result.complete && active == call {
        cache := cache[call.includeIgnored := entry];
      }
      call.stage := Listed(entry);
      assert forall i | 0 <= i < |calls| && i != call.position :: CallView(i) == old(CallView(i));
      OnlyMoved(call);
    }

    /** A reply goes out, and clears `active` by request id. */
    method Reply(call: ActiveFind, reply: FindProtocol.Reply)
      requires Valid() && Mine(call) && reply.requestId == call.requestId
      modifies this, call
      ensures Valid() && calls == old(calls)
      ensures State() == DoReply(old(State()), call.position, reply)
    {
      call.stage := Replied;
      call.armed := false;
      sent := sent + [reply];
      if active != null && active.requestId == reply.requestId {
        active := null;
      }
      assert forall i | 0 <= i < |calls| && i != call.position :: CallView(i) == old(CallView(i));
      OnlyMoved(call);
    }

    /** `find`, after `listPaths`: disarm, then refuse or go on to match. */
    method ListPathsReturned(call: ActiveFind)
      requires Valid() && Mine(call) && call.stage.Listed?
      modifies this, call
      ensures Valid() && calls == old(calls)
      ensures State() == Step(old(State()), Event.ListPathsReturned(call.position))
    {
      if call.killed {
        Reply(call, Refused(call.position, call.requestId, if call.timedOut then TIMED_OUT else SUPERSEDED));
      } else {
        call.armed := false;
        call.stage := Matching(call.stage.entry);
        assert forall i | 0 <= i < |calls| && i != call.position :: CallView(i) == old(CallView(i));
      }
    }

    method ListPathsFailed(call: ActiveFind)
      requires Valid() && Mine(call) && call.stage.Failed?
      modifies this, call
      ensures Valid() && calls == old(calls)
      ensures State() == Step(old(State()), Event.ListPathsFailed(call.position))
    {
      Reply(call, Refused(call.position, call.requestId, call.stage.error));
    }

    method MatchReturned(call: ActiveFind)
      requires Valid() && Mine(call) && call.stage.Matching?
      modifies this, call
      ensures Valid() && calls == old(calls)
      ensures State() == Step(old(State()), Event.MatchReturned(call.position))
    {
      Reply(call, Answered(call.position, call.requestId, call.stage.entry));
    }

    /** `marked` throws after the match: the dispatcher's catch answers, and nothing clears
        `active`. */
    method MarkFails(call: ActiveFind, error: string)
      requires Valid() && Mine(call) && call.stage.Matching? && call.includeIgnored
      modifies this, call
      ensures Valid() && calls == old(calls) && active == old(active)
      ensures State() == Step(old(State()), Event.MarkFails(call.position, error))
    {
      call.stage := Replied;
      sent := sent + [Caught(call.position, call.rawId, error)];
      assert forall i | 0 <= i < |calls| && i != call.position :: CallView(i) == old(CallView(i));
    }

    /** The armed timeout: it acts on its own call or not at all. */
    method TimeoutFires(call: ActiveFind)
      requires Valid() && Mine(call) && call.armed
      modifies call, call.spawned
      ensures Valid()
      ensures State() == Step(old(State()), Event.TimeoutFires(call.position))
    {
      if active != call {
        return;
      }
      call.timedOut := true;
      call.killed := true;
      if call.proc != null {
        call.proc.killed := true;
      }
      call.proc := null;
      assert forall i | 0 <= i < |calls| && i != call.position :: CallView(i) == old(CallView(i));
      OnlyMoved(call);
    }
  }
}
