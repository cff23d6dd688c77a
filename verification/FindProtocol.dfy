/** Overlapping `find` calls on one finder, as states and atomic steps.

    A step is what the source runs between two suspensions, or something the environment does
    (a process exits, a timer fires). Any sequence of events is a run; an event that does not
    apply where a request stands changes nothing. */
module FindProtocol {

  datatype Engine = Ripgrep | GitLsFiles | Walk | NoEngine

  /** What one listing run produced. `cut` is bookkeeping: a supersede, a timeout or a stop is
      what ended the run. */
  datatype Listing = Listing(paths: seq<string>, truncated: bool, engine: Engine, complete: bool, cut: bool)

  /** A listing with the freshness it was asked at. `listedBy` and `cut` are bookkeeping. */
  datatype CacheEntry = CacheEntry(seqAt: int, listedAt: int, listing: Listing, listedBy: nat)

  /** Where a call is suspended, with the locals it holds there. */
  datatype Stage =
    | Detecting                                                              // detectFindEngine
    | Reading(engine: Engine)                                                // the read loop
    | Exiting(engine: Engine, paths: seq<string>, capped: bool)              // proc.exited
    | SpawnDone(engine: Engine, listing: Listing)                            // listFresh, after the spawn
    | Walking                                                                // a walk yield
    | Fresh(listing: Listing)                                                // listPaths, after listFresh
    | Listed(entry: CacheEntry)                                              // find, after listPaths
    | Failed(error: string)                                                  // find, a rejection arriving
    | Matching(entry: CacheEntry)                                            // find, after match
    | Replied

  /** The operating-system side of the one process a call may spawn. */
  datatype Process = NoProcess | Process(killSent: bool, exited: bool, exitCode: int)

  /** One call: its id as it arrived and clamped, its `ActiveFind` record (`held` says `proc` is
      not null), its armed timeout, its process and its suspension point. */
  datatype Request = Request(raw: string, id: string, includeIgnored: bool, seqAt: int, now: int,
                             held: bool, killed: bool, timedOut: bool, armed: bool,
                             process: Process, stage: Stage)

  /** `Answered` carries the listing matched against; `Refused` is an empty, truncated reply from
      engine "none" with an error; `Caught` is the same reply from the dispatcher, for a `find`
      that threw, under the id as it arrived. */
  datatype Reply =
    | Answered(caller: nat, requestId: string, from: CacheEntry)
    | Refused(caller: nat, requestId: string, error: string)
    | Caught(caller: nat, requestId: string, error: string)

  /** `active` is a position in `reqs`, or -1 for null. */
  datatype Finder = Finder(reqs: seq<Request>, active: int, cache: map<bool, CacheEntry>, sent: seq<Reply>)

  const FIND_CACHE_MIN_TTL_MS := 2000
  const TIMED_OUT := "file listing timed out"
  const SUPERSEDED := "superseded by a newer file:find"

  /** A request id as it arrives: anything at all. */
  datatype RawId = Text(text: string) | NotText

  const MAX_ID_LEN := 256

  function IdText(raw: RawId): string {
    match raw
    case Text(t) => t
    case NotText => ""
  }

  function ClampId(raw: RawId): string {
    var t := IdText(raw);
    if |t| <= MAX_ID_LEN then t else t[..MAX_ID_LEN]
  }

  datatype Event =
    | Begin(rawId: RawId, includeIgnored: bool, seqAt: int, now: int, rulesError: string)
    | EngineDetected(i: nat, engine: Engine, spawnError: string)
    | StreamEnds(i: nat, paths: seq<string>, capped: bool)
    | ProcessExits(i: nat, exitCode: int)
    | ExitSeen(i: nat)
    | SpawnReturned(i: nat)
    | WalkStopped(i: nat)
    | WalkEnds(i: nat, paths: seq<string>, truncated: bool)
    | ListFreshReturned(i: nat)
    | ListPathsReturned(i: nat)
    | ListPathsFailed(i: nat)
    | MatchReturned(i: nat)
    | MarkFails(i: nat, error: string)
    | TimeoutFires(i: nat)
    | Stop

  const Init := Finder([], -1, map[], [])

  // ---------------------------------------------------------------- the steps

  function Put(s: Finder, i: nat, r: Request): Finder
    requires i < |s.reqs|
  {
    s.(reqs := s.reqs[i := r])
  }

  /** `proc.kill()` on the process a record holds, and the record letting go of it. */
  function KillHeld(r: Request): Request {
    if r.held && r.process.Process? then r.(held := false, process := r.process.(killSent := true))
    else r.(held := false)
  }

  function Abort(s: Finder): Finder {
    if 0 <= s.active < |s.reqs| then
      Put(s, s.active, KillHeld(s.reqs[s.active].(killed := true))).(active := -1)
    else s
  }

  function IsFresh(c: CacheEntry, seqAt: int, now: int): bool {
    c.seqAt == seqAt || now - c.listedAt < FIND_CACHE_MIN_TTL_MS
  }

  function DoBegin(s: Finder, raw: string, id: string, includeIgnored: bool, seqAt: int, now: int, rulesError: string): Finder {
    var a := Abort(s);
    var stage :=
      if includeIgnored in a.cache && IsFresh(a.cache[includeIgnored], seqAt, now)
      then Listed(a.cache[includeIgnored])
      else if rulesError != "" then Failed(rulesError)
      else Detecting;
    var r := Request(raw, id, includeIgnored, seqAt, now, false, false, false, true, NoProcess, stage);
    a.(reqs := a.reqs + [r], active := |a.reqs|)
  }

  /** Neither superseded, stopped nor timed out. */
  predicate Current(s: Finder, i: nat)
    requires i < |s.reqs|
  {
    s.active == i && !s.reqs[i].killed
  }

  const Aborted := Listing([], false, NoEngine, false, true)

  function DoEngineDetected(s: Finder, i: nat, engine: Engine, spawnError: string): Finder
    requires i < |s.reqs|
  {
    var r := s.reqs[i];
    if !Current(s, i) then Put(s, i, r.(stage := Fresh(Aborted)))
    else if engine == Walk then Put(s, i, r.(stage := Walking))
    else if spawnError != "" then Put(s, i, r.(stage := Failed(spawnError)))
    else Put(s, i, r.(stage := Reading(engine), held := true, process := Process(false, false, 0)))
  }

  function DoStreamEnds(s: Finder, i: nat, paths: seq<string>, capped: bool): Finder
    requires i < |s.reqs| && s.reqs[i].stage.Reading?
  {
    var r := s.reqs[i];
    var process := if capped && r.process.Process? then r.process.(killSent := true) else r.process;
    Put(s, i, r.(stage := Exiting(r.stage.engine, paths, capped), process := process))
  }

  function DoExitSeen(s: Finder, i: nat): Finder
    requires i < |s.reqs| && s.reqs[i].stage.Exiting? && s.reqs[i].process.Process?
  {
    var r := s.reqs[i];
    var complete := !r.killed && (r.stage.capped || r.process.exitCode == 0);
    var listing := Listing(r.stage.paths, r.stage.capped, r.stage.engine, complete, r.killed);
    Put(s, i, r.(stage := SpawnDone(r.stage.engine, listing), held := false))
  }

  function DoSpawnReturned(s: Finder, i: nat): Finder
    requires i < |s.reqs| && s.reqs[i].stage.SpawnDone?
  {
    var r := s.reqs[i];
    if r.stage.engine == GitLsFiles && !r.stage.listing.complete && !r.killed
    then Put(s, i, r.(stage := Walking))
    else Put(s, i, r.(stage := Fresh(r.stage.listing)))
  }

  function DoListFreshReturned(s: Finder, i: nat): Finder
    requires i < |s.reqs| && s.reqs[i].stage.Fresh?
  {
    var r := s.reqs[i];
    var entry := CacheEntry(r.seqAt, r.now, r.stage.listing, i);
    var cache := if entry.listing.complete && s.active == i then s.cache[r.includeIgnored := entry] else s.cache;
    Put(s, i, r.(stage := Listed(entry))).(cache := cache)
  }

  function DoReply(s: Finder, i: nat, reply: Reply): Finder
    requires i < |s.reqs|
  {
    var clear := 0 <= s.active < |s.reqs| && s.reqs[s.active].id == reply.requestId;
    Put(s, i, s.reqs[i].(stage := Replied, armed := false))
      .(sent := s.sent + [reply], active := if clear then -1 else s.active)
  }

  /** `marked` threw: the call is over, the dispatcher answers for it, and `active` stays put. */
  function DoMarkFails(s: Finder, i: nat, error: string): Finder
    requires i < |s.reqs|
  {
    Put(s, i, s.reqs[i].(stage := Replied)).(sent := s.sent + [Caught(i, s.reqs[i].raw, error)])
  }

  function DoListPathsReturned(s: Finder, i: nat): Finder
    requires i < |s.reqs| && s.reqs[i].stage.Listed?
  {
    var r := s.reqs[i];
    if r.killed then DoReply(s, i, Refused(i, r.id, if r.timedOut then TIMED_OUT else SUPERSEDED))
    else Put(s, i, r.(stage := Matching(r.stage.entry), armed := false))
  }

  function DoTimeout(s: Finder, i: nat): Finder
    requires i < |s.reqs|
  {
    if s.active != i then s
    else Put(s, i, KillHeld(s.reqs[i].(timedOut := true, killed := true)))
  }

  /** Where an event can happen. */
  predicate Applies(s: Finder, e: Event) {
    match e
    case Begin(_, _, _, _, _) => true
    case Stop => true
    case EngineDetected(i, engine, _) => i < |s.reqs| && s.reqs[i].stage.Detecting? && engine != NoEngine
    case StreamEnds(i, _, _) => i < |s.reqs| && s.reqs[i].stage.Reading?
    case ProcessExits(i, _) => i < |s.reqs| && s.reqs[i].process.Process? && !s.reqs[i].process.exited
    case ExitSeen(i) => i < |s.reqs| && s.reqs[i].stage.Exiting? && s.reqs[i].process.Process? && s.reqs[i].process.exited
    case SpawnReturned(i) => i < |s.reqs| && s.reqs[i].stage.SpawnDone?
    case WalkStopped(i) => i < |s.reqs| && s.reqs[i].stage.Walking? && !Current(s, i)
    case WalkEnds(i, _, _) => i < |s.reqs| && s.reqs[i].stage.Walking?
    case ListFreshReturned(i) => i < |s.reqs| && s.reqs[i].stage.Fresh?
    case ListPathsReturned(i) => i < |s.reqs| && s.reqs[i].stage.Listed?
    case ListPathsFailed(i) => i < |s.reqs| && s.reqs[i].stage.Failed?
    case MatchReturned(i) => i < |s.reqs| && s.reqs[i].stage.Matching?
    case MarkFails(i, _) => i < |s.reqs| && s.reqs[i].stage.Matching? && s.reqs[i].includeIgnored
    case TimeoutFires(i) => i < |s.reqs| && s.reqs[i].armed
  }

  function Step(s: Finder, e: Event): Finder {
    if !Applies(s, e) then s else
    match e
    case Begin(raw, includeIgnored, seqAt, now, rulesError) =>
      DoBegin(s, IdText(raw), ClampId(raw), includeIgnored, seqAt, now, rulesError)
    case Stop => Abort(s)
    case EngineDetected(i, engine, spawnError) => DoEngineDetected(s, i, engine, spawnError)
    case StreamEnds(i, paths, capped) => DoStreamEnds(s, i, paths, capped)
    case ProcessExits(i, code) => Put(s, i, s.reqs[i].(process := s.reqs[i].process.(exited := true, exitCode := code)))
    case ExitSeen(i) => DoExitSeen(s, i)
    case SpawnReturned(i) => DoSpawnReturned(s, i)
    case WalkStopped(i) => Put(s, i, s.reqs[i].(stage := Fresh(Aborted)))
    case WalkEnds(i, paths, truncated) => Put(s, i, s.reqs[i].(stage := Fresh(Listing(paths, truncated, Walk, true, false))))
    case ListFreshReturned(i) => DoListFreshReturned(s, i)
    case ListPathsReturned(i) => DoListPathsReturned(s, i)
    case ListPathsFailed(i) => DoReply(s, i, Refused(i, s.reqs[i].id, s.reqs[i].stage.error))
    case MatchReturned(i) => DoReply(s, i, Answered(i, s.reqs[i].id, s.reqs[i].stage.entry))
    case MarkFails(i, error) => DoMarkFails(s, i, error)
    case TimeoutFires(i) => DoTimeout(s, i)
  }

  function Exec(s: Finder, events: seq<Event>): Finder {
    if events == [] then s else Step(Exec(s, events[..|events| - 1]), events[|events| - 1])
  }

  function Run(events: seq<Event>): Finder {
    Exec(Init, events)
  }

  lemma ExecNext(s: Finder, events: seq<Event>, e: Event)
    ensures Exec(s, events + [e]) == Step(Exec(s, events), e)
  {
    assert (events + [e])[..|events|] == events;
  }

  // ---------------------------------------------------------------- the assumption

  ghost predicate NewId(s: Finder, id: string) {
    forall i | 0 <= i < |s.reqs| && !s.reqs[i].stage.Replied? :: s.reqs[i].id != id
  }

  /** Overlapping finds carry distinct ids, after clamping. */
  ghost predicate IdsDistinct(events: seq<Event>) {
    forall k | 0 <= k < |events| && events[k].Begin? :: NewId(Run(events[..k]), ClampId(events[k].rawId))
  }

  // ---------------------------------------------------------------- the invariant

  ghost predicate EntryInv(s: Finder, key: bool, e: CacheEntry) {
    && e.listedBy < |s.reqs|
    && s.reqs[e.listedBy].includeIgnored == key
    && e.seqAt == s.reqs[e.listedBy].seqAt && e.listedAt == s.reqs[e.listedBy].now
  }

  /** An entry call `i` may answer from: its own run's, or a complete one fresh when it asked. */
  ghost predicate SourceInv(s: Finder, i: nat, e: CacheEntry)
    requires i < |s.reqs|
  {
    && EntryInv(s, s.reqs[i].includeIgnored, e)
    && (e.listedBy != i ==> e.listing.complete && !e.listing.cut && IsFresh(e, s.reqs[i].seqAt, s.reqs[i].now))
  }

  ghost predicate StageInv(s: Finder, i: nat)
    requires i < |s.reqs|
  {
    var r := s.reqs[i];
    match r.stage
    case Detecting => r.process.NoProcess?
    case Reading(_) => r.process.Process?
    case Exiting(_, _, _) => r.process.Process?
    case SpawnDone(_, l) => (l.cut ==> r.killed) && (l.complete ==> !l.cut)
    case Walking => true
    case Fresh(l) => (l.cut ==> r.killed) && (l.complete ==> !l.cut)
    case Listed(e) => SourceInv(s, i, e) && (e.listing.cut ==> r.killed)
    case Failed(_) => true
    case Matching(e) => SourceInv(s, i, e) && !e.listing.cut
    case Replied => true
  }

  ghost predicate RequestInv(s: Finder, i: nat)
    requires i < |s.reqs|
  {
    var r := s.reqs[i];
    && (!r.stage.Replied? && s.active != i ==> r.killed)
    && (r.held ==> s.active == i && !r.killed && r.process.Process? && (r.stage.Reading? || r.stage.Exiting?))
    && (r.process.Process? && !r.process.killSent && !r.process.exited ==> r.held)
    && (r.stage.Replied? || r.stage.Matching? ==> !r.armed)
    && StageInv(s, i)
  }

  function IdFor(r: Request, p: Reply): string {
    if p.Caught? then r.raw else r.id
  }

  /** A sent reply carries its caller's id, the dispatcher's as it arrived, and one without an error rests on a listing that no
      supersede, timeout or stop cut short. */
  ghost predicate ReplyInv(s: Finder, p: Reply) {
    && p.caller < |s.reqs| && s.reqs[p.caller].stage.Replied? && p.requestId == IdFor(s.reqs[p.caller], p)
    && (p.Answered? ==> SourceInv(s, p.caller, p.from) && !p.from.listing.cut)
  }

  ghost predicate HasReply(sent: seq<Reply>, i: nat) {
    exists k | 0 <= k < |sent| :: sent[k].caller == i
  }

  /** Exactly the finished calls have replies, one each. */
  ghost predicate SentInv(s: Finder) {
    && (forall p | p in s.sent :: ReplyInv(s, p))
    && (forall j, k | 0 <= j < k < |s.sent| :: s.sent[j].caller != s.sent[k].caller)
    && (forall i | 0 <= i < |s.reqs| && s.reqs[i].stage.Replied? :: HasReply(s.sent, i))
  }

  /** The cache holds, under its own flag, complete listings stamped as their runs were asked. */
  ghost predicate CacheInv(s: Finder) {
    forall key | key in s.cache ::
      EntryInv(s, key, s.cache[key]) && s.cache[key].listing.complete && !s.cache[key].listing.cut
  }

  /** Unanswered, or still in the `active` slot though the dispatcher has answered for it. */
  predicate InPlay(s: Finder, i: nat)
    requires i < |s.reqs|
  {
    !s.reqs[i].stage.Replied? || s.active == i
  }

  ghost predicate Inv(s: Finder) {
    && -1 <= s.active < |s.reqs|
    && (forall i | 0 <= i < |s.reqs| :: RequestInv(s, i))
    && (forall i, j | 0 <= i < j < |s.reqs| && InPlay(s, i) && InPlay(s, j) :: s.reqs[i].id != s.reqs[j].id)
    && CacheInv(s)
    && SentInv(s)
  }

  // ---------------------------------------------------------------- what every step keeps

  /** The part of a request no step changes after it began. */
  predicate SameCall(a: Request, b: Request) {
    a.raw == b.raw && a.id == b.id && a.includeIgnored == b.includeIgnored && a.seqAt == b.seqAt && a.now == b.now
  }

  /** `t` has every call of `s`, as it began, and possibly new unanswered ones. */
  ghost predicate Extends(s: Finder, t: Finder) {
    && |s.reqs| <= |t.reqs|
    && (forall j | 0 <= j < |s.reqs| :: SameCall(s.reqs[j], t.reqs[j]))
  }

  lemma SourceFrame(s: Finder, t: Finder, i: nat, e: CacheEntry)
    requires Extends(s, t) && i < |s.reqs| && SourceInv(s, i, e)
    ensures SourceInv(t, i, e)
  {
  }

  /** A call that a step left alone. */
  lemma RequestFrame(s: Finder, t: Finder, j: nat)
    requires Extends(s, t) && j < |s.reqs| && RequestInv(s, j)
    requires t.reqs[j] == s.reqs[j]
    requires s.active == j <==> t.active == j
    ensures RequestInv(t, j)
  {
    match s.reqs[j].stage
    case Listed(e) => SourceFrame(s, t, j, e);
    case Matching(e) => SourceFrame(s, t, j, e);
    case _ =>
  }

  /** No reply sent, no call finished. */
  lemma SentFrame(s: Finder, t: Finder)
    requires Extends(s, t) && SentInv(s) && t.sent == s.sent
    requires forall j | 0 <= j < |s.reqs| :: t.reqs[j].stage.Replied? <==> s.reqs[j].stage.Replied?
    requires forall j | |s.reqs| <= j < |t.reqs| :: !t.reqs[j].stage.Replied?
    ensures SentInv(t)
  {
    forall p | p in t.sent ensures ReplyInv(t, p) {
      assert ReplyInv(s, p);
      if p.Answered? { SourceFrame(s, t, p.caller, p.from); }
    }
  }

  lemma CacheFrame(s: Finder, t: Finder)
    requires Extends(s, t) && CacheInv(s) && t.cache == s.cache
    ensures CacheInv(t)
  {
  }

  /** Changing one call, nothing else. */
  lemma PutKeepsInv(s: Finder, i: nat, r: Request)
    requires Inv(s) && i < |s.reqs| && SameCall(r, s.reqs[i])
    requires s.reqs[i].stage.Replied? <==> r.stage.Replied?
    requires RequestInv(Put(s, i, r), i)
    ensures Inv(Put(s, i, r))
  {
    var t := Put(s, i, r);
    forall j | 0 <= j < |t.reqs| && j != i ensures RequestInv(t, j) {
      RequestFrame(s, t, j);
    }
    SentFrame(s, t);
    CacheFrame(s, t);
  }

  /** A process exits, whatever its call is doing. */
  lemma ExitKeepsInv(s: Finder, i: nat, code: int)
    requires Inv(s) && Applies(s, ProcessExits(i, code))
    ensures Inv(Step(s, ProcessExits(i, code)))
  {
    var t := Step(s, ProcessExits(i, code));
    assert RequestInv(s, i);
    match s.reqs[i].stage {
      case Listed(e) => SourceFrame(s, t, i, e);
      case Matching(e) => SourceFrame(s, t, i, e);
      case _ =>
    }
    PutKeepsInv(s, i, t.reqs[i]);
  }

  /** Emptying the `active` slot once its call is doomed. */
  lemma UnseatKeepsInv(s: Finder)
    requires Inv(s) && s.active != -1 && s.reqs[s.active].killed && !s.reqs[s.active].held
    ensures Inv(s.(active := -1))
  {
    var t, i := s.(active := -1), s.active;
    assert RequestInv(s, i);
    forall j | 0 <= j < |t.reqs| ensures RequestInv(t, j) {
      if j == i {
        match s.reqs[i].stage
        case Listed(e) => SourceFrame(s, t, i, e);
        case Matching(e) => SourceFrame(s, t, i, e);
        case _ =>
      } else {
        RequestFrame(s, t, j);
      }
    }
    SentFrame(s, t);
    CacheFrame(s, t);
  }

  lemma AbortKeepsInv(s: Finder)
    requires Inv(s)
    ensures Inv(Abort(s)) && Extends(s, Abort(s)) && |Abort(s).reqs| == |s.reqs|
    ensures forall j | 0 <= j < |s.reqs| :: Abort(s).reqs[j].stage == s.reqs[j].stage
  {
    var t := Abort(s);
    if s.active != -1 {
      var i := s.active;
      assert RequestInv(s, i);
      PutKeepsInv(s, i, t.reqs[i]);
      UnseatKeepsInv(Put(s, i, t.reqs[i]));
    }
  }

  lemma BeginKeepsInv(s: Finder, raw: string, id: string, includeIgnored: bool, seqAt: int, now: int, rulesError: string)
    requires Inv(s) && NewId(s, id)
    ensures Inv(DoBegin(s, raw, id, includeIgnored, seqAt, now, rulesError))
  {
    AbortKeepsInv(s);
    var a, t := Abort(s), DoBegin(s, raw, id, includeIgnored, seqAt, now, rulesError);
    assert Extends(a, t);
    forall j | 0 <= j < |a.reqs| ensures RequestInv(t, j) {
      RequestFrame(a, t, j);
    }
    SentFrame(a, t);
    CacheFrame(a, t);
  }

  lemma ReplyKeepsInv(s: Finder, i: nat, reply: Reply)
    requires Inv(s) && i < |s.reqs| && !s.reqs[i].stage.Replied? && !s.reqs[i].held
    requires reply.caller == i && reply.requestId == s.reqs[i].id && !reply.Caught?
    requires reply.Answered? ==> SourceInv(s, i, reply.from) && !reply.from.listing.cut
    ensures Inv(DoReply(s, i, reply))
    ensures DoReply(s, i, reply).active == if s.active == i then -1 else s.active
  {
    var t := DoReply(s, i, reply);
    assert RequestInv(s, i);
    forall j | 0 <= j < |t.reqs| && j != i ensures RequestInv(t, j) {
      RequestFrame(s, t, j);
    }
    if reply.Answered? { SourceFrame(s, t, i, reply.from); }
    SentGrows(s, t, i, reply);
    CacheFrame(s, t);
  }

  lemma MarkFailsKeepsInv(s: Finder, i: nat, error: string)
    requires Inv(s) && Applies(s, MarkFails(i, error))
    ensures Inv(DoMarkFails(s, i, error))
  {
    var t := DoMarkFails(s, i, error);
    assert RequestInv(s, i);
    forall j | 0 <= j < |t.reqs| && j != i ensures RequestInv(t, j) {
      RequestFrame(s, t, j);
    }
    SentGrows(s, t, i, Caught(i, s.reqs[i].raw, error));
    CacheFrame(s, t);
  }

  /** One call finished, one reply sent. */
  lemma SentGrows(s: Finder, t: Finder, i: nat, reply: Reply)
    requires Extends(s, t) && |t.reqs| == |s.reqs| && SentInv(s)
    requires i < |s.reqs| && !s.reqs[i].stage.Replied? && t.reqs[i].stage.Replied?
    requires forall j | 0 <= j < |s.reqs| && j != i :: t.reqs[j] == s.reqs[j]
    requires t.sent == s.sent + [reply] && reply.caller == i && reply.requestId == IdFor(s.reqs[i], reply)
    requires reply.Answered? ==> SourceInv(t, i, reply.from) && !reply.from.listing.cut
    ensures SentInv(t)
  {
    assert t.sent[|s.sent|] == reply;
    forall p | p in t.sent ensures ReplyInv(t, p) {
      if p != reply {
        assert ReplyInv(s, p);
        if p.Answered? { SourceFrame(s, t, p.caller, p.from); }
      }
    }
    forall j | 0 <= j < |t.reqs| && t.reqs[j].stage.Replied? ensures HasReply(t.sent, j) {
      if j != i {
        assert HasReply(s.sent, j);
        var k :| 0 <= k < |s.sent| && s.sent[k].caller == j;
        assert t.sent[k].caller == j;
      }
    }
    forall j, k | 0 <= j < k < |t.sent| ensures t.sent[j].caller != t.sent[k].caller {
      assert t.sent[j] == s.sent[j] && s.sent[j] in s.sent;
      assert ReplyInv(s, s.sent[j]);
    }
  }

  lemma ListFreshKeepsInv(s: Finder, i: nat)
    requires Inv(s) && Applies(s, ListFreshReturned(i))
    ensures Inv(DoListFreshReturned(s, i))
  {
    var t := DoListFreshReturned(s, i);
    assert RequestInv(s, i);
    PutKeepsInv(s, i, t.reqs[i]);
    var u := Put(s, i, t.reqs[i]);
    assert t == u.(cache := t.cache);
    forall j | 0 <= j < |t.reqs| ensures RequestInv(t, j) {
      RequestFrame(u, t, j);
    }
    SentFrame(u, t);
  }

  lemma ListPathsKeepsInv(s: Finder, i: nat)
    requires Inv(s) && Applies(s, ListPathsReturned(i))
    ensures Inv(DoListPathsReturned(s, i))
  {
    assert RequestInv(s, i);
    if s.reqs[i].killed {
      ReplyKeepsInv(s, i, Refused(i, s.reqs[i].id, if s.reqs[i].timedOut then TIMED_OUT else SUPERSEDED));
    } else {
      PutKeepsInv(s, i, DoListPathsReturned(s, i).reqs[i]);
    }
  }

  lemma TimeoutKeepsInv(s: Finder, i: nat)
    requires Inv(s) && Applies(s, TimeoutFires(i))
    ensures Inv(DoTimeout(s, i))
  {
    if s.active == i {
      assert RequestInv(s, i);
      PutKeepsInv(s, i, DoTimeout(s, i).reqs[i]);
    }
  }

  /** The steps of the listing machinery, which touch one call's own record only. */
  lemma ListingStepKeepsInv(s: Finder, e: Event)
    requires Inv(s) && Applies(s, e)
    requires e.EngineDetected? || e.StreamEnds? || e.ExitSeen? || e.SpawnReturned? || e.WalkStopped? || e.WalkEnds?
    ensures Inv(Step(s, e))
  {
    assert RequestInv(s, e.i);
    var t := Step(s, e);
    assert t == Put(s, e.i, t.reqs[e.i]) && SameCall(t.reqs[e.i], s.reqs[e.i]);
    assert RequestInv(t, e.i) by { ListingStepKeepsOwn(s, e); }
    PutKeepsInv(s, e.i, t.reqs[e.i]);
  }

  lemma ListingStepKeepsOwn(s: Finder, e: Event)
    requires Inv(s) && Applies(s, e)
    requires e.EngineDetected? || e.StreamEnds? || e.ExitSeen? || e.SpawnReturned? || e.WalkStopped? || e.WalkEnds?
    ensures RequestInv(Step(s, e), e.i)
  {
    assert RequestInv(s, e.i);
  }

  lemma StepKeepsInv(s: Finder, e: Event)
    requires Inv(s) && (e.Begin? ==> NewId(s, ClampId(e.rawId)))
    ensures Inv(Step(s, e))
  {
    if Applies(s, e) {
      match e
      case Begin(raw, includeIgnored, seqAt, now, rulesError) =>
        BeginKeepsInv(s, IdText(raw), ClampId(raw), includeIgnored, seqAt, now, rulesError);
      case Stop => AbortKeepsInv(s);
      case ProcessExits(i, code) => ExitKeepsInv(s, i, code);
      case ListFreshReturned(i) => ListFreshKeepsInv(s, i);
      case ListPathsReturned(i) => ListPathsKeepsInv(s, i);
      case ListPathsFailed(i) =>
        assert RequestInv(s, i);
        ReplyKeepsInv(s, i, Refused(i, s.reqs[i].id, s.reqs[i].stage.error));
      case MatchReturned(i) =>
        assert RequestInv(s, i);
        ReplyKeepsInv(s, i, Answered(i, s.reqs[i].id, s.reqs[i].stage.entry));
      case MarkFails(i, error) => MarkFailsKeepsInv(s, i, error);
      case TimeoutFires(i) => TimeoutKeepsInv(s, i);
      case _ => ListingStepKeepsInv(s, e);
    }
  }

  lemma {:induction false} RunKeepsInv(events: seq<Event>)
    requires IdsDistinct(events)
    ensures Inv(Run(events))
  {
    if events != [] {
      var n := |events| - 1;
      assert forall k | 0 <= k < n :: events[..n][..k] == events[..k];
      RunKeepsInv(events[..n]);
      StepKeepsInv(Run(events[..n]), events[n]);
    }
  }

  // ---------------------------------------------------------------- the promises

  /** Every reply without an error comes from a listing that ran to its own end. */
  ghost predicate Honest(s: Finder) {
    forall p | p in s.sent && p.Answered? :: !p.from.listing.cut
  }

  ghost predicate RepliesAreTheirCallers(s: Finder) {
    && (forall p | p in s.sent :: p.caller < |s.reqs| && p.requestId == IdFor(s.reqs[p.caller], p))
    && (forall j, k | 0 <= j < k < |s.sent| :: s.sent[j].caller != s.sent[k].caller)
    && (forall i | 0 <= i < |s.reqs| :: s.reqs[i].stage.Replied? <==> HasReply(s.sent, i))
  }

  /** Whatever the interleaving: one reply per finished call, none for an unfinished one, each
      with its caller's id, and no cut listing ever passed off as an answer. */
  lemma RepliesAreExactAndHonest(events: seq<Event>)
    requires IdsDistinct(events)
    ensures RepliesAreTheirCallers(Run(events)) && Honest(Run(events))
  {
    RunKeepsInv(events);
    var s := Run(events);
    forall p | p in s.sent ensures ReplyInv(s, p) {}
    forall i | 0 <= i < |s.reqs| && HasReply(s.sent, i) ensures s.reqs[i].stage.Replied? {
      var k :| 0 <= k < |s.sent| && s.sent[k].caller == i;
      assert ReplyInv(s, s.sent[k]);
    }
  }

  function Rank(stage: Stage): nat {
    match stage
    case Detecting => 8
    case Reading(_) => 7
    case Exiting(_, _, _) => 6
    case SpawnDone(_, _) => 5
    case Walking => 4
    case Fresh(_) => 3
    case Listed(_) => 2
    case Failed(_) => 1
    case Matching(_) => 1
    case Replied => 0
  }

  /** The events that resume a suspended call. */
  predicate Resumes(e: Event) {
    !e.Begin? && !e.Stop? && !e.ProcessExits? && !e.TimeoutFires?
  }

  /** No call can run for ever: each of its own steps brings it strictly nearer its reply. */
  lemma OwnStepsDescend(s: Finder, e: Event)
    requires Resumes(e) && Applies(s, e)
    ensures Rank(Step(s, e).reqs[e.i].stage) < Rank(s.reqs[e.i].stage)
  {
    var i := e.i;
    if e.EngineDetected? {
      assert Step(s, e).reqs[i] == DoEngineDetected(s, i, e.engine, e.spawnError).reqs[i];
    } else if e.ListPathsReturned? {
      assert Step(s, e) == DoListPathsReturned(s, i);
    } else if e.ListPathsFailed? || e.MatchReturned? || e.MarkFails? {
      assert Step(s, e).reqs[i].stage == Replied;
    }
  }

  /** And none can be left hanging: where nothing is pending, everything has been answered. */
  lemma NothingPendingMeansAllAnswered(events: seq<Event>)
    requires IdsDistinct(events)
    requires forall e | Resumes(e) || e.ProcessExits? :: !Applies(Run(events), e)
    ensures forall i | 0 <= i < |Run(events).reqs| :: HasReply(Run(events).sent, i)
  {
    RepliesAreExactAndHonest(events);
    RunKeepsInv(events);
    var s := Run(events);
    forall i: nat | i < |s.reqs| ensures s.reqs[i].stage.Replied? {
      assert RequestInv(s, i);
      var pending := match s.reqs[i].stage
        case Detecting => EngineDetected(i, Walk, "")
        case Reading(_) => StreamEnds(i, [], false)
        case Exiting(_, _, _) => if s.reqs[i].process.exited then ExitSeen(i) else ProcessExits(i, 0)
        case SpawnDone(_, _) => SpawnReturned(i)
        case Walking => WalkEnds(i, [], false)
        case Fresh(_) => ListFreshReturned(i)
        case Listed(_) => ListPathsReturned(i)
        case Failed(_) => ListPathsFailed(i)
        case Matching(_) => MatchReturned(i)
        case Replied => Stop;
      assert !s.reqs[i].stage.Replied? ==> Applies(s, pending);
    }
  }

  /** A process nobody has told to die and that has not exited. */
  predicate Live(s: Finder, i: nat)
    requires i < |s.reqs|
  {
    s.reqs[i].process.Process? && !s.reqs[i].process.killSent && !s.reqs[i].process.exited
  }

  /** Only the active call's record can hold one. */
  lemma OneLiveProcess(events: seq<Event>, i: nat)
    requires IdsDistinct(events) && i < |Run(events).reqs| && Live(Run(events), i)
    ensures Run(events).active == i && Run(events).reqs[i].held
  {
    RunKeepsInv(events);
    assert RequestInv(Run(events), i);
  }

  /** A timeout, a cleanup, a reply, a whole continuation of one call leaves every other call's
      record and process as they were, and unseats nobody else. */
  lemma StepTouchesOnlyItsCall(s: Finder, e: Event, j: nat)
    requires Inv(s) && Applies(s, e) && !e.Begin? && !e.Stop?
    requires j < |s.reqs| && j != e.i
    ensures Step(s, e).reqs[j] == s.reqs[j]
    ensures Step(s, e).active == s.active || s.active == e.i
  {
    assert RequestInv(s, e.i);
  }

  /** From `stop()` to the next `find`, nothing is spawned and no process is left undoomed. */
  lemma {:induction false} StopSilences(events: seq<Event>, more: seq<Event>)
    requires IdsDistinct(events) && forall e | e in more :: !e.Begin?
    ensures var stopped, later := Run(events + [Stop]), Exec(Run(events + [Stop]), more);
            && Inv(later) && later.active == -1 && |later.reqs| == |stopped.reqs|
            && (forall i | 0 <= i < |later.reqs| :: !Live(later, i))
            && (forall i | 0 <= i < |later.reqs| :: later.reqs[i].process.Process? ==> stopped.reqs[i].process.Process?)
  {
    var later := Exec(Run(events + [Stop]), more);
    if more == [] {
      RunKeepsInv(events);
      assert (events + [Stop])[..|events|] == events;
      AbortKeepsInv(Run(events));
    } else {
      var n := |more| - 1;
      StopSilences(events, more[..n]);
      StepKeepsInv(Exec(Run(events + [Stop]), more[..n]), more[n]);
      QuietStep(Exec(Run(events + [Stop]), more[..n]), more[n]);
    }
    forall i: nat | i < |later.reqs| ensures !Live(later, i) {
      assert RequestInv(later, i);
    }
  }

  lemma QuietStep(s: Finder, e: Event)
    requires Inv(s) && s.active == -1 && !e.Begin?
    ensures Step(s, e).active == -1 && |Step(s, e).reqs| == |s.reqs|
    ensures forall i | 0 <= i < |s.reqs| :: Step(s, e).reqs[i].process.Process? ==> s.reqs[i].process.Process?
  {
  }

  /** What an answer may rest on: the caller's own run, or a cached listing under the caller's
      flag that ran to its end and was, when the caller asked, of the current `seq` or begun less
      than the time-to-live before. */
  ghost predicate GoodSource(s: Finder, p: Reply) {
    p.Answered? && p.caller < |s.reqs| && p.from.listedBy < |s.reqs| &&
    var asked, lister := s.reqs[p.caller], s.reqs[p.from.listedBy];
    && lister.includeIgnored == asked.includeIgnored
    && (p.from.listedBy == p.caller
        || (p.from.listing.complete && (lister.seqAt == asked.seqAt || asked.now - lister.now < FIND_CACHE_MIN_TTL_MS)))
  }

  lemma AnswersAreFresh(events: seq<Event>, p: Reply)
    requires IdsDistinct(events) && p in Run(events).sent && p.Answered?
    ensures GoodSource(Run(events), p)
  {
    RunKeepsInv(events);
    assert ReplyInv(Run(events), p);
  }

  /** The entry came from event `k`, a listing returning to a call that was then the active one. */
  ghost predicate WrittenAt(events: seq<Event>, k: nat, e: CacheEntry) {
    && k < |events| && events[k] == ListFreshReturned(e.listedBy)
    && var before := Run(events[..k]);
       before.active == e.listedBy && e.listedBy < |before.reqs| && before.reqs[e.listedBy].stage == Fresh(e.listing)
  }

  lemma {:induction false} CacheIsWrittenByTheActive(events: seq<Event>, key: bool)
    requires key in Run(events).cache
    ensures exists k: nat :: WrittenAt(events, k, Run(events).cache[key])
  {
    var n := |events| - 1;
    var before, e := Run(events[..n]), Run(events).cache[key];
    if key in before.cache && before.cache[key] == e {
      CacheIsWrittenByTheActive(events[..n], key);
      var k: nat :| WrittenAt(events[..n], k, e);
      assert events[..n][..k] == events[..k];
      assert WrittenAt(events, k, e);
    } else {
      CacheChangesOnlyOnReturn(before, events[n], key);
      assert WrittenAt(events, n, e);
    }
  }

  lemma CacheChangesOnlyOnReturn(s: Finder, e: Event, key: bool)
    requires key in Step(s, e).cache && !(key in s.cache && s.cache[key] == Step(s, e).cache[key])
    ensures e == ListFreshReturned(Step(s, e).cache[key].listedBy) && Applies(s, e) && s.active == e.i
    ensures s.reqs[e.i].stage == Fresh(Step(s, e).cache[key].listing)
  {
  }

  /** Nothing cut short, timed out or failed is ever cached, only a call that was active when its
      listing came back writes an entry, and each is filed under the flag and stamped with the
      `seq` and time its own call was made with. */
  lemma CacheHoldsCompleteListings(events: seq<Event>, key: bool)
    requires IdsDistinct(events) && key in Run(events).cache
    ensures var e := Run(events).cache[key];
            && e.listing.complete && !e.listing.cut && e.listedBy < |Run(events).reqs|
            && (exists k: nat :: WrittenAt(events, k, e))
            && var lister := Run(events).reqs[e.listedBy];
               lister.includeIgnored == key && lister.seqAt == e.seqAt && lister.now == e.listedAt
  {
    RunKeepsInv(events);
    CacheIsWrittenByTheActive(events, key);
  }

  // ---------------------------------------------------------------- without distinct ids

  /** The ids of the calls made, in order. */
  function Calls(events: seq<Event>): seq<RawId> {
    if events == [] then []
    else Calls(events[..|events| - 1]) +
         (if events[|events| - 1].Begin? then [events[|events| - 1].rawId] else [])
  }

  ghost predicate ClampedDistinct(ids: seq<RawId>) {
    forall i, j | 0 <= i < j < |ids| :: ClampId(ids[i]) != ClampId(ids[j])
  }

  lemma StepKeepsIds(s: Finder, e: Event)
    ensures |Step(s, e).reqs| == |s.reqs| + (if e.Begin? then 1 else 0)
    ensures forall i | 0 <= i < |s.reqs| :: Step(s, e).reqs[i].id == s.reqs[i].id
    ensures e.Begin? ==> Step(s, e).reqs[|s.reqs|].id == ClampId(e.rawId)
  {
    if e.Begin? || e.Stop? {
      assert |Abort(s).reqs| == |s.reqs| && forall i | 0 <= i < |s.reqs| :: Abort(s).reqs[i].id == s.reqs[i].id;
    } else if Applies(s, e) {
      StepPutsItsOwn(s, e);
    }
  }

  lemma StepPutsItsOwn(s: Finder, e: Event)
    requires Applies(s, e) && !e.Begin? && !e.Stop?
    ensures Step(s, e).reqs == s.reqs[e.i := Step(s, e).reqs[e.i]] && Step(s, e).reqs[e.i].id == s.reqs[e.i].id
  {
  }

  lemma {:induction false} CallsAreRequests(events: seq<Event>)
    ensures |Run(events).reqs| == |Calls(events)|
    ensures forall i | 0 <= i < |Calls(events)| :: Run(events).reqs[i].id == ClampId(Calls(events)[i])
  {
    if events != [] {
      var n := |events| - 1;
      CallsAreRequests(events[..n]);
      StepKeepsIds(Run(events[..n]), events[n]);
    }
  }

  lemma {:induction false} CallsPrefix(events: seq<Event>, k: nat)
    requires k <= |events|
    ensures Calls(events[..k]) <= Calls(events)
    ensures k < |events| && events[k].Begin? ==> Calls(events[..k]) + [events[k].rawId] <= Calls(events)
    decreases |events| - k
  {
    if k < |events| {
      assert events[..k + 1][..k] == events[..k];
      CallsPrefix(events, k + 1);
    } else {
      assert events[..k] == events;
    }
  }

  lemma DistinctCallsSuffice(events: seq<Event>)
    requires ClampedDistinct(Calls(events))
    ensures IdsDistinct(events)
  {
    forall k | 0 <= k < |events| && events[k].Begin? ensures NewId(Run(events[..k]), ClampId(events[k].rawId)) {
      CallsAreRequests(events[..k]);
      CallsPrefix(events, k);
      var made := Calls(events[..k]);
      assert Calls(events)[|made|] == events[k].rawId;
      assert forall i | 0 <= i < |made| :: made[i] == Calls(events)[i];
    }
  }

  function Begins(ids: seq<RawId>): seq<Event> {
    seq(|ids|, i requires 0 <= i < |ids| => Begin(ids[i], false, 0, 0, ""))
  }

  /** All calls made back to back: each supersedes the one before it. */
  lemma {:induction false} AfterBegins(ids: seq<RawId>)
    ensures var s := Run(Begins(ids));
            && |s.reqs| == |ids| && s.active == |ids| - 1 && s.cache == map[] && s.sent == []
            && Calls(Begins(ids)) == ids
            && forall i | 0 <= i < |ids| ::
                 s.reqs[i] == Request(IdText(ids[i]), ClampId(ids[i]), false, 0, 0, false, i < |ids| - 1, false, true, NoProcess, Detecting)
  {
    if ids != [] {
      var n := |ids| - 1;
      AfterBegins(ids[..n]);
      assert Begins(ids)[..n] == Begins(ids[..n]);
    }
  }

  /** One superseded call gives up and replies; the reply unseats the live call with the same id,
      whose walk then reads as cancelled, and whose empty listing goes out as an answer. */
  function Collision(a: nat, b: nat): seq<Event> {
    [EngineDetected(a, Walk, ""), ListFreshReturned(a), ListPathsReturned(a),
     EngineDetected(b, Walk, ""), ListFreshReturned(b), ListPathsReturned(b), MatchReturned(b)]
  }

  lemma CollisionLies(s: Finder, a: nat, b: nat)
    requires a < b < |s.reqs| && s.active == b && s.sent == []
    requires s.reqs[a].stage.Detecting? && s.reqs[b].stage.Detecting?
    requires s.reqs[a].killed && !s.reqs[b].killed && s.reqs[a].id == s.reqs[b].id
    ensures !Honest(Exec(s, Collision(a, b)))
  {
    var es := Collision(a, b);
    var unseated := SupersededCallReplies(s, a, b);
    UnseatedCallAnswers(unseated, a, b);
    assert es == es[..3] + es[3..];
    ExecOfConcat(s, es[..3], es[3..]);
  }

  /** A call that wakes to find itself no longer current lists nothing and caches nothing. */
  lemma AbortedListing(s: Finder, i: nat) returns (t: Finder)
    requires i < |s.reqs| && s.reqs[i].stage.Detecting? && !Current(s, i)
    ensures t == Step(Step(s, EngineDetected(i, Walk, "")), ListFreshReturned(i))
    ensures t == Put(s, i, s.reqs[i].(stage := Listed(CacheEntry(s.reqs[i].seqAt, s.reqs[i].now, Aborted, i))))
  {
    var r := s.reqs[i];
    var s1 := Step(s, EngineDetected(i, Walk, ""));
    assert s1 == Put(s, i, r.(stage := Fresh(Aborted)));
    t := Step(s1, ListFreshReturned(i));
    assert t.reqs == s.reqs[i := t.reqs[i]];
  }

  lemma UnseatedCallAnswers(s: Finder, a: nat, b: nat)
    requires b < |s.reqs| && s.active == -1 && |s.sent| == 1
    requires s.reqs[b].stage.Detecting? && !s.reqs[b].killed
    ensures !Honest(Exec(s, Collision(a, b)[3..]))
  {
    var e0, e1, e2, e3 := EngineDetected(b, Walk, ""), ListFreshReturned(b), ListPathsReturned(b), MatchReturned(b);
    var t := AbortedListing(s, b);
    var u := Step(t, e2);
    assert u.reqs[b].stage.Matching? && u.reqs[b].stage.entry.listing.cut && u.sent == s.sent;
    var v := Step(u, e3);
    assert v.sent[1] in v.sent;
    ExecFour(s, e0, e1, e2, e3);
    assert Collision(a, b)[3..] == [e0, e1, e2, e3];
  }

  lemma ExecThree(s: Finder, e0: Event, e1: Event, e2: Event)
    ensures Exec(s, [e0, e1, e2]) == Step(Step(Step(s, e0), e1), e2)
  {
    ExecNext(s, [], e0);
    ExecNext(s, [e0], e1);
    ExecNext(s, [e0, e1], e2);
    assert [] + [e0] == [e0] && [e0] + [e1] == [e0, e1] && [e0, e1] + [e2] == [e0, e1, e2];
  }

  lemma ExecFour(s: Finder, e0: Event, e1: Event, e2: Event, e3: Event)
    ensures Exec(s, [e0, e1, e2, e3]) == Step(Step(Step(Step(s, e0), e1), e2), e3)
  {
    ExecThree(s, e0, e1, e2);
    ExecNext(s, [e0, e1, e2], e3);
    assert [e0, e1, e2] + [e3] == [e0, e1, e2, e3];
  }

  lemma SupersededCallReplies(s: Finder, a: nat, b: nat) returns (t: Finder)
    requires a < b < |s.reqs| && s.active == b && s.sent == []
    requires s.reqs[a].stage.Detecting? && s.reqs[a].killed && s.reqs[a].id == s.reqs[b].id
    ensures t == Exec(s, Collision(a, b)[..3])
    ensures t.active == -1 && |t.sent| == 1 && |t.reqs| == |s.reqs| && t.reqs[b] == s.reqs[b]
  {
    var e0, e1, e2 := EngineDetected(a, Walk, ""), ListFreshReturned(a), ListPathsReturned(a);
    var listed := AbortedListing(s, a);
    t := Step(listed, e2);
    ExecThree(s, e0, e1, e2);
    assert Collision(a, b)[..3] == [e0, e1, e2];
  }

  lemma {:induction false} ExecOfConcat(s: Finder, a: seq<Event>, b: seq<Event>)
    ensures Exec(s, a + b) == Exec(Exec(s, a), b)
    ensures Calls(a + b) == Calls(a) + Calls(b)
  {
    if b == [] {
      assert a + b == a;
    } else {
      var n := |b| - 1;
      assert (a + b)[..|a + b| - 1] == a + b[..n];
      ExecOfConcat(s, a, b[..n]);
    }
  }

  lemma {:induction false} NoCalls(events: seq<Event>)
    requires forall e | e in events :: !e.Begin?
    ensures Calls(events) == []
  {
    if events != [] {
      NoCalls(events[..|events| - 1]);
    }
  }

  /** Two ids that clamp to one, and an interleaving of their calls that lies. */
  lemma SharedIdLies(ids: seq<RawId>, a: nat, b: nat) returns (events: seq<Event>)
    requires a < b < |ids| && ClampId(ids[a]) == ClampId(ids[b])
    ensures Calls(events) <= ids && !Honest(Run(events))
  {
    var begins, tail := Begins(ids[..b + 1]), Collision(a, b);
    AfterBegins(ids[..b + 1]);
    ExecOfConcat(Init, begins, tail);
    NoCalls(tail);
    CollisionLies(Run(begins), a, b);
    events := begins + tail;
    assert Calls(events) == ids[..b + 1];
  }

  /** Answers are honest in every interleaving of the calls `ids` exactly when no two of those
      ids are the same after clamping. */
  lemma HonestIffIdsDistinct(ids: seq<RawId>)
    ensures (forall events | Calls(events) <= ids :: Honest(Run(events))) <==> ClampedDistinct(ids)
  {
    if ClampedDistinct(ids) {
      forall events | Calls(events) <= ids ensures Honest(Run(events)) {
        DistinctCallsSuffice(events);
        RepliesAreExactAndHonest(events);
      }
    } else {
      var a: nat, b: nat :| a < b < |ids| && ClampId(ids[a]) == ClampId(ids[b]);
      var events := SharedIdLies(ids, a, b);
    }
  }

  // ---------------------------------------------------------------- what stop() waits for

  /** The process whose exit `stop()` awaits: the one the active record holds, if any. */
  predicate StopAwaits(s: Finder, i: nat)
    requires i < |s.reqs|
  {
    s.active == i && s.reqs[i].held
  }

  predicate StillRunning(s: Finder, i: nat)
    requires i < |s.reqs|
  {
    s.reqs[i].process.Process? && !s.reqs[i].process.exited
  }

  /** `stop()` outlasts every process exactly when no already killed one is still running; a
      capped run is the exception, its record keeps hold of it. */
  lemma StopWaitsForAllIff(events: seq<Event>)
    requires IdsDistinct(events)
    ensures (forall i | 0 <= i < |Run(events).reqs| && StillRunning(Run(events), i) :: StopAwaits(Run(events), i))
            <==> (forall i | 0 <= i < |Run(events).reqs| && StillRunning(Run(events), i) && Run(events).reqs[i].process.killSent ::
                    Run(events).reqs[i].held)
  {
    RunKeepsInv(events);
    var s := Run(events);
    forall i: nat | i < |s.reqs| && StillRunning(s, i)
      ensures StopAwaits(s, i) <==> s.reqs[i].held
      ensures !s.reqs[i].process.killSent ==> s.reqs[i].held
    {
      assert RequestInv(s, i);
    }
  }

  /** A timed-out listing lets go of its process before it has died, so `stop()` then waits for
      nothing while that process still has the checkout as its working directory. */
  lemma StopCanReturnBeforeAProcessExits()
    ensures var events := [Begin(Text("a"), false, 0, 0, ""), EngineDetected(0, Ripgrep, ""), TimeoutFires(0)];
            && IdsDistinct(events) && |Run(events).reqs| == 1
            && StillRunning(Run(events), 0) && !StopAwaits(Run(events), 0)
  {
    var e0, e1, e2 := Begin(Text("a"), false, 0, 0, ""), EngineDetected(0, Ripgrep, ""), TimeoutFires(0);
    ExecThree(Init, e0, e1, e2);
    assert [e0, e1, e2][..0] == [];
  }
}
