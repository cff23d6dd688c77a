/** One managed checkout's runtime, from its build to its removal, as states and atomic steps.

    A build suspends three times; teardown runs under the same lock as the build and suspends
    once; shutdown takes no lock. Watcher and config callbacks may arrive after their source was
    stopped; timers fire only while armed. Any sequence of events is a run. */
module CheckoutLifecycle {
  import Sorting

  /** A watcher that was only constructed has nothing open yet. */
  datatype Watcher = NoWatcher | Constructed | Watching | Closing | Closed

  /** A terminal's process: alive, told to die, gone. */
  datatype Pty = Running | Dying | Gone

  /** One spawn of a terminal: a respawn under the same id is another. */
  datatype Term = Term(id: string, state: Pty)

  /** A tracked promise: the git children it has running, or a fetch that may go on to refresh. */
  datatype GitWork = Refreshing | Fetching

  datatype Build = NotBuilding | Preparing(defer: bool) | AtYield | AtRefresh(ticket: nat)

  /** A sweep waits for the processes it killed, the promises it found pending and, if it was the
      one to close it, the watcher. */
  datatype Teardown = NotTorn | Sweeping(procs: set<nat>, git: set<nat>, watcher: bool) | Removed

  /** Flags and suspension points. `managerUp` is the process-wide terminal manager not being
      null; `configSeen` says the config watch was armed at some time. */
  datatype Life = Life(registered: bool, managerUp: bool, started: bool, disposed: bool,
                       servicesDeferred: bool, configSeen: bool, build: Build, teardown: Teardown)

  /** What the runtime holds open, besides git children and terminals. */
  datatype Holders = Holders(watcher: Watcher, configWatch: bool, sweeper: bool, detectors: bool,
                             pollTimer: bool, fetchTimer: bool, refreshTimer: bool)

  /** `pendingGitRefreshes`: tracked work by ticket. */
  datatype Git = Git(pending: map<nat, GitWork>, nextTicket: nat)

  /** The checkout's terminal processes by spawn, and the manager's table: the spawn that each id means. */
  datatype Terminals = Terminals(procs: map<nat, Term>, table: map<string, nat>, nextProc: nat)

  datatype Runtime = Runtime(life: Life, held: Holders, git: Git, terms: Terminals)

  const NothingHeld := Holders(NoWatcher, false, false, false, false, false, false)
  const NoTerminals := Terminals(map[], map[], 0)
  const Initial := Runtime(Life(false, true, false, false, false, false, NotBuilding, NotTorn),
                           NothingHeld, Git(map[], 0), NoTerminals)

  /** `Request` is a client's tree root request or `git:sync`: tracked, with no guard. `ClientStart`
      and `ClientStop` are `terminal:start` and `terminal:stop`. Each is dispatched right after a
      prepare of its own, before the next holder of the lock begins. */
  datatype Event =
    | Prepare(defer: bool)
    | PrepareReturned
    | YieldReturned(services: seq<string>)
    | RefreshReturned(fetches: bool)
    | WatcherEvent
    | RefreshTimerFires
    | PollTick
    | FetchTick(fetches: bool)
    | ConfigChanged(removed: set<string>, changed: seq<string>)
    | Focus
    | Resync
    | Request
    | ClientStart(id: string)
    | ClientStop(id: string)
    | ReleaseDeferred(services: seq<string>)
    | GitSettles(ticket: nat)
    | FetchSettles(ticket: nat, fetched: bool)
    | PtyExits(proc: nat)
    | WatcherCloses
    | TeardownBegins
    | TeardownEnds
    | Shutdown

  // ---------------------------------------------------------------- the steps

  /** The keyed lock: a build and a teardown of one checkout exclude each other. */
  predicate LockFree(l: Life) {
    l.build.NotBuilding? && !l.teardown.Sweeping?
  }

  function Track(g: Git, work: GitWork): Git {
    Git(g.pending[g.nextTicket := work], g.nextTicket + 1)
  }

  function Doomed(t: Term): Term {
    if t.state.Running? then t.(state := Dying) else t
  }

  /** `manager.kill(id)`: the table keeps the id until the process exits. */
  function KillId(t: Terminals, id: string): Terminals {
    if id in t.table && t.table[id] in t.procs
    then t.(procs := t.procs[t.table[id] := Doomed(t.procs[t.table[id]])])
    else t
  }

  /** `manager.spawn`: a process already under this id is killed first and leaves the table. */
  function SpawnOne(t: Terminals, id: string): Terminals {
    var killed := KillId(t, id);
    Terminals(killed.procs[killed.nextProc := Term(id, Running)], killed.table[id := killed.nextProc], killed.nextProc + 1)
  }

  /** Killing it beforehand, as the config callback does for an edited service, changes nothing. */
  lemma KillThenSpawn(t: Terminals, id: string)
    ensures SpawnOne(KillId(t, id), id) == SpawnOne(t, id)
  {
    if id in t.table && t.table[id] in t.procs {
      assert KillId(KillId(t, id), id).procs == KillId(t, id).procs;
    }
  }

  function SpawnAll(t: Terminals, ids: seq<string>): Terminals {
    if ids == [] then t else SpawnOne(SpawnAll(t, ids[..|ids| - 1]), ids[|ids| - 1])
  }

  lemma SpawnJustOne(t: Terminals, id: string)
    ensures SpawnAll(t, [id]) == SpawnOne(t, id)
  {
    assert [id][..0] == [];
  }

  function Spawn(t: Terminals, managerUp: bool, ids: seq<string>): Terminals {
    if managerUp then SpawnAll(t, ids) else t
  }

  /** The process is the one its id means. */
  predicate InTable(t: Terminals, proc: nat) {
    proc in t.procs && t.procs[proc].id in t.table && t.table[t.procs[proc].id] == proc
  }

  function Kill(t: Terminals, ids: set<string>): Terminals {
    t.(procs := map p | p in t.procs :: if t.procs[p].id in ids && InTable(t, p) then Doomed(t.procs[p]) else t.procs[p])
  }

  /** `manager.killAll()`: everything in the table is killed, and the table is cleared. */
  function KillAll(t: Terminals): Terminals {
    Kill(t, t.table.Keys).(table := map[])
  }

  function Exit(t: Terminals, proc: nat): Terminals
    requires proc in t.procs
  {
    var gone := t.(procs := t.procs[proc := t.procs[proc].(state := Gone)]);
    if InTable(t, proc) then gone.(table := t.table - {t.procs[proc].id}) else gone
  }

  function Stopped(w: Watcher): Watcher {
    match w
    case Constructed => Closed
    case Watching => Closing
    case _ => w
  }

  /** Everything the sweep and the shutdown both release synchronously. */
  function StopServices(h: Holders): Holders {
    NothingHeld.(watcher := Stopped(h.watcher))
  }

  /** `startCheckoutRuntime`, up to its yield. */
  function StartRuntime(s: Runtime, defer: bool): Runtime {
    if s.life.started || !s.life.managerUp then s.(life := s.life.(build := NotBuilding))
    else s.(life := s.life.(started := true, servicesDeferred := defer, build := AtYield),
            held := s.held.(detectors := true, watcher := Constructed, sweeper := true))
  }

  function DoPrepare(s: Runtime, defer: bool): Runtime {
    if s.life.registered then StartRuntime(s, defer)
    else s.(life := s.life.(registered := true, build := Preparing(defer)))
  }

  function DoYieldReturned(s: Runtime, services: seq<string>): Runtime {
    if s.life.disposed || !s.life.managerUp then s.(life := s.life.(build := NotBuilding))
    else Runtime(s.life.(configSeen := true, build := AtRefresh(s.git.nextTicket)),
                 s.held.(watcher := Watching, configWatch := true),
                 Track(s.git, Refreshing),
                 if s.life.servicesDeferred then s.terms else SpawnAll(s.terms, services))
  }

  function FetchOnce(g: Git, fetches: bool): Git {
    if fetches then Track(g, Fetching) else g
  }

  function DoRefreshReturned(s: Runtime, fetches: bool): Runtime {
    if s.life.disposed then s.(life := s.life.(build := NotBuilding))
    else s.(life := s.life.(build := NotBuilding),
            held := s.held.(pollTimer := true, fetchTimer := true),
            git := FetchOnce(s.git, fetches))
  }

  /** Removed services are killed, added and modified ones spawned. */
  function DoConfigChanged(s: Runtime, removed: set<string>, changed: seq<string>): Runtime {
    if s.life.disposed then s
    else
      var less := if s.life.managerUp then Kill(s.terms, removed) else s.terms;
      s.(terms := if s.life.servicesDeferred then less else Spawn(less, s.life.managerUp, changed))
  }

  function DoReleaseDeferred(s: Runtime, services: seq<string>): Runtime {
    if !s.life.registered || !s.life.servicesDeferred then s
    else s.(life := s.life.(servicesDeferred := false), terms := Spawn(s.terms, s.life.managerUp, services))
  }

  function DoFetchSettles(s: Runtime, ticket: nat, fetched: bool): Runtime {
    if !fetched || s.life.disposed then s.(git := s.git.(pending := s.git.pending - {ticket}))
    else s.(git := s.git.(pending := s.git.pending[ticket := Refreshing]))
  }

  /** The processes whose trees the sweep kills and awaits: those in the table, if there is a
      manager to ask. */
  function Owned(managerUp: bool, t: Terminals): set<nat> {
    if managerUp then t.table.Values else {}
  }

  function KillOwned(managerUp: bool, t: Terminals): Terminals {
    if managerUp then Kill(t, t.table.Keys) else t
  }

  function DoTeardownBegins(s: Runtime): Runtime {
    Runtime(s.life.(disposed := true,
                    teardown := Sweeping(Owned(s.life.managerUp, s.terms), s.git.pending.Keys, s.held.watcher.Watching?)),
            StopServices(s.held), s.git, KillOwned(s.life.managerUp, s.terms))
  }

  /** What shutdown does to the flags: the row's, if there is one, and the manager. */
  function ShutLife(l: Life): Life {
    l.(managerUp := false, started := l.started && !l.registered, disposed := l.disposed || l.registered)
  }

  function DoShutdown(s: Runtime): Runtime {
    Runtime(ShutLife(s.life), if s.life.registered then StopServices(s.held) else s.held, s.git, KillAll(s.terms))
  }

  /** Service names are unique, so a block names no service twice. */
  predicate Applies(s: Runtime, e: Event) {
    match e
    case Prepare(_) => LockFree(s.life) && !s.life.teardown.Removed?
    case PrepareReturned => s.life.build.Preparing?
    case YieldReturned(services) => s.life.build.AtYield? && Sorting.Distinct(services)
    case RefreshReturned(_) => s.life.build.AtRefresh? && s.life.build.ticket !in s.git.pending
    case WatcherEvent => !s.held.watcher.NoWatcher? && !s.held.watcher.Constructed?
    case RefreshTimerFires => s.held.refreshTimer
    case PollTick => s.held.pollTimer
    case FetchTick(_) => s.held.fetchTimer
    case ConfigChanged(_, changed) => s.life.configSeen && Sorting.Distinct(changed)
    case Focus => s.life.registered
    case Resync => s.life.registered
    case Request | ClientStart(_) | ClientStop(_) => s.life.registered && LockFree(s.life)
    case ReleaseDeferred(services) => Sorting.Distinct(services)
    case GitSettles(t) => t in s.git.pending && s.git.pending[t].Refreshing?
    case FetchSettles(t, _) => t in s.git.pending && s.git.pending[t].Fetching?
    case PtyExits(p) => p in s.terms.procs && !s.terms.procs[p].state.Gone?
    case WatcherCloses => s.held.watcher.Closing?
    case TeardownBegins => LockFree(s.life) && s.life.registered
    case TeardownEnds =>
      && s.life.teardown.Sweeping? && !(s.life.teardown.watcher && s.held.watcher.Closing?)
      && (forall p | p in s.life.teardown.procs :: p in s.terms.procs && s.terms.procs[p].state.Gone?)
      && (forall t | t in s.life.teardown.git :: t !in s.git.pending)
    case Shutdown => s.life.managerUp
  }

  /** The events that can start a process. */
  predicate Spawns(e: Event) {
    e.YieldReturned? || e.ConfigChanged? || e.ReleaseDeferred? || e.ClientStart?
  }

  function Step(s: Runtime, e: Event): Runtime {
    if !Applies(s, e) then s else
    match e
    case Prepare(defer) => DoPrepare(s, defer)
    case PrepareReturned => StartRuntime(s, s.life.build.defer)
    case YieldReturned(services) => DoYieldReturned(s, services)
    case RefreshReturned(fetches) => DoRefreshReturned(s, fetches)
    case WatcherEvent => if s.life.disposed then s else s.(held := s.held.(refreshTimer := true))
    case RefreshTimerFires => s.(held := s.held.(refreshTimer := false), git := Track(s.git, Refreshing))
    case PollTick => if s.life.disposed then s else s.(git := Track(s.git, Refreshing))
    case FetchTick(fetches) => s.(git := FetchOnce(s.git, fetches))
    case ConfigChanged(removed, changed) => DoConfigChanged(s, removed, changed)
    case Focus => if s.life.disposed then s else s.(git := Track(s.git, Refreshing))
    case Resync => if s.life.disposed then s else s.(git := Track(s.git, Refreshing))
    case Request => s.(git := Track(s.git, Refreshing))
    case ClientStart(id) => s.(terms := Spawn(s.terms, s.life.managerUp, [id]))
    case ClientStop(id) => if s.life.managerUp then s.(terms := KillId(s.terms, id)) else s
    case ReleaseDeferred(services) => DoReleaseDeferred(s, services)
    case GitSettles(t) => s.(git := s.git.(pending := s.git.pending - {t}))
    case FetchSettles(t, fetched) => DoFetchSettles(s, t, fetched)
    case PtyExits(p) => s.(terms := Exit(s.terms, p))
    case WatcherCloses => s.(held := s.held.(watcher := Closed))
    case TeardownBegins => DoTeardownBegins(s)
    case TeardownEnds => s.(life := s.life.(teardown := Removed, registered := false))
    case Shutdown => DoShutdown(s)
  }

  /** From `s`, one event after another. */
  function Exec(s: Runtime, events: seq<Event>): Runtime {
    if events == [] then s else Step(Exec(s, events[..|events| - 1]), events[|events| - 1])
  }

  function Run(events: seq<Event>): Runtime {
    Exec(Initial, events)
  }

  // ---------------------------------------------------------------- what every step keeps

  /** Nothing that could open something later is left armed. */
  predicate Disarmed(h: Holders) {
    h == NothingHeld.(watcher := h.watcher) && !h.watcher.Constructed? && !h.watcher.Watching?
  }

  /** Flags and stages. `disposed` comes from the teardown, which holds the lock, or from a
      shutdown, which has taken the manager away. */
  ghost predicate LifeInv(l: Life, h: Holders) {
    && (l.disposed ==> Disarmed(h))
    && (l.disposed && l.managerUp ==> !l.teardown.NotTorn?)
    && (!l.teardown.NotTorn? ==> l.disposed && l.build.NotBuilding?)
    && (!l.build.NotBuilding? || l.teardown.Sweeping? ==> l.registered)
    && (l.teardown.Removed? ==> !l.registered)
    && (!l.registered && !l.teardown.Removed? ==> h == NothingHeld && !l.disposed && !l.started && !l.servicesDeferred && !l.configSeen)
    && (l.build.Preparing? ==> !l.started && h == StopServices(h))
    && (!l.started && !l.disposed ==> h == NothingHeld)
    && (l.servicesDeferred && l.managerUp ==> l.started)
    && (l.registered && l.build.NotBuilding? && l.managerUp ==> l.started)
    && (!l.disposed && (l.configSeen || l.servicesDeferred || l.build.AtYield? || l.build.AtRefresh?) ==> l.started)
    && (h.watcher.Closing? ==> l.disposed)
  }

  ghost predicate GitInv(l: Life, g: Git) {
    && (forall t | t in g.pending :: t < g.nextTicket)
    && (l.build.AtRefresh? ==> l.build.ticket < g.nextTicket)
    && (!l.registered && !l.teardown.Removed? ==> g.pending == map[])
    && (l.teardown.Sweeping? ==> forall t | t in l.teardown.git :: t < g.nextTicket)
    && (l.teardown.Sweeping? ==> g.pending.Keys <= l.teardown.git)
    && (l.teardown.Removed? ==> g.pending.Keys == {})
  }

  /** The table is right: each id means a process of that id that has not exited, and what is
      running is in it. */
  ghost predicate TableInv(t: Terminals) {
    && (forall p | p in t.procs :: p < t.nextProc)
    && (forall id | id in t.table :: t.table[id] in t.procs && t.procs[t.table[id]].id == id && !t.procs[t.table[id]].state.Gone?)
    && (forall p | p in t.procs && t.procs[p].state.Running? :: InTable(t, p))
  }

  /** A runtime that has not started has spawned nothing, and nothing is in the table without a
      manager. */
  ghost predicate TermInv(l: Life, t: Terminals) {
    && TableInv(t)
    && ((!l.started && l.managerUp) || (!l.registered && !l.teardown.Removed?) ==> t.procs.Keys == {})
    && (!l.managerUp ==> t.table == map[])
    && (l.teardown.Sweeping? ==> l.teardown.procs <= t.procs.Keys)
  }

  ghost predicate Inv(s: Runtime) {
    LifeInv(s.life, s.held) && GitInv(s.life, s.git) && TermInv(s.life, s.terms)
  }

  lemma StepKeepsLife(s: Runtime, e: Event)
    requires Inv(s)
    ensures LifeInv(Step(s, e).life, Step(s, e).held)
  {
  }

  lemma StepKeepsGit(s: Runtime, e: Event)
    requires Inv(s)
    ensures GitInv(Step(s, e).life, Step(s, e).git)
  {
  }

  lemma SpawnOneKeeps(t: Terminals, id: string)
    requires TableInv(t)
    ensures TableInv(SpawnOne(t, id))
    ensures forall p | p in t.procs :: p in SpawnOne(t, id).procs
  {
  }

  lemma {:induction false} SpawnAllKeeps(t: Terminals, ids: seq<string>)
    requires TableInv(t)
    ensures TableInv(SpawnAll(t, ids))
    ensures forall p | p in t.procs :: p in SpawnAll(t, ids).procs
  {
    if ids != [] {
      SpawnAllKeeps(t, ids[..|ids| - 1]);
      SpawnOneKeeps(SpawnAll(t, ids[..|ids| - 1]), ids[|ids| - 1]);
    }
  }

  lemma KillKeeps(t: Terminals, ids: set<string>)
    requires TableInv(t)
    ensures TableInv(Kill(t, ids)) && Kill(t, ids).procs.Keys == t.procs.Keys && Kill(t, ids).table == t.table
  {
  }

  lemma KillIdKeeps(t: Terminals, id: string)
    requires TableInv(t)
    ensures TableInv(KillId(t, id)) && KillId(t, id).procs.Keys == t.procs.Keys && KillId(t, id).table == t.table
  {
  }

  lemma KillAllKeeps(t: Terminals)
    requires TableInv(t)
    ensures TableInv(KillAll(t)) && KillAll(t).procs.Keys == t.procs.Keys
  {
    KillKeeps(t, t.table.Keys);
  }

  lemma ExitKeeps(t: Terminals, proc: nat)
    requires TableInv(t) && proc in t.procs
    ensures TableInv(Exit(t, proc)) && Exit(t, proc).procs.Keys == t.procs.Keys
  {
  }

  lemma SpawnKeepsTerms(l: Life, t: Terminals, m: Life, services: seq<string>)
    requires TermInv(l, t) && l.registered && l.managerUp && l.started
    requires m.registered && m.managerUp && m.started && m.teardown == l.teardown
    ensures TermInv(m, SpawnAll(t, services))
  {
    SpawnAllKeeps(t, services);
  }

  lemma ConfigKeepsTerms(s: Runtime, removed: set<string>, changed: seq<string>)
    requires Inv(s) && s.life.configSeen
    ensures TermInv(DoConfigChanged(s, removed, changed).life, DoConfigChanged(s, removed, changed).terms)
  {
    if !s.life.disposed && s.life.managerUp {
      KillKeeps(s.terms, removed);
      if !s.life.servicesDeferred {
        SpawnKeepsTerms(s.life, Kill(s.terms, removed), s.life, changed);
      }
    }
  }

  lemma StepKeepsTerms(s: Runtime, e: Event)
    requires Inv(s)
    ensures TermInv(Step(s, e).life, Step(s, e).terms)
  {
    if Applies(s, e) {
      match e
      case YieldReturned(services) =>
        if !s.life.disposed && s.life.managerUp && !s.life.servicesDeferred {
          SpawnKeepsTerms(s.life, s.terms, Step(s, e).life, services);
        }
      case ConfigChanged(removed, changed) => ConfigKeepsTerms(s, removed, changed);
      case ReleaseDeferred(services) =>
        if s.life.registered && s.life.servicesDeferred && s.life.managerUp {
          SpawnKeepsTerms(s.life, s.terms, Step(s, e).life, services);
        }
      case ClientStart(id) =>
        if s.life.managerUp {
          SpawnKeepsTerms(s.life, s.terms, s.life, [id]);
        }
      case _ => PlainKeepsTerms(s, e);
    }
  }

  lemma PlainKeepsTerms(s: Runtime, e: Event)
    requires Inv(s) && Applies(s, e) && !Spawns(e)
    ensures TermInv(Step(s, e).life, Step(s, e).terms)
  {
    match e
    case PtyExits(p) => ExitKeeps(s.terms, p);
    case ClientStop(id) => KillIdKeeps(s.terms, id);
    case TeardownBegins => KillKeeps(s.terms, s.terms.table.Keys);
    case Shutdown => KillAllKeeps(s.terms);
    case _ =>
  }

  lemma StepKeepsInv(s: Runtime, e: Event)
    requires Inv(s)
    ensures Inv(Step(s, e))
  {
    StepKeepsLife(s, e);
    StepKeepsGit(s, e);
    StepKeepsTerms(s, e);
  }

  lemma {:induction false} RunKeepsInv(events: seq<Event>)
    ensures Inv(Run(events))
  {
    if events != [] {
      RunKeepsInv(events[..|events| - 1]);
      StepKeepsInv(Run(events[..|events| - 1]), events[|events| - 1]);
    }
  }

  // ---------------------------------------------------------------- once disposed

  /** Something is open in `t` that was not in `s`: a watcher, a watch, a sweeper, a detector, a
      timer, a git child under a tracked promise, or a live terminal. */
  ghost predicate Opens(s: Runtime, t: Runtime) {
    || ((t.held.watcher.Constructed? || t.held.watcher.Watching?) && t.held.watcher != s.held.watcher)
    || (t.held.configWatch && !s.held.configWatch)
    || (t.held.sweeper && !s.held.sweeper)
    || (t.held.detectors && !s.held.detectors)
    || (t.held.pollTimer && !s.held.pollTimer)
    || (t.held.fetchTimer && !s.held.fetchTimer)
    || (t.held.refreshTimer && !s.held.refreshTimer)
    || (exists k :: k in t.git.pending && (k !in s.git.pending || t.git.pending[k] != s.git.pending[k]))
    || (exists p :: p in t.terms.procs && t.terms.procs[p].state.Running? && (p !in s.terms.procs || !s.terms.procs[p].state.Running?))
  }

  lemma SpawnAllOpens(t: Terminals, ids: seq<string>)
    requires TableInv(t) && ids != []
    ensures var after := SpawnAll(t, ids);
            after.nextProc > t.nextProc && after.nextProc - 1 in after.procs && after.procs[after.nextProc - 1].state.Running?
    ensures SpawnAll(t, ids).nextProc - 1 !in t.procs
  {
    SpawnAllKeeps(t, ids[..|ids| - 1]);
    SpawnAllGrows(t, ids[..|ids| - 1]);
  }

  lemma {:induction false} SpawnAllGrows(t: Terminals, ids: seq<string>)
    ensures SpawnAll(t, ids).nextProc == t.nextProc + |ids|
  {
    if ids != [] {
      SpawnAllGrows(t, ids[..|ids| - 1]);
    }
  }

  /** The two ways in without a `disposed` guard: a client's tracked request, which the lock keeps
      out of a sweep, and letting a held-back block go, which nothing does. */
  predicate Unguarded(s: Runtime, e: Event) {
    && Applies(s, e)
    && (e.Request? || (e.ReleaseDeferred? && s.life.registered && s.life.servicesDeferred && s.life.managerUp && e.services != []))
  }

  /** Once `disposed` is set, no build segment, timer, watcher or config callback, focus or resync
      opens anything, however it interleaves with teardown and shutdown; exactly the unguarded
      events do. */
  lemma DisposedOpensIff(events: seq<Event>, e: Event)
    requires Run(events).life.disposed
    ensures Opens(Run(events), Step(Run(events), e)) <==> Unguarded(Run(events), e)
    ensures Step(Run(events), e).life.disposed
  {
    RunKeepsInv(events);
    var s := Run(events);
    var t := Step(s, e);
    if Unguarded(s, e) {
      if e.Request? {
        assert s.git.nextTicket in t.git.pending && s.git.nextTicket !in s.git.pending;
      } else {
        SpawnAllOpens(s.terms, e.services);
        assert t.terms.nextProc - 1 in t.terms.procs;
      }
    } else {
      GuardedOpensNothing(s, e);
    }
  }

  lemma GuardedOpensNothing(s: Runtime, e: Event)
    requires Inv(s) && s.life.disposed && !Unguarded(s, e)
    ensures !Opens(s, Step(s, e))
  {
  }

  // ---------------------------------------------------------------- what a teardown waits for

  /** A removed runtime holds nothing its build, callbacks and timers opened. */
  ghost predicate Released(s: Runtime) {
    && Disarmed(s.held) && !s.held.watcher.Closing?
    && s.git.pending.Keys == {}
    && (forall p | p in s.terms.procs :: s.terms.procs[p].state.Gone?)
  }

  /** Something of the runtime that is still there. */
  datatype Thing = Proc(proc: nat) | Watch | Promise(ticket: nat)

  predicate There(s: Runtime, x: Thing) {
    match x
    case Proc(p) => p in s.terms.procs && !s.terms.procs[p].state.Gone?
    case Watch => s.held.watcher.Closing?
    case Promise(t) => t in s.git.pending
  }

  /** The teardown that is under way, or the one that may still begin, waits for it. A teardown
      that begins finds the processes in the table, every pending promise, and a watcher it can
      still close; one under way has its snapshots. */
  predicate Awaited(s: Runtime, x: Thing) {
    match s.life.teardown
    case NotTorn => (match x case Proc(p) => InTable(s.terms, p) case Watch => false case Promise(_) => true)
    case Sweeping(procs, git, watcher) => (match x case Proc(p) => p in procs case Watch => watcher case Promise(t) => t in git)
    case Removed => false
  }

  ghost predicate Stray(s: Runtime, x: Thing) {
    There(s, x) && !Awaited(s, x)
  }

  ghost predicate Clean(s: Runtime) {
    forall x :: !Stray(s, x)
  }

  /** The steps that put something out of every teardown's reach: a spawn over a process still in
      the table, a shutdown with anything left to wait for, a block let go once disposed. */
  ghost predicate Strays(s: Runtime, e: Event) {
    && Applies(s, e)
    && match e
       case YieldReturned(services) => !s.life.disposed && !s.life.servicesDeferred && Respawns(s, services)
       case ConfigChanged(_, changed) => !s.life.disposed && !s.life.servicesDeferred && Respawns(s, changed)
       case Shutdown => s.life.teardown.NotTorn? && (s.held.watcher.Watching? || exists p :: There(s, Proc(p)))
       case ReleaseDeferred(services) => Unguarded(s, e) && (s.life.disposed || Respawns(s, services))
       case ClientStart(id) => Respawns(s, [id])
       case _ => false
  }

  /** With a manager, the process of some id of the block is still in the table. */
  ghost predicate Respawns(s: Runtime, services: seq<string>) {
    s.life.managerUp && exists id :: id in services && id in s.terms.table
  }

  /** No tracked promise is ever out of a teardown's reach, whatever the run: a client's unguarded
      requests come before the sweep has taken its snapshot, or after the runtime is gone. */
  lemma PromisesAreAwaited(events: seq<Event>, ticket: nat)
    requires There(Run(events), Promise(ticket))
    ensures Awaited(Run(events), Promise(ticket))
  {
    RunKeepsInv(events);
  }

  lemma RemovedCleanIsReleased(s: Runtime)
    requires Inv(s) && s.life.teardown.Removed?
    ensures Clean(s) <==> Released(s)
  {
    forall p | p in s.terms.procs && !s.terms.procs[p].state.Gone? ensures Stray(s, Proc(p)) {}
    assert s.held.watcher.Closing? ==> Stray(s, Watch);
  }

  // ---------------------------------------------------------------- what makes a stray

  /** A block with no name in the table leaves everything where it was and adds to the table. */
  lemma {:induction false} SpawnAllFresh(t: Terminals, ids: seq<string>)
    requires TableInv(t) && Sorting.Distinct(ids) && forall id | id in ids :: id !in t.table
    ensures var after := SpawnAll(t, ids);
            && (forall p | p in t.procs :: p in after.procs && after.procs[p] == t.procs[p] && (InTable(t, p) ==> InTable(after, p)))
            && (forall p | p in after.procs && p !in t.procs :: InTable(after, p))
            && after.table.Keys == t.table.Keys + set id | id in ids
  {
    if ids != [] {
      var n := |ids| - 1;
      SpawnAllFresh(t, ids[..n]);
      SpawnAllKeeps(t, ids[..n]);
      SpawnOneFresh(SpawnAll(t, ids[..n]), ids[n]);
      assert (set id | id in ids) == (set id | id in ids[..n]) + {ids[n]} by { assert ids == ids[..n] + [ids[n]]; }
    }
  }

  lemma SpawnOneFresh(t: Terminals, id: string)
    requires TableInv(t) && id !in t.table
    ensures var after := SpawnOne(t, id);
            && (forall p | p in t.procs :: p in after.procs && after.procs[p] == t.procs[p] && (InTable(t, p) ==> InTable(after, p)))
            && (forall p | p in after.procs && p !in t.procs :: InTable(after, p))
            && after.table.Keys == t.table.Keys + {id}
  {
  }

  /** A name already in the table: its process is killed, not gone, and no longer what the name
      means. */
  lemma {:induction false} SpawnAllReplaces(t: Terminals, ids: seq<string>, id: string)
    requires TableInv(t) && id in t.table
    ensures var after, p := SpawnAll(t, ids), t.table[id];
            && p in after.procs && after.procs[p].id == id && !after.procs[p].state.Gone? && id in after.table
            && t.nextProc <= after.nextProc
            && (if id in ids then after.table[id] >= t.nextProc else after.table[id] == p)
  {
    if ids != [] {
      SpawnAllReplaces(t, ids[..|ids| - 1], id);
    }
  }

  lemma SpawnStrays(t: Terminals, ids: seq<string>, x: nat)
    requires TableInv(t) && Sorting.Distinct(ids)
    requires x in SpawnAll(t, ids).procs && !InTable(SpawnAll(t, ids), x) && !SpawnAll(t, ids).procs[x].state.Gone?
    ensures (x in t.procs && !InTable(t, x) && !t.procs[x].state.Gone?) || exists id :: id in ids && id in t.table
  {
    if forall id | id in ids :: id !in t.table {
      SpawnAllFresh(t, ids);
    }
  }

  /** A stray was one before, or this step made it one. */
  lemma StrayComesFrom(s: Runtime, e: Event, x: Thing)
    requires Inv(s) && Stray(Step(s, e), x)
    ensures Stray(s, x) || Strays(s, e)
  {
    if !Applies(s, e) {
    } else if Spawns(e) {
      SpawningStray(s, e, x);
    } else {
      PlainStray(s, e, x);
    }
  }

  lemma SpawningStray(s: Runtime, e: Event, x: Thing)
    requires Inv(s) && Applies(s, e) && Spawns(e) && Stray(Step(s, e), x)
    ensures Stray(s, x) || Strays(s, e)
  {
    match e
    case YieldReturned(services) => YieldStray(s, services, x);
    case ConfigChanged(removed, changed) => ConfigStray(s, removed, changed, x);
    case ReleaseDeferred(services) => ReleaseStray(s, services, x);
    case ClientStart(id) => StartStray(s, id, x);
  }

  lemma YieldStray(s: Runtime, services: seq<string>, x: Thing)
    requires Inv(s) && Applies(s, YieldReturned(services)) && Stray(Step(s, YieldReturned(services)), x)
    ensures Stray(s, x) || Strays(s, YieldReturned(services))
  {
    if !s.life.disposed && s.life.managerUp && !s.life.servicesDeferred && x.Proc? {
      SpawnStrays(s.terms, services, x.proc);
    }
  }

  lemma ConfigStray(s: Runtime, removed: set<string>, changed: seq<string>, x: Thing)
    requires Inv(s) && Applies(s, ConfigChanged(removed, changed)) && Stray(Step(s, ConfigChanged(removed, changed)), x)
    ensures Stray(s, x) || Strays(s, ConfigChanged(removed, changed))
  {
    if !s.life.disposed && s.life.managerUp {
      KillKeeps(s.terms, removed);
      if !s.life.servicesDeferred && x.Proc? {
        SpawnStrays(Kill(s.terms, removed), changed, x.proc);
      }
    }
  }

  lemma ReleaseStray(s: Runtime, services: seq<string>, x: Thing)
    requires Inv(s) && Applies(s, ReleaseDeferred(services)) && Stray(Step(s, ReleaseDeferred(services)), x)
    ensures Stray(s, x) || Strays(s, ReleaseDeferred(services))
  {
    if s.life.registered && s.life.servicesDeferred && s.life.managerUp && s.life.teardown.NotTorn? && x.Proc? {
      SpawnStrays(s.terms, services, x.proc);
    }
  }

  lemma StartStray(s: Runtime, id: string, x: Thing)
    requires Inv(s) && Applies(s, ClientStart(id)) && Stray(Step(s, ClientStart(id)), x)
    ensures Stray(s, x) || Strays(s, ClientStart(id))
  {
    if s.life.managerUp && x.Proc? {
      SpawnStrays(s.terms, [id], x.proc);
    }
  }

  lemma PlainStray(s: Runtime, e: Event, x: Thing)
    requires Inv(s) && Applies(s, e) && Stray(Step(s, e), x)
    requires !Spawns(e)
    ensures Stray(s, x) || Strays(s, e)
  {
  }

  /** Each such step leaves a stray behind. */
  lemma StraysLeaves(s: Runtime, e: Event) returns (x: Thing)
    requires Inv(s) && Strays(s, e)
    ensures Stray(Step(s, e), x)
  {
    match e
    case YieldReturned(services) =>
      var id :| id in services && id in s.terms.table;
      SpawnAllReplaces(s.terms, services, id);
      x := Proc(s.terms.table[id]);
    case ConfigChanged(removed, changed) =>
      var id :| id in changed && id in s.terms.table;
      KillKeeps(s.terms, removed);
      SpawnAllReplaces(Kill(s.terms, removed), changed, id);
      x := Proc(s.terms.table[id]);
    case Shutdown =>
      if p :| There(s, Proc(p)) {
        x := Proc(p);
      } else {
        x := Watch;
      }
    case ReleaseDeferred(services) =>
      if s.life.disposed {
        SpawnAllOpens(s.terms, services);
        x := Proc(SpawnAll(s.terms, services).nextProc - 1);
      } else {
        var id :| id in services && id in s.terms.table;
        SpawnAllReplaces(s.terms, services, id);
        x := Proc(s.terms.table[id]);
      }
    case ClientStart(id) =>
      SpawnAllReplaces(s.terms, [id], id);
      x := Proc(s.terms.table[id]);
  }

  // ---------------------------------------------------------------- when a teardown releases everything

  lemma CleanStep(s: Runtime, e: Event)
    requires Inv(s) && Clean(s)
    ensures Clean(Step(s, e)) <==> !Strays(s, e)
  {
    if Strays(s, e) {
      var x := StraysLeaves(s, e);
      assert Stray(Step(s, e), x);
    } else {
      forall x ensures !Stray(Step(s, e), x) {
        if Stray(Step(s, e), x) {
          StrayComesFrom(s, e, x);
          assert false;
        }
      }
    }
  }

  /** No event of `more`, taken from `s`, strays. */
  ghost predicate NothingStrays(s: Runtime, more: seq<Event>) {
    forall k | 0 <= k < |more| :: !Strays(Exec(s, more[..k]), more[k])
  }

  lemma {:induction false} CleanRun(s: Runtime, more: seq<Event>)
    requires Inv(s) && Clean(s) && NothingStrays(s, more)
    ensures Inv(Exec(s, more)) && Clean(Exec(s, more))
  {
    if more != [] {
      var n := |more| - 1;
      assert forall k | 0 <= k < n :: more[..n][..k] == more[..k];
      CleanRun(s, more[..n]);
      StepKeepsInv(Exec(s, more[..n]), more[n]);
      CleanStep(Exec(s, more[..n]), more[n]);
    }
  }

  /** From `s`, every teardown that finishes has released everything, whatever happens on the way
      short of another stray. */
  ghost predicate AlwaysReleases(s: Runtime) {
    forall more | NothingStrays(s, more) && Exec(s, more).life.teardown.Removed? :: Released(Exec(s, more))
  }

  /** An event that brings the teardown nearer its end and leaves `x` alone. */
  predicate Helps(e: Event, x: Thing) {
    match e
    case PrepareReturned | RefreshReturned(false) | TeardownBegins | TeardownEnds => true
    case YieldReturned(services) => services == []
    case GitSettles(t) => x != Promise(t)
    case FetchSettles(t, fetched) => !fetched && x != Promise(t)
    case PtyExits(p) => x != Proc(p)
    case WatcherCloses => x != Watch
    case _ => false
  }

  lemma HelpKeepsStray(s: Runtime, e: Event, x: Thing)
    requires Inv(s) && Stray(s, x) && Helps(e, x)
    ensures Stray(Step(s, e), x) && !Strays(s, e)
  {
  }

  lemma {:induction false} ExecCons(s: Runtime, e: Event, more: seq<Event>)
    ensures Exec(s, [e] + more) == Exec(Step(s, e), more)
  {
    if more == [] {
      assert [e] + more == [e] && [e][..0] == [];
    } else {
      var n := |more| - 1;
      ExecCons(s, e, more[..n]);
      assert ([e] + more)[..n + 1] == [e] + more[..n];
    }
  }

  lemma NothingStraysCons(s: Runtime, e: Event, more: seq<Event>)
    requires !Strays(s, e) && NothingStrays(Step(s, e), more)
    ensures NothingStrays(s, [e] + more)
  {
    var all := [e] + more;
    forall k | 0 <= k < |all| ensures !Strays(Exec(s, all[..k]), all[k]) {
      if k > 0 {
        assert all[..k] == [e] + more[..k - 1];
        ExecCons(s, e, more[..k - 1]);
      }
    }
  }

  function PromisesLeft(s: Runtime, git: set<nat>): set<nat> {
    set t | t in git && t in s.git.pending
  }

  function ProcsLeft(s: Runtime, procs: set<nat>): set<nat> {
    set p | p in procs && There(s, Proc(p))
  }

  /** What a sweep still waits for. */
  function StillAwaited(s: Runtime): nat {
    match s.life.teardown
    case Sweeping(procs, git, watcher) =>
      |PromisesLeft(s, git)| + |ProcsLeft(s, procs)| + (if watcher && s.held.watcher.Closing? then 1 else 0)
    case _ => 0
  }

  /** How many suspensions lie ahead. */
  function Phase(l: Life, g: Git): nat {
    if l.teardown.Removed? then 0
    else if l.teardown.Sweeping? then 1
    else match l.build
      case NotBuilding => 2
      case AtRefresh(t) => if t in g.pending then 4 else 3
      case AtYield => 5
      case Preparing(_) => 6
  }

  function Settle(g: Git, ticket: nat): Event
    requires ticket in g.pending
  {
    if g.pending[ticket].Refreshing? then GitSettles(ticket) else FetchSettles(ticket, false)
  }

  lemma NextInBuild(s: Runtime, x: Thing) returns (e: Event)
    requires Inv(s) && Stray(s, x) && s.life.teardown.NotTorn?
    ensures Helps(e, x) && Phase(Step(s, e).life, Step(s, e).git) < Phase(s.life, s.git)
  {
    match s.life.build
    case Preparing(_) => e := PrepareReturned;
    case AtYield => e := YieldReturned([]);
    case AtRefresh(t) => e := if t in s.git.pending then Settle(s.git, t) else RefreshReturned(false);
    case NotBuilding => e := TeardownBegins;
  }

  lemma NextInSweep(s: Runtime, x: Thing) returns (e: Event)
    requires Inv(s) && Stray(s, x) && s.life.teardown.Sweeping?
    ensures Helps(e, x)
    ensures Step(s, e).life.teardown.Removed? || (Step(s, e).life.teardown.Sweeping? && StillAwaited(Step(s, e)) < StillAwaited(s))
  {
    var git, procs := s.life.teardown.git, s.life.teardown.procs;
    if t :| t in git && t in s.git.pending {
      e := Settle(s.git, t);
      SettleLeavesLess(s, t);
    } else if p :| p in procs && There(s, Proc(p)) {
      e := PtyExits(p);
      ExitLeavesLess(s, p);
    } else if s.life.teardown.watcher && s.held.watcher.Closing? {
      e := WatcherCloses;
      CloseLeavesLess(s);
    } else {
      e := TeardownEnds;
    }
  }

  lemma SettleLeavesLess(s: Runtime, t: nat)
    requires s.life.teardown.Sweeping? && t in s.life.teardown.git && t in s.git.pending
    ensures StillAwaited(Step(s, Settle(s.git, t))) < StillAwaited(s)
  {
    var git, procs, next := s.life.teardown.git, s.life.teardown.procs, Step(s, Settle(s.git, t));
    assert next == s.(git := s.git.(pending := s.git.pending - {t}));
    assert PromisesLeft(next, git) == PromisesLeft(s, git) - {t} && t in PromisesLeft(s, git);
    assert ProcsLeft(next, procs) == ProcsLeft(s, procs);
  }

  lemma ExitLeavesLess(s: Runtime, p: nat)
    requires s.life.teardown.Sweeping? && p in s.life.teardown.procs && There(s, Proc(p))
    ensures StillAwaited(Step(s, PtyExits(p))) < StillAwaited(s)
  {
    var procs, next := s.life.teardown.procs, Step(s, PtyExits(p));
    assert ProcsLeft(next, procs) == ProcsLeft(s, procs) - {p} && p in ProcsLeft(s, procs);
  }

  lemma CloseLeavesLess(s: Runtime)
    requires s.life.teardown.Sweeping? && s.life.teardown.watcher && s.held.watcher.Closing?
    ensures StillAwaited(Step(s, WatcherCloses)) < StillAwaited(s)
  {
    var procs, next := s.life.teardown.procs, Step(s, WatcherCloses);
    assert ProcsLeft(next, procs) == ProcsLeft(s, procs);
  }

  /** With a stray about, a teardown can still come to its end, and the stray is still there. */
  lemma {:induction false} StrayOutlastsTeardown(s: Runtime, x: Thing) returns (more: seq<Event>)
    requires Inv(s) && Stray(s, x)
    ensures NothingStrays(s, more) && Exec(s, more).life.teardown.Removed? && Stray(Exec(s, more), x)
    decreases Phase(s.life, s.git), StillAwaited(s)
  {
    if s.life.teardown.Removed? {
      more := [];
    } else {
      var e;
      if s.life.teardown.NotTorn? {
        e := NextInBuild(s, x);
      } else {
        e := NextInSweep(s, x);
      }
      HelpKeepsStray(s, e, x);
      StepKeepsInv(s, e);
      var rest := StrayOutlastsTeardown(Step(s, e), x);
      NothingStraysCons(s, e, rest);
      ExecCons(s, e, rest);
      more := [e] + rest;
    }
  }

  /** What the caller of a teardown may rely on from here, exactly: every teardown that finishes has
      released every holder, process and tracked promise if and only if nothing is out of its
      reach now. */
  lemma AlwaysReleasesIffClean(events: seq<Event>)
    ensures AlwaysReleases(Run(events)) <==> Clean(Run(events))
  {
    RunKeepsInv(events);
    var s := Run(events);
    if Clean(s) {
      forall more | NothingStrays(s, more) && Exec(s, more).life.teardown.Removed? ensures Released(Exec(s, more)) {
        CleanRun(s, more);
        RemovedCleanIsReleased(Exec(s, more));
      }
    } else {
      var x :| Stray(s, x);
      var more := StrayOutlastsTeardown(s, x);
      ExecKeepsInv(s, more);
      RemovedCleanIsReleased(Exec(s, more));
    }
  }

  lemma {:induction false} ExecKeepsInv(s: Runtime, more: seq<Event>)
    requires Inv(s)
    ensures Inv(Exec(s, more))
  {
    if more != [] {
      ExecKeepsInv(s, more[..|more| - 1]);
      StepKeepsInv(Exec(s, more[..|more| - 1]), more[|more| - 1]);
    }
  }

  /** At every point of the run, every teardown that finishes has released everything. */
  ghost predicate ReliableThroughout(events: seq<Event>) {
    forall k | 0 <= k <= |events| :: AlwaysReleases(Run(events[..k]))
  }

  lemma OnePointMore(events: seq<Event>)
    requires events != []
    ensures var before := events[..|events| - 1];
            ReliableThroughout(events) <==> ReliableThroughout(before) && AlwaysReleases(Run(events))
  {
    var before := events[..|events| - 1];
    assert events[..|events|] == events && forall k | 0 <= k < |events| :: before[..k] == events[..k];
  }

  lemma OneEventMore(s: Runtime, events: seq<Event>)
    requires events != []
    ensures var before, e := events[..|events| - 1], events[|events| - 1];
            NothingStrays(s, events) <==> NothingStrays(s, before) && !Strays(Exec(s, before), e)
  {
    var before := events[..|events| - 1];
    assert forall k | 0 <= k < |before| :: before[..k] == events[..k] && before[k] == events[k];
  }

  lemma ReliableIsClean(events: seq<Event>)
    ensures ReliableThroughout(events) ==> Clean(Run(events))
  {
    AlwaysReleasesIffClean(events);
    assert events[..|events|] == events;
  }

  /** And over a whole run: a teardown can be relied on at every point of it exactly when no event
      of the run was a respawn over a process still there, a shutdown with something left to wait
      for, or a release once disposed. */
  lemma {:induction false} TeardownsReleaseIffNothingStrays(events: seq<Event>)
    ensures ReliableThroughout(events) <==> NothingStrays(Initial, events)
  {
    if events == [] {
      AlwaysReleasesIffClean([]);
      assert Clean(Initial) && events[..0] == [];
    } else {
      var before, e := events[..|events| - 1], events[|events| - 1];
      TeardownsReleaseIffNothingStrays(before);
      OnePointMore(events);
      OneEventMore(Initial, events);
      AlwaysReleasesIffClean(events);
      ReliableIsClean(before);
      RunKeepsInv(before);
      if Clean(Run(before)) {
        CleanStep(Run(before), e);
      }
    }
  }

  // ---------------------------------------------------------------- each way, as a run

  lemma {:induction false} ExecOfConcat(s: Runtime, a: seq<Event>, b: seq<Event>)
    ensures Exec(s, a + b) == Exec(Exec(s, a), b)
  {
    if b == [] {
      assert a + b == a;
    } else {
      var n := |b| - 1;
      assert (a + b)[..|a + b| - 1] == a + b[..n];
      ExecOfConcat(s, a, b[..n]);
    }
  }

  lemma ExecTwo(s: Runtime, e0: Event, e1: Event)
    ensures Exec(s, [e0, e1]) == Step(Step(s, e0), e1)
  {
    ExecCons(s, e0, [e1]);
    ExecCons(Step(s, e0), e1, []);
    assert [e0, e1] == [e0] + [e1] && [e1] == [e1] + [];
  }

  lemma ExecThree(s: Runtime, e0: Event, e1: Event, e2: Event)
    ensures Exec(s, [e0, e1, e2]) == Step(Step(Step(s, e0), e1), e2)
  {
    ExecCons(s, e0, [e1, e2]);
    ExecTwo(Step(s, e0), e1, e2);
    assert [e0, e1, e2] == [e0] + [e1, e2];
  }

  /** One run after another, from the states in between. */
  lemma RunThrough(a: seq<Event>, b: seq<Event>, c: seq<Event>, s: Runtime, t: Runtime)
    requires Run(a) == s && Exec(s, b) == t
    ensures Run(a + b + c) == Exec(t, c)
  {
    ExecOfConcat(Initial, a, b);
    ExecOfConcat(Initial, a + b, c);
  }

  /** A runtime built with one service running, or with it held back. */
  function BuildWith(defer: bool): seq<Event> {
    [Prepare(defer), PrepareReturned, YieldReturned(["dev"])] + [GitSettles(0), RefreshReturned(false)]
  }

  const DevRuns := Terminals(map[0 := Term("dev", Running)], map["dev" := 0], 1)

  function Built(defer: bool): Runtime {
    Runtime(Life(true, true, true, false, defer, true, NotBuilding, NotTorn),
            Holders(Watching, true, true, true, true, true, false), Git(map[], 1), if defer then NoTerminals else DevRuns)
  }

  function FirstRefresh(defer: bool): Runtime {
    var b := Built(defer);
    b.(life := b.life.(build := AtRefresh(0)), held := b.held.(pollTimer := false, fetchTimer := false), git := Git(map[0 := Refreshing], 1))
  }

  lemma SpawnDev()
    ensures SpawnAll(NoTerminals, ["dev"]) == DevRuns
  {
    assert ["dev"][..0] == [];
  }

  lemma BuildReachesRefresh(defer: bool)
    ensures Exec(Initial, [Prepare(defer), PrepareReturned, YieldReturned(["dev"])]) == FirstRefresh(defer)
  {
    ExecThree(Initial, Prepare(defer), PrepareReturned, YieldReturned(["dev"]));
    var prepared := Step(Initial, Prepare(defer));
    assert prepared.life == Initial.life.(registered := true, build := Preparing(defer));
    assert Step(prepared, PrepareReturned).life.build == AtYield;
    SpawnDev();
  }

  lemma BuildFinishes(defer: bool)
    ensures Exec(FirstRefresh(defer), [GitSettles(0), RefreshReturned(false)]) == Built(defer)
  {
    ExecTwo(FirstRefresh(defer), GitSettles(0), RefreshReturned(false));
    assert Step(FirstRefresh(defer), GitSettles(0)).git.pending == map[];
  }

  lemma BuildRuns(defer: bool)
    ensures Run(BuildWith(defer)) == Built(defer)
  {
    BuildReachesRefresh(defer);
    BuildFinishes(defer);
    ExecOfConcat(Initial, [Prepare(defer), PrepareReturned, YieldReturned(["dev"])], [GitSettles(0), RefreshReturned(false)]);
  }

  /** A build in mid-sweep, its watcher closing, with these terminals and this git work. */
  function Swept(defer: bool, procs: set<nat>, terms: Terminals, git: Git): Runtime {
    Runtime(Built(defer).life.(disposed := true, teardown := Sweeping(procs, {}, true)), NothingHeld.(watcher := Closing), git, terms)
  }

  const Respawned := Terminals(map[0 := Term("dev", Dying), 1 := Term("dev", Running)], map["dev" := 1], 2)

  lemma DevRespawns()
    ensures SpawnAll(Kill(DevRuns, {}), ["dev"]) == Respawned
  {
    assert Kill(DevRuns, {}) == DevRuns && ["dev"][..0] == [];
  }

  lemma ConfigRespawns()
    ensures Step(Built(false), ConfigChanged({}, ["dev"])) == Built(false).(terms := Respawned)
  {
    DevRespawns();
  }

  lemma SweepAfterRespawn()
    ensures Step(Built(false).(terms := Respawned), TeardownBegins)
         == Swept(false, {1}, Kill(Respawned, {"dev"}), Git(map[], 1))
  {
    assert Respawned.table.Values == {1} by { assert Respawned.table["dev"] == 1; }
    assert Respawned.table.Keys == {"dev"} && Built(false).git.pending.Keys == {};
  }

  lemma SweepEndsWithoutTheOldProcess()
    ensures var swept := Swept(false, {1}, Kill(Respawned, {"dev"}), Git(map[], 1));
            var end := Exec(swept, [PtyExits(1), WatcherCloses, TeardownEnds]);
            end.life.teardown.Removed? && There(end, Proc(0))
  {
    var swept := Swept(false, {1}, Kill(Respawned, {"dev"}), Git(map[], 1));
    ExecThree(swept, PtyExits(1), WatcherCloses, TeardownEnds);
    var exited := Step(swept, PtyExits(1));
    assert exited.terms.procs[1].state.Gone? && exited.terms.procs[0] == Term("dev", Dying);
    assert Applies(Step(exited, WatcherCloses), TeardownEnds);
  }

  const SweepToItsEnd: seq<Event> := [TeardownBegins, PtyExits(1), WatcherCloses, TeardownEnds]

  lemma RespawnedLeaks(before: seq<Event>)
    requires Run(before) == Built(false).(terms := Respawned)
    ensures Run(before + SweepToItsEnd).life.teardown.Removed? && There(Run(before + SweepToItsEnd), Proc(0))
  {
    SweepAfterRespawn();
    SweepEndsWithoutTheOldProcess();
    assert SweepToItsEnd == [TeardownBegins] + [PtyExits(1), WatcherCloses, TeardownEnds];
    ExecCons(Run(before), TeardownBegins, [PtyExits(1), WatcherCloses, TeardownEnds]);
    ExecOfConcat(Initial, before, SweepToItsEnd);
  }

  lemma RunOneMore(events: seq<Event>, e: Event)
    ensures Run(events + [e]) == Step(Run(events), e)
  {
    assert (events + [e])[..|events|] == events;
  }

  /** A service edited while it runs: the old process is killed, drops out of the table, and the
      teardown ends without it. */
  lemma RespawnLeaks()
    ensures var events := BuildWith(false) + [ConfigChanged({}, ["dev"])] + SweepToItsEnd;
            Run(events).life.teardown.Removed? && There(Run(events), Proc(0))
  {
    BuildRuns(false);
    ConfigRespawns();
    RunOneMore(BuildWith(false), ConfigChanged({}, ["dev"]));
    RespawnedLeaks(BuildWith(false) + [ConfigChanged({}, ["dev"])]);
  }

  lemma StartRespawns()
    ensures Step(Built(false), ClientStart("dev")) == Built(false).(terms := Respawned)
    ensures Step(Built(true), ClientStart("dev")) == Built(true).(terms := DevRuns)
  {
    assert ["dev"][..0] == [];
    SpawnDev();
  }

  /** A client starts a service that is still running. */
  lemma ClientStartLeaks()
    ensures var events := BuildWith(false) + [ClientStart("dev")] + SweepToItsEnd;
            Run(events).life.teardown.Removed? && There(Run(events), Proc(0))
  {
    BuildRuns(false);
    StartRespawns();
    RunOneMore(BuildWith(false), ClientStart("dev"));
    RespawnedLeaks(BuildWith(false) + [ClientStart("dev")]);
  }

  lemma ReleaseRespawns()
    ensures Step(Built(true).(terms := DevRuns), ReleaseDeferred(["dev"])) == Built(false).(terms := Respawned)
  {
    assert ["dev"][..0] == [];
  }

  /** A client starts a service that is held back, and the block is let go over it. */
  lemma ReleaseOverAStartLeaks()
    ensures var events := BuildWith(true) + [ClientStart("dev")] + [ReleaseDeferred(["dev"])] + SweepToItsEnd;
            Run(events).life.teardown.Removed? && There(Run(events), Proc(0))
  {
    BuildRuns(true);
    StartRespawns();
    ReleaseRespawns();
    RunOneMore(BuildWith(true), ClientStart("dev"));
    RunOneMore(BuildWith(true) + [ClientStart("dev")], ReleaseDeferred(["dev"]));
    RespawnedLeaks(BuildWith(true) + [ClientStart("dev")] + [ReleaseDeferred(["dev"])]);
  }

  /** What a shutdown leaves, and a teardown after it that finds nothing to wait for. */
  function Down(teardown: Teardown): Runtime {
    Runtime(Built(false).life.(managerUp := false, started := false, disposed := true, teardown := teardown),
            NothingHeld.(watcher := Closing), Git(map[], 1), KillAll(DevRuns))
  }

  lemma ShutThenSwept()
    ensures Exec(Built(false), [Shutdown, TeardownBegins]) == Down(Sweeping({}, {}, false))
  {
    ExecTwo(Built(false), Shutdown, TeardownBegins);
    assert Step(Built(false), Shutdown) == Down(NotTorn);
    DownIsSwept();
  }

  lemma DownIsSwept()
    ensures Step(Down(NotTorn), TeardownBegins) == Down(Sweeping({}, {}, false))
  {
    assert Down(NotTorn).git.pending.Keys == {};
  }

  lemma DownEnds()
    ensures var end := Exec(Down(Sweeping({}, {}, false)), [TeardownEnds]);
            end.life.teardown.Removed? && There(end, Proc(0)) && There(end, Watch)
  {
    ExecCons(Down(Sweeping({}, {}, false)), TeardownEnds, []);
    assert [TeardownEnds] == [TeardownEnds] + [];
    assert KillAll(DevRuns).procs[0] == Term("dev", Dying);
  }

  /** Shut down, then torn down: the sweep finds neither manager nor watcher to wait for. */
  lemma ShutdownLeaks()
    ensures var events := BuildWith(false) + [Shutdown, TeardownBegins] + [TeardownEnds];
            Run(events).life.teardown.Removed? && There(Run(events), Proc(0)) && There(Run(events), Watch)
  {
    BuildRuns(false);
    ShutThenSwept();
    RunThrough(BuildWith(false), [Shutdown, TeardownBegins], [TeardownEnds], Built(false), Down(Sweeping({}, {}, false)));
    DownEnds();
  }

  lemma NothingSpawned()
    ensures NoTerminals.table.Keys == {} && NoTerminals.table.Values == {} && Kill(NoTerminals, {}) == NoTerminals
  {
  }

  lemma SweepOfDeferred()
    ensures Step(Built(true), TeardownBegins) == Swept(true, {}, NoTerminals, Git(map[], 1))
  {
    NothingSpawned();
    var b := Built(true);
    assert b.git.pending.Keys == {};
    assert Owned(true, NoTerminals) == {};
    var swept := DoTeardownBegins(b);
    assert swept.life == b.life.(disposed := true, teardown := Sweeping({}, {}, true));
  }

  lemma SweepEndsAtOnce(defer: bool, terms: Terminals, git: Git)
    ensures var end := Exec(Swept(defer, {}, terms, git), [WatcherCloses, TeardownEnds]);
            end.life.teardown.Removed? && end.terms == terms && end.git == git
  {
    ExecTwo(Swept(defer, {}, terms, git), WatcherCloses, TeardownEnds);
  }

  lemma ReleasedInSweep()
    ensures var swept := Swept(true, {}, NoTerminals, Git(map[], 1));
            Step(swept, ReleaseDeferred(["dev"])) == swept.(life := swept.life.(servicesDeferred := false), terms := DevRuns)
  {
    SpawnDev();
  }

  /** `startDeferredServices` has no `disposed` guard: let go during the sweep, its terminal
      outlives the teardown. */
  lemma LateReleaseLeaks()
    ensures var events := BuildWith(true) + [TeardownBegins, ReleaseDeferred(["dev"])] + [WatcherCloses, TeardownEnds];
            Run(events).life.teardown.Removed? && Run(events).terms == DevRuns
  {
    var late := Swept(false, {}, DevRuns, Git(map[], 1));
    BuildRuns(true);
    SweepOfDeferred();
    ReleasedInSweep();
    ExecTwo(Built(true), TeardownBegins, ReleaseDeferred(["dev"]));
    RunThrough(BuildWith(true), [TeardownBegins, ReleaseDeferred(["dev"])], [WatcherCloses, TeardownEnds], Built(true), late);
    SweepEndsAtOnce(false, late.terms, late.git);
  }
}
