/** The runtime record of `agent-core` as the object its closures share, with the terminal
    manager's table. Each method is one atomic step, and its contract says that the record moves
    exactly as `CheckoutLifecycle` says; `Replay` and `TornDownIsAllGone` carry its results over to the
    object. */
module CheckoutRuntime {
  import opened CheckoutLifecycle

  class Core {
    // the registry row, the process-wide manager and the keyed lock's holder
    var registered: bool
    var managerUp: bool
    var build: Build
    var teardown: Teardown
    // the record
    var started: bool
    var disposed: bool
    var servicesDeferred: bool
    var configSeen: bool
    var fileWatcher: Watcher
    var configWatch: bool
    var uploadSweeper: bool
    var detectors: bool
    var gitBranchInterval: bool
    var gitAutofetchInterval: bool
    var gitRefreshTimer: bool
    var pendingGitRefreshes: map<nat, GitWork>
    var nextTicket: nat
    // the terminals' processes, and the manager's `sessions`
    var procs: map<nat, Term>
    var sessions: map<string, nat>
    var nextProc: nat

    ghost function LifeState(): Life
      reads this`registered, this`managerUp, this`started, this`disposed, this`servicesDeferred, this`configSeen, this`build, this`teardown
    {
      Life(registered, managerUp, started, disposed, servicesDeferred, configSeen, build, teardown)
    }

    ghost function Held(): Holders
      reads this`fileWatcher, this`configWatch, this`uploadSweeper, this`detectors, this`gitBranchInterval, this`gitAutofetchInterval, this`gitRefreshTimer
    {
      Holders(fileWatcher, configWatch, uploadSweeper, detectors, gitBranchInterval, gitAutofetchInterval, gitRefreshTimer)
    }

    ghost function GitState(): Git
      reads this`pendingGitRefreshes, this`nextTicket
    {
      Git(pendingGitRefreshes, nextTicket)
    }

    ghost function Terms(): Terminals
      reads this`procs, this`sessions, this`nextProc
    {
      Terminals(procs, sessions, nextProc)
    }

    ghost function State(): Runtime
      reads this
    {
      Runtime(LifeState(), Held(), GitState(), Terms())
    }

    constructor ()
      ensures State() == Initial
    {
      registered, managerUp, build, teardown := false, true, NotBuilding, NotTorn;
      started, disposed, servicesDeferred, configSeen := false, false, false, false;
      fileWatcher, configWatch, uploadSweeper, detectors := NoWatcher, false, false, false;
      gitBranchInterval, gitAutofetchInterval, gitRefreshTimer := false, false, false;
      pendingGitRefreshes, nextTicket := map[], 0;
      procs, sessions, nextProc := map[], map[], 0;
    }

    method TrackGitRefresh(work: GitWork)
      modifies this`pendingGitRefreshes, this`nextTicket
      ensures GitState() == Track(old(GitState()), work)
    {
      pendingGitRefreshes := pendingGitRefreshes[nextTicket := work];
      nextTicket := nextTicket + 1;
    }

    method KillTerminal(id: string)
      modifies this`procs
      ensures Terms() == KillId(old(Terms()), id)
    {
      if id in sessions && sessions[id] in procs {
        procs := procs[sessions[id] := Doomed(procs[sessions[id]])];
      }
    }

    /** `manager.spawn`. */
    method SpawnTerminal(id: string)
      modifies this`procs, this`sessions, this`nextProc
      ensures Terms() == SpawnOne(old(Terms()), id)
    {
      KillTerminal(id);
      procs := procs[nextProc := Term(id, Running)];
      sessions := sessions[id := nextProc];
      nextProc := nextProc + 1;
    }

    /** The spawn loops; `edited` services are killed by the loop itself first. */
    method SpawnServices(services: seq<string>, edited: set<string>)
      modifies this`procs, this`sessions, this`nextProc
      ensures Terms() == Spawn(old(Terms()), managerUp, services)
    {
      if !managerUp {
        return;
      }
      for i := 0 to |services|
        invariant Terms() == SpawnAll(old(Terms()), services[..i])
      {
        assert services[..i + 1][..i] == services[..i];
        KillThenSpawn(Terms(), services[i]);
        if services[i] in edited {
          KillTerminal(services[i]);
        }
        SpawnTerminal(services[i]);
      }
      assert services[..|services|] == services;
    }

    method KillTerminals(ids: set<string>)
      modifies this`procs
      ensures Terms() == Kill(old(Terms()), ids)
    {
      procs := map p | p in procs :: if procs[p].id in ids && InTable(Terminals(procs, sessions, nextProc), p) then Doomed(procs[p]) else procs[p];
    }

    /** `startCheckoutRuntime`, up to its yield. */
    method StartCheckoutRuntime(defer: bool)
      modifies this
      ensures State() == StartRuntime(old(State()), defer)
    {
      if started || !managerUp {
        build := NotBuilding;
        return;
      }
      started := true;
      servicesDeferred := defer;
      detectors := true;
      fileWatcher := Constructed;
      uploadSweeper := true;
      build := AtYield;
    }

    method PrepareCheckoutRuntime(defer: bool)
      requires Applies(State(), Prepare(defer))
      modifies this
      ensures State() == Step(old(State()), Prepare(defer))
    {
      if registered {
        StartCheckoutRuntime(defer);
      } else {
        registered := true;
        build := Preparing(defer);
      }
    }

    method PrepareReturned()
      requires Applies(State(), Event.PrepareReturned)
      modifies this
      ensures State() == Step(old(State()), Event.PrepareReturned)
    {
      StartCheckoutRuntime(build.defer);
    }

    method StartWatching()
      modifies this`fileWatcher, this`configWatch, this`configSeen
      ensures Held() == old(Held()).(watcher := Watching, configWatch := true)
      ensures configSeen
    {
      fileWatcher := Watching;
      configWatch := true;
      configSeen := true;
    }

    method StartCheckoutServices(services: seq<string>)
      modifies this`procs, this`sessions, this`nextProc
      ensures Terms() == if servicesDeferred then old(Terms()) else Spawn(old(Terms()), managerUp, services)
    {
      if !servicesDeferred {
        SpawnServices(services, {});
      }
    }

    /** After the yield: watch, spawn the services, track the first refresh and wait for it. */
    method YieldReturned(services: seq<string>)
      requires build.AtYield?
      modifies this
      ensures State() == DoYieldReturned(old(State()), services)
    {
      if disposed || !managerUp {
        build := NotBuilding;
        return;
      }
      StartWatching();
      StartCheckoutServices(services);
      build := AtRefresh(nextTicket);
      TrackGitRefresh(Refreshing);
    }

    method RunGitAutofetchTick(fetches: bool)
      modifies this`pendingGitRefreshes, this`nextTicket
      ensures GitState() == FetchOnce(old(GitState()), fetches)
    {
      if fetches {
        TrackGitRefresh(Fetching);
      }
    }

    /** After the first refresh: arm the poll and the background fetch. */
    method RefreshReturned(fetches: bool)
      requires build.AtRefresh?
      modifies this
      ensures State() == DoRefreshReturned(old(State()), fetches)
    {
      if !disposed {
        RunGitAutofetchTick(fetches);
        gitBranchInterval, gitAutofetchInterval := true, true;
      }
      build := NotBuilding;
    }

    method ScheduleGitRefresh()
      requires Applies(State(), WatcherEvent)
      modifies this`gitRefreshTimer
      ensures State() == Step(old(State()), WatcherEvent)
    {
      if disposed {
        return;
      }
      gitRefreshTimer := true;
    }

    method RefreshTimerFires()
      requires Applies(State(), Event.RefreshTimerFires)
      modifies this
      ensures State() == Step(old(State()), Event.RefreshTimerFires)
    {
      gitRefreshTimer := false;
      TrackGitRefresh(Refreshing);
    }

    /** The poll tick, a focus and a resync guard and refresh alike. */
    method GuardedRefresh(e: Event)
      requires e.PollTick? || e.Focus? || e.Resync?
      requires Applies(State(), e)
      modifies this
      ensures State() == Step(old(State()), e)
    {
      if disposed {
        return;
      }
      TrackGitRefresh(Refreshing);
    }

    /** `edited` are the services the diff calls modified. */
    method ConfigChanged(removed: set<string>, changed: seq<string>, edited: set<string>)
      modifies this`procs, this`sessions, this`nextProc
      ensures State() == DoConfigChanged(old(State()), removed, changed)
    {
      if disposed {
        return;
      }
      if managerUp {
        KillTerminals(removed);
      }
      if !servicesDeferred {
        SpawnServices(changed, edited);
      }
    }

    /** A tree root request or `git:sync`: no guard. */
    method ClientRequest()
      modifies this`pendingGitRefreshes, this`nextTicket
      ensures GitState() == Track(old(GitState()), Refreshing)
    {
      TrackGitRefresh(Refreshing);
    }

    /** `terminal:start`, and `terminal:stop`. */
    method ClientStart(id: string)
      modifies this`procs, this`sessions, this`nextProc
      ensures Terms() == Spawn(old(Terms()), managerUp, [id])
    {
      if managerUp {
        SpawnJustOne(Terms(), id);
        SpawnTerminal(id);
      }
    }

    method ClientStop(id: string)
      modifies this`procs
      ensures Terms() == if managerUp then KillId(old(Terms()), id) else old(Terms())
    {
      if managerUp {
        KillTerminal(id);
      }
    }

    method StartDeferredServices(services: seq<string>)
      modifies this`servicesDeferred, this`procs, this`sessions, this`nextProc
      ensures State() == DoReleaseDeferred(old(State()), services)
    {
      if !registered || !servicesDeferred {
        return;
      }
      servicesDeferred := false;
      SpawnServices(services, {});
    }

    method GitSettles(ticket: nat)
      requires Applies(State(), Event.GitSettles(ticket))
      modifies this
      ensures State() == Step(old(State()), Event.GitSettles(ticket))
    {
      pendingGitRefreshes := pendingGitRefreshes - {ticket};
    }

    /** A background fetch came back: only a live runtime goes on to read the status, under the
        same tracked promise. */
    method FetchSettles(ticket: nat, fetched: bool)
      requires Applies(State(), Event.FetchSettles(ticket, fetched))
      modifies this
      ensures State() == Step(old(State()), Event.FetchSettles(ticket, fetched))
    {
      if !fetched || disposed {
        pendingGitRefreshes := pendingGitRefreshes - {ticket};
      } else {
        pendingGitRefreshes := pendingGitRefreshes[ticket := Refreshing];
      }
    }

    /** The environment: a process, or a closing watcher, is gone. */
    method PtyExits(proc: nat)
      requires proc in procs
      modifies this`procs, this`sessions
      ensures Terms() == Exit(old(Terms()), proc)
    {
      var id := procs[proc].id;
      if id in sessions && sessions[id] == proc {
        sessions := sessions - {id};
      }
      procs := procs[proc := procs[proc].(state := Gone)];
    }

    method WatcherCloses()
      modifies this`fileWatcher
      ensures Held() == old(Held()).(watcher := Closed)
    {
      fileWatcher := Closed;
    }

    /** `fileWatcher.stop()` drops its handle, so only the first stop has something to wait for. */
    method StopCheckoutServices() returns (closing: bool)
      modifies this`configWatch, this`fileWatcher, this`uploadSweeper, this`detectors,
               this`gitBranchInterval, this`gitAutofetchInterval, this`gitRefreshTimer
      ensures Held() == StopServices(old(Held())) && closing == old(fileWatcher).Watching?
    {
      configWatch := false;
      closing := fileWatcher.Watching?;
      fileWatcher := Stopped(fileWatcher);
      uploadSweeper := false;
      detectors := false;
      gitBranchInterval := false;
      gitAutofetchInterval := false;
      gitRefreshTimer := false;
    }

    /** The sweep's kills, and the processes whose trees it will wait for. */
    method KillSwept() returns (owned: set<nat>)
      modifies this`procs
      ensures owned == Owned(managerUp, old(Terms())) && Terms() == KillOwned(managerUp, old(Terms()))
    {
      owned := {};
      if managerUp {
        owned := sessions.Values;
        KillTerminals(sessions.Keys);
      }
    }

    /** The sweep up to its wait, which keeps the snapshots of what it will wait for. */
    method Sweep()
      modifies this`teardown, this`procs, this`configWatch, this`fileWatcher, this`uploadSweeper, this`detectors,
               this`gitBranchInterval, this`gitAutofetchInterval, this`gitRefreshTimer
      ensures Held() == StopServices(old(Held())) && Terms() == KillOwned(managerUp, old(Terms()))
      ensures teardown == Sweeping(Owned(managerUp, old(Terms())), GitState().pending.Keys, old(fileWatcher).Watching?)
    {
      var owned := KillSwept();
      var closing := StopCheckoutServices();
      teardown := Sweeping(owned, pendingGitRefreshes.Keys, closing);
    }

    /** `teardownCheckoutRuntime`, up to the wait: nothing suspends before the snapshots. */
    method TeardownBegins()
      modifies this
      ensures State() == DoTeardownBegins(old(State()))
    {
      disposed := true;
      Sweep();
      assert GitState() == old(GitState());
    }

    method TeardownEnds()
      modifies this`teardown, this`registered
      ensures LifeState() == old(LifeState()).(teardown := Removed, registered := false)
    {
      teardown := Removed;
      registered := false;
    }

    /** What shutdown does to each registered runtime. */
    method DisposeRow()
      modifies this`configWatch, this`fileWatcher, this`uploadSweeper, this`detectors, this`gitBranchInterval,
               this`gitAutofetchInterval, this`gitRefreshTimer, this`started, this`disposed
      ensures Held() == if registered then StopServices(old(Held())) else old(Held())
      ensures LifeState() == ShutLife(old(LifeState())).(managerUp := managerUp)
    {
      if registered {
        var closing := StopCheckoutServices();
        started := false;
        disposed := true;
      }
    }

    /** `manager.killAll()`, and the manager is gone. */
    method DropManager()
      modifies this`procs, this`sessions, this`managerUp
      ensures Terms() == KillAll(old(Terms())) && LifeState() == old(LifeState()).(managerUp := false)
    {
      KillTerminals(sessions.Keys);
      sessions := map[];
      managerUp := false;
    }

    /** `teardownServices`: no lock, and no wait for what it stops. */
    method Shutdown()
      modifies this
      ensures LifeState() == ShutLife(old(LifeState()))
      ensures Held() == if registered then StopServices(old(Held())) else old(Held())
      ensures GitState() == old(GitState()) && Terms() == KillAll(old(Terms()))
    {
      DisposeRow();
      assert Terms() == old(Terms()) && GitState() == old(GitState());
      DropManager();
    }

    /** The steps of a build. */
    method BuildStep(e: Event)
      requires e.Prepare? || e.PrepareReturned? || e.YieldReturned? || e.RefreshReturned?
      requires Applies(State(), e)
      modifies this
      ensures State() == Step(old(State()), e)
    {
      match e {
        case Prepare(defer) => PrepareCheckoutRuntime(defer);
        case PrepareReturned => PrepareReturned();
        case YieldReturned(services) => YieldReturned(services);
        case RefreshReturned(fetches) => RefreshReturned(fetches);
        case _ =>
      }
    }

    /** The steps of a teardown and a shutdown. */
    method EndStep(e: Event)
      requires e.TeardownBegins? || e.TeardownEnds? || e.Shutdown?
      requires Applies(State(), e)
      modifies this
      ensures State() == Step(old(State()), e)
    {
      if e.TeardownBegins? {
        TeardownBegins();
      } else if e.TeardownEnds? {
        TeardownEnds();
      } else {
        Shutdown();
      }
    }

    /** What a teardown waits for, from the environment. */
    method ExitStep(e: Event)
      requires e.PtyExits? || e.WatcherCloses?
      requires Applies(State(), e)
      modifies this
      ensures State() == Step(old(State()), e)
    {
      if e.PtyExits? {
        PtyExits(e.proc);
      } else {
        WatcherCloses();
      }
    }

    /** Git work, tracked, guarded or settling. */
    method GitStep(e: Event)
      requires e.WatcherEvent? || e.RefreshTimerFires? || e.FetchTick? || e.GitSettles? || e.FetchSettles?
      requires Applies(State(), e)
      modifies this
      ensures State() == Step(old(State()), e)
    {
      match e {
        case WatcherEvent => ScheduleGitRefresh();
        case RefreshTimerFires => RefreshTimerFires();
        case FetchTick(fetches) => RunGitAutofetchTick(fetches);
        case GitSettles(ticket) => GitSettles(ticket);
        case FetchSettles(ticket, fetched) => FetchSettles(ticket, fetched);
        case _ =>
      }
    }

    /** What clients and the config watch ask for. */
    method ClientStep(e: Event)
      requires e.PollTick? || e.Focus? || e.Resync? || e.Request? || e.ConfigChanged? || e.ReleaseDeferred?
            || e.ClientStart? || e.ClientStop?
      requires Applies(State(), e)
      modifies this
      ensures State() == Step(old(State()), e)
    {
      if e.Request? {
        ClientRequest();
      } else if e.ClientStart? {
        ClientStart(e.id);
      } else if e.ClientStop? {
        ClientStop(e.id);
      } else if e.ConfigChanged? {
        var edited: set<string> := *;
        ConfigChanged(e.removed, e.changed, edited);
      } else if e.ReleaseDeferred? {
        StartDeferredServices(e.services);
      } else {
        GuardedRefresh(e);
      }
    }

    method Perform(e: Event)
      requires Applies(State(), e)
      modifies this
      ensures State() == Step(old(State()), e)
    {
      match e {
        case Prepare(_) | PrepareReturned | YieldReturned(_) | RefreshReturned(_) => BuildStep(e);
        case TeardownBegins | TeardownEnds | Shutdown => EndStep(e);
        case PtyExits(_) | WatcherCloses => ExitStep(e);
        case WatcherEvent | RefreshTimerFires | FetchTick(_) | GitSettles(_) | FetchSettles(_, _) => GitStep(e);
        case _ => ClientStep(e);
      }
    }

    /** Nothing is left in the record's fields. */
    ghost predicate AllGone()
      reads this
    {
      && !configWatch && !uploadSweeper && !detectors && !gitBranchInterval && !gitAutofetchInterval && !gitRefreshTimer
      && (fileWatcher == NoWatcher || fileWatcher == Closed) && pendingGitRefreshes.Keys == {}
      && forall p | p in procs :: procs[p] == Term(procs[p].id, Gone)
    }
  }

  /** Every event of the run happens where it can. */
  ghost predicate Possible(events: seq<Event>) {
    forall k | 0 <= k < |events| :: Applies(Run(events[..k]), events[k])
  }

  lemma PossibleSoFar(events: seq<Event>)
    requires Possible(events) && events != []
    ensures Possible(events[..|events| - 1]) && Applies(Run(events[..|events| - 1]), events[|events| - 1])
    ensures Run(events) == Step(Run(events[..|events| - 1]), events[|events| - 1])
  {
    var n := |events| - 1;
    forall k | 0 <= k < n ensures Applies(Run(events[..n][..k]), events[..n][k]) {
      assert events[..n][..k] == events[..k];
    }
  }

  /** The object through a whole run. */
  method Replay(events: seq<Event>) returns (core: Core)
    requires Possible(events)
    ensures fresh(core) && core.State() == Run(events)
  {
    if events == [] {
      core := new Core();
    } else {
      PossibleSoFar(events);
      core := Replay(events[..|events| - 1]);
      core.Perform(events[|events| - 1]);
    }
  }

  /** A finished teardown has left nothing in the object's fields, unless one of the run's events put
      something out of the teardown's reach. */
  lemma TornDownIsAllGone(core: Core, events: seq<Event>)
    requires core.State() == Run(events) && core.teardown.Removed? && NothingStrays(Initial, events)
    ensures core.AllGone()
  {
    RunKeepsInv(events);
    assert Clean(Initial);
    CleanRun(Initial, events);
    RemovedCleanIsReleased(core.State());
    assert core.Held() == core.State().held && core.Terms() == core.State().terms && core.GitState() == core.State().git;
  }
}
