/** The config watch: each debounced read is diffed against the last valid config, and the diff
    moves the running services. */
module ConfigReplay {
  import opened Sequences

  /** A service definition. `rest` is how `JSON.stringify` renders its other fields, so two
      definitions are equal here exactly when the source's `eq` says so. */
  datatype Service = Service(name: string, command: string, rest: string)

  /** `agent` is the rendering of the agent block, `{}` when there is none. */
  datatype Config = Config(agent: string, services: seq<Service>)

  datatype Read = Valid(config: Config) | Missing | Invalid(error: string)

  datatype ServiceRef = ServiceRef(name: string, command: string)

  datatype ConfigDiff = ConfigDiff(agentRestartRequired: bool, added: seq<ServiceRef>, removed: seq<string>, modified: seq<ServiceRef>)

  type Services = map<string, Service>

  ghost predicate Unique(services: seq<Service>) {
    forall i, j | 0 <= i < j < |services| :: services[i].name != services[j].name
  }

  /** `new Map(services.map(s => [s.name, s]))`. */
  function ByName(services: seq<Service>): Services {
    if services == [] then map[]
    else ByName(services[..|services| - 1])[services[|services| - 1].name := services[|services| - 1]]
  }

  lemma {:induction false} ByNameHolds(services: seq<Service>)
    requires Unique(services)
    ensures forall s | s in services :: s.name in ByName(services) && ByName(services)[s.name] == s
    ensures forall n | n in ByName(services) :: ByName(services)[n] in services && ByName(services)[n].name == n
  {
    if services != [] {
      Snoc(services);
      ByNameHolds(services[..|services| - 1]);
    }
  }

  // ---------------------------------------------------------------- the diff

  function Ref(s: Service): ServiceRef {
    ServiceRef(s.name, s.command)
  }

  /** The definitions of `next` that `prev` does not have, in order. */
  function AddedTo(prev: Services, next: seq<Service>): seq<ServiceRef> {
    if next == [] then []
    else
      var s := next[|next| - 1];
      AddedTo(prev, next[..|next| - 1]) + if s.name in prev then [] else [Ref(s)]
  }

  /** Those it has otherwise. */
  function ModifiedIn(prev: Services, next: seq<Service>): seq<ServiceRef> {
    if next == [] then []
    else
      var s := next[|next| - 1];
      ModifiedIn(prev, next[..|next| - 1]) + if s.name in prev && prev[s.name] != s then [Ref(s)] else []
  }

  function RemovedFrom(prev: seq<Service>, next: Services): seq<string> {
    if prev == [] then []
    else
      var s := prev[|prev| - 1];
      RemovedFrom(prev[..|prev| - 1], next) + if s.name in next then [] else [s.name]
  }

  function DiffOf(prev: Config, next: Config): ConfigDiff {
    ConfigDiff(prev.agent != next.agent,
               AddedTo(ByName(prev.services), next.services),
               RemovedFrom(prev.services, ByName(next.services)),
               ModifiedIn(ByName(prev.services), next.services))
  }

  method ComputeDiff(prev: Config, next: Config) returns (diff: ConfigDiff)
    ensures diff == DiffOf(prev, next)
  {
    var prevServices, nextServices := ByName(prev.services), ByName(next.services);
    var added, modified, removed := [], [], [];
    for i := 0 to |next.services|
      invariant added == AddedTo(prevServices, next.services[..i])
      invariant modified == ModifiedIn(prevServices, next.services[..i])
    {
      var s := next.services[i];
      assert next.services[..i + 1][..i] == next.services[..i];
      if s.name !in prevServices {
        added := added + [Ref(s)];
      } else if prevServices[s.name] != s {
        modified := modified + [Ref(s)];
      }
    }
    Whole(next.services);
    for i := 0 to |prev.services|
      invariant removed == RemovedFrom(prev.services[..i], nextServices)
    {
      assert prev.services[..i + 1][..i] == prev.services[..i];
      if prev.services[i].name !in nextServices {
        removed := removed + [prev.services[i].name];
      }
    }
    Whole(prev.services);
    diff := ConfigDiff(prev.agent != next.agent, added, removed, modified);
  }

  function NamesOf(refs: seq<ServiceRef>): set<string> {
    set r | r in refs :: r.name
  }

  lemma {:induction false} AddedNames(prev: Services, next: seq<Service>)
    requires Unique(next)
    ensures NamesOf(AddedTo(prev, next)) == ByName(next).Keys - prev.Keys
    ensures forall i, j | 0 <= i < j < |AddedTo(prev, next)| :: AddedTo(prev, next)[i].name != AddedTo(prev, next)[j].name
  {
    if next != [] {
      AddedNames(prev, next[..|next| - 1]);
      ByNameHolds(next[..|next| - 1]);
      NamesMore(AddedTo(prev, next[..|next| - 1]), Ref(next[|next| - 1]));
    }
  }

  lemma NamesMore(refs: seq<ServiceRef>, r: ServiceRef)
    ensures NamesOf(refs + [r]) == NamesOf(refs) + {r.name} && NamesOf(refs + []) == NamesOf(refs)
    ensures forall i | 0 <= i < |refs| :: refs[i].name in NamesOf(refs)
  {
    assert (refs + [r])[|refs|] == r;
    assert forall x | x in refs :: x in refs + [r];
    Nothing(refs);
  }

  lemma {:induction false} ModifiedNames(prev: Services, next: seq<Service>)
    requires Unique(next)
    ensures NamesOf(ModifiedIn(prev, next)) == set n | n in ByName(next) && n in prev && prev[n] != ByName(next)[n]
  {
    if next != [] {
      ModifiedNames(prev, next[..|next| - 1]);
      ByNameHolds(next[..|next| - 1]);
      NamesMore(ModifiedIn(prev, next[..|next| - 1]), Ref(next[|next| - 1]));
    }
  }

  lemma {:induction false} RemovedNames(prev: seq<Service>, next: Services)
    ensures forall n :: n in RemovedFrom(prev, next) <==> n in ByName(prev) && n !in next
  {
    if prev != [] {
      RemovedNames(prev[..|prev| - 1], next);
    }
  }

  /** The three parts of a diff are the names that only one config has, and those defined
      differently in both: disjoint, and together exactly what changed. */
  lemma DiffPartitionsTheChange(prev: Config, next: Config, name: string)
    requires Unique(prev.services) && Unique(next.services)
    ensures var was, now := ByName(prev.services), ByName(next.services);
            var added, modified := NamesOf(AddedTo(was, next.services)), NamesOf(ModifiedIn(was, next.services));
            var removed := RemovedFrom(prev.services, now);
            && (name in added <==> name !in was && name in now)
            && (name in removed <==> name in was && name !in now)
            && (name in modified <==> name in was && name in now && was[name] != now[name])
            && !(name in added && name in removed) && !(name in added && name in modified) && !(name in removed && name in modified)
  {
    AddedNames(ByName(prev.services), next.services);
    ModifiedNames(ByName(prev.services), next.services);
    RemovedNames(prev.services, ByName(next.services));
  }

  // ---------------------------------------------------------------- the callback

  /** `services.find(s => s.name === name)`. */
  function Find(services: seq<Service>, name: string): Option<Service> {
    if services == [] then None
    else if services[0].name == name then Some(services[0])
    else Find(services[1..], name)
  }

  lemma {:induction false} FindIsByName(services: seq<Service>, name: string)
    requires Unique(services)
    ensures Find(services, name) == if name in ByName(services) then Some(ByName(services)[name]) else None
  {
    ByNameHolds(services);
    FindHolds(services, name);
  }

  lemma {:induction false} FindHolds(services: seq<Service>, name: string)
    ensures match Find(services, name)
            case Some(s) => s in services && s.name == name
            case None => forall s | s in services :: s.name != name
  {
    if services != [] {
      FindHolds(services[1..], name);
    }
  }

  /** Spawns the definition each name has in `services`; a name without one is skipped. */
  function Started(running: Services, refs: seq<ServiceRef>, services: seq<Service>): Services {
    if refs == [] then running
    else
      var r := refs[|refs| - 1];
      var before := Started(running, refs[..|refs| - 1], services);
      match Find(services, r.name)
      case Some(def) => before[def.name := def]
      case None => before
  }

  function NameSet(names: seq<string>): set<string> {
    set n | n in names
  }

  /** What the callback does on a valid read: kill the removed, spawn the added, respawn the
      modified. */
  function React(running: Services, diff: ConfigDiff, services: seq<Service>): Services {
    Started(Started(running - NameSet(diff.removed), diff.added, services), diff.modified, services)
  }

  lemma {:induction false} StartedIs(running: Services, refs: seq<ServiceRef>, services: seq<Service>, name: string)
    requires Unique(services)
    ensures var after := Started(running, refs, services);
            if name in NamesOf(refs) && name in ByName(services) then name in after && after[name] == ByName(services)[name]
            else (name in after <==> name in running) && (name in after ==> after[name] == running[name])
  {
    if refs != [] {
      var n := |refs| - 1;
      StartedIs(running, refs[..n], services, name);
      FindIsByName(services, refs[n].name);
      ByNameHolds(services);
      Snoc(refs);
      NamesMore(refs[..n], refs[n]);
    }
  }

  /** What one valid read does to one name: gone if the config dropped it, on the new definition if
      that is new or changed, and otherwise left alone. */
  lemma ReactTo(running: Services, prev: Config, next: Config, diff: ConfigDiff, name: string)
    requires Unique(prev.services) && Unique(next.services)
    requires diff.added == AddedTo(ByName(prev.services), next.services)
    requires diff.removed == RemovedFrom(prev.services, ByName(next.services))
    requires diff.modified == ModifiedIn(ByName(prev.services), next.services)
    ensures var was, now, after := ByName(prev.services), ByName(next.services), React(running, diff, next.services);
            if name in now && !(name in was && was[name] == now[name]) then name in after && after[name] == now[name]
            else if name in was && name !in now then name !in after
            else (name in after <==> name in running) && (name in after ==> after[name] == running[name])
  {
    var stopped := running - NameSet(diff.removed);
    DiffPartitionsTheChange(prev, next, name);
    StartedIs(stopped, diff.added, next.services, name);
    StartedIs(Started(stopped, diff.added, next.services), diff.modified, next.services, name);
  }

  // ---------------------------------------------------------------- a run of reads

  datatype Watch = Watch(lastConfig: Config, running: Services)

  function Tick(w: Watch, r: Read): Watch {
    if r.Valid? then Watch(r.config, React(w.running, DiffOf(w.lastConfig, r.config), r.config.services)) else w
  }

  function Replay(w: Watch, seen: seq<Read>): Watch {
    if seen == [] then w else Tick(Replay(w, seen[..|seen| - 1]), seen[|seen| - 1])
  }

  /** The config of the last read that was valid, or the seeded one. */
  function LastValid(seeded: Config, seen: seq<Read>): Config {
    if seen == [] then seeded
    else if seen[|seen| - 1].Valid? then seen[|seen| - 1].config
    else LastValid(seeded, seen[..|seen| - 1])
  }

  /** The two configs do not agree on this name. */
  predicate Differ(a: Config, b: Config, name: string) {
    var x, y := ByName(a.services), ByName(b.services);
    (name in x) != (name in y) || (name in x && name in y && x[name] != y[name])
  }

  /** Some valid read changed this name's definition. */
  ghost predicate Touched(seeded: Config, seen: seq<Read>, name: string) {
    exists k :: 0 <= k < |seen| && seen[k].Valid? && Differ(LastValid(seeded, seen[..k]), seen[k].config, name)
  }

  ghost predicate NamesUnique(seeded: Config, seen: seq<Read>) {
    Unique(seeded.services) && forall r | r in seen && r.Valid? :: Unique(r.config.services)
  }

  lemma {:induction false} LastValidUnique(seeded: Config, seen: seq<Read>)
    requires NamesUnique(seeded, seen)
    ensures Unique(LastValid(seeded, seen).services)
  {
    if seen != [] {
      Snoc(seen);
      LastValidUnique(seeded, seen[..|seen| - 1]);
    }
  }

  lemma TouchedMore(seeded: Config, seen: seq<Read>, r: Read, name: string)
    ensures Touched(seeded, seen + [r], name)
            <==> Touched(seeded, seen, name) || (r.Valid? && Differ(LastValid(seeded, seen), r.config, name))
  {
    var more := seen + [r];
    DropLast(seen, r);
    assert forall k | 0 <= k < |seen| :: more[..k] == seen[..k] && more[k] == seen[k];
    assert more[|seen|] == r;
  }

  /** Whatever mix of valid, invalid and missing reads: exactly those services of the last valid
      config run that ran at the start or were ever added or edited, each under its newest
      definition. */
  lemma {:induction false} RunningIs(seeded: Config, running: Services, seen: seq<Read>, name: string)
    requires NamesUnique(seeded, seen)
    requires forall n | n in running :: n in ByName(seeded.services) && running[n] == ByName(seeded.services)[n]
    ensures var end := Replay(Watch(seeded, running), seen);
            var last := ByName(LastValid(seeded, seen).services);
            && end.lastConfig == LastValid(seeded, seen)
            && (name in end.running <==> name in last && (name in running || Touched(seeded, seen, name)))
            && (name in end.running ==> end.running[name] == last[name])
  {
    if seen != [] {
      var n := |seen| - 1;
      var before := Replay(Watch(seeded, running), seen[..n]);
      Snoc(seen);
      RunningIs(seeded, running, seen[..n], name);
      TouchedMore(seeded, seen[..n], seen[n], name);
      LastValidUnique(seeded, seen[..n]);
      if seen[n].Valid? {
        ReactTo(before.running, before.lastConfig, seen[n].config, DiffOf(before.lastConfig, seen[n].config), name);
      }
    }
  }

  /** With every seeded service running at the start, the last valid config runs, exactly. */
  lemma RunsTheLastValidConfig(seeded: Config, seen: seq<Read>)
    requires NamesUnique(seeded, seen)
    ensures Replay(Watch(seeded, ByName(seeded.services)), seen)
            == Watch(LastValid(seeded, seen), ByName(LastValid(seeded, seen).services))
  {
    var end := Replay(Watch(seeded, ByName(seeded.services)), seen);
    var last := ByName(LastValid(seeded, seen).services);
    forall name ensures (name in end.running <==> name in last) && (name in last ==> end.running[name] == last[name]) {
      RunningIs(seeded, ByName(seeded.services), seen, name);
      UntouchedStays(seeded, seen, name);
    }
    RunningIs(seeded, ByName(seeded.services), seen, "");
    assert end.running == last;
  }

  lemma {:induction false} UntouchedStays(seeded: Config, seen: seq<Read>, name: string)
    ensures !Touched(seeded, seen, name) ==> !Differ(seeded, LastValid(seeded, seen), name)
  {
    if seen != [] {
      var n := |seen| - 1;
      Snoc(seen);
      UntouchedStays(seeded, seen[..n], name);
      TouchedMore(seeded, seen[..n], seen[n], name);
    }
  }

  /** A service held back at the start (`autoStart: false`) is started by editing it. */
  lemma EditingStartsAHeldBackService(seeded: Config, edited: Config, name: string)
    requires Unique(seeded.services) && Unique(edited.services)
    requires name in ByName(edited.services) && Differ(seeded, edited, name)
    ensures name in Replay(Watch(seeded, map[]), [Valid(edited)]).running
  {
    RunningIs(seeded, map[], [Valid(edited)], name);
    assert [Valid(edited)][..0] == [];
    assert Touched(seeded, [Valid(edited)], name);
  }

  /** The watch's closure and the terminals it drives. */
  class ConfigWatch {
    var lastConfig: Config
    var running: Services

    ghost function State(): Watch
      reads this
    {
      Watch(lastConfig, running)
    }

    constructor (seeded: Config, running: Services)
      ensures State() == Watch(seeded, running)
    {
      this.lastConfig, this.running := seeded, running;
    }

    method SpawnAll(refs: seq<ServiceRef>, services: seq<Service>, respawn: bool)
      modifies this`running
      ensures running == Started(old(running), refs, services)
    {
      for i := 0 to |refs|
        invariant running == Started(old(running), refs[..i], services)
      {
        assert refs[..i + 1][..i] == refs[..i];
        var def := Find(services, refs[i].name);
        if def.Some? {
          if respawn {
            running := running - {def.value.name};
          }
          running := running[def.value.name := def.value];
        }
      }
      Whole(refs);
    }

    method KillAll(names: seq<string>)
      modifies this`running
      ensures running == old(running) - NameSet(names)
    {
      for i := 0 to |names|
        invariant running == old(running) - NameSet(names[..i])
      {
        assert names[..i + 1] == names[..i] + [names[i]];
        running := running - {names[i]};
      }
      Whole(names);
    }

    /** The debounced read and the callback it ends in. */
    method OnRead(r: Read)
      modifies this
      ensures State() == Tick(old(State()), r)
    {
      var next := if r.Valid? then r.config else Config("{}", []);
      var diff := ComputeDiff(lastConfig, next);
      if r.Valid? {
        lastConfig := next;
        KillAll(diff.removed);
        SpawnAll(diff.added, next.services, false);
        SpawnAll(diff.modified, next.services, true);
      }
    }
  }
}
