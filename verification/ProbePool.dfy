/** The fixed-width probe pool, and the filter that runs on it: a few workers share one cursor,
    and each takes the next item whenever its last job settles, in whatever order they do. */
module ProbePool {
  import opened Sequences

  const PROBE_CONCURRENCY: nat := 4

  datatype Target = Target(projectId: string, path: string)

  datatype Worker = Waiting | Busy(item: nat) | Ended | Broken

  /** The cursor and the workers; what has been started, in order, what has settled and what has
      thrown; and the slots the filter fills. */
  datatype Pool = Pool(next: nat, workers: seq<Worker>, started: seq<nat>, done: set<nat>, threw: set<nat>, kept: seq<Option<Target>>)

  /** A filter's inputs: the targets, and what the probe of each answered. */
  datatype Job = Job(targets: seq<Target>, answers: seq<Option<string>>, wanted: set<string>)

  ghost predicate WellFormed(job: Job) {
    |job.answers| == |job.targets|
  }

  datatype Event = Launch(worker: nat) | Settle(worker: nat) | Throw(worker: nat)

  function Width(n: nat): nat {
    if n < PROBE_CONCURRENCY then n else PROBE_CONCURRENCY
  }

  function Initial(job: Job): Pool {
    var n := |job.targets|;
    Pool(0, seq(Width(n), _ => Waiting), [], {}, {}, seq(n, _ => None))
  }

  predicate Wanted(job: Job, k: nat)
    requires k < |job.answers|
  {
    job.answers[k].Some? && job.answers[k].value in job.wanted
  }

  /** `while (next < items.length) await job(items[next++])`, up to its wait. */
  function TakeNext(s: Pool, n: nat, w: nat): Pool
    requires w < |s.workers|
  {
    if s.next < n then s.(workers := s.workers[w := Busy(s.next)], started := s.started + [s.next], next := s.next + 1)
    else s.(workers := s.workers[w := Ended])
  }

  /** The slot of a wanted target is filled with it. */
  function Filled(job: Job, kept: seq<Option<Target>>, k: nat): seq<Option<Target>> {
    if k < |job.answers| && k < |job.targets| && k < |kept| && Wanted(job, k) then kept[k := Some(job.targets[k])] else kept
  }

  /** What a settling job leaves behind. */
  function Record(job: Job, s: Pool, k: nat): Pool {
    s.(done := s.done + {k}, kept := Filled(job, s.kept, k))
  }

  predicate Applies(s: Pool, e: Event) {
    e.worker < |s.workers| && if e.Launch? then s.workers[e.worker].Waiting? else s.workers[e.worker].Busy?
  }

  function Step(job: Job, s: Pool, e: Event): Pool {
    if !Applies(s, e) then s else
    match e
    case Launch(w) => TakeNext(s, |job.targets|, w)
    case Settle(w) => TakeNext(Record(job, s, s.workers[w].item), |job.targets|, w)
    case Throw(w) => s.(threw := s.threw + {s.workers[w].item}, workers := s.workers[w := Broken])
  }

  function Run(job: Job, events: seq<Event>): Pool {
    if events == [] then Initial(job) else Step(job, Run(job, events[..|events| - 1]), events[|events| - 1])
  }

  /** `Promise.all` resolves: every worker ran out of items. */
  predicate Resolved(s: Pool) {
    forall w | 0 <= w < |s.workers| :: s.workers[w].Ended?
  }

  // ---------------------------------------------------------------- what every step keeps

  function BusyCount(workers: seq<Worker>): (n: nat)
    ensures n <= |workers|
  {
    if workers == [] then 0 else BusyCount(workers[..|workers| - 1]) + if workers[|workers| - 1].Busy? then 1 else 0
  }

  lemma {:induction false} BusyCountUpdate(workers: seq<Worker>, w: nat, x: Worker)
    requires w < |workers|
    ensures BusyCount(workers[w := x]) == BusyCount(workers) - (if workers[w].Busy? then 1 else 0) + (if x.Busy? then 1 else 0)
  {
    var n := |workers| - 1;
    if w == n {
      assert workers[w := x][..n] == workers[..n];
    } else {
      BusyCountUpdate(workers[..n], w, x);
      assert workers[w := x][..n] == workers[..n][w := x];
    }
  }

  lemma {:induction false} NoneBusy(workers: seq<Worker>)
    requires forall w | 0 <= w < |workers| :: !workers[w].Busy?
    ensures BusyCount(workers) == 0
  {
    if workers != [] {
      NoneBusy(workers[..|workers| - 1]);
    }
  }

  /** The items 0, 1, 2, ... each once. */
  ghost predicate InOrder(items: seq<nat>) {
    forall i | 0 <= i < |items| :: items[i] == i
  }

  /** No two workers run the same item. */
  ghost predicate Apart(workers: seq<Worker>) {
    forall v, w | 0 <= v < w < |workers| && workers[v].Busy? && workers[w].Busy? :: workers[v].item != workers[w].item
  }

  /** What is running was handed out and has neither settled nor thrown. */
  ghost predicate Underway(workers: seq<Worker>, next: nat, gone: set<nat>) {
    forall w | 0 <= w < |workers| && workers[w].Busy? :: workers[w].item < next && workers[w].item !in gone
  }

  /** The items handed out so far are the first `next`, each once, and each is running on one
      worker, settled or thrown. */
  ghost predicate Inv(job: Job, s: Pool) {
    && s.next <= |job.targets| && |s.workers| == Width(|job.targets|)
    && |s.started| == s.next && InOrder(s.started)
    && (forall k | k in s.done || k in s.threw :: k < s.next) && s.done !! s.threw
    && Apart(s.workers) && Underway(s.workers, s.next, s.done + s.threw)
    && BusyCount(s.workers) + |s.done| + |s.threw| == s.next
    && (Ended in s.workers ==> s.next == |job.targets|)
    && (s.threw != {} ==> Broken in s.workers)
  }

  lemma WorkerStops(workers: seq<Worker>, w: nat, x: Worker, next: nat, gone: set<nat>)
    requires w < |workers| && workers[w].Busy? && !x.Busy? && Apart(workers) && Underway(workers, next, gone)
    ensures Apart(workers[w := x]) && Underway(workers[w := x], next, gone + {workers[w].item})
    ensures BusyCount(workers[w := x]) == BusyCount(workers) - 1
  {
    BusyCountUpdate(workers, w, x);
  }

  lemma WorkerStarts(workers: seq<Worker>, w: nat, next: nat, gone: set<nat>)
    requires w < |workers| && !workers[w].Busy? && Apart(workers) && Underway(workers, next, gone)
    requires forall k | k in gone :: k < next
    ensures Apart(workers[w := Busy(next)]) && Underway(workers[w := Busy(next)], next + 1, gone)
    ensures BusyCount(workers[w := Busy(next)]) == BusyCount(workers) + 1
  {
    BusyCountUpdate(workers, w, Busy(next));
  }

  lemma EndedBefore(workers: seq<Worker>, w: nat, x: Worker)
    requires w < |workers| && !x.Ended? && Ended in workers[w := x]
    ensures Ended in workers
  {
    var b :| 0 <= b < |workers| && workers[w := x][b] == Ended;
    assert workers[b] == Ended;
  }

  lemma StillBroken(workers: seq<Worker>, w: nat, x: Worker)
    requires w < |workers| && !workers[w].Broken? && Broken in workers
    ensures Broken in workers[w := x]
  {
    var b :| 0 <= b < |workers| && workers[b] == Broken;
    assert workers[w := x][b] == Broken;
  }

  /** What a slot holds once the items in `done` have settled. */
  function Slot(job: Job, done: set<nat>, k: nat): Option<Target>
    requires k < |job.targets| == |job.answers|
  {
    if k in done && Wanted(job, k) then Some(job.targets[k]) else None
  }

  ghost predicate KeptInv(job: Job, s: Pool) {
    && |s.kept| == |job.targets| == |job.answers|
    && (forall k | 0 <= k < |s.kept| :: s.kept[k] == Slot(job, s.done, k))
  }

  lemma TakeKeepsInv(job: Job, s: Pool, w: nat)
    requires w < |s.workers| && s.workers[w].Waiting? && Inv(job, s)
    ensures Inv(job, TakeNext(s, |job.targets|, w))
  {
    WorkerStarts(s.workers, w, s.next, s.done + s.threw);
    BusyCountUpdate(s.workers, w, Ended);
    if s.next < |job.targets| && Ended in s.workers[w := Busy(s.next)] {
      EndedBefore(s.workers, w, Busy(s.next));
      assert false;
    }
    if s.threw != {} {
      StillBroken(s.workers, w, Busy(s.next));
      StillBroken(s.workers, w, Ended);
    }
  }

  lemma OneMoreGone(a: set<nat>, b: set<nat>, k: nat)
    requires k !in a && k !in b && a !! b
    ensures (a + {k}) + b == (a + b) + {k} && b + (a + {k}) == (b + a) + {k}
    ensures |a + {k}| == |a| + 1 && (a + {k}) !! b
  {
  }

  /** The worker between two jobs. */
  lemma RecordKeepsInv(job: Job, s: Pool, w: nat)
    requires Inv(job, s) && w < |s.workers| && s.workers[w].Busy?
    ensures var r := Record(job, s, s.workers[w].item); Inv(job, r.(workers := r.workers[w := Waiting]))
  {
    var k := s.workers[w].item;
    WorkerStops(s.workers, w, Waiting, s.next, s.done + s.threw);
    OneMoreGone(s.done, s.threw, k);
    if Ended in s.workers[w := Waiting] {
      EndedBefore(s.workers, w, Waiting);
    }
    if s.threw != {} {
      StillBroken(s.workers, w, Waiting);
    }
  }

  lemma ThrowKeepsInv(job: Job, s: Pool, w: nat)
    requires Inv(job, s) && w < |s.workers| && s.workers[w].Busy?
    ensures Inv(job, Step(job, s, Throw(w)))
  {
    var k := s.workers[w].item;
    WorkerStops(s.workers, w, Broken, s.next, s.done + s.threw);
    OneMoreGone(s.threw, s.done, k);
    assert s.done !! s.threw + {k};
    if Ended in s.workers[w := Broken] {
      EndedBefore(s.workers, w, Broken);
    }
    assert s.workers[w := Broken][w] == Broken;
  }

  lemma StepKeepsInv(job: Job, s: Pool, e: Event)
    requires Inv(job, s)
    ensures Inv(job, Step(job, s, e))
  {
    if Applies(s, e) {
      match e
      case Launch(w) => TakeKeepsInv(job, s, w);
      case Settle(w) =>
        RecordKeepsInv(job, s, w);
        var r := Record(job, s, s.workers[w].item);
        TakeKeepsInv(job, r.(workers := r.workers[w := Waiting]), w);
        assert r.workers[w := Waiting][w := Busy(r.next)] == r.workers[w := Busy(r.next)];
        assert r.workers[w := Waiting][w := Ended] == r.workers[w := Ended];
      case Throw(w) => ThrowKeepsInv(job, s, w);
    }
  }

  lemma RecordKeepsKept(job: Job, s: Pool, k: nat)
    requires KeptInv(job, s) && k < |job.targets|
    ensures KeptInv(job, Record(job, s, k))
  {
    var done := s.done + {k};
    forall i | 0 <= i < |s.kept| ensures Record(job, s, k).kept[i] == Slot(job, done, i) {
      assert s.kept[i] == Slot(job, s.done, i);
    }
  }

  lemma StepKeepsKept(job: Job, s: Pool, e: Event)
    requires Inv(job, s) && KeptInv(job, s)
    ensures KeptInv(job, Step(job, s, e))
  {
    if Applies(s, e) && e.Settle? {
      RecordKeepsKept(job, s, s.workers[e.worker].item);
    }
  }

  lemma {:induction false} RunKeepsInv(job: Job, events: seq<Event>)
    requires WellFormed(job)
    ensures Inv(job, Run(job, events)) && KeptInv(job, Run(job, events))
  {
    if events == [] {
      NoneBusy(Initial(job).workers);
    } else {
      var n := |events| - 1;
      RunKeepsInv(job, events[..n]);
      StepKeepsInv(job, Run(job, events[..n]), events[n]);
      StepKeepsKept(job, Run(job, events[..n]), events[n]);
    }
  }

  // ---------------------------------------------------------------- the promises

  /** At any moment of any run, no item has been started twice, they were started in order, and at
      most `min(4, n)` of them are running. */
  lemma NeverMoreThanWidth(job: Job, events: seq<Event>)
    requires WellFormed(job)
    ensures var s := Run(job, events);
            && InOrder(s.started) && |s.started| <= |job.targets|
            && |s.started| - |s.done| - |s.threw| == BusyCount(s.workers) <= Width(|job.targets|) <= PROBE_CONCURRENCY
  {
    RunKeepsInv(job, events);
  }

  lemma {:induction false} AllOf(s: set<nat>, n: nat)
    requires |s| == n && forall k | k in s :: k < n
    ensures forall k: nat :: k in s <==> k < n
  {
    if n > 0 {
      if n - 1 !in s {
        SmallSet(s, n - 1);
        assert false;
      }
      AllOf(s - {n - 1}, n - 1);
    }
  }

  lemma {:induction false} SmallSet(s: set<nat>, n: nat)
    requires forall k | k in s :: k < n
    ensures |s| <= n
    decreases n
  {
    if n > 0 {
      SmallSet(s - {n - 1}, n - 1);
      assert |s| <= |s - {n - 1}| + 1;
    } else {
      assert s == {};
    }
  }

  /** When the pool resolves, every item's job has been started exactly once and has settled. */
  lemma ResolvedMeansAllDone(job: Job, events: seq<Event>)
    requires WellFormed(job) && Resolved(Run(job, events))
    ensures var s := Run(job, events); var n := |job.targets|;
            InOrder(s.started) && |s.started| == n && (forall k: nat :: k in s.done <==> k < n) && s.threw == {}
  {
    RunKeepsInv(job, events);
    var s := Run(job, events);
    NoneBusy(s.workers);
    assert Broken !in s.workers;
    AllOf(s.done, s.next);
  }

  function Compact(kept: seq<Option<Target>>): seq<Target> {
    if kept == [] then []
    else Compact(kept[..|kept| - 1]) + if kept[|kept| - 1].Some? then [kept[|kept| - 1].value] else []
  }

  /** The filter done one target at a time. */
  function Filtered(job: Job, n: nat): seq<Target>
    requires n <= |job.targets| && n <= |job.answers|
  {
    if n == 0 then [] else Filtered(job, n - 1) + if Wanted(job, n - 1) then [job.targets[n - 1]] else []
  }

  lemma {:induction false} CompactIsFiltered(job: Job, kept: seq<Option<Target>>, n: nat)
    requires n <= |job.targets| && n <= |job.answers| && n <= |kept|
    requires forall k | 0 <= k < n :: kept[k] == if Wanted(job, k) then Some(job.targets[k]) else None
    ensures Compact(kept[..n]) == Filtered(job, n)
  {
    if n > 0 {
      CompactIsFiltered(job, kept, n - 1);
      assert kept[..n][..n - 1] == kept[..n - 1];
    }
  }

  /** `filterByRepoKeys` answers what a one-at-a-time filter would, in the targets' order, however
      the probes settle. */
  lemma FilterIsStable(job: Job, events: seq<Event>)
    requires WellFormed(job) && Resolved(Run(job, events))
    ensures Compact(Run(job, events).kept) == Filtered(job, |job.targets|)
  {
    RunKeepsInv(job, events);
    ResolvedMeansAllDone(job, events);
    CompactIsFiltered(job, Run(job, events).kept, |job.targets|);
    Whole(Run(job, events).kept);
  }

  function Weight(w: Worker): nat {
    if w.Waiting? then 1 else if w.Busy? then 2 else 0
  }

  function TotalWeight(workers: seq<Worker>): nat {
    if workers == [] then 0 else TotalWeight(workers[..|workers| - 1]) + Weight(workers[|workers| - 1])
  }

  lemma {:induction false} WeightUpdate(workers: seq<Worker>, w: nat, x: Worker)
    requires w < |workers|
    ensures TotalWeight(workers[w := x]) == TotalWeight(workers) - Weight(workers[w]) + Weight(x)
  {
    var n := |workers| - 1;
    if w == n {
      assert workers[w := x][..n] == workers[..n];
    } else {
      WeightUpdate(workers[..n], w, x);
      assert workers[w := x][..n] == workers[..n][w := x];
    }
  }

  /** How much is left to happen. */
  function Left(job: Job, s: Pool): int {
    2 * (|job.targets| - s.next) + TotalWeight(s.workers)
  }

  lemma TakeLeavesLess(job: Job, s: Pool, w: nat)
    requires w < |s.workers| && s.next <= |job.targets| && !s.workers[w].Ended? && !s.workers[w].Broken?
    ensures Left(job, TakeNext(s, |job.targets|, w)) < Left(job, s)
  {
    WeightUpdate(s.workers, w, if s.next < |job.targets| then Busy(s.next) else Ended);
  }

  /** The pool cannot run for ever and cannot stall: whatever happens leaves less to happen, and a
      worker that is neither done nor broken can always move. */
  lemma PoolProgresses(job: Job, events: seq<Event>, e: Event)
    requires WellFormed(job)
    ensures var s := Run(job, events);
            && (Applies(s, e) ==> Left(job, Step(job, s, e)) < Left(job, s)) && 0 <= Left(job, s)
            && (forall w | 0 <= w < |s.workers| && (s.workers[w].Waiting? || s.workers[w].Busy?) :: Applies(s, Launch(w)) || Applies(s, Settle(w)))
  {
    RunKeepsInv(job, events);
    var s := Run(job, events);
    if Applies(s, e) {
      match e
      case Launch(w) => TakeLeavesLess(job, s, w);
      case Settle(w) => TakeLeavesLess(job, Record(job, s, s.workers[w].item), w);
      case Throw(w) => WeightUpdate(s.workers, w, Broken);
    }
  }

  /** The closure of `inProbePool` under the filter's job: `next`, the workers, the slots. */
  class Probing {
    const job: Job
    var next: nat
    var workers: seq<Worker>
    var kept: seq<Option<Target>>
    ghost var started: seq<nat>
    ghost var done: set<nat>
    ghost var threw: set<nat>

    ghost function State(): Pool
      reads this
    {
      Pool(next, workers, started, done, threw, kept)
    }

    constructor (job: Job)
      requires WellFormed(job)
      ensures this.job == job && State() == Initial(job)
    {
      this.job := job;
      next := 0;
      workers := seq(Width(|job.targets|), _ => Waiting);
      kept := seq(|job.targets|, _ => None);
      started, done, threw := [], {}, {};
    }

    /** A worker's loop up to its next wait. */
    method Take(w: nat)
      requires w < |workers|
      modifies this`next, this`workers, this`started
      ensures State() == TakeNext(old(State()), |job.targets|, w)
    {
      if next < |job.targets| {
        workers := workers[w := Busy(next)];
        started := started + [next];
        next := next + 1;
      } else {
        workers := workers[w := Ended];
      }
    }

    method Start(w: nat)
      requires Applies(State(), Launch(w))
      modifies this
      ensures State() == Step(job, old(State()), Launch(w))
    {
      Take(w);
    }

    /** The probe answered: fill the slot if the key is wanted, and take the next item. */
    method JobSettles(w: nat)
      requires Inv(job, State()) && KeptInv(job, State()) && Applies(State(), Settle(w))
      modifies this
      ensures State() == Step(job, old(State()), Settle(w))
    {
      var k := workers[w].item;
      if job.answers[k].Some? && job.answers[k].value in job.wanted {
        kept := kept[k := Some(job.targets[k])];
      }
      done := done + {k};
      Take(w);
    }

    method JobThrows(w: nat)
      requires Applies(State(), Throw(w))
      modifies this
      ensures State() == Step(job, old(State()), Throw(w))
    {
      threw := threw + {workers[w].item};
      workers := workers[w := Broken];
    }
  }
}
