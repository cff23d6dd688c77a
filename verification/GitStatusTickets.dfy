/** Overlapping `git status` reads of one checkout. A read takes a ticket when it starts and may
    finish, or fail, in any order; whatever finishes is applied by start order. */
module GitStatusTickets {

  /** The cached snapshot: the two halves a read brings, and the fingerprint of each. */
  datatype Snapshot<F, S> = Snapshot(files: F, sync: S, filesPrint: string, syncPrint: string)

  /** How a file list and a sync state are rendered to compare them. */
  datatype Printer<!F, !S> = Printer(files: F -> string, sync: S -> string)

  /** The runtime's part of the state, and the reads still out. */
  datatype Status<F, S> = Status(seqNo: nat, applied: nat, cache: Snapshot<F, S>, inFlight: set<nat>)

  datatype Event<F, S> =
    | Start
    | Succeed(ticket: nat, files: F, sync: S)
    | Fail(ticket: nat)

  function Taken<F, S>(p: Printer<F, S>, files: F, sync: S): Snapshot<F, S> {
    Snapshot(files, sync, p.files(files), p.sync(sync))
  }

  function Initial<F, S>(p: Printer<F, S>, files: F, sync: S): Status<F, S> {
    Status(0, 0, Taken(p, files, sync), {})
  }

  predicate Applies<F, S>(s: Status<F, S>, e: Event<F, S>) {
    e.Start? || e.ticket in s.inFlight
  }

  function Step<F, S>(p: Printer<F, S>, s: Status<F, S>, e: Event<F, S>): Status<F, S> {
    if !Applies(s, e) then s else
    match e
    case Start => s.(seqNo := s.seqNo + 1, inFlight := s.inFlight + {s.seqNo + 1})
    case Fail(t) => s.(inFlight := s.inFlight - {t})
    case Succeed(t, files, sync) =>
      if t < s.applied then s.(inFlight := s.inFlight - {t})
      else s.(inFlight := s.inFlight - {t}, applied := t, cache := Taken(p, files, sync))
  }

  function Run<F, S>(p: Printer<F, S>, init: Status<F, S>, events: seq<Event<F, S>>): Status<F, S> {
    if events == [] then init else Step(p, Run(p, init, events[..|events| - 1]), events[|events| - 1])
  }

  /** One finished read. */
  datatype Read<F, S> = Read(ticket: nat, files: F, sync: S)

  /** The reads that came back with a result, in the order they came back. */
  function Landings<F, S>(p: Printer<F, S>, init: Status<F, S>, events: seq<Event<F, S>>): seq<Read<F, S>> {
    if events == [] then []
    else
      var n := |events| - 1;
      var e := events[n];
      var before := Landings(p, init, events[..n]);
      if e.Succeed? && Applies(Run(p, init, events[..n]), e) then before + [Read(e.ticket, e.files, e.sync)] else before
  }

  ghost predicate TicketsDistinct<F, S>(landed: seq<Read<F, S>>) {
    forall j, k | 0 <= j < k < |landed| :: landed[j].ticket != landed[k].ticket
  }

  /** Tickets are handed out in order, and one that has landed is not out again. */
  lemma {:induction false} TicketsInOrder<F, S>(p: Printer<F, S>, files: F, sync: S, events: seq<Event<F, S>>)
    ensures var s := Run(p, Initial(p, files, sync), events);
            var landed := Landings(p, Initial(p, files, sync), events);
            && TicketsDistinct(landed)
            && (forall t | t in s.inFlight :: 1 <= t <= s.seqNo)
            && (forall r | r in landed :: 1 <= r.ticket <= s.seqNo && r.ticket !in s.inFlight)
  {
    if events != [] {
      TicketsInOrder(p, files, sync, events[..|events| - 1]);
    }
  }

  /** `r` is the latest-started of the reads. */
  ghost predicate IsNewest<F, S>(r: Read<F, S>, landed: seq<Read<F, S>>) {
    r in landed && forall o | o in landed :: o.ticket <= r.ticket
  }

  /** What the record should hold: the newest read's two halves and their fingerprints, or what it
      held at first. */
  ghost predicate HoldsNewest<F, S>(p: Printer<F, S>, init: Status<F, S>, landed: seq<Read<F, S>>, s: Status<F, S>) {
    if landed == [] then s.applied == 0 && s.cache == init.cache
    else exists r | r in landed :: IsNewest(r, landed) && s.applied == r.ticket && s.cache == Taken(p, r.files, r.sync)
  }

  /** Files, sync state and both fingerprints always come from one read: the highest ticket that
      has succeeded, whatever overlapped, failed or came back late. */
  lemma {:induction false} CacheHoldsNewest<F, S>(p: Printer<F, S>, files: F, sync: S, events: seq<Event<F, S>>)
    ensures var init := Initial(p, files, sync);
            HoldsNewest(p, init, Landings(p, init, events), Run(p, init, events))
  {
    var init := Initial(p, files, sync);
    if events != [] {
      var n := |events| - 1;
      CacheHoldsNewest(p, files, sync, events[..n]);
      var landed := Landings(p, init, events[..n]);
      var before := Run(p, init, events[..n]);
      var e := events[n];
      if e.Succeed? && Applies(before, e) {
        var r := Read(e.ticket, e.files, e.sync);
        assert Landings(p, init, events) == landed + [r];
        NewestOfMore(p, init, landed, r, before, Run(p, init, events));
      }
    }
  }

  lemma NewestOfMore<F, S>(p: Printer<F, S>, init: Status<F, S>, landed: seq<Read<F, S>>, r: Read<F, S>, before: Status<F, S>, s: Status<F, S>)
    requires HoldsNewest(p, init, landed, before) && r.ticket in before.inFlight
    requires s == Step(p, before, Succeed(r.ticket, r.files, r.sync))
    ensures HoldsNewest(p, init, landed + [r], s)
  {
    if landed != [] && r.ticket < before.applied {
      var newest :| newest in landed && IsNewest(newest, landed) && before.applied == newest.ticket && before.cache == Taken(p, newest.files, newest.sync);
      var k :| 0 <= k < |landed| && landed[k] == newest;
      assert (landed + [r])[k] == newest;
      assert IsNewest(newest, landed + [r]);
    } else {
      assert IsNewest(r, landed + [r]);
    }
  }

  /** `gitStatusApplied` never goes back. */
  lemma {:induction false} AppliedIsMonotone<F, S>(p: Printer<F, S>, init: Status<F, S>, events: seq<Event<F, S>>, k: nat)
    requires k <= |events|
    ensures Run(p, init, events[..k]).applied <= Run(p, init, events).applied
  {
    if k < |events| {
      var n := |events| - 1;
      AppliedIsMonotone(p, init, events[..n], k);
      assert events[..n][..k] == events[..k];
    } else {
      assert events[..k] == events;
    }
  }

  lemma NewestIsUnique<F, S>(r: Read<F, S>, o: Read<F, S>, a: seq<Read<F, S>>, b: seq<Read<F, S>>)
    requires TicketsDistinct(a) && (forall x :: x in a <==> x in b)
    requires IsNewest(r, a) && IsNewest(o, b)
    ensures r == o
  {
    assert r in b && o in a;
    var j :| 0 <= j < |a| && a[j] == r;
    var k :| 0 <= k < |a| && a[k] == o;
    assert a[j].ticket == a[k].ticket;
  }

  lemma SameReadsSameSnapshot<F, S>(p: Printer<F, S>, init: Status<F, S>, a: seq<Read<F, S>>, b: seq<Read<F, S>>, s: Status<F, S>, t: Status<F, S>)
    requires TicketsDistinct(a) && (forall x :: x in a <==> x in b)
    requires HoldsNewest(p, init, a, s) && HoldsNewest(p, init, b, t)
    ensures s.applied == t.applied && s.cache == t.cache
  {
    assert forall x | x in a :: x in b;
    if a != [] {
      assert a[0] in b;
      var r :| r in a && IsNewest(r, a) && s.applied == r.ticket && s.cache == Taken(p, r.files, r.sync);
      var o :| o in b && IsNewest(o, b) && t.applied == o.ticket && t.cache == Taken(p, o.files, o.sync);
      NewestIsUnique(r, o, a, b);
    }
  }

  /** Arrival order is invisible: two runs in which the same reads brought the same results end
      with the same snapshot. */
  lemma ArrivalOrderIsInvisible<F, S>(p: Printer<F, S>, files: F, sync: S, a: seq<Event<F, S>>, b: seq<Event<F, S>>)
    requires var init := Initial(p, files, sync);
             forall r :: r in Landings(p, init, a) <==> r in Landings(p, init, b)
    ensures var init := Initial(p, files, sync);
            Run(p, init, a).applied == Run(p, init, b).applied && Run(p, init, a).cache == Run(p, init, b).cache
  {
    var init := Initial(p, files, sync);
    CacheHoldsNewest(p, files, sync, a);
    CacheHoldsNewest(p, files, sync, b);
    TicketsInOrder(p, files, sync, a);
    SameReadsSameSnapshot(p, init, Landings(p, init, a), Landings(p, init, b), Run(p, init, a), Run(p, init, b));
  }

  /** The fields of the runtime, as `refreshGitStatus` sets them around its one wait. */
  class CheckoutStatus<F(==), S(==)> {
    const printer: Printer<F, S>
    var gitStatusSeq: nat
    var gitStatusApplied: nat
    var cachedGitFiles: F
    var cachedGitSync: S
    var gitFilesFingerprint: string
    var gitSyncFingerprint: string
    ghost var inFlight: set<nat>

    ghost function State(): Status<F, S>
      reads this
    {
      Status(gitStatusSeq, gitStatusApplied,
             Snapshot(cachedGitFiles, cachedGitSync, gitFilesFingerprint, gitSyncFingerprint), inFlight)
    }

    constructor (printer: Printer<F, S>, files: F, sync: S)
      ensures this.printer == printer && State() == Initial(printer, files, sync)
    {
      this.printer := printer;
      gitStatusSeq, gitStatusApplied := 0, 0;
      cachedGitFiles, cachedGitSync := files, sync;
      gitFilesFingerprint, gitSyncFingerprint := printer.files(files), printer.sync(sync);
      inFlight := {};
    }

    /** `refreshGitStatus` up to its wait. */
    method Begin() returns (ticket: nat)
      modifies this
      ensures State() == Step(printer, old(State()), Start) && ticket == gitStatusSeq
    {
      gitStatusSeq := gitStatusSeq + 1;
      ticket := gitStatusSeq;
      inFlight := inFlight + {ticket};
    }

    /** After the wait, with both halves read. */
    method Land(ticket: nat, files: F, sync: S)
      requires ticket in inFlight
      modifies this
      ensures State() == Step(printer, old(State()), Succeed(ticket, files, sync))
    {
      inFlight := inFlight - {ticket};
      if ticket < gitStatusApplied {
        return;
      }
      gitStatusApplied := ticket;
      cachedGitFiles := files;
      cachedGitSync := sync;
      gitFilesFingerprint := printer.files(files);
      gitSyncFingerprint := printer.sync(sync);
    }

    /** After the wait, when either half threw. */
    method Abandon(ticket: nat)
      requires ticket in inFlight
      modifies this
      ensures State() == Step(printer, old(State()), Fail(ticket))
    {
      inFlight := inFlight - {ticket};
    }
  }
}
