/** The read loop of a streaming search: lines assembled from chunks, a match held back while its
    context lines come in, and batches sent as they fill or as their timer fires. How one line
    reads as an engine record is a parameter. */
module SearchStream {
  import opened Sequences
  import opened Text

  datatype Found = Found(path: string, line: int, column: int, content: string)

  /** A match as sent. */
  datatype Record = Record(found: Found, before: seq<string>, after: seq<string>)

  /** What a line of engine output says. `Torn` is a ripgrep match whose data cannot be read: it
      ends the match before it and is then dropped by the `catch`. */
  datatype Event =
    | Match(found: Found)
    | Context(text: string)
    | Boundary
    | Torn
    | Junk

  const CONTEXT: nat := 2
  const BATCH_SIZE: nat := 20
  const MAX_RESULTS: nat := 10000

  // ---------------------------------------------------------------- what should be sent

  /** Ends the after-lines of the match before it. */
  predicate Mark(e: Event) {
    e.Match? || e.Boundary? || e.Torn?
  }

  /** The context lines from here to the next mark. */
  function LinesAfter(rest: seq<Event>): seq<string> {
    if rest == [] || Mark(rest[0]) then []
    else (if rest[0].Context? then [rest[0].text] else []) + LinesAfter(rest[1..])
  }

  /** Whether the last mark is a match. */
  predicate InMatch(events: seq<Event>) {
    events != [] && (events[|events| - 1].Match? || (!Mark(events[|events| - 1]) && InMatch(events[..|events| - 1])))
  }

  /** How many context lines since the last mark. */
  function Since(events: seq<Event>): nat {
    if events == [] || Mark(events[|events| - 1]) then 0
    else Since(events[..|events| - 1]) + if events[|events| - 1].Context? then 1 else 0
  }

  /** A context line here is an after-line: a match is open and has had fewer than two. */
  predicate Claimed(events: seq<Event>) {
    InMatch(events) && Since(events) < CONTEXT
  }

  /** The context lines, since the last match or boundary, that are no match's after-lines. */
  function Spare(events: seq<Event>): seq<string> {
    if events == [] then []
    else
      var n := |events| - 1;
      match events[n]
      case Match(_) | Boundary => []
      case Torn | Junk => Spare(events[..n])
      case Context(text) => if Claimed(events[..n]) then Spare(events[..n]) else Spare(events[..n]) + [text]
  }

  function FirstTwo(s: seq<string>): seq<string> {
    if |s| > CONTEXT then s[..CONTEXT] else s
  }

  function LastTwo(s: seq<string>): seq<string> {
    if |s| > CONTEXT then s[|s| - CONTEXT..] else s
  }

  /** What the `n`-th event adds: a match's record, with the last two spare lines before it and the
      first two lines between it and the next mark. */
  function RecordOf(events: seq<Event>, n: nat): seq<Record>
    requires 0 < n <= |events|
  {
    if events[n - 1].Match?
    then [Record(events[n - 1].found, LastTwo(Spare(events[..n - 1])), FirstTwo(LinesAfter(events[n..])))]
    else []
  }

  /** One record per match among the first `n` events, in order. */
  function Records(events: seq<Event>, n: nat): seq<Record>
    requires n <= |events|
  {
    if n == 0 then [] else Records(events, n - 1) + RecordOf(events, n)
  }

  function AllRecords(events: seq<Event>): seq<Record> {
    Records(events, |events|)
  }

  // ---------------------------------------------------------------- the accumulator

  /** `contextAccum`. */
  datatype Accum = Accum(before: seq<string>, pending: Option<Record>, afterCount: nat)

  const EmptyAccum := Accum([], None, 0)

  function Pending(a: Accum): seq<Record> {
    if a.pending.Some? then [a.pending.value] else []
  }

  function TakeContext(a: Accum, text: string): Accum {
    if a.pending.Some? && a.afterCount < CONTEXT
    then a.(pending := Some(a.pending.value.(after := a.pending.value.after + [text])), afterCount := a.afterCount + 1)
    else a.(before := LastTwo(a.before + [text]))
  }

  function Accumulate(a: Accum, e: Event): Accum {
    match e
    case Match(found) => Accum([], Some(Record(found, a.before, [])), 0)
    case Context(text) => TakeContext(a, text)
    case Boundary => EmptyAccum
    case Torn => a.(pending := None)
    case Junk => a
  }

  /** The match an event lets go of. */
  function Released(a: Accum, e: Event): seq<Record> {
    if Mark(e) then Pending(a) else []
  }

  function Accumulated(events: seq<Event>): Accum {
    if events == [] then EmptyAccum else Accumulate(Accumulated(events[..|events| - 1]), events[|events| - 1])
  }

  function Emitted(events: seq<Event>): seq<Record> {
    if events == [] then []
    else Emitted(events[..|events| - 1]) + Released(Accumulated(events[..|events| - 1]), events[|events| - 1])
  }

  // ---------------------------------------------------------------- they agree

  predicate Marked(rest: seq<Event>) {
    exists i :: 0 <= i < |rest| && Mark(rest[i])
  }

  lemma MarkedTail(rest: seq<Event>)
    requires rest != [] && !Mark(rest[0])
    ensures Marked(rest) <==> Marked(rest[1..])
  {
    if i :| 0 <= i < |rest[1..]| && Mark(rest[1..][i]) {
      assert Mark(rest[i + 1]);
    }
    if i :| 0 <= i < |rest| && Mark(rest[i]) {
      assert Mark(rest[1..][i - 1]);
    }
  }

  lemma LinesAfterCons(e: Event, rest: seq<Event>)
    ensures LinesAfter([e] + rest) == if Mark(e) then [] else (if e.Context? then [e.text] else []) + LinesAfter(rest)
  {
    assert ([e] + rest)[1..] == rest;
  }

  lemma {:induction false} LinesAfterMore(rest: seq<Event>, e: Event)
    ensures LinesAfter(rest + [e]) == LinesAfter(rest) + if !Marked(rest) && e.Context? then [e.text] else []
  {
    if rest == [] {
      Nothing([e]);
      LinesAfterCons(e, []);
    } else {
      assert rest == [rest[0]] + rest[1..];
      Assoc([rest[0]], rest[1..], [e]);
      LinesAfterCons(rest[0], rest[1..]);
      LinesAfterCons(rest[0], rest[1..] + [e]);
      if Mark(rest[0]) {
        assert Marked(rest);
      } else {
        LinesAfterMore(rest[1..], e);
        MarkedTail(rest);
        Assoc(if rest[0].Context? then [rest[0].text] else [], LinesAfter(rest[1..]), if !Marked(rest) && e.Context? then [e.text] else []);
      }
    }
  }

  lemma RecordOfMore(events: seq<Event>, e: Event, n: nat)
    requires 0 < n <= |events|
    ensures RecordOf(events + [e], n) ==
      if events[n - 1].Match? then [Record(events[n - 1].found, LastTwo(Spare(events[..n - 1])), FirstTwo(LinesAfter(events[n..] + [e])))] else []
  {
    var more := events + [e];
    assert more[..n - 1] == events[..n - 1] && more[n..] == events[n..] + [e] && more[n - 1] == events[n - 1];
  }

  /** A later event leaves alone every record a mark has closed. */
  lemma {:induction false} RecordsClosed(events: seq<Event>, e: Event, n: nat)
    requires n <= |events| && (Marked(events[n..]) || !e.Context?)
    ensures Records(events + [e], n) == Records(events, n)
  {
    if n > 0 {
      var more := events + [e];
      assert events[n - 1..] == [events[n - 1]] + events[n..];
      if Marked(events[n..]) {
        var i :| 0 <= i < |events[n..]| && Mark(events[n..][i]);
        assert Mark(events[n - 1..][i + 1]);
      }
      RecordsClosed(events, e, n - 1);
      LinesAfterMore(events[n..], e);
      assert LinesAfter(events[n..] + [e]) == LinesAfter(events[n..]);
      RecordOfMore(events, e, n);
    }
  }

  /** Where the unmarked tail begins. */
  function Tail(events: seq<Event>): (n: nat)
    ensures n <= |events|
  {
    if events == [] || Mark(events[|events| - 1]) then |events| else Tail(events[..|events| - 1])
  }

  lemma {:induction false} TailIsUnmarked(events: seq<Event>)
    ensures var n := Tail(events);
            && !Marked(events[n..]) && |LinesAfter(events[n..])| == Since(events)
            && InMatch(events) == (n > 0 && events[n - 1].Match?) && (n > 0 ==> Mark(events[n - 1]))
  {
    if events != [] && !Mark(events[|events| - 1]) {
      var m, n := |events| - 1, Tail(events);
      TailIsUnmarked(events[..m]);
      assert events[n..] == events[..m][n..] + [events[m]];
      LinesAfterMore(events[..m][n..], events[m]);
    }
  }

  lemma {:induction false} RecordsOfTail(events: seq<Event>, from: nat, n: nat)
    requires from <= n <= |events| && forall i | from <= i < n :: !Mark(events[i])
    ensures Records(events, n) == Records(events, from)
  {
    if from < n {
      RecordsOfTail(events, from, n - 1);
    }
  }

  lemma NoMarks(events: seq<Event>, n: nat)
    requires n <= |events| && !Marked(events[n..])
    ensures forall i | n <= i < |events| :: !Mark(events[i])
  {
    forall i | n <= i < |events| ensures !Mark(events[i]) {
      assert events[n..][i - n] == events[i];
    }
  }

  lemma TailRecords(events: seq<Event>, e: Event)
    requires !Mark(e)
    ensures var n := Tail(events);
            AllRecords(events) == Records(events, n) && AllRecords(events + [e]) == Records(events + [e], n)
  {
    var n, more := Tail(events), events + [e];
    TailIsUnmarked(events);
    NoMarks(events, n);
    RecordsOfTail(events, n, |events|);
    RecordsOfTail(more, n, |more|);
  }

  /** Everything but an open match is closed, and a context line leaves it alone. */
  lemma ContextRecords(events: seq<Event>, text: string)
    ensures var e := Context(text); var n := Tail(events);
            if !InMatch(events) then AllRecords(events + [e]) == AllRecords(events)
            else && n > 0 && AllRecords(events) == Records(events, n - 1) + RecordOf(events, n)
                 && AllRecords(events + [e]) == Records(events, n - 1) + RecordOf(events + [e], n)
  {
    var e := Context(text);
    var n := Tail(events);
    TailIsUnmarked(events);
    TailRecords(events, e);
    if n > 0 {
      assert Mark(events[n - 1..][0]);
      RecordsClosed(events, e, n - 1);
      RecordOfMore(events, e, n);
    }
  }

  /** The open match takes the line while it has room, and is its last record either way. */
  lemma OpenRecord(events: seq<Event>, text: string)
    requires InMatch(events)
    ensures var e := Context(text); var n := Tail(events); var room := Since(events) < CONTEXT;
            && n > 0 && |RecordOf(events, n)| == 1
            && var r := RecordOf(events, n)[0];
               && |r.after| == (if room then Since(events) else CONTEXT)
               && RecordOf(events + [e], n) == [if room then r.(after := r.after + [text]) else r]
  {
    var n := Tail(events);
    TailIsUnmarked(events);
    RecordOfMore(events, Context(text), n);
    LinesAfterMore(events[n..], Context(text));
    var lines := LinesAfter(events[n..]);
    assert |lines| >= CONTEXT ==> (lines + [text])[..CONTEXT] == lines[..CONTEXT];
  }

  lemma OtherRecords(events: seq<Event>, e: Event)
    requires !e.Context?
    ensures AllRecords(events + [e]) == AllRecords(events) + if e.Match? then [Record(e.found, LastTwo(Spare(events)), [])] else []
  {
    var more := events + [e];
    RecordsClosed(events, e, |events|);
    assert more[..|events|] == events && more[|more|..] == [];
  }

  /** The accumulator is right after every event: what it has let go of, and the match it still
      holds, are the records so far. */
  ghost predicate Agrees(events: seq<Event>, a: Accum, emitted: seq<Record>) {
    && a.before == LastTwo(Spare(events))
    && a.pending.Some? == InMatch(events)
    && (a.pending.Some? ==> a.afterCount == if Since(events) < CONTEXT then Since(events) else CONTEXT)
    && emitted + Pending(a) == AllRecords(events)
  }

  lemma SameLast<T>(a: seq<T>, x: T, b: seq<T>, y: T)
    requires a + [x] == b + [y]
    ensures a == b && x == y
  {
    DropLast(a, x);
    DropLast(b, y);
    assert (a + [x])[|a|] == x && (b + [y])[|b|] == y;
  }

  lemma Single<T>(s: seq<T>)
    requires |s| == 1
    ensures s == [s[0]]
  {
  }

  /** While a match is open its record is the last, and a context line changes no other. */
  lemma OpenContext(events: seq<Event>, text: string) returns (front: seq<Record>, r: Record)
    requires InMatch(events)
    ensures var room := Since(events) < CONTEXT;
            && AllRecords(events) == front + [r] && |r.after| == (if room then Since(events) else CONTEXT)
            && AllRecords(events + [Context(text)]) == front + [if room then r.(after := r.after + [text]) else r]
  {
    ContextRecords(events, text);
    OpenRecord(events, text);
    var n := Tail(events);
    front, r := Records(events, n - 1), RecordOf(events, n)[0];
    Single(RecordOf(events, n));
  }

  lemma AgreesContext(events: seq<Event>, text: string, a: Accum, emitted: seq<Record>)
    requires Agrees(events, a, emitted)
    ensures Agrees(events + [Context(text)], TakeContext(a, text), emitted)
  {
    DropLast(events, Context(text));
    if InMatch(events) {
      var front, r := OpenContext(events, text);
      SameLast(emitted, a.pending.value, front, r);
    } else {
      ContextRecords(events, text);
    }
  }

  lemma AgreesMore(events: seq<Event>, e: Event, a: Accum, emitted: seq<Record>)
    requires Agrees(events, a, emitted)
    ensures Agrees(events + [e], Accumulate(a, e), emitted + Released(a, e))
  {
    DropLast(events, e);
    if e.Context? {
      AgreesContext(events, e.text, a, emitted);
      Nothing(emitted);
    } else {
      OtherRecords(events, e);
    }
  }

  lemma {:induction false} AccumulatorAgrees(events: seq<Event>)
    ensures Agrees(events, Accumulated(events), Emitted(events))
  {
    if events != [] {
      var n := |events| - 1;
      AccumulatorAgrees(events[..n]);
      AgreesMore(events[..n], events[n], Accumulated(events[..n]), Emitted(events[..n]));
      assert events == events[..n] + [events[n]];
    }
  }

  /** At most two lines on either side. */
  lemma {:induction false} RecordsFit(events: seq<Event>, n: nat)
    requires n <= |events|
    ensures forall r | r in Records(events, n) :: |r.before| <= CONTEXT && |r.after| <= CONTEXT
  {
    if n > 0 {
      RecordsFit(events, n - 1);
    }
  }

  // ---------------------------------------------------------------- which lines are shown

  /** Every context line the records show, in the order they show it. */
  function LinesOf(records: seq<Record>): seq<string> {
    if records == [] then []
    else
      var last := records[|records| - 1];
      LinesOf(records[..|records| - 1]) + last.before + last.after
  }

  function TextAt(events: seq<Event>, i: nat): string {
    if i < |events| && events[i].Context? then events[i].text else ""
  }

  function TextsAt(events: seq<Event>, at: seq<nat>): seq<string> {
    if at == [] then [] else TextsAt(events, at[..|at| - 1]) + [TextAt(events, at[|at| - 1])]
  }

  /** Positions of context lines. */
  ghost predicate Lines(events: seq<Event>, at: seq<nat>) {
    forall k | 0 <= k < |at| :: at[k] < |events| && events[at[k]].Context?
  }

  ghost predicate Increasing(at: seq<nat>) {
    forall i, j | 0 <= i < j < |at| :: at[i] < at[j]
  }

  function LastTwoAt(at: seq<nat>): seq<nat> {
    if |at| > CONTEXT then at[|at| - CONTEXT..] else at
  }

  /** Where the lines come from: those shown so far, and those held back for the next match. */
  datatype Places = Places(shown: seq<nat>, held: seq<nat>)

  function NextPlaces(events: seq<Event>, p: Places, e: Event): Places {
    match e
    case Match(_) => Places(p.shown + p.held, [])
    case Context(_) =>
      if Claimed(events) then p.(shown := p.shown + [|events|]) else p.(held := LastTwoAt(p.held + [|events|]))
    case Boundary => p.(held := [])
    case Torn | Junk => p
  }

  function PlacesOf(events: seq<Event>): Places {
    if events == [] then Places([], [])
    else NextPlaces(events[..|events| - 1], PlacesOf(events[..|events| - 1]), events[|events| - 1])
  }

  /** `at` names the lines the records show, one after another: context lines of the stream at
      ever later positions, so none of them twice and none out of order. */
  ghost predicate ShownFrom(events: seq<Event>, records: seq<Record>, at: seq<nat>) {
    Lines(events, at) && Increasing(at) && LinesOf(records) == TextsAt(events, at)
  }

  /** Context lines of the stream, in order; a line that goes to the open record is not held. */
  ghost predicate PlacesIn(events: seq<Event>, p: Places) {
    && Lines(events, p.shown) && Lines(events, p.held) && Increasing(p.shown + p.held)
    && (Claimed(events) ==> p.held == [])
  }

  /** They are the lines that the records show and that the accumulator holds back. */
  ghost predicate TextsFit(events: seq<Event>, p: Places, a: Accum, emitted: seq<Record>) {
    TextsAt(events, p.shown) == LinesOf(emitted + Pending(a)) && TextsAt(events, p.held) == a.before
  }

  lemma {:induction false} TextsAtMore(events: seq<Event>, e: Event, at: seq<nat>)
    requires Lines(events, at)
    ensures TextsAt(events + [e], at) == TextsAt(events, at) && Lines(events + [e], at)
  {
    if at != [] {
      var n := |at| - 1;
      assert (events + [e])[at[n]] == events[at[n]];
      TextsAtMore(events, e, at[..n]);
      assert forall k | 0 <= k < n :: at[..n][k] == at[k];
    }
  }

  lemma {:induction false} TextsOfConcat(events: seq<Event>, a: seq<nat>, b: seq<nat>)
    ensures TextsAt(events, a + b) == TextsAt(events, a) + TextsAt(events, b)
  {
    if b == [] {
      Nothing(a);
      Nothing(TextsAt(events, a));
    } else {
      var n := |b| - 1;
      Snoc(b);
      TextsOfConcat(events, a, b[..n]);
      Assoc(a, b[..n], [b[n]]);
      DropLast(a + b[..n], b[n]);
      Assoc(TextsAt(events, a), TextsAt(events, b[..n]), [TextAt(events, b[n])]);
    }
  }

  lemma {:induction false} TextsLength(events: seq<Event>, at: seq<nat>)
    ensures |TextsAt(events, at)| == |at|
  {
    if at != [] {
      TextsLength(events, at[..|at| - 1]);
    }
  }

  lemma LastTwoTexts(events: seq<Event>, at: seq<nat>)
    ensures TextsAt(events, LastTwoAt(at)) == LastTwo(TextsAt(events, at))
  {
    TextsLength(events, at);
    if |at| > CONTEXT {
      var k := |at| - CONTEXT;
      Halves(at, k);
      TextsOfConcat(events, at[..k], at[k..]);
      TextsLength(events, at[..k]);
      TextsLength(events, at[k..]);
    }
  }

  lemma LinesMore(records: seq<Record>, r: Record)
    ensures LinesOf(records + [r]) == LinesOf(records) + r.before + r.after
  {
    DropLast(records, r);
  }

  lemma IncreasingPart(a: seq<nat>, b: seq<nat>)
    requires Increasing(a + b)
    ensures Increasing(a) && Increasing(a + [])
  {
    assert forall i | 0 <= i < |a| :: a[i] == (a + b)[i];
  }

  /** One later position, held back with the others or shown at once. */
  lemma IncreasingMore(events: seq<Event>, a: seq<nat>, b: seq<nat>, n: nat)
    requires Increasing(a + b) && Lines(events, a) && Lines(events, b) && n == |events|
    ensures Increasing(a + [n]) && Increasing(a + LastTwoAt(b + [n]))
  {
    var all, held := a + b, b + [n];
    assert forall i | 0 <= i < |a| :: a[i] == all[i];
    assert forall i | 0 <= i < |b| :: held[i] == all[|a| + i] == b[i];
    var kept := LastTwoAt(held);
    assert forall i | 0 <= i < |kept| :: kept[i] == held[|held| - |kept| + i];
    var whole := a + kept;
    forall i, j | 0 <= i < j < |whole| ensures whole[i] < whole[j] {
      if i < |a| && j >= |a| {
        var h := |held| - |kept| + (j - |a|);
        assert whole[j] == held[h] && whole[i] == all[i];
        assert h < |b| ==> held[h] == all[|a| + h];
      }
    }
  }

  lemma LinesLater(events: seq<Event>, e: Event, at: seq<nat>)
    requires Lines(events, at)
    ensures Lines(events + [e], at)
  {
    assert forall k | 0 <= k < |at| :: (events + [e])[at[k]] == events[at[k]];
  }

  lemma LinesOfConcat(events: seq<Event>, a: seq<nat>, b: seq<nat>)
    requires Lines(events, a) && Lines(events, b)
    ensures Lines(events, a + b)
  {
  }

  lemma LastTwoLines(events: seq<Event>, at: seq<nat>)
    requires Lines(events, at)
    ensures Lines(events, LastTwoAt(at))
  {
  }

  lemma NextPlacesIn(events: seq<Event>, e: Event, p: Places)
    requires PlacesIn(events, p)
    ensures PlacesIn(events + [e], NextPlaces(events, p, e))
  {
    var more := events + [e];
    DropLast(events, e);
    LinesLater(events, e, p.shown);
    LinesLater(events, e, p.held);
    LinesOfConcat(more, p.shown, p.held);
    IncreasingPart(p.shown, p.held);
    Nothing(p.shown + p.held);
    if e.Context? {
      LinesOfConcat(more, p.shown, [|events|]);
      LinesOfConcat(more, p.held, [|events|]);
      LastTwoLines(more, p.held + [|events|]);
      IncreasingMore(events, p.shown, p.held, |events|);
      Nothing(p.shown + [|events|]);
    }
  }

  /** A match: what was held is shown before it. */
  lemma MatchTexts(events: seq<Event>, found: Found, p: Places, a: Accum, emitted: seq<Record>)
    requires PlacesIn(events, p) && TextsFit(events, p, a, emitted)
    ensures TextsFit(events + [Match(found)], Places(p.shown + p.held, []), Accumulate(a, Match(found)), emitted + Pending(a))
  {
    LinesOfConcat(events, p.shown, p.held);
    TextsAtMore(events, Match(found), p.shown + p.held);
    TextsOfConcat(events, p.shown, p.held);
    LinesMore(emitted + Pending(a), Record(found, a.before, []));
    Nothing(LinesOf(emitted + Pending(a)) + a.before);
  }

  /** One more context line, at the end of the stream. */
  lemma TextMore(events: seq<Event>, text: string, at: seq<nat>)
    requires Lines(events, at)
    ensures TextsAt(events + [Context(text)], at) == TextsAt(events, at)
    ensures TextsAt(events + [Context(text)], at + [|events|]) == TextsAt(events, at) + [text]
  {
    TextsAtMore(events, Context(text), at);
    DropLast(at, |events|);
  }

  /** An after-line: the open record shows it at once. */
  lemma AfterTexts(events: seq<Event>, text: string, p: Places, a: Accum, emitted: seq<Record>)
    requires PlacesIn(events, p) && TextsFit(events, p, a, emitted) && Agrees(events, a, emitted) && Claimed(events)
    ensures TextsFit(events + [Context(text)], p.(shown := p.shown + [|events|]), TakeContext(a, text), emitted)
  {
    TextMore(events, text, p.shown);
    TextMore(events, text, p.held);
    OneMoreLine(emitted, a.pending.value, text);
  }

  lemma OneMoreLine(emitted: seq<Record>, r: Record, text: string)
    ensures LinesOf(emitted + [r.(after := r.after + [text])]) == LinesOf(emitted + [r]) + [text]
  {
    LinesMore(emitted, r);
    LinesMore(emitted, r.(after := r.after + [text]));
    Assoc(LinesOf(emitted) + r.before, r.after, [text]);
  }

  /** A spare line: held for the next match. */
  lemma SpareTexts(events: seq<Event>, text: string, p: Places, a: Accum, emitted: seq<Record>)
    requires PlacesIn(events, p) && TextsFit(events, p, a, emitted) && Agrees(events, a, emitted) && !Claimed(events)
    ensures TextsFit(events + [Context(text)], p.(held := LastTwoAt(p.held + [|events|])), TakeContext(a, text), emitted)
  {
    TextMore(events, text, p.shown);
    TextMore(events, text, p.held);
    LastTwoTexts(events + [Context(text)], p.held + [|events|]);
  }

  lemma OtherTexts(events: seq<Event>, e: Event, p: Places, a: Accum, emitted: seq<Record>)
    requires PlacesIn(events, p) && TextsFit(events, p, a, emitted) && (e.Boundary? || e.Torn? || e.Junk?)
    ensures TextsFit(events + [e], if e.Boundary? then p.(held := []) else p, Accumulate(a, e), emitted + Released(a, e))
  {
    TextsAtMore(events, e, p.shown);
    TextsAtMore(events, e, p.held);
    Nothing(emitted);
    Nothing(emitted + Pending(a));
  }

  lemma NextTextsFit(events: seq<Event>, e: Event, p: Places, a: Accum, emitted: seq<Record>)
    requires PlacesIn(events, p) && TextsFit(events, p, a, emitted) && Agrees(events, a, emitted)
    ensures TextsFit(events + [e], NextPlaces(events, p, e), Accumulate(a, e), emitted + Released(a, e))
  {
    match e
    case Match(found) => MatchTexts(events, found, p, a, emitted);
    case Context(text) =>
      Nothing(emitted);
      if Claimed(events) {
        AfterTexts(events, text, p, a, emitted);
      } else {
        SpareTexts(events, text, p, a, emitted);
      }
    case _ => OtherTexts(events, e, p, a, emitted);
  }

  lemma {:induction false} PlacesOfIn(events: seq<Event>)
    ensures PlacesIn(events, PlacesOf(events))
  {
    if events != [] {
      var n := |events| - 1;
      PlacesOfIn(events[..n]);
      Snoc(events);
      NextPlacesIn(events[..n], events[n], PlacesOf(events[..n]));
    }
  }

  lemma {:induction false} PlacesOfFit(events: seq<Event>)
    ensures TextsFit(events, PlacesOf(events), Accumulated(events), Emitted(events))
  {
    if events != [] {
      var n := |events| - 1;
      PlacesOfFit(events[..n]);
      PlacesOfIn(events[..n]);
      AccumulatorAgrees(events[..n]);
      Snoc(events);
      NextTextsFit(events[..n], events[n], PlacesOf(events[..n]), Accumulated(events[..n]), Emitted(events[..n]));
    }
  }

  /** Read from first to last, the records show context lines of the stream at ever later
      positions: no line twice, none out of order, not even between adjacent matches. */
  lemma NoLineShownTwice(events: seq<Event>)
    ensures ShownFrom(events, AllRecords(events), PlacesOf(events).shown)
  {
    AccumulatorAgrees(events);
    PlacesOfIn(events);
    PlacesOfFit(events);
    IncreasingPart(PlacesOf(events).shown, PlacesOf(events).held);
  }

  // ---------------------------------------------------------------- the stream

  /** What the read loop meets: output, its own batch timer, a failed read. */
  datatype Input = Chunk(text: string) | TimerFires | ReadFails

  /** `file:search-result` and `file:search-done`. */
  datatype Message =
    | Result(matches: seq<Record>)
    | Done(totalMatches: nat, totalFiles: nat, truncated: bool)

  /** The text read before the stream ended or failed. */
  function TextRead(inputs: seq<Input>): string {
    if inputs == [] || inputs[0].ReadFails? then ""
    else (if inputs[0].Chunk? then inputs[0].text else "") + TextRead(inputs[1..])
  }

  predicate Fails(inputs: seq<Input>) {
    ReadFails in inputs
  }

  /** The lines handed to the reader: every piece, or on failure only the terminated ones. */
  function LinesRead(inputs: seq<Input>): seq<string> {
    var pieces := Split('\n', TextRead(inputs));
    if Fails(inputs) then pieces[..|pieces| - 1] else pieces
  }

  /** How the loop reads a line: which lines it skips, and what the others say. */
  datatype Reader = Reader(blank: string -> bool, parse: string -> Event)

  /** `line.trim()` decides what is skipped; `parse` is the engine's. */
  function TrimmingReader(parse: string -> Event): Reader {
    Reader((line: string) => Trim(line) == "", parse)
  }

  /** What the lines say, in order. */
  function Events(reader: Reader, lines: seq<string>): seq<Event> {
    if lines == [] then []
    else Events(reader, lines[..|lines| - 1]) + EventOf(reader, lines[|lines| - 1])
  }

  /** What one line adds. */
  function EventOf(reader: Reader, line: string): seq<Event> {
    if reader.blank(line) then [] else [reader.parse(line)]
  }

  lemma EventsMore(reader: Reader, start: seq<Event>, lines: seq<string>, i: nat)
    requires i < |lines|
    ensures start + Events(reader, lines[..i]) + EventOf(reader, lines[i]) == start + Events(reader, lines[..i + 1])
  {
    assert lines[..i + 1][..i] == lines[..i];
  }

  lemma EventsSnoc(reader: Reader, lines: seq<string>, line: string)
    ensures Events(reader, lines + [line]) == Events(reader, lines) + EventOf(reader, line)
  {
    DropLast(lines, line);
  }

  lemma EventsOfConcatMore(reader: Reader, a: seq<string>, b: seq<string>, line: string)
    requires Events(reader, a + b) == Events(reader, a) + Events(reader, b)
    ensures Events(reader, a + (b + [line])) == Events(reader, a) + Events(reader, b + [line])
  {
    Assoc(a, b, [line]);
    EventsSnoc(reader, a + b, line);
    EventsSnoc(reader, b, line);
    Assoc(Events(reader, a), Events(reader, b), EventOf(reader, line));
  }

  lemma {:induction false} EventsOfConcat(reader: Reader, a: seq<string>, b: seq<string>)
    ensures Events(reader, a + b) == Events(reader, a) + Events(reader, b)
  {
    if b == [] {
      Nothing(a);
    } else {
      var n := |b| - 1;
      EventsOfConcat(reader, a, b[..n]);
      EventsOfConcatMore(reader, a, b[..n], b[n]);
      Snoc(b);
    }
  }

  /** What the user should see of a search: everything, except that a failed read loses the match
      still open when it fails. */
  function Delivered(events: seq<Event>, failed: bool): seq<Record> {
    var all := AllRecords(events);
    if failed && InMatch(events) && all != [] then all[..|all| - 1] else all
  }

  /** The matches sent, in order. */
  function Sent(messages: seq<Message>): seq<Record> {
    if messages == [] then []
    else Sent(messages[..|messages| - 1]) + if messages[|messages| - 1].Result? then messages[|messages| - 1].matches else []
  }

  ghost predicate BatchesFit(messages: seq<Message>) {
    forall m | m in messages :: m.Result? && 1 <= |m.matches| <= BATCH_SIZE
  }

  function Paths(records: seq<Record>): set<string> {
    set r | r in records :: r.found.path
  }

  lemma PathsMore(records: seq<Record>, r: Record)
    ensures Paths(records + [r]) == Paths(records) + {r.found.path}
  {
    assert (records + [r])[|records|] == r;
    assert forall x | x in records :: x in records + [r];
  }

  lemma SentMore(messages: seq<Message>, m: Message)
    ensures Sent(messages + [m]) == Sent(messages) + if m.Result? then m.matches else []
  {
    assert (messages + [m])[..|messages|] == messages;
  }

  lemma InMatchHasRecord(events: seq<Event>)
    requires InMatch(events)
    ensures AllRecords(events) != []
  {
    ContextRecords(events, "");
    OpenRecord(events, "");
  }

  /** The line says a match. */
  predicate SaysMatch(reader: Reader, line: string) {
    !reader.blank(line) && reader.parse(line).Match?
  }

  /** Everything the text that was read says. */
  function Promised(reader: Reader, inputs: seq<Input>): seq<Record> {
    AllRecords(Events(reader, Split('\n', TextRead(inputs))))
  }

  /** A read fails with a match still open, or with a match on the line that had not ended. */
  predicate LosesMatch(reader: Reader, inputs: seq<Input>) {
    var pieces := Split('\n', TextRead(inputs));
    var n := |pieces| - 1;
    Fails(inputs) && (InMatch(Events(reader, pieces[..n])) || SaysMatch(reader, pieces[n]))
  }

  /** What one more line adds to the records already closed. */
  lemma RecordsAfterLine(reader: Reader, events: seq<Event>, line: string)
    ensures var more := AllRecords(events + EventOf(reader, line));
            && |more| == |AllRecords(events)| + (if SaysMatch(reader, line) then 1 else 0)
            && (!InMatch(events) && !SaysMatch(reader, line) ==> more == AllRecords(events))
  {
    Nothing(events);
    if !reader.blank(line) {
      var e := reader.parse(line);
      if e.Context? {
        ContextRecords(events, e.text);
        if InMatch(events) {
          OpenRecord(events, e.text);
        }
      } else {
        OtherRecords(events, e);
        Nothing(AllRecords(events));
      }
    }
  }

  /** Everything read is delivered exactly unless a read fails with a match still open or with a
      match on the unfinished line; and then only those are missing. */
  lemma NothingLostIff(reader: Reader, inputs: seq<Input>)
    ensures var delivered := Delivered(Events(reader, LinesRead(inputs)), Fails(inputs));
            && (delivered == Promised(reader, inputs) <==> !LosesMatch(reader, inputs))
            && |delivered| <= |Promised(reader, inputs)| <= |delivered| + 2
  {
    var pieces := Split('\n', TextRead(inputs));
    var n := |pieces| - 1;
    var before := Events(reader, pieces[..n]);
    Snoc(pieces);
    EventsSnoc(reader, pieces[..n], pieces[n]);
    RecordsAfterLine(reader, before, pieces[n]);
    if InMatch(before) {
      InMatchHasRecord(before);
    }
  }

  /** At the end of a run, what has been let go of, and the held match if the run did not fail. */
  lemma DeliveredIs(events: seq<Event>, a: Accum, emitted: seq<Record>, failed: bool)
    requires Agrees(events, a, emitted)
    ensures Delivered(events, failed) == if failed then emitted else emitted + Pending(a)
  {
    Nothing(emitted);
    if a.pending.Some? {
      DropLast(emitted, a.pending.value);
    }
  }

  lemma TextReadNext(inputs: seq<Input>, k: nat)
    requires k < |inputs|
    ensures TextRead(inputs[k..]) == if inputs[k].ReadFails? then ""
                                     else (if inputs[k].Chunk? then inputs[k].text else "") + TextRead(inputs[k + 1..])
  {
    assert inputs[k..][1..] == inputs[k + 1..];
  }
}
