/** `FileSearcher.search` from its first read to its done message, with the variables its closures
    share as fields. */
module FileSearch {
  import opened Sequences
  import opened Text
  import opened SearchStream

  class SearchRun {
    const reader: Reader
    // contextAccum
    var before: seq<string>
    var matchLine: Option<Record>
    var afterCount: nat
    // batching
    var batch: seq<Record>
    var batchTimer: bool
    var totalMatches: nat
    var filesWithMatches: set<string>
    var truncated: bool
    var killed: bool
    var messages: seq<Message>
    // what has been read and what has been let go of
    ghost var events: seq<Event>
    ghost var emitted: seq<Record>

    ghost function State(): Accum
      reads this`before, this`matchLine, this`afterCount
    {
      Accum(before, matchLine, afterCount)
    }

    /** Whatever has been let go of was sent or is in the batch, and a batch has its timer. */
    ghost predicate Batched()
      reads this`batch, this`batchTimer, this`messages, this`emitted
    {
      && Sent(messages) + batch == emitted && BatchesFit(messages)
      && |batch| < BATCH_SIZE && (batch != [] ==> batchTimer)
    }

    ghost predicate Counted()
      reads this`totalMatches, this`filesWithMatches, this`truncated, this`killed, this`emitted
    {
      && totalMatches == |emitted| && filesWithMatches == Paths(emitted)
      && truncated == killed == (totalMatches >= MAX_RESULTS)
    }

    ghost predicate Valid()
      reads this
    {
      Batched() && Counted() && Agrees(events, State(), emitted)
    }

    constructor (reader: Reader)
      ensures Valid() && this.reader == reader && events == []
    {
      this.reader := reader;
      before, matchLine, afterCount := [], None, 0;
      batch, batchTimer, totalMatches, filesWithMatches := [], false, 0, {};
      truncated, killed, messages := false, false, [];
      events, emitted := [], [];
      new;
      AccumulatorAgrees([]);
    }

    method FlushBatch()
      requires Sent(messages) + batch == emitted && BatchesFit(messages) && |batch| <= BATCH_SIZE
      modifies this`batch, this`messages
      ensures Sent(messages) == emitted && BatchesFit(messages) && batch == []
    {
      if batch == [] {
        return;
      }
      SentMore(messages, Result(batch));
      messages := messages + [Result(batch)];
      batch := [];
    }

    method PushMatch(m: Record)
      requires Batched()
      modifies this`batch, this`batchTimer, this`messages, this`emitted
      ensures Batched() && emitted == old(emitted) + [m]
    {
      assert Sent(messages) + (batch + [m]) == (Sent(messages) + batch) + [m];
      batch := batch + [m];
      emitted := emitted + [m];
      if |batch| >= BATCH_SIZE {
        FlushBatch();
        assert emitted + [] == emitted;
      } else if !batchTimer {
        batchTimer := true;
      }
    }

    method AddMatch(m: Record)
      requires Batched() && Counted()
      modifies this`batch, this`batchTimer, this`totalMatches, this`filesWithMatches, this`truncated, this`killed, this`messages, this`emitted
      ensures Batched() && Counted() && emitted == old(emitted) + [m]
    {
      totalMatches := totalMatches + 1;
      filesWithMatches := filesWithMatches + {m.found.path};
      PathsMore(emitted, m);
      PushMatch(m);
      if totalMatches >= MAX_RESULTS {
        truncated := true;
        killed := true;
      }
    }

    method BatchTimerFires()
      requires Valid() && batchTimer
      modifies this`batch, this`batchTimer, this`messages
      ensures Valid() && batch == [] && !batchTimer
    {
      batchTimer := false;
      FlushBatch();
      assert emitted + [] == emitted;
    }

    method FlushContextMatch()
      requires Batched() && Counted()
      modifies this`matchLine, this`batch, this`batchTimer, this`totalMatches, this`filesWithMatches, this`truncated, this`killed, this`messages, this`emitted
      ensures Batched() && Counted() && emitted == old(emitted) + Pending(old(State())) && matchLine == None
    {
      if matchLine.Some? {
        AddMatch(matchLine.value);
        matchLine := None;
      }
    }

    method TakeContextLine(text: string)
      modifies this`before, this`matchLine, this`afterCount
      ensures State() == TakeContext(old(State()), text)
    {
      if matchLine.Some? && afterCount < CONTEXT {
        matchLine := Some(matchLine.value.(after := matchLine.value.after + [text]));
        afterCount := afterCount + 1;
      } else {
        before := before + [text];
        if |before| > CONTEXT {
          before := before[|before| - CONTEXT..];
        }
      }
    }

    /** A match line: the one before it is complete. */
    method TakeMatch(found: Found)
      requires Batched() && Counted()
      modifies this`before, this`matchLine, this`afterCount, this`batch, this`batchTimer, this`totalMatches, this`filesWithMatches, this`truncated, this`killed, this`messages, this`emitted
      ensures Batched() && Counted() && emitted == old(emitted) + Pending(old(State()))
      ensures State() == Accumulate(old(State()), Match(found))
    {
      FlushContextMatch();
      matchLine := Some(Record(found, before, []));
      before, afterCount := [], 0;
    }

    /** A file boundary, or a match record that cannot be read: the open match is complete. */
    method CloseMatch(e: Event)
      requires Batched() && Counted() && (e.Boundary? || e.Torn?)
      modifies this`before, this`matchLine, this`afterCount, this`batch, this`batchTimer, this`totalMatches, this`filesWithMatches, this`truncated, this`killed, this`messages, this`emitted
      ensures Batched() && Counted() && emitted == old(emitted) + Pending(old(State()))
      ensures State() == Accumulate(old(State()), e)
    {
      FlushContextMatch();
      if e.Boundary? {
        before, afterCount := [], 0;
      }
    }

    method ProcessEvent(e: Event)
      requires Valid()
      modifies this
      ensures Valid() && events == old(events) + [e]
    {
      AgreesMore(events, e, State(), emitted);
      Nothing(emitted);
      match e {
        case Context(text) => TakeContextLine(text);
        case Match(found) => TakeMatch(found);
        case Boundary | Torn => CloseMatch(e);
        case Junk =>
      }
      events := events + [e];
    }

    /** Blank lines are skipped. */
    method ProcessLine(line: string)
      requires Valid()
      modifies this
      ensures Valid() && events == old(events) + EventOf(reader, line)
    {
      if !reader.blank(line) {
        ProcessEvent(reader.parse(line));
      }
    }

    method ProcessLines(lines: seq<string>)
      requires Valid()
      modifies this
      ensures Valid() && events == old(events) + Events(reader, lines)
    {
      ghost var start := events;
      for i := 0 to |lines|
        invariant Valid() && events == start + Events(reader, lines[..i])
      {
        EventsMore(reader, start, lines, i);
        ProcessLine(lines[i]);
      }
      assert lines[..|lines|] == lines;
    }
  }

  /** One chunk: the lines it completes, processed in order. */
  method ReadChunk(run: SearchRun, buffer: LineBuffer, text: string, ghost done: seq<string>) returns (ghost more: seq<string>)
    requires run.Valid() && run.events == Events(run.reader, done) && buffer.Valid(done)
    modifies run, buffer
    ensures run.Valid() && run.events == Events(run.reader, done + more)
    ensures buffer.Valid(done + more) && buffer.received == old(buffer.received) + text
  {
    var lines := buffer.Feed(text, done);
    run.ProcessLines(lines);
    EventsOfConcat(run.reader, done, lines);
    more := lines;
  }

  lemma FailsNext(inputs: seq<Input>, k: nat)
    requires k < |inputs|
    ensures Fails(inputs[..k + 1]) == (Fails(inputs[..k]) || inputs[k].ReadFails?)
    ensures inputs[k].ReadFails? ==> Fails(inputs)
  {
    Snoc(inputs[..k + 1]);
    assert inputs[..k + 1][..k] == inputs[..k];
  }

  /** The read loop: until the stream ends or a read fails. */
  method ReadAll(run: SearchRun, buffer: LineBuffer, inputs: seq<Input>) returns (failed: bool, ghost done: seq<string>)
    requires run.Valid() && run.events == [] && buffer.Valid([]) && buffer.received == "" && buffer.separator == '\n'
    modifies run, buffer
    ensures run.Valid() && run.events == Events(run.reader, done)
    ensures failed == Fails(inputs) && Split('\n', TextRead(inputs)) == done + [buffer.leftover]
  {
    done := [];
    for k := 0 to |inputs|
      invariant run.Valid() && run.events == Events(run.reader, done)
      invariant buffer.Valid(done) && buffer.received + TextRead(inputs[k..]) == TextRead(inputs)
      invariant !Fails(inputs[..k])
    {
      TextReadNext(inputs, k);
      FailsNext(inputs, k);
      match inputs[k] {
        case ReadFails =>
          Nothing(buffer.received);
          return true, done;
        case TimerFires =>
          if run.batchTimer {
            run.BatchTimerFires();
          }
          Nothing(TextRead(inputs[k + 1..]));
        case Chunk(text) =>
          Assoc(buffer.received, text, TextRead(inputs[k + 1..]));
          ghost var more := ReadChunk(run, buffer, text, done);
          done := done + more;
      }
    }
    failed := false;
    Whole(inputs);
    Nothing(buffer.received);
  }

  /** A whole search, for every chunking of the output and every firing of the batch timer: the
      batches hold what should be delivered, in order, each of 1 to 20 matches, and one done
      message ends them with the totals. That is everything the text read says, unless a read fails
      with a match still open or on the line that had not ended. */
  method Search(parse: string -> Event, inputs: seq<Input>) returns (messages: seq<Message>)
    ensures var n := |messages| - 1;
            var delivered := Delivered(Events(TrimmingReader(parse), LinesRead(inputs)), Fails(inputs));
            && n >= 0 && BatchesFit(messages[..n]) && Sent(messages[..n]) == delivered
            && messages[n] == Done(|delivered|, |Paths(delivered)|, |delivered| >= MAX_RESULTS)
            && (delivered == Promised(TrimmingReader(parse), inputs) <==> !LosesMatch(TrimmingReader(parse), inputs))
  {
    var reader := TrimmingReader(parse);
    var run := new SearchRun(reader);
    var buffer := new LineBuffer('\n');
    var failed; ghost var done;
    failed, done := ReadAll(run, buffer, inputs);
    Finish(run, buffer.leftover, failed, done);
    NothingLostIff(reader, inputs);
    DropLast(done, buffer.leftover);
    DropLast(run.messages, Done(run.totalMatches, |run.filesWithMatches|, run.truncated));
    messages := run.messages + [Done(run.totalMatches, |run.filesWithMatches|, run.truncated)];
  }

  /** After the loop: unless it failed, the last line and the held match; then the last batch. */
  method Finish(run: SearchRun, leftover: string, failed: bool, ghost done: seq<string>)
    requires run.Valid() && run.events == Events(run.reader, done)
    modifies run
    ensures BatchesFit(run.messages) && run.Counted() && Sent(run.messages) == run.emitted
    ensures run.emitted == Delivered(Events(run.reader, if failed then done else done + [leftover]), failed)
  {
    if !failed {
      run.ProcessLine(leftover);
      EventsSnoc(run.reader, done, leftover);
    }
    DeliveredIs(run.events, run.State(), run.emitted, failed);
    if !failed {
      run.FlushContextMatch();
    }
    run.FlushBatch();
  }
}
