/** The two ways a listing is produced: pruning the paths a listing engine printed, with a memo
    of directory verdicts, and walking the tree with a scan cap and a cancel poll. */
module IgnoreWalk {
  import opened Paths
  import opened Sequences
  import opened Sorting
  import opened Text
  import FindRanking

  /** `rules(path, isDir)`: is the path ignored when asked about as that kind? */
  type Rules = (string, bool) -> bool

  // ---------------------------------------------------------------- the prune

  /** Kept by the rules: no ancestor is ignored as a directory, and neither is the path. */
  ghost predicate KeptFrom(rules: Rules, from: nat, path: string) {
    && (forall k | from <= k < |path| && path[k] == '/' :: !rules(path[..k], true))
    && !rules(path, false)
  }

  ghost predicate Kept(rules: Rules, path: string) {
    KeptFrom(rules, 0, path)
  }

  class IgnorePrune {
    var dirVerdict: map<string, bool>
    const rules: Rules

    ghost predicate Valid()
      reads this
    {
      forall d | d in dirVerdict :: dirVerdict[d] == rules(d, true)
    }

    constructor (rules: Rules)
      ensures Valid() && this.rules == rules
    {
      this.rules := rules;
      dirVerdict := map[];
    }

    /** Whatever was asked before, the answer is the rules' own. */
    method Keeps(rel: string) returns (r: bool)
      requires Valid()
      modifies this
      ensures Valid()
      ensures r <==> Kept(rules, rel)
    {
      var slash := IndexOfSlash(rel, 0);
      ghost var seen := if slash == -1 then |rel| else slash;
      while slash != -1
        invariant Valid()
        invariant slash == -1 ==> seen == |rel|
        invariant slash != -1 ==> seen == slash < |rel| && rel[slash] == '/'
        invariant forall k | 0 <= k < seen && rel[k] == '/' :: !rules(rel[..k], true)
        decreases |rel| - seen
      {
        var dir := rel[..slash];
        var verdict;
        if dir in dirVerdict {
          verdict := dirVerdict[dir];
        } else {
          verdict := rules(dir, true);
          dirVerdict := dirVerdict[dir := verdict];
        }
        if verdict {
          return false;
        }
        slash := IndexOfSlash(rel, slash + 1);
        seen := if slash == -1 then |rel| else slash;
      }
      return !rules(rel, false);
    }
  }

  predicate IsFloorEntry(rel: string) {
    rel == ".git" || ".git/" <= rel
  }

  /** `raw.replace(/\r$/, "").trim()` with `\` turned into `/`. */
  function NormalizeLine(raw: string): string {
    var line := Trim(if raw != [] && raw[|raw| - 1] == '\r' then raw[..|raw| - 1] else raw);
    seq(|line|, i requires 0 <= i < |line| => if line[i] == '\\' then '/' else line[i])
  }

  function LinePath(nulDelimited: bool, raw: string): string {
    if nulDelimited then raw else NormalizeLine(raw)
  }

  /** What one engine line contributes to the listing. */
  ghost function TakenLine(rules: Rules, nulDelimited: bool, raw: string): seq<string> {
    var rel := LinePath(nulDelimited, raw);
    if rel == "" || IsFloorEntry(rel) || !Kept(rules, rel) then [] else [rel]
  }

  /** The paths a listing keeps of the engine's lines, in the engine's order. */
  ghost function Taken(rules: Rules, nulDelimited: bool, lines: seq<string>): seq<string> {
    if lines == [] then []
    else Taken(rules, nulDelimited, lines[..|lines| - 1]) + TakenLine(rules, nulDelimited, lines[|lines| - 1])
  }

  lemma {:induction false} TakenOfConcat(rules: Rules, nulDelimited: bool, a: seq<string>, b: seq<string>)
    ensures Taken(rules, nulDelimited, a + b) == Taken(rules, nulDelimited, a) + Taken(rules, nulDelimited, b)
  {
    if b == [] {
      assert a + b == a;
    } else {
      var n := |b| - 1;
      assert (a + b)[..|a + b| - 1] == a + b[..n];
      TakenOfConcat(rules, nulDelimited, a, b[..n]);
    }
  }

  method TakeLine(prune: IgnorePrune, nulDelimited: bool, raw: string, paths: seq<string>) returns (r: seq<string>)
    requires prune.Valid()
    modifies prune
    ensures prune.Valid() && r == paths + TakenLine(prune.rules, nulDelimited, raw)
  {
    if raw == "" {
      assert LinePath(nulDelimited, raw) == "";
      return paths;
    }
    var rel := LinePath(nulDelimited, raw);
    if rel == "" || IsFloorEntry(rel) {
      return paths;
    }
    var keeps := prune.Keeps(rel);
    return if keeps then paths + [rel] else paths;
  }

  /** The lines a capped read looks at: every complete line up to the cap and, when the cap did
      not bite, the unterminated rest. */
  function Examined(cap: nat, pieces: seq<string>): seq<string>
    requires |pieces| >= 1
  {
    if |pieces| - 1 > cap then pieces[..cap] else pieces
  }

  /** One chunk's complete lines, as many as `room` allows. */
  method TakeLines(prune: IgnorePrune, nulDelimited: bool, lines: seq<string>, soFar: seq<string>, room: nat)
    returns (paths: seq<string>, capped: bool)
    requires prune.Valid()
    modifies prune
    ensures prune.Valid()
    ensures capped <==> |lines| > room
    ensures paths == soFar + Taken(prune.rules, nulDelimited, if capped then lines[..room] else lines)
  {
    paths := soFar;
    for i := 0 to |lines|
      invariant prune.Valid() && i <= room
      invariant paths == soFar + Taken(prune.rules, nulDelimited, lines[..i])
    {
      if i >= room {
        return paths, true;
      }
      assert lines[..i + 1][..i] == lines[..i];
      ghost var taken := Taken(prune.rules, nulDelimited, lines[..i]);
      ghost var more := TakenLine(prune.rules, nulDelimited, lines[i]);
      assert Taken(prune.rules, nulDelimited, lines[..i + 1]) == taken + more;
      paths := TakeLine(prune, nulDelimited, lines[i], paths);
      assert (soFar + taken) + more == soFar + (taken + more);
    }
    assert lines[..|lines|] == lines;
    capped := false;
  }

  /** One chunk: its complete lines, joined to what was held back, pruned in order. */
  method ReadChunk(prune: IgnorePrune, buffer: LineBuffer, nulDelimited: bool, chunk: string, soFar: seq<string>, room: nat, ghost done: seq<string>)
    returns (paths: seq<string>, capped: bool, lines: seq<string>)
    requires prune.Valid() && buffer.Valid(done) && soFar == Taken(prune.rules, nulDelimited, done)
    modifies prune, buffer
    ensures prune.Valid() && buffer.Valid(done + lines) && buffer.received == old(buffer.received) + chunk
    ensures capped <==> |lines| > room
    ensures paths == Taken(prune.rules, nulDelimited, done + if capped then lines[..room] else lines)
  {
    lines := buffer.Feed(chunk, done);
    paths, capped := TakeLines(prune, nulDelimited, lines, soFar, room);
    TakenOfConcat(prune.rules, nulDelimited, done, if capped then lines[..room] else lines);
  }

  /** The read loop over the complete lines, up to the cap. */
  method ReadChunks(prune: IgnorePrune, buffer: LineBuffer, nulDelimited: bool, chunks: seq<string>, maxScanned: nat)
    returns (paths: seq<string>, truncated: bool, ghost done: seq<string>)
    requires prune.Valid() && buffer.Valid([]) && buffer.received == ""
    modifies prune, buffer
    ensures prune.Valid()
    ensures var pieces := Split(buffer.separator, Flatten(chunks));
            if truncated then |pieces| - 1 > maxScanned && paths == Taken(prune.rules, nulDelimited, Examined(maxScanned, pieces))
            else pieces == done + [buffer.leftover] && |done| <= maxScanned && paths == Taken(prune.rules, nulDelimited, done)
  {
    paths, truncated, done := [], false, [];
    var scanned := 0;
    for k := 0 to |chunks|
      invariant prune.Valid() && buffer.Valid(done) && buffer.received == Flatten(chunks[..k])
      invariant scanned == |done| <= maxScanned
      invariant paths == Taken(prune.rules, nulDelimited, done)
    {
      var lines;
      paths, truncated, lines := ReadChunk(prune, buffer, nulDelimited, chunks[k], paths, maxScanned - scanned, done);
      FlattenNext(chunks, k);
      if truncated {
        CapBites(buffer.separator, chunks, k + 1, done, lines, buffer.leftover, maxScanned);
        return;
      }
      scanned := scanned + |lines|;
      done := done + lines;
    }
    truncated := false;
    assert chunks[..|chunks|] == chunks;
  }

  /** The engine read loop. However the output was cut into chunks, the paths are those of the
      lines of the whole text: all of them, or the first `maxScanned` when the cap leaves a
      complete line out, which is what `truncated` says. */
  method ReadListing(rules: Rules, nulDelimited: bool, chunks: seq<string>, maxScanned: nat)
    returns (paths: seq<string>, truncated: bool)
    ensures var pieces := Split(if nulDelimited then '\0' else '\n', Flatten(chunks));
            && truncated == (|pieces| - 1 > maxScanned)
            && paths == Taken(rules, nulDelimited, Examined(maxScanned, pieces))
  {
    var prune := new IgnorePrune(rules);
    var buffer := new LineBuffer(if nulDelimited then '\0' else '\n');
    ghost var done;
    paths, truncated, done := ReadChunks(prune, buffer, nulDelimited, chunks, maxScanned);
    if !truncated {
      CapHolds(rules, nulDelimited, Split(buffer.separator, Flatten(chunks)), done, buffer.leftover, maxScanned);
      paths := TakeLine(prune, nulDelimited, buffer.leftover, paths);
    }
  }

  lemma CapHolds(rules: Rules, nulDelimited: bool, pieces: seq<string>, done: seq<string>, leftover: string, cap: nat)
    requires pieces == done + [leftover] && |done| <= cap
    ensures |pieces| - 1 <= cap
    ensures Taken(rules, nulDelimited, Examined(cap, pieces)) == Taken(rules, nulDelimited, done) + TakenLine(rules, nulDelimited, leftover)
  {
    assert pieces[..|done|] == done;
  }

  lemma FlattenNext(chunks: seq<string>, k: nat)
    requires k < |chunks|
    ensures Flatten(chunks[..k + 1]) == Flatten(chunks[..k]) + chunks[k]
  {
    assert chunks[..k + 1][..k] == chunks[..k];
  }

  /** Once the cap has been passed, later chunks cannot change the lines already examined. */
  lemma CapBites(sep: char, chunks: seq<string>, k: nat, done: seq<string>, lines: seq<string>, leftover: string, cap: nat)
    requires k <= |chunks| && Split(sep, Flatten(chunks[..k])) == done + lines + [leftover]
    requires |done| <= cap < |done + lines|
    ensures var pieces := Split(sep, Flatten(chunks)); |pieces| - 1 > cap && Examined(cap, pieces) == done + lines[..cap - |done|]
  {
    FlattenSplits(chunks, k);
    SplitOpen(sep, Flatten(chunks[..k]), done + lines, leftover, Flatten(chunks[k..]));
    assert (done + lines)[..cap] == done + lines[..cap - |done|];
  }

  lemma {:induction false} FlattenSplits(chunks: seq<string>, k: nat)
    requires k <= |chunks|
    ensures Flatten(chunks) == Flatten(chunks[..k]) + Flatten(chunks[k..])
  {
    if k == |chunks| {
      assert chunks[..k] == chunks && Flatten(chunks[k..]) == "";
    } else {
      var n := |chunks| - 1;
      FlattenSplits(chunks[..n], k);
      assert chunks[..n][..k] == chunks[..k];
      assert chunks[k..][..n - k] == chunks[..n][k..];
      assert Flatten(chunks[k..]) == Flatten(chunks[..n][k..]) + chunks[n];
    }
  }

  // ---------------------------------------------------------------- the tree

  /** One directory entry, as `readdirSync` reports its kind. */
  datatype Entry =
    | File(name: string)
    | Dir(name: string, readable: bool, children: seq<Entry>)
    | Symlink(name: string)
    | Special(name: string)

  function JoinPath(dir: string, name: string): string {
    if dir == "" then name else dir + "/" + name
  }

  /** Names a file system allows: non-empty, no separator, no two alike in one directory. */
  predicate WellNamed(children: seq<Entry>) {
    && (forall i | 0 <= i < |children| :: children[i].name != "" && '/' !in children[i].name)
    && (forall i, j | 0 <= i < j < |children| :: children[i].name != children[j].name)
    && (forall c | c in children :: c.Dir? ==> WellNamed(c.children))
  }

  predicate NameAtOrBefore(a: Entry, b: Entry) {
    !FindRanking.StringLess(b.name, a.name)
  }

  function Listed(dir: Entry): (r: seq<Entry>)
    requires dir.Dir?
    ensures multiset(r) == multiset(dir.children)
    ensures forall e | e in r :: e in dir.children
  {
    var r := SortBy(NameAtOrBefore, dir.children);
    SameMembers(r, dir.children);
    r
  }

  datatype Scan = Skipped | Found(path: string)

  /** The entries an unbounded walk examines from `e` on, one `Scan` each, in order. */
  function Scans(rules: Rules, relDir: string, e: Entry): seq<Scan>
    decreases e
  {
    var rel := JoinPath(relDir, e.name);
    if e.Symlink? || rules(rel, e.Dir?) then [Skipped]
    else match e
      case File(_) => [Found(rel)]
      case Dir(_, _, _) => [Skipped] + DirScans(rules, rel, e)
      case _ => [Skipped]
  }

  function DirScans(rules: Rules, rel: string, dir: Entry): seq<Scan>
    requires dir.Dir?
    decreases dir, 0
  {
    if !dir.readable then [] else
      var es := Listed(dir);
      Flatten(seq(|es|, i requires 0 <= i < |es| => assert es[i] in dir.children; Scans(rules, rel, es[i])))
  }

  function FoundPaths(scans: seq<Scan>): seq<string> {
    if scans == [] then []
    else FoundPaths(scans[..|scans| - 1]) +
         (if scans[|scans| - 1].Found? then [scans[|scans| - 1].path] else [])
  }

  function ChildScans(rules: Rules, rel: string, es: seq<Entry>): (r: seq<seq<Scan>>)
    ensures |r| == |es| && forall i | 0 <= i < |es| :: r[i] == Scans(rules, rel, es[i])
  {
    seq(|es|, i requires 0 <= i < |es| => Scans(rules, rel, es[i]))
  }

  lemma DirScansAreChildScans(rules: Rules, rel: string, dir: Entry)
    requires dir.Dir? && dir.readable
    ensures DirScans(rules, rel, dir) == Flatten(ChildScans(rules, rel, Listed(dir)))
  {
    var es := Listed(dir);
    assert seq(|es|, i requires 0 <= i < |es| => assert es[i] in dir.children; Scans(rules, rel, es[i]))
        == ChildScans(rules, rel, es);
  }

  lemma {:induction false} FoundPathsOfConcat(a: seq<Scan>, b: seq<Scan>)
    ensures FoundPaths(a + b) == FoundPaths(a) + FoundPaths(b)
  {
    if b == [] {
      assert a + b == a;
    } else {
      assert (a + b)[..|a + b| - 1] == a + b[..|b| - 1];
      FoundPathsOfConcat(a, b[..|b| - 1]);
    }
  }

  lemma {:induction false} FlattenPrefix(parts: seq<seq<Scan>>, i: nat)
    requires i <= |parts|
    ensures Flatten(parts[..i]) <= Flatten(parts)
    ensures i < |parts| ==> Flatten(parts[..i + 1]) == Flatten(parts[..i]) + parts[i]
    decreases |parts| - i
  {
    if i < |parts| {
      assert parts[..i + 1][..i] == parts[..i];
      FlattenPrefix(parts, i + 1);
    } else {
      assert parts[..i] == parts;
    }
  }

  // ---------------------------------------------------------------- the walk

  /** A cancel flag that, once raised, stays raised: the first poll to see it, if any. */
  datatype Cancel = Never | FromPoll(poll: nat)

  predicate CancelledAt(cancel: Cancel, poll: nat) {
    cancel.FromPoll? && poll >= cancel.poll
  }

  class Walker {
    const rules: Rules
    const maxScanned: nat
    const cancel: Cancel
    var out: seq<string>
    var scanned: nat
    var truncated: bool
    var cancelled: bool
    var polls: nat

    ghost predicate Valid()
      reads this
    {
      && scanned <= maxScanned
      && (truncated ==> scanned == maxScanned)
      && (cancelled ==> CancelledAt(cancel, polls))
    }

    constructor (rules: Rules, maxScanned: nat, cancel: Cancel)
      ensures Valid() && out == [] && scanned == 0 && !truncated && !cancelled
      ensures this.rules == rules && this.maxScanned == maxScanned && this.cancel == cancel
    {
      this.rules, this.maxScanned, this.cancel := rules, maxScanned, cancel;
      out, scanned, truncated, cancelled, polls := [], 0, false, false, 0;
    }

    method IsCancelled() returns (r: bool)
      requires Valid()
      modifies this`polls
      ensures Valid() && r == CancelledAt(cancel, old(polls)) && (r ==> CancelledAt(cancel, polls))
    {
      r := CancelledAt(cancel, polls);
      polls := polls + 1;
    }

    method Visit(relDir: string, dir: Entry)
      requires Valid() && dir.Dir?
      modifies this
      ensures Valid()
      ensures Progress(old(out), old(scanned), DirScans(rules, relDir, dir), out, scanned)
      ensures old(truncated) ==> truncated
      ensures old(cancelled) ==> cancelled
      ensures !truncated && !cancelled ==> scanned == old(scanned) + |DirScans(rules, relDir, dir)|
      ensures truncated && !old(truncated) ==> scanned < old(scanned) + |DirScans(rules, relDir, dir)|
      decreases dir, 1
    {
      ghost var base, from, scans := out, scanned, DirScans(rules, relDir, dir);
      assert Progress(base, from, scans, out, scanned);
      if truncated || cancelled {
        return;
      }
      var stop := IsCancelled();
      if stop {
        cancelled := true;
        return;
      }
      if !dir.readable {
        return;
      }
      var entries := Listed(dir);
      ghost var parts := ChildScans(rules, relDir, entries);
      DirScansAreChildScans(rules, relDir, dir);
      for i := 0 to |entries|
        invariant Valid() && Progress(base, from, scans, out, scanned) && Reached(parts, i, from)
      {
        stop := VisitNext(relDir, dir, entries, i, parts, base, from);
        if stop {
          return;
        }
      }
      assert parts[..|entries|] == parts;
    }

    /** Past the first `i` entries, all of which were examined unless the walk was cut short. */
    ghost predicate Reached(parts: seq<seq<Scan>>, i: nat, from: nat)
      requires i <= |parts|
      reads this
    {
      && scanned <= from + |Flatten(parts[..i])|
      && (!truncated && !cancelled ==> scanned == from + |Flatten(parts[..i])|)
      && (truncated ==> scanned < from + |Flatten(parts)|)
    }

    /** One turn of the loop over a directory's entries. */
    method VisitNext(relDir: string, dir: Entry, entries: seq<Entry>, i: nat,
                     ghost parts: seq<seq<Scan>>, ghost base: seq<string>, ghost from: nat)
      returns (stop: bool)
      requires Valid() && dir.Dir? && i < |entries| && entries[i] in dir.children
      requires parts == ChildScans(rules, relDir, entries)
      requires Progress(base, from, Flatten(parts), out, scanned) && Reached(parts, i, from)
      modifies this
      ensures Valid() && Progress(base, from, Flatten(parts), out, scanned) && Reached(parts, i + 1, from)
      ensures old(truncated) ==> truncated
      ensures old(cancelled) ==> cancelled
      ensures stop ==> truncated || cancelled
      decreases dir, 0
    {
      FlattenPrefix(parts, i);
      FlattenPrefix(parts, i + 1);
      ScansNonEmpty(rules, relDir, entries[i]);
      var cancelledNow := IsCancelled();
      if cancelledNow {
        cancelled := true;
        return true;
      }
      if scanned >= maxScanned {
        truncated := true;
        return true;
      }
      ghost var out0, scanned0 := out, scanned;
      VisitEntry(relDir, entries[i]);
      ProgressStep(base, from, parts, i, out0, scanned0, out, scanned);
      return false;
    }

    /** One entry, past the checks at the head of the loop. */
    method VisitEntry(relDir: string, entry: Entry)
      requires Valid() && !truncated && !cancelled && scanned < maxScanned
      modifies this
      ensures Valid()
      ensures Progress(old(out), old(scanned), Scans(rules, relDir, entry), out, scanned)
      ensures !truncated && !cancelled ==> scanned == old(scanned) + |Scans(rules, relDir, entry)|
      ensures truncated ==> scanned < old(scanned) + |Scans(rules, relDir, entry)|
      decreases entry, 2
    {
      scanned := scanned + 1;
      var rel := JoinPath(relDir, entry.name);
      OneScan(old(out), old(scanned), rules, relDir, entry);
      if entry.Symlink? || rules(rel, entry.Dir?) {
        return;
      }
      if entry.Dir? {
        Visit(rel, entry);
        DirScan(old(out), old(scanned), DirScans(rules, rel, entry), out, scanned);
      } else if entry.File? {
        out := out + [rel];
      }
    }
  }

  /** A walk that stood at (`base`, `from`) and now stands at (`out`, `scanned`) has examined the
      first `scanned - from` of `scans` and reported exactly the files among them. */
  ghost predicate Progress(base: seq<string>, from: nat, scans: seq<Scan>, out: seq<string>, scanned: nat) {
    && from <= scanned <= from + |scans|
    && out == base + FoundPaths(scans[..scanned - from])
  }

  lemma OneScan(base: seq<string>, from: nat, rules: Rules, relDir: string, e: Entry)
    ensures var rel := JoinPath(relDir, e.name); var scans := Scans(rules, relDir, e);
            && (e.Symlink? || rules(rel, e.Dir?) || e.Special? ==> Progress(base, from, scans, base, from + 1) && |scans| == 1)
            && (e.File? && !rules(rel, false) ==> Progress(base, from, scans, base + [rel], from + 1) && |scans| == 1)
            && (e.Dir? && !rules(rel, true) ==> scans == [Skipped] + DirScans(rules, rel, e))
  {
    var scans := Scans(rules, relDir, e);
    assert base + [] == base;
    if |scans| == 1 {
      assert scans[..1] == scans && scans[..0] == [];
      assert FoundPaths(scans) == if scans[0].Found? then [scans[0].path] else [];
    }
  }

  lemma DirScan(base: seq<string>, from: nat, inner: seq<Scan>, out: seq<string>, scanned: nat)
    requires Progress(base, from + 1, inner, out, scanned)
    ensures Progress(base, from, [Skipped] + inner, out, scanned)
  {
    var n := scanned - from - 1;
    assert ([Skipped] + inner)[..n + 1] == [Skipped] + inner[..n];
    FoundPathsOfConcat([Skipped], inner[..n]);
  }

  /** A part of the whole, walked from where its front ends. */
  lemma ProgressInto(base: seq<string>, from: nat, whole: seq<Scan>, front: seq<Scan>, part: seq<Scan>,
                     out0: seq<string>, out: seq<string>, scanned: nat)
    requires front + part <= whole
    requires Progress(base, from, whole, out0, from + |front|)
    requires Progress(out0, from + |front|, part, out, scanned)
    ensures Progress(base, from, whole, out, scanned)
  {
    var k := scanned - from - |front|;
    SliceInto(whole, front, part, 0);
    SliceInto(whole, front, part, k);
    assert part[..0] == [] && front + [] == front;
    FoundPathsOfConcat(front, part[..k]);
    assert base + (FoundPaths(front) + FoundPaths(part[..k])) == (base + FoundPaths(front)) + FoundPaths(part[..k]);
  }

  lemma ProgressStep(base: seq<string>, from: nat, parts: seq<seq<Scan>>, i: nat,
                     out0: seq<string>, scanned0: nat, out: seq<string>, scanned: nat)
    requires i < |parts|
    requires Progress(base, from, Flatten(parts), out0, scanned0)
    requires scanned0 == from + |Flatten(parts[..i])|
    requires Progress(out0, scanned0, parts[i], out, scanned)
    ensures Progress(base, from, Flatten(parts), out, scanned)
  {
    FlattenPrefix(parts, i);
    FlattenPrefix(parts, i + 1);
    ProgressInto(base, from, Flatten(parts), Flatten(parts[..i]), parts[i], out0, out, scanned);
  }

  lemma SliceInto(whole: seq<Scan>, front: seq<Scan>, part: seq<Scan>, k: nat)
    requires front + part <= whole && k <= |part|
    ensures whole[..|front| + k] == front + part[..k]
  {
    assert whole[..|front + part|] == front + part;
  }

  lemma ScansNonEmpty(rules: Rules, relDir: string, e: Entry)
    ensures |Scans(rules, relDir, e)| >= 1
  {
  }

  datatype WalkResult = WalkResult(paths: seq<string>, truncated: bool, complete: bool)

  /** Everything an uncapped, uncancelled walk reports. */
  function WalkedPaths(rules: Rules, root: Entry): seq<string>
    requires root.Dir?
  {
    FoundPaths(DirScans(rules, "", root))
  }

  /** The bounded walk reports a prefix of the unbounded one, and its two flags say which bound
      stopped it: with neither the report is whole, a cap alone stops at exactly `maxScanned`
      entries with more to come, and only a raised cancel flag makes it incomplete. */
  method WalkFiles(root: Entry, rules: Rules, maxScanned: nat, cancel: Cancel) returns (r: WalkResult)
    requires root.Dir?
    ensures r.paths <= WalkedPaths(rules, root)
    ensures r.complete && !r.truncated
            ==> r.paths == WalkedPaths(rules, root) && |DirScans(rules, "", root)| <= maxScanned
    ensures r.truncated
            ==> maxScanned < |DirScans(rules, "", root)|
                && r.paths == FoundPaths(DirScans(rules, "", root)[..maxScanned])
    ensures !r.complete ==> cancel.FromPoll?
  {
    var w := new Walker(rules, maxScanned, cancel);
    w.Visit("", root);
    ghost var scans := DirScans(rules, "", root);
    assert scans == scans[..w.scanned] + scans[w.scanned..];
    FoundPathsOfConcat(scans[..w.scanned], scans[w.scanned..]);
    assert [] + FoundPaths(scans[..w.scanned]) == FoundPaths(scans[..w.scanned]);
    assert w.scanned == |scans| ==> scans[..w.scanned] == scans;
    r := WalkResult(w.out, w.truncated, !w.cancelled);
  }

  // ---------------------------------------------------------------- walk and prune agree

  /** `path` names a regular file at or beneath `e`, itself at `rel`; no rule is consulted. */
  ghost predicate FileIn(e: Entry, rel: string, path: string)
    decreases e
  {
    match e
    case File(_) => path == rel
    case Dir(_, readable, children) => readable && exists c | c in children :: FileIn(c, rel + "/" + c.name, path)
    case _ => false
  }

  /** `path` names a regular file of the checkout. */
  ghost predicate HasFile(root: Entry, path: string)
    requires root.Dir?
  {
    root.readable && exists c | c in root.children :: FileIn(c, c.name, path)
  }

  lemma {:induction false} FileInIsUnder(e: Entry, rel: string, path: string)
    requires FileIn(e, rel, path)
    ensures path == rel || Under(rel, path)
    decreases e
  {
    if e.Dir? {
      var c :| c in e.children && FileIn(c, rel + "/" + c.name, path);
      FileInIsUnder(c, rel + "/" + c.name, path);
      assert rel <= rel + "/" + c.name <= path;
      assert path[|rel|] == (rel + "/" + c.name)[|rel|];
    }
  }

  lemma {:induction false} FoundPathsMembers(scans: seq<Scan>)
    ensures forall p :: p in FoundPaths(scans) <==> Found(p) in scans
  {
    if scans != [] {
      var n := |scans| - 1;
      FoundPathsMembers(scans[..n]);
      assert scans == scans[..n] + [scans[n]];
    }
  }

  lemma {:induction false} FlattenMembers(parts: seq<seq<Scan>>)
    ensures forall x :: x in Flatten(parts) <==> exists i | 0 <= i < |parts| :: x in parts[i]
  {
    if parts != [] {
      var n := |parts| - 1;
      FlattenMembers(parts[..n]);
      forall x ensures x in Flatten(parts) <==> exists i | 0 <= i < |parts| :: x in parts[i] {
        if i :| 0 <= i < |parts| && x in parts[i] {
          if i < n { assert x in parts[..n][i]; }
        }
        if x in Flatten(parts[..n]) {
          var i :| 0 <= i < n && x in parts[..n][i];
          assert x in parts[i];
        }
      }
    }
  }

  lemma KeptStep(rules: Rules, rel: string, name: string, path: string)
    requires rel + "/" + name <= path && '/' !in name
    ensures KeptFrom(rules, |rel|, path) <==> !rules(rel, true) && KeptFrom(rules, |rel + "/" + name|, path)
  {
    var next := rel + "/" + name;
    assert path[|rel|] == next[|rel|] == '/' && path[..|rel|] == rel;
    forall k | |rel| < k < |next| ensures path[k] != '/' {
      assert path[k] == next[k] == name[k - |rel| - 1];
    }
  }

  /** The walk's level-by-level test is the prune's whole-path test. */
  lemma {:induction false} ScansMembers(rules: Rules, relDir: string, e: Entry, path: string)
    requires e.name != "" && '/' !in e.name && (e.Dir? ==> WellNamed(e.children))
    ensures Found(path) in Scans(rules, relDir, e)
            <==> FileIn(e, JoinPath(relDir, e.name), path) && KeptFrom(rules, |JoinPath(relDir, e.name)|, path)
    decreases e, 1
  {
    var rel := JoinPath(relDir, e.name);
    if e.Dir? {
      DirScansMembers(rules, rel, e, path);
      forall c | c in e.children && FileIn(c, rel + "/" + c.name, path)
        ensures KeptFrom(rules, |rel|, path) <==> !rules(rel, true) && KeptFrom(rules, |rel + "/" + c.name|, path)
      {
        FileInIsUnder(c, rel + "/" + c.name, path);
        KeptStep(rules, rel, c.name, path);
      }
    }
  }

  lemma {:induction false} DirScansMembers(rules: Rules, rel: string, dir: Entry, path: string)
    requires dir.Dir? && WellNamed(dir.children)
    ensures Found(path) in DirScans(rules, rel, dir)
            <==> dir.readable && exists c | c in dir.children ::
                   FileIn(c, JoinPath(rel, c.name), path) && KeptFrom(rules, |JoinPath(rel, c.name)|, path)
    decreases dir, 0
  {
    if dir.readable {
      var es := Listed(dir);
      SameMembers(es, dir.children);
      DirScansAreChildScans(rules, rel, dir);
      FlattenMembers(ChildScans(rules, rel, es));
      forall c | c in dir.children
        ensures Found(path) in Scans(rules, rel, c)
                <==> FileIn(c, JoinPath(rel, c.name), path) && KeptFrom(rules, |JoinPath(rel, c.name)|, path)
      {
        ScansMembers(rules, rel, c, path);
      }
      forall c | c in dir.children ensures exists i :: 0 <= i < |es| && es[i] == c {
        assert c in es;
      }
    }
  }

  /** The unbounded walk reports exactly the regular files that the prune keeps. */
  lemma WalkReportsKeptFiles(rules: Rules, root: Entry, path: string)
    requires root.Dir? && WellNamed(root.children)
    ensures path in WalkedPaths(rules, root) <==> HasFile(root, path) && Kept(rules, path)
  {
    FoundPathsMembers(DirScans(rules, "", root));
    DirScansMembers(rules, "", root, path);
    forall c | c in root.children && FileIn(c, c.name, path)
      ensures KeptFrom(rules, |c.name|, path) <==> Kept(rules, path)
    {
      FileInIsUnder(c, c.name, path);
      assert forall k | 0 <= k < |c.name| :: path[k] == c.name[k];
    }
  }

  /** Two names that both lead to `path` from one directory are the same name. */
  lemma NamesApart(base: string, a: string, b: string, path: string)
    requires '/' !in a && '/' !in b
    requires path == base + a || Under(base + a, path)
    requires path == base + b || Under(base + b, path)
    ensures a == b
  {
    assert base + a <= path && base + b <= path;
    forall i | 0 <= i < |a| ensures path[|base| + i] == a[i] { assert path[|base| + i] == (base + a)[|base| + i]; }
    forall i | 0 <= i < |b| ensures path[|base| + i] == b[i] { assert path[|base| + i] == (base + b)[|base| + i]; }
    assert |a| == |b|;
  }

  function DirBase(rel: string): string {
    if rel == "" then "" else rel + "/"
  }

  lemma FoundUnder(rules: Rules, rel: string, e: Entry, path: string)
    requires e.name != "" && '/' !in e.name && (e.Dir? ==> WellNamed(e.children))
    requires path in FoundPaths(Scans(rules, rel, e))
    ensures path == DirBase(rel) + e.name || Under(DirBase(rel) + e.name, path)
  {
    FoundPathsMembers(Scans(rules, rel, e));
    ScansMembers(rules, rel, e, path);
    FileInIsUnder(e, JoinPath(rel, e.name), path);
    assert JoinPath(rel, e.name) == DirBase(rel) + e.name;
  }

  lemma {:induction false} FlattenDistinct(parts: seq<seq<Scan>>)
    requires forall i | 0 <= i < |parts| :: Distinct(FoundPaths(parts[i]))
    requires forall i, j | 0 <= i < j < |parts| :: forall p | p in FoundPaths(parts[i]) :: p !in FoundPaths(parts[j])
    ensures Distinct(FoundPaths(Flatten(parts)))
    ensures forall p | p in FoundPaths(Flatten(parts)) :: exists i | 0 <= i < |parts| :: p in FoundPaths(parts[i])
  {
    if parts != [] {
      var n := |parts| - 1;
      FlattenDistinct(parts[..n]);
      var front := FoundPaths(Flatten(parts[..n]));
      FoundPathsOfConcat(Flatten(parts[..n]), parts[n]);
      assert FoundPaths(Flatten(parts)) == front + FoundPaths(parts[n]);
      assert forall p | p in front :: exists i | 0 <= i < n :: p in FoundPaths(parts[..n][i]) && parts[..n][i] == parts[i];
      DistinctConcat(front, FoundPaths(parts[n]));
    }
  }

  lemma ChildrenApart(rules: Rules, rel: string, es: seq<Entry>, i: nat, j: nat, path: string)
    requires i < j < |es| && WellNamed(es)
    requires path in FoundPaths(Scans(rules, rel, es[i]))
    ensures path !in FoundPaths(Scans(rules, rel, es[j]))
  {
    assert es[i] in es && es[j] in es;
    FoundUnder(rules, rel, es[i], path);
    if path in FoundPaths(Scans(rules, rel, es[j])) {
      FoundUnder(rules, rel, es[j], path);
      NamesApart(DirBase(rel), es[i].name, es[j].name, path);
    }
  }

  lemma DistinctConcat<T>(a: seq<T>, b: seq<T>)
    requires Distinct(a) && Distinct(b) && forall x | x in a :: x !in b
    ensures Distinct(a + b)
  {
    forall i, j | 0 <= i < j < |a + b| ensures (a + b)[i] != (a + b)[j] {
      if i < |a| <= j { assert a[i] in a && b[j - |a|] in b; }
    }
  }

  lemma {:induction false} ScansDistinct(rules: Rules, rel: string, e: Entry)
    requires e.Dir? ==> WellNamed(e.children)
    ensures Distinct(FoundPaths(Scans(rules, rel, e)))
    decreases e, 1
  {
    OneScan([], 0, rules, rel, e);
    if e.Dir? && !rules(JoinPath(rel, e.name), true) {
      var inner := DirScans(rules, JoinPath(rel, e.name), e);
      DirScansDistinct(rules, JoinPath(rel, e.name), e);
      FoundPathsOfConcat([Skipped], inner);
      assert FoundPaths([Skipped] + inner) == FoundPaths(inner);
    } else {
      var scans := Scans(rules, rel, e);
      assert scans[..1] == scans;
    }
  }

  /** And each of them once. */
  lemma {:induction false} DirScansDistinct(rules: Rules, rel: string, dir: Entry)
    requires dir.Dir? && WellNamed(dir.children)
    ensures Distinct(FoundPaths(DirScans(rules, rel, dir)))
    decreases dir, 0
  {
    if dir.readable {
      var es := Listed(dir);
      SameMembers(es, dir.children);
      ListedIsWellNamed(dir);
      DirScansAreChildScans(rules, rel, dir);
      forall i | 0 <= i < |es| ensures Distinct(FoundPaths(Scans(rules, rel, es[i]))) {
        assert es[i] in dir.children;
        ScansDistinct(rules, rel, es[i]);
      }
      var parts := ChildScans(rules, rel, es);
      forall i, j, p | 0 <= i < j < |parts| && p in FoundPaths(parts[i]) ensures p !in FoundPaths(parts[j]) {
        ChildrenApart(rules, rel, es, i, j, p);
      }
      FlattenDistinct(parts);
    }
  }

  lemma ListedIsWellNamed(dir: Entry)
    requires dir.Dir? && WellNamed(dir.children)
    ensures WellNamed(Listed(dir))
  {
    var es, cs := Listed(dir), dir.children;
    SameMembers(es, cs);
    DistinctFromMultiset(cs, es);
    forall i, j | 0 <= i < j < |es| ensures es[i].name != es[j].name {
      assert es[i] in cs && es[j] in cs;
    }
    forall i | 0 <= i < |es| ensures es[i].name != "" && '/' !in es[i].name {
      assert es[i] in cs;
    }
  }

  /** The paths an engine printed, as they are read. */
  function Readings(nulDelimited: bool, lines: seq<string>): seq<string> {
    if lines == [] then []
    else Readings(nulDelimited, lines[..|lines| - 1]) + [LinePath(nulDelimited, lines[|lines| - 1])]
  }

  predicate Printable(path: string) {
    path != "" && !IsFloorEntry(path)
  }

  /** The paths a listing keeps of those it reads. */
  ghost function KeptPaths(rules: Rules, paths: seq<string>): seq<string> {
    if paths == [] then []
    else
      var last := paths[|paths| - 1];
      KeptPaths(rules, paths[..|paths| - 1]) + if Printable(last) && Kept(rules, last) then [last] else []
  }

  lemma {:induction false} TakenIsKeptPaths(rules: Rules, nulDelimited: bool, lines: seq<string>)
    ensures Taken(rules, nulDelimited, lines) == KeptPaths(rules, Readings(nulDelimited, lines))
  {
    if lines != [] {
      var n := |lines| - 1;
      TakenIsKeptPaths(rules, nulDelimited, lines[..n]);
      DropLast(Readings(nulDelimited, lines[..n]), LinePath(nulDelimited, lines[n]));
    }
  }

  lemma {:induction false} KeptPathsMembers(rules: Rules, paths: seq<string>)
    ensures forall p :: p in KeptPaths(rules, paths) <==> p in paths && Printable(p) && Kept(rules, p)
    ensures Distinct(paths) ==> Distinct(KeptPaths(rules, paths))
  {
    if paths != [] {
      var n := |paths| - 1;
      Snoc(paths);
      KeptPathsMembers(rules, paths[..n]);
      assert Distinct(paths) ==> paths[n] !in paths[..n];
    }
  }

  /** The engines agree. Pruning an engine's lines gives the very files the walk reports exactly when
      the rules let the walk keep no `.git` entry and, of the paths the rules keep, the engine has
      printed just the regular files on disk, in whatever spelling reading undoes. */
  lemma EnginesAgree(rules: Rules, root: Entry, nulDelimited: bool, lines: seq<string>)
    requires root.Dir? && WellNamed(root.children)
    ensures (forall p :: p in Taken(rules, nulDelimited, lines) <==> p in WalkedPaths(rules, root))
            <==> (forall p | p in WalkedPaths(rules, root) :: !IsFloorEntry(p))
                 && (forall p | p in Readings(nulDelimited, lines) && Printable(p) && Kept(rules, p) :: HasFile(root, p))
                 && (forall p | HasFile(root, p) && Kept(rules, p) && !IsFloorEntry(p) :: p in Readings(nulDelimited, lines))
    ensures Distinct(WalkedPaths(rules, root))
    ensures Distinct(Readings(nulDelimited, lines)) ==> Distinct(Taken(rules, nulDelimited, lines))
  {
    TakenIsKeptPaths(rules, nulDelimited, lines);
    KeptPathsMembers(rules, Readings(nulDelimited, lines));
    DirScansDistinct(rules, "", root);
    forall p ensures p in WalkedPaths(rules, root) <==> HasFile(root, p) && Kept(rules, p) {
      WalkReportsKeptFiles(rules, root, p);
    }
    forall p | HasFile(root, p) ensures p != "" {
      var c :| c in root.children && FileIn(c, c.name, p);
      FileInIsUnder(c, c.name, p);
    }
  }
}
