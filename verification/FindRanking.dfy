/** The query side of `file:find`: the greedy subsequence test, the tightness tiers, the sort
    key and the bounded answer. Lower-casing is a per-character map the caller supplies. */
module FindRanking {
  import opened Paths
  import opened Sequences
  import opened Sorting

  datatype FindEntry = FindEntry(path: string, isDir: bool)

  datatype IndexedEntry = IndexedEntry(entry: FindEntry, pathLower: string, baseLower: string, depth: nat)

  datatype Scored = Scored(indexed: IndexedEntry, rank: int)

  function Lower(fold: char -> char, s: string): string {
    Mapped(fold, s)
  }

  // ---------------------------------------------------------------- subsequences

  /** `f` picks positions of `target`, left to right, that spell `query`. */
  ghost predicate IsEmbedding(f: seq<nat>, query: string, target: string) {
    && |f| == |query|
    && (forall i | 0 <= i < |f| :: f[i] < |target| && target[f[i]] == query[i])
    && (forall i, j | 0 <= i < j < |f| :: f[i] < f[j])
  }

  ghost predicate Embeds(query: string, target: string) {
    exists f :: IsEmbedding(f, query, target)
  }

  /** The greedy scan: each query character takes the first target character that fits. */
  predicate Subsequence(query: string, target: string) {
    if query == [] then true
    else if target == [] then false
    else if target[0] == query[0] then Subsequence(query[1..], target[1..])
    else Subsequence(query, target[1..])
  }

  lemma Shifted(g: seq<nat>, query: string, target: string) returns (f: seq<nat>)
    requires target != [] && IsEmbedding(g, query, target[1..])
    ensures IsEmbedding(f, query, target) && forall i | 0 <= i < |f| :: f[i] > 0
  {
    f := seq(|g|, i requires 0 <= i < |g| => g[i] + 1);
    forall i | 0 <= i < |f| ensures f[i] < |target| && target[f[i]] == query[i] {
      assert target[1..][g[i]] == target[g[i] + 1];
    }
  }

  lemma Started(f: seq<nat>, query: string, target: string)
    requires query != [] && target != [] && target[0] == query[0]
    requires IsEmbedding(f, query[1..], target) && forall i | 0 <= i < |f| :: f[i] > 0
    ensures IsEmbedding([0] + f, query, target)
  {
    var g := [0] + f;
    forall i | 0 <= i < |g| ensures g[i] < |target| && target[g[i]] == query[i] {
      if i > 0 {
        assert g[i] == f[i - 1] && query[1..][i - 1] == query[i];
      }
    }
  }

  lemma {:induction false} GreedyIsSound(query: string, target: string) returns (f: seq<nat>)
    requires Subsequence(query, target)
    ensures IsEmbedding(f, query, target)
  {
    if query == [] {
      f := [];
    } else if target[0] == query[0] {
      var g := GreedyIsSound(query[1..], target[1..]);
      f := Shifted(g, query[1..], target);
      Started(f, query, target);
      f := [0] + f;
    } else {
      var g := GreedyIsSound(query, target[1..]);
      f := Shifted(g, query, target);
    }
  }

  lemma {:induction false} GreedyIsComplete(query: string, target: string, f: seq<nat>)
    requires IsEmbedding(f, query, target)
    ensures Subsequence(query, target)
    decreases |target|
  {
    if query != [] {
      assert f[0] < |target|;
      if target[0] == query[0] {
        var g := seq(|f| - 1, i requires 0 <= i < |f| - 1 => f[i + 1] - 1);
        GreedyIsComplete(query[1..], target[1..], g);
      } else {
        assert f[0] > 0;
        GreedyIsComplete(query, target[1..], seq(|f|, i requires 0 <= i < |f| => f[i] - 1));
      }
    }
  }

  lemma SubsequenceIffEmbeds(query: string, target: string)
    ensures Subsequence(query, target) <==> Embeds(query, target)
  {
    if Subsequence(query, target) {
      var f := GreedyIsSound(query, target);
    }
    if f :| IsEmbedding(f, query, target) {
      GreedyIsComplete(query, target, f);
    }
  }

  lemma {:induction false} SubsequenceOfPrefixMatch(query: string, target: string)
    requires query <= target
    ensures Subsequence(query, target)
  {
    if query != [] {
      SubsequenceOfPrefixMatch(query[1..], target[1..]);
    }
  }

  lemma {:induction false} SubsequenceOfSuffix(query: string, front: string, target: string)
    requires Subsequence(query, target)
    ensures Subsequence(query, front + target)
  {
    var f := GreedyIsSound(query, target);
    var g := seq(|f|, i requires 0 <= i < |f| => f[i] + |front|);
    assert forall i | 0 <= i < |g| :: (front + target)[g[i]] == target[f[i]];
    GreedyIsComplete(query, front + target, g);
  }

  method IsSubsequence(query: string, target: string) returns (r: bool)
    ensures r <==> Embeds(query, target)
  {
    SubsequenceIffEmbeds(query, target);
    if |query| == 0 {
      return true;
    }
    var qi := 0;
    var i := 0;
    while i < |target| && qi < |query|
      invariant 0 <= i <= |target| && 0 <= qi <= |query|
      invariant Subsequence(query, target) <==> Subsequence(query[qi..], target[i..])
    {
      assert query[qi..][1..] == query[qi + 1..] && target[i..][1..] == target[i + 1..];
      if target[i] == query[qi] {
        qi := qi + 1;
      }
      i := i + 1;
    }
    return qi == |query|;
  }

  // ---------------------------------------------------------------- ranks

  function Index(fold: char -> char, e: FindEntry): IndexedEntry {
    IndexedEntry(e, Lower(fold, e.path), Lower(fold, BasenameOf(e.path)), Depth(e.path))
  }

  /** All that the tiers need of an indexed entry: its basename closes its path. */
  predicate BaseClosesPath(ix: IndexedEntry) {
    |ix.baseLower| <= |ix.pathLower| && ix.pathLower[|ix.pathLower| - |ix.baseLower|..] == ix.baseLower
  }

  function IndexAll(fold: char -> char, entries: seq<FindEntry>): seq<IndexedEntry> {
    Mapped(e => Index(fold, e), entries)
  }

  lemma IndexAllAt(fold: char -> char, entries: seq<FindEntry>, k: nat)
    requires k < |entries|
    ensures |IndexAll(fold, entries)| == |entries| && IndexAll(fold, entries)[k] == Index(fold, entries[k])
  {
    MappedAt(e => Index(fold, e), entries, k);
  }

  method IndexEntry(fold: char -> char, e: FindEntry) returns (ix: IndexedEntry)
    ensures ix == Index(fold, e)
  {
    var depth := DepthOf(e.path);
    ix := IndexedEntry(e, Lower(fold, e.path), Lower(fold, BasenameOf(e.path)), depth);
  }

  method IndexFindEntries(fold: char -> char, entries: seq<FindEntry>) returns (out: seq<IndexedEntry>)
    ensures out == IndexAll(fold, entries)
  {
    out := [];
    Whole(entries);
    for i := 0 to |entries|
      invariant out == IndexAll(fold, entries[..i])
    {
      var ix := IndexEntry(fold, entries[i]);
      MappedMore(e => Index(fold, e), entries, i);
      out := out + [ix];
    }
  }

  lemma IndexClosesPath(fold: char -> char, e: FindEntry)
    ensures BaseClosesPath(Index(fold, e))
  {
    MappedDrop(fold, e.path, LastSlash(e.path) + 1);
    MappedLength(fold, BasenameOf(e.path));
  }

  predicate Includes(hay: string, needle: string) {
    exists i | 0 <= i <= |hay| - |needle| :: needle <= hay[i..]
  }

  const RANK_BASE_PREFIX := 0
  const RANK_BASE_SUBSTRING := 1
  const RANK_BASE_SUBSEQUENCE := 2
  const RANK_PATH_SUBSTRING := 3
  const RANK_PATH_SUBSEQUENCE := 4

  function RankOf(indexed: IndexedEntry, q: string): int {
    if q <= indexed.baseLower then RANK_BASE_PREFIX
    else if Includes(indexed.baseLower, q) then RANK_BASE_SUBSTRING
    else if Subsequence(q, indexed.baseLower) then RANK_BASE_SUBSEQUENCE
    else if Includes(indexed.pathLower, q) then RANK_PATH_SUBSTRING
    else if Subsequence(q, indexed.pathLower) then RANK_PATH_SUBSEQUENCE
    else -1
  }

  lemma IncludesIsSubsequence(hay: string, needle: string)
    requires Includes(hay, needle)
    ensures Subsequence(needle, hay)
  {
    var i :| 0 <= i <= |hay| - |needle| && needle <= hay[i..];
    SubsequenceOfPrefixMatch(needle, hay[i..]);
    assert hay == hay[..i] + hay[i..];
    SubsequenceOfSuffix(needle, hay[..i], hay[i..]);
  }

  lemma TiersAreSubsequences(ix: IndexedEntry, q: string)
    requires BaseClosesPath(ix)
    ensures RankOf(ix, q) >= 0 <==> Embeds(q, ix.pathLower)
    ensures 0 <= RankOf(ix, q) <= RANK_BASE_SUBSEQUENCE <==> Embeds(q, ix.baseLower)
  {
    var path, base := ix.pathLower, ix.baseLower;
    SubsequenceIffEmbeds(q, path);
    SubsequenceIffEmbeds(q, base);
    var front := path[..|path| - |base|];
    assert path == front + base;
    if q <= base { SubsequenceOfPrefixMatch(q, base); }
    if Includes(base, q) { IncludesIsSubsequence(base, q); }
    if Subsequence(q, base) { SubsequenceOfSuffix(q, front, base); }
    if Includes(path, q) { IncludesIsSubsequence(path, q); }
  }

  /** The five tiers together admit exactly the entries whose whole lower-cased path spells the
      query in order; the three basename tiers exactly those whose basename does. */
  lemma RankIsSubsequence(fold: char -> char, e: FindEntry, q: string)
    ensures RankOf(Index(fold, e), q) >= 0 <==> Embeds(q, Lower(fold, e.path))
    ensures 0 <= RankOf(Index(fold, e), q) <= RANK_BASE_SUBSEQUENCE <==> Embeds(q, Lower(fold, BasenameOf(e.path)))
  {
    IndexClosesPath(fold, e);
    TiersAreSubsequences(Index(fold, e), q);
  }

  // ---------------------------------------------------------------- the sort key

  /** Code-unit order on strings, strictly below. */
  predicate StringLess(a: string, b: string) {
    if b == [] then false
    else if a == [] then true
    else if a[0] != b[0] then a[0] < b[0]
    else StringLess(a[1..], b[1..])
  }

  lemma {:induction false} StringLessIsTotal(a: string, b: string)
    ensures StringLess(a, b) || StringLess(b, a) || a == b
    ensures !(StringLess(a, b) && StringLess(b, a))
  {
    if a != [] && b != [] && a[0] == b[0] {
      StringLessIsTotal(a[1..], b[1..]);
      assert a == [a[0]] + a[1..] && b == [b[0]] + b[1..];
    }
  }

  lemma {:induction false} StringLessIsTransitive(a: string, b: string, c: string)
    requires StringLess(a, b) && StringLess(b, c)
    ensures StringLess(a, c)
  {
    if a != [] && a[0] == b[0] && b[0] == c[0] {
      StringLessIsTransitive(a[1..], b[1..], c[1..]);
    }
  }

  function BySortKey(a: Scored, b: Scored): int {
    if a.rank != b.rank then a.rank - b.rank
    else if a.indexed.depth != b.indexed.depth then a.indexed.depth - b.indexed.depth
    else if StringLess(a.indexed.entry.path, b.indexed.entry.path) then -1
    else if StringLess(b.indexed.entry.path, a.indexed.entry.path) then 1
    else 0
  }

  predicate AtOrBefore(a: Scored, b: Scored) {
    BySortKey(a, b) <= 0
  }

  lemma AtOrBeforeIsOrdering()
    ensures Ordering(AtOrBefore)
  {
    forall a: Scored, b: Scored ensures AtOrBefore(a, b) || AtOrBefore(b, a) {
      StringLessIsTotal(a.indexed.entry.path, b.indexed.entry.path);
    }
    forall a: Scored, b: Scored, c: Scored | AtOrBefore(a, b) && AtOrBefore(b, c) ensures AtOrBefore(a, c) {
      KeyIsTransitive(a, b, c);
    }
  }

  lemma KeyIsTransitive(a: Scored, b: Scored, c: Scored)
    requires AtOrBefore(a, b) && AtOrBefore(b, c)
    ensures AtOrBefore(a, c)
  {
    var x, y, z := a.indexed.entry.path, b.indexed.entry.path, c.indexed.entry.path;
    StringLessIsTotal(x, y);
    StringLessIsTotal(y, z);
    StringLessIsTotal(x, z);
    if StringLess(x, y) && StringLess(y, z) {
      StringLessIsTransitive(x, y, z);
    }
  }

  function Score(q: string, ix: IndexedEntry): Scored {
    Scored(ix, RankOf(ix, q))
  }

  /** A directory comes before something beneath it exactly when its own rank is at least as
      tight; in particular whenever its basename matches and the other's does not. */
  lemma DirectoryBeforeDescendant(fold: char -> char, q: string, dir: FindEntry, below: FindEntry)
    requires Under(dir.path, below.path)
    ensures var d, b := Index(fold, dir), Index(fold, below);
            BySortKey(Score(q, d), Score(q, b)) < 0 <==> RankOf(d, q) <= RankOf(b, q)
    ensures var d, b := Index(fold, dir), Index(fold, below);
            Embeds(q, Lower(fold, below.path)) && Embeds(q, d.baseLower) && !Embeds(q, b.baseLower)
            ==> BySortKey(Score(q, d), Score(q, b)) < 0
  {
    UnderIsDeeper(dir.path, below.path);
    RankIsSubsequence(fold, dir, q);
    RankIsSubsequence(fold, below, q);
  }

  /** Depth is only the second key: a file whose basename starts with the query comes before any
      directory above it whose basename holds the query further in. */
  lemma TighterBelowComesFirst(fold: char -> char, q: string, dir: FindEntry, below: FindEntry)
    requires q <= Index(fold, below).baseLower && !(q <= Index(fold, dir).baseLower)
    requires Embeds(q, Index(fold, dir).baseLower)
    ensures BySortKey(Score(q, Index(fold, below)), Score(q, Index(fold, dir))) < 0
  {
    RankIsSubsequence(fold, dir, q);
  }

  /** So a directory whose basename matches can come after a file beneath it. */
  lemma MatchedDirectoryCanComeAfterItsFile()
    ensures var dir := IndexedEntry(FindEntry("xab", true), "xab", "xab", 1);
            var file := IndexedEntry(FindEntry("xab/ab", false), "xab/ab", "ab", 2);
            && Under("xab", "xab/ab") && BaseClosesPath(dir) && BaseClosesPath(file)
            && Embeds("ab", dir.baseLower)
            && BySortKey(Score("ab", file), Score("ab", dir)) < 0
  {
    assert IsEmbedding([1, 2], "ab", "xab");
    assert "ab"[0] == 'a' && "xab"[0] == 'x';
  }

  // ---------------------------------------------------------------- the answer

  ghost predicate DistinctPaths(indexed: seq<IndexedEntry>) {
    forall i, j | 0 <= i < j < |indexed| :: indexed[i].entry.path != indexed[j].entry.path
  }

  /** The matching entries, scored, in input order. */
  function ScoreAll(q: string, indexed: seq<IndexedEntry>): (r: seq<Scored>)
    ensures forall s :: s in r ==> s.indexed in indexed && s == Score(q, s.indexed) && s.rank >= 0
    ensures forall ix | ix in indexed && RankOf(ix, q) >= 0 :: Score(q, ix) in r
  {
    if indexed == [] then []
    else
      var rest := ScoreAll(q, indexed[..|indexed| - 1]);
      var last := indexed[|indexed| - 1];
      assert indexed == indexed[..|indexed| - 1] + [last];
      if RankOf(last, q) >= 0 then rest + [Score(q, last)] else rest
  }

  /** What the finder selects for `q`: the scored matches, ordered and cut. */
  function Selection(q: string, limit: nat, indexed: seq<IndexedEntry>): seq<Scored> {
    Take(limit, SortBy(AtOrBefore, ScoreAll(q, indexed)))
  }

  function EntriesOf(scored: seq<Scored>): (r: seq<FindEntry>)
    ensures |r| == |scored|
    ensures forall i | 0 <= i < |r| :: r[i] == scored[i].indexed.entry
  {
    seq(|scored|, i requires 0 <= i < |scored| => scored[i].indexed.entry)
  }

  lemma {:induction false} ScoresAreDistinct(q: string, indexed: seq<IndexedEntry>)
    requires DistinctPaths(indexed)
    ensures Distinct(ScoreAll(q, indexed))
    ensures NoTies(AtOrBefore, ScoreAll(q, indexed))
  {
    if indexed != [] {
      var n := |indexed| - 1;
      ScoresAreDistinct(q, indexed[..n]);
      forall s | s in ScoreAll(q, indexed[..n]) ensures s.indexed.entry.path != indexed[n].entry.path {
        var i :| 0 <= i < n && indexed[..n][i] == s.indexed;
      }
    }
    forall x, y | x in ScoreAll(q, indexed) && y in ScoreAll(q, indexed) && AtOrBefore(x, y) && AtOrBefore(y, x)
      ensures x == y
    {
      StringLessIsTotal(x.indexed.entry.path, y.indexed.entry.path);
      var i :| 0 <= i < |indexed| && indexed[i] == x.indexed;
      var j :| 0 <= j < |indexed| && indexed[j] == y.indexed;
      assert i == j;
    }
  }

  /** The answer is the unique best selection of at most `limit` matches. */
  lemma SelectionIsTheTop(q: string, limit: nat, indexed: seq<IndexedEntry>, r: seq<Scored>)
    requires DistinctPaths(indexed)
    ensures IsTop(AtOrBefore, limit, ScoreAll(q, indexed), r) <==> r == Selection(q, limit, indexed)
  {
    AtOrBeforeIsOrdering();
    ScoresAreDistinct(q, indexed);
    TakeOfSortIsTop(AtOrBefore, limit, ScoreAll(q, indexed));
    if IsTop(AtOrBefore, limit, ScoreAll(q, indexed), r) {
      TopIsUnique(AtOrBefore, limit, ScoreAll(q, indexed), r, Selection(q, limit, indexed));
    }
  }

  /** And it does not depend on the order the listing came in. */
  lemma SelectionIgnoresInputOrder(q: string, limit: nat, a: seq<IndexedEntry>, b: seq<IndexedEntry>)
    requires DistinctPaths(a) && DistinctPaths(b)
    requires forall ix :: ix in a <==> ix in b
    ensures Selection(q, limit, a) == Selection(q, limit, b)
  {
    var pa, pb := ScoreAll(q, a), ScoreAll(q, b);
    forall s ensures s in pa <==> s in pb {
      if s in pa { assert Score(q, s.indexed) in pb; }
      if s in pb { assert Score(q, s.indexed) in pa; }
    }
    SelectionIsTheTop(q, limit, a, Selection(q, limit, a));
    SelectionIsTheTop(q, limit, b, Selection(q, limit, b));
    ScoresAreDistinct(q, a);
    TopIsUnique(AtOrBefore, limit, pa, Selection(q, limit, a), Selection(q, limit, b));
  }

  method ScoreSource(q: string, source: seq<IndexedEntry>, scored: seq<Scored>) returns (r: seq<Scored>)
    ensures r == scored + ScoreAll(q, source)
  {
    r := scored;
    for i := 0 to |source|
      invariant r == scored + ScoreAll(q, source[..i])
    {
      assert source[..i + 1][..i] == source[..i];
      var rank := RankOf(source[i], q);
      if rank >= 0 {
        r := r + [Scored(source[i], rank)];
      }
    }
    assert source[..|source|] == source;
  }

  method MatchFindEntries(fold: char -> char, entries: seq<FindEntry>, query: string, limit: int)
    returns (r: seq<FindEntry>)
    ensures r == EntriesOf(Selection(Lower(fold, query), if limit > 0 then limit else 0, IndexAll(fold, entries)))
  {
    var q := Lower(fold, query);
    var indexed := IndexFindEntries(fold, entries);
    var scored := ScoreSource(q, indexed, []);
    assert scored == ScoreAll(q, indexed);
    r := EntriesOf(Take(if limit > 0 then limit else 0, SortBy(AtOrBefore, scored)));
  }

  lemma {:induction false} ScoreAllOfConcat(q: string, a: seq<IndexedEntry>, b: seq<IndexedEntry>)
    ensures ScoreAll(q, a + b) == ScoreAll(q, a) + ScoreAll(q, b)
  {
    if b == [] {
      assert a + b == a;
    } else {
      assert (a + b)[..|a + b| - 1] == a + b[..|b| - 1];
      ScoreAllOfConcat(q, a, b[..|b| - 1]);
    }
  }

  /** `FileFinder.match`: several pre-indexed sources, one answer over all of them. The yields to
      the event loop change no data. */
  method Match(fold: char -> char, sources: seq<seq<IndexedEntry>>, query: string, limit: nat)
    returns (r: seq<FindEntry>)
    ensures r == EntriesOf(Selection(Lower(fold, query), limit, Flatten(sources)))
  {
    var q := Lower(fold, query);
    var scored: seq<Scored> := [];
    for k := 0 to |sources|
      invariant scored == ScoreAll(q, Flatten(sources[..k]))
    {
      scored := ScoreSource(q, sources[k], scored);
      assert sources[..k + 1][..k] == sources[..k];
      ScoreAllOfConcat(q, Flatten(sources[..k]), sources[k]);
    }
    assert sources[..|sources|] == sources;
    r := EntriesOf(Take(limit, SortBy(AtOrBefore, scored)));
  }
}
