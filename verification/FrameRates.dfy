/** The measures of the terminal frame bench: nearest-rank percentiles, the busiest sliding second
    and the longest silence. Times are real numbers, so rounding is not modelled. */
module FrameRates {
  import opened Sequences
  import opened Sorting

  const MIN_SAMPLES_FOR_P95: nat := 20
  const SECOND := 1000.0

  function AtMost(a: real, b: real): bool {
    a <= b
  }

  function Ascending(values: seq<real>): seq<real> {
    SortBy(AtMost, values)
  }

  ghost predicate IsAscending(s: seq<real>) {
    forall i, j | 0 <= i < j < |s| :: s[i] <= s[j]
  }

  lemma AscendingIsSorted(values: seq<real>)
    ensures IsAscending(Ascending(values)) && |Ascending(values)| == |values|
    ensures forall v :: v in Ascending(values) <==> v in values
  {
    SortBySorts(AtMost, values);
    SameMembers(Ascending(values), values);
    var s := Ascending(values);
    assert forall i, j | 0 <= i < j < |s| :: AtMost(s[i], s[j]);
  }

  // ---------------------------------------------------------------- counting

  predicate Within(t: real, low: real, high: real) {
    low <= t < high
  }

  /** How many of the events fall in `[low, high)`. */
  function CountIn(events: seq<real>, low: real, high: real): nat {
    if events == [] then 0
    else CountIn(events[..|events| - 1], low, high) + if Within(events[|events| - 1], low, high) then 1 else 0
  }

  lemma {:induction false} CountOfConcat(a: seq<real>, b: seq<real>, low: real, high: real)
    ensures CountIn(a + b, low, high) == CountIn(a, low, high) + CountIn(b, low, high)
  {
    if b == [] {
      Nothing(a);
    } else {
      var n := |b| - 1;
      CountOfConcat(a, b[..n], low, high);
      assert (a + b)[..|a + b| - 1] == a + b[..n];
    }
  }

  lemma CountOfCons(x: real, s: seq<real>, low: real, high: real)
    ensures CountIn([x] + s, low, high) == CountIn(s, low, high) + if Within(x, low, high) then 1 else 0
  {
    CountOfConcat([x], s, low, high);
    assert [x][..0] == [];
  }

  lemma {:induction false} CountOfInsert(x: real, s: seq<real>, low: real, high: real)
    ensures CountIn(Insert(AtMost, x, s), low, high) == CountIn(s, low, high) + if Within(x, low, high) then 1 else 0
  {
    CountOfCons(x, s, low, high);
    if s == [] {
      Nothing([x]);
    } else if !AtMost(x, s[0]) {
      CountOfInsert(x, s[1..], low, high);
      CountOfCons(s[0], Insert(AtMost, x, s[1..]), low, high);
      CountOfCons(s[0], s[1..], low, high);
      assert s == [s[0]] + s[1..];
    }
  }

  /** Sorting changes no count. */
  lemma {:induction false} CountOfSorted(values: seq<real>, low: real, high: real)
    ensures CountIn(Ascending(values), low, high) == CountIn(values, low, high)
  {
    if values != [] {
      CountOfSorted(values[1..], low, high);
      CountOfInsert(values[0], Ascending(values[1..]), low, high);
      CountOfCons(values[0], values[1..], low, high);
      assert values == [values[0]] + values[1..];
    }
  }

  lemma {:induction false} CountAtMost(s: seq<real>, low: real, high: real, l: nat, h: nat)
    requires l <= h <= |s|
    requires forall i | 0 <= i < |s| && !(l <= i < h) :: !Within(s[i], low, high)
    ensures CountIn(s, low, high) <= h - l
  {
    if s != [] {
      var n := |s| - 1;
      if h <= n {
        CountAtMost(s[..n], low, high, l, h);
      } else {
        CountAtMost(s[..n], low, high, if l < n then l else n, n);
      }
    }
  }

  lemma {:induction false} CountAtLeast(s: seq<real>, low: real, high: real, l: nat, h: nat)
    requires l <= h <= |s|
    requires forall i | l <= i < h :: Within(s[i], low, high)
    ensures CountIn(s, low, high) >= h - l
  {
    if l < h {
      var n := |s| - 1;
      if h <= n {
        CountAtLeast(s[..n], low, high, l, h);
      } else {
        CountAtLeast(s[..n], low, high, l, n);
      }
    }
  }

  // ---------------------------------------------------------------- the busiest second

  /** How many events the half-open second from `x` holds. */
  function InSecond(events: seq<real>, x: real): nat {
    CountIn(events, x, x + SECOND)
  }

  /** The most events any half-open second holds. */
  ghost predicate IsBusiestSecond(events: seq<real>, n: nat) {
    (forall x :: InSecond(events, x) <= n) && (exists x :: InSecond(events, x) == n)
  }

  /** `n` bounds every run of sorted events ending before `right` and shorter than a second. */
  ghost predicate Covers(s: seq<real>, right: nat, n: nat) {
    forall l, r | 0 <= l <= r < right <= |s| && s[r] - s[l] < SECOND :: r - l + 1 <= n
  }

  lemma {:induction false} FirstAndLastIn(s: seq<real>, x: real) returns (l: nat, h: nat)
    requires IsAscending(s)
    ensures l <= h <= |s| && forall i | 0 <= i < |s| :: Within(s[i], x, x + SECOND) <==> l <= i < h
  {
    if s == [] {
      l, h := 0, 0;
    } else {
      var n := |s| - 1;
      l, h := FirstAndLastIn(s[..n], x);
      assert forall i | 0 <= i < n :: s[..n][i] == s[i];
      if Within(s[n], x, x + SECOND) {
        if l == h {
          l := n;
        } else {
          assert Within(s[h - 1], x, x + SECOND);
          assert h < n ==> s[h - 1] <= s[h] <= s[n] && Within(s[h], x, x + SECOND);
        }
        h := n + 1;
      }
    }
  }

  lemma CoveredCount(s: seq<real>, n: nat, x: real)
    requires IsAscending(s) && Covers(s, |s|, n)
    ensures InSecond(s, x) <= n
  {
    var l, h := FirstAndLastIn(s, x);
    CountAtMost(s, x, x + SECOND, l, h);
    if l < h {
      assert Within(s[l], x, x + SECOND) && Within(s[h - 1], x, x + SECOND);
      assert s[h - 1] - s[l] < SECOND;
    }
  }

  lemma RunFillsSecond(s: seq<real>, l: nat, r: nat)
    requires IsAscending(s) && l <= r < |s| && s[r] - s[l] < SECOND
    ensures InSecond(s, s[l]) >= r - l + 1
  {
    CountAtLeast(s, s[l], s[l] + SECOND, l, r + 1);
  }

  lemma EmptySecond(s: seq<real>) returns (x: real)
    requires IsAscending(s)
    ensures InSecond(s, x) == 0
  {
    x := if s == [] then 0.0 else s[|s| - 1] + 1.0;
    CountAtMost(s, x, x + SECOND, 0, 0);
  }

  /** The two-index sweep finds the busiest half-open second, for events in any order. */
  method MaxPerSlidingSecond(timestampsMs: seq<real>) returns (max: nat)
    ensures IsBusiestSecond(timestampsMs, max)
  {
    var sorted := Ascending(timestampsMs);
    AscendingIsSorted(timestampsMs);
    max := 0;
    var left := 0;
    ghost var busiest := EmptySecond(sorted);
    for right := 0 to |sorted|
      invariant left <= right
      invariant forall i | 0 <= i < left :: right < |sorted| ==> sorted[right] - sorted[i] >= SECOND
      invariant Covers(sorted, right, max)
      invariant InSecond(sorted, busiest) >= max
    {
      while sorted[right] - sorted[left] >= SECOND
        invariant left <= right
        invariant forall i | 0 <= i < left :: sorted[right] - sorted[i] >= SECOND
        decreases right - left
      {
        left := left + 1;
      }
      RunFillsSecond(sorted, left, right);
      if right - left + 1 > max {
        max := right - left + 1;
        busiest := sorted[left];
      }
      CoversMore(sorted, left, right, max);
    }
    BusiestOfSorted(timestampsMs, max, busiest);
  }

  /** Runs ending at `right` start no earlier than `left`. */
  lemma CoversMore(s: seq<real>, left: nat, right: nat, n: nat)
    requires IsAscending(s) && left <= right < |s| && Covers(s, right, n) && right - left + 1 <= n
    requires forall i | 0 <= i < left :: s[right] - s[i] >= SECOND
    ensures Covers(s, right + 1, n)
    ensures right + 1 < |s| ==> s[right] <= s[right + 1]
  {
  }

  lemma BusiestOfSorted(events: seq<real>, n: nat, busiest: real)
    requires Covers(Ascending(events), |events|, n) && InSecond(Ascending(events), busiest) >= n
    ensures IsBusiestSecond(events, n)
  {
    AscendingIsSorted(events);
    forall x ensures InSecond(events, x) <= n {
      CoveredCount(Ascending(events), n, x);
      CountOfSorted(events, x, x + SECOND);
    }
    CountOfSorted(events, busiest, busiest + SECOND);
    assert InSecond(events, busiest) == n;
  }

  // ---------------------------------------------------------------- the longest silence

  /** No event strictly between. */
  ghost predicate Silent(events: seq<real>, a: real, b: real) {
    forall t | t in events :: !(a < t < b)
  }

  /** The length of the longest stretch of `[0, end]` without an event inside it. */
  ghost predicate IsLongestSilence(events: seq<real>, end: real, gap: real) {
    && (forall a, b :: 0.0 <= a && b <= end && b - a > gap ==> !Silent(events, a, b))
    && (exists a, b :: 0.0 <= a <= b <= end && b - a == gap && Silent(events, a, b))
  }

  function Max(a: real, b: real): real {
    if a < b then b else a
  }

  /** From the last event (or the start) to `end`, with only later events added. */
  lemma SilenceExtends(events: seq<real>, more: seq<real>, previous: real, end: real, gap: real)
    requires IsLongestSilence(events, previous, gap) && 0.0 <= previous <= end
    requires forall t | t in events :: t <= previous
    requires previous in events || previous == 0.0
    requires forall t :: t in more ==> t in events || t >= end
    requires forall t | t in events :: t in more
    ensures IsLongestSilence(more, end, Max(gap, end - previous))
  {
    var longer := Max(gap, end - previous);
    forall a, b | 0.0 <= a && b <= end && b - a > longer ensures !Silent(more, a, b) {
      if b <= previous {
        assert !Silent(events, a, b);
      } else {
        assert a < previous;
      }
    }
    if end - previous > gap {
      assert Silent(more, previous, end);
    } else {
      var a, b :| 0.0 <= a <= b <= previous && b - a == gap && Silent(events, a, b);
      assert Silent(more, a, b);
    }
  }

  /** Times as a run produces them: from the start on, in order. */
  ghost predicate Orderly(timestampsMs: seq<real>) {
    IsAscending(timestampsMs) && forall t | t in timestampsMs :: 0.0 <= t
  }

  /** Where the loop stands: `seen` is behind it, `previous` the last event or the start. */
  ghost predicate SilentUpTo(seen: seq<real>, previous: real, windowMs: real, gap: real) {
    && 0.0 <= previous <= windowMs && (forall t | t in seen :: t <= previous)
    && (previous in seen || previous == 0.0) && IsLongestSilence(seen, previous, gap)
  }

  lemma SilenceStarts(windowMs: real)
    requires 0.0 <= windowMs
    ensures SilentUpTo([], 0.0, windowMs, 0.0)
  {
    assert Silent([], 0.0, 0.0);
  }

  lemma SilenceNext(ts: seq<real>, i: nat, previous: real, windowMs: real, gap: real)
    requires Orderly(ts) && i < |ts| && ts[i] <= windowMs && SilentUpTo(ts[..i], previous, windowMs, gap)
    ensures SilentUpTo(ts[..i + 1], ts[i], windowMs, Max(gap, ts[i] - previous))
  {
    assert ts[i] in ts && ts[..i + 1] == ts[..i] + [ts[i]];
    PreviousIsEarlier(ts, i, previous);
    SilenceExtends(ts[..i], ts[..i + 1], previous, ts[i], gap);
  }

  lemma SilenceEnds(ts: seq<real>, i: nat, previous: real, windowMs: real, gap: real)
    requires Orderly(ts) && i <= |ts| && (i < |ts| ==> ts[i] > windowMs) && SilentUpTo(ts[..i], previous, windowMs, gap)
    ensures IsLongestSilence(ts, windowMs, Max(gap, windowMs - previous))
  {
    if i < |ts| {
      LaterTimes(ts, i);
    } else {
      Whole(ts);
    }
    SilenceExtends(ts[..i], ts, previous, windowMs, gap);
  }

  /** Over an orderly run, the longest silence, the wait for the first event and the tail after the
      last one included. Events past the window do not count. */
  method MaxGapMs(timestampsMs: seq<real>, windowMs: real) returns (gap: real)
    ensures Orderly(timestampsMs) && 0.0 <= windowMs ==> IsLongestSilence(timestampsMs, windowMs, gap)
  {
    var previous := 0.0;
    var max := 0.0;
    ghost var orderly := Orderly(timestampsMs) && 0.0 <= windowMs;
    if orderly {
      SilenceStarts(windowMs);
    }
    for i := 0 to |timestampsMs|
      invariant orderly ==> SilentUpTo(timestampsMs[..i], previous, windowMs, max)
    {
      var t := timestampsMs[i];
      if t > windowMs {
        if orderly {
          SilenceEnds(timestampsMs, i, previous, windowMs, max);
        }
        return Max(max, windowMs - previous);
      }
      if orderly {
        SilenceNext(timestampsMs, i, previous, windowMs, max);
      }
      max := Max(max, t - previous);
      previous := t;
    }
    if orderly {
      SilenceEnds(timestampsMs, |timestampsMs|, previous, windowMs, max);
    }
    gap := Max(max, windowMs - previous);
  }

  lemma LaterTimes(ts: seq<real>, i: nat)
    requires IsAscending(ts) && i < |ts|
    ensures forall t | t in ts :: t in ts[..i] || t >= ts[i]
    ensures forall t | t in ts[..i] :: t in ts
  {
    forall t | t in ts ensures t in ts[..i] || t >= ts[i] {
      var k :| 0 <= k < |ts| && ts[k] == t;
      if k < i {
        assert ts[..i][k] == t;
      }
    }
  }

  lemma PreviousIsEarlier(ts: seq<real>, i: nat, previous: real)
    requires IsAscending(ts) && i < |ts| && (previous in ts[..i] || previous == 0.0) && 0.0 <= ts[i]
    ensures previous <= ts[i]
  {
    if previous in ts[..i] {
      var k :| 0 <= k < i && ts[..i][k] == previous;
      assert ts[k] <= ts[i];
    }
  }

  /** There is only one such length, so the measure is not just some bound. */
  lemma LongestSilenceIsUnique(events: seq<real>, end: real, g: real, h: real)
    requires IsLongestSilence(events, end, g) && IsLongestSilence(events, end, h)
    ensures g == h
  {
    var a, b :| 0.0 <= a <= b <= end && b - a == g && Silent(events, a, b);
    var c, d :| 0.0 <= c <= d <= end && d - c == h && Silent(events, c, d);
  }

  // ---------------------------------------------------------------- percentiles

  function Ceil(x: real): int {
    -((-x).Floor)
  }

  /** The nearest rank, counted from 1. */
  function Rank(p: real, n: nat): int {
    var r := Ceil(p * n as real);
    if r < 1 then 1 else if r > n then n else r
  }

  function Percentile(sortedAsc: seq<real>, p: real): real {
    if sortedAsc == [] then 0.0
    else
      var k := Ceil(p * |sortedAsc| as real) - 1;
      var low := if k < 0 then 0 else k;
      sortedAsc[if low > |sortedAsc| - 1 then |sortedAsc| - 1 else low]
  }

  /** How many samples are at or below `v`. */
  function CountUpTo(s: seq<real>, v: real): nat {
    if s == [] then 0 else CountUpTo(s[..|s| - 1], v) + if s[|s| - 1] <= v then 1 else 0
  }

  lemma {:induction false} CountUpToBounds(s: seq<real>, v: real, k: nat)
    requires k <= |s|
    ensures (forall i | 0 <= i < k :: s[i] <= v) ==> CountUpTo(s, v) >= k
    ensures (forall i | k <= i < |s| :: s[i] > v) ==> CountUpTo(s, v) <= k
  {
    if s != [] {
      var n := |s| - 1;
      CountUpToBounds(s[..n], v, if k <= n then k else n);
    }
  }

  /** The percentile is the smallest sample with at least `ceil(p * n)` samples at or below it, the
      rank kept between 1 and `n`. */
  lemma PercentileIsNearestRank(s: seq<real>, p: real)
    requires IsAscending(s) && s != []
    ensures var v := Percentile(s, p);
            && v in s && CountUpTo(s, v) >= Rank(p, |s|)
            && forall w | w in s && CountUpTo(s, w) >= Rank(p, |s|) :: v <= w
  {
    var k := Rank(p, |s|) - 1;
    var v := Percentile(s, p);
    assert v == s[k];
    CountUpToBounds(s, v, k + 1);
    forall w | w in s && CountUpTo(s, w) >= Rank(p, |s|) ensures v <= w {
      CountUpToBounds(s, w, k);
    }
  }

  /** The 95th percentile's rank is the last exactly below twenty samples. */
  lemma P95IsLastIff(n: nat)
    requires n > 0
    ensures Rank(0.95, n) == n <==> n < MIN_SAMPLES_FOR_P95
  {
    var x := 0.95 * n as real;
    var r := Ceil(x);
    assert (r - 1) as real < x <= r as real;
  }

  datatype Summary = Summary(p50: real, p95: real, max: real, count: nat, p95IsMax: bool)

  method Summarize(values: seq<real>) returns (r: Summary)
    ensures r.count == |values| && (values == [] ==> r == Summary(0.0, 0.0, 0.0, 0, true))
    ensures values != [] ==> r.max in values && forall v | v in values :: v <= r.max
    ensures r.p50 == Percentile(Ascending(values), 0.5) && r.p95 == Percentile(Ascending(values), 0.95)
    ensures values != [] ==> (r.p95IsMax <==> Rank(0.95, |values|) == |values|)
    ensures r.p95IsMax ==> r.p95 == r.max
  {
    var sorted := Ascending(values);
    AscendingIsSorted(values);
    if values != [] {
      P95IsLastIff(|values|);
    }
    r := Summary(Percentile(sorted, 0.5), Percentile(sorted, 0.95), if sorted == [] then 0.0 else sorted[|sorted| - 1],
                 |values|, |values| < MIN_SAMPLES_FOR_P95);
  }
}
