/** Interval normalization and the recent-rate window (src/scroll_dynamics/rate.rs). */
module Rate {
  import opened Prelude

  const MIN_INPUT_DT_US := 1_000
  const MAX_INPUT_DT_US := 50_000
  const RATE_WINDOW_CAPACITY := 8
  const MIN_RATE_INTERVALS := 3

  datatype DeltaClamp = Unclamped | Minimum | Maximum

  datatype NormalizedDelta = NormalizedDelta(rawUs: u64, usedUs: Interval, clamp: DeltaClamp)

  /** `used_us` is private in the source, so normalization is the only way to make one. */
  type Interval = us: int | 1_000 <= us <= 50_000 witness 1_000

  datatype RateEstimate = RateEstimate(intervalCount: nat, medianIntervalUs: u64, millihertz: u64)

  /** The distance between two timestamps, or None when the second is earlier. */
  function NormalizeInputDelta(previous: u64, current: u64): (delta: Option<NormalizedDelta>)
    ensures delta.None? <==> current < previous
    ensures delta.Some? ==>
              && delta.value.rawUs == current - previous
              && 1_000 <= delta.value.usedUs <= 50_000
              && (delta.value.clamp.Unclamped? <==> delta.value.usedUs == delta.value.rawUs)
              && (delta.value.clamp.Minimum? <==> delta.value.rawUs < 1_000 == delta.value.usedUs)
              && (delta.value.clamp.Maximum? <==> delta.value.rawUs > 50_000 == delta.value.usedUs)
  {
    if current < previous then None else
    var raw := current - previous;
    if raw < MIN_INPUT_DT_US then Some(NormalizedDelta(raw, MIN_INPUT_DT_US, Minimum))
    else if raw > MAX_INPUT_DT_US then Some(NormalizedDelta(raw, MAX_INPUT_DT_US, Maximum))
    else Some(NormalizedDelta(raw, raw, Unclamped))
  }

  // ---------------------------------------------------------------------
  // The window as a sequence, oldest interval first
  // ---------------------------------------------------------------------

  type Window = seq<int>

  /** The newest `min(n, 8)` entries of a history. */
  function Latest(history: Window): Window {
    if |history| <= RATE_WINDOW_CAPACITY then history else history[|history| - RATE_WINDOW_CAPACITY..]
  }

  function Push(window: Window, interval: int): Window {
    Latest(window + [interval])
  }

  function PushAll(window: Window, intervals: Window): Window
    decreases |intervals|
  {
    if intervals == [] then window else PushAll(Push(window, intervals[0]), intervals[1..])
  }

  /** The window holds up to eight observations, the newest of the history, in order. */
  lemma LatestIsNewest(history: Window)
    ensures |Latest(history)| == Min(|history|, 8)
    ensures history == history[..|history| - |Latest(history)|] + Latest(history)
  {
  }

  /** The bounded window forgets nothing it should keep: after any history it is that history's tail. */
  lemma {:induction false} WindowKeepsLatest(history: Window, intervals: Window)
    ensures PushAll(Latest(history), intervals) == Latest(history + intervals)
    decreases |intervals|
  {
    if intervals == [] {
      assert history + intervals == history;
    } else {
      var longer := history + [intervals[0]];
      assert Push(Latest(history), intervals[0]) == Latest(longer);
      WindowKeepsLatest(longer, intervals[1..]);
      assert longer + intervals[1..] == history + intervals;
    }
  }

  // ---------------------------------------------------------------------
  // The median
  // ---------------------------------------------------------------------

  function Insert(x: int, s: Window): (r: Window)
    ensures |r| == |s| + 1
  {
    if s == [] || x <= s[0] then [x] + s else [s[0]] + Insert(x, s[1..])
  }

  function Sort(s: Window): (r: Window)
    ensures |r| == |s|
  {
    if s == [] then [] else Insert(s[0], Sort(s[1..]))
  }

  ghost predicate Sorted(s: Window) {
    forall k :: 0 < k < |s| ==> s[k - 1] <= s[k]
  }

  lemma {:induction false} InsertSorts(x: int, s: Window)
    requires Sorted(s)
    ensures Sorted(Insert(x, s))
    ensures Insert(x, s)[0] == x || (s != [] && Insert(x, s)[0] == s[0])
  {
    if s != [] && x > s[0] {
      assert forall k :: 0 < k < |s[1..]| ==> s[1..][k] == s[k + 1] && s[1..][k - 1] == s[k];
      InsertSorts(x, s[1..]);
    }
  }

  lemma {:induction false} SortSorts(s: Window)
    ensures Sorted(Sort(s))
  {
    if s == [] {
    } else {
      SortSorts(s[1..]);
      InsertSorts(s[0], Sort(s[1..]));
    }
  }

  lemma {:induction false} SortedOrders(s: Window, i: nat, j: nat)
    requires Sorted(s) && i <= j < |s|
    ensures s[i] <= s[j]
    decreases j - i
  {
    if i < j {
      SortedOrders(s, i, j - 1);
    }
  }

  lemma {:induction false} InsertCommutes(x: int, y: int, s: Window)
    ensures Insert(x, Insert(y, s)) == Insert(y, Insert(x, s))
  {
    if s != [] && (x > s[0] && y > s[0]) {
      InsertCommutes(x, y, s[1..]);
      assert Insert(x, s)[1..] == Insert(x, s[1..]) && Insert(y, s)[1..] == Insert(y, s[1..]);
    } else if s != [] && x > s[0] {
      assert ([y] + s)[1..] == s && Insert(x, s) == [s[0]] + Insert(x, s[1..]);
    } else if s != [] && y > s[0] {
      assert ([x] + s)[1..] == s && Insert(y, s) == [s[0]] + Insert(y, s[1..]);
    } else {
      assert ([y] + s)[1..] == s && ([x] + s)[1..] == s;
    }
  }

  /** An observation may be sorted in from any position. */
  lemma {:induction false} SortFromAnywhere(u: Window, x: int, v: Window)
    ensures Sort(u + [x] + v) == Insert(x, Sort(u + v))
  {
    if u == [] {
      assert u + [x] + v == [x] + v && u + v == v && ([x] + v)[1..] == v;
    } else {
      SortFromAnywhere(u[1..], x, v);
      assert (u + [x] + v)[1..] == u[1..] + [x] + v && (u + v)[1..] == u[1..] + v;
      InsertCommutes(u[0], x, Sort(u[1..] + v));
    }
  }

  /** Sorting forgets the order of the window: only its contents matter. */
  lemma {:induction false} SortDependsOnContents(a: Window, b: Window)
    requires multiset(a) == multiset(b)
    ensures Sort(a) == Sort(b)
  {
    if a == [] {
      assert |multiset(b)| == 0;
    } else {
      var rest := MatchHead(a, b);
      SortDependsOnContents(a[1..], rest);
    }
  }

  lemma Cancel(m: multiset<int>, n: multiset<int>, x: int)
    requires multiset{x} + m == n + multiset{x}
    ensures m == n
  {
    assert m == (multiset{x} + m) - multiset{x} && n == (n + multiset{x}) - multiset{x};
  }

  lemma MatchHead(a: Window, b: Window) returns (rest: Window)
    requires a != [] && multiset(a) == multiset(b)
    ensures multiset(a[1..]) == multiset(rest)
    ensures Sort(b) == Insert(a[0], Sort(rest))
  {
    assert a[0] in multiset(b);
    var k :| 0 <= k < |b| && b[k] == a[0];
    rest := b[..k] + b[k + 1..];
    SortFromAnywhere(b[..k], b[k], b[k + 1..]);
    assert b == b[..k] + [b[k]] + b[k + 1..];
    assert multiset(b) == multiset(rest) + multiset{a[0]};
    assert a == [a[0]] + a[1..];
    Cancel(multiset(a[1..]), multiset(rest), a[0]);
  }

  /** The nearest-rank 50th percentile's index, computed as the source does: ceil(50n / 100) - 1. */
  function MedianRank(n: nat): (rank: nat)
    requires 0 < n
    ensures rank == (n - 1) / 2 < n
  {
    Max((n * 50 + 99) / 100, 1) - 1
  }

  function Median(window: Window): int
    requires window != []
  {
    Sort(window)[MedianRank(|window|)]
  }

  predicate InRange(window: Window) {
    forall k :: 0 <= k < |window| ==> MIN_INPUT_DT_US <= window[k] <= MAX_INPUT_DT_US
  }

  lemma PushKeepsRange(window: Window, interval: Interval)
    requires InRange(window)
    ensures InRange(Push(window, interval))
  {
    assert InRange(window + [interval]);
  }

  lemma {:induction false} InsertKeepsRange(x: int, s: Window)
    requires InRange(s) && InRange([x])
    ensures InRange(Insert(x, s))
  {
    if s != [] && x > s[0] {
      assert InRange(s[1..]);
      InsertKeepsRange(x, s[1..]);
    }
    assert [x][0] == x;
  }

  lemma {:induction false} SortKeepsRange(s: Window)
    requires InRange(s)
    ensures InRange(Sort(s))
  {
    if s == [] {
    } else {
      assert InRange(s[1..]) && InRange([s[0]]);
      SortKeepsRange(s[1..]);
      InsertKeepsRange(s[0], Sort(s[1..]));
    }
  }

  /** Dividing by the median is safe because normalization keeps every interval above zero. */
  function Estimate(window: Window): Option<RateEstimate>
    requires InRange(window)
  {
    if |window| < MIN_RATE_INTERVALS then None
    else
      SortKeepsRange(window);
      Some(RateEstimate(|window|, Median(window), 1_000_000_000 / Median(window)))
  }

  ghost function CountIf(s: Window, p: int -> bool): nat {
    if s == [] then 0 else (if p(s[0]) then 1 else 0) + CountIf(s[1..], p)
  }

  lemma {:induction false} CountInserted(x: int, s: Window, p: int -> bool)
    ensures CountIf(Insert(x, s), p) == CountIf([x], p) + CountIf(s, p)
  {
    if s == [] || x <= s[0] {
      assert ([x] + s)[1..] == s;
    } else {
      CountInserted(x, s[1..], p);
      assert Insert(x, s)[1..] == Insert(x, s[1..]);
    }
  }

  lemma {:induction false} CountSorted(s: Window, p: int -> bool)
    ensures CountIf(Sort(s), p) == CountIf(s, p)
  {
    if s == [] {
    } else {
      CountSorted(s[1..], p);
      CountInserted(s[0], Sort(s[1..]), p);
    }
  }

  /** Counting a sequence whose first `k` entries satisfy `p`, and whose entries from `k` on need not. */
  lemma {:induction false} CountAtLeast(s: Window, k: nat, p: int -> bool)
    requires k <= |s| && forall i :: 0 <= i < k ==> p(s[i])
    ensures CountIf(s, p) >= k
  {
    if k > 0 {
      CountAtLeast(s[1..], k - 1, p);
    }
  }

  lemma {:induction false} CountAtMost(s: Window, k: nat, p: int -> bool)
    requires k <= |s| && forall i :: k <= i < |s| ==> !p(s[i])
    ensures CountIf(s, p) <= k
  {
    if s == [] {
    } else {
      CountAtMost(s[1..], if k > 0 then k - 1 else 0, p);
    }
  }

  function Below(bound: int): int -> bool {
    x => x < bound
  }

  function UpTo(bound: int): int -> bool {
    x => x <= bound
  }

  /** The lower median: an observation that at most (n-1)/2 are smaller than and at least (n+1)/2 are no
      larger than. */
  ghost predicate IsLowerMedian(median: int, window: Window) {
    && median in window
    && CountIf(window, Below(median)) <= (|window| - 1) / 2
    && CountIf(window, UpTo(median)) >= (|window| + 1) / 2
  }

  lemma {:induction false} InsertAddsNothing(x: int, s: Window, k: nat)
    requires k < |Insert(x, s)|
    ensures Insert(x, s)[k] == x || Insert(x, s)[k] in s
  {
    if s == [] || x <= s[0] {
    } else if k > 0 {
      InsertAddsNothing(x, s[1..], k - 1);
    }
  }

  lemma {:induction false} SortAddsNothing(s: Window, k: nat)
    requires k < |s|
    ensures Sort(s)[k] in s
  {
    if s == [] {
    } else {
      var rest := Sort(s[1..]);
      InsertAddsNothing(s[0], rest, k);
      if Sort(s)[k] != s[0] {
        var j :| 0 <= j < |rest| && rest[j] == Sort(s)[k];
        SortAddsNothing(s[1..], j);
      }
    }
  }

  lemma MedianIsLowerMedian(window: Window)
    requires window != []
    ensures IsLowerMedian(Median(window), window)
  {
    SortSorts(window);
    var s, k, median := Sort(window), MedianRank(|window|), Median(window);
    forall i | k <= i < |s| ensures median <= s[i] { SortedOrders(s, k, i); }
    forall i | 0 <= i <= k ensures s[i] <= median { SortedOrders(s, i, k); }
    CountSorted(window, Below(median));
    CountAtMost(s, k, Below(median));
    CountSorted(window, UpTo(median));
    CountAtLeast(s, k + 1, UpTo(median));
    SortAddsNothing(window, k);
  }

  /** The estimate itself: there is one from three observations on, it counts them, its interval is their
      lower median, and its rate is the number of such intervals in a million seconds, rounded down. */
  lemma EstimateIsMedianRate(window: Window)
    requires InRange(window)
    ensures Estimate(window).Some? <==> |window| >= 3
    ensures Estimate(window).Some? ==>
      var estimate := Estimate(window).value;
      && estimate.intervalCount == |window|
      && IsLowerMedian(estimate.medianIntervalUs, window)
      && estimate.millihertz * estimate.medianIntervalUs <= 1_000_000_000
           < (estimate.millihertz + 1) * estimate.medianIntervalUs
  {
    if |window| >= 3 {
      MedianIsLowerMedian(window);
      SortKeepsRange(window);
      RateRoundsDown(Median(window));
    }
  }

  lemma RateRoundsDown(median: int)
    requires 0 < median
    ensures 1_000_000_000 / median * median <= 1_000_000_000 < (1_000_000_000 / median + 1) * median
  {
    assert 1_000_000_000 / median * median + 1_000_000_000 % median == 1_000_000_000;
  }

  /** The estimate depends on the contents of the window and not their order, and its rate always lies
      within 20,000 and 1,000,000 millihertz. */
  lemma EstimateIsOrderFreeAndBounded(a: Window, b: Window)
    requires multiset(a) == multiset(b) && InRange(a) && InRange(b)
    ensures Estimate(a) == Estimate(b)
    ensures Estimate(a).Some? ==> 20_000 <= Estimate(a).value.millihertz <= 1_000_000
  {
    SortDependsOnContents(a, b);
    assert |a| == |multiset(a)| == |multiset(b)| == |b|;
    if |a| >= MIN_RATE_INTERVALS {
      SortKeepsRange(a);
      RateBounds(Median(a));
    }
  }

  lemma RateBounds(median: int)
    requires MIN_INPUT_DT_US <= median <= MAX_INPUT_DT_US
    ensures 20_000 <= 1_000_000_000 / median <= 1_000_000
  {
    assert 1_000_000_000 / median * median + 1_000_000_000 % median == 1_000_000_000;
  }

  // ---------------------------------------------------------------------
  // The estimator object
  // ---------------------------------------------------------------------

  lemma {:induction false} InsertAt(x: int, s: Window, k: nat)
    requires k <= |s| && (forall i :: 0 <= i < k ==> s[i] < x) && (k == |s| || x <= s[k])
    ensures Insert(x, s) == s[..k] + [x] + s[k..]
  {
    if k > 0 {
      var rest := s[1..];
      InsertAt(x, rest, k - 1);
      assert s[..k] == [s[0]] + rest[..k - 1];
      assert s[k..] == rest[k - 1..];
    } else {
      assert s[..k] + [x] + s[k..] == [x] + s;
    }
  }

  method InsertInOrder(x: int, s: Window) returns (r: Window)
    ensures r == Insert(x, s)
  {
    var k := 0;
    while k < |s| && s[k] < x
      invariant 0 <= k <= |s|
      invariant forall i :: 0 <= i < k ==> s[i] < x
    {
      k := k + 1;
    }
    InsertAt(x, s, k);
    r := s[..k] + [x] + s[k..];
  }

  /** Sorts a copy, as `sort_unstable` does with the occupied part of the array. */
  method SortedCopy(s: Window) returns (r: Window)
    ensures r == Sort(s)
  {
    r := [];
    var i := |s|;
    while i > 0
      invariant 0 <= i <= |s|
      invariant r == Sort(s[i..])
    {
      i := i - 1;
      assert s[i..][0] == s[i] && s[i..][1..] == s[i + 1..];
      r := InsertInOrder(s[i], r);
    }
    assert s[0..] == s;
  }

  /** The observations in a ring's slots, oldest first. */
  function Unroll(slots: Window, len: nat, next: nat): Window
    requires |slots| == RATE_WINDOW_CAPACITY && len <= |slots| && next <= |slots|
  {
    if len < RATE_WINDOW_CAPACITY then slots[..len] else slots[next..] + slots[..next]
  }

  /** While the ring fills up, a new observation goes behind the others. */
  lemma UnrollGrows(slots: Window, len: nat, x: int)
    requires |slots| == RATE_WINDOW_CAPACITY && len < |slots|
    ensures Unroll(slots[len := x], len + 1, (len + 1) % RATE_WINDOW_CAPACITY) == Push(Unroll(slots, len, len), x)
  {
    hide Unroll, Push;
    TurnSlices(slots, len, x);
    PartlyFilled(slots, len, len);
    PushesBehind(slots[..len], x);
    if len + 1 == RATE_WINDOW_CAPACITY {
      JustFilled(slots[len := x]);
    } else {
      PartlyFilled(slots[len := x], len + 1, len + 1);
    }
  }

  lemma PartlyFilled(slots: Window, len: nat, next: nat)
    requires |slots| == RATE_WINDOW_CAPACITY && len < |slots| && next <= |slots|
    ensures Unroll(slots, len, next) == slots[..len]
  {
  }

  lemma JustFilled(slots: Window)
    requires |slots| == RATE_WINDOW_CAPACITY
    ensures Unroll(slots, RATE_WINDOW_CAPACITY, 0) == slots
  {
    NothingBefore(slots);
  }

  lemma PushesBehind(window: Window, x: int)
    requires |window| < RATE_WINDOW_CAPACITY
    ensures Push(window, x) == window + [x]
  {
  }

  /** In a full ring, overwriting slot `next` drops the oldest observation and appends the new one. */
  lemma UnrollTurns(slots: Window, next: nat, x: int)
    requires |slots| == RATE_WINDOW_CAPACITY && next < |slots|
    ensures Unroll(slots[next := x], RATE_WINDOW_CAPACITY, (next + 1) % RATE_WINDOW_CAPACITY)
            == Push(Unroll(slots, RATE_WINDOW_CAPACITY, next), x)
  {
    hide Push;
    var before, oldest, newer := slots[..next], slots[next], slots[next + 1..];
    TurnSlices(slots, next, x);
    DropsOldest(oldest, newer + before, x);
    Regroup([oldest], newer, before);
    Regroup(newer, before, [x]);
    if next + 1 == RATE_WINDOW_CAPACITY {
      JustFilled(slots[next := x]);
    }
  }

  lemma TurnSlices(slots: Window, next: nat, x: int)
    requires next < |slots|
    ensures slots[next..] == [slots[next]] + slots[next + 1..]
    ensures slots[next := x][..next + 1] == slots[..next] + [x]
    ensures slots[next := x][next + 1..] == slots[next + 1..]
    ensures next + 1 == |slots| ==> slots[next := x] == slots[next := x][..next + 1] && slots[next + 1..] == []
  {
  }

  lemma Regroup(a: Window, b: Window, c: Window)
    ensures (a + b) + c == a + (b + c)
  {
  }

  lemma NothingBefore(slots: Window)
    ensures slots[0..] + slots[..0] == slots
  {
  }

  lemma DropsOldest(oldest: int, newer: Window, x: int)
    requires |newer| + 1 == RATE_WINDOW_CAPACITY
    ensures Push([oldest] + newer, x) == newer + [x]
  {
    assert [oldest] + newer + [x] == [oldest] + (newer + [x]);
  }

  lemma UnrollSorts(slots: Window, len: nat, next: nat)
    requires |slots| == RATE_WINDOW_CAPACITY && len <= |slots| && next <= |slots|
    ensures Sort(slots[..len]) == Sort(Unroll(slots, len, next))
  {
    if len == RATE_WINDOW_CAPACITY {
      assert slots[..len] == slots == slots[..next] + slots[next..];
      SortDependsOnContents(slots[..len], Unroll(slots, len, next));
    }
  }

  /** A ring of eight intervals. `len` grows to the capacity, after which `next` is the oldest slot. */
  class InputRateEstimator {
    const intervals: array<int>
    var len: nat
    var next: nat

    ghost predicate Valid()
      reads this, intervals
    {
      && intervals.Length == RATE_WINDOW_CAPACITY
      && len <= RATE_WINDOW_CAPACITY
      && next < RATE_WINDOW_CAPACITY
      && (len < RATE_WINDOW_CAPACITY ==> next == len)
      && InRange(Unroll(intervals[..], len, next))
    }

    /** The observations in arrival order. */
    ghost function Contents(): (window: Window)
      requires Valid()
      reads this, intervals
    {
      Unroll(intervals[..], len, next)
    }

    constructor ()
      ensures Valid() && fresh(intervals) && Contents() == []
    {
      intervals := new int[RATE_WINDOW_CAPACITY](_ => 0);
      len, next := 0, 0;
    }

    method Observe(delta: NormalizedDelta)
      requires Valid()
      modifies this, intervals
      ensures Valid() && Contents() == Push(old(Contents()), delta.usedUs)
    {
      hide Unroll, Push, InRange;
      ghost var was := intervals[..];
      if len < RATE_WINDOW_CAPACITY {
        UnrollGrows(was, len, delta.usedUs);
        intervals[len] := delta.usedUs;
        assert intervals[..] == was[len := delta.usedUs];
        len := len + 1;
        next := len % RATE_WINDOW_CAPACITY;
      } else {
        UnrollTurns(was, next, delta.usedUs);
        intervals[next] := delta.usedUs;
        assert intervals[..] == was[next := delta.usedUs];
        next := (next + 1) % RATE_WINDOW_CAPACITY;
      }
      PushKeepsRange(old(Contents()), delta.usedUs);
    }

    method EstimateRate() returns (estimate: Option<RateEstimate>)
      requires Valid()
      ensures estimate == Estimate(Contents())
    {
      if len < MIN_RATE_INTERVALS {
        return None;
      }
      assert intervals[..len] == intervals[..][..len];
      var sorted := SortedCopy(intervals[..len]);
      UnrollSorts(intervals[..], len, next);
      SortKeepsRange(Contents());
      var median := sorted[MedianRank(len)];
      return Some(RateEstimate(len, median, 1_000_000_000 / median));
    }

    method IntervalCount() returns (count: nat)
      requires Valid()
      ensures count == |Contents()|
    {
      return len;
    }

    method Clear()
      requires Valid()
      modifies this, intervals
      ensures Valid() && Contents() == []
    {
      forall k | 0 <= k < intervals.Length {
        intervals[k] := 0;
      }
      len, next := 0, 0;
    }

    method Clone() returns (copy: InputRateEstimator)
      requires Valid()
      ensures fresh(copy) && fresh(copy.intervals)
      ensures copy.Valid() && copy.Contents() == Contents()
    {
      ghost var slots := intervals[..];
      copy := new InputRateEstimator();
      forall k | 0 <= k < intervals.Length {
        copy.intervals[k] := intervals[k];
      }
      copy.len, copy.next := len, next;
      assert copy.intervals[..] == slots == intervals[..];
    }
  }
}
