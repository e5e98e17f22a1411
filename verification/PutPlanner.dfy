/**
 * Planning of PutLogEvents requests (src/cloudwatch_json.cpp): validate, sort by
 * timestamp without reordering equal timestamps, and split greedily into batches.
 */
module PutPlanner {
  import opened Strings

  const MAX_EVENTS: nat := 10000
  const MAX_BYTES: nat := 1024 * 1024
  const EVENT_OVERHEAD: nat := 26
  const MAX_SPAN_MS: nat := 24 * 60 * 60 * 1000

  datatype PutEvent = PutEvent(timestampMs: Int64, message: Bytes, sourceRow: nat)

  datatype Batch = Batch(offset: nat, count: nat) {
    function End(): nat { offset + count }
  }

  datatype PlanError = EmptyMessage(row: nat) | MessageTooLarge(row: nat, size: nat)

  // ---------- validation ----------

  function Check(e: PutEvent): Option<PlanError> {
    if e.message == [] then Some(EmptyMessage(e.sourceRow))
    else if |e.message| > MAX_BYTES - EVENT_OVERHEAD then Some(MessageTooLarge(e.sourceRow, |e.message|))
    else None
  }

  /** A message must not be empty nor, with the 26 bytes a request adds to it, exceed 1 MiB; the error names its row. */
  lemma CheckMeans(e: PutEvent)
    ensures Check(e) == None <==> 0 < |e.message| && |e.message| + 26 <= 1048576
    ensures Check(e) == Some(EmptyMessage(e.sourceRow)) <==> e.message == []
    ensures |e.message| + 26 > 1048576 <==> Check(e) == Some(MessageTooLarge(e.sourceRow, |e.message|))
  {
  }

  predicate AllValid(s: seq<PutEvent>) {
    forall i | 0 <= i < |s| :: Check(s[i]).None?
  }

  /** The error reported for s: the one of its first offending event. */
  function FirstError(s: seq<PutEvent>): (r: Option<PlanError>)
    ensures r.None? <==> AllValid(s)
  {
    if s == [] then None
    else if Check(s[0]).Some? then Check(s[0])
    else
      assert s == [s[0]] + s[1..];
      FirstError(s[1..])
  }

  lemma {:induction false} FirstErrorPosition(s: seq<PutEvent>) returns (i: nat)
    requires !AllValid(s)
    ensures i < |s| && AllValid(s[..i]) && Check(s[i]) == FirstError(s)
  {
    if Check(s[0]).Some? {
      i := 0;
    } else {
      assert s == [s[0]] + s[1..];
      i := FirstErrorPosition(s[1..]);
      assert s[..i + 1] == [s[0]] + s[1..][..i];
      i := i + 1;
    }
  }

  // ---------- stable sorting ----------

  predicate Sorted(s: seq<PutEvent>) {
    forall i, j | 0 <= i < j < |s| :: s[i].timestampMs <= s[j].timestampMs
  }

  /** The events of s carrying timestamp t, in the order s has them. */
  function AtTime(s: seq<PutEvent>, t: int): seq<PutEvent> {
    if s == [] then []
    else AtTime(s[..|s| - 1], t) + (if s[|s| - 1].timestampMs == t then [s[|s| - 1]] else [])
  }

  /** out is sorted and keeps, for every timestamp, the events of s in their input order. */
  ghost predicate IsStableSortOf(out: seq<PutEvent>, s: seq<PutEvent>) {
    Sorted(out) && multiset(out) == multiset(s) && forall t :: AtTime(out, t) == AtTime(s, t)
  }

  function Insert(s: seq<PutEvent>, e: PutEvent): seq<PutEvent> {
    if s == [] || s[|s| - 1].timestampMs <= e.timestampMs then s + [e]
    else Insert(s[..|s| - 1], e) + [s[|s| - 1]]
  }

  function StableSort(s: seq<PutEvent>): seq<PutEvent> {
    if s == [] then [] else Insert(StableSort(s[..|s| - 1]), s[|s| - 1])
  }

  lemma AtTimeAppend(s: seq<PutEvent>, e: PutEvent, t: int)
    ensures AtTime(s + [e], t) == AtTime(s, t) + (if e.timestampMs == t then [e] else [])
  {
    assert (s + [e])[..|s|] == s;
  }

  lemma {:induction false} InsertKeepsTimes(s: seq<PutEvent>, e: PutEvent, t: int)
    ensures AtTime(Insert(s, e), t) == AtTime(s + [e], t)
  {
    hide AtTime;
    if s == [] || s[|s| - 1].timestampMs <= e.timestampMs {
    } else {
      var front, last := s[..|s| - 1], s[|s| - 1];
      assert s == front + [last];
      InsertKeepsTimes(front, e, t);
      AtTimeAppend(Insert(front, e), last, t);
      AtTimeAppend(front, e, t);
      AtTimeAppend(front, last, t);
      AtTimeAppend(s, e, t);
    }
  }

  lemma AppendLast(inner: seq<PutEvent>, source: seq<PutEvent>, last: PutEvent)
    requires Sorted(inner) && multiset(inner) == multiset(source)
    requires forall i | 0 <= i < |source| :: source[i].timestampMs <= last.timestampMs
    ensures Sorted(inner + [last]) && multiset(inner + [last]) == multiset(source + [last])
  {
    forall i | 0 <= i < |inner| ensures inner[i].timestampMs <= last.timestampMs {
      assert inner[i] in multiset(source);
    }
  }

  lemma InsertUnfolds(s: seq<PutEvent>, e: PutEvent)
    ensures Insert(s, e) ==
            if s == [] || s[|s| - 1].timestampMs <= e.timestampMs then s + [e] else Insert(s[..|s| - 1], e) + [s[|s| - 1]]
  {
  }

  lemma SortedFront(s: seq<PutEvent>)
    requires Sorted(s) && s != []
    ensures Sorted(s[..|s| - 1]) && forall i | 0 <= i < |s| :: s[i].timestampMs <= s[|s| - 1].timestampMs
  {
  }

  lemma {:induction false} InsertSorted(s: seq<PutEvent>, e: PutEvent)
    requires Sorted(s)
    ensures Sorted(Insert(s, e)) && multiset(Insert(s, e)) == multiset(s + [e])
  {
    hide Insert, Sorted;
    InsertUnfolds(s, e);
    if s == [] {
      AppendLast(s, s, e);
    } else {
      var front, last := s[..|s| - 1], s[|s| - 1];
      SortedFront(s);
      if last.timestampMs <= e.timestampMs {
        AppendLast(s, s, e);
      } else {
        InsertSorted(front, e);
        AppendLast(Insert(front, e), front + [e], last);
        assert s == front + [last];
        assert multiset(front + [e] + [last]) == multiset(front + [last] + [e]);
      }
    }
  }

  lemma {:induction false} StableSortIsStable(s: seq<PutEvent>)
    ensures IsStableSortOf(StableSort(s), s)
  {
    if s == [] {
    } else {
      var front, last := s[..|s| - 1], s[|s| - 1];
      assert s == front + [last];
      StableSortIsStable(front);
      var sorted := StableSort(front);
      InsertSorted(sorted, last);
      forall t ensures AtTime(StableSort(s), t) == AtTime(s, t) {
        InsertKeepsTimes(sorted, last, t);
        AtTimeAppend(sorted, last, t);
        AtTimeAppend(front, last, t);
      }
    }
  }

  lemma {:induction false} AtTimeMember(s: seq<PutEvent>, t: int, e: PutEvent)
    ensures e in AtTime(s, t) <==> e in s && e.timestampMs == t
  {
    if s == [] {
    } else {
      AtTimeMember(s[..|s| - 1], t, e);
      assert s == s[..|s| - 1] + [s[|s| - 1]];
    }
  }

  lemma LastTimes(a: seq<PutEvent>, b: seq<PutEvent>)
    requires Sorted(a) && Sorted(b) && a != []
    requires forall t :: AtTime(a, t) == AtTime(b, t)
    ensures b != [] && a[|a| - 1].timestampMs <= b[|b| - 1].timestampMs
  {
    AtTimeMember(a, a[|a| - 1].timestampMs, a[|a| - 1]);
    AtTimeMember(b, a[|a| - 1].timestampMs, a[|a| - 1]);
  }

  lemma PeelTimes(a: seq<PutEvent>, x: PutEvent, b: seq<PutEvent>, y: PutEvent, t: int)
    requires x.timestampMs == y.timestampMs
    requires AtTime(a + [x], t) == AtTime(b + [y], t)
    ensures AtTime(a, t) == AtTime(b, t)
    ensures t == x.timestampMs ==> x == y
  {
    AtTimeAppend(a, x, t);
    AtTimeAppend(b, y, t);
    var sa, sb := AtTime(a + [x], t), AtTime(b + [y], t);
    if x.timestampMs == t {
      assert sa[|sa| - 1] == x && sb[|sb| - 1] == y;
      assert AtTime(a, t) == sa[..|sa| - 1] && AtTime(b, t) == sb[..|sb| - 1];
    } else {
      assert sa == AtTime(a, t) && sb == AtTime(b, t);
    }
  }

  /** The stable order is unique: sortedness and the per-timestamp order fix every position. */
  lemma {:induction false} StableSortUnique(a: seq<PutEvent>, b: seq<PutEvent>)
    requires Sorted(a) && Sorted(b)
    requires forall t :: AtTime(a, t) == AtTime(b, t)
    ensures a == b
  {
    if a != [] {
      LastTimes(a, b);
      LastTimes(b, a);
      var x, y := a[|a| - 1], b[|b| - 1];
      var a', b' := a[..|a| - 1], b[..|b| - 1];
      assert a == a' + [x] && b == b' + [y];
      forall t ensures AtTime(a', t) == AtTime(b', t) && x == y {
        PeelTimes(a', x, b', y, t);
        PeelTimes(a', x, b', y, x.timestampMs);
      }
      assert AtTime(a', 0) == AtTime(b', 0);
      StableSortUnique(a', b');
    } else if b != [] {
      LastTimes(b, a);
    }
  }

  // ---------- service limits ----------

  function Charge(s: seq<PutEvent>, lo: nat, hi: nat): nat
    requires lo <= hi <= |s|
  {
    if lo == hi then 0 else Charge(s, lo, hi - 1) + |s[hi - 1].message| + EVENT_OVERHEAD
  }

  /** s[lo..hi] is one acceptable request: count, charged bytes, and pairwise time span in unbounded arithmetic. */
  ghost predicate Fits(s: seq<PutEvent>, lo: nat, hi: nat)
    requires lo <= hi <= |s|
  {
    && 0 < hi - lo <= MAX_EVENTS
    && Charge(s, lo, hi) <= MAX_BYTES
    && forall i, j | lo <= i < hi && lo <= j < hi :: s[j].timestampMs - s[i].timestampMs <= MAX_SPAN_MS
  }

  function MessageBytes(s: seq<PutEvent>, lo: nat, hi: nat): nat
    requires lo <= hi <= |s|
  {
    if lo == hi then 0 else MessageBytes(s, lo, hi - 1) + |s[hi - 1].message|
  }

  /** The service's limits on one request: 10000 events, 1 MiB with 26 bytes on top of each message, 24 hours. */
  lemma {:induction false} ChargeMeans(s: seq<PutEvent>, lo: nat, hi: nat, messages: nat)
    requires lo <= hi <= |s| && messages == MessageBytes(s, lo, hi)
    ensures Charge(s, lo, hi) == messages + 26 * (hi - lo)
    ensures Fits(s, lo, hi) <==>
            && 0 < hi - lo <= 10000 && messages + 26 * (hi - lo) <= 1048576
            && forall i, j | lo <= i < hi && lo <= j < hi :: s[j].timestampMs - s[i].timestampMs <= 86400000
    decreases hi - lo
  {
    if lo == hi {
    } else {
      ChargeMeans(s, lo, hi - 1, MessageBytes(s, lo, hi - 1));
    }
  }

  /** Where batch i starts when the batches are consecutive. */
  function Start(batches: seq<Batch>, i: nat): nat
    requires i <= |batches|
  {
    if i == 0 then 0 else batches[i - 1].End()
  }

  lemma StartZero(batches: seq<Batch>)
    ensures Start(batches, 0) == 0
  {
  }

  lemma StartNext(batches: seq<Batch>, i: nat)
    requires i < |batches|
    ensures Start(batches, 0) == 0 && Start(batches, i + 1) == batches[i].End()
  {
  }

  /** The batches are non-empty, consecutive, start at the first event and end after the last. */
  predicate Tiles(batches: seq<Batch>, n: nat) {
    && Start(batches, |batches|) == n
    && forall i | 0 <= i < |batches| :: batches[i].offset == Start(batches, i) && batches[i].count > 0 && batches[i].End() <= n
  }

  lemma StartAppend(batches: seq<Batch>, batch: Batch, i: nat)
    requires i <= |batches|
    ensures Start(batches + [batch], i) == Start(batches, i)
  {
    assert i > 0 ==> (batches + [batch])[i - 1] == batches[i - 1];
  }

  lemma TilesAppend(batches: seq<Batch>, offset: nat, end: nat)
    requires Tiles(batches, offset) && offset < end
    ensures Tiles(batches + [Batch(offset, end - offset)], end)
  {
    var batch := Batch(offset, end - offset);
    var longer := batches + [batch];
    forall i | 0 <= i < |longer| ensures longer[i].offset == Start(longer, i) && longer[i].count > 0 && longer[i].End() <= end {
      StartAppend(batches, batch, i);
      hide Start;
    }
  }

  /** No batch is empty, so no more batches than events are behind any point. */
  lemma {:induction false} FewerBatches(batches: seq<Batch>, n: nat, k: nat)
    requires Tiles(batches, n) && k <= |batches|
    ensures k <= Start(batches, k)
  {
    hide Start;
    StartZero(batches);
    if k == 0 {
    } else {
      FewerBatches(batches, n, k - 1);
      StartNext(batches, k - 1);
    }
  }

  /** A partition of the events into acceptable requests. */
  ghost predicate IsPartition(s: seq<PutEvent>, batches: seq<Batch>) {
    Tiles(batches, |s|) && forall i | 0 <= i < |batches| :: Fits(s, batches[i].offset, batches[i].End())
  }

  /** No batch could have taken the event after it. */
  ghost predicate IsMaximal(s: seq<PutEvent>, batches: seq<Batch>) {
    forall i | 0 <= i < |batches| :: batches[i].End() < |s| ==> !Fits(s, batches[i].offset, batches[i].End() + 1)
  }

  lemma {:induction false} ChargeMonotone(s: seq<PutEvent>, lo: nat, lo': nat, hi': nat, hi: nat)
    requires lo <= lo' <= hi' <= hi <= |s|
    ensures Charge(s, lo', hi') <= Charge(s, lo, hi)
    decreases hi
  {
    if hi' < hi {
      ChargeMonotone(s, lo, lo', hi', hi - 1);
    } else if lo' < hi' {
      ChargeMonotone(s, lo, lo', hi' - 1, hi - 1);
    }
  }

  /** Part of an acceptable request is an acceptable request. */
  lemma FitsShrinks(s: seq<PutEvent>, lo: nat, lo': nat, hi': nat, hi: nat)
    requires lo <= lo' < hi' <= hi <= |s| && Fits(s, lo, hi)
    ensures Fits(s, lo', hi')
  {
    ChargeMonotone(s, lo, lo', hi', hi);
  }

  /** Greedy stays ahead: its k-th batch ends no earlier than any other partition's k-th batch. */
  lemma {:induction false} GreedyStaysAhead(s: seq<PutEvent>, greedy: seq<Batch>, other: seq<Batch>, k: nat)
    requires IsPartition(s, greedy) && IsMaximal(s, greedy) && IsPartition(s, other)
    requires k < |greedy| && k < |other|
    ensures other[k].End() <= greedy[k].End()
  {
    hide Fits, Start;
    StartNext(greedy, if k > 0 then k - 1 else 0);
    StartNext(other, if k > 0 then k - 1 else 0);
    if k > 0 {
      GreedyStaysAhead(s, greedy, other, k - 1);
    }
    assert other[k].offset == Start(other, k) <= Start(greedy, k) == greedy[k].offset;
    if greedy[k].End() < other[k].End() {
      FitsShrinks(s, other[k].offset, greedy[k].offset, greedy[k].End() + 1, other[k].End());
    }
  }

  /** No contiguous partition of the events into acceptable requests uses fewer requests. */
  lemma GreedyIsOptimal(s: seq<PutEvent>, greedy: seq<Batch>, other: seq<Batch>)
    requires IsPartition(s, greedy) && IsMaximal(s, greedy) && IsPartition(s, other)
    ensures |greedy| <= |other|
  {
    hide Fits, Start;
    var k := |other|;
    if k < |greedy| {
      assert Start(greedy, k) == greedy[k].offset < greedy[k].End() <= |s|;
      if k > 0 {
        GreedyStaysAhead(s, greedy, other, k - 1);
        StartNext(greedy, k - 1);
        StartNext(other, k - 1);
      } else {
        StartZero(other);
      }
    }
  }

  // ---------- the planner ----------

  /** std::stable_sort, a library call: the array takes the one stable order of its contents. */
  method StableSortInPlace(events: array<PutEvent>)
    modifies events
    ensures events[..] == StableSort(old(events[..]))
  {
    var sorted := StableSort(events[..]);
    assert |sorted| == events.Length by {
      StableSortIsStable(events[..]);
      assert |multiset(sorted)| == |multiset(events[..])|;
    }
    forall i | 0 <= i < events.Length {
      events[i] := sorted[i];
    }
    assert events[..] == sorted;
  }

  method ValidateEvents(events: array<PutEvent>) returns (error: Option<PlanError>)
    ensures error == FirstError(events[..])
  {
    for i := 0 to events.Length
      invariant FirstError(events[..]) == FirstError(events[i..])
    {
      error := Check(events[i]);
      if error.Some? {
        return;
      }
      assert events[i..][1..] == events[i + 1..];
    }
    error := None;
  }

  /** In sorted order only the first and the last event decide the span. */
  lemma FitsNext(s: seq<PutEvent>, lo: nat, hi: nat)
    requires Sorted(s) && lo <= hi < |s|
    requires hi == lo || Fits(s, lo, hi)
    ensures Fits(s, lo, hi + 1) <==>
            hi + 1 - lo <= MAX_EVENTS && Charge(s, lo, hi + 1) <= MAX_BYTES && s[hi].timestampMs - s[lo].timestampMs <= MAX_SPAN_MS
  {
  }

  /** The inner loop: take events until the next one would break a limit. */
  method GrowBatch(events: array<PutEvent>, offset: nat) returns (end: nat)
    requires offset < events.Length
    requires Sorted(events[..]) && AllValid(events[..])
    ensures offset < end <= events.Length
    ensures Fits(events[..], offset, end)
    ensures end < events.Length ==> !Fits(events[..], offset, end + 1)
  {
    ghost var s := events[..];
    end := offset;
    var bytes := 0;
    var firstTimestamp := events[offset].timestampMs;
    while end < events.Length && end - offset < MAX_EVENTS
      invariant offset <= end <= events.Length
      invariant bytes == Charge(s, offset, end)
      invariant end > offset ==> Fits(s, offset, end)
    {
      FitsNext(s, offset, end);
      assert Check(s[end]).None? && s[end] == events[end];
      var eventBytes := |events[end].message| + EVENT_OVERHEAD;
      if end > offset && bytes + eventBytes > MAX_BYTES {
        break;
      }
      // Guarded so that firstTimestamp + MAX_SPAN_MS stays inside int64.
      if end > offset && firstTimestamp <= INT64_MAX - MAX_SPAN_MS && events[end].timestampMs > firstTimestamp + MAX_SPAN_MS {
        break;
      }
      bytes := bytes + eventBytes;
      end := end + 1;
    }
  }

  /** The outer loop over a sorted, validated array. */
  method PlanSorted(events: array<PutEvent>) returns (batches: seq<Batch>)
    requires Sorted(events[..]) && AllValid(events[..])
    ensures IsPartition(events[..], batches) && IsMaximal(events[..], batches)
  {
    hide Fits, Start;
    batches := [];
    var offset := 0;
    StartZero(batches);
    while offset < events.Length
      invariant offset <= events.Length
      invariant Tiles(batches, offset)
      invariant forall i | 0 <= i < |batches| :: Fits(events[..], batches[i].offset, batches[i].End())
      invariant IsMaximal(events[..], batches)
    {
      var end := GrowBatch(events, offset);
      TilesAppend(batches, offset, end);
      batches := batches + [Batch(offset, end - offset)];
      offset := end;
    }
  }

  lemma StillValid(input: seq<PutEvent>, sorted: seq<PutEvent>)
    requires AllValid(input) && multiset(sorted) == multiset(input)
    ensures AllValid(sorted)
  {
    forall i | 0 <= i < |sorted| ensures Check(sorted[i]).None? {
      assert sorted[i] in multiset(input);
    }
  }

  method SortAndPlanCloudwatchPutEvents(events: array<PutEvent>) returns (r: Result<seq<Batch>, PlanError>)
    modifies events
    ensures r.Ok? <==> AllValid(old(events[..]))
    ensures r.Err? ==> FirstError(old(events[..])) == Some(r.error) && events[..] == old(events[..])
    ensures r.Ok? ==> events[..] == StableSort(old(events[..])) && IsStableSortOf(events[..], old(events[..]))
    ensures r.Ok? ==> IsPartition(events[..], r.value) && IsMaximal(events[..], r.value)
  {
    var invalid := ValidateEvents(events);
    if invalid.Some? {
      return Err(invalid.value);
    }
    ghost var input := events[..];
    StableSortInPlace(events);
    StableSortIsStable(input);
    StillValid(input, events[..]);
    var batches := PlanSorted(events);
    r := Ok(batches);
  }
}
