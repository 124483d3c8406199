/** Write on a store that does not change and a server that accepts: which
    ranges it walks, how many, and in which order the samples of each series
    arrive. */
module FixedStore {
  import opened Options
  import opened GoTime
  import opened SampleRequests
  import opened RequestSending
  import opened RemoteWriting

  type Range = (int, int)

  /** The ranges that Write walks from cursor `last` on. */
  function Ranges(last: int, min: int, max: int, duration: int): seq<Range>
    requires 0 <= duration
    decreases max - last
  {
    if max <= last then []
    else
      var end := RangeEnd(last, min, max, duration);
      [(RangeStart(last, min), end)] + Ranges(end, min, max, duration)
  }

  predicate Aligned(instant: int) {
    instant % NANOS_PER_MILLI == 0
  }

  /** Ranges follow each other without gap or overlap. */
  predicate Contiguous(ranges: seq<Range>) {
    forall k :: 0 <= k < |ranges| - 1 ==> ranges[k + 1].0 == ranges[k].1 + NANOS_PER_MILLI
  }

  /** All ranges but the last have full length; the last is no longer. */
  predicate FullLength(ranges: seq<Range>, duration: int) {
    && (forall k :: 0 <= k < |ranges| - 1 ==> ranges[k].1 == ranges[k].0 + duration)
    && (forall k :: 0 <= k < |ranges| ==> ranges[k].0 <= ranges[k].1 <= ranges[k].0 + duration)
  }

  /** The readings the results below are about. */
  predicate AlignedReadings(last: int, min: int, max: int, duration: int) {
    && 0 <= duration && min <= max && last < max
    && Aligned(last) && Aligned(min) && Aligned(max) && Aligned(duration)
  }

  lemma FirstRange(last: int, min: int, max: int, duration: int)
    requires AlignedReadings(last, min, max, duration)
    ensures
      var start := RangeStart(last, min);
      var end := RangeEnd(last, min, max, duration);
      && start <= end <= max && Aligned(start) && Aligned(end)
      && (end < max ==>
          && end == start + duration
          && AlignedReadings(end, min, max, duration)
          && RangeStart(end, min) == end + NANOS_PER_MILLI)
  {
  }

  lemma {:induction false} RangesShape(last: int, min: int, max: int, duration: int)
    requires AlignedReadings(last, min, max, duration)
    ensures
      var ranges := Ranges(last, min, max, duration);
      && ranges != []
      && ranges[0].0 == RangeStart(last, min)
      && ranges[|ranges| - 1].1 == max
      && Contiguous(ranges) && FullLength(ranges, duration)
      && forall k :: 0 <= k < |ranges| ==> Aligned(ranges[k].0) && Aligned(ranges[k].1)
    decreases max - last
  {
    FirstRange(last, min, max, duration);
    var end := RangeEnd(last, min, max, duration);
    if end < max {
      RangesShape(end, min, max, duration);
    } else {
      assert Ranges(end, min, max, duration) == [];
    }
  }

  lemma {:induction false} RangesCount(last: int, min: int, max: int, duration: int)
    requires AlignedReadings(last, min, max, duration)
    ensures RangeStart(last, min) <= max
    ensures |Ranges(last, min, max, duration)|
         == CeilDiv(max - RangeStart(last, min) + NANOS_PER_MILLI, duration + NANOS_PER_MILLI)
    decreases max - last
  {
    FirstRange(last, min, max, duration);
    var end := RangeEnd(last, min, max, duration);
    var span, stride := max - RangeStart(last, min) + NANOS_PER_MILLI, duration + NANOS_PER_MILLI;
    if end < max {
      RangesCount(end, min, max, duration);
      DivStep(span, stride);
    } else {
      assert Ranges(end, min, max, duration) == [];
      QuotientIsUnique(span, stride, if span == stride then 1 else 0);
    }
  }

  /** On millisecond-aligned readings the ranges cover exactly the instants from
      the first unsent one to the newest, without gap or overlap, at most
      `duration` long; their number is the span divided by the stride, rounded
      up; so the loop ends. */
  lemma RangesCoverExactly(last: int, min: int, max: int, duration: int)
    requires AlignedReadings(last, min, max, duration)
    ensures
      var ranges := Ranges(last, min, max, duration);
      && RangeStart(last, min) <= max
      && |ranges| == CeilDiv(max - RangeStart(last, min) + NANOS_PER_MILLI, duration + NANOS_PER_MILLI)
      && 0 < |ranges|
      && ranges[0].0 == Max(last + NANOS_PER_MILLI, min) && ranges[|ranges| - 1].1 == max
      && Contiguous(ranges) && FullLength(ranges, duration)
  {
    RangesShape(last, min, max, duration);
    RangesCount(last, min, max, duration);
  }

  // ------------------------------------------------------------- the run

  type Query = (int, int) -> Option<seq<Series>>

  /** Looks at a store that stays the same. */
  ghost predicate SameStore(looks: seq<Look>, q: Query, min: int, max: int) {
    forall look <- looks :: look.maxTime == max && look.minTime == Some(min) && look.query == q
  }

  function Answer(s: Settings, q: Query, r: Range): seq<Series> {
    match q(ToDbTime(r.0), ToDbTime(r.1))
    case None => []
    case Some(series) => Relabel(s.deviceID, series)
  }

  /** The requests of all ranges, in order. */
  function RangeRequests(s: Settings, n: int, q: Query, ranges: seq<Range>): seq<Request>
    requires 0 < n
  {
    if ranges == [] then []
    else Requests(Answer(s, q, ranges[0]), n) + RangeRequests(s, n, q, ranges[1..])
  }

  lemma AllAcceptedSum(a: seq<Request>, b: seq<Request>)
    ensures AllAccepted(a) + AllAccepted(b) == AllAccepted(a + b)
  {
  }

  lemma IterateAccepted(s: Settings, n: int, w: Writer, look: Look)
    requires 0 < n && look.minTime.Some?
    requires forall lo, hi :: look.query(lo, hi).Some?
    requires forall i: nat :: |w.log| <= i ==> s.script(i) == Accepted
    ensures
      var start := RangeStart(w.lastWrite, look.minTime.value);
      var end := RangeEnd(w.lastWrite, look.minTime.value, look.maxTime, s.rangeDuration);
      var (w', more) := Iterate(s, n, w, look);
      && more
      && w'.lastWrite == end
      && w'.log == w.log + AllAccepted(Requests(Answer(s, look.query, (start, end)), n))
  {
    var start := RangeStart(w.lastWrite, look.minTime.value);
    var end := RangeEnd(w.lastWrite, look.minTime.value, look.maxTime, s.rangeDuration);
    SendAllAccepted(w.log, s.script, Requests(Answer(s, look.query, (start, end)), n));
  }

  /** The call of Write sends the requests of all ranges, each exactly once, in
      order, and leaves the cursor at the newest instant. */
  lemma {:induction false} WriteSendsAllRanges(s: Settings, n: int, w: Writer, looks: seq<Look>, k: nat,
                                               q: Query, min: int, max: int)
    requires 0 < n && 0 <= s.rangeDuration && SameStore(looks, q, min, max)
    requires forall lo, hi :: q(lo, hi).Some?
    requires forall i: nat :: |w.log| <= i ==> s.script(i) == Accepted
    requires k + |Ranges(w.lastWrite, min, max, s.rangeDuration)| <= |looks|
    ensures
      var w' := WriteFrom(s, n, w, looks, k);
      var ranges := Ranges(w.lastWrite, min, max, s.rangeDuration);
      && w'.log == w.log + AllAccepted(RangeRequests(s, n, q, ranges))
      && w'.lastWrite == Max(w.lastWrite, max)
    decreases max - w.lastWrite
  {
    hide Iterate, Requests, SendAll;
    var ranges := Ranges(w.lastWrite, min, max, s.rangeDuration);
    if max <= w.lastWrite {
      assert AllAccepted([]) == [];
    } else {
      var look := looks[k];
      var end := RangeEnd(w.lastWrite, min, max, s.rangeDuration);
      IterateAccepted(s, n, w, look);
      var w1 := Iterate(s, n, w, look).0;
      var here := Requests(Answer(s, q, ranges[0]), n);
      var rest := Ranges(end, min, max, s.rangeDuration);
      assert ranges[1..] == rest;
      assert w1.log == w.log + AllAccepted(here);
      WriteSendsAllRanges(s, n, w1, looks, k + 1, q, min, max);
      AllAcceptedSum(here, RangeRequests(s, n, q, rest));
    }
  }

  // ------------------------------------------------ order within a series

  /** The samples sent under one set of labels. */
  function Only(flat: seq<Labelled>, labels: Labels): seq<DataPoint> {
    if flat == [] then []
    else (if flat[0].0 == labels then [flat[0].1] else []) + Only(flat[1..], labels)
  }

  function InRange(points: seq<DataPoint>, lo: int, hi: int): seq<DataPoint> {
    if points == [] then []
    else (if lo <= points[0].time <= hi then [points[0]] else []) + InRange(points[1..], lo, hi)
  }

  predicate Increasing(points: seq<DataPoint>) {
    forall i, j :: 0 <= i < j < |points| ==> points[i].time < points[j].time
  }

  lemma {:induction false} OnlySum(a: seq<Labelled>, b: seq<Labelled>, labels: Labels)
    ensures Only(a + b, labels) == Only(a, labels) + Only(b, labels)
  {
    if a == [] {
      assert a + b == b;
    } else {
      assert (a + b)[0] == a[0] && (a + b)[1..] == a[1..] + b;
      OnlySum(a[1..], b, labels);
      var first := if a[0].0 == labels then [a[0].1] else [];
      assert Only(a + b, labels) == first + (Only(a[1..], labels) + Only(b, labels));
    }
  }

  lemma {:induction false} JoinedSum(a: seq<Request>, b: seq<Request>)
    ensures Joined(a + b) == Joined(a) + Joined(b)
  {
    if a == [] {
      assert a + b == b;
    } else {
      assert (a + b)[1..] == a[1..] + b;
      JoinedSum(a[1..], b);
    }
  }

  lemma {:induction false} InRangeHas(points: seq<DataPoint>, lo: int, hi: int, p: DataPoint)
    ensures p in InRange(points, lo, hi) <==> p in points && lo <= p.time <= hi
  {
    if points != [] {
      InRangeHas(points[1..], lo, hi, p);
      assert p in points <==> p == points[0] || p in points[1..];
    }
  }

  lemma {:induction false} InRangeIncreasing(points: seq<DataPoint>, lo: int, hi: int)
    requires Increasing(points)
    ensures Increasing(InRange(points, lo, hi))
  {
    if points != [] {
      var rest := InRange(points[1..], lo, hi);
      InRangeIncreasing(points[1..], lo, hi);
      forall j | 0 <= j < |rest|
        ensures points[0].time < rest[j].time
      {
        InRangeHas(points[1..], lo, hi, rest[j]);
      }
    }
  }

  /** Neighbouring ranges of a sorted series put together. */
  lemma {:induction false} InRangeSplit(points: seq<DataPoint>, lo: int, mid: int, hi: int)
    requires Increasing(points) && lo <= mid + 1 && mid <= hi
    ensures InRange(points, lo, mid) + InRange(points, mid + 1, hi) == InRange(points, lo, hi)
  {
    if points != [] {
      InRangeSplit(points[1..], lo, mid, hi);
      if mid < points[0].time {
        InRangeEmpty(points[1..], lo, mid);
      }
    }
  }

  lemma {:induction false} InRangeEmpty(points: seq<DataPoint>, lo: int, hi: int)
    requires forall p <- points :: hi < p.time
    ensures InRange(points, lo, hi) == []
  {
    if points != [] {
      InRangeEmpty(points[1..], lo, hi);
    }
  }

  /** What the store holds under each set of labels, oldest first; the writer's
      own label is not in use. */
  type Stored = Labels -> seq<DataPoint>

  ghost predicate Answers(q: Query, stored: Stored) {
    && (forall labels :: Increasing(stored(labels)))
    && (forall lo, hi :: q(lo, hi).Some?)
    && (forall lo, hi, labels :: Only(Flat(q(lo, hi).value), labels) == InRange(stored(labels), lo, hi))
    && (forall lo, hi :: NoDeviceLabel(q(lo, hi).value))
  }

  ghost predicate NoDeviceLabel(series: seq<Series>) {
    forall s <- series :: DEVICE_LABEL !in s.labels
  }

  lemma {:induction false} OnlyTagged(tag: Labels, points: seq<DataPoint>, labels: Labels)
    ensures Only(Tagged(tag, points), labels) == if tag == labels then points else []
  {
    if points != [] {
      assert Tagged(tag, points)[1..] == Tagged(tag, points[1..]);
      OnlyTagged(tag, points[1..], labels);
    }
  }

  lemma WithDeviceInjective(deviceID: string, a: Labels, b: Labels)
    requires DEVICE_LABEL !in a && DEVICE_LABEL !in b
    ensures WithDevice(deviceID, a) == WithDevice(deviceID, b) <==> a == b
  {
    assert WithDevice(deviceID, a) - {DEVICE_LABEL} == a;
    assert WithDevice(deviceID, b) - {DEVICE_LABEL} == b;
  }

  lemma {:induction false} OnlyRelabel(deviceID: string, series: seq<Series>, labels: Labels)
    requires NoDeviceLabel(series) && DEVICE_LABEL !in labels
    ensures Only(Flat(Relabel(deviceID, series)), WithDevice(deviceID, labels)) == Only(Flat(series), labels)
  {
    if series != [] {
      var s := series[0];
      assert Relabel(deviceID, series)[1..] == Relabel(deviceID, series[1..]);
      OnlyRelabel(deviceID, series[1..], labels);
      OnlySum(Tagged(s.labels, s.points), Flat(series[1..]), labels);
      OnlySum(Tagged(WithDevice(deviceID, s.labels), s.points), Flat(Relabel(deviceID, series[1..])),
              WithDevice(deviceID, labels));
      OnlyTagged(s.labels, s.points, labels);
      OnlyTagged(WithDevice(deviceID, s.labels), s.points, WithDevice(deviceID, labels));
      WithDeviceInjective(deviceID, s.labels, labels);
    }
  }

  lemma AlignedDbTime(instant: int)
    requires Aligned(instant) && IsInt64(instant)
    ensures ToDbTime(instant) * NANOS_PER_MILLI == instant
  {
  }

  /** Ranges inside 64 bits, aligned and contiguous. */
  predicate GoodRanges(ranges: seq<Range>) {
    && Contiguous(ranges)
    && forall r <- ranges :: Aligned(r.0) && Aligned(r.1) && IsInt64(r.0) && IsInt64(r.1) && r.0 <= r.1
  }

  lemma SeriesInRange(s: Settings, n: int, q: Query, stored: Stored, r: Range, labels: Labels)
    requires 0 < n && Answers(q, stored) && DEVICE_LABEL !in labels
    ensures Only(Joined(Requests(Answer(s, q, r), n)), WithDevice(s.deviceID, labels))
         == InRange(stored(labels), ToDbTime(r.0), ToDbTime(r.1))
  {
    hide Requests, Relabel, Only, InRange, Flat;
    var series := q(ToDbTime(r.0), ToDbTime(r.1)).value;
    RequestsConserveSamples(Relabel(s.deviceID, series), n);
    OnlyRelabel(s.deviceID, series, labels);
  }

  lemma RangeDbTimes(ranges: seq<Range>)
    requires GoodRanges(ranges) && |ranges| > 1
    ensures ToDbTime(ranges[1].0) == ToDbTime(ranges[0].1) + 1
    ensures ToDbTime(ranges[0].0) <= ToDbTime(ranges[0].1) <= ToDbTime(ranges[|ranges| - 1].1)
  {
    hide ToDbTime;
    AlignedDbTime(ranges[0].0);
    AlignedDbTime(ranges[0].1);
    AlignedDbTime(ranges[1].0);
    AlignedDbTime(ranges[|ranges| - 1].1);
    LaterEnd(ranges);
  }

  lemma {:induction false} SeriesOverRanges(s: Settings, n: int, q: Query, stored: Stored, ranges: seq<Range>,
                                            labels: Labels)
    requires 0 < n && Answers(q, stored) && GoodRanges(ranges) && ranges != [] && DEVICE_LABEL !in labels
    ensures Only(Joined(RangeRequests(s, n, q, ranges)), WithDevice(s.deviceID, labels))
         == InRange(stored(labels), ToDbTime(ranges[0].0), ToDbTime(ranges[|ranges| - 1].1))
    decreases |ranges|
  {
    hide Requests, Answer, Only, Joined, InRange, ToDbTime, WithDevice;
    var here := Requests(Answer(s, q, ranges[0]), n);
    var rest := RangeRequests(s, n, q, ranges[1..]);
    SeriesInRange(s, n, q, stored, ranges[0], labels);
    if |ranges| == 1 {
      assert here + rest == here;
    } else {
      JoinedSum(here, rest);
      OnlySum(Joined(here), Joined(rest), WithDevice(s.deviceID, labels));
      SeriesOverRanges(s, n, q, stored, ranges[1..], labels);
      RangeDbTimes(ranges);
      InRangeSplit(stored(labels), ToDbTime(ranges[0].0), ToDbTime(ranges[0].1), ToDbTime(ranges[|ranges| - 1].1));
    }
  }

  lemma {:induction false} LaterEnd(ranges: seq<Range>)
    requires GoodRanges(ranges) && ranges != []
    ensures ranges[0].1 <= ranges[|ranges| - 1].1
  {
    if |ranges| > 1 {
      LaterEnd(ranges[1..]);
    }
  }

  /** Section "Ordering" of the Prometheus Remote-Write Specification 1.0, over
      a whole call of Write: under every set of labels, the samples arrive in
      strictly increasing time, and they are exactly the stored samples from
      the first unsent instant to the newest, each sent once. */
  lemma EachSeriesArrivesInOrder(s: Settings, n: int, w: Writer, looks: seq<Look>,
                                 q: Query, stored: Stored, min: int, max: int, labels: Labels)
    requires 0 < n && AlignedReadings(w.lastWrite, min, max, s.rangeDuration)
    requires IsInt64(min) && IsInt64(max) && Answers(q, stored) && SameStore(looks, q, min, max)
    requires |Ranges(w.lastWrite, min, max, s.rangeDuration)| <= |looks|
    requires forall i: nat :: |w.log| <= i ==> s.script(i) == Accepted
    requires DEVICE_LABEL !in labels
    ensures
      var w' := WriteCall(s, n, w, looks);
      var sent := RangeRequests(s, n, q, Ranges(w.lastWrite, min, max, s.rangeDuration));
      var points := Only(Joined(sent), WithDevice(s.deviceID, labels));
      && w'.lastWrite == max
      && w'.log == w.log + AllAccepted(sent)
      && points == InRange(stored(labels), ToDbTime(RangeStart(w.lastWrite, min)), ToDbTime(max))
      && Increasing(points)
  {
    hide Iterate, Requests, Ranges, RangeRequests, Only, Joined, InRange, ToDbTime, WithDevice;
    var ranges := Ranges(w.lastWrite, min, max, s.rangeDuration);
    WriteSendsAllRanges(s, n, w, looks, 0, q, min, max);
    RangesShape(w.lastWrite, min, max, s.rangeDuration);
    RangesInBounds(w.lastWrite, min, max, s.rangeDuration);
    SeriesOverRanges(s, n, q, stored, ranges, labels);
    InRangeIncreasing(stored(labels), ToDbTime(RangeStart(w.lastWrite, min)), ToDbTime(max));
  }

  lemma {:induction false} RangesInBounds(last: int, min: int, max: int, duration: int)
    requires AlignedReadings(last, min, max, duration)
    ensures forall r <- Ranges(last, min, max, duration) :: min <= r.0 <= r.1 <= max
    decreases max - last
  {
    FirstRange(last, min, max, duration);
    var end := RangeEnd(last, min, max, duration);
    if end < max {
      RangesInBounds(end, min, max, duration);
    } else {
      assert Ranges(end, min, max, duration) == [];
    }
  }
}
