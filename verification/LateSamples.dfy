/** Samples that are added to the store behind what was already seen: exactly when a
    range, and when a run, puts first arrivals out of order, and a run in which it
    happens. */
module LateSamples {
  import opened Options
  import opened GoTime
  import opened SampleRequests
  import opened RequestSending
  import opened RemoteWriting
  import opened Delivery
  import opened ArrivalOrder
  import FixedStore

  /** The sample is newer than the base and has not arrived. */
  ghost predicate IsNew(s: Settings, base: int, flow: seq<Labelled>, x: Labelled) {
    base < Nanos(x) && 0 < x.1.time && Sent(s, x) !in flow
  }

  /** Every sample of the range that is new to the server is newer than what has
      arrived of its series. */
  ghost predicate NothingLate(s: Settings, base: int, flow: seq<Labelled>, f: seq<Labelled>, m: nat)
    requires m <= |f|
  {
    forall j, z :: 0 <= j < m && z in flow && z.0 == Sent(s, f[j]).0 && IsNew(s, base, flow, f[j]) ==>
      z.1.time < f[j].1.time
  }

  lemma FirstOfRange(s: Settings, flow: seq<Labelled>, f: seq<Labelled>, m: nat, j: nat)
    requires j < m <= |f| && Sorted(f) && (forall i :: 0 <= i < |f| ==> DEVICE_LABEL !in f[i].0)
    ensures
      var all := flow + AllSent(s, f)[..m];
      all[|flow| + j] == Sent(s, f[j]) && (all[|flow| + j] in all[..|flow| + j] <==> Sent(s, f[j]) in flow)
  {
    var all := flow + AllSent(s, f)[..m];
    assert all[..|flow| + j] == flow + AllSent(s, f)[..j];
    forall i | 0 <= i < j ensures AllSent(s, f)[i] != Sent(s, f[j]) {
      SameSeries(s, f[i], f[j]);
    }
  }

  lemma NothingLateInOrder(s: Settings, base: int, flow: seq<Labelled>, f: seq<Labelled>, m: nat, i: nat, j: nat)
    requires FirstInOrder(flow, base) && m <= |f| && NothingLate(s, base, flow, f, m)
    requires Sorted(f) && (forall k :: 0 <= k < |f| ==> DEVICE_LABEL !in f[k].0)
    requires
      var all := flow + AllSent(s, f)[..m];
      i < j < |all| && all[i].0 == all[j].0 && FirstAt(all, j, base)
    ensures
      var all := flow + AllSent(s, f)[..m];
      all[i].1.time < all[j].1.time
  {
    var all, n := flow + AllSent(s, f)[..m], |flow|;
    if j < n {
      assert all[..j] == flow[..j] && all[i] == flow[i] && FirstAt(flow, j, base);
    } else {
      FirstOfRange(s, flow, f, m, j - n);
      if i < n {
        assert all[i] == flow[i];
        assert IsNew(s, base, flow, f[j - n]);
      } else {
        assert all[i] == Sent(s, f[i - n]);
        SameSeries(s, f[i - n], f[j - n]);
      }
    }
  }

  lemma LateBreaksOrder(s: Settings, base: int, flow: seq<Labelled>, f: seq<Labelled>, m: nat, j: nat, z: Labelled)
    requires j < m <= |f| && Sorted(f) && (forall k :: 0 <= k < |f| ==> DEVICE_LABEL !in f[k].0)
    requires z in flow && z.0 == Sent(s, f[j]).0 && IsNew(s, base, flow, f[j]) && z.1.time >= f[j].1.time
    ensures !FirstInOrder(flow + AllSent(s, f)[..m], base)
  {
    var all, n := flow + AllSent(s, f)[..m], |flow|;
    FirstOfRange(s, flow, f, m, j);
    var i :| 0 <= i < |flow| && flow[i] == z;
    assert all[i] == z && FirstAt(all, n + j, base);
  }

  /** The exact condition for one range: what has arrived in order stays in order if
      and only if nothing in the part of the range that arrives is late. */
  lemma RangeKeepsOrderExactlyWhen(s: Settings, base: int, flow: seq<Labelled>, f: seq<Labelled>, m: nat)
    requires FirstInOrder(flow, base) && m <= |f|
    requires Sorted(f) && (forall i :: 0 <= i < |f| ==> DEVICE_LABEL !in f[i].0)
    ensures FirstInOrder(flow + AllSent(s, f)[..m], base) <==> NothingLate(s, base, flow, f, m)
  {
    hide FirstAt, IsNew, AllSent, Sorted;
    var all := flow + AllSent(s, f)[..m];
    if NothingLate(s, base, flow, f, m) {
      forall i, j | 0 <= i < j < |all| && all[i].0 == all[j].0 && FirstAt(all, j, base)
        ensures all[i].1.time < all[j].1.time
      {
        NothingLateInOrder(s, base, flow, f, m, i, j);
      }
    } else {
      var j, z :| 0 <= j < m && z in flow && z.0 == Sent(s, f[j]).0 && IsNew(s, base, flow, f[j])
        && z.1.time >= f[j].1.time;
      LateBreaksOrder(s, base, flow, f, m, j, z);
    }
  }

  // ------------------------------------------------------------------ whole runs

  /** Each series of an answer is in order of time, without the device label. */
  ghost predicate Tidy(look: Look) {
    forall lo, hi :: look.query(lo, hi).Some? ==> TidyAnswer(Flat(look.query(lo, hi).value))
  }

  ghost predicate TidyAnswer(f: seq<Labelled>) {
    Sorted(f) && forall i :: 0 <= i < |f| ==> DEVICE_LABEL !in f[i].0
  }

  /** The answer of the store for the next range, if there is one. */
  function NextAnswer(s: Settings, w: Writer, look: Look): Option<seq<Series>> {
    if look.minTime.None? then None
    else
      var start := RangeStart(w.lastWrite, look.minTime.value);
      var end := RangeEnd(w.lastWrite, look.minTime.value, look.maxTime, s.rangeDuration);
      look.query(ToDbTime(start), ToDbTime(end))
  }

  /** Nothing is late in the part of the next range that arrives. */
  ghost predicate RangeInTime(s: Settings, base: int, n: int, w: Writer, look: Look)
    requires 0 < n
  {
    NextAnswer(s, w, look).Some? ==>
      var f := Flat(NextAnswer(s, w, look).value);
      var m := |Flow(Iterate(s, n, w, look).0.log)| - |Flow(w.log)|;
      0 <= m <= |f| && NothingLate(s, base, Flow(w.log), f, m)
  }

  ghost predicate CallInTime(s: Settings, base: int, n: int, w: Writer, looks: seq<Look>, k: nat)
    requires 0 < n && k <= |looks|
    decreases |looks| - k
  {
    k == |looks| || looks[k].maxTime <= w.lastWrite ||
    (RangeInTime(s, base, n, w, looks[k])
     && (Iterate(s, n, w, looks[k]).1 ==> CallInTime(s, base, n, Iterate(s, n, w, looks[k]).0, looks, k + 1)))
  }

  /** Nothing was late in any range of the run when it was sent. */
  ghost predicate RunInTime(s: Settings, base: int, w: Writer, events: seq<Event>)
    requires ValidEvents(events)
    decreases |events|
  {
    events == [] ||
    ((events[0].Call? ==> CallInTime(s, base, events[0].n, w, events[0].looks, 0))
     && RunInTime(s, base, Step(s, w, events[0]), events[1..]))
  }

  lemma OrderOfPrefix(a: seq<Labelled>, b: seq<Labelled>, base: int)
    requires a <= b && FirstInOrder(b, base)
    ensures FirstInOrder(a, base)
  {
    forall i, j | 0 <= i < j < |a| && a[i].0 == a[j].0 && FirstAt(a, j, base) ensures a[i].1.time < a[j].1.time {
      assert a[..j] == b[..j] && FirstAt(b, j, base);
    }
  }

  lemma RangeOrder(s: Settings, base: int, n: int, w: Writer, look: Look)
    requires 0 < n && Tidy(look) && FirstInOrder(Flow(w.log), base)
    ensures
      var flow := Flow(Iterate(s, n, w, look).0.log);
      Flow(w.log) <= flow && (FirstInOrder(flow, base) <==> RangeInTime(s, base, n, w, look))
  {
    hide Flow, Flat, Iterate, FirstInOrder, NothingLate, Sorted, ToDbTime;
    IterateStops(s, n, w, look);
    if NextAnswer(s, w, look).Some? {
      var f, m := IterateFlow(s, n, w, look);
      assert TidyAnswer(f);
      RangeKeepsOrderExactlyWhen(s, base, Flow(w.log), f, m);
    }
  }

  lemma {:induction false} CallOrder(s: Settings, base: int, n: int, w: Writer, looks: seq<Look>, k: nat)
    requires 0 < n && k <= |looks| && FirstInOrder(Flow(w.log), base) && forall look <- looks :: Tidy(look)
    ensures
      var flow := Flow(WriteFrom(s, n, w, looks, k).log);
      Flow(w.log) <= flow && (FirstInOrder(flow, base) <==> CallInTime(s, base, n, w, looks, k))
    decreases |looks| - k
  {
    hide Flow, Iterate, FirstInOrder, RangeInTime, Tidy;
    if k < |looks| && looks[k].maxTime > w.lastWrite {
      assert looks[k] in looks;
      RangeOrder(s, base, n, w, looks[k]);
      var (w', more) := Iterate(s, n, w, looks[k]);
      if more {
        CallGrows(s, n, w', looks, k + 1);
        if FirstInOrder(Flow(w'.log), base) {
          CallOrder(s, base, n, w', looks, k + 1);
        } else if FirstInOrder(Flow(WriteFrom(s, n, w', looks, k + 1).log), base) {
          OrderOfPrefix(Flow(w'.log), Flow(WriteFrom(s, n, w', looks, k + 1).log), base);
        }
      }
    }
  }

  lemma RangeGrows(s: Settings, n: int, w: Writer, look: Look)
    requires 0 < n
    ensures Flow(w.log) <= Flow(Iterate(s, n, w, look).0.log)
  {
    hide Flow, Flat, Iterate, ToDbTime;
    IterateStops(s, n, w, look);
    if NextAnswer(s, w, look).Some? {
      var f, m := IterateFlow(s, n, w, look);
    }
  }

  lemma {:induction false} CallGrows(s: Settings, n: int, w: Writer, looks: seq<Look>, k: nat)
    requires 0 < n && k <= |looks|
    ensures Flow(w.log) <= Flow(WriteFrom(s, n, w, looks, k).log)
    decreases |looks| - k
  {
    hide Flow, Iterate;
    if k < |looks| && looks[k].maxTime > w.lastWrite {
      RangeGrows(s, n, w, looks[k]);
      CallGrows(s, n, Iterate(s, n, w, looks[k]).0, looks, k + 1);
    }
  }

  lemma {:induction false} RunGrows(s: Settings, w: Writer, events: seq<Event>)
    requires ValidEvents(events)
    ensures Flow(w.log) <= Flow(Run(s, w, events).log)
    decreases |events|
  {
    hide Flow, WriteFrom;
    if events != [] {
      if events[0].Call? {
        CallGrows(s, events[0].n, w, events[0].looks, 0);
      }
      RunGrows(s, Step(s, w, events[0]), events[1..]);
    }
  }

  ghost predicate TidyEvents(events: seq<Event>) {
    forall e <- events :: e.Call? ==> forall look <- e.looks :: Tidy(look)
  }

  /** The exact condition over whole runs, with any replies, any additions to the store
      and any restarts: first arrivals are in order if and only if nothing was late in
      any range of the run when it was sent. */
  lemma {:induction false} RunInOrderExactlyWhen(s: Settings, base: int, w: Writer, events: seq<Event>)
    requires ValidEvents(events) && TidyEvents(events) && FirstInOrder(Flow(w.log), base)
    ensures FirstInOrder(Flow(Run(s, w, events).log), base) <==> RunInTime(s, base, w, events)
    decreases |events|
  {
    hide Flow, WriteFrom, FirstInOrder, CallInTime, Tidy;
    if events != [] {
      var e := events[0];
      assert e in events;
      var w' := Step(s, w, e);
      if e.Call? {
        CallOrder(s, base, e.n, w, e.looks, 0);
      }
      RunGrows(s, w', events[1..]);
      if FirstInOrder(Flow(w'.log), base) {
        RunInOrderExactlyWhen(s, base, w', events[1..]);
      } else if FirstInOrder(Flow(Run(s, w', events[1..]).log), base) {
        OrderOfPrefix(Flow(w'.log), Flow(Run(s, w', events[1..]).log), base);
      }
    }
  }

  // ------------------------------------------------------------ a concrete late sample

  const SERIES_A: Labels := map["series" := "a"]
  const SERIES_B: Labels := map["series" := "b"]

  function At(time: int): DataPoint {
    DataPoint(time, 0.0)
  }

  /** The store with these samples under the two series. */
  ghost function StoreWith(a: seq<DataPoint>, b: seq<DataPoint>): Store {
    iset x: Labelled | (x.0 == SERIES_A && x.1 in a) || (x.0 == SERIES_B && x.1 in b)
  }

  function RangeOf(a: seq<DataPoint>, b: seq<DataPoint>, lo: int, hi: int): seq<Series> {
    [Series(SERIES_A, FixedStore.InRange(a, lo, hi)), Series(SERIES_B, FixedStore.InRange(b, lo, hi))]
  }

  /** A look at it; the cursor is not saved afterwards. */
  ghost function LookAt(a: seq<DataPoint>, b: seq<DataPoint>, min: int, max: int): Look {
    Look(max * NANOS_PER_MILLI, Some(min * NANOS_PER_MILLI), (lo, hi) => Some(RangeOf(a, b, lo, hi)), Kept,
         StoreWith(a, b), StoreWith(a, b))
  }

  lemma FlatRange(a: seq<DataPoint>, b: seq<DataPoint>, lo: int, hi: int)
    ensures Flat(RangeOf(a, b, lo, hi))
         == Tagged(SERIES_A, FixedStore.InRange(a, lo, hi)) + Tagged(SERIES_B, FixedStore.InRange(b, lo, hi))
  {
    hide FixedStore.InRange;
    var r := RangeOf(a, b, lo, hi);
    assert r[1..] == [r[1]] && r[1..][1..] == [];
    assert Flat(r[1..]) == Tagged(SERIES_B, r[1].points) + Flat([]);
  }

  lemma RangeHas(a: seq<DataPoint>, b: seq<DataPoint>, lo: int, hi: int, x: Labelled)
    ensures x in Flat(RangeOf(a, b, lo, hi)) <==> x in StoreWith(a, b) && lo <= x.1.time <= hi
  {
    hide FixedStore.InRange, Flat;
    FlatRange(a, b, lo, hi);
    FixedStore.InRangeHas(a, lo, hi, x.1);
    FixedStore.InRangeHas(b, lo, hi, x.1);
    TaggedHas(SERIES_A, FixedStore.InRange(a, lo, hi), x);
    TaggedHas(SERIES_B, FixedStore.InRange(b, lo, hi), x);
  }

  lemma TaggedHas(labels: Labels, points: seq<DataPoint>, x: Labelled)
    ensures x in Tagged(labels, points) <==> x.0 == labels && x.1 in points
  {
    if x.0 == labels && x.1 in points {
      var i :| 0 <= i < |points| && points[i] == x.1;
      assert Tagged(labels, points)[i] == x;
    }
  }

  lemma SeriesDiffer()
    ensures SERIES_A != SERIES_B && DEVICE_LABEL !in SERIES_A && DEVICE_LABEL !in SERIES_B
  {
    assert SERIES_A["series"] != SERIES_B["series"];
  }

  /** Such a look is as orderly as any. */
  lemma LookIsOrderly(a: seq<DataPoint>, b: seq<DataPoint>, min: int, max: int)
    requires FixedStore.Increasing(a) && FixedStore.Increasing(b) && 0 <= min <= max < 1000
    requires forall p :: p in a || p in b ==> min <= p.time
    ensures OrderlyLook(LookAt(a, b, min, max))
  {
    hide Flat, FixedStore.InRange, RangeOf;
    var look := LookAt(a, b, min, max);
    SeriesDiffer();
    forall lo, hi ensures Answered(look, lo, hi, Flat(look.query(lo, hi).value)) {
      RangeIsAnswered(a, b, lo, hi, look);
    }
    forall lo, hi, x | look.query(lo, hi).Some? && x in look.atQuery && lo <= x.1.time <= hi
      ensures x in Flat(look.query(lo, hi).value)
    {
      RangeHas(a, b, lo, hi, x);
    }
  }

  lemma RangeIsAnswered(a: seq<DataPoint>, b: seq<DataPoint>, lo: int, hi: int, look: Look)
    requires FixedStore.Increasing(a) && FixedStore.Increasing(b) && look.atQuery == StoreWith(a, b)
    ensures Answered(look, lo, hi, Flat(RangeOf(a, b, lo, hi)))
  {
    hide Flat, FixedStore.InRange, RangeOf;
    SeriesDiffer();
    FlatRange(a, b, lo, hi);
    FixedStore.InRangeIncreasing(a, lo, hi);
    FixedStore.InRangeIncreasing(b, lo, hi);
    var f := Flat(RangeOf(a, b, lo, hi));
    forall i | 0 <= i < |f| ensures f[i] in look.atQuery && lo <= f[i].1.time <= hi && DEVICE_LABEL !in f[i].0 {
      RangeHas(a, b, lo, hi, f[i]);
    }
  }

  /** One call with one look at such a store, while the server accepts. */
  lemma OneLook(s: Settings, w: Writer, a: seq<DataPoint>, b: seq<DataPoint>, min: int, max: int)
    requires 0 <= min <= max < 1000 && w.lastWrite < max * NANOS_PER_MILLI && 0 <= s.rangeDuration
    requires forall i: nat :: s.script(i) == Accepted
    requires w.lastWrite == ZERO_TIME || exists c :: 0 <= c < 1000 && w.lastWrite == c * NANOS_PER_MILLI
    requires max * NANOS_PER_MILLI <= s.rangeDuration
    ensures
      var from := if w.lastWrite == ZERO_TIME then min else Max(w.lastWrite / NANOS_PER_MILLI + 1, min);
      var w' := WriteCall(s, 10, w, [LookAt(a, b, min, max)]);
      && w'.lastWrite == max * NANOS_PER_MILLI && w'.saved == w.saved
      && Flow(w'.log) == Flow(w.log) + AllSent(s, Flat(RangeOf(a, b, from, max)))
  {
    hide Flow, Flat, RangeOf, Iterate, ToDbTime;
    var look := LookAt(a, b, min, max);
    var looks := [look];
    var start := RangeStart(w.lastWrite, look.minTime.value);
    var end := RangeEnd(w.lastWrite, look.minTime.value, look.maxTime, s.rangeDuration);
    var from := if w.lastWrite == ZERO_TIME then min else Max(w.lastWrite / NANOS_PER_MILLI + 1, min);
    assert start == from * NANOS_PER_MILLI && end == max * NANOS_PER_MILLI;
    MillisToDb(from);
    MillisToDb(max);
    FixedStore.IterateAccepted(s, 10, w, look);
    IterateFrame(s, 10, w, look);
    var f, m := IterateFlow(s, 10, w, look);
    var w1 := Iterate(s, 10, w, look).0;
    assert AllSent(s, f)[..m] == AllSent(s, f);
    assert WriteFrom(s, 10, w1, looks, 1) == w1;
  }

  lemma MillisToDb(t: int)
    requires 0 <= t < 2000
    ensures ToDbTime(t * NANOS_PER_MILLI) == t
  {
  }

  /** Series b has a sample at 2 when the store is first looked at. Then series a gets
      samples at 1 and 3, the first of them behind what was seen. */
  const EARLY: seq<DataPoint> := [At(2)]
  const LATE: seq<DataPoint> := [At(1), At(3)]

  ghost const EVENTS: seq<Event> :=
    [Call(10, [LookAt([], EARLY, 2, 2)]), Call(10, [LookAt(LATE, EARLY, 1, 3)]), Restart,
     Call(10, [LookAt(LATE, EARLY, 1, 3)])]

  const SETTINGS := Settings("d", 10 * NANOS_PER_MILLI, i => Accepted)

  const STARTED := Writer(ZERO_TIME, None, [], [])

  lemma ThreeRanges()
    ensures Flat(RangeOf([], EARLY, 2, 2)) == [(SERIES_B, At(2))]
    ensures Flat(RangeOf(LATE, EARLY, 3, 3)) == [(SERIES_A, At(3))]
    ensures Flat(RangeOf(LATE, EARLY, 1, 3)) == [(SERIES_A, At(1)), (SERIES_A, At(3)), (SERIES_B, At(2))]
  {
    hide Flat;
    FlatRange([], EARLY, 2, 2);
    FlatRange(LATE, EARLY, 3, 3);
    FlatRange(LATE, EARLY, 1, 3);
    assert LATE[1..] == [At(3)] && LATE[1..][1..] == [] && EARLY[1..] == [];
  }

  /** What arrives in that run: the sample at 3 of series a, and after the restart,
      which has no saved cursor, the one at 1. */
  lemma LateFlow()
    ensures Flow(Run(SETTINGS, STARTED, EVENTS).log)
         == AllSent(SETTINGS, [(SERIES_B, At(2)), (SERIES_A, At(3)), (SERIES_A, At(1)), (SERIES_A, At(3)),
                               (SERIES_B, At(2))])
  {
    hide Flow, WriteFrom, RangeOf, Flat;
    ThreeRanges();
    OneLook(SETTINGS, STARTED, [], EARLY, 2, 2);
    var w1 := WriteCall(SETTINGS, 10, STARTED, [LookAt([], EARLY, 2, 2)]);
    assert w1.lastWrite == 2 * NANOS_PER_MILLI;
    OneLook(SETTINGS, w1, LATE, EARLY, 1, 3);
    var w2 := WriteCall(SETTINGS, 10, w1, [LookAt(LATE, EARLY, 1, 3)]);
    var w3 := w2.(lastWrite := ZERO_TIME);
    OneLook(SETTINGS, w3, LATE, EARLY, 1, 3);
    var w4 := WriteCall(SETTINGS, 10, w3, [LookAt(LATE, EARLY, 1, 3)]);
    assert EVENTS[1..][1..][1..][1..] == [];
    assert Run(SETTINGS, w3, EVENTS[1..][1..][1..]) == w4;
    assert Run(SETTINGS, w2, EVENTS[1..][1..]) == w4;
    assert Run(SETTINGS, w1, EVENTS[1..]) == w4;
    NoFlow();
  }

  lemma NoFlow()
    ensures Flow([]) == []
  {
  }

  /** Every look of that run is orderly and the server accepts everything, but a sample
      was added behind what had been seen, and first arrivals are out of order. */
  lemma LateSampleArrivesLate()
    ensures JustStarted(STARTED) && ValidEvents(EVENTS)
    ensures forall look <- AllLooks(EVENTS) :: OrderlyLook(look)
    ensures !FirstInOrder(Flow(Run(SETTINGS, STARTED, EVENTS).log), STARTED.lastWrite)
  {
    LooksAreOrderly();
    LateFlow();
    SeriesDiffer();
    hide Run, Flow, AllLooks, OrderlyLook;
    var flow := Flow(Run(SETTINGS, STARTED, EVENTS).log);
    var a1, a3, b2 := (SERIES_A, At(1)), (SERIES_A, At(3)), (SERIES_B, At(2));
    SameSeries(SETTINGS, a1, b2);
    assert flow[..2] == [Sent(SETTINGS, b2), Sent(SETTINGS, a3)];
    assert FirstAt(flow, 2, ZERO_TIME);
    assert flow[1].0 == flow[2].0;
  }

  lemma LooksAreOrderly()
    ensures forall look <- AllLooks(EVENTS) :: OrderlyLook(look)
  {
    hide OrderlyLook;
    LookIsOrderly([], EARLY, 2, 2);
    LookIsOrderly(LATE, EARLY, 1, 3);
    var x, y := LookAt([], EARLY, 2, 2), LookAt(LATE, EARLY, 1, 3);
    assert EVENTS[1..][1..][1..][1..] == [];
    assert AllLooks(EVENTS[1..][1..][1..]) == [y] + [];
    assert AllLooks(EVENTS[1..][1..]) == [] + [y];
    assert AllLooks(EVENTS[1..]) == [y] + [y];
    assert AllLooks(EVENTS) == [x, y, y];
  }
}
