/** In which order the samples of a series arrive over whole runs, with failing
    servers, given-up ranges that are sent again, and restarts. */
module ArrivalOrder {
  import opened Options
  import opened GoTime
  import opened SampleRequests
  import opened RequestSending
  import opened RemoteWriting
  import opened Delivery
  import FixedStore

  // ------------------------------------------------------------ what arrives

  /** The samples of all attempts with a final reply, in the order of the attempts. */
  function Flow(log: seq<Attempt>): seq<Labelled> {
    if log == [] then []
    else
      var last := |log| - 1;
      Flow(log[..last]) + Arriving(log[last])
  }

  function Arriving(a: Attempt): seq<Labelled> {
    if a.reply.Recoverable? then [] else Flat(a.request)
  }

  lemma FlowAppend(log: seq<Attempt>, a: Attempt)
    ensures Flow(log + [a]) == Flow(log) + Arriving(a)
  {
    assert (log + [a])[..|log|] == log;
  }

  lemma {:induction false} FinalArrives(log: seq<Attempt>, i: nat, x: Labelled)
    requires i < |log| && x in Arriving(log[i])
    ensures x in Flow(log)
  {
    hide Arriving;
    var last := |log| - 1;
    if i < last {
      assert log[..last][i] == log[i];
      FinalArrives(log[..last], i, x);
    }
  }

  lemma SettledArrives(log: seq<Attempt>, x: Labelled)
    requires SampleSettled(log, x)
    ensures x in Flow(log)
  {
    hide Flow;
    var i :| 0 <= i < |log| && !log[i].reply.Recoverable? && x in Flat(log[i].request);
    FinalArrives(log, i, x);
  }

  lemma {:induction false} SendFromFlow(log: seq<Attempt>, script: Script, request: Request, try: nat)
    requires 1 <= try <= NUM_TRIES
    ensures
      var (ok, log') := SendFrom(log, script, request, try);
      Flow(log') == Flow(log) + if ok then Flat(request) else []
    decreases NUM_TRIES - try
  {
    var a := Attempt(request, script(|log|));
    FlowAppend(log, a);
    if a.reply.Recoverable? {
      assert Flow(log) + [] == Flow(log);
      if try < NUM_TRIES {
        SendFromFlow(log + [a], script, request, try + 1);
      }
    }
  }

  /** Sending requests in turn lets a prefix of them arrive. */
  lemma {:induction false} SendAllFlow(log: seq<Attempt>, script: Script, requests: seq<Request>) returns (k: nat)
    ensures k <= |requests| && Flow(SendAll(log, script, requests).1) == Flow(log) + Joined(requests[..k])
    ensures SendAll(log, script, requests).0 ==> k == |requests|
    decreases |requests|
  {
    hide Flow, Flat, SendFrom;
    k := 0;
    if requests == [] {
      NothingArrives(log);
    } else {
      SendFromFlow(log, script, requests[0], 1);
      var (ok, log') := SendOne(log, script, requests[0]);
      if ok {
        k := SendAllFlow(log', script, requests[1..]);
        assert requests[..k + 1] == [requests[0]] + requests[1..][..k];
        JoinedCons(requests[0], requests[1..][..k]);
        Regroup(Flow(log), Flat(requests[0]), Joined(requests[1..][..k]));
        k := k + 1;
      }
    }
  }

  lemma NothingArrives(log: seq<Attempt>)
    ensures Flow(log) + [] == Flow(log)
  {
  }

  lemma Regroup(a: seq<Labelled>, b: seq<Labelled>, c: seq<Labelled>)
    ensures (a + b) + c == a + (b + c)
  {
  }

  /** Sending a range lets a prefix of its samples arrive, in their order. */
  lemma RangeFlow(log: seq<Attempt>, script: Script, series: seq<Series>, n: int) returns (m: nat)
    requires 0 < n
    ensures m <= Total(series) && Flow(SendAll(log, script, Requests(series, n)).1) == Flow(log) + Flat(series)[..m]
    ensures SendAll(log, script, Requests(series, n)).0 ==> m == Total(series)
  {
    hide Requests, SendAll, Flow, Flat, Joined;
    var requests := Requests(series, n);
    RequestsConserveSamples(series, n);
    var k := SendAllFlow(log, script, requests);
    FixedStore.JoinedSum(requests[..k], requests[k..]);
    assert requests == requests[..k] + requests[k..];
    assert k == |requests| ==> requests[..k] == requests;
    m := |Joined(requests[..k])|;
  }

  // ----------------------------------------------------------------- the store

  function Nanos(x: Labelled): int {
    x.1.time * NANOS_PER_MILLI
  }

  /** A sample under the labels it is sent with. */
  function Sent(s: Settings, x: Labelled): Labelled {
    (WithDevice(s.deviceID, x.0), x.1)
  }

  /** Samples of one series stand in strictly increasing time. */
  ghost predicate Sorted(f: seq<Labelled>) {
    forall i, j :: 0 <= i < j < |f| && f[i].0 == f[j].0 ==> f[i].1.time < f[j].1.time
  }

  /** A query answers with stored samples of the range, each series in order of time;
      the device label is not in use. */
  ghost predicate Answered(look: Look, lo: int, hi: int, f: seq<Labelled>) {
    && Sorted(f)
    && forall i :: 0 <= i < |f| ==> f[i] in look.atQuery && lo <= f[i].1.time <= hi && DEVICE_LABEL !in f[i].0
  }

  ghost predicate OrderlyLook(look: Look) {
    && HonestLook(look)
    && forall lo, hi :: look.query(lo, hi).Some? ==> Answered(look, lo, hi, Flat(look.query(lo, hi).value))
  }

  /** The sample was in the store at every earlier look that had seen as far. */
  ghost predicate InTime(past: seq<Look>, x: Labelled) {
    forall look <- past :: Nanos(x) <= look.maxTime ==> x in look.atMin && x in look.atQuery
  }

  /** What a look shows was not added behind what earlier looks had seen. */
  ghost predicate NoLateArrivals(past: seq<Look>, look: Look) {
    forall x :: x in look.atQuery ==> InTime(past, x)
  }

  ghost predicate OrderlyAfter(past: seq<Look>, looks: seq<Look>) {
    forall i :: 0 <= i < |looks| ==> OrderlyLook(looks[i]) && NoLateArrivals(past + looks[..i], looks[i])
  }

  // -------------------------------------------------------------- the invariant

  /** The sample at j is newer than the base and arrives for the first time. */
  ghost predicate FirstAt(flow: seq<Labelled>, j: nat, base: int)
    requires j < |flow|
  {
    flow[j] !in flow[..j] && base < Nanos(flow[j]) && 0 < flow[j].1.time
  }

  /** A sample that arrives for the first time, and is newer than the base, is newer
      than everything of its series that arrived before. */
  ghost predicate FirstInOrder(flow: seq<Labelled>, base: int) {
    forall i, j :: 0 <= i < j < |flow| && flow[i].0 == flow[j].0 && FirstAt(flow, j, base) ==>
      flow[i].1.time < flow[j].1.time
  }

  /** The sample x of the store is needed before y. */
  ghost predicate Needed(past: seq<Look>, base: int, x: Labelled, y: Labelled) {
    && DEVICE_LABEL !in x.0 && x.0 == y.0
    && base < Nanos(x) && 0 < x.1.time <= y.1.time && InTime(past, x)
  }

  /** No sample is left out below one that has arrived. */
  ghost predicate NoGap(s: Settings, base: int, flow: seq<Labelled>, past: seq<Look>) {
    forall x, y :: Needed(past, base, x, y) && Sent(s, y) in flow ==> Sent(s, x) in flow
  }

  ghost predicate OrderInv(s: Settings, base: int, w: Writer, past: seq<Look>) {
    && Inv(s, base, w)
    && FirstInOrder(Flow(w.log), base) && NoGap(s, base, Flow(w.log), past)
    && forall win <- w.windows :: win.look in past && win.end <= win.look.maxTime
  }

  lemma MorePast(s: Settings, base: int, w: Writer, past: seq<Look>, more: seq<Look>)
    requires OrderInv(s, base, w, past)
    ensures OrderInv(s, base, w, past + more)
  {
    hide Inv, FirstInOrder;
    forall x, y | Needed(past + more, base, x, y) && Sent(s, y) in Flow(w.log)
      ensures Sent(s, x) in Flow(w.log)
    {
      assert forall look <- past :: look in past + more;
      assert Needed(past, base, x, y);
    }
  }

  // ----------------------------------------------------------------- one range

  function AllSent(s: Settings, f: seq<Labelled>): (r: seq<Labelled>)
    ensures |r| == |f| && forall i :: 0 <= i < |f| ==> r[i] == Sent(s, f[i])
  {
    seq(|f|, i requires 0 <= i < |f| => Sent(s, f[i]))
  }

  lemma {:induction false} RelabelSends(s: Settings, series: seq<Series>)
    ensures Flat(Relabel(s.deviceID, series)) == AllSent(s, Flat(series))
  {
    if series != [] {
      assert Relabel(s.deviceID, series)[1..] == Relabel(s.deviceID, series[1..]);
      RelabelSends(s, series[1..]);
    }
  }

  lemma SameSeries(s: Settings, a: Labelled, b: Labelled)
    requires DEVICE_LABEL !in a.0 && DEVICE_LABEL !in b.0
    ensures Sent(s, a).0 == Sent(s, b).0 <==> a.0 == b.0
  {
    FixedStore.WithDeviceInjective(s.deviceID, a.0, b.0);
  }

  /** A sample of the range that arrives for the first time is newer than what
      arrived before the range. */
  lemma NewerThanBefore(s: Settings, base: int, flow: seq<Labelled>, past: seq<Look>, z: Labelled, x: Labelled)
    requires NoGap(s, base, flow, past) && z in flow && z.0 == Sent(s, x).0 && DEVICE_LABEL !in x.0
    requires InTime(past, x) && base < Nanos(x) && 0 < x.1.time && Sent(s, x) !in flow
    ensures z.1.time < x.1.time
  {
    var y := (x.0, z.1);
    assert Sent(s, y) == z;
    if x.1.time <= z.1.time {
      assert Needed(past, base, x, y);
    }
  }

  lemma RangeKeepsOrder(s: Settings, base: int, flow: seq<Labelled>, past: seq<Look>, look: Look,
                        lo: int, hi: int, f: seq<Labelled>, m: nat)
    requires FirstInOrder(flow, base) && NoGap(s, base, flow, past)
    requires Answered(look, lo, hi, f) && NoLateArrivals(past, look) && m <= |f|
    ensures FirstInOrder(flow + AllSent(s, f)[..m], base)
  {
    hide NoGap, InTime;
    var all, n := flow + AllSent(s, f)[..m], |flow|;
    forall i, j | 0 <= i < j < |all| && all[i].0 == all[j].0 && FirstAt(all, j, base)
      ensures all[i].1.time < all[j].1.time
    {
      if j < n {
        assert all[..j] == flow[..j] && all[i] == flow[i] && FirstAt(flow, j, base);
      } else {
        var x := f[j - n];
        assert all[j] == Sent(s, x) && x in look.atQuery;
        if i < n {
          assert flow == all[..j][..n];
          assert all[i] == flow[i];
          NewerThanBefore(s, base, flow, past, flow[i], x);
        } else {
          assert all[i] == Sent(s, f[i - n]);
          SameSeries(s, f[i - n], x);
        }
      }
    }
  }

  /** The range holds everything that is needed before any of its samples, unless it
      has arrived before. */
  ghost predicate Complete(s: Settings, base: int, flow: seq<Labelled>, past: seq<Look>, f: seq<Labelled>) {
    forall x, j :: 0 <= j < |f| && Needed(past, base, x, f[j]) ==> x in f || Sent(s, x) in flow
  }

  lemma RangeKeepsNoGap(s: Settings, base: int, flow: seq<Labelled>, past: seq<Look>, look: Look,
                        lo: int, hi: int, f: seq<Labelled>, m: nat)
    requires NoGap(s, base, flow, past) && Answered(look, lo, hi, f) && m <= |f|
    requires Complete(s, base, flow, past + [look], f)
    ensures NoGap(s, base, flow + AllSent(s, f)[..m], past + [look])
  {
    var all := flow + AllSent(s, f)[..m];
    forall x, y | Needed(past + [look], base, x, y) && Sent(s, y) in all
      ensures Sent(s, x) in all
    {
      assert forall l <- past :: l in past + [look];
      if Sent(s, y) in flow {
        assert Needed(past, base, x, y);
      } else {
        var j :| 0 <= j < m && AllSent(s, f)[j] == Sent(s, y);
        SameSeries(s, f[j], y);
        assert f[j] == y;
        RangeReaches(s, base, flow, past + [look], f, m, x, j);
      }
    }
  }

  lemma RangeReaches(s: Settings, base: int, flow: seq<Labelled>, past: seq<Look>, f: seq<Labelled>, m: nat,
                     x: Labelled, j: nat)
    requires j < m <= |f| && Sorted(f) && Complete(s, base, flow, past, f) && Needed(past, base, x, f[j])
    ensures Sent(s, x) in flow + AllSent(s, f)[..m]
  {
    if Sent(s, x) !in flow {
      var i :| 0 <= i < |f| && f[i] == x;
      assert i <= j;
      assert (flow + AllSent(s, f)[..m])[|flow| + i] == Sent(s, x);
    }
  }

  // ------------------------------------------------------------- one iteration

  lemma DbTimeBelow(t: int, end: int)
    requires 0 < t <= ToDbTime(end) && IsInt64(end)
    ensures t * NANOS_PER_MILLI <= end
  {
  }

  /** A sample at or before the cursor that was there in time has arrived. */
  lemma BehindCursorArrived(s: Settings, base: int, w: Writer, past: seq<Look>, x: Labelled)
    requires OrderInv(s, base, w, past) && InTime(past, x) && 0 < x.1.time && base < Nanos(x) <= w.lastWrite
    ensures Sent(s, x) in Flow(w.log)
  {
    hide FirstInOrder, NoGap, Flow;
    assert CoveredAt(w.windows, Nanos(x));
    var k :| 0 <= k < |w.windows| && Covers(w.windows[k], Nanos(x));
    assert w.windows[k] in w.windows;
    assert Honoured(s, w.log, w.windows[k]);
    SettledArrives(w.log, Sent(s, x));
  }

  lemma RangeIsComplete(s: Settings, base: int, w: Writer, past: seq<Look>, look: Look)
    requires OrderInv(s, base, w, past) && OrderlyLook(look) && look.minTime.Some?
    requires 0 <= s.rangeDuration && w.lastWrite < look.maxTime
    requires
      var start := RangeStart(w.lastWrite, look.minTime.value);
      var end := RangeEnd(w.lastWrite, look.minTime.value, look.maxTime, s.rangeDuration);
      look.query(ToDbTime(start), ToDbTime(end)).Some?
    ensures
      var start := RangeStart(w.lastWrite, look.minTime.value);
      var end := RangeEnd(w.lastWrite, look.minTime.value, look.maxTime, s.rangeDuration);
      Complete(s, base, Flow(w.log), past + [look], Flat(look.query(ToDbTime(start), ToDbTime(end)).value))
  {
    hide FirstInOrder, NoGap, Flow, Flat, Covered, Honoured, ToDbTime;
    var min := look.minTime.value;
    var start, end := RangeStart(w.lastWrite, min), RangeEnd(w.lastWrite, min, look.maxTime, s.rangeDuration);
    var lo, hi := ToDbTime(start), ToDbTime(end);
    var f := Flat(look.query(lo, hi).value);
    RangeBounds(w.lastWrite, min, look.maxTime, s.rangeDuration);
    assert Answered(look, lo, hi, f);
    forall x, j | 0 <= j < |f| && Needed(past + [look], base, x, f[j])
      ensures x in f || Sent(s, x) in Flow(w.log)
    {
      assert look in past + [look];
      assert forall l <- past :: l in past + [look];
      DbTimeBelow(x.1.time, end);
      if Nanos(x) <= w.lastWrite {
        BehindCursorArrived(s, base, w, past, x);
      } else {
        WindowBoundsKeepSample(x.1.time, w.lastWrite, start, end);
      }
    }
  }

  /** What one iteration lets arrive, and which window it adds. */
  lemma IterateFlow(s: Settings, n: int, w: Writer, look: Look) returns (f: seq<Labelled>, m: nat)
    requires 0 < n && look.minTime.Some?
    requires
      var start := RangeStart(w.lastWrite, look.minTime.value);
      var end := RangeEnd(w.lastWrite, look.minTime.value, look.maxTime, s.rangeDuration);
      look.query(ToDbTime(start), ToDbTime(end)).Some?
    ensures
      var start := RangeStart(w.lastWrite, look.minTime.value);
      var end := RangeEnd(w.lastWrite, look.minTime.value, look.maxTime, s.rangeDuration);
      f == Flat(look.query(ToDbTime(start), ToDbTime(end)).value)
    ensures m <= |f| && Flow(Iterate(s, n, w, look).0.log) == Flow(w.log) + AllSent(s, f)[..m]
    ensures Iterate(s, n, w, look).1 ==> m == |f|
  {
    hide SendAll, Requests, Flow, Flat, Relabel;
    var start := RangeStart(w.lastWrite, look.minTime.value);
    var end := RangeEnd(w.lastWrite, look.minTime.value, look.maxTime, s.rangeDuration);
    var series := look.query(ToDbTime(start), ToDbTime(end)).value;
    f := Flat(series);
    RelabelSends(s, series);
    m := RangeFlow(w.log, s.script, Relabel(s.deviceID, series), n);
  }

  lemma IterateKeepsOrder(s: Settings, base: int, n: int, w: Writer, look: Look, past: seq<Look>)
    requires 0 < n && 0 <= s.rangeDuration && w.lastWrite < look.maxTime
    requires OrderInv(s, base, w, past) && OrderlyLook(look) && NoLateArrivals(past, look)
    ensures OrderInv(s, base, Iterate(s, n, w, look).0, past + [look])
  {
    hide Inv, FirstInOrder, NoGap, HonestLook, Iterate, NoLateArrivals, Flow;
    var w' := Iterate(s, n, w, look).0;
    IterateKeepsInv(s, base, n, w, look);
    IterateFrame(s, n, w, look);
    IterateStops(s, n, w, look);
    MorePast(s, base, w, past, [look]);
    if look.minTime.Some? {
      var start := RangeStart(w.lastWrite, look.minTime.value);
      var end := RangeEnd(w.lastWrite, look.minTime.value, look.maxTime, s.rangeDuration);
      if look.query(ToDbTime(start), ToDbTime(end)).Some? {
        RangeIsComplete(s, base, w, past, look);
        var f, m := IterateFlow(s, n, w, look);
        RangeKeepsOrder(s, base, Flow(w.log), past, look, ToDbTime(start), ToDbTime(end), f, m);
        RangeKeepsNoGap(s, base, Flow(w.log), past, look, ToDbTime(start), ToDbTime(end), f, m);
      }
    }
  }

  /** Without an answer of the store nothing is sent. */
  lemma IterateStops(s: Settings, n: int, w: Writer, look: Look)
    requires 0 < n
    ensures look.minTime.None? ==> Iterate(s, n, w, look).0 == w
    ensures look.minTime.Some? ==>
      var start := RangeStart(w.lastWrite, look.minTime.value);
      var end := RangeEnd(w.lastWrite, look.minTime.value, look.maxTime, s.rangeDuration);
      look.query(ToDbTime(start), ToDbTime(end)).None? ==> Iterate(s, n, w, look).0 == w
  {
  }

  // ------------------------------------------------------------------ whole runs

  lemma {:induction false} CallKeepsOrder(s: Settings, base: int, n: int, w: Writer, looks: seq<Look>, k: nat,
                                          past: seq<Look>)
    requires 0 < n && 0 <= s.rangeDuration && k <= |looks|
    requires OrderInv(s, base, w, past + looks[..k]) && OrderlyAfter(past, looks)
    ensures OrderInv(s, base, WriteFrom(s, n, w, looks, k), past + looks)
    decreases |looks| - k
  {
    hide OrderInv, Iterate, OrderlyLook, NoLateArrivals;
    assert past + looks == (past + looks[..k]) + looks[k..];
    if k == |looks| || looks[k].maxTime <= w.lastWrite {
      MorePast(s, base, w, past + looks[..k], looks[k..]);
    } else {
      var (w', more) := Iterate(s, n, w, looks[k]);
      IterateKeepsOrder(s, base, n, w, looks[k], past + looks[..k]);
      assert (past + looks[..k]) + [looks[k]] == past + looks[..k + 1];
      if more {
        CallKeepsOrder(s, base, n, w', looks, k + 1, past);
      } else {
        assert past + looks == (past + looks[..k + 1]) + looks[k + 1..];
        MorePast(s, base, w', past + looks[..k + 1], looks[k + 1..]);
      }
    }
  }

  /** The looks of all calls, in order. */
  function AllLooks(events: seq<Event>): seq<Look> {
    if events == [] then [] else LooksOf(events[0]) + AllLooks(events[1..])
  }

  function LooksOf(e: Event): seq<Look> {
    match e
    case Call(_, looks) => looks
    case Restart => []
  }

  lemma OrderlyParts(past: seq<Look>, a: seq<Look>, b: seq<Look>)
    requires OrderlyAfter(past, a + b)
    ensures OrderlyAfter(past, a) && OrderlyAfter(past + a, b)
  {
    hide OrderlyLook, NoLateArrivals;
    forall i | 0 <= i < |a| ensures OrderlyLook(a[i]) && NoLateArrivals(past + a[..i], a[i]) {
      assert (a + b)[i] == a[i] && (a + b)[..i] == a[..i];
    }
    forall i | 0 <= i < |b| ensures OrderlyLook(b[i]) && NoLateArrivals(past + a + b[..i], b[i]) {
      assert (a + b)[|a| + i] == b[i] && past + (a + b)[..|a| + i] == past + a + b[..i];
    }
  }

  lemma RestartKeepsOrder(s: Settings, base: int, w: Writer, past: seq<Look>)
    requires 0 <= s.rangeDuration && OrderInv(s, base, w, past)
    ensures OrderInv(s, base, Step(s, w, Restart), past)
  {
    hide FirstInOrder, NoGap, Flow;
    StepKeepsInv(s, base, w, Restart);
  }

  lemma {:induction false} RunKeepsOrder(s: Settings, base: int, w: Writer, events: seq<Event>, past: seq<Look>)
    requires 0 <= s.rangeDuration && ValidEvents(events)
    requires OrderInv(s, base, w, past) && OrderlyAfter(past, AllLooks(events))
    ensures OrderInv(s, base, Run(s, w, events), past + AllLooks(events))
    decreases |events|
  {
    hide OrderInv, WriteFrom, OrderlyAfter;
    if events == [] {
      assert past + [] == past;
    } else {
      var looks, rest := LooksOf(events[0]), AllLooks(events[1..]);
      OrderlyParts(past, looks, rest);
      assert past + (looks + rest) == (past + looks) + rest;
      match events[0] {
        case Call(n, _) =>
          assert past + looks[..0] == past;
          CallKeepsOrder(s, base, n, w, looks, 0, past);
        case Restart =>
          assert past + looks == past;
          RestartKeepsOrder(s, base, w, past);
      }
      RunKeepsOrder(s, base, Step(s, w, events[0]), events[1..], past + looks);
    }
  }

  lemma StartIsInOrder(s: Settings, w: Writer)
    requires JustStarted(w) && w.log == []
    ensures OrderInv(s, w.lastWrite, w, [])
  {
  }

  /** Section "Ordering" of the Prometheus Remote-Write Specification 1.0, over whole
      runs. Start a process and let any calls of Write happen, with any replies of
      the server, ranges that are given up and sent again, any growth and retention
      of the store that adds nothing behind what was already seen, and any restarts.
      Among the samples newer than the cursor the process started with, one that gets
      its final reply for the first time is newer than all samples of its series that
      got theirs before. */
  lemma FirstArrivalsAreInOrder(s: Settings, w: Writer, events: seq<Event>)
    requires 0 <= s.rangeDuration && ValidEvents(events) && JustStarted(w) && w.log == []
    requires OrderlyAfter([], AllLooks(events))
    ensures FirstInOrder(Flow(Run(s, w, events).log), w.lastWrite)
  {
    hide Inv, FirstInOrder, NoGap, Flow, OrderlyAfter;
    StartIsInOrder(s, w);
    RunKeepsOrder(s, w.lastWrite, w, events, []);
  }
}
