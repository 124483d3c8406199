/** What the remote writer guarantees over whole runs: every call of Write,
    whatever the server answers and whatever happens to the store meanwhile,
    interleaved with restarts of the process. */
module Delivery {
  import opened Options
  import opened GoTime
  import opened SampleRequests
  import opened RequestSending
  import opened RemoteWriting

  datatype Event = Call(n: int, looks: seq<Look>) | Restart

  function Step(s: Settings, w: Writer, e: Event): Writer
    requires e.Call? ==> 0 < e.n
  {
    match e
    case Call(n, looks) => WriteCall(s, n, w, looks)
    case Restart => w.(lastWrite := Resume(w.saved))
  }

  ghost predicate ValidEvents(events: seq<Event>) {
    forall e <- events :: e.Call? ==> 0 < e.n
  }

  ghost function Run(s: Settings, w: Writer, events: seq<Event>): Writer
    requires ValidEvents(events)
    decreases |events|
  {
    if events == [] then w else Run(s, Step(s, w, events[0]), events[1..])
  }

  // ------------------------------------------------------ the store's side

  predicate InClockRange(instant: int) {
    IsInt64(instant) && IsInt64(instant + NANOS_PER_MILLI)
  }

  /** The readings of a look fit a store: instants have a 64-bit nanosecond
      count (an empty head reports the zero instant), MinTime bounds what the
      store held when it was read, and a range query misses no stored sample. */
  ghost predicate HonestLook(look: Look) {
    && (look.maxTime == ZERO_TIME || InClockRange(look.maxTime))
    && (look.minTime.Some? ==>
        && IsInt64(look.minTime.value)
        && forall x :: x in look.atMin ==> look.minTime.value <= x.1.time * NANOS_PER_MILLI)
    && forall lo, hi, x :: look.query(lo, hi).Some? && x in look.atQuery && lo <= x.1.time <= hi
        ==> x in Flat(look.query(lo, hi).value)
  }

  ghost predicate HonestEvent(e: Event) {
    e.Call? ==> forall look <- e.looks :: HonestLook(look)
  }

  // -------------------------------------------------------- the invariant

  /** A sample was stored by the server, or refused for good. */
  ghost predicate SampleSettled(log: seq<Attempt>, x: Labelled) {
    exists i :: 0 <= i < |log| && !log[i].reply.Recoverable? && x in Flat(log[i].request)
  }

  predicate Covers(win: Window, instant: int) {
    win.after < instant <= win.end
  }

  /** Every sample the store held while the window was read and whose instant
      the cursor passed is settled. */
  ghost predicate Honoured(s: Settings, log: seq<Attempt>, win: Window) {
    forall x: Labelled :: x in win.look.atMin && x in win.look.atQuery && 0 <= x.1.time
      && Covers(win, x.1.time * NANOS_PER_MILLI)
      ==> SampleSettled(log, (WithDevice(s.deviceID, x.0), x.1))
  }

  ghost predicate CoveredAt(windows: seq<Window>, instant: int) {
    exists k :: 0 <= k < |windows| && Covers(windows[k], instant)
  }

  ghost predicate Covered(windows: seq<Window>, base: int, upTo: int) {
    forall instant :: base < instant <= upTo ==> CoveredAt(windows, instant)
  }

  ghost predicate Inv(s: Settings, base: int, w: Writer) {
    && ZERO_TIME <= w.lastWrite
    && ZERO_TIME <= Resume(w.saved) <= w.lastWrite
    && Covered(w.windows, base, w.lastWrite)
    && forall win <- w.windows :: Honoured(s, w.log, win)
  }

  // ------------------------------------------------------------- samples

  lemma {:induction false} RelabelFlat(deviceID: string, series: seq<Series>, x: Labelled)
    requires x in Flat(series)
    ensures (WithDevice(deviceID, x.0), x.1) in Flat(Relabel(deviceID, series))
  {
    var s := series[0];
    var head := Tagged(s.labels, s.points);
    assert Relabel(deviceID, series)[1..] == Relabel(deviceID, series[1..]);
    if x in head {
      var i :| 0 <= i < |head| && head[i] == x;
      assert Tagged(WithDevice(deviceID, s.labels), s.points)[i] == (WithDevice(deviceID, x.0), x.1);
    } else {
      RelabelFlat(deviceID, series[1..], x);
    }
  }

  lemma {:induction false} JoinedHas(requests: seq<Request>, x: Labelled) returns (k: nat)
    requires x in Joined(requests)
    ensures k < |requests| && x in Flat(requests[k])
  {
    if x in Flat(requests[0]) {
      k := 0;
    } else {
      k := JoinedHas(requests[1..], x);
      k := k + 1;
    }
  }

  /** A range that was not given up leaves each of its samples settled. */
  lemma RangeSettlesSample(log: seq<Attempt>, script: Script, series: seq<Series>, n: int, x: Labelled)
    requires 0 < n && x in Flat(series)
    requires SendAll(log, script, Requests(series, n)).0
    ensures SampleSettled(SendAll(log, script, Requests(series, n)).1, x)
  {
    var requests := Requests(series, n);
    RequestsConserveSamples(series, n);
    var k := JoinedHas(requests, x);
    SendAllSettles(log, script, requests, k);
  }

  lemma HonouredStays(s: Settings, log: seq<Attempt>, log': seq<Attempt>, win: Window)
    requires Extends(log, log') && Honoured(s, log, win)
    ensures Honoured(s, log', win)
  {
  }

  // ----------------------------------------------------------- iterations

  /** The next range moves the cursor forward and stays in 64 bits. */
  lemma RangeBounds(last: int, min: int, max: int, duration: int)
    requires 0 <= duration && last < max && ZERO_TIME <= last
    requires InClockRange(max) && IsInt64(min)
    ensures last < RangeEnd(last, min, max, duration) <= max
    ensures IsInt64(RangeStart(last, min)) && IsInt64(RangeEnd(last, min, max, duration))
  {
  }

  lemma IterateHonoursWindow(s: Settings, n: int, w: Writer, look: Look)
    requires 0 < n && 0 <= s.rangeDuration && ZERO_TIME <= w.lastWrite < look.maxTime
    requires HonestLook(look) && Iterate(s, n, w, look).1
    ensures
      var w' := Iterate(s, n, w, look).0;
      && |w'.windows| == |w.windows| + 1
      && Honoured(s, w'.log, w'.windows[|w.windows|])
  {
    var w' := Iterate(s, n, w, look).0;
    var win := w'.windows[|w.windows|];
    var series := look.query(ToDbTime(win.start), ToDbTime(win.end)).value;
    RangeBounds(w.lastWrite, look.minTime.value, look.maxTime, s.rangeDuration);
    forall x: Labelled | x in look.atMin && x in look.atQuery && 0 <= x.1.time
      && Covers(win, x.1.time * NANOS_PER_MILLI)
      ensures SampleSettled(w'.log, (WithDevice(s.deviceID, x.0), x.1))
    {
      WindowBoundsKeepSample(x.1.time, win.after, win.start, win.end);
      RelabelFlat(s.deviceID, series, x);
      RangeSettlesSample(w.log, s.script, Relabel(s.deviceID, series), n, (WithDevice(s.deviceID, x.0), x.1));
    }
  }

  lemma CoveredNext(windows: seq<Window>, base: int, win: Window)
    requires Covered(windows, base, win.after)
    ensures Covered(windows + [win], base, win.end)
  {
    var all := windows + [win];
    forall instant | base < instant <= win.end
      ensures CoveredAt(all, instant)
    {
      if instant <= win.after {
        assert CoveredAt(windows, instant);
        var k :| 0 <= k < |windows| && Covers(windows[k], instant);
        assert Covers(all[k], instant);
      } else {
        assert Covers(all[|windows|], instant);
      }
    }
  }

  lemma IterateExtendsLog(s: Settings, n: int, w: Writer, look: Look)
    requires 0 < n
    ensures Extends(w.log, Iterate(s, n, w, look).0.log)
  {
    if look.minTime.Some? {
      var start := RangeStart(w.lastWrite, look.minTime.value);
      var end := RangeEnd(w.lastWrite, look.minTime.value, look.maxTime, s.rangeDuration);
      var answer := look.query(ToDbTime(start), ToDbTime(end));
      if answer.Some? {
        SendAllExtends(w.log, s.script, Requests(Relabel(s.deviceID, answer.value), n));
      }
    }
  }

  /** An iteration either stops with the cursor, the file and the finished
      windows as they were, or moves the cursor to the end of a new window. */
  lemma IterateFrame(s: Settings, n: int, w: Writer, look: Look)
    requires 0 < n
    ensures
      var (w', more) := Iterate(s, n, w, look);
      if !more then w' == w.(log := w'.log)
      else
        && look.minTime.Some?
        && w'.lastWrite == RangeEnd(w.lastWrite, look.minTime.value, look.maxTime, s.rangeDuration)
        && w'.saved == AfterSave(w.saved, w'.lastWrite, look.save)
        && w'.windows == w.windows + [Window(w.lastWrite, RangeStart(w.lastWrite, look.minTime.value), w'.lastWrite,
                                             look)]
  {
  }

  lemma IterateKeepsInv(s: Settings, base: int, n: int, w: Writer, look: Look)
    requires 0 < n && 0 <= s.rangeDuration && w.lastWrite < look.maxTime
    requires HonestLook(look) && Inv(s, base, w)
    ensures Inv(s, base, Iterate(s, n, w, look).0)
    ensures Iterate(s, n, w, look).1 ==> w.lastWrite < Iterate(s, n, w, look).0.lastWrite
  {
    var (w', more) := Iterate(s, n, w, look);
    IterateFrame(s, n, w, look);
    IterateExtendsLog(s, n, w, look);
    forall win | win in w.windows
      ensures Honoured(s, w'.log, win)
    {
      HonouredStays(s, w.log, w'.log, win);
    }
    if more {
      RangeBounds(w.lastWrite, look.minTime.value, look.maxTime, s.rangeDuration);
      CursorRoundTrip(w'.lastWrite);
      CoveredNext(w.windows, base, w'.windows[|w.windows|]);
      IterateHonoursWindow(s, n, w, look);
    }
  }

  lemma {:induction false} CallKeepsInv(s: Settings, base: int, n: int, w: Writer, looks: seq<Look>, k: nat)
    requires 0 < n && 0 <= s.rangeDuration && k <= |looks|
    requires Inv(s, base, w) && forall look <- looks :: HonestLook(look)
    ensures Inv(s, base, WriteFrom(s, n, w, looks, k))
    ensures w.lastWrite <= WriteFrom(s, n, w, looks, k).lastWrite
    decreases |looks| - k
  {
    if k < |looks| && w.lastWrite < looks[k].maxTime {
      IterateKeepsInv(s, base, n, w, looks[k]);
      var (w', more) := Iterate(s, n, w, looks[k]);
      if more {
        CallKeepsInv(s, base, n, w', looks, k + 1);
      }
    }
  }

  lemma CoveredLess(windows: seq<Window>, base: int, upTo: int, less: int)
    requires Covered(windows, base, upTo) && less <= upTo
    ensures Covered(windows, base, less)
  {
  }

  lemma StepKeepsInv(s: Settings, base: int, w: Writer, e: Event)
    requires 0 <= s.rangeDuration && (e.Call? ==> 0 < e.n)
    requires HonestEvent(e) && Inv(s, base, w)
    ensures Inv(s, base, Step(s, w, e))
  {
    match e
    case Call(n, looks) => CallKeepsInv(s, base, n, w, looks, 0);
    case Restart => CoveredLess(w.windows, base, w.lastWrite, Resume(w.saved));
  }

  lemma {:induction false} RunKeepsInv(s: Settings, base: int, w: Writer, events: seq<Event>)
    requires 0 <= s.rangeDuration && ValidEvents(events)
    requires (forall e <- events :: HonestEvent(e)) && Inv(s, base, w)
    ensures Inv(s, base, Run(s, w, events))
    decreases |events|
  {
    if events != [] {
      StepKeepsInv(s, base, w, events[0]);
      RunKeepsInv(s, base, Step(s, w, events[0]), events[1..]);
    }
  }

  // ---------------------------------------------------------- main results

  /** A process that has just read its cursor file. */
  predicate JustStarted(w: Writer) {
    w.windows == [] && w.lastWrite == Resume(w.saved) && ZERO_TIME <= w.lastWrite
  }

  /** At-least-once delivery. Start a process, let any calls of Write with any
      server answers, any changes of the store and any restarts happen. Every
      instant that the cursor then lies behind is in a window that was finished,
      and every sample of that instant that the store held while the window was
      read has been accepted or refused for good by the server. The saved
      cursor never runs ahead of the one in memory. */
  lemma EverySampleBehindCursorIsSettled(s: Settings, w: Writer, events: seq<Event>, x: Labelled)
    requires 0 <= s.rangeDuration && ValidEvents(events) && JustStarted(w)
    requires forall e <- events :: HonestEvent(e)
    requires 0 <= x.1.time && w.lastWrite < x.1.time * NANOS_PER_MILLI <= Run(s, w, events).lastWrite
    ensures
      var w' := Run(s, w, events);
      && Resume(w'.saved) <= w'.lastWrite
      && CoveredAt(w'.windows, x.1.time * NANOS_PER_MILLI)
      && forall k :: 0 <= k < |w'.windows| && Covers(w'.windows[k], x.1.time * NANOS_PER_MILLI)
           && x in w'.windows[k].look.atMin && x in w'.windows[k].look.atQuery
           ==> SampleSettled(w'.log, (WithDevice(s.deviceID, x.0), x.1))
  {
    RunKeepsInv(s, w.lastWrite, w, events);
    var w' := Run(s, w, events);
    forall k | 0 <= k < |w'.windows| && Covers(w'.windows[k], x.1.time * NANOS_PER_MILLI)
      && x in w'.windows[k].look.atMin && x in w'.windows[k].look.atQuery
      ensures SampleSettled(w'.log, (WithDevice(s.deviceID, x.0), x.1))
    {
      assert Honoured(s, w'.log, w'.windows[k]);
    }
  }

  /** The cursor only grows while a process lives, whatever happened before. */
  lemma CursorOnlyGrows(s: Settings, w: Writer, events: seq<Event>, n: int, looks: seq<Look>)
    requires 0 < n && 0 <= s.rangeDuration && JustStarted(w) && ValidEvents(events)
    requires (forall e <- events :: HonestEvent(e)) && forall look <- looks :: HonestLook(look)
    ensures Run(s, w, events).lastWrite <= WriteCall(s, n, Run(s, w, events), looks).lastWrite
  {
    RunKeepsInv(s, w.lastWrite, w, events);
    CallKeepsInv(s, w.lastWrite, n, Run(s, w, events), looks, 0);
  }

  /** A range that is given up is sent again from its first request: the cursor
      and the file stay, and once the server accepts, a new look at the same
      store sends all requests of the range, each once, and moves on. */
  lemma FailedRangeIsResentWhole(s: Settings, n: int, w: Writer, look: Look)
    requires 0 < n && look.minTime.Some? && !Iterate(s, n, w, look).1
    requires
      var start := RangeStart(w.lastWrite, look.minTime.value);
      var end := RangeEnd(w.lastWrite, look.minTime.value, look.maxTime, s.rangeDuration);
      look.query(ToDbTime(start), ToDbTime(end)).Some?
    requires forall i: nat :: |Iterate(s, n, w, look).0.log| <= i ==> s.script(i) == Accepted
    ensures
      var start := RangeStart(w.lastWrite, look.minTime.value);
      var end := RangeEnd(w.lastWrite, look.minTime.value, look.maxTime, s.rangeDuration);
      var series := Relabel(s.deviceID, look.query(ToDbTime(start), ToDbTime(end)).value);
      var failed := Iterate(s, n, w, look).0;
      var (w', more) := Iterate(s, n, failed, look);
      && failed == w.(log := failed.log)
      && more && w'.lastWrite == end
      && w'.log == failed.log + AllAccepted(Requests(series, n))
  {
    var start := RangeStart(w.lastWrite, look.minTime.value);
    var end := RangeEnd(w.lastWrite, look.minTime.value, look.maxTime, s.rangeDuration);
    var series := Relabel(s.deviceID, look.query(ToDbTime(start), ToDbTime(end)).value);
    SendAllAccepted(Iterate(s, n, w, look).0.log, s.script, Requests(series, n));
  }
}
