/** What the cursor file holds after a window, a call and a run, and where a restart
    resumes. */
module CursorFile {
  import opened Options
  import opened GoTime
  import opened SampleRequests
  import opened RequestSending
  import opened RemoteWriting
  import opened Delivery

  /** What the file holds after a window, by the way its save ended: the cursor, what it
      held before, or nothing to start from. */
  lemma SaveOutcomes(s: Settings, n: int, w: Writer, look: Look)
    requires 0 < n && 0 <= s.rangeDuration && ZERO_TIME <= w.lastWrite < look.maxTime
    requires HonestLook(look) && Iterate(s, n, w, look).1
    ensures
      var w' := Iterate(s, n, w, look).0;
      match look.save
      case Stored => Resume(w'.saved) == w'.lastWrite
      case Kept => w'.saved == w.saved
      case Emptied => Resume(w'.saved) == ZERO_TIME
  {
    IterateFrame(s, n, w, look);
    RangeBounds(w.lastWrite, look.minTime.value, look.maxTime, s.rangeDuration);
    CursorRoundTrip(Iterate(s, n, w, look).0.lastWrite);
    hide Iterate;
  }

  /** Where a new process starts after these windows, if it started at `start` before
      them: at the end of the last one that was stored, unless the file was emptied
      since. */
  function StartAfter(windows: seq<Window>, start: int): int {
    if windows == [] then start
    else
      var last := |windows| - 1;
      match windows[last].look.save
      case Stored => windows[last].end
      case Kept => StartAfter(windows[..last], start)
      case Emptied => ZERO_TIME
  }

  lemma IterateSaves(s: Settings, base: int, n: int, w: Writer, look: Look, start: int)
    requires 0 < n && 0 <= s.rangeDuration && w.lastWrite < look.maxTime && HonestLook(look) && Inv(s, base, w)
    requires Resume(w.saved) == StartAfter(w.windows, start)
    ensures var w' := Iterate(s, n, w, look).0; Resume(w'.saved) == StartAfter(w'.windows, start)
  {
    IterateFrame(s, n, w, look);
    if Iterate(s, n, w, look).1 {
      SaveOutcomes(s, n, w, look);
      var w' := Iterate(s, n, w, look).0;
      assert w'.windows[..|w.windows|] == w.windows;
    }
  }

  lemma {:induction false} CallSaves(s: Settings, base: int, n: int, w: Writer, looks: seq<Look>, k: nat, start: int)
    requires 0 < n && 0 <= s.rangeDuration && k <= |looks| && Inv(s, base, w)
    requires forall look <- looks :: HonestLook(look)
    requires Resume(w.saved) == StartAfter(w.windows, start)
    ensures var w' := WriteFrom(s, n, w, looks, k); Resume(w'.saved) == StartAfter(w'.windows, start)
    decreases |looks| - k
  {
    hide Iterate, Inv, HonestLook, StartAfter;
    if k < |looks| && w.lastWrite < looks[k].maxTime {
      assert looks[k] in looks;
      IterateSaves(s, base, n, w, looks[k], start);
      IterateKeepsInv(s, base, n, w, looks[k]);
      if Iterate(s, n, w, looks[k]).1 {
        CallSaves(s, base, n, Iterate(s, n, w, looks[k]).0, looks, k + 1, start);
      }
    }
  }

  /** Over every run the file tells exactly the end of the last window that was stored:
      there a restart resumes. */
  lemma {:induction false} RestartResumesAtLastStored(s: Settings, base: int, w: Writer, events: seq<Event>, start: int)
    requires 0 <= s.rangeDuration && ValidEvents(events) && (forall e <- events :: HonestEvent(e)) && Inv(s, base, w)
    requires Resume(w.saved) == StartAfter(w.windows, start)
    ensures
      var w' := Run(s, w, events);
      Step(s, w', Restart).lastWrite == Resume(w'.saved) == StartAfter(w'.windows, start)
    decreases |events|
  {
    hide Inv, StartAfter, WriteFrom;
    if events != [] {
      var e := events[0];
      assert e in events;
      StepKeepsInv(s, base, w, e);
      if e.Call? {
        CallSaves(s, base, e.n, w, e.looks, 0, start);
      }
      RestartResumesAtLastStored(s, base, Step(s, w, e), events[1..], start);
    }
  }

  lemma {:induction false} CallEndsAtLastWindow(s: Settings, n: int, w: Writer, looks: seq<Look>, k: nat)
    requires 0 < n && k <= |looks|
    ensures
      var w' := WriteFrom(s, n, w, looks, k);
      && |w.windows| <= |w'.windows|
      && (|w'.windows| == |w.windows| ==> w'.windows == w.windows && w'.saved == w.saved)
      && w'.lastWrite == if |w'.windows| == |w.windows| then w.lastWrite else w'.windows[|w'.windows| - 1].end
    decreases |looks| - k
  {
    hide Iterate;
    if k < |looks| && w.lastWrite < looks[k].maxTime {
      IterateFrame(s, n, w, looks[k]);
      if Iterate(s, n, w, looks[k]).1 {
        CallEndsAtLastWindow(s, n, Iterate(s, n, w, looks[k]).0, looks, k + 1);
      }
    }
  }

  /** So a restart right after a call whose last window was stored loses nothing: the
      new process has the same cursor. */
  lemma RestartAfterStoredCall(s: Settings, base: int, w: Writer, n: int, looks: seq<Look>)
    requires 0 < n && 0 <= s.rangeDuration && Inv(s, base, w) && forall look <- looks :: HonestLook(look)
    requires
      var windows := WriteCall(s, n, w, looks).windows;
      |windows| > |w.windows| && windows[|windows| - 1].look.save.Stored?
    ensures
      var w' := WriteCall(s, n, w, looks);
      Step(s, w', Restart).lastWrite == w'.lastWrite
  {
    hide Inv, WriteFrom;
    CallEndsAtLastWindow(s, n, w, looks, 0);
    LastStoredCounts(s, base, n, w, looks, 0);
  }

  lemma {:induction false} LastStoredCounts(s: Settings, base: int, n: int, w: Writer, looks: seq<Look>, k: nat)
    requires 0 < n && 0 <= s.rangeDuration && k <= |looks| && Inv(s, base, w)
    requires forall look <- looks :: HonestLook(look)
    ensures
      var w' := WriteFrom(s, n, w, looks, k);
      |w'.windows| > |w.windows| && w'.windows[|w'.windows| - 1].look.save.Stored? ==> Resume(w'.saved) == w'.lastWrite
    decreases |looks| - k
  {
    hide Iterate, Inv, HonestLook;
    if k < |looks| && w.lastWrite < looks[k].maxTime {
      assert looks[k] in looks;
      IterateFrame(s, n, w, looks[k]);
      IterateKeepsInv(s, base, n, w, looks[k]);
      if Iterate(s, n, w, looks[k]).1 {
        var w1 := Iterate(s, n, w, looks[k]).0;
        CursorIsLate(s, base, w);
        SaveOutcomes(s, n, w, looks[k]);
        LastStoredCounts(s, base, n, w1, looks, k + 1);
        CallEndsAtLastWindow(s, n, w1, looks, k + 1);
      }
    }
  }

  lemma CursorIsLate(s: Settings, base: int, w: Writer)
    requires Inv(s, base, w)
    ensures ZERO_TIME <= w.lastWrite
  {
  }
}
