/** Writers and the transport loop over one buffer, step by step. */
module LogTransport {
  import opened Options
  import opened LogBuffer

  /** Where the loop is: at its head, sending, about to return an entry to the
      buffer after a failed send, or ended. */
  datatype Phase = AtHead | Sending(entry: LogEntry) | Returning(entry: LogEntry) | Ended

  /** `accepted`, `delivered` and `dropped` record what happened so far. */
  datatype State = State(buffer: Buffer, phase: Phase, accepted: seq<LogEntry>, delivered: seq<LogEntry>,
                         dropped: seq<LogEntry>)

  /** One step of a writer, or of the loop. */
  datatype Event = Write(entry: Option<LogEntry>) | Read | Sent(ok: bool) | Return | Cancel

  function Initial(maxlen: int): State {
    State(Buffer(maxlen, [], 0), AtHead, [], [], [])
  }

  function Step(s: State, e: Event): State
    requires Sound(s.buffer)
  {
    match e
    case Write(entry) =>
      var (ok, buffer) := Written(s.buffer, entry);
      s.(buffer := buffer, accepted := if ok then s.accepted + [entry.value] else s.accepted)
    case Read =>
      if !s.phase.AtHead? then s
      else
        var (entry, buffer) := Taken(s.buffer);
        s.(buffer := buffer, phase := if entry.None? then AtHead else Sending(entry.value))
    case Sent(ok) =>
      if !s.phase.Sending? then s
      else if ok then s.(phase := AtHead, delivered := s.delivered + [s.phase.entry])
      else s.(phase := Returning(s.phase.entry))
    case Return =>
      if !s.phase.Returning? then s
      else
        var (ok, buffer) := Written(s.buffer, Some(s.phase.entry));
        s.(buffer := buffer, phase := AtHead,
           dropped := if ok then s.dropped else s.dropped + [s.phase.entry])
    case Cancel => if s.phase.AtHead? then s.(phase := Ended) else s
  }

  function InHand(s: State): seq<LogEntry> {
    if s.phase.Sending? || s.phase.Returning? then [s.phase.entry] else []
  }

  function Accounted(s: State): multiset<LogEntry> {
    multiset(s.delivered) + multiset(s.buffer.data) + multiset(InHand(s)) + multiset(s.dropped)
  }

  /** Every accepted entry is delivered, queued, in hand or dropped, once. */
  ghost predicate Inv(s: State) {
    Sound(s.buffer) && multiset(s.accepted) == Accounted(s)
  }

  /** An entry moves between delivered, queued, in hand and dropped. */
  lemma Moves(d: multiset<LogEntry>, q: multiset<LogEntry>, h: multiset<LogEntry>, x: multiset<LogEntry>,
              e: multiset<LogEntry>)
    ensures d + (q + e) + h + x == d + q + h + x + e == d + q + (h + e) + x
    ensures (d + e) + q + h + x == d + q + h + x + e == d + q + h + (x + e)
  {
  }

  lemma WriteAccounts(s: State, e: Event)
    requires e.Write? && multiset(s.accepted) == Accounted(s) && Sound(s.buffer)
    ensures multiset(Step(s, e).accepted) == Accounted(Step(s, e))
  {
    if e.entry.Some? {
      Appended(s.accepted, e.entry.value);
      Appended(s.buffer.data, e.entry.value);
      Moves(multiset(s.delivered), multiset(s.buffer.data), multiset(InHand(s)), multiset(s.dropped),
            multiset([e.entry.value]));
    }
  }

  lemma ReadAccounts(s: State)
    requires multiset(s.accepted) == Accounted(s) && Sound(s.buffer)
    ensures multiset(Step(s, Read).accepted) == Accounted(Step(s, Read))
  {
    ReadKeepsSound(s.buffer);
    var s' := Step(s, Read);
    Prepended(InHand(s'), s'.buffer.data);
    Moves(multiset(s.delivered), multiset(s'.buffer.data), multiset{}, multiset(s.dropped), multiset(InHand(s')));
  }

  lemma SentAccounts(s: State, e: Event)
    requires e.Sent? && multiset(s.accepted) == Accounted(s) && Sound(s.buffer)
    ensures multiset(Step(s, e).accepted) == Accounted(Step(s, e))
  {
    if s.phase.Sending? {
      Appended(s.delivered, s.phase.entry);
      Moves(multiset(s.delivered), multiset(s.buffer.data), multiset{}, multiset(s.dropped),
            multiset([s.phase.entry]));
    }
  }

  lemma ReturnAccounts(s: State)
    requires multiset(s.accepted) == Accounted(s) && Sound(s.buffer)
    ensures multiset(Step(s, Return).accepted) == Accounted(Step(s, Return))
  {
    if s.phase.Returning? {
      Appended(s.buffer.data, s.phase.entry);
      Appended(s.dropped, s.phase.entry);
      Moves(multiset(s.delivered), multiset(s.buffer.data), multiset{}, multiset(s.dropped),
            multiset([s.phase.entry]));
    }
  }

  lemma StepAccounts(s: State, e: Event)
    requires multiset(s.accepted) == Accounted(s) && Sound(s.buffer)
    ensures multiset(Step(s, e).accepted) == Accounted(Step(s, e))
  {
    match e
    case Write(_) => WriteAccounts(s, e);
    case Read => ReadAccounts(s);
    case Sent(_) => SentAccounts(s, e);
    case Return => ReturnAccounts(s);
    case Cancel =>
  }

  lemma Appended(entries: seq<LogEntry>, x: LogEntry)
    ensures multiset(entries + [x]) == multiset(entries) + multiset([x])
  {
  }

  lemma Prepended(hand: seq<LogEntry>, rest: seq<LogEntry>)
    ensures multiset(hand + rest) == multiset(hand) + multiset(rest)
  {
  }

  lemma StepKeepsSound(s: State, e: Event)
    requires Sound(s.buffer)
    ensures Sound(Step(s, e).buffer) && Step(s, e).buffer.maxlen == s.buffer.maxlen
  {
    match e
    case Write(entry) => WriteKeepsSound(s.buffer, entry);
    case Read => ReadKeepsSound(s.buffer);
    case Sent(ok) =>
    case Return =>
      if s.phase.Returning? {
        WriteKeepsSound(s.buffer, Some(s.phase.entry));
      }
    case Cancel =>
  }

  lemma StepKeepsInv(s: State, e: Event)
    requires Inv(s)
    ensures Inv(Step(s, e))
  {
    StepKeepsSound(s, e);
    StepAccounts(s, e);
  }

  function Run(s: State, events: seq<Event>, k: nat): (r: State)
    requires Sound(s.buffer) && k <= |events|
    ensures Sound(r.buffer) && r.buffer.maxlen == s.buffer.maxlen
  {
    if k == 0 then s
    else
      var before := Run(s, events, k - 1);
      StepKeepsSound(before, events[k - 1]);
      Step(before, events[k - 1])
  }

  lemma {:induction false} RunKeepsInv(s: State, events: seq<Event>, k: nat)
    requires Inv(s) && k <= |events|
    ensures Inv(Run(s, events, k))
  {
    if k > 0 {
      RunKeepsInv(s, events, k - 1);
      StepKeepsInv(Run(s, events, k - 1), events[k - 1]);
    }
  }

  /** After every run of writers, reads, sends, requeues and a cancel: the size
      field is the sum of the queued sizes, a positive size means there is an
      entry to index, all but the last entry are within the limit, and for every
      entry the accepted copies are exactly those delivered, queued, in hand and
      dropped on a refused requeue. */
  lemma EveryAcceptedEntryIsAccounted(maxlen: int, events: seq<Event>, k: nat)
    requires k <= |events|
    ensures
      var s := Run(Initial(maxlen), events, k);
      && s.buffer.currentSize == TotalSize(s.buffer.data)
      && (s.buffer.currentSize > 0 ==> s.buffer.data != [])
      && (s.buffer.data != [] ==> TotalSize(s.buffer.data[..|s.buffer.data| - 1]) <= maxlen)
      && multiset(s.accepted)
         == multiset(s.delivered) + multiset(s.buffer.data) + multiset(InHand(s)) + multiset(s.dropped)
  {
    RunKeepsInv(Initial(maxlen), events, k);
  }

  // ------------------------------------------------------------------ order

  /** Delivered, in hand and queued are the accepted entries in their order. */
  ghost predicate InOrder(s: State) {
    && !s.phase.Returning?
    && s.dropped == []
    && s.accepted == s.delivered + InHand(s) + s.buffer.data
  }

  lemma StepKeepsOrder(s: State, e: Event)
    requires Sound(s.buffer) && InOrder(s) && e != Sent(false)
    ensures InOrder(Step(s, e))
  {
  }

  /** While no send fails, the transport delivers the accepted entries in the
      order in which they were accepted and drops none. */
  lemma {:induction false} DeliveredInOrder(maxlen: int, events: seq<Event>, k: nat)
    requires k <= |events| && forall i :: 0 <= i < k ==> events[i] != Sent(false)
    ensures
      var s := Run(Initial(maxlen), events, k);
      s.accepted == s.delivered + InHand(s) + s.buffer.data && s.dropped == []
    ensures InOrder(Run(Initial(maxlen), events, k))
  {
    if k > 0 {
      DeliveredInOrder(maxlen, events, k - 1);
      StepKeepsOrder(Run(Initial(maxlen), events, k - 1), events[k - 1]);
    }
  }

  // ----------------------------------------------------------------- draining

  /** One undisturbed turn of the loop with a successful send. */
  function Turn(s: State): (r: State)
    requires Sound(s.buffer)
    ensures Sound(r.buffer)
  {
    StepKeepsSound(s, Read);
    Step(Step(s, Read), Sent(true))
  }

  function Turns(s: State, n: nat): (r: State)
    requires Sound(s.buffer)
    ensures Sound(r.buffer)
    decreases n
  {
    if n == 0 then s else Turns(Turn(s), n - 1)
  }

  /** The part up to the last entry that has any bytes, and the empty ones
      behind it. */
  ghost predicate SplitsAtLast(entries: seq<LogEntry>, first: seq<LogEntry>, last: seq<LogEntry>) {
    && entries == first + last
    && AllEmpty(last)
    && (first != [] ==> first[|first| - 1].Size() > 0)
  }

  /** Every queue splits so. */
  lemma {:induction false} SplitAtLast(entries: seq<LogEntry>) returns (first: seq<LogEntry>, last: seq<LogEntry>)
    ensures SplitsAtLast(entries, first, last)
  {
    if entries == [] {
      return [], [];
    }
    var n := |entries| - 1;
    if entries[n].Size() > 0 {
      first, last := entries, [];
    } else {
      first, last := SplitAtLast(entries[..n]);
      assert entries == entries[..n] + [entries[n]] == first + (last + [entries[n]]);
      last := last + [entries[n]];
    }
  }

  /** The first of the queue is handed over, or nothing happens. */
  lemma TurnTakesOne(s: State)
    requires Sound(s.buffer) && s.phase.AtHead?
    ensures if AllEmpty(s.buffer.data) then Turn(s) == s
            else
              && s.buffer.data != []
              && Turn(s).phase.AtHead?
              && Turn(s).delivered == s.delivered + [s.buffer.data[0]] && Turn(s).buffer.data == s.buffer.data[1..]
  {
    ReadKeepsSound(s.buffer);
  }

  lemma SplitRest(entries: seq<LogEntry>, first: seq<LogEntry>, last: seq<LogEntry>)
    requires SplitsAtLast(entries, first, last)
    ensures first == [] ==> entries == last
    ensures AllEmpty(entries) <==> first == []
    ensures first != [] ==> entries != [] && entries[0] == first[0] && SplitsAtLast(entries[1..], first[1..], last)
  {
    if first != [] {
      assert entries[|first| - 1].Size() > 0;
      assert entries[1..] == first[1..] + last;
    }
  }

  lemma FirstThenRest(done: seq<LogEntry>, first: seq<LogEntry>)
    ensures first != [] ==> (done + [first[0]]) + first[1..] == done + first
    ensures done + [] == done
  {
  }

  /** Left alone with a working transport, the loop delivers the queue up to its
      last entry with any bytes, and then stands still: the empty entries behind
      it stay queued until somebody writes more. */
  lemma {:induction false} LoopDrains(s: State, first: seq<LogEntry>, last: seq<LogEntry>, n: nat)
    requires Sound(s.buffer) && s.phase.AtHead?
    requires SplitsAtLast(s.buffer.data, first, last) && n >= |first|
    ensures Turns(s, n).delivered == s.delivered + first
    ensures Turns(s, n).buffer.data == last
    decreases n
  {
    TurnTakesOne(s);
    SplitRest(s.buffer.data, first, last);
    FirstThenRest(s.delivered, first);
    hide Turn, Sound, AllEmpty, SplitsAtLast;
    if first != [] {
      LoopDrains(Turn(s), first[1..], last, n - 1);
    } else if n > 0 {
      LoopDrains(s, first, last, n - 1);
    }
  }

  // ------------------------------------------------------------ the real loop

  /** The turns of the loop for a script of send outcomes, with no writer in
      between. */
  function LoopRun(s: State, script: seq<bool>, k: nat): (r: State)
    requires Sound(s.buffer) && k <= |script|
    ensures Sound(r.buffer)
  {
    if k == 0 then s else LoopTurn(LoopRun(s, script, k - 1), script[k - 1])
  }

  function LoopTurn(s: State, ok: bool): (r: State)
    requires Sound(s.buffer)
    ensures Sound(r.buffer)
  {
    StepKeepsSound(s, Read);
    var read := Step(s, Read);
    StepKeepsSound(read, Sent(ok));
    var sent := Step(read, Sent(ok));
    StepKeepsSound(sent, Return);
    Step(sent, Return)
  }

  lemma LoopTurnCases(s: State, ok: bool)
    requires Sound(s.buffer) && s.phase.AtHead?
    ensures
      var (entry, rest) := Taken(s.buffer);
      LoopTurn(s, ok) ==
        if entry.None? then s
        else if ok then s.(buffer := rest, delivered := s.delivered + [entry.value])
        else
          var (returned, after) := Written(rest, entry);
          s.(buffer := after, dropped := if returned then s.dropped else s.dropped + [entry.value])
  {
  }

  class TransportLog {
    const log: FIFOLog
    var ended: bool
    /** What the transport took, and what could be neither sent nor returned. */
    var delivered: seq<LogEntry>
    var dropped: seq<LogEntry>

    constructor (log: FIFOLog)
      ensures this.log == log && !ended && delivered == [] && dropped == []
    {
      this.log := log;
      ended, delivered, dropped := false, [], [];
    }

    /** The state between two turns. */
    ghost function View(accepted: seq<LogEntry>): State
      reads this, log
    {
      State(log.View(), if ended then Ended else AtHead, accepted, delivered, dropped)
    }

    /** One turn: read, send, and on a failed send write back. */
    method Turn(ok: bool, ghost accepted: seq<LogEntry>)
      requires Sound(log.View()) && !ended
      modifies this, log
      ensures View(accepted) == LoopTurn(old(View(accepted)), ok) && Sound(log.View()) && !ended
    {
      LoopTurnCases(View(accepted), ok);
      ReadKeepsSound(log.View());
      hide LoopTurn, Sound, Taken, Written;
      var entry := log.ReadLine();
      if entry.Some? {
        if ok {
          delivered := delivered + [entry.value];
        } else {
          var returned := log.Write(entry);
          if !returned {
            dropped := dropped + [entry.value];
          }
        }
      }
    }

    /** Start: turns until the context is cancelled. */
    method Loop(script: seq<bool>, ghost accepted: seq<LogEntry>)
      requires Sound(log.View()) && !ended
      modifies this, log
      ensures View(accepted) == Step(LoopRun(old(View(accepted)), script, |script|), Cancel)
    {
      hide Sound, LoopTurn;
      ghost var s := View(accepted);
      for k := 0 to |script|
        invariant !ended && Sound(log.View()) && View(accepted) == LoopRun(s, script, k)
      {
        Turn(script[k], accepted);
      }
      ended := true;
    }
  }

  // ------------------------------------------------------------- failed sends

  /** An entry whose send failed goes to the end of the queue when the queue is within
      its limit, and is dropped otherwise. */
  lemma FailedSendIsRequeued(s: State)
    requires Sound(s.buffer) && s.phase.Sending?
    ensures
      var s' := Step(Step(s, Sent(false)), Return);
      && s'.phase.AtHead? && s'.delivered == s.delivered && s'.accepted == s.accepted
      && (if TotalSize(s.buffer.data) <= s.buffer.maxlen
          then s'.buffer.data == s.buffer.data + [s.phase.entry] && s'.dropped == s.dropped
          else s'.buffer.data == s.buffer.data && s'.dropped == s.dropped + [s.phase.entry])
  {
    WriteKeepsSound(s.buffer, Some(s.phase.entry));
    hide Sound;
  }

  /** Once the loop has ended nothing is delivered or dropped any more. */
  lemma {:induction false} EndedForGood(s: State, events: seq<Event>, k: nat)
    requires Sound(s.buffer) && s.phase.Ended? && k <= |events|
    ensures
      var s' := Run(s, events, k);
      s'.phase.Ended? && s'.delivered == s.delivered && s'.dropped == s.dropped
  {
    hide Sound;
    if k > 0 {
      EndedForGood(s, events, k - 1);
    }
  }

  /** A loop cancelled between two turns delivers nothing any more, whatever comes. */
  lemma CancelStopsDelivery(s: State, events: seq<Event>, k: nat)
    requires Sound(s.buffer) && s.phase.AtHead? && k <= |events|
    ensures
      var s' := Run(Step(s, Cancel), events, k);
      s'.phase.Ended? && s'.delivered == s.delivered && s'.dropped == s.dropped
  {
    hide Sound;
    EndedForGood(Step(s, Cancel), events, k);
  }
}
