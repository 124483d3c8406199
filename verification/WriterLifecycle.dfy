/** Configuration updates and writer goroutines of the remote writer, which
    share the client, the configuration and a running flag under one lock. */
module WriterLifecycle {
  import opened Options

  datatype Receiver = Receiver(url: string, timeoutSeconds: int, requestNumSamples: int, caCert: string)

  /** A goroutine running writeRoutine: about to read the configuration, inside
      Write with what it read, or gone. */
  datatype Routine = AtTop | Writing(target: Receiver, n: int) | Gone

  /** The shared fields; a client is identified by the configuration it was
      built from. */
  datatype State = State(config: Option<Receiver>, client: Option<Receiver>, isRunning: bool, routines: seq<Routine>)

  const INITIAL := State(None, None, false, [])

  predicate Disabled(config: Option<Receiver>) {
    config.None? || config.value.url == ""
  }

  /** applyConfig fails on a zero timeout, a zero request size, or a fault in
      one of the calls it makes. */
  predicate Applies(receiver: Receiver, fault: bool) {
    !fault && receiver.timeoutSeconds != 0 && receiver.requestNumSamples != 0
  }

  function Updated(s: State, config: Option<Receiver>, fault: bool): State {
    if s.config == config then s
    else if Disabled(config) then s.(client := None, config := config)
    else if !Applies(config.value, fault) then s
    else s.(client := config, config := config, isRunning := true,
            routines := if s.isRunning then s.routines else s.routines + [AtTop])
  }

  /** getConfig of goroutine r. */
  function Read(s: State, r: nat): State
    requires r < |s.routines| && (s.client.Some? ==> s.config.Some?)
  {
    if s.client.Some? then
      s.(routines := s.routines[r := Writing(s.client.value, s.config.value.requestNumSamples)])
    else
      s.(isRunning := false, routines := s.routines[r := Gone])
  }

  datatype Step = Update(config: Option<Receiver>, fault: bool) | GetConfig(r: nat) | EndWrite(r: nat)

  predicate Enabled(s: State, step: Step) {
    match step
    case Update(_, _) => true
    case GetConfig(r) => r < |s.routines| && s.routines[r].AtTop? && (s.client.Some? ==> s.config.Some?)
    case EndWrite(r) => r < |s.routines| && s.routines[r].Writing?
  }

  function Next(s: State, step: Step): State
    requires Enabled(s, step)
  {
    match step
    case Update(config, fault) => Updated(s, config, fault)
    case GetConfig(r) => Read(s, r)
    case EndWrite(r) => s.(routines := s.routines[r := AtTop])
  }

  ghost predicate IsRun(s: State, steps: seq<Step>)
    decreases |steps|
  {
    steps == [] || (Enabled(s, steps[0]) && IsRun(Next(s, steps[0]), steps[1..]))
  }

  ghost function After(s: State, steps: seq<Step>): State
    requires IsRun(s, steps)
    decreases |steps|
  {
    if steps == [] then s else After(Next(s, steps[0]), steps[1..])
  }

  predicate Live(s: State, r: int) {
    0 <= r < |s.routines| && !s.routines[r].Gone?
  }

  ghost predicate Inv(s: State) {
    && (forall p, r :: Live(s, p) && Live(s, r) ==> p == r)
    && (s.isRunning <==> exists r :: Live(s, r))
    && (s.client.Some? ==> s.isRunning)
    && s.client == (if Disabled(s.config) then None else s.config)
    && (s.client.Some? ==> s.client.value.requestNumSamples != 0)
    && forall r: nat :: r < |s.routines| && s.routines[r].Writing? ==>
         s.routines[r].n == s.routines[r].target.requestNumSamples != 0
  }

  lemma UpdateKeepsInv(s: State, config: Option<Receiver>, fault: bool)
    requires Inv(s)
    ensures Inv(Updated(s, config, fault))
  {
    var s' := Updated(s, config, fault);
    assert forall r: nat :: r < |s.routines| ==> s'.routines[r] == s.routines[r];
    assert forall r :: Live(s, r) ==> Live(s', r);
    assert forall r :: Live(s', r) ==> Live(s, r) || r == |s.routines|;
    if |s'.routines| > |s.routines| {
      assert Live(s', |s.routines|);
    }
  }

  lemma RoutineKeepsInv(s: State, step: Step)
    requires Inv(s) && Enabled(s, step) && !step.Update?
    ensures Inv(Next(s, step))
  {
    var s' := Next(s, step);
    assert Live(s, step.r);
    assert forall r :: Live(s', r) ==> Live(s, r);
    if s'.isRunning {
      assert Live(s', step.r);
    }
  }

  lemma {:induction false} RunKeepsInv(s: State, steps: seq<Step>)
    requires Inv(s) && IsRun(s, steps)
    ensures Inv(After(s, steps))
    decreases |steps|
  {
    if steps != [] {
      if steps[0].Update? {
        UpdateKeepsInv(s, steps[0].config, steps[0].fault);
      } else {
        RoutineKeepsInv(s, steps[0]);
      }
      RunKeepsInv(Next(s, steps[0]), steps[1..]);
    }
  }

  /** In every interleaving of updates and goroutine steps: never two goroutines
      are alive, so never two are inside Write; the flag is set exactly while
      one is alive; a client is there exactly when the configuration names a
      URL, it is the one built from that configuration, and then a goroutine is
      alive to use it; and a goroutine that reads its configuration finds one. */
  lemma OneWriterInEveryRun(steps: seq<Step>)
    requires IsRun(INITIAL, steps)
    ensures
      var s := After(INITIAL, steps);
      && (forall p, r :: Live(s, p) && Live(s, r) ==> p == r)
      && (s.isRunning <==> exists r :: Live(s, r))
      && (s.client.Some? <==> s.config.Some? && s.config.value.url != "")
      && (s.client.Some? ==> s.client == s.config && exists r :: Live(s, r))
      && (forall r: nat :: r < |s.routines| && s.routines[r].AtTop? ==> Enabled(s, GetConfig(r)))
  {
    RunKeepsInv(INITIAL, steps);
  }

  /** An update whose configuration cannot be applied leaves everything as it
      was, so the same message is tried again when it is sent again. */
  lemma FailedUpdateChangesNothing(s: State, config: Option<Receiver>, fault: bool)
    requires !Disabled(config) && !Applies(config.value, fault)
    ensures Updated(s, config, fault) == s
    ensures Inv(s) && s.config != config && Applies(config.value, false) ==>
      Updated(s, config, false).config == config && Updated(s, config, false).client == config
  {
  }

  /** Once an update has switched the feature off and no further update comes,
      the next configuration read of the goroutine is its last. */
  lemma DisabledWriterStops(s: State, fault: bool, config: Option<Receiver>, r: nat)
    requires Inv(s) && Disabled(config) && Live(s, r)
    ensures
      var off := Updated(s, config, fault);
      && off.client.None? && Live(off, r)
      && (off.routines[r].AtTop? ==>
          && !Next(off, GetConfig(r)).isRunning
          && forall p :: !Live(Next(off, GetConfig(r)), p))
  {
    var off := Updated(s, config, fault);
    UpdateKeepsInv(s, config, fault);
    if off.routines[r].AtTop? {
      RoutineKeepsInv(off, GetConfig(r));
    }
  }

  // ------------------------------------------------------- the operations

  /** The shared fields as the methods change them, each holding the lock. */
  class Control {
    var config: Option<Receiver>
    var client: Option<Receiver>
    var isRunning: bool
    var routines: seq<Routine>

    constructor ()
      ensures Value() == INITIAL
    {
      config, client, isRunning, routines := None, None, false, [];
    }

    ghost function Value(): State
      reads this
    {
      State(config, client, isRunning, routines)
    }

    method Update(newConfig: Option<Receiver>, fault: bool) returns (ok: bool)
      modifies this
      ensures Value() == Updated(old(Value()), newConfig, fault)
      ensures ok <==> config == newConfig
      ensures old(Inv(Value())) ==> Inv(Value())
    {
      UpdateKeepsInvIf(Value(), newConfig, fault);
      if config == newConfig {
        return true;
      }
      var featureDisabled := newConfig.None? || newConfig.value.url == "";
      if featureDisabled {
        client := None;
      } else {
        if fault || newConfig.value.timeoutSeconds == 0 || newConfig.value.requestNumSamples == 0 {
          return false;
        }
        client := newConfig;
      }
      if !featureDisabled && !isRunning {
        routines := routines + [AtTop];
        isRunning := true;
      }
      config := newConfig;
      return true;
    }

    method GetConfig(r: nat) returns (shouldExit: bool)
      requires Inv(Value()) && r < |routines| && routines[r].AtTop?
      modifies this
      ensures Value() == Read(old(Value()), r) && Inv(Value())
      ensures shouldExit <==> routines[r].Gone?
    {
      RoutineKeepsInv(Value(), Step.GetConfig(r));
      if client.Some? {
        routines := routines[r := Writing(client.value, config.value.requestNumSamples)];
        shouldExit := false;
      } else {
        isRunning := false;
        routines := routines[r := Gone];
        shouldExit := true;
      }
    }
  }

  lemma UpdateKeepsInvIf(s: State, config: Option<Receiver>, fault: bool)
    ensures Inv(s) ==> Inv(Updated(s, config, fault))
  {
    if Inv(s) {
      UpdateKeepsInv(s, config, fault);
    }
  }

  /** A configuration with a URL that differs from the current one is taken exactly when
      its timeout and its request size are not zero and no call failed; then a client
      is built from it and a goroutine lives. */
  lemma UpdateAppliesExactlyWhen(s: State, receiver: Receiver, fault: bool)
    requires Inv(s) && s.config != Some(receiver) && receiver.url != ""
    ensures
      var s' := Updated(s, Some(receiver), fault);
      var good := !fault && receiver.timeoutSeconds != 0 && receiver.requestNumSamples != 0;
      && (s'.config == Some(receiver) <==> good) && (s'.client == Some(receiver) <==> good)
      && (good ==> s'.isRunning) && (!good ==> s' == s)
  {
  }

  /** A goroutine that has finished a call of Write reads the configuration again: its
      next call uses the client and the request size of the configuration as it is then,
      or it ends. */
  lemma NextCallUsesCurrentConfiguration(s: State, r: nat)
    requires Inv(s) && r < |s.routines| && s.routines[r].Writing?
    ensures Enabled(s, EndWrite(r)) && Enabled(Next(s, EndWrite(r)), GetConfig(r))
    ensures
      var s' := Next(Next(s, EndWrite(r)), GetConfig(r));
      s'.routines[r] == if Disabled(s.config) then Gone
                        else Writing(s.config.value, s.config.value.requestNumSamples)
  {
  }
}
