/** The configuration a device holds in memory, in its file and in its observers. */
module ConfigurationManager {
  import opened Options
  import opened SecretLists
  import Reconcile

  /** The contents of the parts that are only compared and copied. */
  datatype Configuration = Configuration(content: string)

  /** A workload as far as the observers touch it: `parses` says that its pod
      specification can be read, `rest` is all that is only compared and copied. */
  datatype Workload = Workload(
    name: string, labels: Option<map<string, string>>, auth: string, parses: bool, rest: string)

  /** None stands for an absent configuration or list, which is not equal to an
      empty one. */
  datatype Message = Message(
    configuration: Option<Configuration>,
    workloads: Option<seq<Workload>>,
    secrets: seq<Secret>,
    deviceId: string,
    version: string)

  datatype File = Missing | Damaged | Holds(message: Message)

  /** What becomes of writing a message: it cannot be encoded, the write fails and
      leaves some file behind, or the file is replaced. */
  datatype Outcome = NotEncoded | WriteFailed(left: File) | Replaced

  datatype Error = ObserverFailed(index: nat) | CannotEncode | CannotWrite

  /** For each observer the messages it was given, the last one last. */
  datatype State = State(memory: Message, initial: bool, file: File, observers: seq<seq<Message>>)

  const DEFAULT := Message(Some(Configuration("heartbeat every 60 seconds")), None, [], "", "")

  /** NewConfigurationManager. */
  function Loaded(file: File): State {
    match file
    case Missing => State(DEFAULT, true, file, [])
    case Damaged => State(DEFAULT, false, file, [])
    case Holds(message) => State(message, false, file, [])
  }

  /** The stored message is taken to say the same. */
  ghost predicate Unchanged(s: State, m: Message) {
    && !s.initial
    && m.configuration == s.memory.configuration
    && m.workloads == s.memory.workloads
    && Matches(m.secrets, s.memory.secrets)
  }

  /** What the workload manager, one of the observers, does to a workload of the
      message it is given: the labels of the pod are written into its own label map,
      if it has one. */
  function Labelled(w: Workload): Workload {
    if w.parses && w.labels.Some? then w.(labels := Some(Reconcile.PodLabels(w.labels.value, w.auth, w.name))) else w
  }

  function AllLabelled(ws: seq<Workload>): (r: seq<Workload>)
    ensures |r| == |ws|
  {
    seq(|ws|, i requires 0 <= i < |ws| => Labelled(ws[i]))
  }

  function LabelledMessage(m: Message): Message {
    if m.workloads.Some? then m.(workloads := Some(AllLabelled(m.workloads.value))) else m
  }

  function Told(observers: seq<seq<Message>>, m: Message): (r: seq<seq<Message>>)
    ensures |r| == |observers|
  {
    seq(|observers|, i requires 0 <= i < |observers| => observers[i] + [m])
  }

  /** Update with message m, which the observers leave as `seen`: the comparison is
      made before they change it, and what they changed is stored. */
  ghost function Updated(s: State, m: Message, seen: Message, outcome: Outcome): State {
    if Unchanged(s, m) then s
    else
      var told := s.(observers := Told(s.observers, seen));
      match outcome
      case NotEncoded => told
      case WriteFailed(left) => told.(file := left)
      case Replaced => told.(file := Holds(seen), memory := seen, initial := false)
  }

  /** The observers that failed, in order, among the first k. */
  function FailedObservers(fails: seq<bool>, k: nat): seq<Error>
    requires k <= |fails|
  {
    if k == 0 then [] else FailedObservers(fails, k - 1) + (if fails[k - 1] then [ObserverFailed(k - 1)] else [])
  }

  /** The errors of a call; a failed write replaces the errors of the observers. */
  ghost function Errors(s: State, m: Message, fails: seq<bool>, outcome: Outcome): seq<Error> {
    if Unchanged(s, m) then []
    else
      match outcome
      case NotEncoded => FailedObservers(fails, |fails|) + [CannotEncode]
      case WriteFailed(_) => [CannotWrite]
      case Replaced => FailedObservers(fails, |fails|)
  }

  // --------------------------------------------------------------- skipped calls

  /** When the stored secrets have distinct names, an Update is skipped exactly
      when the message is the stored one up to the order of its secrets, its
      device id and its version. */
  lemma SkippedExactlyWhenSame(s: State, m: Message)
    requires DistinctNames(s.memory.secrets)
    ensures Unchanged(s, m) <==>
            && !s.initial
            && m.configuration == s.memory.configuration && m.workloads == s.memory.workloads
            && Permutation(m.secrets, s.memory.secrets)
  {
    MatchesIsPermutation(m.secrets, s.memory.secrets);
  }

  /** A message that differs from the stored one in version and device id alone
      reaches neither memory, file nor observers. */
  lemma NewVersionAloneIsIgnored(s: State, version: string, deviceId: string, seen: Message, outcome: Outcome)
    requires !s.initial && DistinctNames(s.memory.secrets)
    ensures Updated(s, s.memory.(version := version, deviceId := deviceId), seen, outcome) == s
  {
    SkippedExactlyWhenSame(s, s.memory.(version := version, deviceId := deviceId));
  }

  /** Labelling a workload changes nothing: its labels cannot be reached, or hold
      already what the workload manager writes. */
  predicate IsLabelled(w: Workload) {
    w.parses && w.labels.Some? ==> Reconcile.PodLabels(w.labels.value, w.auth, w.name) == w.labels.value
  }

  ghost predicate AllAreLabelled(m: Message) {
    m.workloads.Some? ==> forall i :: 0 <= i < |m.workloads.value| ==> IsLabelled(m.workloads.value[i])
  }

  lemma LabelledIsSame(m: Message)
    ensures LabelledMessage(m) == m <==> AllAreLabelled(m)
  {
    if m.workloads.Some? {
      var ws := m.workloads.value;
      forall i | 0 <= i < |ws| ensures AllLabelled(ws)[i] == ws[i] <==> IsLabelled(ws[i]) {
      }
      assert (forall i :: 0 <= i < |ws| ==> AllLabelled(ws)[i] == ws[i]) <==> AllLabelled(ws) == ws;
    }
  }

  /** A stored message that is sent again is skipped if and only if the workload
      manager had nothing to write into it. Otherwise every repetition is stored and
      given to the observers again. */
  lemma ResentIsSkippedExactlyWhen(s: State, m: Message)
    requires DistinctNames(m.secrets) && !Unchanged(s, m)
    ensures Unchanged(Updated(s, m, LabelledMessage(m), Replaced), m) <==> AllAreLabelled(m)
  {
    SkippedExactlyWhenSame(Updated(s, m, LabelledMessage(m), Replaced), m);
    LabelledIsSame(m);
  }

  /** What was stored needs no more labelling, so reading it back at the next start
      changes nothing. */
  lemma StoredIsLabelled(m: Message)
    ensures LabelledMessage(LabelledMessage(m)) == LabelledMessage(m)
  {
    if m.workloads.Some? {
      var ws := m.workloads.value;
      forall i | 0 <= i < |ws| ensures Labelled(Labelled(ws[i])) == Labelled(ws[i]) {
        if ws[i].labels.Some? {
          Reconcile.PodLabelsIdempotent(ws[i].labels.value, ws[i].auth, ws[i].name);
        }
      }
      assert AllLabelled(AllLabelled(ws)) == AllLabelled(ws);
    }
  }

  // ------------------------------------------------------------------------ runs

  datatype Event = Update(message: Message, seen: Message, outcome: Outcome) | Register | Restart | Deregister(ok: bool)

  ghost function Step(s: State, e: Event): State {
    match e
    case Update(m, seen, outcome) => Updated(s, m, seen, outcome)
    case Register => s.(observers := s.observers + [[s.memory]])
    case Restart => Loaded(s.file)
    case Deregister(ok) => if ok then s.(file := Missing) else s
  }

  ghost function Run(s: State, events: seq<Event>, n: nat): State
    requires n <= |events|
  {
    if n == 0 then s else Step(Run(s, events, n - 1), events[n - 1])
  }

  ghost predicate FileAgrees(s: State) {
    s.file == Holds(s.memory)
  }

  ghost predicate ObserversAgree(s: State) {
    forall i :: 0 <= i < |s.observers| ==> s.observers[i] != [] && s.observers[i][|s.observers[i]| - 1] == s.memory
  }

  /** What it takes for the file to agree: the last call that changed the file
      replaced it (a failed write may also leave what is in memory behind), or a
      restart has read it since, or it was right at the start. */
  ghost predicate LastWriteGood(s: State, events: seq<Event>, n: nat)
    requires n <= |events|
  {
    if n == 0 then FileAgrees(s)
    else
      var before := Run(s, events, n - 1);
      match events[n - 1]
      case Update(m, seen, outcome) =>
        if Unchanged(before, m) || outcome.NotEncoded? || outcome == WriteFailed(before.file)
        then LastWriteGood(s, events, n - 1)
        else outcome.Replaced? || outcome.left == Holds(before.memory)
      case Deregister(ok) => !ok && LastWriteGood(s, events, n - 1)
      case Register => LastWriteGood(s, events, n - 1)
      case Restart => before.file.Holds?
  }

  /** After every run the file holds what is in memory if and only if the last write
      that had an effect was good; a restart then loses nothing. */
  lemma {:induction false} FileFollowsMemoryExactlyWhen(s: State, events: seq<Event>, n: nat)
    requires n <= |events|
    ensures FileAgrees(Run(s, events, n)) <==> LastWriteGood(s, events, n)
    ensures LastWriteGood(s, events, n) ==> Step(Run(s, events, n), Restart).memory == Run(s, events, n).memory
  {
    if n > 0 {
      FileFollowsMemoryExactlyWhen(s, events, n - 1);
    }
  }

  /** What it takes for the observers to agree: the last call that was not skipped
      stored its message, or had no observer to tell, or told them what was in
      memory. A restart has no observers; one that registers is told what is in
      memory. */
  ghost predicate LastUpdateStored(s: State, events: seq<Event>, n: nat)
    requires n <= |events|
  {
    if n == 0 then ObserversAgree(s)
    else
      var before := Run(s, events, n - 1);
      match events[n - 1]
      case Update(m, seen, outcome) =>
        if Unchanged(before, m) then LastUpdateStored(s, events, n - 1)
        else outcome.Replaced? || before.observers == [] || seen == before.memory
      case Restart => true
      case Register => LastUpdateStored(s, events, n - 1)
      case Deregister(_) => LastUpdateStored(s, events, n - 1)
  }

  lemma ToldIsLast(observers: seq<seq<Message>>, m: Message, i: nat)
    requires i < |observers|
    ensures Told(observers, m)[i] != [] && Told(observers, m)[i][|Told(observers, m)[i]| - 1] == m
  {
  }

  /** A call that is not skipped leaves the observers with its message. */
  lemma AgreeAfterUpdate(s: State, m: Message, seen: Message, outcome: Outcome)
    requires !Unchanged(s, m)
    ensures ObserversAgree(Updated(s, m, seen, outcome)) <==>
              outcome.Replaced? || s.observers == [] || seen == s.memory
  {
    forall i | 0 <= i < |s.observers|
      ensures Told(s.observers, seen)[i] != [] && Told(s.observers, seen)[i][|Told(s.observers, seen)[i]| - 1] == seen
    {
      ToldIsLast(s.observers, seen, i);
    }
    if s.observers != [] {
      var u := Updated(s, m, seen, outcome);
      assert u.observers[0][|u.observers[0]| - 1] == seen;
    }
  }

  lemma AgreeAfterRegister(s: State)
    ensures ObserversAgree(Step(s, Register)) <==> ObserversAgree(s)
  {
    var u := Step(s, Register);
    assert forall i :: 0 <= i < |s.observers| ==> u.observers[i] == s.observers[i];
  }

  /** After every run, the last message each observer was given is the one in memory
      if and only if the last call that was not skipped stored its message, or had
      nobody to tell, or told what was in memory. */
  lemma {:induction false} ObserversFollowMemoryExactlyWhen(s: State, events: seq<Event>, n: nat)
    requires n <= |events|
    ensures ObserversAgree(Run(s, events, n)) <==> LastUpdateStored(s, events, n)
  {
    hide ObserversAgree, Unchanged;
    if n > 0 {
      ObserversFollowMemoryExactlyWhen(s, events, n - 1);
      var before := Run(s, events, n - 1);
      match events[n - 1]
      case Update(m, seen, outcome) =>
        if !Unchanged(before, m) {
          AgreeAfterUpdate(before, m, seen, outcome);
        }
      case Register => AgreeAfterRegister(before);
      case Restart => NobodyDisagrees(Loaded(before.file));
      case Deregister(ok) => SameObservers(before, Step(before, Deregister(ok)));
    }
  }

  lemma NobodyDisagrees(s: State)
    requires s.observers == []
    ensures ObserversAgree(s)
  {
  }

  lemma SameObservers(s: State, s': State)
    requires s'.observers == s.observers && s'.memory == s.memory
    ensures ObserversAgree(s') <==> ObserversAgree(s)
  {
  }

  /** A message that could not be stored was given to every observer all the same,
      and going back to the stored message is then skipped: the observers stay
      with a configuration that is neither in memory nor, if the write left it
      alone, in the file. */
  lemma ObserversKeepRejectedMessage(s: State, m: Message, seen: Message, outcome: Outcome, again: Event)
    requires !s.initial && DistinctNames(s.memory.secrets) && !Unchanged(s, m) && !outcome.Replaced?
    requires again.Update? && again.message == s.memory
    ensures
      var u := Step(Updated(s, m, seen, outcome), again);
      && u.memory == s.memory && m != s.memory
      && |u.observers| == |s.observers|
      && (forall i :: 0 <= i < |u.observers| ==> u.observers[i] == s.observers[i] + [seen])
      && (s.observers != [] && seen != s.memory ==> !ObserversAgree(u))
  {
    SkippedExactlyWhenSame(s, s.memory);
    SkippedExactlyWhenSame(Updated(s, m, seen, outcome), s.memory);
    if s.observers != [] {
      ToldIsLast(s.observers, seen, 0);
    }
  }

  // ------------------------------------------------------------------- the class

  class Manager {
    var deviceConfiguration: Message
    var initialConfig: bool
    var deviceConfigFile: File
    var observers: seq<seq<Message>>

    ghost function View(): State
      reads this
    {
      State(deviceConfiguration, initialConfig, deviceConfigFile, observers)
    }

    constructor (file: File)
      ensures View() == Loaded(file)
      ensures FileAgrees(View()) <==> file.Holds?
    {
      deviceConfigFile, observers, initialConfig := file, [], false;
      match file {
        case Missing =>
          deviceConfiguration := DEFAULT;
          initialConfig := true;
        case Damaged =>
          deviceConfiguration := DEFAULT;
        case Holds(message) =>
          deviceConfiguration := message;
      }
    }

    method RegisterObserver()
      modifies this`observers
      ensures View() == Step(old(View()), Register)
    {
      observers := observers + [[deviceConfiguration]];
    }

    method Deregister(ok: bool)
      modifies this`deviceConfigFile
      ensures View() == Step(old(View()), Event.Deregister(ok))
    {
      if ok {
        deviceConfigFile := Missing;
      }
    }

    /** `fails` says which observers answer with an error, `seen` what they leave of
        the message. */
    method Update(message: Message, seen: Message, fails: seq<bool>, outcome: Outcome) returns (errors: seq<Error>)
      requires |fails| == |observers|
      modifies this
      ensures View() == Step(old(View()), Event.Update(message, seen, outcome))
      ensures errors == Errors(old(View()), message, fails, outcome)
    {
      var configurationEqual := message.configuration == deviceConfiguration.configuration;
      var workloadsEqual := message.workloads == deviceConfiguration.workloads;
      var secretsEqual := IsEqualUnordered(message.secrets, deviceConfiguration.secrets);
      var shouldUpdate := !(configurationEqual && workloadsEqual && secretsEqual);
      if initialConfig {
        shouldUpdate := true;
      }
      if !shouldUpdate {
        return [];
      }
      errors := NotifyObservers(seen, fails);
      match outcome {
        case NotEncoded =>
          errors := errors + [CannotEncode];
        case WriteFailed(left) =>
          deviceConfigFile := left;
          errors := [CannotWrite];
        case Replaced =>
          deviceConfigFile := Holds(seen);
          deviceConfiguration := seen;
          initialConfig := false;
      }
    }

    /** The loop over the observers. */
    method NotifyObservers(message: Message, fails: seq<bool>) returns (errors: seq<Error>)
      requires |fails| == |observers|
      modifies this`observers
      ensures observers == Told(old(observers), message)
      ensures errors == FailedObservers(fails, |fails|)
    {
      errors := [];
      for k := 0 to |observers|
        invariant |observers| == |old(observers)| && errors == FailedObservers(fails, k)
        invariant forall i :: 0 <= i < |observers| ==>
                    observers[i] == if i < k then old(observers)[i] + [message] else old(observers)[i]
      {
        observers := observers[k := observers[k] + [message]];
        if fails[k] {
          errors := errors + [ObserverFailed(k)];
        }
      }
      assert observers == Told(old(observers), message);
    }
  }

  // ---------------------------------------------------------- what is reported

  /** The error says that one of the first k observers failed, and it did. */
  predicate IsFailure(fails: seq<bool>, k: nat, x: Error)
    requires k <= |fails|
  {
    x.ObserverFailed? && x.index < k && fails[x.index]
  }

  ghost predicate InObserverOrder(e: seq<Error>) {
    forall a, b :: 0 <= a < b < |e| ==> e[a].ObserverFailed? && e[b].ObserverFailed? && e[a].index < e[b].index
  }

  lemma OneMoreInOrder(e: seq<Error>, fails: seq<bool>, k: nat)
    requires k < |fails| && InObserverOrder(e) && forall x :: x in e ==> IsFailure(fails, k, x)
    ensures InObserverOrder(e + [ObserverFailed(k)])
  {
    forall a | 0 <= a < |e| ensures e[a].ObserverFailed? && e[a].index < k {
      assert e[a] in e;
    }
  }

  /** The failed observers are listed, each once, in their order. */
  lemma {:induction false} FailedObserversAre(fails: seq<bool>, k: nat)
    requires k <= |fails|
    ensures forall x :: x in FailedObservers(fails, k) <==> IsFailure(fails, k, x)
    ensures InObserverOrder(FailedObservers(fails, k))
  {
    if k > 0 {
      FailedObserversAre(fails, k - 1);
      var before, e := FailedObservers(fails, k - 1), FailedObservers(fails, k);
      hide InObserverOrder;
      if fails[k - 1] {
        assert e == before + [ObserverFailed(k - 1)];
        OneMoreInOrder(before, fails, k - 1);
        forall x ensures x in e <==> IsFailure(fails, k, x) {
          assert x in e <==> x in before || x == ObserverFailed(k - 1);
        }
      } else {
        assert e == before;
        forall x ensures x in e <==> IsFailure(fails, k, x) {
        }
      }
    }
  }

  /** What a call reports: nothing when it is skipped; a failed write reports only
      itself; else the failed observers, and that the message could not be encoded. */
  lemma ErrorsAre(s: State, m: Message, fails: seq<bool>, outcome: Outcome)
    ensures
      var e := Errors(s, m, fails, outcome);
      && (Unchanged(s, m) ==> e == [])
      && (!Unchanged(s, m) && outcome.WriteFailed? ==> e == [CannotWrite])
      && (!Unchanged(s, m) && !outcome.WriteFailed? ==>
          && (CannotEncode in e <==> outcome.NotEncoded?) && CannotWrite !in e
          && forall i: nat :: ObserverFailed(i) in e <==> i < |fails| && fails[i])
  {
    FailedObserversAre(fails, |fails|);
    hide FailedObservers, Unchanged;
    var failed, e := FailedObservers(fails, |fails|), Errors(s, m, fails, outcome);
    assert !IsFailure(fails, |fails|, CannotWrite) && !IsFailure(fails, |fails|, CannotEncode);
    forall i: nat ensures ObserverFailed(i) in failed <==> i < |fails| && fails[i] {
      assert IsFailure(fails, |fails|, ObserverFailed(i)) <==> i < |fails| && fails[i];
    }
    if !Unchanged(s, m) && outcome.NotEncoded? {
      assert e == failed + [CannotEncode] && e[|failed|] == CannotEncode;
    }
  }

  /** Without a file the first message is never skipped, and neither is the next one
      after it could not be stored; with a file, damaged or not, the default or stored
      message is skipped at once. */
  lemma FirstUpdateIsForced(file: File, m: Message, seen: Message, outcome: Outcome, again: Message)
    ensures file.Missing? ==> !Unchanged(Loaded(file), m)
    ensures file.Missing? && !outcome.Replaced? ==> !Unchanged(Updated(Loaded(file), m, seen, outcome), again)
    ensures !file.Missing? && DistinctNames(Loaded(file).memory.secrets) ==>
              Unchanged(Loaded(file), Loaded(file).memory)
  {
    if DistinctNames(Loaded(file).memory.secrets) {
      SkippedExactlyWhenSame(Loaded(file), Loaded(file).memory);
    }
  }

  /** Deregister is not seen by this process, which skips the same messages as before; the
      next one starts without a file, from the default message, and takes any. A process
      that starts leaves the file alone, a damaged one too. */
  lemma DeregisterIsForNextProcess(s: State, ok: bool, m: Message)
    ensures
      var gone := Step(s, Deregister(ok));
      && (Unchanged(gone, m) <==> Unchanged(s, m))
      && gone.memory == s.memory && gone.observers == s.observers
      && (!ok ==> gone.file == s.file) && (ok ==> !Unchanged(Step(gone, Restart), m))
      && (ok ==> Step(gone, Restart).memory == DEFAULT)
    ensures Step(s, Restart).file == s.file && Step(s, Restart).observers == []
    ensures s.file.Damaged? ==> Step(s, Restart).memory == DEFAULT
  {
  }
}
