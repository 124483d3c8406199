/** Handlers and executors of playbooks: two goroutines per message, talking
    over two unbuffered channels, with a timeout on the handler's side, all
    sharing the table of pending playbooks; processes may crash at any point. */
module PlaybookProtocol {
  import opened PlaybookTable
  import opened PendingPlaybooks

  /** Where execPlaybook stands. The Sending states wait for the handler;
      Closing is between the last send and the deferred closes. */
  datatype Executor = Checking | Reading | Adding | Running | SendingResults | Removing | SendingDone | Closing | Closed

  /** Where the select loop of HandlePlaybook stands. */
  datatype Handler = Selecting | Posting | TimedOut | Completed

  /** What an executor was answered: whether its time was in the table, whether its file
      could be read, whether its playbook was stored, whether the results were parsed. */
  datatype Answer = Found(yes: bool) | Readable(yes: bool) | AddedOk(yes: bool) | ParsedOk(yes: bool)

  /** One message being handled. `answers` records what its executor was answered so
      far, `stored` says that the Add succeeded, `removed` that the Remove was executed,
      `posts` counts the results posted and `dones` the calls of wg.Done. */
  datatype Session = Session(
    path: Path, modTime: ModTime, exec: Executor, handler: Handler,
    stored: bool, removed: bool, posts: nat, dones: nat, answers: seq<Answer>)

  /** The table in memory, the table on disk, the messages of this process, the
      wait group, and the playbooks that earlier processes started and that were
      not run to results since. */
  datatype State = State(
    table: Table, disk: map<ModTime, Path>, sessions: seq<Session>, waiting: int, owed: map<Path, nat>)

  datatype Step =
    | Start(path: Path, modTime: ModTime)
    | Check(i: nat)
    | Read(i: nat, readable: bool)
    | Add(i: nat, writeFault: bool, persistFault: bool)
    | Run(i: nat, parsed: bool)
    | HandOver(i: nat)
    | EndPost(i: nat)
    | Remove(i: nat, persistFault: bool)
    | Finish(i: nat)
    | Close(i: nat)
    | Timeout(i: nat)
    | Crash(list: seq<Entry>)
    | RunPending(walk: seq<Path>, outcome: Outcomes)

  const INITIAL := State(EMPTY, map[], [], 0, map[])

  // ------------------------------------------------------------ transitions

  function Owed(owed: map<Path, nat>, p: Path): nat {
    if p in owed then owed[p] else 0
  }

  /** A playbook that was started and not yet removed: it has to survive. */
  predicate Unsettled(s: Session) {
    s.stored && !s.removed
  }

  function UnsettledOn(sessions: seq<Session>, p: Path): nat {
    if sessions == [] then 0
    else
      var last := |sessions| - 1;
      UnsettledOn(sessions[..last], p) + Weight(sessions[last], p)
  }

  function Weight(s: Session, p: Path): nat {
    if Unsettled(s) && s.path == p then 1 else 0
  }

  function OwedAfterCrash(s: State): map<Path, nat> {
    map p | p in s.owed.Keys + set x | x in s.sessions :: x.path :: UnsettledOn(s.sessions, p) + Owed(s.owed, p)
  }

  function OwedAfterPass(owed: map<Path, nat>, ran: seq<Path>): map<Path, nat> {
    map p | p in owed :: if owed[p] <= Occurrences(ran, p) then 0 else owed[p] - Occurrences(ran, p)
  }

  /** Modification times are distinct and not zero among the messages of one
      process; nothing is asked of the entries that earlier processes left. */
  ghost predicate FreshTime(s: State, modTime: ModTime) {
    modTime != NO_TIME && forall x <- s.sessions :: x.modTime != modTime
  }

  ghost predicate Enabled(s: State, step: Step) {
    match step
    case Start(_, modTime) => FreshTime(s, modTime)
    case Crash(list) => IsListing(list, s.disk)
    case RunPending(walk, _) => s.sessions == [] && IsWalk(walk, s.table.paths)
    case _ =>
      && step.i < |s.sessions|
      && var x := s.sessions[step.i];
         match step
         case Check(_) => x.exec.Checking?
         case Read(_, _) => x.exec.Reading?
         case Add(_, _, _) => x.exec.Adding?
         case Run(_, _) => x.exec.Running?
         case HandOver(_) => x.exec.SendingResults? && x.handler.Selecting?
         case EndPost(_) => x.handler.Posting?
         case Remove(_, _) => x.exec.Removing?
         case Finish(_) => x.exec.SendingDone? && x.handler.Selecting?
         case Close(_) => x.exec.Closing?
         case _ => x.handler.Selecting?
  }

  function With(s: State, i: nat, x: Session): State
    requires i < |s.sessions|
  {
    s.(sessions := s.sessions[i := x])
  }

  /** The table after a change, with its copy on disk unless writing it failed. */
  function WithTable(s: State, table: Table, persistFault: bool): State {
    s.(table := table, disk := if persistFault then s.disk else table.paths)
  }

  ghost function Next(s: State, step: Step): State
    requires Enabled(s, step)
  {
    match step
    case Start(path, modTime) =>
      s.(sessions := s.sessions + [Session(path, modTime, Checking, Selecting, false, false, 0, 0, [])],
         waiting := s.waiting + 1)
    case Check(i) =>
      var x := s.sessions[i];
      With(s, i, x.(exec := if x.modTime in s.table.paths then SendingDone else Reading,
                    answers := x.answers + [Found(x.modTime in s.table.paths)]))
    case Read(i, readable) =>
      var x := s.sessions[i];
      With(s, i, x.(exec := if readable then Adding else SendingDone, answers := x.answers + [Readable(readable)]))
    case Add(i, writeFault, persistFault) =>
      var x := s.sessions[i];
      var asked := x.(answers := x.answers + [AddedOk(!writeFault && !persistFault)]);
      if writeFault then With(s, i, asked.(exec := SendingDone))
      else
        With(WithTable(s, Added(s.table, x.path, x.modTime), persistFault), i,
             if persistFault then asked.(exec := SendingDone) else asked.(exec := Running, stored := true))
    case Run(i, parsed) =>
      var x := s.sessions[i];
      With(s, i, x.(exec := if parsed then SendingResults else SendingDone, answers := x.answers + [ParsedOk(parsed)]))
    case HandOver(i) =>
      var x := s.sessions[i];
      With(s, i, x.(exec := Removing, handler := Posting, posts := x.posts + 1))
    case EndPost(i) => With(s, i, s.sessions[i].(handler := Selecting))
    case Remove(i, persistFault) =>
      var x := s.sessions[i];
      With(WithTable(s, Removed(s.table, x.path), persistFault), i, x.(exec := SendingDone, removed := true))
    case Finish(i) =>
      var x := s.sessions[i];
      With(s, i, x.(exec := Closing, handler := Completed, dones := x.dones + 1)).(waiting := s.waiting - 1)
    case Close(i) => With(s, i, s.sessions[i].(exec := Closed))
    case Timeout(i) =>
      var x := s.sessions[i];
      With(s, i, x.(handler := TimedOut, dones := x.dones + 1)).(waiting := s.waiting - 1)
    case Crash(list) => State(Loaded(list), s.disk, [], 0, OwedAfterCrash(s))
    case RunPending(walk, outcome) =>
      var r := PassFrom(s.table, s.disk, walk, outcome, 0);
      s.(table := r.table, disk := r.disk, owed := OwedAfterPass(s.owed, walk[..r.handled]))
  }

  ghost predicate IsRun(s: State, steps: seq<Step>)
    decreases |steps|
  {
    steps == [] || (Enabled(s, steps[0]) && IsRun(Next(s, steps[0]), steps[1..]))
  }

  ghost function After(s: State, steps: seq<Step>): State
    requires IsRun(s, steps)
    decreases |steps|
  {
    if steps == [] then s else After(Next(s, steps[0]), steps[1..])
  }

  // ------------------------------------------------------------- invariants

  /** The two goroutines of one message. */
  predicate SessionInv(x: Session) {
    && x.posts <= 1
    && x.dones == (if x.handler.TimedOut? || x.handler.Completed? then 1 else 0)
    && (x.handler.Posting? ==> x.posts == 1)
    && (x.exec.Closing? || x.exec.Closed? ==> x.handler.Completed?)
    && (x.handler.Completed? ==> x.exec.Closing? || x.exec.Closed?)
    && (x.posts == 1 <==> x.exec.Removing? || x.removed)
    && (x.exec.Running? || x.exec.SendingResults? || x.exec.Removing? ==> Unsettled(x))
    && (x.exec.Checking? || x.exec.Reading? || x.exec.Adding? ==> !x.stored)
    && (x.removed ==> x.stored && (x.exec.SendingDone? || x.exec.Closing? || x.exec.Closed?))
    && AnswersInv(x)
  }

  const ALL_WELL := [Found(false), Readable(true), AddedOk(true), ParsedOk(true)]

  /** All was well up to the last answer, and that was not. */
  predicate EndedEarly(answers: seq<Answer>) {
    || answers == [Found(true)]
    || answers == [Found(false), Readable(false)]
    || answers == [Found(false), Readable(true), AddedOk(false)]
    || answers == [Found(false), Readable(true), AddedOk(true), ParsedOk(false)]
  }

  /** Where an executor stands follows from what it was answered; past the results it
      was either all well and the results were posted and the entry removed, or not and
      neither was. */
  predicate AnswersInv(x: Session) {
    && (x.stored <==> |x.answers| > 2 && x.answers[2] == AddedOk(true))
    && match x.exec
       case Checking => x.answers == []
       case Reading => x.answers == [Found(false)]
       case Adding => x.answers == [Found(false), Readable(true)]
       case Running => x.answers == [Found(false), Readable(true), AddedOk(true)]
       case SendingResults => x.answers == ALL_WELL && x.posts == 0
       case Removing => x.answers == ALL_WELL && x.posts == 1
       case _ =>
         if x.answers == ALL_WELL then x.posts == 1 && x.removed
         else EndedEarly(x.answers) && x.posts == 0 && !x.removed
  }

  function Active(sessions: seq<Session>): nat {
    if sessions == [] then 0
    else
      var last := |sessions| - 1;
      Active(sessions[..last]) + ActiveWeight(sessions[last])
  }

  function ActiveWeight(x: Session): nat {
    if x.handler.Selecting? || x.handler.Posting? then 1 else 0
  }

  /** Between its check and its Add, an executor's time is not in the table. */
  ghost predicate TimesFresh(s: State) {
    && (forall x <- s.sessions :: x.modTime != NO_TIME)
    && (forall i, j :: 0 <= i < j < |s.sessions| ==> s.sessions[i].modTime != s.sessions[j].modTime)
    && (forall x <- s.sessions :: x.exec.Reading? || x.exec.Adding? ==> x.modTime !in s.table.paths)
  }

  /** The number of entries with a path, in memory and on disk, is at least the
      number of started and not removed playbooks with that path. */
  ghost predicate Enough(s: State, p: Path) {
    && UnsettledOn(s.sessions, p) + Owed(s.owed, p) <= Count(s.table.paths, p)
    && UnsettledOn(s.sessions, p) + Owed(s.owed, p) <= Count(s.disk, p)
  }

  ghost predicate Inv(s: State) {
    && Valid(s.table) && NO_TIME !in s.disk
    && TimesFresh(s)
    && s.waiting == Active(s.sessions)
    && (forall x <- s.sessions :: SessionInv(x))
    && forall p :: Enough(s, p)
  }

  // ------------------------------------------------------- counting lemmas

  lemma {:induction false} UnsettledUpdate(sessions: seq<Session>, i: nat, x: Session, p: Path)
    requires i < |sessions|
    ensures UnsettledOn(sessions[i := x], p) + Weight(sessions[i], p) == UnsettledOn(sessions, p) + Weight(x, p)
  {
    var last := |sessions| - 1;
    if i < last {
      assert sessions[i := x][..last] == sessions[..last][i := x];
      UnsettledUpdate(sessions[..last], i, x, p);
    } else {
      assert sessions[i := x][..last] == sessions[..last];
    }
  }

  lemma {:induction false} ActiveUpdate(sessions: seq<Session>, i: nat, x: Session)
    requires i < |sessions|
    ensures Active(sessions[i := x]) + ActiveWeight(sessions[i]) == Active(sessions) + ActiveWeight(x)
  {
    var last := |sessions| - 1;
    if i < last {
      assert sessions[i := x][..last] == sessions[..last][i := x];
      ActiveUpdate(sessions[..last], i, x);
    } else {
      assert sessions[i := x][..last] == sessions[..last];
    }
  }

  lemma {:induction false} UnsettledHasSession(sessions: seq<Session>, p: Path)
    requires UnsettledOn(sessions, p) > 0
    ensures exists x :: x in sessions && x.path == p && Unsettled(x)
  {
    var last := |sessions| - 1;
    if Weight(sessions[last], p) > 0 {
      assert sessions[last] in sessions;
    } else {
      UnsettledHasSession(sessions[..last], p);
      var x :| x in sessions[..last] && x.path == p && Unsettled(x);
      assert x in sessions;
    }
  }

  lemma {:induction false} UnsettledCounted(sessions: seq<Session>, i: nat)
    requires i < |sessions| && Unsettled(sessions[i])
    ensures UnsettledOn(sessions, sessions[i].path) > 0
  {
    var last := |sessions| - 1;
    if i < last {
      UnsettledCounted(sessions[..last], i);
    }
  }

  // ------------------------------------------------------ every step keeps it

  /** Entries gained by the change of the table cover what message i gains. */
  ghost predicate Balanced(s: State, i: nat, x: Session, table: Table, persistFault: bool, p: Path)
    requires i < |s.sessions|
  {
    && Weight(x, p) + Count(s.table.paths, p) <= Weight(s.sessions[i], p) + Count(table.paths, p)
    && (persistFault ==> Weight(x, p) <= Weight(s.sessions[i], p))
  }

  lemma ChangeKeepsEnough(s: State, i: nat, x: Session, table: Table, persistFault: bool, p: Path)
    requires i < |s.sessions| && Enough(s, p) && Balanced(s, i, x, table, persistFault, p)
    ensures Enough(With(WithTable(s, table, persistFault), i, x), p)
  {
    UnsettledUpdate(s.sessions, i, x, p);
  }

  lemma ChangeKeepsTimes(s: State, i: nat, x: Session, table: Table)
    requires i < |s.sessions| && TimesFresh(s) && x.modTime == s.sessions[i].modTime
    requires forall m :: m in table.paths ==> m in s.table.paths || m == x.modTime
    requires x.exec.Reading? || x.exec.Adding? ==> x.modTime !in table.paths
    ensures TimesFresh(With(s.(table := table), i, x))
  {
  }

  /** A step of message i, with or without a change of the table. */
  lemma ChangeKeepsInv(s: State, i: nat, x: Session, table: Table, persistFault: bool, waiting: int)
    requires Inv(s) && i < |s.sessions| && SessionInv(x) && Valid(table)
    requires x.modTime == s.sessions[i].modTime
    requires forall p :: Balanced(s, i, x, table, persistFault, p)
    requires forall m :: m in table.paths ==> m in s.table.paths || m == x.modTime
    requires x.exec.Reading? || x.exec.Adding? ==> x.modTime !in table.paths
    requires waiting + ActiveWeight(s.sessions[i]) == s.waiting + ActiveWeight(x)
    ensures Inv(With(WithTable(s, table, persistFault), i, x).(waiting := waiting))
  {
    var s' := With(WithTable(s, table, persistFault), i, x).(waiting := waiting);
    ActiveUpdate(s.sessions, i, x);
    ChangeKeepsTimes(s, i, x, table);
    forall p
      ensures Enough(s', p)
    {
      assert Enough(s, p) && Balanced(s, i, x, table, persistFault, p);
      ChangeKeepsEnough(s, i, x, table, persistFault, p);
    }
    assert forall y <- s'.sessions :: y == x || y in s.sessions;
  }

  predicate Quiet(step: Step) {
    !step.Start? && !step.Add? && !step.Remove? && !step.Crash? && !step.RunPending?
  }

  lemma EarlyIsNotWell(answers: seq<Answer>)
    requires EndedEarly(answers)
    ensures answers != ALL_WELL
  {
    assert ALL_WELL[3] == ParsedOk(true);
  }

  /** One answer more than these: all well so far, or ended. */
  lemma NextAnswer(answers: seq<Answer>, yes: bool)
    ensures answers == [] ==>
              if yes then EndedEarly(answers + [Found(yes)]) else answers + [Found(yes)] == [Found(false)]
    ensures answers == [Found(false)] ==>
              if yes then answers + [Readable(yes)] == [Found(false), Readable(true)]
              else EndedEarly(answers + [Readable(yes)])
    ensures answers == [Found(false), Readable(true)] ==>
              if yes then answers + [AddedOk(yes)] == [Found(false), Readable(true), AddedOk(true)]
              else EndedEarly(answers + [AddedOk(yes)])
    ensures answers == [Found(false), Readable(true), AddedOk(true)] ==>
              if yes then answers + [ParsedOk(yes)] == ALL_WELL else EndedEarly(answers + [ParsedOk(yes)])
  {
  }

  lemma CheckSession(s: State, step: Step)
    requires Enabled(s, step) && step.Check? && SessionInv(s.sessions[step.i])
    ensures SessionInv(Next(s, step).sessions[step.i])
  {
    var x, x' := s.sessions[step.i], Next(s, step).sessions[step.i];
    NextAnswer(x.answers, x.modTime in s.table.paths);
    if EndedEarly(x'.answers) {
      EarlyIsNotWell(x'.answers);
    }
    hide EndedEarly;
  }

  lemma ReadSession(s: State, step: Step)
    requires Enabled(s, step) && step.Read? && SessionInv(s.sessions[step.i])
    ensures SessionInv(Next(s, step).sessions[step.i])
  {
    var x' := Next(s, step).sessions[step.i];
    NextAnswer(s.sessions[step.i].answers, step.readable);
    if EndedEarly(x'.answers) {
      EarlyIsNotWell(x'.answers);
    }
    hide EndedEarly;
  }

  lemma RunSession(s: State, step: Step)
    requires Enabled(s, step) && step.Run? && SessionInv(s.sessions[step.i])
    ensures SessionInv(Next(s, step).sessions[step.i])
  {
    var x' := Next(s, step).sessions[step.i];
    NextAnswer(s.sessions[step.i].answers, step.parsed);
    if EndedEarly(x'.answers) {
      EarlyIsNotWell(x'.answers);
    }
    hide EndedEarly;
  }

  lemma QuietSession(s: State, step: Step)
    requires Enabled(s, step) && Quiet(step) && SessionInv(s.sessions[step.i])
    ensures SessionInv(Next(s, step).sessions[step.i])
  {
    hide EndedEarly;
    match step
    case Check(_) => CheckSession(s, step);
    case Read(_, _) => ReadSession(s, step);
    case Run(_, _) => RunSession(s, step);
    case _ =>
  }

  lemma QuietStepKeepsInv(s: State, step: Step)
    requires Inv(s) && Enabled(s, step) && Quiet(step)
    ensures Inv(Next(s, step))
  {
    var s' := Next(s, step);
    assert s.sessions[step.i] in s.sessions;
    QuietSession(s, step);
    hide AnswersInv;
    assert s' == With(WithTable(s, s.table, true), step.i, s'.sessions[step.i]).(waiting := s'.waiting);
    ChangeKeepsInv(s, step.i, s'.sessions[step.i], s.table, true, s'.waiting);
  }

  lemma StartKeepsTimes(s: State, x: Session)
    requires TimesFresh(s) && FreshTime(s, x.modTime) && x.exec.Checking?
    ensures TimesFresh(s.(sessions := s.sessions + [x]))
  {
    assert forall i :: 0 <= i < |s.sessions| ==> s.sessions[i] in s.sessions;
  }

  lemma StartCounts(sessions: seq<Session>, x: Session, p: Path)
    ensures UnsettledOn(sessions + [x], p) == UnsettledOn(sessions, p) + Weight(x, p)
    ensures Active(sessions + [x]) == Active(sessions) + ActiveWeight(x)
  {
    assert (sessions + [x])[..|sessions|] == sessions;
  }

  lemma StartKeepsInv(s: State, step: Step)
    requires Inv(s) && Enabled(s, step) && step.Start?
    ensures Inv(Next(s, step))
  {
    hide TimesFresh, UnsettledOn, Active, Count;
    var x := Session(step.path, step.modTime, Checking, Selecting, false, false, 0, 0, []);
    StartKeepsTimes(s, x);
    SameTable(s.(sessions := s.sessions + [x]), Next(s, step));
    StartCounts(s.sessions, x, "");
    forall p
      ensures Enough(Next(s, step), p)
    {
      assert Enough(s, p);
      StartCounts(s.sessions, x, p);
    }
  }

  lemma SameTable(s: State, s': State)
    requires s'.sessions == s.sessions && s'.table == s.table && TimesFresh(s)
    ensures TimesFresh(s')
  {
  }

  lemma AddKeepsInv(s: State, step: Step)
    requires Inv(s) && Enabled(s, step) && step.Add?
    ensures Inv(Next(s, step))
  {
    var s' := Next(s, step);
    var x, x' := s.sessions[step.i], s'.sessions[step.i];
    assert x in s.sessions;
    var table, fault := if step.writeFault then s.table else s'.table, step.writeFault || step.persistFault;
    NextAnswer(x.answers, !step.writeFault && !step.persistFault);
    AddKeepsValidExactlyWhen(s.table, x.path, x.modTime);
    forall p
      ensures Balanced(s, step.i, x', table, fault, p)
    {
      AddCounts(s.table, x.path, x.modTime, p);
    }
    assert s' == With(WithTable(s, table, fault), step.i, x').(waiting := s.waiting);
    ChangeKeepsInv(s, step.i, x', table, fault, s.waiting);
  }

  lemma RemoveKeepsInv(s: State, step: Step)
    requires Inv(s) && Enabled(s, step) && step.Remove?
    ensures Inv(Next(s, step))
  {
    var s' := Next(s, step);
    var x, x' := s.sessions[step.i], s'.sessions[step.i];
    assert x in s.sessions;
    RemoveCounts(s.table, x.path, x.path);
    forall p
      ensures Balanced(s, step.i, x', s'.table, step.persistFault, p)
    {
      RemoveCounts(s.table, x.path, p);
    }
    assert s' == With(WithTable(s, s'.table, step.persistFault), step.i, x').(waiting := s.waiting);
    ChangeKeepsInv(s, step.i, x', s'.table, step.persistFault, s.waiting);
  }

  lemma CrashKeepsInv(s: State, step: Step)
    requires Inv(s) && Enabled(s, step) && step.Crash?
    ensures Inv(Next(s, step))
  {
    var s' := Next(s, step);
    ReloadKeepsEntries(step.list, s.disk);
    forall p
      ensures Enough(s', p)
    {
      assert Enough(s, p);
      if UnsettledOn(s.sessions, p) > 0 {
        UnsettledHasSession(s.sessions, p);
      }
    }
  }

  lemma {:induction false} PassDisk(t: Table, disk: map<ModTime, Path>, list: seq<Path>, outcome: Outcomes, k: nat,
                                    p: Path)
    requires k <= |list| && Valid(t) && NO_TIME !in disk
    ensures
      var r := PassFrom(t, disk, list, outcome, k);
      var lost := if p in t.times && p in list[k..r.handled] then 1 else 0;
      && NO_TIME !in r.disk
      && (Count(disk, p) - lost <= Count(r.disk, p) || Count(t.paths, p) - lost <= Count(r.disk, p))
    decreases |list| - k
  {
    if k < |list| && outcome(k).Parsed? {
      var t' := Removed(t, list[k]);
      var disk' := if outcome(k).persistFault then disk else t'.paths;
      RemoveCounts(t, list[k], p);
      PassDisk(t', disk', list, outcome, k + 1, p);
      var h := PassFrom(t, disk, list, outcome, k).handled;
      SliceHead(list, k, h);
    }
  }

  lemma PendingKeepsInv(s: State, step: Step)
    requires Inv(s) && Enabled(s, step) && step.RunPending?
    ensures Inv(Next(s, step))
  {
    var s' := Next(s, step);
    var ran := step.walk[..PassFrom(s.table, s.disk, step.walk, step.outcome, 0).handled];
    forall p
      ensures Enough(s', p)
    {
      assert Enough(s, p);
      PassCounts(s.table, s.disk, step.walk, step.outcome, 0, p);
      PassDisk(s.table, s.disk, step.walk, step.outcome, 0, p);
      OccurrencesPositive(ran, p);
    }
    PassCounts(s.table, s.disk, step.walk, step.outcome, 0, "");
    PassDisk(s.table, s.disk, step.walk, step.outcome, 0, "");
  }

  lemma StepKeepsInv(s: State, step: Step)
    requires Inv(s) && Enabled(s, step)
    ensures Inv(Next(s, step))
  {
    match step
    case Start(_, _) => StartKeepsInv(s, step);
    case Add(_, _, _) => AddKeepsInv(s, step);
    case Remove(_, _) => RemoveKeepsInv(s, step);
    case Crash(_) => CrashKeepsInv(s, step);
    case RunPending(_, _) => PendingKeepsInv(s, step);
    case _ => QuietStepKeepsInv(s, step);
  }

  lemma {:induction false} RunKeepsInv(s: State, steps: seq<Step>)
    requires Inv(s) && IsRun(s, steps)
    ensures Inv(After(s, steps))
    decreases |steps|
  {
    if steps != [] {
      StepKeepsInv(s, steps[0]);
      RunKeepsInv(Next(s, steps[0]), steps[1..]);
    }
  }

  lemma InitialInv()
    ensures Inv(INITIAL)
  {
  }

  // ----------------------------------------------------------- main results

  /** No started playbook is lost. In every interleaving of messages, executor
      and handler steps, timeouts, failing writes, crashes and pending passes:
      for every content, the entries on disk and in memory with its path are at
      least as many as the executors between their Add and their Remove on it
      plus the ones that crashed there and were not run since. */
  lemma StartedPlaybooksAreKept(steps: seq<Step>, p: Path)
    requires IsRun(INITIAL, steps)
    ensures
      var s := After(INITIAL, steps);
      && UnsettledOn(s.sessions, p) + Owed(s.owed, p) <= Count(s.disk, p)
      && UnsettledOn(s.sessions, p) + Owed(s.owed, p) <= Count(s.table.paths, p)
  {
    InitialInv();
    RunKeepsInv(INITIAL, steps);
    assert Enough(After(INITIAL, steps), p);
  }

  /** So a crash at any moment leaves every executor that had stored its playbook
      and not handed over its results to the next process: its path is in the
      reloaded table. */
  lemma CrashRecoversUnfinishedPlaybook(steps: seq<Step>, i: nat, list: seq<Entry>)
    requires IsRun(INITIAL, steps)
    requires i < |After(INITIAL, steps).sessions| && Unsettled(After(INITIAL, steps).sessions[i])
    requires IsListing(list, After(INITIAL, steps).disk)
    ensures After(INITIAL, steps).sessions[i].path in Loaded(list).paths.Values
  {
    var s := After(INITIAL, steps);
    var p := s.sessions[i].path;
    InitialInv();
    RunKeepsInv(INITIAL, steps);
    StartedPlaybooksAreKept(steps, p);
    UnsettledCounted(s.sessions, i);
    ReloadKeepsEntries(list, s.disk);
    CountPositive(s.disk, p);
  }

  /** The handler's contract, in every interleaving: results are posted at most
      once; wg.Done is called exactly once, when the handler ends, and the wait
      group equals the handlers that have not ended; the channels are closed only
      after the handler has ended, so it never receives from a closed one; results
      of a message whose handler timed out before receiving them stay pending;
      and a handler that posted results and ended by completion ended after the
      playbook was removed from the table. */
  lemma HandlerContract(steps: seq<Step>, i: nat)
    requires IsRun(INITIAL, steps) && i < |After(INITIAL, steps).sessions|
    ensures
      var s := After(INITIAL, steps);
      var x := s.sessions[i];
      && x.posts <= 1
      && (x.dones == 1 <==> x.handler.TimedOut? || x.handler.Completed?) && x.dones <= 1
      && s.waiting == Active(s.sessions)
      && !(x.handler.Selecting? && (x.exec.Closing? || x.exec.Closed?))
      && (x.handler.TimedOut? && x.posts == 0 ==> !x.removed)
      && (x.handler.Completed? && x.posts == 1 ==> x.removed)
  {
    InitialInv();
    RunKeepsInv(INITIAL, steps);
    assert After(INITIAL, steps).sessions[i] in After(INITIAL, steps).sessions;
  }

  /** The executor waits to send to a handler that has timed out. */
  predicate Stuck(x: Session) {
    x.handler.TimedOut? && (x.exec.SendingResults? || x.exec.SendingDone?)
  }

  /** A step of message i itself. */
  predicate StepOf(step: Step, i: nat) {
    !step.Start? && !step.Crash? && !step.RunPending? && step.i == i
  }

  /** It then has no step at all, and stays as it is in every run without a crash. */
  lemma {:induction false} StuckForGood(s: State, steps: seq<Step>, i: nat)
    requires IsRun(s, steps) && i < |s.sessions| && Stuck(s.sessions[i])
    requires forall k :: 0 <= k < |steps| ==> !steps[k].Crash?
    ensures i < |After(s, steps).sessions| && After(s, steps).sessions[i] == s.sessions[i]
    ensures forall step :: StepOf(step, i) ==> !Enabled(After(s, steps), step)
    decreases |steps|
  {
    if steps != [] {
      StuckStep(s, steps[0], i);
      StuckForGood(Next(s, steps[0]), steps[1..], i);
    }
  }

  lemma StuckStep(s: State, step: Step, i: nat)
    requires Enabled(s, step) && i < |s.sessions| && Stuck(s.sessions[i]) && !step.Crash?
    ensures i < |Next(s, step).sessions| && Next(s, step).sessions[i] == s.sessions[i]
  {
  }

  // ------------------------------------------------ which executors ever end

  ghost predicate CrashFree(steps: seq<Step>) {
    forall k :: 0 <= k < |steps| ==> !steps[k].Crash?
  }

  /** A handler that has timed out stays so. */
  lemma TimedOutStep(s: State, step: Step, i: nat)
    requires Enabled(s, step) && !step.Crash? && i < |s.sessions| && s.sessions[i].handler.TimedOut?
    ensures i < |Next(s, step).sessions| && Next(s, step).sessions[i].handler.TimedOut?
    ensures Next(s, step).sessions[i].posts == s.sessions[i].posts
  {
  }

  lemma {:induction false} TimedOutForGood(s: State, steps: seq<Step>, i: nat)
    requires IsRun(s, steps) && CrashFree(steps) && i < |s.sessions| && s.sessions[i].handler.TimedOut?
    ensures i < |After(s, steps).sessions| && After(s, steps).sessions[i].handler.TimedOut?
    decreases |steps|
  {
    hide Next, Enabled;
    if steps != [] {
      TimedOutStep(s, steps[0], i);
      TimedOutForGood(Next(s, steps[0]), steps[1..], i);
    }
  }

  /** How many steps a session still needs at most. */
  function Left(x: Session): nat {
    var posting := if x.handler.Posting? then 1 else 0;
    match x.exec
    case Checking => 20
    case Reading => 18
    case Adding => 16
    case Running => 14
    case SendingResults => 12
    case Removing => 8 + posting
    case SendingDone => 4 + posting
    case Closing => 2
    case Closed => 0
  }

  /** A step that brings an executor closer to its end, if its handler has not timed
      out. */
  function Forward(x: Session, i: nat): Step {
    match x.exec
    case Checking => Check(i)
    case Reading => Read(i, false)
    case Adding => Add(i, true, false)
    case Running => Run(i, false)
    case SendingResults => HandOver(i)
    case Removing => Remove(i, true)
    case SendingDone => if x.handler.Posting? then EndPost(i) else Finish(i)
    case Closing => Close(i)
    case Closed => Close(i)
  }

  lemma ForwardWorks(s: State, i: nat)
    requires i < |s.sessions| && SessionInv(s.sessions[i])
    requires !s.sessions[i].handler.TimedOut? && !s.sessions[i].exec.Closed?
    ensures
      var step := Forward(s.sessions[i], i);
      && Enabled(s, step) && !step.Crash?
      && |Next(s, step).sessions| == |s.sessions|
      && !Next(s, step).sessions[i].handler.TimedOut?
      && Left(Next(s, step).sessions[i]) < Left(s.sessions[i])
  {
  }

  lemma {:induction false} CanClose(s: State, i: nat) returns (steps: seq<Step>)
    requires Inv(s) && i < |s.sessions| && !s.sessions[i].handler.TimedOut?
    ensures IsRun(s, steps) && CrashFree(steps)
    ensures i < |After(s, steps).sessions| && After(s, steps).sessions[i].exec.Closed?
    decreases Left(s.sessions[i])
  {
    hide Inv, Enabled, Next, Left;
    steps := [];
    if !s.sessions[i].exec.Closed? {
      SessionOf(s, i);
      ForwardWorks(s, i);
      var step := Forward(s.sessions[i], i);
      StepKeepsInv(s, step);
      var rest := CanClose(Next(s, step), i);
      steps := [step] + rest;
      assert steps[1..] == rest;
    }
  }

  lemma SessionOf(s: State, i: nat)
    requires Inv(s) && i < |s.sessions|
    ensures SessionInv(s.sessions[i])
  {
    assert s.sessions[i] in s.sessions;
  }

  /** Some run without a crash closes executor i. */
  ghost predicate CanEnd(s: State, i: nat) {
    exists steps :: IsRun(s, steps) && CrashFree(steps)
      && i < |After(s, steps).sessions| && After(s, steps).sessions[i].exec.Closed?
  }

  /** In every reachable state: an executor can still end, by some run without a
      crash, if and only if its handler has not timed out. A handler that times out,
      even after it has posted the results, blocks its executor for good. */
  lemma ExecutorEndsExactlyWhen(before: seq<Step>, i: nat)
    requires IsRun(INITIAL, before) && i < |After(INITIAL, before).sessions|
    ensures CanEnd(After(INITIAL, before), i) <==> !After(INITIAL, before).sessions[i].handler.TimedOut?
  {
    hide Inv, Next, Enabled;
    var s := After(INITIAL, before);
    InitialInv();
    RunKeepsInv(INITIAL, before);
    if s.sessions[i].handler.TimedOut? {
      forall steps | IsRun(s, steps) && CrashFree(steps)
        ensures i < |After(s, steps).sessions| && !After(s, steps).sessions[i].exec.Closed?
      {
        TimedOutForGood(s, steps, i);
        RunKeepsInv(s, steps);
        SessionOf(After(s, steps), i);
      }
    } else {
      var steps := CanClose(s, i);
    }
  }

  /** The timeout came before the results. */
  predicate Abandoned(x: Session) {
    x.handler.TimedOut? && x.posts == 0 && Unsettled(x)
  }

  lemma AbandonedStep(s: State, step: Step, i: nat)
    requires Inv(s) && Enabled(s, step) && !step.Crash? && i < |s.sessions| && Abandoned(s.sessions[i])
    ensures i < |Next(s, step).sessions| && Abandoned(Next(s, step).sessions[i])
    ensures Next(s, step).sessions[i].path == s.sessions[i].path
  {
    SessionOf(s, i);
    hide Inv;
  }

  lemma {:induction false} AbandonedForGood(s: State, steps: seq<Step>, i: nat)
    requires Inv(s) && IsRun(s, steps) && CrashFree(steps) && i < |s.sessions| && Abandoned(s.sessions[i])
    ensures i < |After(s, steps).sessions| && Abandoned(After(s, steps).sessions[i])
    ensures After(s, steps).sessions[i].path == s.sessions[i].path
    decreases |steps|
  {
    hide Inv, Next, Enabled, Abandoned;
    if steps != [] {
      AbandonedStep(s, steps[0], i);
      StepKeepsInv(s, steps[0]);
      AbandonedForGood(Next(s, steps[0]), steps[1..], i);
    }
  }

  /** A playbook that was stored and whose handler timed out before its results were
      handed over stays pending, in memory and on disk, in every run without a crash:
      its executor never ends, and a crash hands it to the next process. */
  lemma TimedOutExecutorStaysPending(before: seq<Step>, steps: seq<Step>, i: nat)
    requires IsRun(INITIAL, before) && IsRun(After(INITIAL, before), steps) && CrashFree(steps)
    requires i < |After(INITIAL, before).sessions| && Abandoned(After(INITIAL, before).sessions[i])
    ensures
      var path, s := After(INITIAL, before).sessions[i].path, After(After(INITIAL, before), steps);
      && i < |s.sessions| && Abandoned(s.sessions[i])
      && Count(s.table.paths, path) > 0 && Count(s.disk, path) > 0
  {
    InitialInv();
    RunKeepsInv(INITIAL, before);
    var s1 := After(INITIAL, before);
    AbandonedForGood(s1, steps, i);
    RunKeepsInv(s1, steps);
    var s := After(s1, steps);
    UnsettledCounted(s.sessions, i);
    assert Enough(s, s.sessions[i].path);
  }

  // ---------------------------------------------------- which results are handed over

  /** In every interleaving: results are posted only by an executor whose time was not in
      the table, whose file was read, whose playbook was stored and whose results were
      parsed; and only such a playbook is removed. A handler that ends by completion has
      posted, and its playbook is removed, exactly in that case. */
  lemma ResultsReachHandlerExactlyWhen(steps: seq<Step>, i: nat)
    requires IsRun(INITIAL, steps) && i < |After(INITIAL, steps).sessions|
    ensures
      var x := After(INITIAL, steps).sessions[i];
      var well := [Found(false), Readable(true), AddedOk(true), ParsedOk(true)];
      && (x.posts == 1 || x.removed ==> x.answers == well)
      && (x.handler.Completed? ==> (x.posts == 1 <==> x.answers == well) && (x.removed <==> x.answers == well))
      && (x.handler.Completed? && x.answers != well ==> EndedEarly(x.answers))
  {
    hide Next, Enabled, Inv;
    InitialInv();
    RunKeepsInv(INITIAL, steps);
    SessionOf(After(INITIAL, steps), i);
  }

  lemma AnswersGrow(s: State, step: Step, i: nat)
    requires Enabled(s, step) && !step.Crash? && i < |s.sessions|
    ensures i < |Next(s, step).sessions| && s.sessions[i].answers <= Next(s, step).sessions[i].answers
  {
  }

  lemma {:induction false} AnswersOnlyGrow(s: State, steps: seq<Step>, i: nat)
    requires IsRun(s, steps) && CrashFree(steps) && i < |s.sessions|
    ensures i < |After(s, steps).sessions| && s.sessions[i].answers <= After(s, steps).sessions[i].answers
    decreases |steps|
  {
    hide Next, Enabled;
    if steps != [] {
      AnswersGrow(s, steps[0], i);
      AnswersOnlyGrow(Next(s, steps[0]), steps[1..], i);
    }
  }

  /** An executor that has parsed results and whose handler has not timed out can still
      end, and however a run without a crash ends it, its results were posted once, its
      playbook was removed and its handler completed. */
  lemma ParsedResultsArePosted(before: seq<Step>, i: nat) returns (steps: seq<Step>)
    requires IsRun(INITIAL, before) && i < |After(INITIAL, before).sessions|
    requires
      var x := After(INITIAL, before).sessions[i];
      |x.answers| == 4 && x.answers[3] == ParsedOk(true) && !x.handler.TimedOut?
    ensures IsRun(After(INITIAL, before), steps) && CrashFree(steps)
    ensures i < |After(After(INITIAL, before), steps).sessions|
    ensures
      var x := After(After(INITIAL, before), steps).sessions[i];
      x.exec.Closed? && x.handler.Completed? && x.posts == 1 && x.removed
  {
    hide Next, Enabled, Inv;
    InitialInv();
    RunKeepsInv(INITIAL, before);
    var s := After(INITIAL, before);
    SessionOf(s, i);
    steps := CanClose(s, i);
    RunKeepsInv(s, steps);
    SessionOf(After(s, steps), i);
    AnswersOnlyGrow(s, steps, i);
  }

  /** Its Remove takes one entry of its path out of the table, if the path has a recorded
      time, and touches no other path; the file follows unless writing it failed. */
  lemma RemoveTakesOneEntry(s: State, step: Step, p: Path)
    requires Inv(s) && Enabled(s, step) && step.Remove?
    ensures
      var path := s.sessions[step.i].path;
      Count(Next(s, step).table.paths, p)
      == Count(s.table.paths, p) - if p == path && path in s.table.times then 1 else 0
    ensures Next(s, step).disk == if step.persistFault then s.disk else Next(s, step).table.paths
  {
    RemoveCounts(s.table, s.sessions[step.i].path, p);
  }

  /** Its Add puts its path under its time and leaves all other times, in the file too
      unless writing that failed; when the playbook itself cannot be written, neither
      changes. */
  lemma AddStoresOneEntry(s: State, step: Step, m: ModTime)
    requires Inv(s) && Enabled(s, step) && step.Add?
    ensures
      var x, s' := s.sessions[step.i], Next(s, step);
      && (step.writeFault ==> s'.table == s.table && s'.disk == s.disk)
      && (!step.writeFault ==> x.modTime in s'.table.paths && s'.table.paths[x.modTime] == x.path)
      && (m != x.modTime && m in s'.table.paths ==> m in s.table.paths)
      && (m != x.modTime && m in s.table.paths ==> m in s'.table.paths && s'.table.paths[m] == s.table.paths[m])
      && (!step.writeFault ==> s'.disk == if step.persistFault then s.disk else s'.table.paths)
      && (s'.sessions[step.i].exec.Running? <==> !step.writeFault && !step.persistFault)
  {
  }

  // ------------------------------------------------------------ what is owed

  /** A crash leaves owed exactly what was owed and what was unsettled. */
  lemma CrashOwes(s: State, list: seq<Entry>, p: Path)
    requires IsListing(list, s.disk)
    ensures Owed(Next(s, Crash(list)).owed, p) == UnsettledOn(s.sessions, p) + Owed(s.owed, p)
  {
    if UnsettledOn(s.sessions, p) > 0 {
      UnsettledHasSession(s.sessions, p);
    }
  }

  /** A pass settles one for each time it has run the path, and no more than is owed. */
  lemma PassSettles(s: State, walk: seq<Path>, outcome: Outcomes, p: Path)
    requires s.sessions == [] && IsWalk(walk, s.table.paths)
    ensures
      var ran := walk[..PassFrom(s.table, s.disk, walk, outcome, 0).handled];
      var before, after := Owed(s.owed, p), Owed(Next(s, RunPending(walk, outcome)).owed, p);
      after == if before <= Occurrences(ran, p) then 0 else before - Occurrences(ran, p)
  {
  }
}
