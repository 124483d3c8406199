/** What a second Update with the same configuration does, exactly. */
module SecondUpdates {
  import opened Options
  import opened WorkloadTable
  import opened WorkloadDevice
  import opened Reconcile
  import opened DeviceSecrets
  import opened WorkloadManagement
  import opened UpdateOutcome
  import opened FailedCalls

  // --------------------------------------------------- files after a turn

  /** The files of the workload are as configured. */
  ghost predicate FilesAreSet(d: Device, w: Workload) {
    w.spec.Some? && DirOf(w.name) in d.dirs && !Modified(d, w)
  }

  lemma FilesFollowSame(d: Device, d': Device, w: Workload)
    requires FilesAreSet(d, w) && SameFor(d, d', DirOf(w.name), w.name)
    ensures FilesAreSet(d', w)
  {
    hide DirOf, ManifestOf;
  }

  /** A turn without error, or one that fails in Run only, leaves the files of its
      workload as configured. */
  lemma TurnSetsFiles(env: Env, d: Device, w: Workload)
    requires Deploy(env, d, w).1 || RunFailed(env, d, w)
    ensures FilesAreSet(Deploy(env, d, w).0, w)
  {
    if RunFailed(env, d, w) {
      hide Deploy, RunFailed, Deployed, PodStarted, BeforeRun, DirOf, ManifestOf;
      FailedRunSetsFiles(env, d, w);
    } else {
      hide Replaced, DirOf, ManifestOf, RunFailed;
      var d0 := DirEnsured(env, d, DirOf(w.name)).0;
      if Modified(d0, w) {
        ReplacedSetsFiles(env, d0, w);
      }
    }
  }

  lemma FailedRunSetsFiles(env: Env, d: Device, w: Workload)
    requires RunFailed(env, d, w)
    ensures FilesAreSet(Deploy(env, d, w).0, w)
  {
    hide Deploy, RunOf, BeforeRun, ManifestOf, DirOf;
    var d2 := BeforeRun(env, d, w).value;
    BeforeRunIs(env, d, w);
    RunOfKeepsFiles(env, d2, w);
  }

  lemma ReplacedSetsFiles(env: Env, d: Device, w: Workload)
    requires w.spec.Some? && DirOf(w.name) in d.dirs && Replaced(env, d, w).1
    ensures FilesAreSet(Replaced(env, d, w).0, w)
  {
    hide Removal, Launch, DirOf, ManifestOf;
    var d1 := FilesStored(env, d, DirOf(w.name), ManifestOf(w), AuthOf(w)).0;
    RemovalFrame(env, d1, w.name);
    LaunchFrame(env, Removal(env, d1, w.name).0, ManifestOf(w), DirOf(w.name), w.auth != "");
  }

  /** Configured workloads have different directories. */
  ghost predicate AllApart(ws: seq<Workload>) {
    forall i, j :: 0 <= i < |ws| && 0 <= j < |ws| && i != j ==> Apart(ws[i], ws[j])
  }

  /** Every turn of the loop ends well, except that the one of workload i fails in
      Run before podman has started the pod. With i beyond the list, none fails. */
  ghost predicate OnlyRunFails(env: Env, d: Device, ws: seq<Workload>, k: nat, i: nat)
    requires k <= |ws|
    decreases |ws| - k
  {
    k == |ws| ||
    var (d1, ok) := Deploy(env, d, ws[k]);
    && !Halted(d1)
    && (if k == i then RunFailed(env, d, ws[k]) && !PodStarted(env, BeforeRun(env, d, ws[k]).value, ws[k]) else ok)
    && OnlyRunFails(env, d1, ws, k + 1, i)
  }

  lemma {:induction false} LoopKeepsFiles(env: Env, d: Device, ws: seq<Workload>, k: nat, w: Workload)
    requires k <= |ws| && FilesAreSet(d, w) && forall j :: k <= j < |ws| ==> Apart(ws[j], w)
    ensures FilesAreSet(DeployFrom(env, d, ws, k).0, w)
    decreases |ws| - k
  {
    hide Deploy, FilesAreSet, DirOf;
    if k < |ws| {
      assert Apart(ws[k], w);
      DirsTellNamesApart(ws[k].name, w.name);
      DeployTouchesOnly(env, d, ws[k], DirOf(w.name), w.name);
      FilesFollowSame(d, Deploy(env, d, ws[k]).0, w);
      LoopKeepsFiles(env, Deploy(env, d, ws[k]).0, ws, k + 1, w);
    }
  }

  lemma {:induction false} LoopSetsFiles(env: Env, d: Device, ws: seq<Workload>, k: nat, i: nat, j: nat)
    requires k <= j < |ws| && AllApart(ws) && OnlyRunFails(env, d, ws, k, i)
    ensures FilesAreSet(DeployFrom(env, d, ws, k).0, ws[j])
    decreases |ws| - k
  {
    hide Deploy, FilesAreSet, RunFailed, PodStarted, BeforeRun, Apart;
    var d1 := Deploy(env, d, ws[k]).0;
    if k == j {
      TurnSetsFiles(env, d, ws[j]);
      LoopKeepsFiles(env, d1, ws, k + 1, ws[j]);
    } else {
      LoopSetsFiles(env, d1, ws, k + 1, i, j);
    }
  }

  lemma {:induction false} NoErrorNoneFails(env: Env, d: Device, ws: seq<Workload>, k: nat)
    requires k <= |ws| && DeployFrom(env, d, ws, k).1 == 0
    ensures OnlyRunFails(env, d, ws, k, |ws|)
    ensures forall j :: k <= j < |ws| ==> ws[j].spec.Some?
    decreases |ws| - k
  {
    hide Deploy;
    if k < |ws| {
      SpecIsThere(env, d, ws[k]);
      NoErrorNoneFails(env, Deploy(env, d, ws[k]).0, ws, k + 1);
    }
  }

  /** The one error is counted, and the process lives. */
  lemma {:induction false} OneErrorIsCounted(env: Env, d: Device, ws: seq<Workload>, k: nat, i: nat)
    requires k <= |ws| && !Halted(d) && OnlyRunFails(env, d, ws, k, i)
    ensures DeployFrom(env, d, ws, k).1 == if k <= i < |ws| then 1 else 0
    ensures !Halted(DeployFrom(env, d, ws, k).0)
    decreases |ws| - k
  {
    hide Deploy, RunFailed, PodStarted, BeforeRun, Missing, Deployed;
    if k < |ws| {
      if k == i {
        FailedRunIsNotRepeated(env, env, d, ws[k]);
      }
      OneErrorIsCounted(env, Deploy(env, d, ws[k]).0, ws, k + 1, i);
    }
  }

  lemma {:induction false} LoopLeavesMissing(env: Env, d: Device, ws: seq<Workload>, k: nat, i: nat)
    requires k <= i < |ws| && AllApart(ws) && OnlyRunFails(env, d, ws, k, i)
    ensures Missing(DeployFrom(env, d, ws, k).0, ws[i])
    decreases |ws| - k
  {
    hide Deploy, RunFailed, PodStarted, BeforeRun, Missing, Deployed, DirOf;
    var d1 := Deploy(env, d, ws[k]).0;
    if k == i {
      FailedRunIsNotRepeated(env, env, d, ws[i]);
      assert forall j :: k + 1 <= j < |ws| ==> Apart(ws[j], ws[i]);
      MissingAfterTurns(env, d1, ws, k + 1, ws[i]);
    } else {
      LoopLeavesMissing(env, d1, ws, k + 1, i);
    }
  }

  lemma {:induction false} MissingAfterTurns(env: Env, d: Device, ws: seq<Workload>, k: nat, w: Workload)
    requires k <= |ws| && Missing(d, w) && forall j :: k <= j < |ws| ==> Apart(ws[j], w)
    ensures Missing(DeployFrom(env, d, ws, k).0, w)
    decreases |ws| - k
  {
    hide Deploy, DirOf, ManifestOf;
    if k < |ws| {
      assert Apart(ws[k], w);
      DirsTellNamesApart(ws[k].name, w.name);
      DeployTouchesOnly(env, d, ws[k], DirOf(w.name), w.name);
      MissingAfterTurns(env, Deploy(env, d, ws[k]).0, ws, k + 1, w);
    }
  }

  // -------------------------------------------------------- dropping the others

  lemma DropRuns(env: Env, d: Device, name: Name)
    requires Sane(d) && Drop(env, d, name).1
    ensures
      var d' := Drop(env, d, name).0;
      && Sane(d') && Running(d') == Running(d) - {name} && Halted(d') == Halted(d)
      && d'.dirs == d.dirs - {DirOf(name)}
  {
    hide Removal, DirOf, Sane, Running;
    var d1 := d.(dirs := d.dirs - {DirOf(name)}, clock := d.clock + 1);
    SaneFrame(d, d1);
    RunningAfterRemoval(env, d1, name);
  }

  /** Without error exactly the names not to keep are gone, with their directories. */
  lemma {:induction false} DropLoopRuns(env: Env, d: Device, names: seq<Name>, keep: set<Name>, k: nat)
    requires k <= |names| && Sane(d) && !Halted(d) && DropFrom(env, d, names, keep, k).1 == 0
    ensures
      var d' := DropFrom(env, d, names, keep, k).0;
      var gone := set i | k <= i < |names| && names[i] !in keep :: names[i];
      && Sane(d') && !Halted(d') && Running(d') == Running(d) - gone
      && d'.dirs == d.dirs - set n | n in gone :: DirOf(n)
    decreases |names| - k
  {
    hide Drop, Running, Sane, DirOf;
    if k < |names| {
      var later := set i | k + 1 <= i < |names| && names[i] !in keep :: names[i];
      var now := set i | k <= i < |names| && names[i] !in keep :: names[i];
      if names[k] in keep {
        DropLoopRuns(env, d, names, keep, k + 1);
        assert now == later;
      } else {
        DropRuns(env, d, names[k]);
        DropLoopRuns(env, Drop(env, d, names[k]).0, names, keep, k + 1);
        assert now == later + {names[k]};
      }
    }
  }

  /** Whatever turns do, what runs under other names stays. */
  lemma {:induction false} LoopKeepsOthers(env: Env, d: Device, ws: seq<Workload>, k: nat, n: Name)
    requires k <= |ws| && Sane(d) && n !in ConfiguredNames(ws)
    ensures Sane(DeployFrom(env, d, ws, k).0)
    ensures n in Running(DeployFrom(env, d, ws, k).0) <==> n in Running(d)
    decreases |ws| - k
  {
    hide Deploy, Sane, Running;
    if k < |ws| {
      assert ws[k] in ws;
      DeployKeepsSane(env, d, ws[k]);
      OtherRuns(Running(d), Running(Deploy(env, d, ws[k]).0), ws[k].name, n);
      LoopKeepsOthers(env, Deploy(env, d, ws[k]).0, ws, k + 1, n);
    }
  }

  /** What runs and is not configured has none of the directories of the configured
      workloads. */
  ghost predicate StaleApart(d: Device, ws: seq<Workload>) {
    forall n, w :: n in Running(d) && n !in ConfiguredNames(ws) && w in ws ==> DirOf(n) != DirOf(w.name)
  }

  lemma LoopKeepsStaleApart(env: Env, d: Device, d': Device, ws: seq<Workload>)
    requires Sane(d) && d'.table == DeployFrom(env, d, ws, 0).0.table && d'.pods == DeployFrom(env, d, ws, 0).0.pods
    ensures StaleApart(d', ws) <==> StaleApart(d, ws)
  {
    hide DeployFrom, Sane, RunningIn, DirOf, ConfiguredNames;
    forall n | n !in ConfiguredNames(ws) ensures n in Running(d') <==> n in Running(d) {
      LoopKeepsOthers(env, d, ws, 0, n);
    }
  }

  lemma DropsKeepFiles(d: Device, d': Device, gone: set<Name>, ws: seq<Workload>)
    requires AllUnmodified(d, ws) && d'.dirs == d.dirs - set n | n in gone :: DirOf(n)
    requires forall n, w :: n in gone && w in ws ==> DirOf(n) != DirOf(w.name)
    ensures AllUnmodified(d', ws)
  {
    hide DirOf, ManifestOf;
    forall w | w in ws ensures w.spec.Some? && DirOf(w.name) in d'.dirs && !Modified(d', w) {
      assert DirOf(w.name) !in set n | n in gone :: DirOf(n);
    }
  }

  lemma DropsEnd(env: Env, d: Device, ws: seq<Workload>)
    requires Sane(d) && !Halted(d) && ValidWalk(env)
    requires DropFrom(env, d, env.walk(ListedNames(d)), ConfiguredNames(ws), 0).1 == 0
    ensures
      var d' := DropFrom(env, d, env.walk(ListedNames(d)), ConfiguredNames(ws), 0).0;
      && Sane(d') && !Halted(d') && Running(d').Keys == Running(d).Keys * ConfiguredNames(ws)
      && d'.dirs == d.dirs - set n | n in Running(d).Keys - ConfiguredNames(ws) :: DirOf(n)
  {
    hide DropFrom, Running, ListedNames, DirOf, TablesInv, NamesMatch, ConfiguredNames;
    var names, keep := env.walk(ListedNames(d)), ConfiguredNames(ws);
    ListedAreRunning(d);
    assert Enumerates(names, Running(d).Keys);
    DropLoopRuns(env, d, names, keep, 0);
    KeptAfterDrop(Running(d), names, keep);
    var gone := set i | 0 <= i < |names| && names[i] !in keep :: names[i];
    assert gone == Running(d).Keys - keep;
  }

  lemma SetFilesAreUnmodified(d: Device, ws: seq<Workload>)
    requires forall j :: 0 <= j < |ws| ==> FilesAreSet(d, ws[j])
    ensures AllUnmodified(d, ws)
  {
    hide Modified, DirOf;
  }

  /** After a loop in which at most the Run of workload i failed and drops without
      error, all files are as configured and nothing else runs. */
  lemma FilesAfterUpdate(env: Env, d: Device, ws: seq<Workload>, i: nat)
    requires Sane(d) && !Halted(d) && ValidWalk(env) && AllApart(ws) && StaleApart(d, ws)
    requires OnlyRunFails(env, d, ws, 0, i) && Reconciled(env, d, ws).1 == if i < |ws| then 1 else 0
    ensures
      var d' := Reconciled(env, d, ws).0;
      && Sane(d') && !Halted(d') && AllUnmodified(d', ws) && Running(d').Keys <= ConfiguredNames(ws)
      && (i < |ws| ==> ws[i].name !in d'.table.ids)
  {
    hide DeployFrom, DropFrom, Sane, RunningIn, ListedNames, AllUnmodified, OnlyRunFails, AllApart, StaleApart,
      ValidWalk, DirOf, ConfiguredNames, FilesAreSet, Missing;
    var d1 := DeployFrom(env, d, ws, 0).0;
    var d2 := d1.(clock := d1.clock + 1);
    OneErrorIsCounted(env, d, ws, 0, i);
    DeployLoopKeepsSane(env, d, ws, 0);
    SaneFrame(d1, d2);
    forall j | 0 <= j < |ws| ensures FilesAreSet(d2, ws[j]) {
      LoopSetsFiles(env, d, ws, 0, i, j);
      FilesFollow(d1, d2, ws[j]);
    }
    SetFilesAreUnmodified(d2, ws);
    LoopKeepsStaleApart(env, d, d2, ws);
    DropsEnd(env, d2, ws);
    var d' := Reconciled(env, d, ws).0;
    StaleIsGone(d2, d', ws);
    if i < |ws| {
      LoopLeavesMissing(env, d, ws, 0, i);
      MissingIsUnknown(d1, ws[i]);
      DropLoopKeepsAway(env, d2, env.walk(ListedNames(d2)), ConfiguredNames(ws), 0, ws[i].name);
    }
  }

  lemma MissingIsUnknown(d: Device, w: Workload)
    requires Missing(d, w)
    ensures w.name !in d.table.ids
  {
  }

  lemma FilesFollow(d: Device, d': Device, w: Workload)
    requires FilesAreSet(d, w) && d'.dirs == d.dirs
    ensures FilesAreSet(d', w)
  {
    hide DirOf, ManifestOf;
  }

  lemma StaleIsGone(d: Device, d': Device, ws: seq<Workload>)
    requires AllUnmodified(d, ws) && StaleApart(d, ws)
    requires d'.dirs == d.dirs - set n | n in Running(d).Keys - ConfiguredNames(ws) :: DirOf(n)
    ensures AllUnmodified(d', ws)
  {
    hide DirOf, Running, AllUnmodified, ConfiguredNames;
    DropsKeepFiles(d, d', Running(d).Keys - ConfiguredNames(ws), ws);
  }

  // ------------------------------------------------ a failed Run goes unnoticed

  lemma ListedAreConfigured(d: Device, ws: seq<Workload>)
    requires Sane(d) && Running(d).Keys <= ConfiguredNames(ws)
    ensures ListedNames(d) <= ConfiguredNames(ws)
  {
    hide Running, ListedNames, ConfiguredNames, TablesInv, NamesMatch;
    ListedAreRunning(d);
  }

  /** For every configuration: an Update whose only error is that the Run of one
      workload failed before podman had started the pod leaves that workload away, and
      a second Update with the same configuration, in which nothing fails, reports no
      error and leaves it away as well. */
  lemma FailedRunGoesUnnoticed(env: Env, again: Env, d: Device, config: Config, i: nat)
    requires Sane(d) && !Halted(d) && ValidWalk(env) && ValidWalk(again) && NoFaults(again)
    requires AllApart(config.workloads) && StaleApart(d, config.workloads) && DistinctSecrets(config.secrets)
    requires i < |config.workloads| && Updated(env, d, config).1 == 1
    requires OnlyRunFails(env, SecretsUpdated(env, d, config.secrets).0, config.workloads, 0, i)
    ensures
      var d1 := Updated(env, d, config).0;
      var (d2, errors) := Updated(again, d1, config);
      var name := config.workloads[i].name;
      errors == 0 && name !in Running(d1) && name !in Running(d2)
  {
    hide SecretsUpdated, Reconciled, Sane, RunningIn, ListedNames, AllUnmodified, OnlyRunFails, AllApart, ValidWalk,
      DirOf, ConfiguredNames;
    var ws := config.workloads;
    UpdateTouchesOnlySecrets(env, d, config.secrets);
    var d0 := SecretsUpdated(env, d, config.secrets).0;
    SaneFrame(d, d0);
    RunErrorIsOne(env, d0, ws, i);
    FilesAfterUpdate(env, d0, ws, i);
    var d1 := Updated(env, d, config).0;
    UnknownDoesNotRun(d1, ws[i].name);
    ListedAreConfigured(d1, ws);
    UpdateReportsNothing(again, d1, config);
    UnknownDoesNotRun(Updated(again, d1, config).0, ws[i].name);
  }

  lemma UnknownDoesNotRun(d: Device, name: Name)
    requires name !in d.table.ids
    ensures name !in Running(d)
  {
  }

  lemma RunErrorIsOne(env: Env, d: Device, ws: seq<Workload>, i: nat)
    requires i < |ws| && !Halted(d) && OnlyRunFails(env, d, ws, 0, i)
    ensures Reconciled(env, d, ws).1 >= 1
  {
    hide DeployFrom, DropFrom, OnlyRunFails, ListedNames, ConfiguredNames;
    OneErrorIsCounted(env, d, ws, 0, i);
  }

  // ------------------------------------------------------ when a second one is quiet

  lemma IssuedGrows(env: Env, d: Device, w: Workload)
    ensures |Deploy(env, d, w).0.issued| >= |d.issued|
  {
    hide Removal, Launch, DirOf, ManifestOf, Modified;
    if w.spec.Some? {
      var (d0, there) := DirEnsured(env, d, DirOf(w.name));
      if there && Modified(d0, w) {
        ReplacedIssues(env, d0, w);
      }
    }
  }

  lemma ReplacedIssues(env: Env, d: Device, w: Workload)
    requires w.spec.Some? && DirOf(w.name) in d.dirs
    ensures |Replaced(env, d, w).0.issued| >= |d.issued|
    ensures NoFaults(env) ==> |Replaced(env, d, w).0.issued| > |d.issued|
  {
    hide Removal, Launch, DirOf, ManifestOf;
    var d1 := FilesStored(env, d, DirOf(w.name), ManifestOf(w), AuthOf(w)).0;
    RemovalFrame(env, d1, w.name);
    LaunchFrame(env, Removal(env, d1, w.name).0, ManifestOf(w), DirOf(w.name), w.auth != "");
  }

  /** Without faults a turn that finds other files than configured calls Remove. */
  lemma ModifiedIssues(env: Env, d: Device, w: Workload)
    requires NoFaults(env) && w.spec.Some? && !FilesAreSet(d, w)
    ensures |Deploy(env, d, w).0.issued| > |d.issued|
  {
    hide Replaced, DirOf, ManifestOf;
    var d0 := DirEnsured(env, d, DirOf(w.name)).0;
    assert Modified(d0, w);
    ReplacedIssues(env, d0, w);
  }

  lemma {:induction false} LoopIssues(env: Env, d: Device, ws: seq<Workload>, k: nat)
    requires k <= |ws|
    ensures |DeployFrom(env, d, ws, k).0.issued| >= |d.issued|
    decreases |ws| - k
  {
    hide Deploy;
    if k < |ws| {
      IssuedGrows(env, d, ws[k]);
      LoopIssues(env, Deploy(env, d, ws[k]).0, ws, k + 1);
    }
  }

  lemma {:induction false} DropsIssue(env: Env, d: Device, names: seq<Name>, keep: set<Name>, k: nat)
    requires k <= |names|
    ensures |DropFrom(env, d, names, keep, k).0.issued| >= |d.issued|
    decreases |names| - k
  {
    hide Drop;
    if k < |names| {
      DropIssues(env, d, names[k]);
      DropsIssue(env, if names[k] in keep then d else Drop(env, d, names[k]).0, names, keep, k + 1);
    }
  }

  lemma DropIssues(env: Env, d: Device, name: Name)
    ensures |Drop(env, d, name).0.issued| >= |d.issued|
  {
    hide Removal, DirOf;
    var c := d.clock;
    var d1 := if env.fault(c) then d.(clock := c + 1) else d.(dirs := d.dirs - {DirOf(name)}, clock := c + 1);
    RemovalFrame(env, d1, name);
  }

  /** A loop without faults that calls nothing has found all files as configured. */
  lemma {:induction false} QuietLoopFindsFiles(env: Env, d: Device, ws: seq<Workload>, k: nat, j: nat)
    requires k <= j < |ws| && NoFaults(env) && !Halted(d) && forall w <- ws :: w.spec.Some?
    requires |DeployFrom(env, d, ws, k).0.issued| == |d.issued|
    ensures FilesAreSet(d, ws[j])
    decreases |ws| - k
  {
    hide Deploy, FilesAreSet;
    assert ws[k] in ws;
    LoopIssues(env, Deploy(env, d, ws[k]).0, ws, k + 1);
    if FilesAreSet(d, ws[k]) {
      SetIsNeverRun(env, d, ws[k]);
      if k < j {
        QuietLoopFindsFiles(env, d, ws, k + 1, j);
      }
    } else {
      ModifiedIssues(env, d, ws[k]);
    }
  }

  lemma SetIsNeverRun(env: Env, d: Device, w: Workload)
    requires FilesAreSet(d, w)
    ensures Deploy(env, d, w) == (d, true)
  {
    hide Deploy, DirOf, Modified;
    UnmodifiedIsNeverRun(env, d, w);
  }

  /** Two names cannot find their files in one directory. */
  lemma FilesTellApart(d: Device, a: Workload, b: Workload)
    requires FilesAreSet(d, a) && FilesAreSet(d, b) && a.name != b.name
    ensures DirOf(a.name) != DirOf(b.name)
  {
    ManifestHasName(a);
    ManifestHasName(b);
    hide DirOf, ManifestOf;
  }

  /** The condition, checked before the first Update: configured workloads have
      different directories, none of them shared with something that runs and is not
      configured. */
  ghost predicate DirsApart(d: Device, ws: seq<Workload>) {
    AllApart(ws) && StaleApart(d, ws)
  }

  lemma QuietAfterFiles(again: Env, d: Device, ws: seq<Workload>)
    requires Sane(d) && !Halted(d) && ValidWalk(again) && AllUnmodified(d, ws) && Running(d).Keys <= ConfiguredNames(ws)
    ensures Reconciled(again, d, ws).0.issued == d.issued
  {
    hide DeployFrom, DropFrom, Sane, RunningIn, ListedNames, AllUnmodified, ConfiguredNames;
    UnmodifiedLoop(again, d, ws, 0);
    var d2 := d.(clock := d.clock + 1);
    SaneFrame(d, d2);
    ListedAreConfigured(d2, ws);
    var names := again.walk(ListedNames(d2));
    assert Enumerates(names, ListedNames(d2));
    QuietDropLoop(again, d2, names, ConfiguredNames(ws), 0);
  }

  lemma QuietNeedsFiles(again: Env, d: Device, ws: seq<Workload>, j: nat)
    requires !Halted(d) && NoFaults(again) && j < |ws| && forall w <- ws :: w.spec.Some?
    requires Reconciled(again, d, ws).0.issued == d.issued
    ensures FilesAreSet(d, ws[j])
  {
    hide DeployFrom, DropFrom, ListedNames, ConfiguredNames, FilesAreSet;
    LoopIssues(again, d, ws, 0);
    var d1 := DeployFrom(again, d, ws, 0).0;
    var d2 := d1.(clock := d1.clock + 1);
    DropsIssue(again, d2, again.walk(ListedNames(d2)), ConfiguredNames(ws), 0);
    QuietLoopFindsFiles(again, d, ws, 0, j);
  }

  lemma SharedWithStaleIsLost(env: Env, d: Device, ws: seq<Workload>, n: Name, j: nat)
    requires Sane(d) && !Halted(d) && ValidWalk(env) && Reconciled(env, d, ws).1 == 0
    requires n in Running(d) && n !in ConfiguredNames(ws) && j < |ws| && DirOf(n) == DirOf(ws[j].name)
    ensures DirOf(ws[j].name) !in Reconciled(env, d, ws).0.dirs && !Halted(Reconciled(env, d, ws).0)
  {
    hide DeployFrom, DropFrom, Sane, RunningIn, ListedNames, DirOf, ConfiguredNames, ValidWalk, OnlyRunFails;
    NoErrorNoneFails(env, d, ws, 0);
    OneErrorIsCounted(env, d, ws, 0, |ws|);
    LoopKeepsOthers(env, d, ws, 0, n);
    var d1 := DeployFrom(env, d, ws, 0).0;
    var d2 := d1.(clock := d1.clock + 1);
    SaneFrame(d1, d2);
    DropsEnd(env, d2, ws);
    assert n in Running(d2).Keys - ConfiguredNames(ws);
  }

  lemma AliveAfter(env: Env, d: Device, ws: seq<Workload>)
    requires Sane(d) && !Halted(d) && ValidWalk(env) && Reconciled(env, d, ws).1 == 0
    ensures !Halted(Reconciled(env, d, ws).0) && forall w <- ws :: w.spec.Some?
  {
    hide DeployFrom, DropFrom, Sane, RunningIn, ListedNames, ConfiguredNames, ValidWalk, OnlyRunFails, DirOf;
    NoErrorNoneFails(env, d, ws, 0);
    OneErrorIsCounted(env, d, ws, 0, |ws|);
    DeployLoopKeepsSane(env, d, ws, 0);
    var d1 := DeployFrom(env, d, ws, 0).0;
    SaneFrame(d1, d1.(clock := d1.clock + 1));
    DropsEnd(env, d1.(clock := d1.clock + 1), ws);
  }

  /** After an Update of the workloads that reported no error, a second one with the
      same configuration in which nothing fails calls neither Remove nor Run if and
      only if the directories were apart. Of two configured names that share one, at
      most one finds its files there, and dropping something else deletes the files of
      the workload it shares a directory with. */
  lemma SecondUpdateIsQuietExactlyWhen(env: Env, again: Env, d: Device, ws: seq<Workload>)
    requires Sane(d) && !Halted(d) && ValidWalk(env) && ValidWalk(again) && NoFaults(again) && DistinctNames(ws)
    requires Reconciled(env, d, ws).1 == 0
    ensures
      var d' := Reconciled(env, d, ws).0;
      Reconciled(again, d', ws).0.issued == d'.issued <==> DirsApart(d, ws)
  {
    hide Reconciled, Sane, RunningIn, AllUnmodified, ValidWalk, DirOf, ConfiguredNames, FilesAreSet, OnlyRunFails;
    var d' := Reconciled(env, d, ws).0;
    AliveAfter(env, d, ws);
    if DirsApart(d, ws) {
      LoopWithoutError(env, d, ws);
      FilesAfterUpdate(env, d, ws, |ws|);
      QuietAfterFiles(again, d', ws);
    }
    if Reconciled(again, d', ws).0.issued == d'.issued {
      forall i, j | 0 <= i < |ws| && 0 <= j < |ws| && i != j ensures Apart(ws[i], ws[j]) {
        QuietNeedsFiles(again, d', ws, i);
        QuietNeedsFiles(again, d', ws, j);
        assert ws[i].name != ws[j].name by {
          if i < j { assert ws[i].name != ws[j].name; } else { assert ws[j].name != ws[i].name; }
        }
        FilesTellApart(d', ws[i], ws[j]);
      }
      forall n, w | n in Running(d) && n !in ConfiguredNames(ws) && w in ws ensures DirOf(n) != DirOf(w.name) {
        var j :| 0 <= j < |ws| && ws[j] == w;
        QuietNeedsFiles(again, d', ws, j);
        SetHasDir(d', w);
        if DirOf(n) == DirOf(w.name) {
          SharedWithStaleIsLost(env, d, ws, n, j);
        }
      }
    }
  }

  lemma SetHasDir(d: Device, w: Workload)
    requires FilesAreSet(d, w)
    ensures DirOf(w.name) in d.dirs
  {
  }

  lemma LoopWithoutError(env: Env, d: Device, ws: seq<Workload>)
    requires Reconciled(env, d, ws).1 == 0
    ensures OnlyRunFails(env, d, ws, 0, |ws|)
  {
    hide DeployFrom, DropFrom, OnlyRunFails, ListedNames, ConfiguredNames;
    NoErrorNoneFails(env, d, ws, 0);
  }
}
