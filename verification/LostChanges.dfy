/** What becomes of a change on which the process dies: the message was not stored yet,
    so the next process is given the previous configuration first. */
module LostChanges {
  import opened Options
  import opened WorkloadTable
  import opened WorkloadDevice
  import opened Reconcile
  import opened DeviceSecrets
  import opened WorkloadManagement
  import opened UpdateOutcome
  import opened FailedCalls
  import opened SecondUpdates
  import opened ReloadedServices

  /** The device when the loop over the configured workloads has ended. */
  function Deploying(env: Env, d: Device, config: Config): Device {
    DeployFrom(env, SecretsUpdated(env, d, config.secrets).0, config.workloads, 0).0
  }

  /** The process dies in that loop. */
  predicate DiesDeploying(env: Env, d: Device, config: Config) {
    Halted(Deploying(env, d, config))
  }

  lemma DeathEndsUpdate(env: Env, d: Device, config: Config)
    requires DiesDeploying(env, d, config)
    ensures Updated(env, d, config).0 == Deploying(env, d, config)
  {
    hide SecretsUpdated, DeployFrom, DropFrom;
  }

  // ------------------------------------------------------ the turn on which it dies

  /** Some workload had to be replaced, its service was read from the file, and its
      files are now as configured. */
  lemma {:induction false} DyingTurn(env: Env, d: Device, ws: seq<Workload>, k: nat) returns (j: nat)
    requires k <= |ws| && !Halted(d) && AllApart(ws) && Halted(DeployFrom(env, d, ws, k).0)
    ensures k <= j < |ws| && MustReplace(d, ws[j]) && FilesAreSet(DeployFrom(env, d, ws, k).0, ws[j])
    decreases |ws| - k
  {
    hide Deploy, Apart, FilesAreSet, Running, Modified;
    var d1 := Deploy(env, d, ws[k]).0;
    TurnDies(env, d, ws[k]);
    if Halted(d1) {
      j := k;
    } else {
      j := DyingTurn(env, d1, ws, k + 1);
      OtherTurnMustReplace(env, d, ws[k], ws[j]);
    }
  }

  lemma SecretsKeepProcess(env: Env, d: Device, config: Config)
    ensures
      var d0 := SecretsUpdated(env, d, config.secrets).0;
      d0.services == d.services && d0.pods == d.pods
  {
    hide SecretsUpdated;
    UpdateTouchesOnlySecrets(env, d, config.secrets);
  }

  lemma SecretsKeepRest(env: Env, d: Device, config: Config, w: Workload)
    ensures
      var d0 := SecretsUpdated(env, d, config.secrets).0;
      && Halted(d0) == Halted(d) && Reloaded(d0) == Reloaded(d) && d0.services == d.services && d0.pods == d.pods
      && (MustReplace(d0, w) <==> MustReplace(d, w)) && (FilesAreSet(d0, w) <==> FilesAreSet(d, w))
  {
    hide SecretsUpdated, DirOf, ManifestOf;
    UpdateTouchesOnlySecrets(env, d, config.secrets);
  }

  lemma ReplacingDies(env: Env, d: Device, config: Config, i: nat)
    requires !Halted(d) && NoFaults(env) && AllApart(config.workloads)
    requires i < |config.workloads| && MustReplace(d, config.workloads[i])
    ensures DiesDeploying(env, d, config) && Halted(Updated(env, d, config).0)
  {
    hide SecretsUpdated, DeployFrom, AllApart, MustReplace, FilesAreSet, Updated;
    SecretsKeepRest(env, d, config, config.workloads[i]);
    LoopDiesExactlyWhen(env, SecretsUpdated(env, d, config.secrets).0, config.workloads, 0);
    DeathEndsUpdate(env, d, config);
  }

  // ------------------------------------------------ the next process dies as well

  /** One directory cannot be as two different workloads of one name want it. */
  lemma SameFilesSameWish(d: Device, d': Device, a: Workload, b: Workload)
    requires a.name == b.name && FilesAreSet(d, a) && FilesAreSet(d', a) && FilesAreSet(d', b)
    ensures FilesAreSet(d, b)
  {
    hide DirOf, ManifestOf;
  }

  lemma SetIsNotModified(d: Device, w: Workload)
    requires w.spec.Some?
    ensures FilesAreSet(d, w) <==> DirOf(w.name) in d.dirs && !Modified(d, w)
    ensures !FilesAreSet(d, w) <==> Modified(d, w)
  {
    hide DirOf, ManifestOf;
  }

  lemma RestartKeepsFiles(d: Device, list: seq<Entry>, w: Workload)
    ensures FilesAreSet(After(d, Restart(list)), w) <==> FilesAreSet(d, w)
  {
    hide DirOf, ManifestOf;
  }

  /** A process that dies while it deploys a new configuration has not stored that
      message. When the files were those of the old configuration and it names the same
      workloads, the next process, which is given the old one first, dies again if
      nothing else fails: it finds the files of the new one and has to replace a
      workload whose service was read from the file. */
  lemma OldConfigurationDiesToo(env: Env, again: Env, d: Device, new': Config, old': Config, list: seq<Entry>)
    requires !Halted(d) && AllApart(new'.workloads) && AllApart(old'.workloads) && NoFaults(again)
    requires AllUnmodified(d, old'.workloads) && ConfiguredNames(new'.workloads) <= ConfiguredNames(old'.workloads)
    requires Reloaded(d) <= d.services.file && DiesDeploying(env, d, new')
    ensures Halted(Updated(again, After(Updated(env, d, new').0, Restart(list)), old').0)
  {
    hide SecretsUpdated, DeployFrom, AllApart, FilesAreSet, Updated, MustReplace, AllUnmodified, Modified, DirOf;
    DeathEndsUpdate(env, d, new');
    var d0 := SecretsUpdated(env, d, new'.secrets).0;
    SecretsKeepProcess(env, d, new');
    var j := DyingTurn(env, d0, new'.workloads, 0);
    var w := new'.workloads[j];
    SecretsKeepRest(env, d, new', w);
    LoopKeepsReloaded(env, d0, new'.workloads, 0);
    var d' := Updated(env, d, new').0;
    var d1 := After(d', Restart(list));
    assert w in new'.workloads && w.name in ConfiguredNames(new'.workloads);
    var i :| 0 <= i < |old'.workloads| && old'.workloads[i].name == w.name;
    OldMustBeReplaced(d, d', d1, w, old'.workloads, i, list);
    ReplacingDies(again, d1, old', i);
  }

  lemma OldMustBeReplaced(d: Device, d': Device, d1: Device, w: Workload, ws: seq<Workload>, i: nat, list: seq<Entry>)
    requires AllUnmodified(d, ws) && i < |ws| && ws[i].name == w.name && MustReplace(d, w) && FilesAreSet(d', w)
    requires KeepsReloaded(d, d') && Reloaded(d) <= d.services.file && d1 == After(d', Restart(list))
    ensures MustReplace(d1, ws[i]) && !Halted(d1)
  {
    hide Modified, DirOf, FilesAreSet;
    var w0 := ws[i];
    assert w0 in ws;
    UnmodifiedIsSet(d, ws, i);
    SetIsNotModified(d, w);
    RestartKeepsFiles(d', list, w);
    RestartKeepsFiles(d', list, w0);
    if FilesAreSet(d1, w0) {
      SameFilesSameWish(d, d1, w0, w);
    }
    SetIsNotModified(d1, w0);
  }

  lemma UnmodifiedIsSet(d: Device, ws: seq<Workload>, i: nat)
    requires AllUnmodified(d, ws) && i < |ws|
    ensures FilesAreSet(d, ws[i]) && ws[i].spec.Some?
  {
    hide Modified, DirOf;
    assert ws[i] in ws;
  }

  // ------------------------------------------------------------ how often it dies

  /** How many configured workloads do not have their files. */
  ghost function Unset(d: Device, ws: seq<Workload>, k: nat): nat
    requires k <= |ws|
    decreases |ws| - k
  {
    if k == |ws| then 0 else (if FilesAreSet(d, ws[k]) then 0 else 1) + Unset(d, ws, k + 1)
  }

  lemma {:induction false} FewerUnset(d: Device, d': Device, ws: seq<Workload>, k: nat, j: nat)
    requires k <= |ws| && forall i :: k <= i < |ws| && FilesAreSet(d, ws[i]) ==> FilesAreSet(d', ws[i])
    ensures Unset(d', ws, k) <= Unset(d, ws, k)
    ensures k <= j < |ws| && !FilesAreSet(d, ws[j]) && FilesAreSet(d', ws[j]) ==> Unset(d', ws, k) < Unset(d, ws, k)
    decreases |ws| - k
  {
    hide FilesAreSet;
    if k < |ws| {
      FewerUnset(d, d', ws, k + 1, j);
    }
  }

  /** A turn takes nobody's files away. */
  lemma TurnKeepsSet(env: Env, d: Device, x: Workload, w: Workload)
    requires FilesAreSet(d, w) && (x == w || Apart(x, w))
    ensures FilesAreSet(Deploy(env, d, x).0, w)
  {
    hide Deploy, FilesAreSet, DirOf;
    if x == w {
      SetIsNeverRun(env, d, w);
    } else {
      DirsTellNamesApart(x.name, w.name);
      DeployTouchesOnly(env, d, x, DirOf(w.name), w.name);
      FilesFollowSame(d, Deploy(env, d, x).0, w);
    }
  }

  lemma {:induction false} LoopKeepsSet(env: Env, d: Device, ws: seq<Workload>, k: nat, i: nat)
    requires k <= |ws| && i < |ws| && AllApart(ws) && FilesAreSet(d, ws[i])
    ensures FilesAreSet(DeployFrom(env, d, ws, k).0, ws[i])
    decreases |ws| - k
  {
    hide Deploy, FilesAreSet, Apart;
    if k < |ws| {
      TurnKeepsSet(env, d, ws[k], ws[i]);
      LoopKeepsSet(env, Deploy(env, d, ws[k]).0, ws, k + 1, i);
    }
  }

  lemma DeathSetsFiles(env: Env, d: Device, config: Config)
    requires !Halted(d) && AllApart(config.workloads) && DiesDeploying(env, d, config)
    ensures Unset(Updated(env, d, config).0, config.workloads, 0) < Unset(d, config.workloads, 0)
  {
    hide SecretsUpdated, DeployFrom, AllApart, FilesAreSet, Updated, Modified;
    var ws := config.workloads;
    DeathEndsUpdate(env, d, config);
    var d0 := SecretsUpdated(env, d, config.secrets).0;
    SecretsKeepProcess(env, d, config);
    var j := DyingTurn(env, d0, ws, 0);
    SecretsKeepRest(env, d, config, ws[j]);
    SetIsNotModified(d, ws[j]);
    forall i | 0 <= i < |ws| && FilesAreSet(d, ws[i]) ensures FilesAreSet(Updated(env, d, config).0, ws[i]) {
      SecretsKeepRest(env, d, config, ws[i]);
      LoopKeepsSet(env, d0, ws, 0, i);
    }
    FewerUnset(d, Updated(env, d, config).0, ws, 0, j);
  }

  lemma {:induction false} RestartKeepsUnset(d: Device, list: seq<Entry>, ws: seq<Workload>, k: nat)
    requires k <= |ws|
    ensures Unset(After(d, Restart(list)), ws, k) == Unset(d, ws, k)
    decreases |ws| - k
  {
    hide FilesAreSet;
    if k < |ws| {
      RestartKeepsFiles(d, list, ws[k]);
      RestartKeepsUnset(d, list, ws, k + 1);
    }
  }

  /** One process after the other is given this configuration, dies while deploying it,
      whatever else fails, and is restarted. */
  ghost predicate DieInTurn(d: Device, config: Config, processes: seq<(Env, seq<Entry>)>)
    decreases |processes|
  {
    processes == [] ||
    var (env, list) := processes[0];
    && DiesDeploying(env, d, config)
    && DieInTurn(After(Updated(env, d, config).0, Restart(list)), config, processes[1..])
  }

  /** They are at most as many as workloads did not have their files: each death sets
      the files of one more. */
  lemma {:induction false} DeathsAreBounded(d: Device, config: Config, processes: seq<(Env, seq<Entry>)>)
    requires !Halted(d) && AllApart(config.workloads) && DieInTurn(d, config, processes)
    ensures |processes| <= Unset(d, config.workloads, 0)
    decreases |processes|
  {
    hide Updated, Unset, AllApart, DiesDeploying;
    if processes != [] {
      var (env, list) := processes[0];
      DeathSetsFiles(env, d, config);
      RestartKeepsUnset(Updated(env, d, config).0, list, config.workloads, 0);
      DeathsAreBounded(After(Updated(env, d, config).0, Restart(list)), config, processes[1..]);
    }
  }

  // ------------------------------------------------------------ one changed workload

  /** When all others have their files, the loop dies on the one that has not, and does
      nothing else. */
  lemma {:induction false} OnlyThatTurn(env: Env, d: Device, ws: seq<Workload>, k: nat, i: nat)
    requires k <= i < |ws| && !Halted(d) && NoFaults(env) && MustReplace(d, ws[i])
    requires forall j :: 0 <= j < |ws| && j != i ==> FilesAreSet(d, ws[j])
    ensures DeployFrom(env, d, ws, k).0 == Deploy(env, d, ws[i]).0 && Halted(Deploy(env, d, ws[i]).0)
    decreases i - k
  {
    hide Deploy, FilesAreSet, Running, Modified;
    TurnDies(env, d, ws[i]);
    if k < i {
      SetIsNeverRun(env, d, ws[k]);
      OnlyThatTurn(env, d, ws, k + 1, i);
    }
  }

  /** An Update with one workload that has to be replaced dies; the pods are as they
      were, all files are as configured afterwards, and the services in the file are
      still there. */
  lemma OneDeath(env: Env, d: Device, config: Config, i: nat)
    requires !Halted(d) && NoFaults(env) && AllApart(config.workloads) && i < |config.workloads|
    requires MustReplace(d, config.workloads[i])
    requires forall j :: 0 <= j < |config.workloads| && j != i ==> FilesAreSet(d, config.workloads[j])
    ensures
      var d' := Updated(env, d, config).0;
      && Halted(d') && d'.pods == d.pods && KeepsReloaded(d, d')
      && forall j :: 0 <= j < |config.workloads| ==> FilesAreSet(d', config.workloads[j])
  {
    hide SecretsUpdated, DeployFrom, AllApart, FilesAreSet, Updated, Deploy, Running, MustReplace, KeepsReloaded;
    var ws := config.workloads;
    var d0 := SecretsUpdated(env, d, config.secrets).0;
    ReplacingDies(env, d, config, i);
    DeathEndsUpdate(env, d, config);
    forall j | 0 <= j < |ws| ensures (FilesAreSet(d0, ws[j]) <==> FilesAreSet(d, ws[j])) {
      SecretsKeepRest(env, d, config, ws[j]);
    }
    SecretsKeepRest(env, d, config, ws[i]);
    OnlyThatTurn(env, d0, ws, 0, i);
    TurnDies(env, d0, ws[i]);
    LoopKeepsReloaded(env, d0, ws, 0);
    SameServices(d, d0);
    KeepsOn(d, d0, Updated(env, d, config).0);
    forall j | 0 <= j < |ws| ensures FilesAreSet(Updated(env, d, config).0, ws[j]) {
      if j != i {
        LoopKeepsSet(env, d0, ws, 0, j);
      }
    }
  }

  /** A workload is changed whose service was read from the file, and nothing else
      fails. The first process dies on the new configuration and the second, which is
      given the old one first, dies on that. The third finds all files as in the old
      one: its turns do nothing, and if nothing else is listed and nothing fails its Update
      reports no error. The pods have been the old ones all the time. */
  lemma ChangeTakesTwoDeaths(env: Env, again: Env, third: Env, d: Device, old': Config, i: nat, w: Workload,
                             secrets: seq<Secret>, list: seq<Entry>, list': seq<Entry>)
    requires !Halted(d) && NoFaults(env) && NoFaults(again) && AllApart(old'.workloads)
    requires AllUnmodified(d, old'.workloads) && i < |old'.workloads| && w.name == old'.workloads[i].name
    requires MustReplace(d, w) && w.name in d.services.file
    ensures
      var new' := Config(old'.workloads[i := w], secrets);
      var died := Updated(env, d, new').0;
      var d1 := After(died, Restart(list));
      var diedAgain := Updated(again, d1, old').0;
      var d2 := After(diedAgain, Restart(list'));
      && Halted(died) && Halted(diedAgain) && d2.pods == d.pods
      && AllUnmodified(d2, old'.workloads) && DeployFrom(third, d2, old'.workloads, 0) == (d2, 0)
      && (NoFaults(third) && ValidWalk(third) && DistinctSecrets(old'.secrets)
          && ListedNames(d2) <= ConfiguredNames(old'.workloads) ==>
          var (d3, errors) := Updated(third, d2, old');
          errors == 0 && d3.pods == d.pods && d3.issued == d2.issued)
  {
    hide FilesAreSet, Updated, MustReplace, AllUnmodified, KeepsReloaded, DeployFrom, Apart, ValidWalk, ListedNames,
      ConfiguredNames;
    var ws := old'.workloads;
    var new' := Config(ws[i := w], secrets);
    forall j | 0 <= j < |ws| ensures FilesAreSet(d, ws[j]) {
      UnmodifiedIsSet(d, ws, j);
    }
    SameDirSameApart(ws, i, w);
    OneDeath(env, d, new', i);
    var died := Updated(env, d, new').0;
    var d1 := After(died, Restart(list));
    OneMustBeReplaced(d, died, d1, w, ws, i, list);
    forall j | 0 <= j < |ws| && j != i ensures FilesAreSet(d1, ws[j]) {
      assert new'.workloads[j] == ws[j];
      RestartKeepsFiles(died, list, ws[j]);
    }
    OneDeath(again, d1, old', i);
    var diedAgain := Updated(again, d1, old').0;
    var d2 := After(diedAgain, Restart(list'));
    forall j | 0 <= j < |ws| ensures FilesAreSet(d2, ws[j]) {
      RestartKeepsFiles(diedAgain, list', ws[j]);
    }
    SetFilesAreUnmodified(d2, ws);
    UnmodifiedLoop(third, d2, ws, 0);
    if NoFaults(third) && ValidWalk(third) && DistinctSecrets(old'.secrets) && ListedNames(d2) <= ConfiguredNames(ws) {
      UpdateReportsNothing(third, d2, old');
    }
  }

  lemma SameDirSameApart(ws: seq<Workload>, i: nat, w: Workload)
    requires AllApart(ws) && i < |ws| && w.name == ws[i].name
    ensures AllApart(ws[i := w])
  {
    hide DirOf;
    var ws' := ws[i := w];
    assert forall j :: 0 <= j < |ws| ==> ws'[j].name == ws[j].name;
    forall a, b | 0 <= a < |ws'| && 0 <= b < |ws'| && a != b ensures Apart(ws'[a], ws'[b]) {
      assert Apart(ws[a], ws[b]);
    }
  }

  lemma OneMustBeReplaced(d: Device, d': Device, d1: Device, w: Workload, ws: seq<Workload>, i: nat, list: seq<Entry>)
    requires i < |ws| && FilesAreSet(d, ws[i]) && ws[i].name == w.name && MustReplace(d, w) && FilesAreSet(d', w)
    requires KeepsReloaded(d, d') && w.name in d.services.file && d1 == After(d', Restart(list))
    ensures MustReplace(d1, ws[i]) && !Halted(d1)
  {
    hide Modified, DirOf, FilesAreSet;
    var w0 := ws[i];
    SetHasSpec(d, w0);
    SetIsNotModified(d, w);
    RestartKeepsFiles(d', list, w);
    if FilesAreSet(d1, w0) {
      SameFilesSameWish(d, d1, w0, w);
    }
    SetIsNotModified(d1, w0);
  }

  lemma SetHasSpec(d: Device, w: Workload)
    requires FilesAreSet(d, w)
    ensures w.spec.Some?
  {
  }

  /** If the new message comes again before the old one was applied, the turns for that
      workload do nothing. */
  lemma ChangeIsLost(env: Env, again: Env, d: Device, w: Workload, list: seq<Entry>)
    requires !Halted(d) && Halted(Deploy(env, d, w).0)
    ensures
      var d' := After(Deploy(env, d, w).0, Restart(list));
      && Running(Deploy(env, d, w).0) == Running(d)
      && Deploy(again, d', w) == (d', true)
  {
    hide Deploy, Running, FilesAreSet;
    TurnDies(env, d, w);
    var d' := After(Deploy(env, d, w).0, Restart(list));
    FilesFollow(Deploy(env, d, w).0, d', w);
    SetIsNeverRun(again, d', w);
  }
}
