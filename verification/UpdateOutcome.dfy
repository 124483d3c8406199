/** What an Update leaves running, exactly, and what every Update keeps. */
module UpdateOutcome {
  import opened Options
  import opened WorkloadTable
  import opened WorkloadDevice
  import opened Reconcile
  import opened DeviceSecrets
  import opened WorkloadManagement

  /** The files and the pod of a workload are as before. */
  ghost predicate SameFor(d: Device, d': Device, dir: string, name: Name) {
    && (dir in d'.dirs <==> dir in d.dirs)
    && (dir in d.dirs ==> d'.dirs[dir] == d.dirs[dir])
    && (name in d'.table.ids <==> name in d.table.ids)
  }

  lemma RemovalTouchesOnly(env: Env, d: Device, x: Name, dir: string, name: Name)
    requires x != name
    ensures SameFor(d, Removal(env, d, x).0, dir, name)
  {
    hide Removal;
    RemovalFrame(env, d, x);
  }

  lemma RunTouchesOnly(env: Env, d: Device, x: Workload, dir: string, name: Name)
    requires x.spec.Some? && x.name != name
    ensures SameFor(d, Launch(env, d, ManifestOf(x), DirOf(x.name), x.auth != "").0, dir, name)
  {
    ManifestHasName(x);
    hide Launch, ManifestOf, DirOf;
    LaunchFrame(env, d, ManifestOf(x), DirOf(x.name), x.auth != "");
  }

  /** A turn of the loop touches the files and the pod of its own workload only. */
  lemma DeployTouchesOnly(env: Env, d: Device, x: Workload, dir: string, name: Name)
    requires DirOf(x.name) != dir && x.name != name
    ensures SameFor(d, Deploy(env, d, x).0, dir, name)
  {
    hide Replaced, Modified, DirOf;
    if x.spec.Some? {
      var (d0, there) := DirEnsured(env, d, DirOf(x.name));
      if there && Modified(d0, x) {
        ReplacedTouchesOnly(env, d0, x, dir, name);
      }
    }
  }

  lemma ReplacedTouchesOnly(env: Env, d: Device, x: Workload, dir: string, name: Name)
    requires x.spec.Some? && DirOf(x.name) in d.dirs && DirOf(x.name) != dir && x.name != name
    ensures SameFor(d, Replaced(env, d, x).0, dir, name)
  {
    hide Removal, Launch, ManifestOf, DirOf;
    var d1 := FilesStored(env, d, DirOf(x.name), ManifestOf(x), AuthOf(x)).0;
    assert SameFor(d, d1, dir, name);
    RemovalTouchesOnly(env, d1, x.name, dir, name);
    RunTouchesOnly(env, Removal(env, d1, x.name).0, x, dir, name);
  }

  // -------------------------------------------------- every pod under its name

  /** Whatever fails in it, a turn of the loop keeps every pod under its own name and
      changes what runs under the name of its workload only. */
  lemma DeployKeepsSane(env: Env, d: Device, x: Workload)
    requires Sane(d)
    ensures
      var d' := Deploy(env, d, x).0;
      Sane(d') && Running(d') - {x.name} == Running(d) - {x.name}
  {
    hide Replaced, Modified, DirOf, Sane, Running;
    if x.spec.Some? {
      var (d0, there) := DirEnsured(env, d, DirOf(x.name));
      SaneFrame(d, d0);
      if there && Modified(d0, x) {
        ReplacedKeepsSane(env, d0, x);
      }
    }
  }

  lemma SaneFrame(d: Device, d': Device)
    requires d'.table == d.table && d'.pods == d.pods && d'.saved == d.saved && d'.nextId == d.nextId
    ensures (Sane(d) ==> Sane(d')) && Running(d') == Running(d)
  {
    SameRunning(d, d');
  }

  lemma ReplacedKeepsSane(env: Env, d: Device, x: Workload)
    requires Sane(d) && x.spec.Some? && DirOf(x.name) in d.dirs
    ensures
      var d' := Replaced(env, d, x).0;
      Sane(d') && Running(d') - {x.name} == Running(d) - {x.name}
  {
    hide Removal, Launch, DirOf, ManifestOf, Sane, Running;
    var dir := DirOf(x.name);
    var (d1, stored) := FilesStored(env, d, dir, ManifestOf(x), AuthOf(x));
    SaneFrame(d, d1);
    if stored {
      RemovalKeepsSane(env, d1, x.name);
      var (d2, removed) := Removal(env, d1, x.name);
      RemovalFrame(env, d1, x.name);
      if removed {
        RunKeepsSane(env, d2, x);
      }
    }
  }

  lemma RunKeepsSane(env: Env, d: Device, x: Workload)
    requires Sane(d) && x.spec.Some? && x.name !in d.table.ids
    requires DirOf(x.name) in d.dirs && d.dirs[DirOf(x.name)].manifest == Some(ManifestOf(x))
    ensures
      var d' := Launch(env, d, ManifestOf(x), DirOf(x.name), x.auth != "").0;
      Sane(d') && Running(d') - {x.name} == Running(d) - {x.name}
  {
    ManifestHasName(x);
    hide Launch, DirOf, ManifestOf, Sane, Running;
    LaunchKeepsSane(env, d, ManifestOf(x), DirOf(x.name), x.auth != "");
  }

  lemma DropKeepsSane(env: Env, d: Device, name: Name)
    requires Sane(d)
    ensures
      var d' := Drop(env, d, name).0;
      Sane(d') && Running(d') - {name} == Running(d) - {name}
  {
    hide Removal, DirOf, Sane, Running;
    var c := d.clock;
    var d1 := if env.fault(c) then d.(clock := c + 1) else d.(dirs := d.dirs - {DirOf(name)}, clock := c + 1);
    SaneFrame(d, d1);
    RemovalKeepsSane(env, d1, name);
  }

  lemma {:induction false} DeployLoopKeepsSane(env: Env, d: Device, ws: seq<Workload>, k: nat)
    requires k <= |ws| && Sane(d)
    ensures Sane(DeployFrom(env, d, ws, k).0)
    decreases |ws| - k
  {
    hide Deploy, Sane;
    if k < |ws| {
      DeployKeepsSane(env, d, ws[k]);
      DeployLoopKeepsSane(env, Deploy(env, d, ws[k]).0, ws, k + 1);
    }
  }

  lemma {:induction false} DropLoopKeepsSane(env: Env, d: Device, names: seq<Name>, keep: set<Name>, k: nat)
    requires k <= |names| && Sane(d)
    ensures Sane(DropFrom(env, d, names, keep, k).0)
    decreases |names| - k
  {
    hide Drop, Sane;
    if k < |names| {
      DropKeepsSane(env, d, names[k]);
      DropLoopKeepsSane(env, if names[k] in keep then d else Drop(env, d, names[k]).0, names, keep, k + 1);
    }
  }

  lemma ReconciledKeepsSane(env: Env, d: Device, ws: seq<Workload>)
    requires Sane(d)
    ensures Sane(Reconciled(env, d, ws).0)
  {
    hide DeployFrom, DropFrom, Sane, ListedNames, ConfiguredNames;
    DeployLoopKeepsSane(env, d, ws, 0);
    var d1 := DeployFrom(env, d, ws, 0).0;
    var d2 := d1.(clock := d1.clock + 1);
    SaneFrame(d1, d2);
    DropLoopKeepsSane(env, d2, env.walk(ListedNames(d2)), ConfiguredNames(ws), 0);
  }

  /** Every Update, whatever fails in it, keeps every pod known under exactly one
      name, its own. */
  lemma UpdateKeepsSane(env: Env, d: Device, config: Config)
    requires Sane(d)
    ensures Sane(Updated(env, d, config).0)
  {
    hide SecretsUpdated, Reconciled, Sane;
    UpdateTouchesOnlySecrets(env, d, config.secrets);
    SaneFrame(d, SecretsUpdated(env, d, config.secrets).0);
    ReconciledKeepsSane(env, SecretsUpdated(env, d, config.secrets).0, config.workloads);
  }

  /** No restart finds a table file that lacks the last change. */
  ghost predicate NoLostWrite(d: Device, events: seq<Event>)
    decreases |events|
  {
    events == [] || ((events[0].Restart? ==> d.saved == d.table.names) && NoLostWrite(After(d, events[0]), events[1..]))
  }

  lemma RestartKeepsSane(d: Device, list: seq<Entry>)
    requires Sane(d) && IsListing(list, d.saved) && d.saved == d.table.names
    ensures Sane(After(d, Restart(list)))
  {
    TablesAreInverse(d);
    ReloadGivesSameTable(list, d.table);
    SaneFrame(d, After(d, Restart(list)));
  }

  /** So does every run of updates and restarts in which no write of the table was
      lost before a restart. */
  lemma {:induction false} SaneInEveryRun(d: Device, events: seq<Event>)
    requires Sane(d) && IsRun(d, events) && NoLostWrite(d, events)
    ensures Sane(AfterAll(d, events))
    decreases |events|
  {
    if events != [] {
      hide Updated, Sane;
      match events[0] {
        case Update(env, config) => UpdateKeepsSane(env, d, config);
        case Restart(list) => RestartKeepsSane(d, list);
      }
      SaneInEveryRun(After(d, events[0]), events[1..]);
    }
  }

  // ------------------------------------------------------------ what runs, exactly

  /** The files and the pod of a workload are as before. */
  ghost predicate SameWorkload(d: Device, d': Device, w: Workload) {
    && SameFor(d, d', DirOf(w.name), w.name)
    && (w.name in Running(d') <==> w.name in Running(d))
    && (w.name in Running(d) ==> Running(d')[w.name] == Running(d)[w.name])
  }

  lemma SameWorkloadDeployed(d: Device, d': Device, w: Workload)
    requires SameWorkload(d, d', w) && w.spec.Some?
    ensures Deployed(d', w) <==> Deployed(d, w)
    ensures Modified(d', w) <==> Modified(d, w)
  {
    hide DirOf, ManifestOf, Running;
  }

  /** Names with different directories. */
  ghost predicate Apart(x: Workload, w: Workload) {
    DirOf(x.name) != DirOf(w.name)
  }

  lemma OtherRuns(running: map<Name, Pod>, running': map<Name, Pod>, x: Name, n: Name)
    requires running' - {x} == running - {x} && n != x
    ensures n in running' <==> n in running
    ensures n in running ==> running'[n] == running[n]
  {
    assert n in running' <==> n in running' - {x};
    assert n in running <==> n in running - {x};
    if n in running {
      assert (running' - {x})[n] == (running - {x})[n];
    }
  }

  lemma OtherTurn(env: Env, d: Device, x: Workload, w: Workload)
    requires Sane(d) && Apart(x, w)
    ensures Sane(Deploy(env, d, x).0) && SameWorkload(d, Deploy(env, d, x).0, w)
  {
    DirsTellNamesApart(x.name, w.name);
    hide Deploy, DirOf, Sane, Running, SameFor;
    DeployKeepsSane(env, d, x);
    DeployTouchesOnly(env, d, x, DirOf(w.name), w.name);
    OtherRuns(Running(d), Running(Deploy(env, d, x).0), x.name, w.name);
  }

  lemma DirsTellNamesApart(a: Name, b: Name)
    requires DirOf(a) != DirOf(b)
    ensures a != b
  {
  }

  /** The turns before the one of a workload, or after it. */
  lemma {:induction false} OtherTurns(env: Env, d: Device, ws: seq<Workload>, k: nat, w: Workload)
    requires k <= |ws| && Sane(d) && forall i :: k <= i < |ws| ==> Apart(ws[i], w)
    ensures
      var d' := DeployFrom(env, d, ws, k).0;
      && Sane(d')
      && (w.name in Running(d') <==> w.name in Running(d))
      && (w.name in Running(d) ==> Running(d')[w.name] == Running(d)[w.name])
    decreases |ws| - k
  {
    hide Deploy, Sane, Running, Apart, SameFor;
    if k < |ws| {
      OtherTurn(env, d, ws[k], w);
      OtherTurns(env, Deploy(env, d, ws[k]).0, ws, k + 1, w);
    }
  }

  lemma DeployedByRunning(d: Device, d': Device, w: Workload)
    requires w.name in Running(d') <==> w.name in Running(d)
    requires w.name in Running(d) ==> Running(d')[w.name] == Running(d)[w.name]
    ensures Deployed(d', w) <==> Deployed(d, w)
  {
  }

  lemma {:induction false} LoopRunsExactlyWhen(env: Env, d: Device, ws: seq<Workload>, k: nat, i: nat)
    requires k <= i < |ws| && Sane(d) && DeployFrom(env, d, ws, k).1 == 0
    requires forall j :: 0 <= j < |ws| && j != i ==> Apart(ws[j], ws[i])
    ensures ws[i].spec.Some? && Sane(DeployFrom(env, d, ws, k).0)
    ensures Deployed(DeployFrom(env, d, ws, k).0, ws[i]) <==> Modified(d, ws[i]) || Deployed(d, ws[i])
    decreases i - k
  {
    hide Deploy, Sane, Running, Apart, Modified, Deployed, SameWorkload;
    DeployKeepsSane(env, d, ws[k]);
    SpecIsThere(env, d, ws[k]);
    var d1 := Deploy(env, d, ws[k]).0;
    if k == i {
      OneTurn(env, d, ws[i]);
      OtherTurns(env, d1, ws, k + 1, ws[i]);
      DeployedByRunning(d1, DeployFrom(env, d1, ws, k + 1).0, ws[i]);
    } else {
      OtherTurn(env, d, ws[k], ws[i]);
      LoopRunsExactlyWhen(env, d1, ws, k + 1, i);
      SameWorkloadDeployed(d, d1, ws[i]);
    }
  }

  lemma SpecIsThere(env: Env, d: Device, w: Workload)
    requires Deploy(env, d, w).1
    ensures w.spec.Some?
  {
  }

  lemma OneTurn(env: Env, d: Device, w: Workload)
    requires Sane(d) && Deploy(env, d, w).1 && w.spec.Some?
    ensures Deployed(Deploy(env, d, w).0, w) <==> Modified(d, w) || Deployed(d, w)
  {
    hide Deploy, Running, Modified, Deployed, Core, NamesMatch;
    DeployWorksExactlyWhen(env, d, w);
  }

  lemma {:induction false} DropsKeepConfigured(env: Env, d: Device, names: seq<Name>, keep: set<Name>, k: nat, n: Name)
    requires k <= |names| && Sane(d) && n in keep
    ensures
      var d' := DropFrom(env, d, names, keep, k).0;
      && (n in Running(d') <==> n in Running(d))
      && (n in Running(d) ==> Running(d')[n] == Running(d)[n])
    decreases |names| - k
  {
    hide Drop, Sane, Running;
    if k < |names| {
      if names[k] in keep {
        DropsKeepConfigured(env, d, names, keep, k + 1, n);
      } else {
        var d1 := Drop(env, d, names[k]).0;
        DropKeepsSane(env, d, names[k]);
        OtherRuns(Running(d), Running(d1), names[k], n);
        DropsKeepConfigured(env, d1, names, keep, k + 1, n);
      }
    }
  }

  lemma ReconciledRunsExactlyWhen(env: Env, d: Device, ws: seq<Workload>, i: nat)
    requires i < |ws| && Sane(d) && Reconciled(env, d, ws).1 == 0
    requires forall j :: 0 <= j < |ws| && j != i ==> Apart(ws[j], ws[i])
    ensures ws[i].spec.Some?
    ensures Deployed(Reconciled(env, d, ws).0, ws[i]) <==> Modified(d, ws[i]) || Deployed(d, ws[i])
  {
    hide DeployFrom, DropFrom, Sane, Running, Apart, Modified, Deployed, ListedNames;
    LoopRunsExactlyWhen(env, d, ws, 0, i);
    var d1 := DeployFrom(env, d, ws, 0).0;
    var d2 := d1.(clock := d1.clock + 1);
    SaneFrame(d1, d2);
    assert ws[i] in ws;
    var names := env.walk(ListedNames(d2));
    DropsKeepConfigured(env, d2, names, ConfiguredNames(ws), 0, ws[i].name);
    DeployedByRunning(d1, d2, ws[i]);
    DeployedByRunning(d2, DropFrom(env, d2, names, ConfiguredNames(ws), 0).0, ws[i]);
  }

  /** An Update that reports no error leaves a configured workload running as
      configured if and only if its stored files differed from the configuration
      before, or it already ran so. No agreement of files and pods is assumed: only
      that every pod is known under its own name, which every run keeps. */
  lemma UpdateRunsExactlyWhen(env: Env, d: Device, config: Config, i: nat)
    requires i < |config.workloads| && Sane(d) && Updated(env, d, config).1 == 0
    requires forall j :: 0 <= j < |config.workloads| && j != i ==> Apart(config.workloads[j], config.workloads[i])
    ensures
      var w := config.workloads[i];
      && w.spec.Some?
      && (Deployed(Updated(env, d, config).0, w) <==> Modified(d, w) || Deployed(d, w))
  {
    hide SecretsUpdated, Reconciled, Sane, Running, Apart, Deployed, DirOf, ManifestOf;
    UpdateTouchesOnlySecrets(env, d, config.secrets);
    var d1 := SecretsUpdated(env, d, config.secrets).0;
    SaneFrame(d, d1);
    ReconciledRunsExactlyWhen(env, d1, config.workloads, i);
    DeployedByRunning(d, d1, config.workloads[i]);
  }
}
