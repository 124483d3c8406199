/** Services read back from their file have no connection to systemd, and the process
    dies when it stops one. What this means for whole updates and runs. */
module ReloadedServices {
  import opened Options
  import opened WorkloadTable
  import opened WorkloadDevice
  import opened Reconcile
  import opened DeviceSecrets
  import opened WorkloadManagement
  import opened UpdateOutcome
  import opened FailedCalls
  import opened SecondUpdates

  /** The services that were read from the file. */
  function Reloaded(d: Device): set<Name> {
    d.services.listed - d.services.own
  }

  // ------------------------------------------------------------------ one Remove

  /** The service is listed, but it was read from the file or lacks units. */
  predicate Stuck(d: Device, name: Name) {
    name in d.services.listed && (name !in d.services.own || name !in d.services.units)
  }

  /** Remove lets the process die exactly on a service that was read from the file. It
      can succeed, namely when nothing fails, if and only if the service is not
      stuck. */
  lemma RemovalWorksExactlyWhen(env: Env, d: Device, name: Name)
    requires !Halted(d)
    ensures Halted(Removal(env, d, name).0) <==> name in Reloaded(d)
    ensures Removal(env, d, name).1 ==> !Stuck(d, name)
    ensures NoFaults(env) ==> (Removal(env, d, name).1 <==> !Stuck(d, name))
  {
  }

  /** Then nothing but the call has happened. */
  lemma DyingChangesNothing(env: Env, d: Device, name: Name)
    requires name in Reloaded(d)
    ensures
      var (d', ok) := Removal(env, d, name);
      !ok && d' == d.(clock := d'.clock, issued := d.issued + [RemoveOp(name)],
                      services := d.services.(halted := true))
  {
  }

  // --------------------------------------------------- reloaded services stay so

  /** The services read from the file are still those, and still in the file. */
  ghost predicate KeepsReloaded(d: Device, d': Device) {
    Reloaded(d') == Reloaded(d) && Reloaded(d) * d.services.file <= d'.services.file
  }

  lemma ServicesKeepReloaded(env: Env, c: nat, s: Services, name: Name)
    ensures
      var s' := ServiceRemoved(env, c, s, name).0;
      s'.listed - s'.own == s.listed - s.own && (s.listed - s.own) * s.file <= s'.file
    ensures name !in s.listed - s.own ==>
      var s' := ServiceCreated(env, c, s, name).0;
      s'.listed - s'.own == s.listed - s.own && (s.listed - s.own) * s.file <= s'.file
  {
  }

  lemma RemovalKeepsReloaded(env: Env, d: Device, name: Name)
    ensures KeepsReloaded(d, Removal(env, d, name).0)
    ensures Removal(env, d, name).1 ==> name !in Reloaded(d)
  {
    if name in Reloaded(d) {
      DyingChangesNothing(env, d, name);
    }
    hide Removal, ServiceRemoved;
    RemovalFrame(env, d, name);
    ServicesKeepReloaded(env, d.clock, d.services, name);
  }

  lemma LaunchKeepsReloaded(env: Env, d: Device, pod: Manifest, dir: string, withAuth: bool)
    requires pod.name !in Reloaded(d)
    ensures KeepsReloaded(d, Launch(env, d, pod, dir, withAuth).0)
  {
    hide Networked, Launched, ServiceCreated;
    var d0 := d.(issued := d.issued + [RunOp(pod.name)]);
    NetworkedFrame(env, d0, pod.name, pod.spec);
    var d1 := Networked(env, d0, pod.name, pod.spec).0;
    LaunchedFrame(env, d1, pod.name, dir, withAuth);
    ServicesKeepReloaded(env, d1.clock + 2, d1.services, pod.name);
  }

  lemma SameServices(d: Device, d': Device)
    requires d'.services == d.services
    ensures KeepsReloaded(d, d')
  {
  }

  lemma KeepsOn(a: Device, b: Device, c: Device)
    requires KeepsReloaded(a, b) && KeepsReloaded(b, c)
    ensures KeepsReloaded(a, c)
  {
  }

  lemma DeployKeepsReloaded(env: Env, d: Device, w: Workload)
    ensures KeepsReloaded(d, Deploy(env, d, w).0)
  {
    SameServices(d, d);
    hide Replaced, Modified, DirOf, KeepsReloaded;
    if w.spec.Some? {
      var (d0, there) := DirEnsured(env, d, DirOf(w.name));
      SameServices(d, d0);
      if there && Modified(d0, w) {
        ReplacedKeepsReloaded(env, d0, w);
        KeepsOn(d, d0, Replaced(env, d0, w).0);
      }
    }
  }

  lemma ReplacedKeepsReloaded(env: Env, d: Device, w: Workload)
    requires w.spec.Some? && DirOf(w.name) in d.dirs
    ensures KeepsReloaded(d, Replaced(env, d, w).0)
  {
    ManifestHasName(w);
    hide Removal, Launch, DirOf, ManifestOf;
    var d1 := FilesStored(env, d, DirOf(w.name), ManifestOf(w), AuthOf(w)).0;
    SameServices(d, d1);
    RemovalKeepsReloaded(env, d1, w.name);
    var (d2, removed) := Removal(env, d1, w.name);
    if removed {
      LaunchKeepsReloaded(env, d2, ManifestOf(w), DirOf(w.name), w.auth != "");
    }
  }

  lemma DropKeepsReloaded(env: Env, d: Device, name: Name)
    ensures KeepsReloaded(d, Drop(env, d, name).0)
  {
    hide Removal, DirOf;
    var c := d.clock;
    var d1 := if env.fault(c) then d.(clock := c + 1) else d.(dirs := d.dirs - {DirOf(name)}, clock := c + 1);
    SameServices(d, d1);
    RemovalKeepsReloaded(env, d1, name);
  }

  // ------------------------------------------------------ which calls let it die

  /** A turn lets the process die exactly when it gets as far as removing a workload
      whose service was read from the file. Then the files are as configured, and what
      runs has not changed. */
  lemma TurnDies(env: Env, d: Device, w: Workload)
    requires !Halted(d)
    ensures Halted(Deploy(env, d, w).0) ==>
      && w.name in Reloaded(d) && w.spec.Some? && Modified(d, w)
      && FilesAreSet(Deploy(env, d, w).0, w)
      && Running(Deploy(env, d, w).0) == Running(d) && Deploy(env, d, w).0.pods == d.pods
    ensures w.name in Reloaded(d) && w.spec.Some? && Modified(d, w) && NoFaults(env) ==> Halted(Deploy(env, d, w).0)
  {
    hide Replaced, DirOf, ManifestOf, Running, FilesAreSet;
    if w.spec.Some? {
      var (d0, there) := DirEnsured(env, d, DirOf(w.name));
      SameRunning(d, d0);
      if there && Modified(d0, w) {
        ReplacedDies(env, d0, w);
      }
    }
  }

  lemma ReplacedDies(env: Env, d: Device, w: Workload)
    requires !Halted(d) && w.spec.Some? && DirOf(w.name) in d.dirs
    ensures Halted(Replaced(env, d, w).0) ==>
      && w.name in Reloaded(d) && FilesAreSet(Replaced(env, d, w).0, w)
      && Running(Replaced(env, d, w).0) == Running(d) && Replaced(env, d, w).0.pods == d.pods
    ensures w.name in Reloaded(d) && NoFaults(env) ==> Halted(Replaced(env, d, w).0)
  {
    hide Removal, Launch, DirOf, ManifestOf, Running;
    var (d1, stored) := FilesStored(env, d, DirOf(w.name), ManifestOf(w), AuthOf(w));
    SameRunning(d, d1);
    if stored {
      RemovalWorksExactlyWhen(env, d1, w.name);
      var (d2, removed) := Removal(env, d1, w.name);
      RemovalFrame(env, d1, w.name);
      if w.name in Reloaded(d1) {
        DyingChangesNothing(env, d1, w.name);
        SameRunning(d1, d2);
      }
      if removed {
        LaunchFrame(env, d2, ManifestOf(w), DirOf(w.name), w.auth != "");
      }
    }
  }

  lemma DropDies(env: Env, d: Device, name: Name)
    requires !Halted(d)
    ensures Halted(Drop(env, d, name).0) <==> name in Reloaded(d)
    ensures Halted(Drop(env, d, name).0) ==> Running(Drop(env, d, name).0) == Running(d)
  {
    hide Removal, DirOf, Running;
    var c := d.clock;
    var d1 := if env.fault(c) then d.(clock := c + 1) else d.(dirs := d.dirs - {DirOf(name)}, clock := c + 1);
    SameRunning(d, d1);
    RemovalWorksExactlyWhen(env, d1, name);
    if name in Reloaded(d1) {
      DyingChangesNothing(env, d1, name);
      SameRunning(d1, Removal(env, d1, name).0);
    }
  }

  // --------------------------------------------------------- when an Update dies

  /** A configured workload has to be replaced, or another one dropped, and its
      service was read from the file. */
  ghost predicate MustTouchReloaded(d: Device, ws: seq<Workload>) {
    || (exists i :: 0 <= i < |ws| && MustReplace(d, ws[i]))
    || (exists n :: n in Running(d) && n !in ConfiguredNames(ws) && n in Reloaded(d))
  }

  ghost predicate MustReplace(d: Device, w: Workload) {
    w.spec.Some? && Modified(d, w) && w.name in Reloaded(d)
  }

  lemma SameMustReplace(d: Device, d': Device, w: Workload)
    requires SameFor(d, d', DirOf(w.name), w.name) && KeepsReloaded(d, d')
    ensures MustReplace(d', w) <==> MustReplace(d, w)
  {
    hide DirOf, ManifestOf;
  }

  lemma OtherTurnMustReplace(env: Env, d: Device, x: Workload, w: Workload)
    requires Apart(x, w)
    ensures MustReplace(Deploy(env, d, x).0, w) <==> MustReplace(d, w)
  {
    DirsTellNamesApart(x.name, w.name);
    hide Deploy, DirOf;
    DeployTouchesOnly(env, d, x, DirOf(w.name), w.name);
    DeployKeepsReloaded(env, d, x);
    SameMustReplace(d, Deploy(env, d, x).0, w);
  }

  lemma {:induction false} LoopDiesExactlyWhen(env: Env, d: Device, ws: seq<Workload>, k: nat)
    requires k <= |ws| && !Halted(d) && NoFaults(env) && AllApart(ws)
    ensures Halted(DeployFrom(env, d, ws, k).0) <==> exists i :: k <= i < |ws| && MustReplace(d, ws[i])
    decreases |ws| - k
  {
    hide Deploy, Apart, Modified, FilesAreSet, Running;
    if k < |ws| {
      var d1 := Deploy(env, d, ws[k]).0;
      TurnDies(env, d, ws[k]);
      assert Halted(d1) <==> MustReplace(d, ws[k]);
      if !Halted(d1) {
        hide MustReplace;
        LoopDiesExactlyWhen(env, d1, ws, k + 1);
        forall i | k + 1 <= i < |ws| ensures MustReplace(d1, ws[i]) <==> MustReplace(d, ws[i]) {
          OtherTurnMustReplace(env, d, ws[k], ws[i]);
        }
      }
    }
  }

  lemma {:induction false} DropsDieExactlyWhen(env: Env, d: Device, names: seq<Name>, keep: set<Name>, k: nat)
    requires k <= |names| && !Halted(d)
    ensures Halted(DropFrom(env, d, names, keep, k).0) <==>
              exists i :: k <= i < |names| && names[i] !in keep && names[i] in Reloaded(d)
    decreases |names| - k
  {
    hide Drop, Running;
    if k < |names| {
      if names[k] in keep {
        DropsDieExactlyWhen(env, d, names, keep, k + 1);
      } else {
        var d1 := Drop(env, d, names[k]).0;
        DropDies(env, d, names[k]);
        DropKeepsReloaded(env, d, names[k]);
        if !Halted(d1) {
          DropsDieExactlyWhen(env, d1, names, keep, k + 1);
        }
      }
    }
  }

  lemma {:induction false} LoopKeepsReloaded(env: Env, d: Device, ws: seq<Workload>, k: nat)
    requires k <= |ws|
    ensures KeepsReloaded(d, DeployFrom(env, d, ws, k).0)
    decreases |ws| - k
  {
    SameServices(d, d);
    hide Deploy, KeepsReloaded;
    if k < |ws| {
      var d1 := Deploy(env, d, ws[k]).0;
      DeployKeepsReloaded(env, d, ws[k]);
      if !Halted(d1) {
        LoopKeepsReloaded(env, d1, ws, k + 1);
        KeepsOn(d, d1, DeployFrom(env, d1, ws, k + 1).0);
      }
    }
  }

  /** The names that are listed and not configured, after the loop, are those that ran
      before it. */
  lemma StaleNames(env: Env, d: Device, d2: Device, ws: seq<Workload>, n: Name)
    requires Sane(d) && n !in ConfiguredNames(ws)
    requires var d1 := DeployFrom(env, d, ws, 0).0; d2 == d1.(clock := d2.clock)
    ensures Sane(d2) && (n in ListedNames(d2) <==> n in Running(d))
  {
    hide DeployFrom, TablesInv, NamesMatch, RunningIn, ListedNames, ConfiguredNames;
    LoopKeepsOthers(env, d, ws, 0, n);
    SaneFrame(DeployFrom(env, d, ws, 0).0, d2);
    ListedAreRunning(d2);
  }

  lemma ReconciledDiesExactlyWhen(env: Env, d: Device, ws: seq<Workload>)
    requires Sane(d) && !Halted(d) && NoFaults(env) && ValidWalk(env) && AllApart(ws)
    ensures Halted(Reconciled(env, d, ws).0) <==> MustTouchReloaded(d, ws)
  {
    hide DeployFrom, DropFrom, Sane, RunningIn, ListedNames, ConfiguredNames, MustReplace, AllApart;
    LoopDiesExactlyWhen(env, d, ws, 0);
    LoopKeepsReloaded(env, d, ws, 0);
    var d1 := DeployFrom(env, d, ws, 0).0;
    if !Halted(d1) {
      var d2 := d1.(clock := d1.clock + 1);
      var names, keep := env.walk(ListedNames(d2)), ConfiguredNames(ws);
      assert Enumerates(names, ListedNames(d2));
      DropsDieExactlyWhen(env, d2, names, keep, 0);
      forall n | n !in keep ensures n in names <==> n in Running(d) {
        StaleNames(env, d, d2, ws, n);
      }
      if n :| n in Running(d) && n !in keep && n in Reloaded(d) {
        var i :| 0 <= i < |names| && names[i] == n;
      }
    }
  }

  /** An Update in which nothing fails lets the process die if and only if it has to
      replace or drop a workload whose service was read from the file. */
  lemma UpdateDiesExactlyWhen(env: Env, d: Device, config: Config)
    requires Sane(d) && !Halted(d) && NoFaults(env) && ValidWalk(env) && AllApart(config.workloads)
    ensures Halted(Updated(env, d, config).0) <==> MustTouchReloaded(d, config.workloads)
  {
    hide SecretsUpdated, Reconciled, Sane, RunningIn, AllApart, DirOf, ManifestOf, ConfiguredNames;
    UpdateTouchesOnlySecrets(env, d, config.secrets);
    var d0 := SecretsUpdated(env, d, config.secrets).0;
    SaneFrame(d, d0);
    ReconciledDiesExactlyWhen(env, d0, config.workloads);
    forall i | 0 <= i < |config.workloads|
      ensures MustReplace(d0, config.workloads[i]) <==> MustReplace(d, config.workloads[i])
    {
    }
  }
}
