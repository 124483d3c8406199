/** What the workload manager does after a call that failed: a Run that is not
    repeated, a service that can no longer be removed. */
module FailedCalls {
  import opened Options
  import opened WorkloadTable
  import opened WorkloadDevice
  import opened Reconcile
  import opened DeviceSecrets
  import opened WorkloadManagement
  import opened UpdateOutcome

  ghost predicate NoFaults(env: Env) {
    forall k :: !env.fault(k)
  }

  // --------------------------------------------------- one turn that fails in Run

  /** The device that Run is called on, if a turn of the loop gets that far. */
  function BeforeRun(env: Env, d: Device, w: Workload): Option<Device>
    requires w.spec.Some?
  {
    var (d0, there) := DirEnsured(env, d, DirOf(w.name));
    if !there || !Modified(d0, w) then None
    else
      var (d1, stored) := FilesStored(env, d0, DirOf(w.name), ManifestOf(w), AuthOf(w));
      var (d2, removed) := Removal(env, d1, w.name);
      if stored && removed then Some(d2) else None
  }

  function RunOf(env: Env, d: Device, w: Workload): (Device, bool)
    requires w.spec.Some?
  {
    Launch(env, d, ManifestOf(w), DirOf(w.name), w.auth != "")
  }

  /** The files were stored and the old pod was removed, but Run failed. */
  predicate RunFailed(env: Env, d: Device, w: Workload) {
    w.spec.Some? && BeforeRun(env, d, w).Some? && !RunOf(env, BeforeRun(env, d, w).value, w).1
  }

  /** The firewall was set up and podman started the pod. */
  predicate PodStarted(env: Env, d: Device, w: Workload)
    requires w.spec.Some?
  {
    var (d1, ok) := Networked(env, d.(issued := d.issued + [RunOp(w.name)]), w.name, w.spec.value);
    ok && !env.fault(d1.clock)
  }

  lemma BeforeRunIs(env: Env, d: Device, w: Workload)
    requires w.spec.Some? && BeforeRun(env, d, w).Some?
    ensures
      var dir, d2 := DirOf(w.name), BeforeRun(env, d, w).value;
      && dir in d2.dirs && d2.dirs[dir] == Files(Some(ManifestOf(w)), AuthOf(w)) && w.name !in d2.table.ids
      && Deploy(env, d, w) == RunOf(env, d2, w)
  {
    hide Removal, Launch, DirOf, ManifestOf;
    var d0 := DirEnsured(env, d, DirOf(w.name)).0;
    var d1 := FilesStored(env, d0, DirOf(w.name), ManifestOf(w), AuthOf(w)).0;
    RemovalFrame(env, d1, w.name);
  }

  lemma RunOfKeepsFiles(env: Env, d: Device, w: Workload)
    requires w.spec.Some?
    ensures RunOf(env, d, w).0.dirs == d.dirs
  {
    hide Launch, DirOf, ManifestOf;
    LaunchFrame(env, d, ManifestOf(w), DirOf(w.name), w.auth != "");
  }

  /** Whether or not it reports success, Run leaves the workload running exactly
      when podman started the pod. */
  lemma RunsExactlyWhenStarted(env: Env, d: Device, w: Workload)
    requires w.spec.Some? && w.name !in d.table.ids
    requires DirOf(w.name) in d.dirs && d.dirs[DirOf(w.name)] == Files(Some(ManifestOf(w)), AuthOf(w))
    ensures Deployed(RunOf(env, d, w).0, w) <==> PodStarted(env, d, w)
    ensures w.name in RunOf(env, d, w).0.table.ids <==> PodStarted(env, d, w)
  {
    ManifestHasName(w);
    hide Networked, Launched, DirOf, ManifestOf;
    var d0 := d.(issued := d.issued + [RunOp(w.name)]);
    NetworkedFrame(env, d0, w.name, w.spec.value);
    LaunchedStarts(env, Networked(env, d0, w.name, w.spec.value).0, w.name, DirOf(w.name), w.auth != "");
  }

  /** Podman's part decides whether the pod is there and known. */
  lemma LaunchedStarts(env: Env, d: Device, name: Name, dir: string, withAuth: bool)
    requires dir in d.dirs && d.dirs[dir].manifest.Some?
    ensures
      var d' := Launched(env, d, name, dir, withAuth).0;
      if env.fault(d.clock) then d'.table == d.table && d'.pods == d.pods
      else
        && d'.table == Added(d.table, name, PodId(d.nextId))
        && d'.pods == d.pods[PodId(d.nextId) := Pod(d.dirs[dir].manifest.value,
                                                    if withAuth then d.dirs[dir].auth else None)]
  {
    hide ServiceCreated;
  }

  /** A Run that failed is not repeated: whatever happens later, the next turn for
      the same workload finds its files as configured, does nothing and reports no
      error. The workload is then running exactly when podman had started it. */
  lemma FailedRunIsNotRepeated(env: Env, again: Env, d: Device, w: Workload)
    requires RunFailed(env, d, w)
    ensures
      var d' := Deploy(env, d, w).0;
      && !Deploy(env, d, w).1
      && Deploy(again, d', w) == (d', true)
      && (Deployed(d', w) <==> PodStarted(env, BeforeRun(env, d, w).value, w))
      && Missing(d', w) == !PodStarted(env, BeforeRun(env, d, w).value, w)
  {
    hide Deploy, RunOf, PodStarted, Deployed, BeforeRun, ManifestOf, DirOf;
    var d2 := BeforeRun(env, d, w).value;
    BeforeRunIs(env, d, w);
    RunOfKeepsFiles(env, d2, w);
    RunsExactlyWhenStarted(env, d2, w);
    var d' := Deploy(env, d, w).0;
    UnmodifiedIsNeverRun(again, d', w);
  }

  // ------------------------------------------------------------- whole updates

  /** The files of the workload are as configured, but no pod is known for it. */
  predicate Missing(d: Device, w: Workload) {
    w.spec.Some? && DirOf(w.name) in d.dirs && !Modified(d, w) && w.name !in d.table.ids
  }

  lemma {:induction false} MissingAfterDeploy(env: Env, d: Device, ws: seq<Workload>, k: nat, w: Workload)
    requires k <= |ws| && Missing(d, w) && forall x <- ws :: x == w || DirOf(x.name) != DirOf(w.name)
    ensures Missing(DeployFrom(env, d, ws, k).0, w)
    decreases |ws| - k
  {
    hide Deploy, DirOf, ManifestOf;
    if k < |ws| {
      if ws[k] == w {
        UnmodifiedIsNeverRun(env, d, w);
      } else {
        assert ws[k] in ws;
        DirsTellNamesApart(ws[k].name, w.name);
        DeployTouchesOnly(env, d, ws[k], DirOf(w.name), w.name);
      }
      MissingAfterDeploy(env, Deploy(env, d, ws[k]).0, ws, k + 1, w);
    }
  }

  lemma DropKeepsAway(env: Env, d: Device, x: Name, name: Name)
    requires name !in d.table.ids
    ensures name !in Drop(env, d, x).0.table.ids
  {
    hide Removal, DirOf;
    var c := d.clock;
    var d1 := if env.fault(c) then d.(clock := c + 1) else d.(dirs := d.dirs - {DirOf(x)}, clock := c + 1);
    RemovalFrame(env, d1, x);
  }

  lemma {:induction false} DropLoopKeepsAway(env: Env, d: Device, names: seq<Name>, keep: set<Name>, k: nat,
                                             name: Name)
    requires k <= |names| && name !in d.table.ids
    ensures name !in DropFrom(env, d, names, keep, k).0.table.ids
    decreases |names| - k
  {
    hide Drop;
    if k < |names| {
      DropKeepsAway(env, d, names[k], name);
      DropLoopKeepsAway(env, if names[k] in keep then d else Drop(env, d, names[k]).0, names, keep, k + 1, name);
    }
  }

  /** A configured workload that is missing stays away through every Update with
      that configuration, whatever fails in it or does not. */
  lemma MissingStaysMissing(env: Env, d: Device, config: Config, w: Workload)
    requires Missing(d, w) && forall x <- config.workloads :: x == w || DirOf(x.name) != DirOf(w.name)
    ensures w.name !in Updated(env, d, config).0.table.ids && w.name !in Running(Updated(env, d, config).0)
  {
    hide SecretsUpdated, DeployFrom, DropFrom, DirOf, ManifestOf, ListedNames;
    UpdateTouchesOnlySecrets(env, d, config.secrets);
    var d1 := SecretsUpdated(env, d, config.secrets).0;
    MissingAfterDeploy(env, d1, config.workloads, 0, w);
    var d2 := DeployFrom(env, d1, config.workloads, 0).0;
    var d3 := d2.(clock := d2.clock + 1);
    DropLoopKeepsAway(env, d3, env.walk(ListedNames(d3)), ConfiguredNames(config.workloads), 0, w.name);
  }

  // ------------------------------------------------- nothing is reported about it

  ghost predicate DistinctSecrets(secrets: seq<Secret>) {
    forall i, j :: 0 <= i < j < |secrets| ==> secrets[i].name != secrets[j].name
  }

  /** The secrets still to come are on the device exactly if they are still left. */
  ghost predicate LeftToCome(d: Device, secrets: seq<Secret>, left: set<string>, k: nat) {
    && left <= d.secrets.Keys
    && forall i :: k <= i < |secrets| ==> (secrets[i].name in left <==> secrets[i].name in d.secrets)
  }

  lemma {:induction false} SecretsPlacedWithoutError(env: Env, d: Device, secrets: seq<Secret>, left: set<string>,
                                                     k: nat)
    requires k <= |secrets| && NoFaults(env) && DistinctSecrets(secrets) && LeftToCome(d, secrets, left, k)
    ensures
      var r := SecretsFrom(env, d, secrets, left, k);
      r.errors == 0 && r.left <= r.device.secrets.Keys
    decreases |secrets| - k
  {
    if k < |secrets| {
      var s := secrets[k];
      var (d1, ok) := if s.name in left then SecretReplaced(env, d, s) else SecretCreated(env, d, s);
      assert ok && d1.secrets == d.secrets[s.name := s.data];
      assert LeftToCome(d1, secrets, left - {s.name}, k + 1);
      SecretsPlacedWithoutError(env, d1, secrets, left - {s.name}, k + 1);
    }
  }

  lemma {:induction false} RemovedWithoutError(env: Env, d: Device, names: seq<string>, k: nat)
    requires k <= |names| && NoFaults(env)
    requires forall i, j :: 0 <= i < j < |names| ==> names[i] != names[j]
    requires forall i :: k <= i < |names| ==> names[i] in d.secrets
    ensures RemoveFrom(env, d, names, k).1 == 0
    decreases |names| - k
  {
    if k < |names| {
      RemovedWithoutError(env, SecretRemoved(env, d, names[k]).0, names, k + 1);
    }
  }

  /** Without faults and with distinct names, updating the secrets succeeds. */
  lemma SecretsSucceed(env: Env, d: Device, secrets: seq<Secret>)
    requires NoFaults(env) && ValidWalk(env) && DistinctSecrets(secrets)
    ensures SecretsUpdated(env, d, secrets).1 == 0
  {
    hide SecretsFrom, RemoveFrom;
    var d0 := d.(clock := d.clock + 1);
    SecretsPlacedWithoutError(env, d0, secrets, d0.secrets.Keys, 0);
    var p := SecretsFrom(env, d0, secrets, d0.secrets.Keys, 0);
    var names := env.walk(p.left);
    assert Enumerates(names, p.left);
    RemovedWithoutError(env, p.device, names, 0);
  }

  /** When all files are as configured and nothing else is listed, an Update in
      which nothing fails changes no pod and reports no error, whether or not the
      configured workloads run. */
  lemma UpdateReportsNothing(env: Env, d: Device, config: Config)
    requires NoFaults(env) && ValidWalk(env) && DistinctSecrets(config.secrets)
    requires !Halted(d) && AllUnmodified(d, config.workloads)
    requires ListedNames(d) <= ConfiguredNames(config.workloads)
    ensures
      var (d', errors) := Updated(env, d, config);
      errors == 0 && d'.table == d.table && d'.pods == d.pods && d'.issued == d.issued
  {
    hide SecretsUpdated, DeployFrom, DropFrom, DirOf, ManifestOf;
    UpdateTouchesOnlySecrets(env, d, config.secrets);
    SecretsSucceed(env, d, config.secrets);
    var d1 := SecretsUpdated(env, d, config.secrets).0;
    UnmodifiedLoop(env, d1, config.workloads, 0);
    var d2 := d1.(clock := d1.clock + 1);
    assert ListedNames(d2) == ListedNames(d);
    var names := env.walk(ListedNames(d2));
    assert Enumerates(names, ListedNames(d2));
    QuietDropLoop(env, d2, names, ConfiguredNames(config.workloads), 0);
  }
}
