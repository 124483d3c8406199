/** Services that can no longer be removed, over whole runs: those read from the file,
    and those whose units were deleted by a Remove that then failed. */
module StuckServices {
  import opened Options
  import opened WorkloadTable
  import opened WorkloadDevice
  import opened Reconcile
  import opened DeviceSecrets
  import opened WorkloadManagement
  import opened UpdateOutcome
  import opened ReloadedServices

  // ------------------------------------------------- what holds whatever is lost

  /** An entry that names a living pod carries the name in its manifest. */
  ghost predicate Labels(names: map<PodId, Name>, pods: map<PodId, Pod>) {
    forall i :: i in names && i in pods ==> pods[i].manifest.name == names[i]
  }

  /** Holds in every run, even if writes of the table were lost before a restart. */
  ghost predicate Weak(d: Device) {
    && TablesInv(d) && Below(d.pods.Keys, d.nextId)
    && Labels(d.table.names, d.pods) && Labels(d.saved, d.pods)
  }

  lemma SaneIsWeak(d: Device)
    requires Sane(d) && d.saved == d.table.names
    ensures Weak(d)
  {
    TablesAreInverse(d);
    forall i | i in d.table.names ensures d.pods[i].manifest.name == d.table.names[i] {
      assert d.table.ids[d.table.names[i]] == i && d.table.names[i] in Running(d);
    }
  }

  /** All pods whose manifest has this name. */
  function NamedPods(d: Device, n: Name): map<PodId, Pod> {
    map i | i in d.pods && d.pods[i].manifest.name == n :: d.pods[i]
  }

  /** What every call leaves of a service that cannot be removed, and of its pods. */
  ghost predicate LeavesStuck(d: Device, d': Device, n: Name) {
    && Weak(d') && Stuck(d', n) && NamedPods(d', n) == NamedPods(d, n)
    && (n in d.services.file ==> n in d'.services.file)
    && (n in Reloaded(d) ==> n in Reloaded(d'))
  }

  lemma LeavesOn(a: Device, b: Device, c: Device, n: Name)
    requires LeavesStuck(a, b, n) && LeavesStuck(b, c, n)
    ensures LeavesStuck(a, c, n)
  {
  }

  /** Only what this is about has stayed. */
  lemma LeavesSame(d: Device, d': Device, n: Name)
    requires Weak(d) && Stuck(d, n)
    requires d'.table == d.table && d'.saved == d.saved && d'.pods == d.pods && d'.nextId == d.nextId
    requires d'.services == d.services || d'.services == d.services.(halted := true)
    ensures LeavesStuck(d, d', n)
  {
  }

  // ------------------------------------------------------------------- one Remove

  /** A Remove of a stuck service fails before it reaches podman. */
  lemma StuckRemoval(env: Env, d: Device, n: Name)
    requires Stuck(d, n)
    ensures
      var (d', ok) := Removal(env, d, n);
      && !ok && d'.table == d.table && d'.saved == d.saved && d'.pods == d.pods && d'.nextId == d.nextId
      && (d'.services == d.services || d'.services == d.services.(halted := true))
  {
  }

  lemma OtherService(env: Env, c: nat, s: Services, x: Name, n: Name)
    requires x != n
    ensures
      var s' := ServiceRemoved(env, c, s, x).0;
      && (n in s'.listed <==> n in s.listed) && (n in s'.own <==> n in s.own) && (n in s'.units <==> n in s.units)
      && (n in s.file && n in s.listed ==> n in s'.file)
    ensures
      var s' := ServiceCreated(env, c, s, x).0;
      && (n in s'.listed <==> n in s.listed) && (n in s'.own <==> n in s.own) && (n in s'.units <==> n in s.units)
      && (n in s.file && n in s.listed ==> n in s'.file)
  {
  }

  /** Removing a pod keeps the labels, and the pods of other names. */
  lemma PodsLeftAre(t: Table, pods: map<PodId, Pod>, x: Name, n: Name)
    requires Inverse(t) && Labels(t.names, pods) && x != n
    ensures
      var left := PodsLeft(t, pods, x);
      && left.Keys <= pods.Keys && (forall i :: i in left ==> left[i] == pods[i])
      && (forall i :: i in pods && pods[i].manifest.name == n ==> i in left)
  {
  }

  lemma FewerLabels(names: map<PodId, Name>, pods: map<PodId, Pod>, names': map<PodId, Name>, pods': map<PodId, Pod>)
    requires Labels(names, pods) && names'.Keys <= names.Keys && pods'.Keys <= pods.Keys
    requires (forall i :: i in names' ==> names'[i] == names[i]) && (forall i :: i in pods' ==> pods'[i] == pods[i])
    ensures Labels(names', pods')
  {
  }

  lemma OtherRemoval(env: Env, d: Device, x: Name, n: Name)
    requires Weak(d) && Stuck(d, n) && x != n
    ensures LeavesStuck(d, Removal(env, d, x).0, n)
  {
    hide Removal, TablesOk, Labels, PodsLeft, ServiceRemoved;
    var d' := Removal(env, d, x).0;
    RemovalFrame(env, d, x);
    RemovalKeepsTables(env, d, x);
    OtherService(env, d.clock, d.services, x, n);
    TablesAreInverse(d);
    PodsLeftAre(d.table, d.pods, x, n);
    var left, rest := PodsLeft(d.table, d.pods, x), Removed(d.table, x).names;
    FewerLabels(d.table.names, d.pods, rest, left);
    FewerLabels(d.saved, d.pods, d.saved, left);
  }

  lemma RemovalLeaves(env: Env, d: Device, x: Name, n: Name)
    requires Weak(d) && Stuck(d, n)
    ensures LeavesStuck(d, Removal(env, d, x).0, n)
    ensures Removal(env, d, x).1 ==> x != n
  {
    hide Removal, Weak;
    if x == n {
      StuckRemoval(env, d, n);
      LeavesSame(d, Removal(env, d, n).0, n);
    } else {
      OtherRemoval(env, d, x, n);
    }
  }

  // ---------------------------------------------------------------------- one Run

  lemma MoreLabels(names: map<PodId, Name>, pods: map<PodId, Pod>, id: PodId, name: Name, pod: Pod)
    requires Labels(names, pods) && pod.manifest.name == name
    ensures Labels(names[id := name], pods[id := pod])
    ensures id !in names ==> Labels(names, pods[id := pod])
  {
  }

  lemma PodsWithNew(d: Device, d': Device, id: PodId, pod: Pod, n: Name)
    requires d'.pods == d.pods[id := pod] && id !in d.pods && pod.manifest.name != n
    ensures NamedPods(d', n) == NamedPods(d, n)
  {
  }

  lemma BelowNext(pods: map<PodId, Pod>, next: nat, pod: Pod)
    requires Below(pods.Keys, next)
    ensures Below(pods[PodId(next) := pod].Keys, next + 1)
  {
  }

  lemma RunLeaves(env: Env, d: Device, pod: Manifest, dir: string, withAuth: bool, n: Name)
    requires Weak(d) && Stuck(d, n) && pod.name != n && pod.name !in d.table.ids
    requires dir in d.dirs && d.dirs[dir].manifest == Some(pod)
    ensures LeavesStuck(d, Launch(env, d, pod, dir, withAuth).0, n)
  {
    hide Launch, TablesOk, Labels, NamedPods, Below;
    var d' := Launch(env, d, pod, dir, withAuth).0;
    LaunchFrame(env, d, pod, dir, withAuth);
    LaunchKeepsTables(env, d, pod, dir, withAuth);
    LaunchServices(env, d, pod, dir, withAuth, n);
    FreshIds(d);
    var id, new' := PodId(d.nextId), PodOf(d.dirs[dir], withAuth);
    MoreLabels(d.table.names, d.pods, id, pod.name, new');
    MoreLabels(d.saved, d.pods, id, pod.name, new');
    BelowNext(d.pods, d.nextId, new');
    if d'.pods == d.pods {
      SameNamed(d, d', n);
    } else {
      PodsWithNew(d, d', id, new', n);
    }
  }

  lemma SameNamed(d: Device, d': Device, n: Name)
    requires d'.pods == d.pods
    ensures NamedPods(d', n) == NamedPods(d, n)
  {
  }

  lemma FreshIds(d: Device)
    requires Weak(d)
    ensures PodId(d.nextId) !in d.table.names && PodId(d.nextId) !in d.saved && PodId(d.nextId) !in d.pods
  {
  }

  lemma LaunchServices(env: Env, d: Device, pod: Manifest, dir: string, withAuth: bool, n: Name)
    requires pod.name != n
    ensures
      var s, s' := d.services, Launch(env, d, pod, dir, withAuth).0.services;
      && (n in s'.listed <==> n in s.listed) && (n in s'.own <==> n in s.own) && (n in s'.units <==> n in s.units)
      && (n in s.file && n in s.listed ==> n in s'.file)
  {
    hide Networked, Launched, ServiceCreated;
    var d0 := d.(issued := d.issued + [RunOp(pod.name)]);
    NetworkedFrame(env, d0, pod.name, pod.spec);
    var d1 := Networked(env, d0, pod.name, pod.spec).0;
    LaunchedFrame(env, d1, pod.name, dir, withAuth);
    OtherService(env, d1.clock + 2, d1.services, pod.name, n);
  }

  // ------------------------------------------------------------------- one Update

  lemma TurnLeaves(env: Env, d: Device, w: Workload, n: Name)
    requires Weak(d) && Stuck(d, n)
    ensures LeavesStuck(d, Deploy(env, d, w).0, n)
  {
    LeavesSame(d, d, n);
    hide Replaced, Modified, DirOf, Weak, LeavesStuck;
    if w.spec.Some? {
      var (d0, there) := DirEnsured(env, d, DirOf(w.name));
      LeavesSame(d, d0, n);
      if there && Modified(d0, w) {
        StillStuck(d, d0, n);
        ReplacedLeaves(env, d0, w, n);
        LeavesOn(d, d0, Replaced(env, d0, w).0, n);
      }
    }
  }

  lemma StillStuck(d: Device, d': Device, n: Name)
    requires LeavesStuck(d, d', n)
    ensures Weak(d') && Stuck(d', n)
  {
  }

  lemma ReplacedLeaves(env: Env, d: Device, w: Workload, n: Name)
    requires Weak(d) && Stuck(d, n) && w.spec.Some? && DirOf(w.name) in d.dirs
    ensures LeavesStuck(d, Replaced(env, d, w).0, n)
  {
    ManifestHasName(w);
    hide Removal, Launch, DirOf, ManifestOf, Weak, LeavesStuck, Stuck;
    var dir := DirOf(w.name);
    StoredFrame(env, d, dir, ManifestOf(w), AuthOf(w));
    hide FilesStored;
    var (d1, stored) := FilesStored(env, d, dir, ManifestOf(w), AuthOf(w));
    LeavesSame(d, d1, n);
    StillStuck(d, d1, n);
    if stored {
      RemovalFrame(env, d1, w.name);
      RemovalLeaves(env, d1, w.name, n);
      var (d2, removed) := Removal(env, d1, w.name);
      LeavesOn(d, d1, d2, n);
      if removed {
        WeakTables(d1);
        RemovalKeepsTables(env, d1, w.name);
        OwnRunLeaves(env, d, d2, w, n);
      }
    }
  }

  lemma StoredFrame(env: Env, d: Device, dir: string, manifest: Manifest, auth: Option<string>)
    requires dir in d.dirs
    ensures
      var (d', ok) := FilesStored(env, d, dir, manifest, auth);
      && d'.table == d.table && d'.saved == d.saved && d'.pods == d.pods && d'.nextId == d.nextId
      && d'.services == d.services && (ok ==> dir in d'.dirs && d'.dirs[dir].manifest == Some(manifest))
  {
  }

  lemma OwnRunLeaves(env: Env, d: Device, d2: Device, w: Workload, n: Name)
    requires LeavesStuck(d, d2, n) && w.spec.Some? && w.name != n && w.name !in d2.table.ids
    requires DirOf(w.name) in d2.dirs && d2.dirs[DirOf(w.name)].manifest == Some(ManifestOf(w))
    ensures LeavesStuck(d, Launch(env, d2, ManifestOf(w), DirOf(w.name), w.auth != "").0, n)
  {
    ManifestHasName(w);
    hide Launch, DirOf, ManifestOf, Weak, LeavesStuck, Stuck;
    StillStuck(d, d2, n);
    RunLeaves(env, d2, ManifestOf(w), DirOf(w.name), w.auth != "", n);
    LeavesOn(d, d2, Launch(env, d2, ManifestOf(w), DirOf(w.name), w.auth != "").0, n);
  }

  lemma WeakTables(d: Device)
    requires Weak(d)
    ensures TablesInv(d)
  {
  }

  lemma DropLeaves(env: Env, d: Device, x: Name, n: Name)
    requires Weak(d) && Stuck(d, n)
    ensures LeavesStuck(d, Drop(env, d, x).0, n)
  {
    hide Removal, DirOf, Weak, LeavesStuck, Stuck;
    var c := d.clock;
    var d1 := if env.fault(c) then d.(clock := c + 1) else d.(dirs := d.dirs - {DirOf(x)}, clock := c + 1);
    LeavesSame(d, d1, n);
    StillStuck(d, d1, n);
    RemovalLeaves(env, d1, x, n);
    LeavesOn(d, d1, Removal(env, d1, x).0, n);
  }

  lemma {:induction false} LoopLeaves(env: Env, d: Device, ws: seq<Workload>, k: nat, n: Name)
    requires k <= |ws| && Weak(d) && Stuck(d, n)
    ensures LeavesStuck(d, DeployFrom(env, d, ws, k).0, n)
    decreases |ws| - k
  {
    LeavesSame(d, d, n);
    hide Deploy, Weak, LeavesStuck, Stuck;
    if k < |ws| {
      TurnLeaves(env, d, ws[k], n);
      var d1 := Deploy(env, d, ws[k]).0;
      StillStuck(d, d1, n);
      LoopLeaves(env, d1, ws, k + 1, n);
      LeavesOn(d, d1, DeployFrom(env, d1, ws, k + 1).0, n);
    }
  }

  lemma {:induction false} DropsLeave(env: Env, d: Device, names: seq<Name>, keep: set<Name>, k: nat, n: Name)
    requires k <= |names| && Weak(d) && Stuck(d, n)
    ensures LeavesStuck(d, DropFrom(env, d, names, keep, k).0, n)
    decreases |names| - k
  {
    LeavesSame(d, d, n);
    hide Drop, Weak, LeavesStuck, Stuck;
    if k < |names| {
      if names[k] in keep {
        DropsLeave(env, d, names, keep, k + 1, n);
      } else {
        var d1 := Drop(env, d, names[k]).0;
        DropLeaves(env, d, names[k], n);
        StillStuck(d, d1, n);
        DropsLeave(env, d1, names, keep, k + 1, n);
        LeavesOn(d, d1, DropFrom(env, d1, names, keep, k + 1).0, n);
      }
    }
  }

  lemma ReconciledLeaves(env: Env, d: Device, ws: seq<Workload>, n: Name)
    requires Weak(d) && Stuck(d, n)
    ensures LeavesStuck(d, Reconciled(env, d, ws).0, n)
  {
    hide DeployFrom, DropFrom, Weak, LeavesStuck, Stuck, ListedNames, ConfiguredNames;
    LoopLeaves(env, d, ws, 0, n);
    var d1 := DeployFrom(env, d, ws, 0).0;
    StillStuck(d, d1, n);
    var d2 := d1.(clock := d1.clock + 1);
    LeavesSame(d1, d2, n);
    LeavesOn(d, d1, d2, n);
    StillStuck(d, d2, n);
    var names, keep := env.walk(ListedNames(d2)), ConfiguredNames(ws);
    DropsLeave(env, d2, names, keep, 0, n);
    LeavesOn(d, d2, DropFrom(env, d2, names, keep, 0).0, n);
  }

  /** No Update removes or replaces the pods of a workload whose service is stuck,
      whatever is configured and whatever fails, and the service stays stuck. */
  lemma UpdateLeavesStuckPod(env: Env, d: Device, config: Config, n: Name)
    requires Weak(d) && Stuck(d, n)
    ensures LeavesStuck(d, Updated(env, d, config).0, n)
  {
    hide SecretsUpdated, Reconciled, Weak, LeavesStuck, Stuck;
    UpdateTouchesOnlySecrets(env, d, config.secrets);
    var d0 := SecretsUpdated(env, d, config.secrets).0;
    LeavesSame(d, d0, n);
    StillStuck(d, d0, n);
    ReconciledLeaves(env, d0, config.workloads, n);
    LeavesOn(d, d0, Reconciled(env, d0, config.workloads).0, n);
  }

  // --------------------------------------------------------------------- whole runs

  lemma RestartLeaves(d: Device, list: seq<Entry>, n: Name)
    requires Weak(d) && IsListing(list, d.saved) && n in d.services.file
    ensures LeavesStuck(d, After(d, Restart(list)), n) && n in Reloaded(After(d, Restart(list)))
  {
    hide TablesOk;
    RestartKeepsTables(d, list);
  }

  /** Over every run of updates and restarts, with any failures, lost writes of the
      table included: once a service is stuck and in the services file, the pods of its
      workload are never removed, replaced or joined by another, whatever is
      configured. After a restart every service in the file is stuck. */
  lemma {:induction false} StuckIsNeverReplaced(d: Device, events: seq<Event>, n: Name)
    requires Weak(d) && Stuck(d, n) && n in d.services.file && IsRun(d, events)
    ensures
      var d' := AfterAll(d, events);
      && Weak(d') && Stuck(d', n) && n in d'.services.file && NamedPods(d', n) == NamedPods(d, n)
      && (n in Reloaded(d) ==> n in Reloaded(d'))
    decreases |events|
  {
    hide Updated, Weak;
    if events != [] {
      var d1 := After(d, events[0]);
      match events[0] {
        case Update(env, config) => UpdateLeavesStuckPod(env, d, config, n);
        case Restart(list) => RestartLeaves(d, list, n);
      }
      StuckIsNeverReplaced(d1, events[1..], n);
    }
  }

  /** In one process this needs no file: over every sequence of updates with any
      failures a stuck service stays stuck, every Remove of it fails, and the pods of
      its workload stay. */
  lemma {:induction false} StuckInProcess(d: Device, events: seq<Event>, n: Name, again: Env)
    requires Weak(d) && Stuck(d, n) && IsRun(d, events) && forall e <- events :: e.Update?
    ensures
      var d' := AfterAll(d, events);
      Stuck(d', n) && NamedPods(d', n) == NamedPods(d, n) && !Removal(again, d', n).1
    decreases |events|
  {
    hide Updated, Weak, Removal;
    if events == [] {
      StuckRemoval(again, d, n);
    } else {
      var d1 := After(d, events[0]);
      UpdateLeavesStuckPod(events[0].env, d, events[0].config, n);
      StuckInProcess(d1, events[1..], n, again);
    }
  }

  /** A Remove in which a later unit could not be deleted, or systemd could not be told
      after the units were, fails; and in this process every later one fails as well,
      after any updates. */
  lemma FailedReloadBlocksRemoval(env: Env, again: Env, d: Device, n: Name, events: seq<Event>)
    requires Weak(d) && n in d.services.own && n in d.services.listed && n in d.services.units
    requires !env.fault(d.clock) && env.fault(d.clock + 1)
    requires
      var d1 := Removal(env, d, n).0;
      IsRun(d1, events) && forall e <- events :: e.Update?
    ensures
      var (d1, ok) := Removal(env, d, n);
      var d' := AfterAll(d1, events);
      !ok && Stuck(d', n) && NamedPods(d', n) == NamedPods(d, n) && !Removal(again, d', n).1
  {
    var d1 := Removal(env, d, n).0;
    assert Weak(d1) && Stuck(d1, n) && d1.pods == d.pods;
    hide Removal, Weak;
    StuckInProcess(d1, events, n, again);
  }
}
