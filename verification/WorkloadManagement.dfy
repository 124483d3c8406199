/** Whole runs of the workload manager: updates with any failures, restarts, and
    the methods that carry the updates out. */
module WorkloadManagement {
  import opened Options
  import opened WorkloadTable
  import opened WorkloadDevice
  import opened Reconcile
  import opened DeviceSecrets

  /** Update: the device afterwards and the number of errors reported. */
  function Updated(env: Env, d: Device, config: Config): (r: (Device, int))
    ensures 0 <= r.1
  {
    var (d1, errors) := SecretsUpdated(env, d, config.secrets);
    var (d2, more) := Reconciled(env, d1, config.workloads);
    (d2, errors + more)
  }

  /** The device matches a configuration. */
  ghost predicate Matches(d: Device, config: Config) {
    && Running(d).Keys == ConfiguredNames(config.workloads)
    && (forall w <- config.workloads :: Deployed(d, w))
    && (forall s <- config.secrets :: s.name in d.secrets && d.secrets[s.name] == s.data)
    && (forall n :: n in d.secrets ==> exists s :: s in config.secrets && s.name == n)
  }

  lemma SecretsLeaveWorkloads(env: Env, d: Device, secrets: seq<Secret>)
    ensures
      var d' := SecretsUpdated(env, d, secrets).0;
      && (TablesInv(d) ==> TablesInv(d')) && (Core(d) ==> Core(d')) && (Consistent(d) ==> Consistent(d'))
      && Running(d') == Running(d) && d'.issued == d.issued
  {
    hide SecretsUpdated, FilesMatch;
    UpdateTouchesOnlySecrets(env, d, secrets);
    SameRunning(d, SecretsUpdated(env, d, secrets).0);
  }

  /** From a consistent device, an Update that reports no error makes the device
      match the configuration and leaves it consistent; a second Update with the
      same configuration, whatever fails during it, calls neither Remove nor Run. */
  lemma UpdateConverges(env: Env, again: Env, d: Device, config: Config)
    requires Consistent(d) && ValidWalk(env) && ValidWalk(again) && DistinctNames(config.workloads)
    requires DistinctDirs(Running(d).Keys + ConfiguredNames(config.workloads))
    requires Updated(env, d, config).1 == 0
    ensures
      var d' := Updated(env, d, config).0;
      && Consistent(d') && Matches(d', config)
      && Updated(again, d', config).0.issued == d'.issued
  {
    hide SecretsUpdated, Reconciled, Consistent, Running, Deployed, DistinctDirs;
    SecretsLeaveWorkloads(env, d, config.secrets);
    SecretsConverge(env, d, config.secrets);
    var d1 := SecretsUpdated(env, d, config.secrets).0;
    ReconcileConverges(env, d1, config.workloads);
    var d' := Updated(env, d, config).0;
    SecretsLeaveWorkloads(again, d', config.secrets);
    var d2 := SecretsUpdated(again, d', config.secrets).0;
    DeployedFollowsRunning(d', d2, config.workloads);
    SecondUpdateIsQuiet(again, d2, config.workloads);
  }

  lemma DeployedFollowsRunning(d: Device, d': Device, ws: seq<Workload>)
    requires Running(d') == Running(d) && forall w <- ws :: Deployed(d, w)
    ensures forall w <- ws :: Deployed(d', w)
  {
  }

  // --------------------------------------------- the tables, under any failures

  lemma ReplacedKeepsTables(env: Env, d: Device, w: Workload)
    requires TablesInv(d) && w.spec.Some? && DirOf(w.name) in d.dirs
    ensures TablesInv(Replaced(env, d, w).0)
  {
    hide Removal, Launch, TablesOk, DirOf, ManifestOf;
    var (d1, stored) := FilesStored(env, d, DirOf(w.name), ManifestOf(w), AuthOf(w));
    RemovalKeepsTables(env, d1, w.name);
    var (d2, removed) := Removal(env, d1, w.name);
    if removed {
      ManifestHasName(w);
      LaunchKeepsTables(env, d2, ManifestOf(w), DirOf(w.name), w.auth != "");
    }
  }

  lemma DeployKeepsTables(env: Env, d: Device, w: Workload)
    requires TablesInv(d)
    ensures TablesInv(Deploy(env, d, w).0)
  {
    hide Replaced, TablesOk, DirOf, Modified;
    if w.spec.Some? {
      var (d1, there) := DirEnsured(env, d, DirOf(w.name));
      if there {
        ReplacedKeepsTables(env, d1, w);
      }
    }
  }

  lemma {:induction false} DeployLoopKeepsTables(env: Env, d: Device, ws: seq<Workload>, k: nat)
    requires k <= |ws| && TablesInv(d)
    ensures TablesInv(DeployFrom(env, d, ws, k).0)
    decreases |ws| - k
  {
    if k < |ws| {
      hide Deploy, TablesInv;
      DeployKeepsTables(env, d, ws[k]);
      DeployLoopKeepsTables(env, Deploy(env, d, ws[k]).0, ws, k + 1);
    }
  }

  lemma DropKeepsTables(env: Env, d: Device, name: Name)
    requires TablesInv(d)
    ensures TablesInv(Drop(env, d, name).0)
  {
    hide Removal, TablesOk, DirOf;
    var c := d.clock;
    var d1 := if env.fault(c) then d.(clock := c + 1) else d.(dirs := d.dirs - {DirOf(name)}, clock := c + 1);
    RemovalKeepsTables(env, d1, name);
  }

  lemma {:induction false} DropLoopKeepsTables(env: Env, d: Device, names: seq<Name>, keep: set<Name>, k: nat)
    requires k <= |names| && TablesInv(d)
    ensures TablesInv(DropFrom(env, d, names, keep, k).0)
    decreases |names| - k
  {
    if k < |names| {
      hide Drop, TablesInv;
      DropKeepsTables(env, d, names[k]);
      DropLoopKeepsTables(env, if names[k] in keep then d else Drop(env, d, names[k]).0, names, keep, k + 1);
    }
  }

  lemma SameTables(d: Device, d': Device)
    requires TablesInv(d) && d'.table == d.table && d'.saved == d.saved && d'.nextId == d.nextId
    ensures TablesInv(d')
  {
  }

  lemma ReconciledKeepsTables(env: Env, d: Device, ws: seq<Workload>)
    requires TablesInv(d)
    ensures TablesInv(Reconciled(env, d, ws).0)
  {
    hide DeployFrom, DropFrom, TablesInv, ListedNames, ConfiguredNames;
    DeployLoopKeepsTables(env, d, ws, 0);
    var d1 := DeployFrom(env, d, ws, 0).0;
    var d2 := d1.(clock := d1.clock + 1);
    SameTables(d1, d2);
    DropLoopKeepsTables(env, d2, env.walk(ListedNames(d2)), ConfiguredNames(ws), 0);
  }

  lemma UpdateKeepsTables(env: Env, d: Device, config: Config)
    requires TablesInv(d)
    ensures TablesInv(Updated(env, d, config).0)
  {
    hide SecretsUpdated, Reconciled, TablesInv;
    SecretsLeaveWorkloads(env, d, config.secrets);
    ReconciledKeepsTables(env, SecretsUpdated(env, d, config.secrets).0, config.workloads);
  }

  datatype Event = Update(env: Env, config: Config) | Restart(list: seq<Entry>)

  /** A restart reads the table back from the file, whose list may be in any
      order, and the services from theirs, without their connections; pods go on
      running. A process that has died makes no Update. */
  ghost predicate Possible(d: Device, e: Event) {
    match e
    case Update(_, _) => !Halted(d)
    case Restart(list) => IsListing(list, d.saved)
  }

  ghost function After(d: Device, e: Event): Device {
    match e
    case Update(env, config) => Updated(env, d, config).0
    case Restart(list) =>
      d.(table := Loaded(list), services := d.services.(listed := d.services.file, own := {}, halted := false))
  }

  ghost predicate IsRun(d: Device, events: seq<Event>)
    decreases |events|
  {
    events == [] || (Possible(d, events[0]) && IsRun(After(d, events[0]), events[1..]))
  }

  ghost function AfterAll(d: Device, events: seq<Event>): Device
    requires IsRun(d, events)
    decreases |events|
  {
    if events == [] then d else AfterAll(After(d, events[0]), events[1..])
  }

  /** A one-to-one map with its inverse. */
  ghost function TableOf(names: map<PodId, Name>): (t: Table)
    requires OneToOne(names)
    ensures t.names == names && Inverse(t)
  {
    var ids := map n | n in names.Values :: var i :| i in names && names[i] == n; i;
    assert forall i :: i in names ==> names[i] in names.Values;
    Table(names, ids)
  }

  lemma RestartKeepsTables(d: Device, list: seq<Entry>)
    requires TablesInv(d) && IsListing(list, d.saved)
    ensures TablesInv(After(d, Restart(list))) && Loaded(list).names == d.saved
  {
    ReloadGivesSameTable(list, TableOf(d.saved));
  }

  /** Over all runs of updates and restarts, with any failures in podman, the
      firewall, the services and the files: names and pod ids stay one to one, in
      memory and in the file; a restart restores the saved table whatever order
      its list has; and List shows every pod of the table under its workload's
      name. */
  lemma {:induction false} TablesStayInverse(d: Device, events: seq<Event>)
    requires TablesInv(d) && IsRun(d, events)
    ensures
      var d' := AfterAll(d, events);
      && TablesInv(d') && Inverse(d'.table)
      && forall id :: id in d'.pods && id in d'.table.names ==>
           ListedName(d', id) in d'.table.ids && d'.table.ids[ListedName(d', id)] == id
    decreases |events|
  {
    if events != [] {
      hide Updated, TablesInv;
      match events[0] {
        case Update(env, config) => UpdateKeepsTables(env, d, config);
        case Restart(list) => RestartKeepsTables(d, list);
      }
      TablesStayInverse(After(d, events[0]), events[1..]);
    }
  }

  // ------------------------------------------------------------ the operations

  class WorkloadManager {
    var dev: Device
    var deregistered: bool

    constructor (dev: Device)
      ensures this.dev == dev && !deregistered
    {
      this.dev := dev;
      deregistered := false;
    }

    /** Remove of the wrapper. */
    method Remove(env: Env, name: Name) returns (ok: bool)
      modifies this`dev
      ensures (dev, ok) == Removal(env, old(dev), name)
    {
      hide ServiceRemoved;
      var c := dev.clock;
      dev := dev.(clock := c + 6, issued := dev.issued + [RemoveOp(name)]);
      var gone := RemoveService(env, c, name);
      if !gone {
        return false;
      }
      if env.fault(c + 3) {
        return false;
      }
      dev := dev.(pods := PodsWithout(dev, name));
      if !env.fault(c + 4) {
        dev := dev.(chains := dev.chains - {name});
      }
      dev := dev.(table := Removed(dev.table, name));
      if env.fault(c + 5) {
        return false;
      }
      dev := dev.(saved := dev.table.names);
      return true;
    }

    /** removeService of the wrapper. */
    method RemoveService(env: Env, c: nat, name: Name) returns (ok: bool)
      modifies this`dev
      ensures (dev.services, ok) == ServiceRemoved(env, c, old(dev).services, name)
      ensures dev == old(dev).(services := dev.services)
    {
      var s := dev.services;
      if name !in s.listed {
        return true;
      }
      if name !in s.own {
        dev := dev.(services := s.(halted := true));
        return false;
      }
      if env.fault(c) || name !in s.units {
        return false;
      }
      s := s.(units := s.units - {name});
      dev := dev.(services := s);
      if env.fault(c + 1) {
        return false;
      }
      s := s.(listed := s.listed - {name}, own := s.own - {name});
      if !env.fault(c + 2) {
        s := s.(file := s.listed);
      }
      dev := dev.(services := s);
      return true;
    }

    /** What Run does about the service of a pod. */
    method CreateService(env: Env, c: nat, name: Name) returns (ok: bool)
      modifies this`dev
      ensures (dev.services, ok) == ServiceCreated(env, c, old(dev).services, name)
      ensures dev == old(dev).(services := dev.services)
    {
      var s := dev.services;
      if env.fault(c) || env.fault(c + 1) {
        return false;
      }
      s := s.(units := s.units + {name});
      dev := dev.(services := s);
      if env.fault(c + 2) || env.fault(c + 3) || env.fault(c + 4) {
        return false;
      }
      s := s.(listed := s.listed + {name}, own := s.own + {name});
      ok := !env.fault(c + 5);
      if ok {
        s := s.(file := s.listed);
      }
      dev := dev.(services := s);
    }

    /** applyNetworkConfiguration of the wrapper. */
    method ApplyNetwork(env: Env, name: Name, spec: Spec) returns (ok: bool)
      modifies this`dev
      ensures (dev, ok) == Networked(env, old(dev), name, spec)
    {
      var hostPorts := GetHostPorts(spec);
      if hostPorts.None? {
        return false;
      }
      var ports := hostPorts.value;
      if |ports| == 0 {
        return true;
      }
      var c := dev.clock;
      if env.fault(c) {
        dev := dev.(clock := c + 1);
        return false;
      }
      var chain := Chain(dev, name);
      ghost var end := RulesAdded(env, c + 1, chain, ports);
      ok := true;
      var i := 0;
      while i < |ports| && ok
        invariant 0 <= i <= |ports|
        invariant ok ==> RulesAdded(env, c + 1 + i, chain, ports[i..]) == end
        invariant !ok ==> end == (chain, false)
        decreases |ports| - i, ok
      {
        if env.fault(c + 1 + i) {
          ok := false;
        } else {
          assert ports[i..][0] == ports[i] && ports[i..][1..] == ports[i + 1..];
          chain := chain + [ports[i]];
          i := i + 1;
        }
      }
      dev := dev.(chains := dev.chains[name := chain], clock := c + 1 + |ports|);
    }

    /** Run of the wrapper. */
    method Run(env: Env, pod: Manifest, dir: string, withAuth: bool) returns (ok: bool)
      modifies this`dev
      ensures (dev, ok) == Launch(env, old(dev), pod, dir, withAuth)
    {
      hide Networked;
      dev := dev.(issued := dev.issued + [RunOp(pod.name)]);
      ok := ApplyNetwork(env, pod.name, pod.spec);
      if !ok {
        return false;
      }
      ok := StartPod(env, pod.name, dir, withAuth);
    }

    method StartPod(env: Env, name: Name, dir: string, withAuth: bool) returns (ok: bool)
      modifies this`dev
      ensures (dev, ok) == Launched(env, old(dev), name, dir, withAuth)
    {
      var c := dev.clock;
      hide ServiceCreated;
      dev := dev.(clock := c + 8);
      if env.fault(c) || dir !in dev.dirs || dev.dirs[dir].manifest.None? {
        return false;
      }
      var id := PodId(dev.nextId);
      var pod := Pod(dev.dirs[dir].manifest.value, if withAuth then dev.dirs[dir].auth else None);
      dev := dev.(pods := dev.pods[id := pod], nextId := dev.nextId + 1);
      dev := dev.(table := Added(dev.table, name, id));
      if env.fault(c + 1) {
        return false;
      }
      dev := dev.(saved := dev.table.names);
      ok := CreateService(env, c + 2, name);
    }

    /** One turn of the loop over the configured workloads. */
    method DeployOne(env: Env, w: Workload) returns (ok: bool)
      modifies this`dev
      ensures (dev, ok) == Deploy(env, old(dev), w)
    {
      hide Removal, Launch, DirOf, PodLabels;
      if w.spec.None? {
        return false;
      }
      var manifest, dir := ManifestOf(w), DirOf(w.name);
      if dir !in dev.dirs {
        var c := dev.clock;
        dev := dev.(clock := c + 1);
        if env.fault(c) {
          return false;
        }
        dev := dev.(dirs := dev.dirs[dir := Files(None, None)]);
      }
      var files := dev.dirs[dir];
      if files.manifest == Some(manifest) && !AuthModified(files.auth, w.auth) {
        return true;
      }
      var c := dev.clock;
      dev := dev.(clock := c + 2);
      if env.fault(c) {
        return false;
      }
      if env.fault(c + 1) {
        dev := dev.(dirs := dev.dirs[dir := Files(Some(manifest), files.auth)]);
        return false;
      }
      dev := dev.(dirs := dev.dirs[dir := Files(Some(manifest), AuthOf(w))]);
      ok := Remove(env, w.name);
      if ok {
        ok := Run(env, manifest, dir, w.auth != "");
      }
    }

    /** updateSecrets. */
    method UpdateSecrets(env: Env, secrets: seq<Secret>) returns (errors: int)
      modifies this`dev
      ensures (dev, errors) == SecretsUpdated(env, old(dev), secrets)
    {
      hide SecretReplaced, SecretCreated, SecretRemoved;
      var c := dev.clock;
      dev := dev.(clock := c + 1);
      if env.fault(c) {
        return 1;
      }
      var left := dev.secrets.Keys;
      ghost var p := SecretsFrom(env, dev, secrets, left, 0);
      errors := 0;
      var k := 0;
      while k < |secrets|
        invariant 0 <= k <= |secrets|
        invariant
          var q := SecretsFrom(env, dev, secrets, left, k);
          q.device == p.device && q.left == p.left && errors + q.errors == p.errors
      {
        var s := secrets[k];
        var r := if s.name in left then SecretReplaced(env, dev, s) else SecretCreated(env, dev, s);
        dev := r.0;
        errors := errors + if r.1 then 0 else 1;
        left := left - {s.name};
        k := k + 1;
      }
      var names := env.walk(left);
      ghost var end := RemoveFrom(env, dev, names, 0);
      k := 0;
      while k < |names|
        invariant 0 <= k <= |names|
        invariant RemoveFrom(env, dev, names, k).0 == end.0
        invariant errors + RemoveFrom(env, dev, names, k).1 == p.errors + end.1
      {
        var r := SecretRemoved(env, dev, names[k]);
        dev := r.0;
        errors := errors + if r.1 then 0 else 1;
        k := k + 1;
      }
    }

    /** Update. After deregistration it does nothing. */
    method Update(env: Env, config: Config) returns (errors: int)
      requires !Halted(dev)
      modifies this`dev
      ensures deregistered ==> dev == old(dev) && errors == 0
      ensures !deregistered ==> (dev, errors) == Updated(env, old(dev), config)
      ensures TablesInv(old(dev)) ==> TablesInv(dev)
    {
      hide SecretsUpdated, Deploy, Drop, TablesInv;
      errors := 0;
      if deregistered {
        return;
      }
      TablesKeptIf(env, dev, config);
      UpdateTouchesOnlySecrets(env, dev, config.secrets);
      errors := UpdateSecrets(env, config.secrets);
      ghost var secretErrors, deployed := errors, DeployFrom(env, dev, config.workloads, 0);
      var k := 0;
      while k < |config.workloads|
        invariant 0 <= k <= |config.workloads| && !Halted(dev)
        invariant DeployFrom(env, dev, config.workloads, k).0 == deployed.0
        invariant errors + DeployFrom(env, dev, config.workloads, k).1 == secretErrors + deployed.1
      {
        HaltIsAnError(env, dev, config.workloads[k]);
        var ok := DeployOne(env, config.workloads[k]);
        errors := errors + if ok then 0 else 1;
        k := k + 1;
        if Halted(dev) {
          return;
        }
      }
      var c := dev.clock;
      dev := dev.(clock := c + 1);
      if env.fault(c) {
        errors := errors + 1;
        return;
      }
      var names, keep := env.walk(ListedNames(dev)), ConfiguredNames(config.workloads);
      ghost var deployErrors, end := errors, DropFrom(env, dev, names, keep, 0);
      k := 0;
      while k < |names|
        invariant 0 <= k <= |names| && !Halted(dev)
        invariant DropFrom(env, dev, names, keep, k).0 == end.0
        invariant errors + DropFrom(env, dev, names, keep, k).1 == deployErrors + end.1
      {
        if names[k] !in keep {
          DropHaltIsAnError(env, dev, names[k]);
          var ok := DropOne(env, names[k]);
          errors := errors + if ok then 0 else 1;
          if Halted(dev) {
            return;
          }
        }
        k := k + 1;
      }
    }

    method DropOne(env: Env, name: Name) returns (ok: bool)
      modifies this`dev
      ensures (dev, ok) == Drop(env, old(dev), name)
    {
      hide Removal, DirOf;
      var c := dev.clock;
      dev := dev.(clock := c + 1);
      if !env.fault(c) {
        dev := dev.(dirs := dev.dirs - {DirOf(name)});
      }
      ok := Remove(env, name);
      ok := ok && !env.fault(c);
    }
  }

  /** The process does not die on a call that reports success. */
  lemma HaltIsAnError(env: Env, d: Device, w: Workload)
    requires !Halted(d)
    ensures Halted(Deploy(env, d, w).0) ==> !Deploy(env, d, w).1
  {
    hide Removal, Launch, DirOf, ManifestOf, Modified;
    if w.spec.Some? {
      var (d0, there) := DirEnsured(env, d, DirOf(w.name));
      if there && Modified(d0, w) {
        ReplacedHaltIsAnError(env, d0, w);
      }
    }
  }

  lemma ReplacedHaltIsAnError(env: Env, d: Device, w: Workload)
    requires !Halted(d) && w.spec.Some? && DirOf(w.name) in d.dirs
    ensures Halted(Replaced(env, d, w).0) ==> !Replaced(env, d, w).1
  {
    hide Removal, Launch, DirOf, ManifestOf;
    var (d1, stored) := FilesStored(env, d, DirOf(w.name), ManifestOf(w), AuthOf(w));
    RemovalFrame(env, d1, w.name);
    LaunchFrame(env, Removal(env, d1, w.name).0, ManifestOf(w), DirOf(w.name), w.auth != "");
  }

  lemma DropHaltIsAnError(env: Env, d: Device, name: Name)
    requires !Halted(d)
    ensures Halted(Drop(env, d, name).0) ==> !Drop(env, d, name).1
  {
    hide Removal, DirOf;
    var c := d.clock;
    var d1 := if env.fault(c) then d.(clock := c + 1) else d.(dirs := d.dirs - {DirOf(name)}, clock := c + 1);
    RemovalFrame(env, d1, name);
  }

  lemma TablesKeptIf(env: Env, d: Device, config: Config)
    ensures TablesInv(d) ==> TablesInv(Updated(env, d, config).0)
  {
    if TablesInv(d) {
      UpdateKeepsTables(env, d, config);
    }
  }
}
