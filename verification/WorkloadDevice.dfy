/** The device that workloads are deployed on, and the wrapper operations that
    change it: podman, the firewall chains, the services, the name/id table. */
module WorkloadDevice {
  import opened Options
  import opened WorkloadTable

  /** A pod specification: the host ports of each container, and the rest. */
  datatype Spec = Spec(containers: seq<seq<int>>, body: string)

  /** The content of a manifest file. */
  datatype Manifest = Manifest(name: Name, labels: map<string, string>, spec: Spec, configmaps: string)

  /** A running pod: what podman was given. */
  datatype Pod = Pod(manifest: Manifest, auth: Option<string>)

  /** The files in the directory of a workload. */
  datatype Files = Files(manifest: Option<Manifest>, auth: Option<string>)

  /** The services known to the service manager, the ones in its file, the ones whose
      units are all installed on the system, and the ones that this process created: only
      these have a connection to systemd, those read from the file have none. `halted`
      says that the process has died on using a connection that is not there. */
  datatype Services = Services(listed: set<Name>, file: set<Name>, units: set<Name>, own: set<Name>, halted: bool)

  datatype Op = RemoveOp(name: Name) | RunOp(name: Name)

  /** External state. `chains` lists the port of each accept rule of a chain;
      `clock` numbers the foreign calls; `issued` records the wrapper calls. */
  datatype Device = Device(
    table: Table,
    saved: map<PodId, Name>,
    pods: map<PodId, Pod>,
    chains: map<Name, seq<int>>,
    services: Services,
    dirs: map<string, Files>,
    secrets: map<string, string>,
    nextId: nat,
    clock: nat,
    issued: seq<Op>)

  /** What the environment decides: which foreign calls fail, and in which order
      a Go map is walked. */
  datatype Env = Env(fault: nat -> bool, walk: set<string> -> seq<string>)

  // --------------------------------------------------------------- firewall

  predicate LegalPort(p: int) {
    0 < p < 65536
  }

  function Flatten(containers: seq<seq<int>>): seq<int> {
    if containers == [] then [] else containers[0] + Flatten(containers[1..])
  }

  /** All ports in container order, or nothing if one is illegal. */
  function HostPorts(spec: Spec): Option<seq<int>> {
    if forall p <- Flatten(spec.containers) :: LegalPort(p) then Some(Flatten(spec.containers)) else None
  }

  method GetHostPorts(spec: Spec) returns (r: Option<seq<int>>)
    ensures r == HostPorts(spec)
  {
    var ports: seq<int> := [];
    var c := 0;
    while c < |spec.containers|
      invariant 0 <= c <= |spec.containers|
      invariant ports + Flatten(spec.containers[c..]) == Flatten(spec.containers)
      invariant forall p <- ports :: LegalPort(p)
    {
      var container := spec.containers[c];
      ghost var before, rest := ports, Flatten(spec.containers[c + 1..]);
      assert spec.containers[c..][1..] == spec.containers[c + 1..];
      var i := 0;
      while i < |container|
        invariant 0 <= i <= |container|
        invariant ports == before + container[..i]
        invariant forall p <- ports :: LegalPort(p)
      {
        var p := container[i];
        if p > 0 && p < 65536 {
          ports := ports + [p];
        } else {
          assert p in before + (container + rest);
          return None;
        }
        i := i + 1;
      }
      assert container[..i] == container;
      c := c + 1;
    }
    assert spec.containers[c..] == [] && ports + [] == ports;
    return Some(ports);
  }

  /** AddRule for each port in turn, until one fails. */
  function RulesAdded(env: Env, clock: nat, chain: seq<int>, ports: seq<int>): (seq<int>, bool)
    decreases |ports|
  {
    if ports == [] then (chain, true)
    else if env.fault(clock) then (chain, false)
    else RulesAdded(env, clock + 1, chain + [ports[0]], ports[1..])
  }

  function Chain(d: Device, name: Name): seq<int> {
    if name in d.chains then d.chains[name] else []
  }

  /** applyNetworkConfiguration: no rule at all when a port is illegal; an
      existing chain is kept and extended. */
  function Networked(env: Env, d: Device, name: Name, spec: Spec): (Device, bool) {
    match HostPorts(spec)
    case None => (d, false)
    case Some(ports) =>
      if ports == [] then (d, true)
      else if env.fault(d.clock) then (d.(clock := d.clock + 1), false)
      else
        var (chain, ok) := RulesAdded(env, d.clock + 1, Chain(d, name), ports);
        (d.(chains := d.chains[name := chain], clock := d.clock + 1 + |ports|), ok)
  }

  // ---------------------------------------------------------------- services

  /** removeService: a service that is not listed is passed over. One that was read
      from the file cannot be stopped: the process dies. The first fault is the first
      unit not being deleted, which also fails when it is not there; the second is a
      later unit, or telling systemd, by when not all units are there. A failure to
      write the file is ignored. */
  function ServiceRemoved(env: Env, c: nat, s: Services, name: Name): (Services, bool) {
    if name !in s.listed then (s, true)
    else if name !in s.own then (s.(halted := true), false)
    else if env.fault(c) || name !in s.units then (s, false)
    else
      var removed := s.(units := s.units - {name});
      if env.fault(c + 1) then (removed, false)
      else
        var listed := s.listed - {name};
        (removed.(listed := listed, file := if env.fault(c + 2) then s.file else listed, own := s.own - {name}), true)
  }

  /** Generating the service, writing its units one by one, telling systemd, enabling
      and starting it, then listing it. */
  function ServiceCreated(env: Env, c: nat, s: Services, name: Name): (Services, bool) {
    if env.fault(c) || env.fault(c + 1) then (s, false)
    else
      var installed := s.(units := s.units + {name});
      if env.fault(c + 2) || env.fault(c + 3) || env.fault(c + 4) then (installed, false)
      else
        var listed, own := s.listed + {name}, s.own + {name};
        (installed.(listed := listed, file := if env.fault(c + 5) then s.file else listed, own := own),
         !env.fault(c + 5))
  }

  // --------------------------------------------------- wrapper: Remove, Run

  /** podman removes by id, or by the pod's own name when no id is known. */
  function PodsLeft(t: Table, pods: map<PodId, Pod>, name: Name): map<PodId, Pod> {
    if name in t.ids then pods - {t.ids[name]} else map i | i in pods && pods[i].manifest.name != name :: pods[i]
  }

  function PodsWithout(d: Device, name: Name): map<PodId, Pod> {
    PodsLeft(d.table, d.pods, name)
  }

  function Removal(env: Env, d: Device, name: Name): (Device, bool) {
    var c := d.clock;
    var (services, gone) := ServiceRemoved(env, c, d.services, name);
    var d1 := d.(clock := c + 6, issued := d.issued + [RemoveOp(name)], services := services);
    if !gone || env.fault(c + 3) then (d1, false)
    else
      var d2 := d1.(pods := PodsWithout(d, name),
                    chains := if env.fault(c + 4) then d.chains else d.chains - {name},
                    table := Removed(d.table, name));
      if env.fault(c + 5) then (d2, false) else (d2.(saved := d2.table.names), true)
  }

  /** Starting the pod of a manifest file, recording it, and creating its service. */
  function Launched(env: Env, d: Device, name: Name, dir: string, withAuth: bool): (Device, bool) {
    var c := d.clock;
    var d0 := d.(clock := c + 8);
    if env.fault(c) || dir !in d.dirs || d.dirs[dir].manifest.None? then (d0, false)
    else
      var pod := Pod(d.dirs[dir].manifest.value, if withAuth then d.dirs[dir].auth else None);
      var id := PodId(d.nextId);
      var d1 := d0.(pods := d.pods[id := pod], nextId := d.nextId + 1, table := Added(d.table, name, id));
      if env.fault(c + 1) then (d1, false)
      else
        var (services, ok) := ServiceCreated(env, c + 2, d.services, name);
        (d1.(saved := d1.table.names, services := services), ok)
  }

  function Launch(env: Env, d: Device, pod: Manifest, dir: string, withAuth: bool): (Device, bool) {
    var (d1, ok) := Networked(env, d.(issued := d.issued + [RunOp(pod.name)]), pod.name, pod.spec);
    if ok then Launched(env, d1, pod.name, dir, withAuth) else (d1, false)
  }

  /** The process has died. */
  predicate Halted(d: Device) {
    d.services.halted
  }

  /** Start of the wrapper: renews the chain and starts the known pod. */
  function Restarted(env: Env, d: Device, pod: Manifest): (Device, bool) {
    var d0 := d.(chains := if env.fault(d.clock) then d.chains else d.chains - {pod.name}, clock := d.clock + 1);
    var (d1, ok) := Networked(env, d0, pod.name, pod.spec);
    if !ok then (d1, false)
    else (d1.(clock := d1.clock + 1), pod.name in d.table.ids && !env.fault(d1.clock))
  }

  /** List: podman's pods under their workload names. */
  function ListedName(d: Device, id: PodId): Name
    requires id in d.pods
  {
    match GetName(d.table, id)
    case Some(name) => name
    case None => d.pods[id].manifest.name
  }

  function ListedNames(d: Device): set<Name> {
    set id | id in d.pods :: ListedName(d, id)
  }

  // ------------------------------------------------------------- table facts

  /** Ids are handed out once, in increasing order. */
  ghost predicate Below(ids: set<PodId>, n: nat) {
    forall id :: id in ids ==> id.number < n
  }

  ghost predicate OneToOne(names: map<PodId, Name>) {
    forall i, j :: i in names && j in names && names[i] == names[j] ==> i == j
  }

  /** The tables in memory and in the file each map ids and names one to one. */
  ghost predicate TablesOk(t: Table, saved: map<PodId, Name>, n: nat) {
    Inverse(t) && OneToOne(saved) && Below(t.names.Keys, n) && Below(saved.Keys, n)
  }

  ghost predicate TablesInv(d: Device) {
    TablesOk(d.table, d.saved, d.nextId)
  }

  lemma RemovalTables(t: Table, saved: map<PodId, Name>, n: nat, name: Name)
    requires TablesOk(t, saved, n)
    ensures TablesOk(Removed(t, name), saved, n)
    ensures TablesOk(Removed(t, name), Removed(t, name).names, n)
  {
  }

  lemma LaunchTables(t: Table, saved: map<PodId, Name>, n: nat, name: Name)
    requires TablesOk(t, saved, n) && name !in t.ids
    ensures TablesOk(Added(t, name, PodId(n)), saved, n + 1)
    ensures TablesOk(Added(t, name, PodId(n)), Added(t, name, PodId(n)).names, n + 1)
  {
  }

  /** What a Remove changes, step by step. */
  lemma RemovalFrame(env: Env, d: Device, name: Name)
    ensures
      var (d', ok) := Removal(env, d, name);
      && d'.dirs == d.dirs && d'.secrets == d.secrets && d'.nextId == d.nextId
      && d'.issued == d.issued + [RemoveOp(name)]
      && d'.services == ServiceRemoved(env, d.clock, d.services, name).0
      && (ok ==> Halted(d') == Halted(d))
      && ((d'.table == d.table && d'.saved == d.saved && d'.pods == d.pods && !ok)
          || (d'.table == Removed(d.table, name) && d'.pods == PodsWithout(d, name)
              && d'.saved == if ok then d'.table.names else d.saved))
  {
  }

  /** What starting the pod changes. */
  ghost predicate LaunchChange(d: Device, d': Device, ok: bool, name: Name, dir: string, withAuth: bool) {
    && d'.dirs == d.dirs && d'.secrets == d.secrets && Halted(d') == Halted(d)
    && ((d'.table == d.table && d'.saved == d.saved && d'.pods == d.pods && d'.nextId == d.nextId && !ok)
        || (dir in d.dirs && d.dirs[dir].manifest.Some?
            && d'.table == Added(d.table, name, PodId(d.nextId)) && d'.nextId == d.nextId + 1
            && d'.pods == d.pods[PodId(d.nextId) :=
                 Pod(d.dirs[dir].manifest.value, if withAuth then d.dirs[dir].auth else None)]
            && (d'.saved == d'.table.names || (d'.saved == d.saved && !ok))))
  }

  lemma LaunchedFrame(env: Env, d: Device, name: Name, dir: string, withAuth: bool)
    ensures
      var (d', ok) := Launched(env, d, name, dir, withAuth);
      && LaunchChange(d, d', ok, name, dir, withAuth) && d'.issued == d.issued && d'.chains == d.chains
      && (d'.services == d.services || d'.services == ServiceCreated(env, d.clock + 2, d.services, name).0)
  {
    CreatingHaltsNothing(env, d.clock + 2, d.services, name);
    hide ServiceCreated;
  }

  lemma CreatingHaltsNothing(env: Env, c: nat, s: Services, name: Name)
    ensures ServiceCreated(env, c, s, name).0.halted == s.halted
  {
  }

  /** What a Run changes. */
  lemma LaunchFrame(env: Env, d: Device, pod: Manifest, dir: string, withAuth: bool)
    ensures
      var (d', ok) := Launch(env, d, pod, dir, withAuth);
      LaunchChange(d, d', ok, pod.name, dir, withAuth) && d'.issued == d.issued + [RunOp(pod.name)]
  {
    hide Networked, Launched;
    var d0 := d.(issued := d.issued + [RunOp(pod.name)]);
    NetworkedFrame(env, d0, pod.name, pod.spec);
    LaunchedFrame(env, Networked(env, d0, pod.name, pod.spec).0, pod.name, dir, withAuth);
  }

  lemma RemovalKeepsTables(env: Env, d: Device, name: Name)
    requires TablesInv(d)
    ensures TablesInv(Removal(env, d, name).0)
    ensures Removal(env, d, name).1 ==> name !in Removal(env, d, name).0.table.ids
  {
    hide Removal, TablesOk;
    RemovalFrame(env, d, name);
    RemovalTables(d.table, d.saved, d.nextId, name);
  }

  /** Run keeps the tables inverse because it follows a successful Remove. */
  lemma LaunchKeepsTables(env: Env, d: Device, pod: Manifest, dir: string, withAuth: bool)
    requires TablesInv(d) && pod.name !in d.table.ids
    ensures TablesInv(Launch(env, d, pod, dir, withAuth).0)
  {
    hide Launch, TablesOk;
    LaunchFrame(env, d, pod, dir, withAuth);
    LaunchTables(d.table, d.saved, d.nextId, pod.name);
  }

  lemma DropUpdated(chains: map<Name, seq<int>>, name: Name, chain: seq<int>)
    ensures chains[name := chain] - {name} == chains - {name}
  {
  }

  /** The firewall part changes nothing but the chain of that workload. */
  lemma NetworkedFrame(env: Env, d: Device, name: Name, spec: Spec)
    ensures
      var d' := Networked(env, d, name, spec).0;
      && d' == d.(chains := d'.chains, clock := d'.clock)
      && (HostPorts(spec).None? ==> d'.chains == d.chains)
      && d'.chains - {name} == d.chains - {name}
  {
    hide HostPorts, RulesAdded;
    if HostPorts(spec).Some? {
      DropUpdated(d.chains, name, RulesAdded(env, d.clock + 1, Chain(d, name), HostPorts(spec).value).0);
    }
  }
}
