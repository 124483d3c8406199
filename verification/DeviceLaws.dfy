/** Laws of the wrapper operations that say in plain terms what each outcome leaves. */
module DeviceLaws {
  import opened Options
  import opened WorkloadTable
  import opened WorkloadDevice

  /** The ports before container c. */
  function PortsBefore(containers: seq<seq<int>>, c: nat): nat
    requires c <= |containers|
    decreases c
  {
    if c == 0 then 0 else |containers[0]| + PortsBefore(containers[1..], c - 1)
  }

  /** All ports, container by container, each in its order. */
  lemma {:induction false} FlattenAt(containers: seq<seq<int>>, c: nat, p: nat)
    requires c < |containers| && p < |containers[c]|
    ensures PortsBefore(containers, c) + p < |Flatten(containers)|
    ensures Flatten(containers)[PortsBefore(containers, c) + p] == containers[c][p]
    decreases c
  {
    if c > 0 {
      FlattenAt(containers[1..], c - 1, p);
    }
  }

  lemma {:induction false} FlattenLength(containers: seq<seq<int>>)
    ensures |Flatten(containers)| == PortsBefore(containers, |containers|)
  {
    if containers != [] {
      FlattenLength(containers[1..]);
    }
  }

  /** Port p of container c is x. */
  predicate PortAt(containers: seq<seq<int>>, c: int, p: int, x: int) {
    0 <= c < |containers| && 0 <= p < |containers[c]| && containers[c][p] == x
  }

  /** There are host ports exactly when each port of each container is between 1 and
      65535, and then they are all of them, in their order (see FlattenAt). */
  lemma HostPortsExactlyWhen(spec: Spec)
    ensures HostPorts(spec).Some? <==> forall c, p, x :: PortAt(spec.containers, c, p, x) ==> 1 <= x <= 65535
    ensures HostPorts(spec).Some? ==> HostPorts(spec).value == Flatten(spec.containers)
  {
    var cs, all := spec.containers, Flatten(spec.containers);
    if HostPorts(spec).Some? {
      forall c, p, x | PortAt(cs, c, p, x) ensures 1 <= x <= 65535 {
        FlattenAt(cs, c, p);
        assert all[PortsBefore(cs, c) + p] in all;
      }
    } else {
      var x :| x in all && !LegalPort(x);
      FlattenFrom(cs, x);
      var c, p :| PortAt(cs, c, p, x);
    }
  }

  lemma {:induction false} FlattenFrom(containers: seq<seq<int>>, x: int)
    requires x in Flatten(containers)
    ensures exists c, p :: PortAt(containers, c, p, x)
  {
    if x in containers[0] {
      var p :| 0 <= p < |containers[0]| && containers[0][p] == x;
      assert PortAt(containers, 0, p, x);
    } else {
      FlattenFrom(containers[1..], x);
      var c, p :| PortAt(containers[1..], c, p, x);
      assert PortAt(containers, c + 1, p, x);
    }
  }

  /** Rules are added one after the other up to the first that fails. */
  lemma {:induction false} RulesUpToFailure(env: Env, clock: nat, chain: seq<int>, ports: seq<int>) returns (k: nat)
    ensures k <= |ports| && RulesAdded(env, clock, chain, ports) == (chain + ports[..k], k == |ports|)
    ensures k < |ports| ==> env.fault(clock + k)
    decreases |ports|
  {
    k := 0;
    if ports == [] || env.fault(clock) {
      assert chain + ports[..0] == chain;
    } else {
      k := RulesUpToFailure(env, clock + 1, chain + [ports[0]], ports[1..]);
      assert [ports[0]] + ports[1..][..k] == ports[..k + 1];
      assert chain + [ports[0]] + ports[1..][..k] == chain + ([ports[0]] + ports[1..][..k]);
      k := k + 1;
    }
  }

  /** A Run that reports success has created the service: listed, in the file, with its
      units, by this process. */
  lemma RunCreatesService(env: Env, d: Device, pod: Manifest, dir: string, withAuth: bool)
    requires Launch(env, d, pod, dir, withAuth).1
    ensures
      var s := Launch(env, d, pod, dir, withAuth).0.services;
      pod.name in s.listed && pod.name in s.file && pod.name in s.units && pod.name in s.own
  {
    hide Networked;
  }

  /** A Remove that reports success has removed it, and the file tells so unless it could
      not be written. */
  lemma RemoveRemovesService(env: Env, d: Device, name: Name)
    requires Removal(env, d, name).1
    ensures
      var s := Removal(env, d, name).0.services;
      && name !in s.listed && (name in d.services.listed ==> name !in s.units && name !in s.own)
      && (name in d.services.listed ==> s.file == if env.fault(d.clock + 2) then d.services.file else s.listed)
  {
  }

  /** A pod whose id is in the table is listed under that name, any other under its own. */
  lemma ListedNameIs(d: Device, id: PodId)
    requires id in d.pods
    ensures id in d.table.names ==> ListedName(d, id) == d.table.names[id]
    ensures id !in d.table.names ==> ListedName(d, id) == d.pods[id].manifest.name
  {
  }

  /** Start changes the chain of its workload only, and succeeds only for a known one. */
  lemma RestartedFrame(env: Env, d: Device, pod: Manifest)
    ensures
      var (d', ok) := Restarted(env, d, pod);
      && d' == d.(chains := d'.chains, clock := d'.clock) && d'.chains - {pod.name} == d.chains - {pod.name}
      && (ok ==> pod.name in d.table.ids)
  {
    hide Networked;
    var d0 := d.(chains := if env.fault(d.clock) then d.chains else d.chains - {pod.name}, clock := d.clock + 1);
    NetworkedFrame(env, d0, pod.name, pod.spec);
  }

  /** A service is out of the way: it is not listed, or was created by this process, has
      its units, and they can be deleted. */
  predicate ServiceGoes(env: Env, c: nat, s: Services, name: Name) {
    name in s.listed ==> name in s.own && name in s.units && !env.fault(c) && !env.fault(c + 1)
  }

  /** podman removes the pod with the recorded id or, without one, each pod of that name. */
  lemma PodsLeftAre(t: Table, pods: map<PodId, Pod>, name: Name, id: PodId)
    ensures
      var left := PodsLeft(t, pods, name);
      && (id in left ==> id in pods && left[id] == pods[id])
      && (id in pods && name in t.ids ==> (id in left <==> id != t.ids[name]))
      && (id in pods && name !in t.ids ==> (id in left <==> pods[id].manifest.name != name))
  {
  }

  /** A Remove does nothing to the pods, the table and the chain before its service is out
      of the way and podman's part has succeeded; then the pods, the chain and the entry
      go. Success is that the table file could also be written. */
  lemma RemovalOutcomes(env: Env, d: Device, name: Name)
    ensures
      var (d', ok) := Removal(env, d, name);
      var past := ServiceGoes(env, d.clock, d.services, name) && !env.fault(d.clock + 3);
      && (ok <==> past && !env.fault(d.clock + 5))
      && (!past ==> d' == d.(services := d'.services, issued := d'.issued, clock := d'.clock))
      && (past ==> name !in d'.table.ids && d'.pods == PodsLeft(d.table, d.pods, name))
      && (past ==> d'.chains == if env.fault(d.clock + 4) then d.chains else d.chains - {name})
      && d'.saved == if ok then d'.table.names else d.saved
  {
    hide PodsLeft;
  }

  /** Starting a pod: nothing when podman fails; pod and entry, but the table file as it
      was, when that cannot be written; and each failure in creating the service makes
      it fail with the pod running and the table written. */
  lemma LaunchOutcomes(env: Env, d: Device, name: Name, dir: string, withAuth: bool)
    requires dir in d.dirs && d.dirs[dir].manifest.Some?
    ensures
      var (d', ok) := Launched(env, d, name, dir, withAuth);
      var c := d.clock;
      var service := env.fault(c + 2) || env.fault(c + 3) || env.fault(c + 4) || env.fault(c + 5) || env.fault(c + 6)
                     || env.fault(c + 7);
      && (env.fault(c) ==> !ok && d' == d.(clock := d'.clock))
      && (!env.fault(c) && env.fault(c + 1) ==>
            !ok && name in d'.table.ids && d'.saved == d.saved && d'.services == d.services)
      && (!env.fault(c) && !env.fault(c + 1) ==> d'.saved == d'.table.names && (ok <==> !service))
  {
  }

  /** Creating a service: its units are there once they are written and systemd is told,
      it is listed once it is enabled and started too, and only in memory when the file
      cannot be written. */
  lemma ServiceOutcomes(env: Env, c: nat, s: Services, name: Name)
    ensures
      var (s', ok) := ServiceCreated(env, c, s, name);
      var units := !env.fault(c) && !env.fault(c + 1);
      var started := units && !env.fault(c + 2) && !env.fault(c + 3) && !env.fault(c + 4);
      && s'.units == (if units then s.units + {name} else s.units)
      && s'.listed == (if started then s.listed + {name} else s.listed)
      && s'.own == (if started then s.own + {name} else s.own)
      && s'.file == (if ok then s'.listed else s.file)
      && s'.halted == s.halted && (ok <==> started && !env.fault(c + 5))
  {
  }

  /** The firewall: nothing for an illegal port or when the chain cannot be made, nothing
      to do without ports. */
  lemma NetworkOutcomes(env: Env, d: Device, name: Name, spec: Spec)
    ensures
      var (d', ok) := Networked(env, d, name, spec);
      && (HostPorts(spec).None? ==> !ok && d' == d)
      && (HostPorts(spec) == Some([]) ==> ok && d' == d)
      && (HostPorts(spec).Some? && HostPorts(spec).value != [] && env.fault(d.clock) ==>
            !ok && d'.chains == d.chains)
      && (HostPorts(spec).Some? && HostPorts(spec).value != [] && !env.fault(d.clock) ==> name in d'.chains)
  {
    hide HostPorts, RulesAdded;
  }
}
