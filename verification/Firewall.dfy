/** The firewall chains of deployed workloads. */
module Firewall {
  import opened Options
  import opened WorkloadTable
  import opened WorkloadDevice
  import opened Reconcile

  function PortsOf(m: Manifest): seq<int> {
    Flatten(m.spec.containers)
  }

  /** The chains that belong to what runs: one per workload with ports, holding
      one accept rule per host port, in container order. */
  function ChainsFor(running: map<Name, Pod>): map<Name, seq<int>> {
    map n | n in running && PortsOf(running[n].manifest) != [] :: PortsOf(running[n].manifest)
  }

  ghost predicate ChainsExact(d: Device) {
    Core(d) && NamesMatch(Running(d)) && d.chains == ChainsFor(Running(d))
  }

  /** A device on which nothing was ever deployed. */
  function Blank(secrets: map<string, string>): Device {
    Device(EMPTY, map[], map[], map[], Services({}, {}, {}, {}, false), map[], secrets, 0, 0, [])
  }

  /** It meets all the invariants that the results about the manager start from. */
  lemma BlankIsInOrder(secrets: map<string, string>)
    ensures Consistent(Blank(secrets)) && TablesInv(Blank(secrets)) && ChainsExact(Blank(secrets))
  {
  }

  /** Rules that were all added stand behind those that were there. */
  lemma {:induction false} AllRulesAdded(env: Env, clock: nat, chain: seq<int>, ports: seq<int>)
    requires RulesAdded(env, clock, chain, ports).1
    ensures RulesAdded(env, clock, chain, ports).0 == chain + ports
    decreases |ports|
  {
    if ports == [] {
      assert chain + ports == chain;
    } else {
      AllRulesAdded(env, clock + 1, chain + [ports[0]], ports[1..]);
      assert chain + [ports[0]] + ports[1..] == chain + ports;
    }
  }

  /** A workload with one illegal port gets no rule at all, whatever else fails:
      the ports are checked before anything is added. */
  lemma IllegalPortAddsNoRule(env: Env, d: Device, pod: Manifest, dir: string, withAuth: bool, p: int)
    requires p in PortsOf(pod) && !LegalPort(p)
    ensures !Launch(env, d, pod, dir, withAuth).1 && Launch(env, d, pod, dir, withAuth).0.chains == d.chains
    ensures Launch(env, d, pod, dir, withAuth).0.pods == d.pods
  {
  }

  /** A call that reports success has put one rule per port, in container order,
      behind the rules that were there. */
  lemma RulesFollowChain(env: Env, d: Device, name: Name, spec: Spec)
    requires Networked(env, d, name, spec).1
    ensures
      var ports := Flatten(spec.containers);
      Networked(env, d, name, spec).0.chains
      == if ports == [] then d.chains else d.chains[name := Chain(d, name) + ports]
  {
    var ports := Flatten(spec.containers);
    if ports != [] {
      AllRulesAdded(env, d.clock + 1, Chain(d, name), ports);
    }
  }

  /** A Remove that reports success has deleted the chain, or logged that it could
      not. */
  lemma RemovalChains(env: Env, d: Device, name: Name)
    requires Removal(env, d, name).1
    ensures Removal(env, d, name).0.chains == if env.fault(d.clock + 4) then d.chains else d.chains - {name}
  {
    hide ServiceRemoved;
  }

  lemma LaunchChains(env: Env, d: Device, pod: Manifest, dir: string, withAuth: bool)
    requires Launch(env, d, pod, dir, withAuth).1
    ensures
      var ports := PortsOf(pod);
      Launch(env, d, pod, dir, withAuth).0.chains
      == if ports == [] then d.chains else d.chains[pod.name := Chain(d, pod.name) + ports]
  {
    hide Networked, Launched;
    var d0 := d.(issued := d.issued + [RunOp(pod.name)]);
    RulesFollowChain(env, d0, pod.name, pod.spec);
    LaunchedFrame(env, Networked(env, d0, pod.name, pod.spec).0, pod.name, dir, withAuth);
  }

  // ------------------------------------------------------ wrapper operations

  datatype Call = Delete(name: Name) | Redeploy(pod: Manifest, dir: string, withAuth: bool) | Start(pod: Manifest)

  /** The calls the manager makes: a Run follows a successful Remove. */
  function Called(env: Env, d: Device, call: Call): (Device, bool) {
    match call
    case Delete(name) => Removal(env, d, name)
    case Redeploy(pod, dir, withAuth) =>
      var (d1, ok) := Removal(env, d, pod.name);
      if ok then Launch(env, d1, pod, dir, withAuth) else (d1, false)
    case Start(pod) => Restarted(env, d, pod)
  }

  /** Run is given the manifest that is stored, Start the one that runs. */
  ghost predicate Proper(d: Device, call: Call) {
    match call
    case Delete(_) => true
    case Redeploy(pod, dir, _) => dir in d.dirs && d.dirs[dir].manifest == Some(pod)
    case Start(pod) => pod.name in Running(d) && Running(d)[pod.name].manifest == pod
  }

  function NameOf(call: Call): Name {
    match call
    case Delete(name) => name
    case Redeploy(pod, _, _) => pod.name
    case Start(pod) => pod.name
  }

  /** The call finds a chain and fails to delete it. The wrapper does not report
      this. */
  predicate ChainStays(env: Env, d: Device, call: Call) {
    NameOf(call) in d.chains && env.fault(if call.Start? then d.clock else d.clock + 4)
  }

  function WithoutChain(env: Env, d: Device, call: Call): map<Name, seq<int>> {
    if ChainStays(env, d, call) then d.chains else d.chains - {NameOf(call)}
  }

  /** The ports of what runs under a name. */
  function PortsRunning(running: map<Name, Pod>, name: Name): seq<int> {
    if name in running then PortsOf(running[name].manifest) else []
  }

  /** A call without error changes what runs under its name, and puts the ports of
      that behind whatever it left of the chain. */
  ghost predicate ChainsMove(env: Env, d: Device, call: Call) {
    var name, d' := NameOf(call), Called(env, d, call).0;
    var before := WithoutChain(env, d, call);
    var ports := PortsRunning(Running(d'), name);
    && Core(d') && NamesMatch(Running(d')) && Running(d') - {name} == Running(d) - {name}
    && d'.chains == if ports == [] then before
                    else before[name := (if name in before then before[name] else []) + ports]
  }

  lemma DeleteMoves(env: Env, d: Device, call: Call)
    requires Core(d) && NamesMatch(Running(d)) && call.Delete? && Called(env, d, call).1
    ensures ChainsMove(env, d, call)
  {
    hide Removal, Core, Running;
    RemovalChains(env, d, call.name);
    RunningAfterRemoval(env, d, call.name);
  }

  lemma RedeployMoves(env: Env, d: Device, call: Call)
    requires Core(d) && NamesMatch(Running(d)) && call.Redeploy? && Proper(d, call) && Called(env, d, call).1
    ensures ChainsMove(env, d, call)
  {
    hide Removal, Launch, Core, Running;
    var name := call.pod.name;
    RemovalChains(env, d, name);
    RunningAfterRemoval(env, d, name);
    var d1 := Removal(env, d, name).0;
    LaunchChains(env, d1, call.pod, call.dir, call.withAuth);
    RunningAfterLaunch(env, d1, call.pod, call.dir, call.withAuth);
  }

  lemma StartMoves(env: Env, d: Device, call: Call)
    requires Core(d) && NamesMatch(Running(d)) && call.Start? && Proper(d, call) && Called(env, d, call).1
    ensures ChainsMove(env, d, call)
  {
    hide Networked, Core, Running;
    var pod := call.pod;
    var d0 := d.(chains := if env.fault(d.clock) then d.chains else d.chains - {pod.name}, clock := d.clock + 1);
    RulesFollowChain(env, d0, pod.name, pod.spec);
    NetworkedFrame(env, d0, pod.name, pod.spec);
    SameRunning(d, Called(env, d, call).0);
  }

  lemma CallMoves(env: Env, d: Device, call: Call)
    requires Core(d) && NamesMatch(Running(d)) && Proper(d, call) && Called(env, d, call).1
    ensures ChainsMove(env, d, call)
  {
    match call
    case Delete(_) => DeleteMoves(env, d, call);
    case Redeploy(_, _, _) => RedeployMoves(env, d, call);
    case Start(_) => StartMoves(env, d, call);
  }

  // ------------------------------------------------------------ whole sequences

  /** The chains of all names but these are exact; each of these names has more
      rules than it should. */
  ghost predicate ExactBut(chains: map<Name, seq<int>>, running: map<Name, Pod>, stale: set<Name>) {
    && (forall n :: n in stale ==> n in chains && |chains[n]| > |PortsRunning(running, n)|)
    && (forall n :: n !in stale ==>
          && (n in chains <==> PortsRunning(running, n) != [])
          && (n in chains ==> chains[n] == PortsRunning(running, n)))
  }

  lemma ExactButNone(chains: map<Name, seq<int>>, running: map<Name, Pod>, stale: set<Name>)
    requires ExactBut(chains, running, stale)
    ensures chains == ChainsFor(running) <==> stale == {}
  {
    if stale != {} {
      var n :| n in stale;
      assert n in chains && |chains[n]| > |PortsRunning(running, n)|;
    }
  }

  lemma ExactIsExactBut(chains: map<Name, seq<int>>, running: map<Name, Pod>)
    requires chains == ChainsFor(running)
    ensures ExactBut(chains, running, {})
  {
  }

  /** The names whose last DeleteChain failed on a chain that was there. */
  ghost function StaleAfter(env: Env, d: Device, stale: set<Name>, call: Call): set<Name> {
    if ChainStays(env, d, call) then stale + {NameOf(call)} else stale - {NameOf(call)}
  }

  lemma OthersKeepPorts(running: map<Name, Pod>, running': map<Name, Pod>, name: Name, n: Name)
    requires running' - {name} == running - {name} && n != name
    ensures PortsRunning(running', n) == PortsRunning(running, n)
  {
    assert n in running' <==> n in running' - {name};
    assert n in running <==> n in running - {name};
    if n in running {
      assert (running' - {name})[n] == (running - {name})[n];
    }
  }

  lemma MoveKeepsExactBut(chains: map<Name, seq<int>>, chains': map<Name, seq<int>>, running: map<Name, Pod>,
                          running': map<Name, Pod>, name: Name, stays: bool, stale: set<Name>)
    requires ExactBut(chains, running, stale) && running' - {name} == running - {name}
    requires stays ==> name in chains
    requires
      var before := if stays then chains else chains - {name};
      var ports := PortsRunning(running', name);
      chains' == if ports == [] then before else before[name := (if name in before then before[name] else []) + ports]
    ensures ExactBut(chains', running', if stays then stale + {name} else stale - {name})
  {
    hide PortsRunning;
    forall n | n != name
      ensures PortsRunning(running', n) == PortsRunning(running, n)
    {
      OthersKeepPorts(running, running', name, n);
    }
  }

  lemma CallKeepsExactBut(env: Env, d: Device, call: Call, stale: set<Name>)
    requires ExactBut(d.chains, Running(d), stale) && ChainsMove(env, d, call)
    ensures ExactBut(Called(env, d, call).0.chains, Running(Called(env, d, call).0), StaleAfter(env, d, stale, call))
  {
    hide Called, Core, Running, NamesMatch, PortsOf, ExactBut;
    var d' := Called(env, d, call).0;
    MoveKeepsExactBut(d.chains, d'.chains, Running(d), Running(d'), NameOf(call), ChainStays(env, d, call), stale);
  }

  /** A sequence of calls, each without error. */
  ghost predicate ErrorFree(env: Env, d: Device, calls: seq<Call>)
    decreases |calls|
  {
    calls == [] || (Proper(d, calls[0]) && Called(env, d, calls[0]).1
                    && ErrorFree(env, Called(env, d, calls[0]).0, calls[1..]))
  }

  ghost function AfterCalls(env: Env, d: Device, calls: seq<Call>): Device
    requires ErrorFree(env, d, calls)
    decreases |calls|
  {
    if calls == [] then d else AfterCalls(env, Called(env, d, calls[0]).0, calls[1..])
  }

  ghost function Stale(env: Env, d: Device, stale: set<Name>, calls: seq<Call>): set<Name>
    requires ErrorFree(env, d, calls)
    decreases |calls|
  {
    if calls == [] then stale
    else Stale(env, Called(env, d, calls[0]).0, StaleAfter(env, d, stale, calls[0]), calls[1..])
  }

  lemma {:induction false} CallsKeepExactBut(env: Env, d: Device, calls: seq<Call>, stale: set<Name>)
    requires Core(d) && NamesMatch(Running(d)) && ExactBut(d.chains, Running(d), stale) && ErrorFree(env, d, calls)
    ensures
      var d' := AfterCalls(env, d, calls);
      && Core(d') && NamesMatch(Running(d'))
      && ExactBut(d'.chains, Running(d'), Stale(env, d, stale, calls))
    decreases |calls|
  {
    hide Called, Core, NamesMatch, ExactBut, Running, Proper, StaleAfter;
    if calls != [] {
      CallMoves(env, d, calls[0]);
      CallKeepsExactBut(env, d, calls[0], stale);
      CallsKeepExactBut(env, Called(env, d, calls[0]).0, calls[1..], StaleAfter(env, d, stale, calls[0]));
    }
  }

  /** Over every sequence of wrapper calls that report no error, from exact chains:
      the chains are again exactly those of the deployed workloads (one accept rule
      per host port in container order, none for a workload without ports, none left
      behind) if and only if for every name the last call on it did not fail to
      delete a chain it found. */
  lemma ChainsFollowWorkloads(env: Env, d: Device, calls: seq<Call>)
    requires ChainsExact(d) && ErrorFree(env, d, calls)
    ensures ChainsExact(AfterCalls(env, d, calls)) <==> Stale(env, d, {}, calls) == {}
  {
    hide Core, Running, NamesMatch, AfterCalls, Stale, ErrorFree;
    ExactIsExactBut(d.chains, Running(d));
    CallsKeepExactBut(env, d, calls, {});
    var d' := AfterCalls(env, d, calls);
    ExactButNone(d'.chains, Running(d'), Stale(env, d, {}, calls));
  }

  /** One call: exact chains stay exact if and only if it did not fail to delete a
      chain it found. */
  lemma CallKeepsChainsExactlyWhen(env: Env, d: Device, call: Call)
    requires ChainsExact(d) && Proper(d, call) && Called(env, d, call).1
    ensures ChainsExact(Called(env, d, call).0) <==> !ChainStays(env, d, call)
  {
    hide Core, Running, NamesMatch, Called, Proper, ExactBut;
    var d' := Called(env, d, call).0;
    CallMoves(env, d, call);
    ExactIsExactBut(d.chains, Running(d));
    CallKeepsExactBut(env, d, call, {});
    ExactButNone(d'.chains, Running(d'), StaleAfter(env, d, {}, call));
  }

  /** A redeployment that reports success although its DeleteChain failed leaves the
      old rules in front of the new ones. */
  lemma SwallowedFailureKeepsOldRules(env: Env, d: Device, call: Call)
    requires ChainsExact(d) && call.Redeploy? && Proper(d, call) && Called(env, d, call).1
    requires ChainStays(env, d, call)
    ensures
      var old', d' := d.chains[call.pod.name], Called(env, d, call).0;
      && call.pod.name in d'.chains && d'.chains[call.pod.name] == old' + PortsOf(call.pod)
      && !ChainsExact(d')
  {
    hide Removal, Launch, Core, Running;
    CallKeepsChainsExactlyWhen(env, d, call);
    RemovalChains(env, d, call.pod.name);
    LaunchChains(env, Removal(env, d, call.pod.name).0, call.pod, call.dir, call.withAuth);
    assert d.chains[call.pod.name] + [] == d.chains[call.pod.name];
  }

  // ------------------------------------------------------------ a concrete case

  const WEB := Manifest("web", map[], Spec([[80]], ""), "")

  /** A device that runs one workload with port 80. */
  const WEB_DEVICE := Device(
    Table(map[PodId(0) := "web"], map["web" := PodId(0)]), map[PodId(0) := "web"], map[PodId(0) := Pod(WEB, None)],
    map["web" := [80]], Services({}, {}, {}, {}, false), map["web" := Files(Some(WEB), None)], map[], 1, 0, [])

  /** Only the fifth foreign call fails, which is the DeleteChain of a Remove. */
  const FIFTH_FAILS := Env(k => k == 4, all => [])

  lemma WebPorts()
    ensures PortsOf(WEB) == [80] && HostPorts(WEB.spec) == Some([80])
  {
    assert Flatten([[80]]) == [80] + Flatten([[80]][1..]);
    assert Flatten([]) == [] && [[80]][1..] == [];
  }

  lemma WebIsExact()
    ensures Core(WEB_DEVICE) && Running(WEB_DEVICE) == map["web" := Pod(WEB, None)]
    ensures ChainsExact(WEB_DEVICE) && Proper(WEB_DEVICE, Redeploy(WEB, "web", false))
  {
    WebPorts();
  }

  lemma WebIsRedeployed()
    ensures Called(FIFTH_FAILS, WEB_DEVICE, Redeploy(WEB, "web", false)).1
  {
    WebPorts();
    hide HostPorts, PodsWithout;
    var d1 := Removal(FIFTH_FAILS, WEB_DEVICE, "web").0;
    assert d1.clock == 6 && d1.dirs == WEB_DEVICE.dirs && d1.chains == WEB_DEVICE.chains;
    assert [80][1..] == [];
    assert RulesAdded(FIFTH_FAILS, 8, [80] + [80], [80][1..]).1;
    assert RulesAdded(FIFTH_FAILS, 7, [80], [80]).1;
    var d2 := Networked(FIFTH_FAILS, d1.(issued := d1.issued + [RunOp("web")]), "web", WEB.spec).0;
    assert d2.clock == 8 && d2.dirs == WEB_DEVICE.dirs;
  }

  /** Redeploying it while that call fails reports no error and leaves its rule
      twice. */
  lemma RuleIsDoubled()
    ensures
      var call := Redeploy(WEB, "web", false);
      var d' := Called(FIFTH_FAILS, WEB_DEVICE, call).0;
      && ChainsExact(WEB_DEVICE) && ErrorFree(FIFTH_FAILS, WEB_DEVICE, [call])
      && "web" in d'.chains && d'.chains["web"] == [80, 80] && !ChainsExact(d')
  {
    WebPorts();
    WebIsExact();
    WebIsRedeployed();
    hide Called, ChainsExact, PortsOf;
    SwallowedFailureKeepsOldRules(FIFTH_FAILS, WEB_DEVICE, Redeploy(WEB, "web", false));
  }
}
