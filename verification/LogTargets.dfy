/** The log transports of a device and the writers that feed them. */
module LogTargets {

  /** A writer created for a workload; `serial` tells writers apart and `buffer`
      is the buffer of the transport it was given. */
  datatype Writer = Writer(serial: nat, workload: string, targetName: string, buffer: nat)

  /** `buffers` and `made` count the transports and writers created so far,
      `loops` holds the transports whose loop is running, and `stopped` the writers
      on which Stop was called. */
  datatype Targets = Targets(
    transports: map<string, nat>,
    writers: map<string, Writer>,
    workloadsConfig: map<string, string>,
    buffers: nat,
    loops: set<nat>,
    made: nat,
    stopped: set<nat>)

  /** A configured log collection: a syslog server that can or cannot be set up,
      or a kind that is not known. */
  datatype Collection = Syslog(ok: bool) | OtherKind

  /** Log collections in the order the map is walked, and the workloads with the
      name of their log collection. */
  datatype Config = Config(collections: seq<(string, Collection)>, workloads: seq<(string, string)>)

  const NO_TARGETS := Targets(map[], map[], map[], 0, {}, 0, {})

  // ---------------------------------------------------------------- operations

  function WithoutTarget(writers: map<string, Writer>, name: string): map<string, Writer> {
    map k <- writers | writers[k].targetName != name :: writers[k]
  }

  function SerialsOf(writers: map<string, Writer>, name: string): set<nat> {
    set k <- writers | writers[k].targetName == name :: writers[k].serial
  }

  function DeleteTransport(t: Targets, name: string): Targets {
    t.(transports := t.transports - {name},
       writers := WithoutTarget(t.writers, name),
       stopped := t.stopped + SerialsOf(t.writers, name))
  }

  function WithoutWorkload(t: Targets, name: string): Targets {
    if name !in t.writers then t
    else t.(writers := t.writers - {name}, stopped := t.stopped + {t.writers[name].serial})
  }

  function WithStarted(t: Targets, name: string): Targets {
    var d := WithoutWorkload(t, name);
    if name !in d.workloadsConfig then d
    else
      var target := d.workloadsConfig[name];
      if target !in d.transports then d
      else d.(writers := d.writers[name := Writer(d.made, name, target, d.transports[target])], made := d.made + 1)
  }

  /** The transports set up from the first k collections. */
  function NewTransports(cs: seq<(string, Collection)>, k: nat, buffers: nat): (map<string, nat>, nat)
    requires k <= |cs|
  {
    if k == 0 then (map[], buffers)
    else
      var (transports, n) := NewTransports(cs, k - 1, buffers);
      if cs[k - 1].1 == Syslog(true) then (transports[cs[k - 1].0 := n], n + 1) else (transports, n)
  }

  /** Those of the names that are no longer kept are deleted. */
  function DeleteLeftovers(t: Targets, names: seq<string>, k: nat, kept: map<string, nat>): Targets
    requires k <= |names|
  {
    if k == 0 then t
    else
      var d := DeleteLeftovers(t, names, k - 1, kept);
      if names[k - 1] in kept then d else DeleteTransport(d, names[k - 1])
  }

  /** The log collection of each workload that names one. */
  function CollectionOf(ws: seq<(string, string)>, k: nat): map<string, string>
    requires k <= |ws|
  {
    if k == 0 then map[]
    else if ws[k - 1].1 == "" then CollectionOf(ws, k - 1)
    else CollectionOf(ws, k - 1)[ws[k - 1].0 := ws[k - 1].1]
  }

  predicate AtLeast(n: nat, from: nat) {
    n >= from
  }

  /** The transports from number `from` up to number `to`. */
  function Numbers(from: nat, to: nat): set<nat> {
    set n | 0 <= n < to && AtLeast(n, from)
  }

  /** Update; the names of the transports come in the order the map is walked. */
  function Updated(t: Targets, c: Config, names: seq<string>): Targets {
    var (transports, buffers) := NewTransports(c.collections, |c.collections|, t.buffers);
    DeleteLeftovers(t, names, |names|, transports)
    .(transports := transports, buffers := buffers, loops := t.loops + Numbers(t.buffers, buffers),
      workloadsConfig := CollectionOf(c.workloads, |c.workloads|))
  }

  // ----------------------------------------------------------------- invariant

  /** Each registered writer belongs to its workload, and its target is among
      these transports. */
  ghost predicate TargetsKnown(t: Targets, names: set<string>) {
    forall k :: k in t.writers ==> t.writers[k].workload == k && t.writers[k].targetName in names
  }

  /** The writers created and never stopped are exactly those registered, each
      under one name. */
  ghost predicate LiveIsRegistered(t: Targets) {
    && (forall k :: k in t.writers ==> t.writers[k].serial < t.made && t.writers[k].serial !in t.stopped)
    && (forall k, l :: k in t.writers && l in t.writers && t.writers[k].serial == t.writers[l].serial ==> k == l)
    && (forall n :: n in t.stopped ==> n < t.made)
    && (forall n: nat :: n < t.made && n !in t.stopped ==> Registered(t, n))
  }

  ghost predicate Registered(t: Targets, n: nat) {
    exists k :: k in t.writers && t.writers[k].serial == n
  }

  /** No writer has a buffer that does not exist yet. */
  ghost predicate BuffersMade(t: Targets) {
    && (forall k :: k in t.writers ==> t.writers[k].buffer < t.buffers)
    && (forall name :: name in t.transports ==> t.transports[name] < t.buffers)
  }

  ghost predicate Inv(t: Targets) {
    TargetsKnown(t, t.transports.Keys) && LiveIsRegistered(t) && BuffersMade(t)
  }

  lemma NoTargetsInv()
    ensures Inv(NO_TARGETS)
  {
  }

  lemma StillRegistered(t: Targets, d: Targets, n: nat)
    requires Registered(t, n)
    requires forall k :: k in t.writers && t.writers[k].serial == n ==> k in d.writers && d.writers[k] == t.writers[k]
    ensures Registered(d, n)
  {
  }

  lemma DeleteWorkloadKeepsInv(t: Targets, name: string)
    requires Inv(t)
    ensures Inv(WithoutWorkload(t, name))
  {
    var d := WithoutWorkload(t, name);
    forall n: nat | n < d.made && n !in d.stopped ensures Registered(d, n) {
      StillRegistered(t, d, n);
    }
  }

  lemma DeleteTransportKeeps(t: Targets, name: string, names: set<string>)
    requires LiveIsRegistered(t) && TargetsKnown(t, names)
    ensures LiveIsRegistered(DeleteTransport(t, name)) && TargetsKnown(DeleteTransport(t, name), names - {name})
  {
    var d := DeleteTransport(t, name);
    forall n: nat | n < d.made && n !in d.stopped ensures Registered(d, n) {
      StillRegistered(t, d, n);
    }
  }

  lemma RegisterKeepsLive(d: Targets, name: string, w: Writer)
    requires LiveIsRegistered(d) && name !in d.writers && w.serial == d.made
    ensures LiveIsRegistered(d.(writers := d.writers[name := w], made := d.made + 1))
  {
    var s := d.(writers := d.writers[name := w], made := d.made + 1);
    forall n: nat | n < s.made && n !in s.stopped ensures Registered(s, n) {
      if n == d.made {
        assert s.writers[name].serial == n;
      } else {
        StillRegistered(d, s, n);
      }
    }
  }

  lemma StartedKeepsInv(t: Targets, name: string)
    requires Inv(t)
    ensures Inv(WithStarted(t, name))
  {
    DeleteWorkloadKeepsInv(t, name);
    StartedIsLive(t, name);
    StartedIsKnown(t, name);
    hide LiveIsRegistered, TargetsKnown, BuffersMade, WithStarted, WithoutWorkload;
  }

  lemma StartedIsLive(t: Targets, name: string)
    requires LiveIsRegistered(WithoutWorkload(t, name))
    ensures LiveIsRegistered(WithStarted(t, name))
  {
    hide LiveIsRegistered;
    var d := WithoutWorkload(t, name);
    if name in d.workloadsConfig && d.workloadsConfig[name] in d.transports {
      var target := d.workloadsConfig[name];
      RegisterKeepsLive(d, name, Writer(d.made, name, target, d.transports[target]));
    }
  }

  lemma StartedIsKnown(t: Targets, name: string)
    requires TargetsKnown(t, t.transports.Keys) && BuffersMade(t)
    ensures TargetsKnown(WithStarted(t, name), WithStarted(t, name).transports.Keys)
    ensures BuffersMade(WithStarted(t, name))
  {
  }

  lemma {:induction false} TransportsAreNew(cs: seq<(string, Collection)>, k: nat, buffers: nat)
    requires k <= |cs|
    ensures
      var (transports, n) := NewTransports(cs, k, buffers);
      && n >= buffers
      && (forall name :: name in transports ==> buffers <= transports[name] < n)
      && (forall name :: name in transports <==> exists i :: 0 <= i < k && cs[i] == (name, Syslog(true)))
  {
    if k > 0 {
      TransportsAreNew(cs, k - 1, buffers);
      var (before, m) := NewTransports(cs, k - 1, buffers);
      var (transports, n) := NewTransports(cs, k, buffers);
      forall name ensures name in transports <==> exists i :: 0 <= i < k && cs[i] == (name, Syslog(true)) {
        if cs[k - 1] == (name, Syslog(true)) {
          assert name in transports;
        } else {
          assert name in transports <==> name in before;
        }
      }
    }
  }

  /** Only writers on deleted targets go, and nobody's buffer changes. */
  ghost predicate Fewer(t: Targets, d: Targets) {
    && d.made == t.made && d.buffers == t.buffers
    && (forall k :: k in d.writers ==> k in t.writers && d.writers[k] == t.writers[k])
  }

  lemma {:induction false} LeftoversKeep(t: Targets, names: seq<string>, k: nat, kept: map<string, nat>,
                                         all: set<string>)
    requires k <= |names| && LiveIsRegistered(t) && TargetsKnown(t, all)
    ensures
      var d := DeleteLeftovers(t, names, k, kept);
      && LiveIsRegistered(d) && Fewer(t, d)
      && TargetsKnown(d, set name <- all | name in kept || name !in names[..k])
      && (forall w :: w in t.writers && t.writers[w].targetName in kept ==> w in d.writers)
  {
    hide LiveIsRegistered;
    if k > 0 {
      LeftoversKeep(t, names, k - 1, kept, all);
      var e := DeleteLeftovers(t, names, k - 1, kept);
      var now := set name <- all | name in kept || name !in names[..k - 1];
      assert names[..k] == names[..k - 1] + [names[k - 1]];
      if names[k - 1] !in kept {
        DeleteTransportKeeps(e, names[k - 1], now);
      }
    }
  }

  /** Whether live writers are registered does not depend on the transports. */
  lemma LiveFrame(d: Targets, u: Targets)
    requires LiveIsRegistered(d) && u.writers == d.writers && u.made == d.made && u.stopped == d.stopped
    ensures LiveIsRegistered(u)
  {
    forall n: nat | n < u.made && n !in u.stopped ensures Registered(u, n) {
      StillRegistered(d, u, n);
    }
  }

  /** Update keeps the invariant. It drops exactly the writers whose target is
      not set up again; those it keeps stay as they were. */
  lemma UpdateDropsWriters(t: Targets, c: Config, names: seq<string>)
    requires TargetsKnown(t, t.transports.Keys) && LiveIsRegistered(t)
    requires Lists(names, t.transports)
    ensures
      var u := Updated(t, c, names);
      && LiveIsRegistered(u) && TargetsKnown(u, u.transports.Keys)
      && (forall k :: k in u.writers ==> k in t.writers && u.writers[k] == t.writers[k])
      && (forall k :: k in u.writers <==> k in t.writers && t.writers[k].targetName in u.transports)
  {
    hide NewTransports, CollectionOf, LiveIsRegistered;
    var transports := NewTransports(c.collections, |c.collections|, t.buffers).0;
    LeftoversKeep(t, names, |names|, transports, t.transports.Keys);
    hide DeleteLeftovers;
    LiveFrame(DeleteLeftovers(t, names, |names|, transports), Updated(t, c, names));
    assert names[..|names|] == names;
  }

  /** The current transports are the collections that could be set up, all with
      new buffers. */
  lemma UpdateReplacesTransports(t: Targets, c: Config, names: seq<string>)
    ensures
      var u := Updated(t, c, names);
      && u.buffers >= t.buffers
      && (forall name :: name in u.transports ==> t.buffers <= u.transports[name] < u.buffers)
      && (forall name :: name in u.transports <==>
            exists i :: 0 <= i < |c.collections| && c.collections[i] == (name, Syslog(true)))
  {
    TransportsAreNew(c.collections, |c.collections|, t.buffers);
    hide NewTransports, CollectionOf, DeleteLeftovers;
  }

  lemma UpdateKeepsInv(t: Targets, c: Config, names: seq<string>)
    requires Inv(t) && Lists(names, t.transports)
    ensures Inv(Updated(t, c, names))
  {
    UpdateDropsWriters(t, c, names);
    UpdateReplacesTransports(t, c, names);
    hide Updated, LiveIsRegistered, TargetsKnown;
  }

  // ---------------------------------------------------------------------- runs

  datatype Event = Update(config: Config, names: seq<string>) | Started(name: string) | Removed(name: string)

  function Step(t: Targets, e: Event): Targets {
    match e
    case Update(c, names) => Updated(t, c, names)
    case Started(name) => WithStarted(t, name)
    case Removed(name) => WithoutWorkload(t, name)
  }

  function Run(t0: Targets, events: seq<Event>, n: nat): Targets
    requires n <= |events|
  {
    if n == 0 then t0 else Step(Run(t0, events, n - 1), events[n - 1])
  }

  /** The names are those of the table. */
  ghost predicate Lists(names: seq<string>, transports: map<string, nat>) {
    forall name :: name in names <==> name in transports
  }

  /** Each Update walks the transports there are. */
  ghost predicate WalksAll(t0: Targets, events: seq<Event>, n: nat)
    requires n <= |events|
  {
    forall i :: 0 <= i < n && events[i].Update? ==> Lists(events[i].names, Run(t0, events, i).transports)
  }

  lemma WalksPrefix(t0: Targets, events: seq<Event>, n: nat)
    requires 0 < n <= |events| && WalksAll(t0, events, n)
    ensures WalksAll(t0, events, n - 1)
    ensures events[n - 1].Update? ==> Lists(events[n - 1].names, Run(t0, events, n - 1).transports)
  {
  }

  lemma {:induction false} RunKeepsInv(t0: Targets, events: seq<Event>, n: nat)
    requires Inv(t0) && n <= |events| && WalksAll(t0, events, n)
    ensures Inv(Run(t0, events, n))
  {
    if n > 0 {
      WalksPrefix(t0, events, n);
      hide Inv, WalksAll, Updated, WithStarted, WithoutWorkload;
      RunKeepsInv(t0, events, n - 1);
      var t := Run(t0, events, n - 1);
      match events[n - 1]
      case Update(c, names) => UpdateKeepsInv(t, c, names);
      case Started(name) => StartedKeepsInv(t, name);
      case Removed(name) => DeleteWorkloadKeepsInv(t, name);
    }
  }

  /** Over every sequence of calls the target of each registered writer is in the
      transport table, and the writers that were created and never stopped are
      exactly those registered. */
  lemma WritersMatchTransports(t0: Targets, events: seq<Event>, n: nat)
    requires Inv(t0) && n <= |events| && WalksAll(t0, events, n)
    ensures
      var t := Run(t0, events, n);
      && (forall k :: k in t.writers ==> t.writers[k].workload == k && t.writers[k].targetName in t.transports)
      && (forall w: nat :: w < t.made && w !in t.stopped <==> Registered(t, w))
  {
    RunKeepsInv(t0, events, n);
    var t := Run(t0, events, n);
    forall w: nat ensures w < t.made && w !in t.stopped <==> Registered(t, w) {
    }
  }

  // ----------------------------------------------------------- transport loops

  /** Two transports never share a buffer, and a loop runs for every buffer. */
  ghost predicate LoopsInv(t: Targets) {
    && t.loops == Numbers(0, t.buffers)
    && (forall name :: name in t.transports ==> t.transports[name] < t.buffers)
    && Injective(t.transports)
  }

  ghost predicate Injective(transports: map<string, nat>) {
    forall a, b :: a in transports && b in transports && transports[a] == transports[b] ==> a == b
  }

  lemma {:induction false} NewTransportsInjective(cs: seq<(string, Collection)>, k: nat, buffers: nat)
    requires k <= |cs|
    ensures Injective(NewTransports(cs, k, buffers).0)
  {
    if k > 0 {
      NewTransportsInjective(cs, k - 1, buffers);
      TransportsAreNew(cs, k - 1, buffers);
    }
  }

  lemma StepKeepsLoops(t: Targets, e: Event)
    requires LoopsInv(t)
    ensures LoopsInv(Step(t, e))
  {
    match e
    case Update(c, names) =>
      UpdateReplacesTransports(t, c, names);
      NewTransportsInjective(c.collections, |c.collections|, t.buffers);
      hide NewTransports, DeleteLeftovers, CollectionOf;
    case Started(name) =>
    case Removed(name) =>
  }

  lemma {:induction false} NumbersCount(n: nat)
    ensures |Numbers(0, n)| == n
  {
    if n > 0 {
      NumbersCount(n - 1);
      assert Numbers(0, n) == Numbers(0, n - 1) + {n - 1};
    }
  }

  lemma {:induction false} ValuesCount(transports: map<string, nat>)
    requires Injective(transports)
    ensures |transports.Values| == |transports|
    decreases |transports|
  {
    if transports == map[] {
      assert transports.Values == {};
    } else {
      var name :| name in transports;
      var rest := transports - {name};
      ValuesCount(rest);
      forall n | n in transports.Values ensures n == transports[name] || n in rest.Values {
        var other :| other in transports && transports[other] == n;
        assert other == name || (other in rest && rest[other] == n);
      }
      assert transports.Values == rest.Values + {transports[name]};
    }
  }

  lemma {:induction false} RunKeepsLoops(t0: Targets, events: seq<Event>, n: nat)
    requires LoopsInv(t0) && n <= |events|
    ensures LoopsInv(Run(t0, events, n))
  {
    if n > 0 {
      RunKeepsLoops(t0, events, n - 1);
      StepKeepsLoops(Run(t0, events, n - 1), events[n - 1]);
    }
  }

  /** Over every sequence of calls the loops that run are those of all transports
      ever set up; as many as were replaced or deleted feed on a buffer that no
      current transport has. */
  lemma LoopsAreNeverStopped(t0: Targets, events: seq<Event>, n: nat)
    requires LoopsInv(t0) && n <= |events|
    ensures
      var t := Run(t0, events, n);
      && t.loops == Numbers(0, t.buffers) && |t.loops| == t.buffers
      && t.transports.Values <= t.loops
      && |t.loops - t.transports.Values| == t.buffers - |t.transports|
  {
    RunKeepsLoops(t0, events, n);
    var t := Run(t0, events, n);
    NumbersCount(t.buffers);
    ValuesCount(t.transports);
    assert t.loops == (t.loops - t.transports.Values) + t.transports.Values;
  }

  // -------------------------------------------------------------- stale writers

  /** The writer feeds the transport that now has its target's name. */
  ghost predicate OnCurrentBuffer(t: Targets, k: string)
    requires k in t.writers
  {
    t.writers[k].targetName in t.transports && t.writers[k].buffer == t.transports[t.writers[k].targetName]
  }

  /** The workload was started again after the last Update. */
  predicate StartedSinceUpdate(events: seq<Event>, n: nat, k: string)
    requires n <= |events|
  {
    n > 0 && !events[n - 1].Update? && (events[n - 1] == Started(k) || StartedSinceUpdate(events, n - 1, k))
  }

  lemma UpdateLeavesStale(t: Targets, c: Config, names: seq<string>, k: string)
    requires Inv(t) && Lists(names, t.transports)
    requires k in Updated(t, c, names).writers
    ensures !OnCurrentBuffer(Updated(t, c, names), k)
  {
    UpdateDropsWriters(t, c, names);
    UpdateReplacesTransports(t, c, names);
    hide Updated, LiveIsRegistered;
  }

  lemma StartedIsCurrent(t: Targets, k: string)
    requires k in WithStarted(t, k).writers
    ensures OnCurrentBuffer(WithStarted(t, k), k)
  {
  }

  lemma OthersStay(t: Targets, name: string, k: string)
    ensures k in WithoutWorkload(t, name).writers ==> k != name && k in t.writers
    ensures k in t.writers && k != name ==>
              && k in WithoutWorkload(t, name).writers && k in WithStarted(t, name).writers
              && (OnCurrentBuffer(t, k) <==> OnCurrentBuffer(WithoutWorkload(t, name), k))
              && (OnCurrentBuffer(t, k) <==> OnCurrentBuffer(WithStarted(t, name), k))
    ensures k in WithStarted(t, name).writers && k != name ==> k in t.writers
  {
  }

  lemma CurrentStep(t: Targets, e: Event, k: string, since: bool)
    requires Inv(t) && (e.Update? ==> Lists(e.names, t.transports))
    requires k in Step(t, e).writers
    requires k in t.writers ==> (OnCurrentBuffer(t, k) <==> since)
    ensures e != Started(k) ==> k in t.writers
    ensures OnCurrentBuffer(Step(t, e), k) <==> !e.Update? && (e == Started(k) || since)
  {
    match e
    case Update(c, names) =>
      UpdateDropsWriters(t, c, names);
      UpdateLeavesStale(t, c, names, k);
    case Started(name) =>
      if name == k {
        StartedIsCurrent(t, k);
      } else {
        OthersStay(t, name, k);
      }
    case Removed(name) =>
      OthersStay(t, name, k);
  }

  /** A registered writer feeds a transport of the current configuration exactly
      when its workload was started since the last Update: an Update that keeps a
      target replaces the transport under its writers. */
  lemma {:induction false} CurrentExactlySinceUpdate(t0: Targets, events: seq<Event>, n: nat, k: string)
    requires Inv(t0) && t0.writers == map[] && n <= |events| && WalksAll(t0, events, n)
    requires k in Run(t0, events, n).writers
    ensures OnCurrentBuffer(Run(t0, events, n), k) <==> StartedSinceUpdate(events, n, k)
  {
    hide Inv, WalksAll, Step, OnCurrentBuffer, Lists;
    var t := Run(t0, events, n - 1);
    WalksPrefix(t0, events, n);
    RunKeepsInv(t0, events, n - 1);
    if k in t.writers {
      CurrentExactlySinceUpdate(t0, events, n - 1, k);
    }
    CurrentStep(t, events[n - 1], k, StartedSinceUpdate(events, n - 1, k));
  }

  // ------------------------------------------------------------------ the class

  /** The walk of a delete: writers of that target not among the keys to come are
      stopped and gone. */
  ghost predicate Walked(all: map<string, Writer>, was: set<nat>, keys: set<string>, name: string,
                         writers: map<string, Writer>, stopped: set<nat>) {
    && (forall k :: k in writers <==> k in all && (k in keys || all[k].targetName != name))
    && (forall k :: k in writers ==> writers[k] == all[k])
    && stopped == was + set k <- all | k !in keys && all[k].targetName == name :: all[k].serial
  }

  lemma NoneWalked(all: map<string, Writer>, was: set<nat>, name: string)
    ensures Walked(all, was, all.Keys, name, all, was)
  {
  }

  lemma WalkOne(all: map<string, Writer>, was: set<nat>, keys: set<string>, name: string, writers: map<string,
                Writer>, stopped: set<nat>, key: string)
    requires keys <= all.Keys && key in keys && Walked(all, was, keys, name, writers, stopped)
    ensures key in writers && writers[key] == all[key]
    ensures if all[key].targetName == name
            then Walked(all, was, keys - {key}, name, writers - {key}, stopped + {all[key].serial})
            else Walked(all, was, keys - {key}, name, writers, stopped)
  {
  }

  lemma AllWalked(all: map<string, Writer>, was: set<nat>, name: string, writers: map<string, Writer>,
                  stopped: set<nat>)
    requires Walked(all, was, {}, name, writers, stopped)
    ensures writers == WithoutTarget(all, name) && stopped == was + SerialsOf(all, name)
  {
  }

  lemma {:induction false} LeftoversIgnoreLoops(t: Targets, names: seq<string>, k: nat, kept: map<string, nat>,
                                                loops: set<nat>)
    requires k <= |names|
    ensures DeleteLeftovers(t.(loops := loops), names, k, kept) == DeleteLeftovers(t, names, k, kept).(loops := loops)
  {
    if k > 0 {
      LeftoversIgnoreLoops(t, names, k - 1, kept, loops);
    }
  }

  /** The loop over the configured workloads. */
  method CollectionOfWorkloads(ws: seq<(string, string)>) returns (wanted: map<string, string>)
    ensures wanted == CollectionOf(ws, |ws|)
  {
    wanted := map[];
    for k := 0 to |ws|
      invariant wanted == CollectionOf(ws, k)
    {
      if ws[k].1 != "" {
        wanted := wanted[ws[k].0 := ws[k].1];
      }
    }
  }

  class WorkloadsLogsTarget {
    var transports: map<string, nat>
    var wwriter: map<string, Writer>
    var workloadsConfig: map<string, string>
    var buffers: nat
    var loops: set<nat>
    var made: nat
    var stopped: set<nat>

    ghost function View(): Targets
      reads this
    {
      Targets(transports, wwriter, workloadsConfig, buffers, loops, made, stopped)
    }

    constructor ()
      ensures View() == NO_TARGETS
    {
      transports, wwriter, workloadsConfig := map[], map[], map[];
      buffers, loops, made, stopped := 0, {}, 0, {};
    }

    method DeleteTargetTransport(name: string)
      modifies this
      ensures View() == DeleteTransport(old(View()), name)
    {
      transports := transports - {name};
      StopWriters(name);
    }

    /** The loop over the registered writers. */
    method StopWriters(name: string)
      modifies this`wwriter, this`stopped
      ensures wwriter == WithoutTarget(old(wwriter), name)
      ensures stopped == old(stopped) + SerialsOf(old(wwriter), name)
    {
      var keys := wwriter.Keys;
      NoneWalked(wwriter, stopped, name);
      hide Walked, WithoutTarget, SerialsOf;
      while keys != {}
        invariant keys <= old(wwriter).Keys && Walked(old(wwriter), old(stopped), keys, name, wwriter, stopped)
        decreases |keys|
      {
        var key :| key in keys;
        WalkOne(old(wwriter), old(stopped), keys, name, wwriter, stopped, key);
        keys := keys - {key};
        StopWriter(key, name);
      }
      AllWalked(old(wwriter), old(stopped), name, wwriter, stopped);
    }

    method StopWriter(key: string, name: string)
      requires key in wwriter
      modifies this`wwriter, this`stopped
      ensures wwriter == if old(wwriter)[key].targetName == name then old(wwriter) - {key} else old(wwriter)
      ensures stopped == if old(wwriter)[key].targetName == name then old(stopped) + {old(wwriter)[key].serial}
                         else old(stopped)
    {
      var writer := wwriter[key];
      if writer.targetName != name {
        return;
      }
      stopped := stopped + {writer.serial};
      wwriter := wwriter - {key};
    }

    method DeleteWorkload(name: string)
      modifies this
      ensures View() == WithoutWorkload(old(View()), name)
    {
      if name in wwriter {
        stopped := stopped + {wwriter[name].serial};
        wwriter := wwriter - {name};
      }
    }

    method WorkloadRemoved(name: string)
      modifies this
      ensures View() == Step(old(View()), Removed(name))
    {
      DeleteWorkload(name);
    }

    method WorkloadStarted(name: string)
      modifies this
      ensures View() == Step(old(View()), Started(name))
    {
      DeleteWorkload(name);
      if name !in workloadsConfig {
        return;
      }
      var target := workloadsConfig[name];
      if target !in transports {
        return;
      }
      wwriter := wwriter[name := Writer(made, name, target, transports[target])];
      made := made + 1;
    }

    /** GetCurrentTransports, in some order. */
    method GetCurrentTransports() returns (names: seq<string>)
      ensures Lists(names, transports)
      ensures forall i, j :: 0 <= i < j < |names| ==> names[i] != names[j]
      ensures |names| == |transports|
    {
      names := [];
      var keys := transports.Keys;
      while keys != {}
        invariant keys <= transports.Keys && |names| + |keys| == |transports|
        invariant forall name :: name in names <==> name in transports && name !in keys
        invariant forall i, j :: 0 <= i < j < |names| ==> names[i] != names[j]
        decreases |keys|
      {
        var key :| key in keys;
        keys := keys - {key};
        names := names + [key];
      }
    }

    /** The loop over the configured collections: each that can be set up is a new
        transport, whose loop is started. */
    method StartTransports(cs: seq<(string, Collection)>) returns (current: map<string, nat>, n: nat)
      modifies this`loops
      ensures (current, n) == NewTransports(cs, |cs|, buffers) && n >= buffers
      ensures loops == old(loops) + Numbers(buffers, n)
    {
      current, n := map[], buffers;
      for k := 0 to |cs|
        invariant (current, n) == NewTransports(cs, k, buffers) && n >= buffers
        invariant loops == old(loops) + Numbers(buffers, n)
      {
        match cs[k].1 {
          case Syslog(ok) =>
            if ok {
              loops := loops + {n};
              current := current[cs[k].0 := n];
              n := n + 1;
            }
          case OtherKind =>
        }
      }
    }

    /** The loop over the transports there were. */
    method DeleteOldTransports(names: seq<string>, current: map<string, nat>)
      modifies this
      ensures View() == DeleteLeftovers(old(View()), names, |names|, current)
    {
      for k := 0 to |names|
        invariant View() == DeleteLeftovers(old(View()), names, k, current)
      {
        if names[k] !in current {
          DeleteTargetTransport(names[k]);
        }
      }
    }

    method Update(c: Config) returns (names: seq<string>)
      modifies this
      ensures Lists(names, old(transports)) && |names| == |old(transports)|
      ensures View() == Step(old(View()), Event.Update(c, names))
    {
      names := GetCurrentTransports();
      hide NewTransports, CollectionOf;
      var current, n := StartTransports(c.collections);
      LeftoversIgnoreLoops(old(View()), names, |names|, current, loops);
      DeleteOldTransports(names, current);
      hide DeleteLeftovers;
      transports, buffers := current, n;
      workloadsConfig := CollectionOfWorkloads(c.workloads);
    }

    /** Init: an Update, then every running workload is started; `listed` is the
        answer of the workload manager, which may be an error. */
    method Init(c: Config, listed: Listed) returns (ok: bool, ghost events: seq<Event>)
      modifies this
      ensures ok == listed.Running?
      ensures |events| == 1 + (if ok then |listed.names| else 0)
      ensures events[0].Update? && events[0].config == c
      ensures Lists(events[0].names, old(transports))
      ensures forall i :: 1 <= i < |events| ==> events[i] == Started(listed.names[i - 1])
      ensures View() == Run(old(View()), events, |events|)
    {
      hide Updated, WithStarted;
      ghost var t0 := View();
      var names := Update(c);
      events := [Event.Update(c, names)];
      assert Run(t0, events, 0) == t0;
      hide Step;
      if listed.ListFailed? {
        return false, events;
      }
      ok := true;
      for k := 0 to |listed.names|
        invariant |events| == 1 + k && events[0] == Event.Update(c, names)
        invariant forall i :: 1 <= i < |events| ==> events[i] == Started(listed.names[i - 1])
        invariant View() == Run(t0, events, |events|)
      {
        RunPrefix(t0, events, [Started(listed.names[k])], |events|);
        WorkloadStarted(listed.names[k]);
        events := events + [Started(listed.names[k])];
      }
    }
  }

  datatype Listed = ListFailed | Running(names: seq<string>)

  lemma {:induction false} RunPrefix(t0: Targets, a: seq<Event>, b: seq<Event>, n: nat)
    requires n <= |a|
    ensures Run(t0, a + b, n) == Run(t0, a, n)
  {
    if n > 0 {
      RunPrefix(t0, a, b, n - 1);
    }
  }

  // ------------------------------------------------- which workload gets a writer

  /** Workload i of the list names a log collection. */
  predicate Names(ws: seq<(string, string)>, i: int, workload: string, collection: string) {
    0 <= i < |ws| && ws[i] == (workload, collection) && collection != ""
  }

  /** The table has a workload exactly when it names a log collection, and then the one
      it names last. */
  lemma {:induction false} CollectionOfIs(ws: seq<(string, string)>, k: nat, workload: string)
    requires k <= |ws|
    ensures workload in CollectionOf(ws, k) <==> exists i, c :: i < k && Names(ws, i, workload, c)
    ensures workload in CollectionOf(ws, k) ==>
      exists i :: i < k && Names(ws, i, workload, CollectionOf(ws, k)[workload])
        && forall j, c :: i < j < k ==> !Names(ws, j, workload, c)
  {
    if k > 0 {
      CollectionOfIs(ws, k - 1, workload);
      var before, now := CollectionOf(ws, k - 1), CollectionOf(ws, k);
      if ws[k - 1].0 == workload && ws[k - 1].1 != "" {
        assert Names(ws, k - 1, workload, ws[k - 1].1);
      } else {
        if workload in now {
          var i :| i < k - 1 && Names(ws, i, workload, before[workload])
            && forall j, c :: i < j < k - 1 ==> !Names(ws, j, workload, c);
          assert forall j, c :: i < j < k ==> !Names(ws, j, workload, c);
        }
      }
    }
  }

  /** The configuration of the last Update among the first n calls. */
  function LastConfig(events: seq<Event>, n: nat): Config
    requires n <= |events|
  {
    if n == 0 then Config([], [])
    else
      match events[n - 1]
      case Update(c, _) => c
      case _ => LastConfig(events, n - 1)
  }

  /** A log collection of the configuration is a syslog server that could be set up. */
  ghost predicate SetUp(c: Config, collection: string) {
    exists i :: 0 <= i < |c.collections| && c.collections[i] == (collection, Syslog(true))
  }

  /** Tables follow the last configuration. */
  ghost predicate Follows(t: Targets, c: Config) {
    && t.workloadsConfig == CollectionOf(c.workloads, |c.workloads|)
    && forall name :: name in t.transports <==> SetUp(c, name)
  }

  lemma {:induction false} RunFollows(events: seq<Event>, n: nat)
    requires n <= |events|
    ensures Follows(Run(NO_TARGETS, events, n), LastConfig(events, n))
  {
    if n > 0 {
      RunFollows(events, n - 1);
      match events[n - 1]
      case Update(c, names) =>
        UpdateReplacesTransports(Run(NO_TARGETS, events, n - 1), c, names);
        hide NewTransports, DeleteLeftovers, CollectionOf;
      case Started(_) =>
      case Removed(_) =>
    }
  }

  /** The log collection that a configuration gives a workload: the last one named. */
  ghost predicate Wants(c: Config, workload: string, collection: string) {
    exists i :: Names(c.workloads, i, workload, collection)
      && forall j, other :: i < j ==> !Names(c.workloads, j, workload, other)
  }

  lemma TableIsWanted(c: Config, workload: string, collection: string)
    ensures
      var table := CollectionOf(c.workloads, |c.workloads|);
      Wants(c, workload, collection) <==> workload in table && table[workload] == collection
  {
    hide CollectionOf;
    var ws, table := c.workloads, CollectionOf(c.workloads, |c.workloads|);
    CollectionOfIs(ws, |ws|, workload);
    if workload in table {
      var i :| i < |ws| && Names(ws, i, workload, table[workload])
        && forall j, other :: i < j < |ws| ==> !Names(ws, j, workload, other);
      assert forall j, other :: i < j ==> !Names(ws, j, workload, other);
      if Wants(c, workload, collection) {
        var k :| Names(ws, k, workload, collection) && forall j, other :: k < j ==> !Names(ws, j, workload, other);
        assert !(i < k) && !(k < i);
      }
    }
  }

  /** Right after a workload was started, over every sequence of calls: it has a writer
      with this target exactly when the last Update gave it that log collection and the
      collection could be set up; the writer is a new one, on the current buffer. */
  lemma StartedWriterExactlyWhen(events: seq<Event>, n: nat, workload: string, collection: string)
    requires n < |events| && events[n] == Started(workload)
    ensures
      var t, c := Run(NO_TARGETS, events, n + 1), LastConfig(events, n);
      (workload in t.writers && t.writers[workload].targetName == collection
       && collection in t.transports && t.writers[workload].buffer == t.transports[collection])
      <==> Wants(c, workload, collection) && SetUp(c, collection)
    ensures
      var t := Run(NO_TARGETS, events, n + 1);
      workload in t.writers ==> exists collection :: Wants(LastConfig(events, n), workload, collection)
                                                     && t.writers[workload].targetName == collection
  {
    hide CollectionOf, Wants, SetUp, Names;
    RunFollows(events, n);
    TableIsWanted(LastConfig(events, n), workload, collection);
    var t := Run(NO_TARGETS, events, n + 1);
    if workload in t.writers {
      TableIsWanted(LastConfig(events, n), workload, t.writers[workload].targetName);
    }
  }
}
