/** The workload manager: brings the device toward a configuration. */
module Reconcile {
  import opened Options
  import opened WorkloadTable
  import opened WorkloadDevice

  datatype Workload = Workload(
    name: Name, labels: map<string, string>, spec: Option<Spec>, auth: string, configmaps: string)

  datatype Secret = Secret(name: string, data: string)

  datatype Config = Config(workloads: seq<Workload>, secrets: seq<Secret>)

  // ----------------------------------------------------- files of a workload

  /** The directory of a workload: spaces become dashes, so two names can share
      one. */
  function DirOf(name: Name): string {
    seq(|name|, i requires 0 <= i < |name| => if name[i] == ' ' then '-' else name[i])
  }

  const AUTO_UPDATE := "io.containers.autoupdate"
  const AUTH_LABEL := "io.containers.autoupdate.authfile"
  const UNIT_LABEL := "PODMAN_SYSTEMD_UNIT"

  predicate Contains(s: string, part: string) {
    exists i :: 0 <= i <= |s| && part <= s[i..]
  }

  /** The labels toPod gives a pod. toPod writes them into the label map of the
      configuration message itself. */
  function PodLabels(labels: map<string, string>, auth: string, name: Name): map<string, string> {
    var withAuth := if auth != "" then labels[AUTH_LABEL := DirOf(name) + "/auth.json"] else labels;
    if exists k :: k in withAuth && Contains(k, AUTO_UPDATE)
    then withAuth[UNIT_LABEL := "pod-" + name + "_pod.service"] else withAuth
  }

  /** Labelling a message that was labelled before changes nothing, so reusing
      the altered message yields the same manifest. */
  lemma PodLabelsIdempotent(labels: map<string, string>, auth: string, name: Name)
    ensures PodLabels(PodLabels(labels, auth, name), auth, name) == PodLabels(labels, auth, name)
  {
  }

  function ManifestOf(w: Workload): Manifest
    requires w.spec.Some?
  {
    Manifest(w.name, PodLabels(w.labels, w.auth, w.name), w.spec.value, w.configmaps)
  }

  function AuthOf(w: Workload): Option<string> {
    if w.auth == "" then None else Some(w.auth)
  }

  /** podModified and podAuthModified. */
  predicate Modified(d: Device, w: Workload)
    requires w.spec.Some?
  {
    var dir := DirOf(w.name);
    dir !in d.dirs || d.dirs[dir].manifest != Some(ManifestOf(w)) || AuthModified(d.dirs[dir].auth, w.auth)
  }

  predicate AuthModified(file: Option<string>, auth: string) {
    match file
    case None => auth != ""
    case Some(content) => content != auth
  }

  // ------------------------------------------------------------ one workload

  /** ensureWorkloadDirExists. */
  function DirEnsured(env: Env, d: Device, dir: string): (Device, bool) {
    if dir in d.dirs then (d, true)
    else if env.fault(d.clock) then (d.(clock := d.clock + 1), false)
    else (d.(dirs := d.dirs[dir := Files(None, None)], clock := d.clock + 1), true)
  }

  /** The manifest is stored first, then the auth file is stored or removed. */
  function FilesStored(env: Env, d: Device, dir: string, manifest: Manifest, auth: Option<string>): (Device, bool)
    requires dir in d.dirs
  {
    var c := d.clock;
    if env.fault(c) then (d.(clock := c + 2), false)
    else if env.fault(c + 1) then
      (d.(dirs := d.dirs[dir := Files(Some(manifest), d.dirs[dir].auth)], clock := c + 2), false)
    else (d.(dirs := d.dirs[dir := Files(Some(manifest), auth)], clock := c + 2), true)
  }

  function Replaced(env: Env, d: Device, w: Workload): (Device, bool)
    requires w.spec.Some? && DirOf(w.name) in d.dirs
  {
    var (d1, stored) := FilesStored(env, d, DirOf(w.name), ManifestOf(w), AuthOf(w));
    if !stored then (d1, false)
    else
      var (d2, removed) := Removal(env, d1, w.name);
      if !removed then (d2, false) else Launch(env, d2, ManifestOf(w), DirOf(w.name), w.auth != "")
  }

  /** One turn of the loop over the configured workloads; false means that an
      error was added to the result. */
  function Deploy(env: Env, d: Device, w: Workload): (Device, bool) {
    if w.spec.None? then (d, false)
    else
      var (d1, there) := DirEnsured(env, d, DirOf(w.name));
      if !there then (d1, false)
      else if !Modified(d1, w) then (d1, true)
      else Replaced(env, d1, w)
  }

  function DeployFrom(env: Env, d: Device, ws: seq<Workload>, k: nat): (r: (Device, int))
    requires k <= |ws|
    ensures 0 <= r.1
    decreases |ws| - k
  {
    if k == |ws| then (d, 0)
    else
      var (d1, ok) := Deploy(env, d, ws[k]);
      if Halted(d1) then (d1, 1)
      else
        var (d2, errors) := DeployFrom(env, d1, ws, k + 1);
        (d2, errors + if ok then 0 else 1)
  }

  // --------------------------------------------------------- stale workloads

  function Drop(env: Env, d: Device, name: Name): (Device, bool) {
    var c := d.clock;
    var d1 := if env.fault(c) then d.(clock := c + 1) else d.(dirs := d.dirs - {DirOf(name)}, clock := c + 1);
    var (d2, ok) := Removal(env, d1, name);
    (d2, ok && !env.fault(c))
  }

  function DropFrom(env: Env, d: Device, names: seq<Name>, keep: set<Name>, k: nat): (r: (Device, int))
    requires k <= |names|
    ensures 0 <= r.1
    decreases |names| - k
  {
    if k == |names| then (d, 0)
    else if names[k] in keep then DropFrom(env, d, names, keep, k + 1)
    else
      var (d1, ok) := Drop(env, d, names[k]);
      if Halted(d1) then (d1, 1)
      else
        var (d2, errors) := DropFrom(env, d1, names, keep, k + 1);
        (d2, errors + if ok then 0 else 1)
  }

  function ConfiguredNames(ws: seq<Workload>): set<Name> {
    set w | w in ws :: w.name
  }

  /** The part of Update after the secrets. */
  function Reconciled(env: Env, d: Device, ws: seq<Workload>): (r: (Device, int))
    ensures 0 <= r.1
  {
    var (d1, errors) := DeployFrom(env, d, ws, 0);
    var d2 := d1.(clock := d1.clock + 1);
    if Halted(d1) then (d1, errors)
    else if env.fault(d1.clock) then (d2, errors + 1)
    else
      var (d3, more) := DropFrom(env, d2, env.walk(ListedNames(d2)), ConfiguredNames(ws), 0);
      (d3, errors + more)
  }

  // ------------------------------------------------------------- consistency

  function RunningIn(t: Table, pods: map<PodId, Pod>): map<Name, Pod> {
    map n | n in t.ids && t.ids[n] in pods :: pods[t.ids[n]]
  }

  /** What runs under each workload name. */
  function Running(d: Device): map<Name, Pod> {
    RunningIn(d.table, d.pods)
  }

  /** Every pod is known under one name, every known pod exists. */
  ghost predicate Core(d: Device) {
    TablesInv(d) && d.pods.Keys == d.table.names.Keys
  }

  /** What runs is what the files say, and every manifest file belongs to a
      workload that runs. */
  ghost predicate FilesMatch(dirs: map<string, Files>, running: map<Name, Pod>) {
    && (forall n :: n in running ==>
          && running[n].manifest.name == n && running[n].auth != Some("")
          && DirOf(n) in dirs && dirs[DirOf(n)] == Files(Some(running[n].manifest), running[n].auth))
    && (forall dir :: dir in dirs && dirs[dir].manifest.Some? ==>
          dirs[dir].manifest.value.name in running && DirOf(dirs[dir].manifest.value.name) == dir)
  }

  /** The device as an error-free Update leaves it. */
  ghost predicate Consistent(d: Device) {
    !Halted(d) && Core(d) && FilesMatch(d.dirs, Running(d))
  }

  /** The pod that a configured workload should run as. */
  function PodFor(w: Workload): Pod
    requires w.spec.Some?
  {
    Pod(ManifestOf(w), AuthOf(w))
  }

  ghost predicate Deployed(d: Device, w: Workload) {
    w.spec.Some? && w.name in Running(d) && Running(d)[w.name] == PodFor(w)
  }

  /** No two names share a directory. */
  ghost predicate DistinctDirs(names: set<Name>) {
    forall a, b :: a in names && b in names && DirOf(a) == DirOf(b) ==> a == b
  }

  ghost predicate NamesMatch(running: map<Name, Pod>) {
    forall n :: n in running ==> running[n].manifest.name == n
  }

  /** Every pod is known under one name, its own. This survives every failure. */
  ghost predicate Sane(d: Device) {
    Core(d) && NamesMatch(Running(d))
  }

  lemma TablesAreInverse(d: Device)
    requires TablesInv(d)
    ensures Inverse(d.table) && PodId(d.nextId) !in d.table.names
  {
  }

  lemma PodsAfterRemoval(t: Table, pods: map<PodId, Pod>, name: Name)
    requires Inverse(t) && pods.Keys == t.names.Keys && NamesMatch(RunningIn(t, pods))
    ensures PodsLeft(t, pods, name).Keys == Removed(t, name).names.Keys
    ensures RunningIn(Removed(t, name), PodsLeft(t, pods, name)) == RunningIn(t, pods) - {name}
  {
    RemoveKeepsInverse(t, name);
    if name !in t.ids {
      assert forall i :: i in pods ==> t.names[i] in RunningIn(t, pods) && t.names[i] != name;
      assert PodsLeft(t, pods, name) == pods;
    }
  }

  lemma PodsAfterLaunch(t: Table, pods: map<PodId, Pod>, name: Name, id: PodId, pod: Pod)
    requires Inverse(t) && pods.Keys == t.names.Keys && id !in t.names && name !in t.ids
    ensures pods[id := pod].Keys == Added(t, name, id).names.Keys
    ensures RunningIn(Added(t, name, id), pods[id := pod]) == RunningIn(t, pods)[name := pod]
  {
  }

  /** A Remove, however it ends, leaves the pods as they are or without this one. */
  lemma RemovalKeepsSane(env: Env, d: Device, name: Name)
    requires Sane(d)
    ensures
      var d' := Removal(env, d, name).0;
      Sane(d') && (Running(d') == Running(d) || Running(d') == Running(d) - {name})
  {
    hide Removal, TablesOk, RunningIn, PodsLeft;
    RemovalFrame(env, d, name);
    RemovalKeepsTables(env, d, name);
    TablesAreInverse(d);
    PodsAfterRemoval(d.table, d.pods, name);
  }

  lemma RunningAfterRemoval(env: Env, d: Device, name: Name)
    requires Sane(d) && Removal(env, d, name).1
    ensures
      var d' := Removal(env, d, name).0;
      && Sane(d') && Running(d') == Running(d) - {name}
      && d'.dirs == d.dirs && d'.secrets == d.secrets && name !in d'.table.ids && Halted(d') == Halted(d)
  {
    hide Removal, TablesOk, RunningIn, PodsLeft;
    RemovalFrame(env, d, name);
    RemovalKeepsTables(env, d, name);
    TablesAreInverse(d);
    PodsAfterRemoval(d.table, d.pods, name);
    RemoveKeepsInverse(d.table, name);
  }

  function PodOf(files: Files, withAuth: bool): Pod
    requires files.manifest.Some?
  {
    Pod(files.manifest.value, if withAuth then files.auth else None)
  }

  /** A Run of a manifest that is stored, however it ends, leaves the pods as they
      are or with the new one. */
  lemma LaunchKeepsSane(env: Env, d: Device, pod: Manifest, dir: string, withAuth: bool)
    requires Sane(d) && pod.name !in d.table.ids
    requires dir in d.dirs && d.dirs[dir].manifest == Some(pod)
    ensures
      var d' := Launch(env, d, pod, dir, withAuth).0;
      Sane(d') && (Running(d') == Running(d) || Running(d') == Running(d)[pod.name := PodOf(d.dirs[dir], withAuth)])
  {
    hide Launch, TablesOk, RunningIn;
    LaunchFrame(env, d, pod, dir, withAuth);
    LaunchKeepsTables(env, d, pod, dir, withAuth);
    TablesAreInverse(d);
    PodsAfterLaunch(d.table, d.pods, pod.name, PodId(d.nextId), PodOf(d.dirs[dir], withAuth));
  }

  lemma RunningAfterLaunch(env: Env, d: Device, pod: Manifest, dir: string, withAuth: bool)
    requires Core(d) && pod.name !in d.table.ids && Launch(env, d, pod, dir, withAuth).1
    ensures
      var d' := Launch(env, d, pod, dir, withAuth).0;
      && dir in d.dirs && d.dirs[dir].manifest.Some?
      && Core(d') && d'.dirs == d.dirs && d'.secrets == d.secrets && Halted(d') == Halted(d)
      && Running(d') == Running(d)[pod.name := PodOf(d.dirs[dir], withAuth)]
  {
    hide Launch, TablesOk, RunningIn;
    LaunchFrame(env, d, pod, dir, withAuth);
    LaunchKeepsTables(env, d, pod, dir, withAuth);
    TablesAreInverse(d);
    PodsAfterLaunch(d.table, d.pods, pod.name, PodId(d.nextId), PodOf(d.dirs[dir], withAuth));
  }

  // --------------------------------------------------- files follow the pods

  lemma FilesFollowReplacement(dirs: map<string, Files>, running: map<Name, Pod>, pod: Pod)
    requires FilesMatch(dirs, running) && pod.auth != Some("")
    requires forall n :: n in running && DirOf(n) == DirOf(pod.manifest.name) ==> n == pod.manifest.name
    ensures FilesMatch(dirs[DirOf(pod.manifest.name) := Files(Some(pod.manifest), pod.auth)],
                       (running - {pod.manifest.name})[pod.manifest.name := pod])
  {
  }

  lemma FilesFollowDrop(dirs: map<string, Files>, running: map<Name, Pod>, name: Name)
    requires FilesMatch(dirs, running) && name in running
    ensures FilesMatch(dirs - {DirOf(name)}, running - {name})
  {
  }

  lemma FilesFollowNewDir(dirs: map<string, Files>, running: map<Name, Pod>, dir: string)
    requires FilesMatch(dirs, running) && dir !in dirs
    ensures FilesMatch(dirs[dir := Files(None, None)], running)
  {
  }

  // ----------------------------------------------------- one workload converges

  lemma SameRunning(d: Device, d': Device)
    requires d'.table == d.table && d'.pods == d.pods && d'.saved == d.saved && d'.nextId == d.nextId
    ensures Core(d) ==> Core(d')
    ensures Running(d') == Running(d)
  {
  }

  /** Once the files are stored, a Remove and a Run without error replace the pod
      of this workload and leave the others. */
  lemma ReplacedConverges(env: Env, d: Device, w: Workload)
    requires w.spec.Some? && DirOf(w.name) in d.dirs && Consistent(d) && Replaced(env, d, w).1
    requires forall n :: n in Running(d) && DirOf(n) == DirOf(w.name) ==> n == w.name
    ensures
      var d' := Replaced(env, d, w).0;
      Consistent(d') && Running(d') == (Running(d) - {w.name})[w.name := PodFor(w)] && d'.secrets == d.secrets
  {
    hide Removal, Launch, TablesOk, DirOf;
    var dir := DirOf(w.name);
    var d1 := FilesStored(env, d, dir, ManifestOf(w), AuthOf(w)).0;
    SameRunning(d, d1);
    FilesFollowReplacement(d.dirs, Running(d), PodFor(w));
    RunningAfterRemoval(env, d1, w.name);
    var d2 := Removal(env, d1, w.name).0;
    RunningAfterLaunch(env, d2, ManifestOf(w), dir, w.auth != "");
  }

  /** A turn of the deployment loop without error leaves this workload running
      as configured, the others as they were, and the device consistent. */
  lemma DeployConverges(env: Env, d: Device, w: Workload)
    requires Consistent(d) && Deploy(env, d, w).1
    requires forall n :: n in Running(d) && DirOf(n) == DirOf(w.name) ==> n == w.name
    ensures w.spec.Some?
    ensures
      var d' := Deploy(env, d, w).0;
      && Consistent(d') && d'.secrets == d.secrets
      && Running(d') == Running(d)[w.name := PodFor(w)]
  {
    hide Replaced, Consistent, Running, PodFor, DirOf, Modified;
    DirEnsuredConverges(env, d, DirOf(w.name));
    var d1 := DirEnsured(env, d, DirOf(w.name)).0;
    if Modified(d1, w) {
      ReplacedConverges(env, d1, w);
      assert (Running(d) - {w.name})[w.name := PodFor(w)] == Running(d)[w.name := PodFor(w)];
    } else {
      UnmodifiedRuns(d1, w);
      assert Running(d1)[w.name := PodFor(w)] == Running(d1);
    }
  }

  lemma DirEnsuredConverges(env: Env, d: Device, dir: string)
    requires Consistent(d)
    ensures
      var (d', ok) := DirEnsured(env, d, dir);
      Consistent(d') && Running(d') == Running(d) && d'.secrets == d.secrets && (ok ==> dir in d'.dirs)
  {
    hide Core, FilesMatch;
    SameRunning(d, DirEnsured(env, d, dir).0);
    if dir !in d.dirs {
      FilesFollowNewDir(d.dirs, Running(d), dir);
    }
  }

  /** On a consistent device, unmodified files mean that the workload runs. */
  lemma UnmodifiedRuns(d: Device, w: Workload)
    requires Consistent(d) && w.spec.Some? && DirOf(w.name) in d.dirs && !Modified(d, w)
    ensures w.name in Running(d) && Running(d)[w.name] == PodFor(w)
  {
  }

  lemma DropConverges(env: Env, d: Device, name: Name)
    requires Consistent(d) && name in Running(d) && Drop(env, d, name).1
    ensures
      var d' := Drop(env, d, name).0;
      Consistent(d') && d'.secrets == d.secrets && Running(d') == Running(d) - {name}
  {
    hide Removal, TablesOk, DirOf;
    var d1 := d.(dirs := d.dirs - {DirOf(name)}, clock := d.clock + 1);
    SameRunning(d, d1);
    FilesFollowDrop(d.dirs, Running(d), name);
    RunningAfterRemoval(env, d1, name);
  }

  // -------------------------------------------------------- the whole loops

  /** What should run after deploying the workloads from number k on. */
  function Desired(running: map<Name, Pod>, ws: seq<Workload>, k: nat): map<Name, Pod>
    requires k <= |ws| && forall w <- ws :: w.spec.Some?
    decreases |ws| - k
  {
    if k == |ws| then running else Desired(running[ws[k].name := PodFor(ws[k])], ws, k + 1)
  }

  ghost predicate DistinctNames(ws: seq<Workload>) {
    forall i, j :: 0 <= i < j < |ws| ==> ws[i].name != ws[j].name
  }

  lemma {:induction false} DesiredRuns(running: map<Name, Pod>, ws: seq<Workload>, k: nat)
    requires k <= |ws| && DistinctNames(ws) && forall w <- ws :: w.spec.Some?
    ensures forall i :: k <= i < |ws| ==>
      ws[i].name in Desired(running, ws, k) && Desired(running, ws, k)[ws[i].name] == PodFor(ws[i])
    ensures forall n :: n in running && (forall i :: k <= i < |ws| ==> ws[i].name != n) ==>
      n in Desired(running, ws, k) && Desired(running, ws, k)[n] == running[n]
    decreases |ws| - k
  {
    hide PodFor;
    if k < |ws| {
      DesiredRuns(running[ws[k].name := PodFor(ws[k])], ws, k + 1);
    }
  }

  lemma {:induction false} DeployLoopConverges(env: Env, d: Device, ws: seq<Workload>, k: nat)
    requires k <= |ws| && Consistent(d) && DeployFrom(env, d, ws, k).1 == 0
    requires DistinctDirs(Running(d).Keys + ConfiguredNames(ws))
    ensures forall i :: k <= i < |ws| ==> ws[i].spec.Some?
    ensures (forall w <- ws :: w.spec.Some?) ==>
      var d' := DeployFrom(env, d, ws, k).0;
      Consistent(d') && d'.secrets == d.secrets && Running(d') == Desired(Running(d), ws, k)
    decreases |ws| - k
  {
    hide Consistent, Deploy, Running, DirOf, PodFor;
    if k < |ws| {
      assert ws[k] in ws;
      DeployConverges(env, d, ws[k]);
      DeployLoopConverges(env, Deploy(env, d, ws[k]).0, ws, k + 1);
    }
  }

  ghost predicate Enumerates(names: seq<string>, all: set<string>) {
    && (forall x :: x in names <==> x in all)
    && forall i, j :: 0 <= i < j < |names| ==> names[i] != names[j]
  }

  ghost predicate ValidWalk(env: Env) {
    forall all: set<string> :: Enumerates(env.walk(all), all)
  }

  lemma {:induction false} DropLoopConverges(env: Env, d: Device, names: seq<Name>, keep: set<Name>, k: nat)
    requires k <= |names| && Consistent(d) && DropFrom(env, d, names, keep, k).1 == 0
    requires forall i, j :: 0 <= i < j < |names| ==> names[i] != names[j]
    requires forall i :: k <= i < |names| ==> names[i] in Running(d)
    ensures
      var d' := DropFrom(env, d, names, keep, k).0;
      && Consistent(d') && d'.secrets == d.secrets
      && Running(d') == Running(d) - set i | k <= i < |names| && names[i] !in keep :: names[i]
    decreases |names| - k
  {
    hide Consistent, Drop, Running;
    if k < |names| {
      var later := set i | k + 1 <= i < |names| && names[i] !in keep :: names[i];
      var now := set i | k <= i < |names| && names[i] !in keep :: names[i];
      if names[k] in keep {
        DropLoopConverges(env, d, names, keep, k + 1);
        assert now == later;
      } else {
        DropConverges(env, d, names[k]);
        var d1 := Drop(env, d, names[k]).0;
        DropLoopConverges(env, d1, names, keep, k + 1);
        assert now == later + {names[k]};
      }
    }
  }

  lemma ListedAreRunning(d: Device)
    requires Core(d)
    ensures ListedNames(d) == Running(d).Keys
  {
  }

  /** Convergence: from a consistent device, an Update that reports no error ends
      with exactly the configured workloads deployed, each running the configured
      manifest and credentials, which are the ones on disk, and the device is
      consistent again. Names must not share a directory. */
  lemma ReconcileConverges(env: Env, d: Device, ws: seq<Workload>)
    requires Consistent(d) && ValidWalk(env) && DistinctNames(ws)
    requires DistinctDirs(Running(d).Keys + ConfiguredNames(ws))
    requires Reconciled(env, d, ws).1 == 0
    ensures
      var d' := Reconciled(env, d, ws).0;
      && Consistent(d') && d'.secrets == d.secrets
      && Running(d').Keys == ConfiguredNames(ws)
      && forall w <- ws :: Deployed(d', w)
  {
    hide DeployFrom, DropFrom, Consistent, Running, Deployed, DistinctDirs, DistinctNames, ValidWalk, ListedNames;
    DeployPhase(env, d, ws);
    var d1 := DeployFrom(env, d, ws, 0).0;
    ConsistentIsAlive(d1);
    var d2 := d1.(clock := d1.clock + 1);
    TickKeeps(d1, d2, ws);
    DropPhase(env, d2, ws);
  }

  lemma ConsistentIsAlive(d: Device)
    requires Consistent(d)
    ensures !Halted(d)
  {
  }

  lemma TickKeeps(d: Device, d': Device, ws: seq<Workload>)
    requires d' == d.(clock := d'.clock) && Consistent(d) && forall w <- ws :: Deployed(d, w)
    ensures Consistent(d') && forall w <- ws :: Deployed(d', w)
  {
    hide Core, FilesMatch;
    SameRunning(d, d');
  }

  lemma DeployPhase(env: Env, d: Device, ws: seq<Workload>)
    requires Consistent(d) && DistinctNames(ws) && DistinctDirs(Running(d).Keys + ConfiguredNames(ws))
    requires DeployFrom(env, d, ws, 0).1 == 0
    ensures
      var d' := DeployFrom(env, d, ws, 0).0;
      Consistent(d') && d'.secrets == d.secrets && forall w <- ws :: Deployed(d', w)
  {
    hide DeployFrom, PodFor, Consistent, Running, DistinctDirs;
    DeployLoopConverges(env, d, ws, 0);
    DesiredRuns(Running(d), ws, 0);
  }

  lemma DropPhase(env: Env, d: Device, ws: seq<Workload>)
    requires Consistent(d) && ValidWalk(env) && forall w <- ws :: Deployed(d, w)
    requires DropFrom(env, d, env.walk(ListedNames(d)), ConfiguredNames(ws), 0).1 == 0
    ensures
      var d' := DropFrom(env, d, env.walk(ListedNames(d)), ConfiguredNames(ws), 0).0;
      && Consistent(d') && d'.secrets == d.secrets
      && Running(d').Keys == ConfiguredNames(ws)
      && forall w <- ws :: Deployed(d', w)
  {
    hide DropFrom, PodFor, Core, FilesMatch, Running, ListedNames;
    ListedAreRunning(d);
    var names := env.walk(ListedNames(d));
    assert Enumerates(names, Running(d).Keys);
    DropLoopConverges(env, d, names, ConfiguredNames(ws), 0);
    KeptAfterDrop(Running(d), names, ConfiguredNames(ws));
  }

  /** Dropping all listed names but those to keep. */
  lemma KeptAfterDrop(running: map<Name, Pod>, names: seq<Name>, keep: set<Name>)
    requires Enumerates(names, running.Keys)
    ensures
      var left := running - set i | 0 <= i < |names| && names[i] !in keep :: names[i];
      left.Keys == running.Keys * keep && forall n :: n in left ==> left[n] == running[n]
  {
    var dropped := set i | 0 <= i < |names| && names[i] !in keep :: names[i];
    forall n | n in running ensures n in dropped <==> n !in keep {
      var i :| 0 <= i < |names| && names[i] == n;
    }
  }

  // ------------------------------------------------- what a second Update does

  lemma DeployedIsUnmodified(d: Device, w: Workload)
    requires Consistent(d) && Deployed(d, w)
    ensures DirOf(w.name) in d.dirs && !Modified(d, w)
  {
  }

  ghost predicate AllUnmodified(d: Device, ws: seq<Workload>) {
    forall w <- ws :: w.spec.Some? && DirOf(w.name) in d.dirs && !Modified(d, w)
  }

  /** The loop over workloads whose files are as configured does nothing. */
  lemma {:induction false} UnmodifiedLoop(env: Env, d: Device, ws: seq<Workload>, k: nat)
    requires k <= |ws| && !Halted(d) && AllUnmodified(d, ws)
    ensures DeployFrom(env, d, ws, k) == (d, 0)
    decreases |ws| - k
  {
    hide Deploy, Modified, DirOf;
    if k < |ws| {
      assert ws[k] in ws;
      UnmodifiedIsNeverRun(env, d, ws[k]);
      UnmodifiedLoop(env, d, ws, k + 1);
    }
  }

  lemma DeployedAreUnmodified(d: Device, ws: seq<Workload>)
    requires Consistent(d) && forall w <- ws :: Deployed(d, w)
    ensures AllUnmodified(d, ws)
  {
    hide Consistent, Deployed, Modified, DirOf;
    forall w | w in ws ensures w.spec.Some? && DirOf(w.name) in d.dirs && !Modified(d, w) {
      DeployedHasSpec(d, w);
      DeployedIsUnmodified(d, w);
    }
  }

  lemma DeployedHasSpec(d: Device, w: Workload)
    requires Deployed(d, w)
    ensures w.spec.Some?
  {
  }

  lemma {:induction false} QuietDropLoop(env: Env, d: Device, names: seq<Name>, keep: set<Name>, k: nat)
    requires k <= |names| && forall n <- names :: n in keep
    ensures DropFrom(env, d, names, keep, k) == (d, 0)
    decreases |names| - k
  {
    if k < |names| {
      QuietDropLoop(env, d, names, keep, k + 1);
    }
  }

  /** A second Update with the same configuration, whatever fails during it,
      calls neither Remove nor Run of the wrapper. */
  lemma SecondUpdateIsQuiet(env: Env, d: Device, ws: seq<Workload>)
    requires Consistent(d) && ValidWalk(env) && Running(d).Keys == ConfiguredNames(ws)
    requires forall w <- ws :: Deployed(d, w)
    ensures Reconciled(env, d, ws).0.issued == d.issued
    ensures Running(Reconciled(env, d, ws).0) == Running(d)
  {
    hide DeployFrom, DropFrom, Deployed, FilesMatch, AllUnmodified;
    DeployedAreUnmodified(d, ws);
    UnmodifiedLoop(env, d, ws, 0);
    var d2 := d.(clock := d.clock + 1);
    SameRunning(d, d2);
    ListedAreRunning(d2);
    QuietDropLoop(env, d2, env.walk(ListedNames(d2)), ConfiguredNames(ws), 0);
  }

  /** Without consistency there is no convergence: the loop looks at the files
      only. A workload whose files are as configured is left alone whether or not
      it runs; so a Run that failed after its manifest was stored is not repeated
      by later Updates. */
  lemma UnmodifiedIsNeverRun(env: Env, d: Device, w: Workload)
    requires w.spec.Some? && DirOf(w.name) in d.dirs && !Modified(d, w)
    ensures Deploy(env, d, w) == (d, true)
  {
  }

  /** Exactly when a turn of the loop without error leaves the workload running as
      configured: when its files differ from the configuration, or it already
      runs that way. */
  lemma DeployWorksExactlyWhen(env: Env, d: Device, w: Workload)
    requires Core(d) && NamesMatch(Running(d)) && w.spec.Some? && Deploy(env, d, w).1
    ensures Deployed(Deploy(env, d, w).0, w) <==> Modified(d, w) || Deployed(d, w)
  {
    hide Replaced, Core, Running, NamesMatch, DirOf, ManifestOf;
    var dir := DirOf(w.name);
    var d1 := DirEnsured(env, d, dir).0;
    SameRunning(d, d1);
    if Modified(d1, w) {
      ReplacedRuns(env, d1, w);
    }
  }

  lemma ReplacedRuns(env: Env, d: Device, w: Workload)
    requires Core(d) && NamesMatch(Running(d)) && w.spec.Some? && DirOf(w.name) in d.dirs && Replaced(env, d, w).1
    ensures Deployed(Replaced(env, d, w).0, w)
  {
    hide Removal, Launch, Core, Running, NamesMatch, DirOf, ManifestOf;
    var dir := DirOf(w.name);
    var d1 := FilesStored(env, d, dir, ManifestOf(w), AuthOf(w)).0;
    SameRunning(d, d1);
    RunningAfterRemoval(env, d1, w.name);
    var d2 := Removal(env, d1, w.name).0;
    ManifestHasName(w);
    RunningAfterLaunch(env, d2, ManifestOf(w), dir, w.auth != "");
  }

  lemma ManifestHasName(w: Workload)
    requires w.spec.Some?
    ensures ManifestOf(w).name == w.name
  {
  }

  /** Storing the files ends in one of three ways: nothing is stored, the manifest is and
      the credentials are as they were, or both are. */
  lemma StoringOutcomes(env: Env, d: Device, dir: string, manifest: Manifest, auth: Option<string>)
    requires dir in d.dirs
    ensures
      var (d', ok) := FilesStored(env, d, dir, manifest, auth);
      && d' == d.(dirs := d'.dirs, clock := d'.clock)
      && (if env.fault(d.clock) then !ok && d'.dirs == d.dirs
          else if env.fault(d.clock + 1) then !ok && d'.dirs == d.dirs[dir := Files(Some(manifest), d.dirs[dir].auth)]
          else ok && d'.dirs == d.dirs[dir := Files(Some(manifest), auth)])
  {
  }

  /** Dropping goes on when the directory cannot be deleted, and reports it. */
  lemma DropOutcomes(env: Env, d: Device, name: Name)
    ensures
      var (d', ok) := Drop(env, d, name);
      && d'.dirs == (if env.fault(d.clock) then d.dirs else d.dirs - {DirOf(name)})
      && d'.issued == d.issued + [RemoveOp(name)]
      && (env.fault(d.clock) ==> !ok)
  {
    hide Removal, DirOf;
    var c := d.clock;
    var d1 := if env.fault(c) then d.(clock := c + 1) else d.(dirs := d.dirs - {DirOf(name)}, clock := c + 1);
    RemovalFrame(env, d1, name);
  }

  /** A directory that cannot be made is not there, and the turn fails. */
  lemma EnsuringOutcomes(env: Env, d: Device, dir: string)
    ensures
      var (d', ok) := DirEnsured(env, d, dir);
      && d' == d.(dirs := d'.dirs, clock := d'.clock) && (ok <==> dir in d'.dirs)
      && (dir in d.dirs ==> d' == d) && (dir !in d.dirs ==> (ok <==> !env.fault(d.clock)))
      && d'.dirs - {dir} == d.dirs - {dir} && (dir !in d.dirs && ok ==> d'.dirs[dir] == Files(None, None))
  {
  }

  /** A turn that replaces a workload: its files stay as storing left them, whatever comes
      after, and when storing fails nothing but the files has changed. */
  lemma ReplacingOutcomes(env: Env, d: Device, w: Workload)
    requires w.spec.Some? && DirOf(w.name) in d.dirs
    ensures
      var (d', ok) := Replaced(env, d, w);
      var dir, c := DirOf(w.name), d.clock;
      && (env.fault(c) || env.fault(c + 1) ==> !ok && d' == d.(dirs := d'.dirs, clock := d'.clock))
      && (!env.fault(c) && !env.fault(c + 1) ==> RemoveOp(w.name) in d'.issued)
      && d'.dirs == if env.fault(c) then d.dirs
                    else d.dirs[dir := Files(Some(ManifestOf(w)),
                                             if env.fault(c + 1) then d.dirs[dir].auth else AuthOf(w))]
  {
    hide Removal, Launch, DirOf, ManifestOf;
    var d1 := FilesStored(env, d, DirOf(w.name), ManifestOf(w), AuthOf(w)).0;
    RemovalFrame(env, d1, w.name);
    LaunchFrame(env, Removal(env, d1, w.name).0, ManifestOf(w), DirOf(w.name), w.auth != "");
  }
}
