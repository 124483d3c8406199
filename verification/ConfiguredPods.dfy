/** What "as configured" means, field by field: the manifest that is stored and run, its
    labels, and when two configurations of a workload are told apart. */
module ConfiguredPods {
  import opened Options
  import opened WorkloadTable
  import opened WorkloadDevice
  import opened Reconcile
  import opened DeviceSecrets
  import opened WorkloadManagement

  // --------------------------------------------------------------- directories

  /** Two names have one directory exactly when they differ in spaces and dashes only. */
  lemma SameDirExactlyWhen(a: Name, b: Name)
    ensures DirOf(a) == DirOf(b) <==>
              && |a| == |b|
              && forall i :: 0 <= i < |a| ==> a[i] == b[i] || (a[i] in {' ', '-'} && b[i] in {' ', '-'})
  {
    if |a| == |b| {
      forall i | 0 <= i < |a|
        ensures DirOf(a)[i] == DirOf(b)[i] <==> a[i] == b[i] || (a[i] in {' ', '-'} && b[i] in {' ', '-'})
      {
      }
      assert DirOf(a) == DirOf(b) <==> forall i :: 0 <= i < |a| ==> DirOf(a)[i] == DirOf(b)[i];
    }
  }

  // -------------------------------------------------------------------- labels

  lemma ContainsIs(s: string, part: string)
    ensures Contains(s, part) <==> exists a, b :: s == a + part + b
  {
    if Contains(s, part) {
      var i :| 0 <= i <= |s| && part <= s[i..];
      assert s == s[..i] + part + s[i + |part|..];
    }
    if a, b :| s == a + part + b {
      assert s[|a|..] == part + b;
    }
  }

  /** Some label asks for automatic updates. */
  ghost predicate AsksForUpdates(labels: map<string, string>) {
    exists k, a, b :: k in labels && k == a + "io.containers.autoupdate" + b
  }

  lemma AsksIs(labels: map<string, string>)
    ensures AsksForUpdates(labels) <==> exists k :: k in labels && Contains(k, AUTO_UPDATE)
  {
    if AsksForUpdates(labels) {
      var k, a, b :| k in labels && k == a + "io.containers.autoupdate" + b;
      ContainsIs(k, AUTO_UPDATE);
    }
    if k :| k in labels && Contains(k, AUTO_UPDATE) {
      ContainsIs(k, AUTO_UPDATE);
      var a, b :| k == a + AUTO_UPDATE + b;
    }
  }

  /** The labels of a pod: those of the workload, with the path of its credentials
      exactly when it has some, and with its unit exactly when it has credentials or one
      of its labels asks for automatic updates. */
  lemma LabelsAre(w: Workload)
    ensures
      var labels := PodLabels(w.labels, w.auth, w.name);
      var file, unit := "io.containers.autoupdate.authfile", "PODMAN_SYSTEMD_UNIT";
      && (forall k :: k != file && k != unit ==>
            (k in labels <==> k in w.labels) && (k in labels ==> labels[k] == w.labels[k]))
      && (w.auth != "" ==> file in labels && labels[file] == DirOf(w.name) + "/auth.json")
      && (w.auth == "" ==>
            (file in labels <==> file in w.labels) && (file in labels ==> labels[file] == w.labels[file]))
      && (w.auth != "" || AsksForUpdates(w.labels) ==>
            unit in labels && labels[unit] == "pod-" + w.name + "_pod.service")
      && (w.auth == "" && !AsksForUpdates(w.labels) ==> labels == w.labels)
  {
    AsksIs(w.labels);
    assert AUTH_LABEL == [] + AUTO_UPDATE + ".authfile";
    ContainsIs(AUTH_LABEL, AUTO_UPDATE);
    hide Contains, DirOf;
    if w.auth != "" {
      var with := w.labels[AUTH_LABEL := DirOf(w.name) + "/auth.json"];
      assert AUTH_LABEL in with;
    }
  }

  // ------------------------------------------------------ the stored configuration

  /** Files that are as configured tell the specification, the configmaps and the
      credentials of a workload: a changed configuration is never taken as unmodified. */
  lemma UnmodifiedTellsConfiguration(d: Device, a: Workload, b: Workload)
    requires a.name == b.name && a.spec.Some? && b.spec.Some? && DirOf(a.name) in d.dirs
    requires !Modified(d, a) && !Modified(d, b)
    ensures a.spec == b.spec && a.configmaps == b.configmaps && a.auth == b.auth
  {
    hide DirOf, PodLabels;
  }

  /** What runs under a name, and what its files hold, is this workload in all fields. */
  ghost predicate RunsAs(d: Device, w: Workload) {
    && w.spec.Some? && w.name in Running(d)
    && var pod := Running(d)[w.name];
       && pod.manifest.name == w.name && pod.manifest.spec == w.spec.value && pod.manifest.configmaps == w.configmaps
       && pod.manifest.labels == PodLabels(w.labels, w.auth, w.name)
       && pod.auth == (if w.auth == "" then None else Some(w.auth))
       && DirOf(w.name) in d.dirs && d.dirs[DirOf(w.name)] == Files(Some(pod.manifest), pod.auth)
  }

  lemma DeployedRunsAs(d: Device, w: Workload)
    requires Consistent(d) && Deployed(d, w)
    ensures RunsAs(d, w)
  {
    hide Core, DirOf, PodLabels, RunningIn;
  }

  /** From a consistent device, an Update that reports no error leaves every configured
      workload running with its specification, its configmaps, its labels (see
      LabelsAre) and its credentials, and the same in its files. */
  lemma UpdateRunsWhatIsConfigured(env: Env, d: Device, config: Config)
    requires Consistent(d) && ValidWalk(env) && DistinctNames(config.workloads)
    requires DistinctDirs(Running(d).Keys + ConfiguredNames(config.workloads))
    requires Updated(env, d, config).1 == 0
    ensures forall w <- config.workloads :: RunsAs(Updated(env, d, config).0, w)
  {
    hide Updated, Consistent, Running, Deployed, DistinctDirs, RunsAs, ValidWalk;
    UpdateConverges(env, env, d, config);
    var d' := Updated(env, d, config).0;
    forall w | w in config.workloads ensures RunsAs(d', w) {
      DeployedRunsAs(d', w);
    }
  }
}
