/** Bringing the secrets on the device to the configured ones. */
module DeviceSecrets {
  import opened WorkloadDevice
  import opened Reconcile

  /** Replacing a secret removes it first; a failure in between loses it. */
  function SecretReplaced(env: Env, d: Device, s: Secret): (Device, bool) {
    var c := d.clock;
    if env.fault(c) || s.name !in d.secrets then (d.(clock := c + 2), false)
    else if env.fault(c + 1) then (d.(secrets := d.secrets - {s.name}, clock := c + 2), false)
    else (d.(secrets := (d.secrets - {s.name})[s.name := s.data], clock := c + 2), true)
  }

  /** podman refuses a name that is in use. */
  function SecretCreated(env: Env, d: Device, s: Secret): (Device, bool) {
    if env.fault(d.clock) || s.name in d.secrets then (d.(clock := d.clock + 1), false)
    else (d.(secrets := d.secrets[s.name := s.data], clock := d.clock + 1), true)
  }

  function SecretRemoved(env: Env, d: Device, name: string): (Device, bool) {
    if env.fault(d.clock) || name !in d.secrets then (d.(clock := d.clock + 1), false)
    else (d.(secrets := d.secrets - {name}, clock := d.clock + 1), true)
  }

  datatype Progress = Progress(device: Device, left: set<string>, errors: int)

  /** The loop over the configured secrets; `left` are the names found on the
      device that the configuration has not mentioned yet. */
  function SecretsFrom(env: Env, d: Device, secrets: seq<Secret>, left: set<string>, k: nat): (r: Progress)
    requires k <= |secrets|
    ensures 0 <= r.errors
    decreases |secrets| - k
  {
    if k == |secrets| then Progress(d, left, 0)
    else
      var s := secrets[k];
      var (d1, ok) := if s.name in left then SecretReplaced(env, d, s) else SecretCreated(env, d, s);
      var r := SecretsFrom(env, d1, secrets, left - {s.name}, k + 1);
      r.(errors := r.errors + if ok then 0 else 1)
  }

  function RemoveFrom(env: Env, d: Device, names: seq<string>, k: nat): (r: (Device, int))
    requires k <= |names|
    ensures 0 <= r.1
    decreases |names| - k
  {
    if k == |names| then (d, 0)
    else
      var (d1, ok) := SecretRemoved(env, d, names[k]);
      var (d2, errors) := RemoveFrom(env, d1, names, k + 1);
      (d2, errors + if ok then 0 else 1)
  }

  function SecretsUpdated(env: Env, d: Device, secrets: seq<Secret>): (r: (Device, int))
    ensures 0 <= r.1
  {
    var d0 := d.(clock := d.clock + 1);
    if env.fault(d.clock) then (d0, 1)
    else
      var p := SecretsFrom(env, d0, secrets, d0.secrets.Keys, 0);
      var (d2, errors) := RemoveFrom(env, p.device, env.walk(p.left), 0);
      (d2, p.errors + errors)
  }

  // ----------------------------------------------------------------- results

  /** The first k configured secrets are on the device, with their data; all
      other names on it are still to be looked at. */
  ghost predicate Placed(d: Device, secrets: seq<Secret>, left: set<string>, k: nat)
    requires k <= |secrets|
  {
    && (forall i :: 0 <= i < k ==> secrets[i].name in d.secrets && d.secrets[secrets[i].name] == secrets[i].data
                                   && secrets[i].name !in left)
    && (forall n :: n in d.secrets <==> n in left || exists i :: 0 <= i < k && secrets[i].name == n)
  }

  lemma {:induction false} SecretsPlaced(env: Env, d: Device, secrets: seq<Secret>, left: set<string>, k: nat)
    requires k <= |secrets| && Placed(d, secrets, left, k)
    requires SecretsFrom(env, d, secrets, left, k).errors == 0
    ensures
      var r := SecretsFrom(env, d, secrets, left, k);
      Placed(r.device, secrets, r.left, |secrets|)
    decreases |secrets| - k
  {
    if k < |secrets| {
      var s := secrets[k];
      var (d1, ok) := if s.name in left then SecretReplaced(env, d, s) else SecretCreated(env, d, s);
      assert ok && d1.secrets == d.secrets[s.name := s.data];
      assert forall i :: 0 <= i < k ==> secrets[i].name != s.name;
      SecretsPlaced(env, d1, secrets, left - {s.name}, k + 1);
    }
  }

  lemma {:induction false} LeftoversRemoved(env: Env, d: Device, names: seq<string>, k: nat)
    requires k <= |names| && RemoveFrom(env, d, names, k).1 == 0
    ensures RemoveFrom(env, d, names, k).0.secrets == d.secrets - set i | k <= i < |names| :: names[i]
    decreases |names| - k
  {
    if k < |names| {
      var d1 := SecretRemoved(env, d, names[k]).0;
      LeftoversRemoved(env, d1, names, k + 1);
      assert (set i | k <= i < |names| :: names[i]) == (set i | k + 1 <= i < |names| :: names[i]) + {names[k]};
    }
  }

  /** An update of the secrets that reports no error leaves exactly the configured
      secrets on the device, each with its configured data. */
  lemma SecretsConverge(env: Env, d: Device, secrets: seq<Secret>)
    requires ValidWalk(env) && SecretsUpdated(env, d, secrets).1 == 0
    ensures
      var d' := SecretsUpdated(env, d, secrets).0;
      && (forall s <- secrets :: s.name in d'.secrets && d'.secrets[s.name] == s.data)
      && (forall n :: n in d'.secrets ==> exists s :: s in secrets && s.name == n)
  {
    hide SecretsFrom, RemoveFrom;
    var d0 := d.(clock := d.clock + 1);
    var p := SecretsFrom(env, d0, secrets, d0.secrets.Keys, 0);
    SecretsPlaced(env, d0, secrets, d0.secrets.Keys, 0);
    var names := env.walk(p.left);
    LeftoversRemoved(env, p.device, names, 0);
    assert Enumerates(names, p.left);
    assert (set i | 0 <= i < |names| :: names[i]) == p.left;
    var d' := SecretsUpdated(env, d, secrets).0;
    forall n | n in d'.secrets
      ensures exists s :: s in secrets && s.name == n
    {
      var i :| 0 <= i < |secrets| && secrets[i].name == n;
      assert secrets[i] in secrets;
    }
  }

  /** Secrets are all that is touched. */
  ghost predicate OnlySecrets(d: Device, d': Device) {
    d' == d.(secrets := d'.secrets, clock := d'.clock)
  }

  lemma {:induction false} SecretsFrame(env: Env, d: Device, secrets: seq<Secret>, left: set<string>, k: nat)
    requires k <= |secrets|
    ensures OnlySecrets(d, SecretsFrom(env, d, secrets, left, k).device)
    decreases |secrets| - k
  {
    if k < |secrets| {
      var s := secrets[k];
      var d1 := if s.name in left then SecretReplaced(env, d, s).0 else SecretCreated(env, d, s).0;
      assert OnlySecrets(d, d1);
      SecretsFrame(env, d1, secrets, left - {s.name}, k + 1);
    }
  }

  lemma {:induction false} RemoveFrame(env: Env, d: Device, names: seq<string>, k: nat)
    requires k <= |names|
    ensures OnlySecrets(d, RemoveFrom(env, d, names, k).0)
    decreases |names| - k
  {
    if k < |names| {
      RemoveFrame(env, SecretRemoved(env, d, names[k]).0, names, k + 1);
    }
  }

  lemma UpdateTouchesOnlySecrets(env: Env, d: Device, secrets: seq<Secret>)
    ensures OnlySecrets(d, SecretsUpdated(env, d, secrets).0)
  {
    hide SecretsFrom, RemoveFrom;
    var d0 := d.(clock := d.clock + 1);
    var p := SecretsFrom(env, d0, secrets, d0.secrets.Keys, 0);
    SecretsFrame(env, d0, secrets, d0.secrets.Keys, 0);
    RemoveFrame(env, p.device, env.walk(p.left), 0);
  }

  /** Replacing, creating and removing touch the secret they are about only. A replaced
      secret is lost when it was removed and could not be created again; what fails
      otherwise leaves it as it was. */
  lemma SecretOutcomes(env: Env, d: Device, s: Secret)
    ensures
      var (d', ok) := SecretReplaced(env, d, s);
      && d'.secrets - {s.name} == d.secrets - {s.name}
      && (ok ==> s.name in d'.secrets && d'.secrets[s.name] == s.data)
      && (!ok && s.name in d.secrets && !env.fault(d.clock) ==> s.name !in d'.secrets)
      && (env.fault(d.clock) ==> !ok && d'.secrets == d.secrets)
    ensures
      var (d', ok) := SecretCreated(env, d, s);
      && (ok <==> !env.fault(d.clock) && s.name !in d.secrets)
      && d'.secrets == (if ok then d.secrets[s.name := s.data] else d.secrets)
    ensures
      var (d', ok) := SecretRemoved(env, d, s.name);
      && (ok <==> !env.fault(d.clock) && s.name in d.secrets)
      && d'.secrets == (if ok then d.secrets - {s.name} else d.secrets)
  {
  }
}
