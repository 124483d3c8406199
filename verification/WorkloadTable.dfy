/** The table of deployed workloads: pod id to workload name and back, mirrored
    in a file. */
module WorkloadTable {
  import opened Options

  type Name = string

  /** A pod id as podman hands it out; never an empty string, never a name. */
  datatype PodId = PodId(number: nat)

  datatype Table = Table(names: map<PodId, Name>, ids: map<Name, PodId>)

  datatype Entry = Entry(id: PodId, name: Name)

  const EMPTY := Table(map[], map[])

  function GetName(t: Table, id: PodId): Option<Name> {
    if id in t.names then Some(t.names[id]) else None
  }

  function Added(t: Table, name: Name, id: PodId): Table {
    Table(t.names[id := name], t.ids[name := id])
  }

  function Removed(t: Table, name: Name): Table {
    Table(if name in t.ids then t.names - {t.ids[name]} else t.names, t.ids - {name})
  }

  /** The two maps are inverse to each other. */
  ghost predicate Inverse(t: Table) {
    && (forall n :: n in t.ids ==> t.ids[n] in t.names && t.names[t.ids[n]] == n)
    && (forall i :: i in t.names ==> t.names[i] in t.ids && t.ids[t.names[i]] == i)
  }

  lemma RemoveKeepsInverse(t: Table, name: Name)
    requires Inverse(t)
    ensures Inverse(Removed(t, name)) && name !in Removed(t, name).ids
    ensures Removed(t, name).names.Keys == t.names.Keys - if name in t.ids then {t.ids[name]} else {}
    ensures Removed(t, name).ids.Keys == t.ids.Keys - {name}
  {
  }

  /** Adding keeps the maps inverse exactly when it does not leave a stale
      partner behind: neither the name nor the id is tied to something else. */
  lemma AddKeepsInverse(t: Table, name: Name, id: PodId)
    requires Inverse(t)
    ensures Inverse(Added(t, name, id))
       <==> (name in t.ids ==> t.ids[name] == id) && (id in t.names ==> t.names[id] == name)
  {
    var t' := Added(t, name, id);
    if name in t.ids && t.ids[name] != id {
      assert t'.names[t.ids[name]] == name;
    }
    if id in t.names && t.names[id] != name {
      assert t'.ids[t.names[id]] == id;
    }
  }

  // ------------------------------------------------------- the file's list

  ghost predicate IsListing(list: seq<Entry>, names: map<PodId, Name>) {
    && (forall i, j :: 0 <= i < j < |list| ==> list[i].id != list[j].id)
    && (forall e :: e in list <==> e.id in names && names[e.id] == e.name)
  }

  function Loaded(list: seq<Entry>): Table
    decreases |list|
  {
    if list == [] then EMPTY
    else
      var last := |list| - 1;
      Added(Loaded(list[..last]), list[last].name, list[last].id)
  }

  lemma {:induction false} LoadedMembers(list: seq<Entry>, t: Table)
    requires Inverse(t) && forall e :: e in list ==> e.id in t.names && t.names[e.id] == e.name
    ensures forall i :: i in Loaded(list).names ==> i in t.names && Loaded(list).names[i] == t.names[i]
    ensures forall n :: n in Loaded(list).ids ==> n in t.ids && Loaded(list).ids[n] == t.ids[n]
    ensures forall e :: e in list ==> e.id in Loaded(list).names && e.name in Loaded(list).ids
    decreases |list|
  {
    if list != [] {
      var last := |list| - 1;
      assert list == list[..last] + [list[last]];
      assert list[last] in list;
      LoadedMembers(list[..last], t);
    }
  }

  /** The persisted list of an inverse table reloads to the same two maps,
      whatever order the list has. */
  lemma ReloadGivesSameTable(list: seq<Entry>, t: Table)
    requires Inverse(t) && IsListing(list, t.names)
    ensures Loaded(list) == t
  {
    hide Loaded;
    LoadedMembers(list, t);
    forall i | i in t.names
      ensures i in Loaded(list).names && t.names[i] in Loaded(list).ids
    {
      assert Entry(i, t.names[i]) in list;
    }
    assert Loaded(list).names == t.names;
    assert Loaded(list).ids == t.ids;
  }

  // --------------------------------------------------------- the operations

  class Repository {
    var names: map<PodId, Name>
    var ids: map<Name, PodId>
    var file: seq<Entry>

    constructor (file: seq<Entry>)
      ensures Value() == Loaded(file) && this.file == file
    {
      var ns: map<PodId, Name>, ps: map<Name, PodId> := map[], map[];
      var i := 0;
      while i < |file|
        invariant 0 <= i <= |file|
        invariant Table(ns, ps) == Loaded(file[..i])
      {
        assert file[..i + 1][..i] == file[..i];
        ns := ns[file[i].id := file[i].name];
        ps := ps[file[i].name := file[i].id];
        i := i + 1;
      }
      assert file[..i] == file;
      names, ids, this.file := ns, ps, file;
    }

    ghost function Value(): Table
      reads this
    {
      Table(names, ids)
    }

    method Persist(fault: bool) returns (ok: bool)
      modifies this`file
      ensures ok == !fault
      ensures if ok then IsListing(file, names) else file == old(file)
    {
      var list: seq<Entry> := [];
      var todo := names.Keys;
      while todo != {}
        invariant todo <= names.Keys
        invariant forall e :: e in list <==> e.id in names.Keys - todo && names[e.id] == e.name
        invariant forall i, j :: 0 <= i < j < |list| ==> list[i].id != list[j].id
        decreases |todo|
      {
        var k :| k in todo;
        assert forall e <- list :: e.id != k;
        list := list + [Entry(k, names[k])];
        todo := todo - {k};
      }
      ok := !fault;
      if ok {
        file := list;
      }
    }

    method Add(name: Name, id: PodId, fault: bool) returns (ok: bool)
      modifies this
      ensures ok == !fault && Value() == Added(old(Value()), name, id)
      ensures if ok then IsListing(file, names) else file == old(file)
    {
      names := names[id := name];
      ids := ids[name := id];
      ok := Persist(fault);
    }

    method Remove(name: Name, fault: bool) returns (ok: bool)
      modifies this
      ensures ok == !fault && Value() == Removed(old(Value()), name)
      ensures if ok then IsListing(file, names) else file == old(file)
    {
      if name in ids {
        names := names - {ids[name]};
      }
      ids := ids - {name};
      ok := Persist(fault);
    }
  }
}
