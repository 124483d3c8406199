/** The table of pending playbooks: modification time to stored path and back,
    mirrored in a file. A stored path stands for the content it is hashed from. */
module PlaybookTable {
  type Path = string

  /** A modification time, in nanoseconds. */
  datatype ModTime = ModTime(nanos: int)

  const NO_TIME := ModTime(0)

  /** modTimeToPath and pathToModTime. */
  datatype Table = Table(paths: map<ModTime, Path>, times: map<Path, ModTime>)

  datatype Entry = Entry(modTime: ModTime, path: Path)

  const EMPTY := Table(map[], map[])

  function Added(t: Table, path: Path, modTime: ModTime): Table {
    Table(t.paths[modTime := path], t.times[path := modTime])
  }

  /** A path without a time reads as time 0, the zero value of the Go map. */
  function TimeOf(t: Table, path: Path): ModTime {
    if path in t.times then t.times[path] else NO_TIME
  }

  function Removed(t: Table, path: Path): Table {
    Table(t.paths - {TimeOf(t, path)}, t.times - {path})
  }

  /** The two maps agree: a recorded time leads back to its path. A path may be
      under more times than the recorded one. */
  ghost predicate Valid(t: Table) {
    && NO_TIME !in t.paths
    && forall p :: p in t.times ==> t.times[p] in t.paths && t.paths[t.times[p]] == p
  }

  function Times(paths: map<ModTime, Path>, p: Path): set<ModTime> {
    set m | m in paths && paths[m] == p
  }

  /** How many entries lead to a path. */
  function Count(paths: map<ModTime, Path>, p: Path): nat {
    |Times(paths, p)|
  }

  /** The entry at this time leads to another path. */
  predicate Overwrites(t: Table, path: Path, modTime: ModTime) {
    modTime in t.paths && t.paths[modTime] != path
  }

  /** How many entries with path p an Add brings or costs. The added path gains one,
      unless it is already there under that time; the path that was there under that
      time loses one. */
  function Gain(t: Table, path: Path, modTime: ModTime, p: Path): int {
    if p == path then (if modTime in t.paths && t.paths[modTime] == path then 0 else 1)
    else if modTime in t.paths && t.paths[modTime] == p then -1
    else 0
  }

  lemma TimesAfterAdd(t: Table, path: Path, modTime: ModTime, p: Path)
    ensures Times(Added(t, path, modTime).paths, p)
         == if p == path then Times(t.paths, p) + {modTime} else Times(t.paths, p) - {modTime}
    ensures modTime in Times(t.paths, p) <==> modTime in t.paths && t.paths[modTime] == p
  {
  }

  lemma SizeWith(times: set<ModTime>, m: ModTime)
    ensures |times + {m}| == |times| + if m in times then 0 else 1
    ensures |times - {m}| == |times| - if m in times then 1 else 0
  {
    if m in times {
      assert times + {m} == times;
    } else {
      assert times - {m} == times;
    }
  }

  /** The exact effect of an Add on the entries of every path. */
  lemma AddCounts(t: Table, path: Path, modTime: ModTime, p: Path)
    ensures Count(Added(t, path, modTime).paths, p) == Count(t.paths, p) + Gain(t, path, modTime, p)
  {
    TimesAfterAdd(t, path, modTime, p);
    SizeWith(Times(t.paths, p), modTime);
    hide Times;
  }

  /** The two maps stay in agreement if and only if the time is not zero and was not
      the recorded time of another path. */
  lemma AddKeepsValidExactlyWhen(t: Table, path: Path, modTime: ModTime)
    requires Valid(t)
    ensures Valid(Added(t, path, modTime)) <==>
              modTime != NO_TIME && !(Overwrites(t, path, modTime) && TimeOf(t, t.paths[modTime]) == modTime)
  {
    var t' := Added(t, path, modTime);
    if Overwrites(t, path, modTime) && TimeOf(t, t.paths[modTime]) == modTime && modTime != NO_TIME {
      assert t'.times[t.paths[modTime]] == modTime;
    }
  }

  /** A removal drops at most one entry, of the removed path only: none when the
      path has no recorded time. */
  lemma RemoveCounts(t: Table, path: Path, p: Path)
    requires Valid(t)
    ensures Valid(Removed(t, path))
    ensures Count(Removed(t, path).paths, p)
         == Count(t.paths, p) - if p == path && path in t.times then 1 else 0
  {
    var m := TimeOf(t, path);
    var paths' := Removed(t, path).paths;
    if p == path && path in t.times {
      assert Times(paths', p) == Times(t.paths, p) - {m};
      assert m in Times(t.paths, p);
    } else {
      assert Times(paths', p) == Times(t.paths, p);
    }
  }

  lemma CountPositive(paths: map<ModTime, Path>, p: Path)
    ensures Count(paths, p) > 0 <==> p in paths.Values
  {
    if p in paths.Values {
      var m :| m in paths && paths[m] == p;
      assert m in Times(paths, p);
    } else {
      assert Times(paths, p) == {};
    }
  }

  /** Without distinct times an Add wipes out another playbook's entry: the check and
      the Add of an executor are two steps, so two executors with equal times can both
      pass the check. Whatever the table, the first playbook then has no entry more
      than before it was added. */
  lemma EqualTimesLoseAnEntry(t: Table, a: Path, b: Path, m: ModTime)
    requires Valid(t) && m != NO_TIME && m !in t.paths && a != b
    ensures Count(Added(t, a, m).paths, a) == Count(t.paths, a) + 1
    ensures Count(Added(Added(t, a, m), b, m).paths, a) == Count(t.paths, a)
    ensures !Valid(Added(Added(t, a, m), b, m))
  {
    AddCounts(t, a, m, a);
    AddCounts(Added(t, a, m), b, m, a);
    AddKeepsValidExactlyWhen(t, a, m);
    AddKeepsValidExactlyWhen(Added(t, a, m), b, m);
  }

  // ------------------------------------------------------ the file's list

  /** A list that holds every entry of a map once, in any order. */
  ghost predicate IsListing(list: seq<Entry>, paths: map<ModTime, Path>) {
    && (forall i, j :: 0 <= i < j < |list| ==> list[i].modTime != list[j].modTime)
    && (forall e :: e in list <==> e.modTime in paths && paths[e.modTime] == e.path)
  }

  /** What NewMappingRepository builds from the list: later entries win. */
  function Loaded(list: seq<Entry>): Table
    decreases |list|
  {
    if list == [] then EMPTY
    else
      var last := |list| - 1;
      Added(Loaded(list[..last]), list[last].path, list[last].modTime)
  }

  /** Every stored path has a time. */
  ghost predicate Full(t: Table) {
    Valid(t) && forall m :: m in t.paths ==> t.paths[m] in t.times
  }

  lemma {:induction false} LoadedPaths(list: seq<Entry>)
    requires forall i, j :: 0 <= i < j < |list| ==> list[i].modTime != list[j].modTime
    ensures forall i :: 0 <= i < |list| ==>
      list[i].modTime in Loaded(list).paths && Loaded(list).paths[list[i].modTime] == list[i].path
    ensures forall m :: m in Loaded(list).paths ==> exists i :: 0 <= i < |list| && list[i].modTime == m
    decreases |list|
  {
    if list != [] {
      LoadedPaths(list[..|list| - 1]);
    }
  }

  lemma {:induction false} LoadedFull(list: seq<Entry>)
    requires forall i, j :: 0 <= i < j < |list| ==> list[i].modTime != list[j].modTime
    requires forall i :: 0 <= i < |list| ==> list[i].modTime != NO_TIME
    ensures Full(Loaded(list))
    decreases |list|
  {
    if list != [] {
      var last := |list| - 1;
      LoadedFull(list[..last]);
      LoadedPaths(list[..last]);
      AddKeepsValidExactlyWhen(Loaded(list[..last]), list[last].path, list[last].modTime);
    }
  }

  /** Reloading the file gives back every entry, whatever order the list has;
      each path gets a time, one of those it is stored under. */
  lemma ReloadKeepsEntries(list: seq<Entry>, paths: map<ModTime, Path>)
    requires IsListing(list, paths) && NO_TIME !in paths
    ensures Loaded(list).paths == paths && Full(Loaded(list))
  {
    hide Loaded;
    LoadedPaths(list);
    LoadedFull(list);
    var t := Loaded(list);
    forall m
      ensures m in paths ==> m in t.paths && t.paths[m] == paths[m]
      ensures m in t.paths ==> m in paths
    {
      if m in paths {
        assert Entry(m, paths[m]) in list;
      }
      if m in t.paths {
        var i :| 0 <= i < |list| && list[i].modTime == m;
        assert list[i] in list;
      }
    }
  }

  // -------------------------------------------------------- the operations

  predicate Ascending(keys: seq<ModTime>) {
    forall i, j :: 0 <= i < j < |keys| ==> keys[i].nanos < keys[j].nanos
  }

  /** Puts a key where it belongs in an ascending list. */
  method InsertKey(keys: seq<ModTime>, k: ModTime) returns (r: seq<ModTime>)
    requires Ascending(keys) && k !in keys
    ensures Ascending(r)
    ensures forall x :: x in r <==> x == k || x in keys
    ensures |r| == |keys| + 1
  {
    var i := |keys|;
    while i > 0 && keys[i - 1].nanos > k.nanos
      invariant 0 <= i <= |keys|
      invariant forall j :: i <= j < |keys| ==> keys[j].nanos > k.nanos
    {
      i := i - 1;
    }
    assert i > 0 ==> keys[i - 1] != k;
    r := InsertedAt(keys, k, i);
  }

  function InsertedAt(keys: seq<ModTime>, k: ModTime, i: nat): (r: seq<ModTime>)
    requires i <= |keys|
    ensures forall x :: x in r <==> x == k || x in keys
    ensures |r| == |keys| + 1 && r[i] == k
    ensures forall j :: 0 <= j < |r| ==> r[j] == if j < i then keys[j] else if j == i then k else keys[j - 1]
  {
    assert keys == keys[..i] + keys[i..];
    keys[..i] + [k] + keys[i..]
  }

  class Repository {
    var paths: map<ModTime, Path>
    var times: map<Path, ModTime>
    var file: seq<Entry>

    /** Reads the file of an earlier process. */
    constructor (file: seq<Entry>)
      ensures Value() == Loaded(file) && this.file == file
    {
      var ps: map<ModTime, Path>, ts: map<Path, ModTime> := map[], map[];
      var i := 0;
      while i < |file|
        invariant 0 <= i <= |file|
        invariant Table(ps, ts) == Loaded(file[..i])
      {
        assert file[..i + 1][..i] == file[..i];
        ps := ps[file[i].modTime := file[i].path];
        ts := ts[file[i].path := file[i].modTime];
        i := i + 1;
      }
      assert file[..i] == file;
      paths, times, this.file := ps, ts, file;
    }

    ghost function Value(): Table
      reads this
    {
      Table(paths, times)
    }

    /** Writes the list of entries, in the order the map is walked. */
    method Persist(fault: bool) returns (ok: bool)
      modifies this`file
      ensures ok == !fault
      ensures if ok then IsListing(file, paths) else file == old(file)
    {
      var list: seq<Entry> := [];
      var todo := paths.Keys;
      while todo != {}
        invariant todo <= paths.Keys
        invariant forall e :: e in list <==> e.modTime in paths.Keys - todo && paths[e.modTime] == e.path
        invariant forall i, j :: 0 <= i < j < |list| ==> list[i].modTime != list[j].modTime
        decreases |todo|
      {
        var m :| m in todo;
        assert forall e <- list :: e.modTime != m;
        list := list + [Entry(m, paths[m])];
        todo := todo - {m};
      }
      ok := !fault;
      if ok {
        file := list;
      }
    }

    method Add(path: Path, modTime: ModTime, writeFault: bool, persistFault: bool) returns (ok: bool)
      modifies this
      ensures ok == !(writeFault || persistFault)
      ensures Value() == if writeFault then old(Value()) else Added(old(Value()), path, modTime)
      ensures if ok then IsListing(file, paths) else file == old(file)
    {
      if writeFault {
        return false;
      }
      paths := paths[modTime := path];
      times := times[path := modTime];
      ok := Persist(persistFault);
    }

    method Remove(path: Path, persistFault: bool) returns (ok: bool)
      modifies this
      ensures ok == !persistFault
      ensures Value() == Removed(old(Value()), path)
      ensures if ok then IsListing(file, paths) else file == old(file)
    {
      var modTime := if path in times then times[path] else NO_TIME;
      paths := paths - {modTime};
      times := times - {path};
      ok := Persist(persistFault);
    }

    method Exists(modTime: ModTime) returns (found: bool)
      ensures found <==> modTime in paths
    {
      found := modTime in paths;
    }

    /** All stored paths, numbered 0, 1, 2, ... by increasing time. */
    method GetAll() returns (all: seq<Path>, ghost keys: seq<ModTime>)
      ensures |all| == |paths| && Enumerates(keys, all, paths)
      ensures forall p :: Occurrences(all, p) == Count(paths, p)
    {
      var sorted: seq<ModTime> := [];
      var todo := paths.Keys;
      while todo != {}
        invariant todo <= paths.Keys && |sorted| + |todo| == |paths.Keys|
        invariant Ascending(sorted)
        invariant forall m :: m in sorted <==> m in paths.Keys - todo
        decreases |todo|
      {
        var m :| m in todo;
        sorted := InsertKey(sorted, m);
        todo := todo - {m};
      }
      all := [];
      var i := 0;
      assert forall j :: 0 <= j < |sorted| ==> sorted[j] in sorted;
      while i < |sorted|
        invariant 0 <= i <= |sorted| && |all| == i
        invariant forall j :: 0 <= j < |sorted| ==> sorted[j] in paths
        invariant forall j :: 0 <= j < i ==> all[j] == paths[sorted[j]]
      {
        all := all + [paths[sorted[i]]];
        i := i + 1;
      }
      keys := sorted;
      forall p
        ensures Occurrences(all, p) == Count(paths, p)
      {
        WalkCounts(paths, keys, all, p);
      }
    }
  }

  lemma DropCount(paths: map<ModTime, Path>, k: ModTime, p: Path)
    requires k in paths
    ensures Count(paths, p) == Count(paths - {k}, p) + if paths[k] == p then 1 else 0
  {
    assert Times(paths - {k}, p) == Times(paths, p) - {k};
  }

  /** The keys are those of the map in ascending order, `all` their paths. */
  ghost predicate Enumerates(keys: seq<ModTime>, all: seq<Path>, paths: map<ModTime, Path>) {
    && |all| == |keys| && Ascending(keys)
    && (forall m :: m in keys <==> m in paths)
    && forall i :: 0 <= i < |keys| ==> keys[i] in paths && all[i] == paths[keys[i]]
  }

  lemma DropLast(keys: seq<ModTime>, all: seq<Path>, paths: map<ModTime, Path>, last: nat)
    requires Enumerates(keys, all, paths) && |keys| == last + 1
    ensures keys[last] in paths && |all| == last + 1 && all[last] == paths[keys[last]]
    ensures Enumerates(keys[..last], all[..last], paths - {keys[last]})
  {
  }

  function Occurrences(s: seq<Path>, p: Path): nat {
    if s == [] then 0
    else
      var last := |s| - 1;
      Occurrences(s[..last], p) + if s[last] == p then 1 else 0
  }

  /** Walking all times once meets a path as often as it has entries. */
  lemma {:induction false} WalkCounts(paths: map<ModTime, Path>, keys: seq<ModTime>, all: seq<Path>, p: Path)
    requires Enumerates(keys, all, paths)
    ensures Occurrences(all, p) == Count(paths, p)
    decreases |keys|
  {
    if keys == [] {
      assert all == [] && Times(paths, p) == {};
    } else {
      hide Enumerates, Count;
      var last := |keys| - 1;
      DropLast(keys, all, paths, last);
      DropCount(paths, keys[last], p);
      WalkCounts(paths - {keys[last]}, keys[..last], all[..last], p);
    }
  }
}
