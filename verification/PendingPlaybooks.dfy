/** Running the playbooks that an earlier process left in the table. */
module PendingPlaybooks {
  import opened PlaybookTable

  /** How running one pending playbook ends: its file or its results cannot be
      read, or the results are there, whether or not the run itself failed. */
  datatype Outcome = Unreadable | Unparsed | Parsed(runFailed: bool, persistFault: bool)

  /** Outcome of the k-th run of a pass. */
  type Outcomes = nat -> Outcome

  datatype Pass = Pass(table: Table, disk: map<ModTime, Path>, handled: nat)

  /** The pass from item k on: every item whose results are there is removed from
      the table; the first other item ends the pass. */
  function PassFrom(t: Table, disk: map<ModTime, Path>, list: seq<Path>, outcome: Outcomes, k: nat): (r: Pass)
    requires k <= |list|
    ensures k <= r.handled <= |list|
    decreases |list| - k
  {
    if k == |list| || !outcome(k).Parsed? then Pass(t, disk, k)
    else
      var t' := Removed(t, list[k]);
      PassFrom(t', if outcome(k).persistFault then disk else t'.paths, list, outcome, k + 1)
  }

  /** A list that meets every path as often as it has entries: the values of
      GetAll, walked in any order. */
  ghost predicate IsWalk(list: seq<Path>, paths: map<ModTime, Path>) {
    forall p :: Occurrences(list, p) == Count(paths, p)
  }

  ghost predicate OneToOne(paths: map<ModTime, Path>) {
    forall m, m' :: m in paths && m' in paths && paths[m] == paths[m'] ==> m == m'
  }

  lemma OneToOneCounts(paths: map<ModTime, Path>, p: Path)
    requires OneToOne(paths)
    ensures Count(paths, p) <= 1
  {
    var ms := Times(paths, p);
    if m :| m in ms {
      assert ms == {m};
    }
  }

  lemma TwoEntriesCount(paths: map<ModTime, Path>, m: ModTime, m': ModTime)
    requires m in paths && m' in paths && m != m' && paths[m] == paths[m']
    ensures Count(paths, paths[m]) >= 2
  {
    assert {m, m'} <= Times(paths, paths[m]);
    assert |{m, m'}| == 2;
    assert Times(paths, paths[m]) == {m, m'} + (Times(paths, paths[m]) - {m, m'});
  }

  lemma {:induction false} OccurrencesPositive(s: seq<Path>, p: Path)
    ensures Occurrences(s, p) > 0 <==> p in s
  {
    if s != [] {
      var last := |s| - 1;
      OccurrencesPositive(s[..last], p);
      assert s == s[..last] + [s[last]];
    }
  }

  /** A repeated item is counted twice. */
  lemma {:induction false} RepeatedOccurrences(s: seq<Path>, i: nat, j: nat)
    requires i < j < |s| && s[i] == s[j]
    ensures Occurrences(s, s[i]) >= 2
  {
    var last := |s| - 1;
    if j < last {
      RepeatedOccurrences(s[..last], i, j);
    } else {
      OccurrencesPositive(s[..last], s[i]);
      assert s[..last][i] == s[i];
    }
  }

  lemma SliceHead(list: seq<Path>, k: nat, h: nat)
    requires k < h <= |list|
    ensures list[k..h] == [list[k]] + list[k + 1..h]
  {
  }

  /** However often a path is run in one pass, it loses at most one entry. */
  lemma {:induction false} PassCounts(t: Table, disk: map<ModTime, Path>, list: seq<Path>, outcome: Outcomes, k: nat,
                                      p: Path)
    requires k <= |list| && Valid(t)
    ensures
      var r := PassFrom(t, disk, list, outcome, k);
      && Valid(r.table)
      && Count(r.table.paths, p) == Count(t.paths, p) - if p in t.times && p in list[k..r.handled] then 1 else 0
    decreases |list| - k
  {
    if k < |list| && outcome(k).Parsed? {
      var t' := Removed(t, list[k]);
      var disk' := if outcome(k).persistFault then disk else t'.paths;
      RemoveCounts(t, list[k], p);
      PassCounts(t', disk', list, outcome, k + 1, p);
      var h := PassFrom(t, disk, list, outcome, k).handled;
      SliceHead(list, k, h);
    }
  }

  /** When every stored path has one entry, a pass runs no playbook twice, in
      whatever order the list is walked, and what it leaves in the table is
      exactly what it did not get results from. */
  lemma EachPlaybookRunsOnce(t: Table, disk: map<ModTime, Path>, list: seq<Path>, outcome: Outcomes)
    requires Full(t) && IsWalk(list, t.paths) && OneToOne(t.paths)
    ensures forall i, j :: 0 <= i < j < |list| ==> list[i] != list[j]
    ensures
      var r := PassFrom(t, disk, list, outcome, 0);
      forall p :: p in r.table.paths.Values <==> p in list[r.handled..]
  {
    forall i, j | 0 <= i < j < |list|
      ensures list[i] != list[j]
    {
      if list[i] == list[j] {
        RepeatedOccurrences(list, i, j);
        OneToOneCounts(t.paths, list[i]);
      }
    }
    var r := PassFrom(t, disk, list, outcome, 0);
    assert list == list[..r.handled] + list[r.handled..];
    forall p
      ensures p in r.table.paths.Values <==> p in list[r.handled..]
    {
      PassCounts(t, disk, list, outcome, 0, p);
      OneToOneCounts(t.paths, p);
      OccurrencesPositive(list, p);
      CountPositive(t.paths, p);
      CountPositive(r.table.paths, p);
    }
  }

  /** A pass that gets through the whole list leaves the table empty exactly
      when every stored path had one entry. A path stored twice is run twice and
      keeps an entry, so it is run again after the next restart. */
  lemma FullPassEmptiesTable(t: Table, disk: map<ModTime, Path>, list: seq<Path>, outcome: Outcomes)
    requires Full(t) && IsWalk(list, t.paths)
    requires PassFrom(t, disk, list, outcome, 0).handled == |list|
    ensures PassFrom(t, disk, list, outcome, 0).table.paths == map[] <==> OneToOne(t.paths)
  {
    var r := PassFrom(t, disk, list, outcome, 0);
    assert list[0..|list|] == list;
    if OneToOne(t.paths) {
      EachPlaybookRunsOnce(t, disk, list, outcome);
      assert forall m :: m in r.table.paths ==> r.table.paths[m] in r.table.paths.Values;
    } else {
      var m, m' :| m in t.paths && m' in t.paths && t.paths[m] == t.paths[m'] && m != m';
      TwoEntriesCount(t.paths, m, m');
      PassCounts(t, disk, list, outcome, 0, t.paths[m]);
      CountPositive(r.table.paths, t.paths[m]);
    }
  }

  /** ExecutePendingPlaybooks over the list that the walk of GetAll yields. */
  method ExecutePending(repo: Repository, list: seq<Path>, outcome: Outcomes, ghost disk: map<ModTime, Path>)
    returns (handled: nat, queued: bool)
    requires IsListing(repo.file, disk)
    modifies repo
    ensures
      var r := PassFrom(old(repo.Value()), disk, list, outcome, 0);
      && repo.Value() == r.table && handled == r.handled && IsListing(repo.file, r.disk)
    ensures queued <==> handled == |list| && exists i: nat :: i < handled && outcome(i).Parsed? && outcome(i).runFailed
  {
    ghost var d := disk;
    var errors := false;
    handled := 0;
    while handled < |list|
      invariant handled <= |list|
      invariant IsListing(repo.file, d)
      invariant PassFrom(repo.Value(), d, list, outcome, handled)
             == PassFrom(old(repo.Value()), disk, list, outcome, 0)
      invariant errors <==> exists i: nat :: i < handled && outcome(i).Parsed? && outcome(i).runFailed
    {
      var o := outcome(handled);
      if !o.Parsed? {
        return handled, false;
      }
      var ok := repo.Remove(list[handled], o.persistFault);
      d := if o.persistFault then d else repo.paths;
      errors := errors || o.runFailed;
      handled := handled + 1;
    }
    queued := errors;
  }

  /** A pass gets exactly as far as the first run whose file or results could not be
      read. */
  lemma {:induction false} PassStopsAtFirstFailure(t: Table, disk: map<ModTime, Path>, list: seq<Path>,
                                                   outcome: Outcomes, k: nat)
    requires k <= |list|
    ensures
      var handled := PassFrom(t, disk, list, outcome, k).handled;
      && (forall i :: k <= i < handled ==> outcome(i).Parsed?)
      && (handled < |list| ==> outcome(handled).Unreadable? || outcome(handled).Unparsed?)
    decreases |list| - k
  {
    if k < |list| && outcome(k).Parsed? {
      var t' := Removed(t, list[k]);
      PassStopsAtFirstFailure(t', if outcome(k).persistFault then disk else t'.paths, list, outcome, k + 1);
    }
  }
}
