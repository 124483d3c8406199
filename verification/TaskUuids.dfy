/** Which uuid each task gets in the stream of events, and exactly when uuids tell
    the tasks of a play apart. */
module TaskUuids {
  import opened TaskEvents

  // ---------------------------------------------------------- occurrences

  /** The tasks from k on that came with this id. */
  function Times(tasks: seq<Task>, k: nat, id: string): nat
    requires k <= |tasks|
    decreases |tasks| - k
  {
    if k == |tasks| then 0 else (if tasks[k].id == id then 1 else 0) + Times(tasks, k + 1, id)
  }

  /** Several tasks of the play came with this id. */
  predicate Repeated(tasks: seq<Task>, id: string) {
    Times(tasks, 0, id) > 1
  }

  lemma {:induction false} CountsAreTimes(tasks: seq<Task>, k: nat, counts: Counts, id: string)
    requires k <= |tasks|
    ensures Get(CountFrom(tasks, k, counts), id) == Get(counts, id) + Times(tasks, k, id)
    ensures id in CountFrom(tasks, k, counts) <==> id in counts || Times(tasks, k, id) > 0
    decreases |tasks| - k
  {
    if k < |tasks| {
      CountsAreTimes(tasks, k + 1, counts[tasks[k].id := Get(counts, tasks[k].id) + 1], id);
    }
  }

  /** countOccurence finds exactly the repeated ids. */
  lemma OccurrencesFindRepeats(tasks: seq<Task>, id: string)
    ensures (id in Occurrences(tasks) && Occurrences(tasks)[id] > 1) <==> Repeated(tasks, id)
  {
    CountsAreTimes(tasks, 0, map[], id);
  }

  lemma {:induction false} TimesSuffix(tasks: seq<Task>, k: nat, j: nat, id: string)
    requires k <= j <= |tasks|
    ensures Times(tasks, k, id) >= Times(tasks, j, id)
    decreases j - k
  {
    if k < j {
      TimesSuffix(tasks, k + 1, j, id);
    }
  }

  lemma TwoTasksRepeat(tasks: seq<Task>, a: nat, b: nat)
    requires a < b < |tasks| && tasks[a].id == tasks[b].id
    ensures Repeated(tasks, tasks[a].id)
  {
    var id := tasks[a].id;
    TimesSuffix(tasks, 0, a, id);
    TimesSuffix(tasks, a + 1, b, id);
  }

  lemma {:induction false} NoTask(tasks: seq<Task>, k: nat, id: string)
    requires k <= |tasks| && forall q :: k <= q < |tasks| ==> tasks[q].id != id
    ensures Times(tasks, k, id) == 0
    decreases |tasks| - k
  {
    if k < |tasks| {
      NoTask(tasks, k + 1, id);
    }
  }

  // ------------------------------------------------------- what the code does

  /** The id and the counters after n hosts of a task. */
  function RenamedTimes(occ: Counts, dup: Counts, id: string, n: nat): (string, Counts)
    decreases n
  {
    if n == 0 then (id, dup)
    else
      var (id1, dup1) := Renamed(occ, dup, id);
      RenamedTimes(occ, dup1, id1, n - 1)
  }

  /** The counters before task j of a play that starts with the given ones. */
  function CountersAt(tasks: seq<Task>, dup: Counts, j: nat): Counts
    requires j <= |tasks|
    decreases j
  {
    if j == 0 then dup
    else RenamedTimes(Occurrences(tasks), CountersAt(tasks, dup, j - 1), tasks[j - 1].id, |tasks[j - 1].hosts|).1
  }

  /** The counters that play i starts with. */
  function StartCounters(plays: seq<Play>, i: nat): Counts
    requires i <= |plays|
  {
    if i == 0 then map[]
    else CountersAt(plays[i - 1].tasks, StartCounters(plays, i - 1), |plays[i - 1].tasks|)
  }

  /** The uuid under which host h of task j is started. */
  function UuidOf(tasks: seq<Task>, dup: Counts, j: nat, h: nat): string
    requires j < |tasks|
  {
    RenamedTimes(Occurrences(tasks), CountersAt(tasks, dup, j), tasks[j].id, h + 1).0
  }

  /** The index in the block of a play of the start event of task j, host h. */
  function Offset(p: Play, j: nat, h: nat): int
    requires j < |p.tasks|
  {
    1 + 2 * (HostCount(p.tasks, 0) - HostCount(p.tasks, j)) + 2 * h
  }

  /** Its index in the stream, for play i. */
  function Place(plays: seq<Play>, i: nat, j: nat, h: nat): int
    requires i < |plays| && j < |plays[i].tasks|
  {
    StreamLength(plays, 0) - StreamLength(plays, i) + Offset(plays[i], j, h)
  }

  /** The start event of this host under this uuid stands at p, and behind it the runner
      event with what became of the host: failed, else skipped, else ok. */
  ghost predicate StartsHost(events: seq<Event>, p: int, uuid: string, host: Host) {
    && 0 <= p && p + 1 < |events|
    && events[p].kind.TaskStart? && events[p].uuid == uuid && events[p].host == host.name
    && events[p + 1].uuid == uuid && events[p + 1].parent == uuid && events[p + 1].host == host.name
    && (events[p + 1].kind.RunnerFailed? <==> host.failed)
    && (events[p + 1].kind.RunnerSkipped? <==> !host.failed && host.skipped)
    && (events[p + 1].kind.RunnerOk? <==> !host.failed && !host.skipped)
  }

  lemma StartsLater(a: seq<Event>, b: seq<Event>, p: int, uuid: string, host: Host)
    requires StartsHost(b, p, uuid, host)
    ensures StartsHost(a + b, |a| + p, uuid, host)
  {
  }

  lemma StartsEarlier(a: seq<Event>, b: seq<Event>, p: int, uuid: string, host: Host)
    requires StartsHost(a, p, uuid, host)
    ensures StartsHost(a + b, p, uuid, host)
  {
  }

  lemma {:induction false} HostStartsAt(occ: Counts, dup: Counts, play: string, id: string, hosts: seq<Host>, k: nat,
                                        h: nat, counter: nat)
    requires k <= h < |hosts|
    ensures StartsHost(HostsFrom(occ, dup, play, id, hosts, k, counter).events, 2 * (h - k),
                       RenamedTimes(occ, dup, id, h - k + 1).0, hosts[h])
    decreases h - k
  {
    hide Renamed;
    var (id1, dup1) := Renamed(occ, dup, id);
    var pair := HostPair(play, id1, hosts[k], counter);
    var rest := HostsFrom(occ, dup1, play, id1, hosts, k + 1, counter + 2).events;
    if k == h {
      assert RenamedTimes(occ, dup1, id1, 0).0 == id1;
      StartsEarlier(pair, rest, 0, id1, hosts[h]);
    } else {
      HostStartsAt(occ, dup1, play, id1, hosts, k + 1, h, counter + 2);
      StartsLater(pair, rest, 2 * (h - k - 1), RenamedTimes(occ, dup1, id1, h - k).0, hosts[h]);
    }
  }

  lemma {:induction false} HostsCount(occ: Counts, dup: Counts, play: string, id: string, hosts: seq<Host>, k: nat,
                                      counter: nat)
    requires k <= |hosts|
    ensures
      var r := HostsFrom(occ, dup, play, id, hosts, k, counter);
      (r.id, r.dup) == RenamedTimes(occ, dup, id, |hosts| - k)
    decreases |hosts| - k
  {
    hide Renamed;
    if k < |hosts| {
      var (id1, dup1) := Renamed(occ, dup, id);
      HostsCount(occ, dup1, play, id1, hosts, k + 1, counter + 2);
    }
  }

  /** The counters after task k. */
  lemma NextCounters(tasks: seq<Task>, dup: Counts, play: string, k: nat, counter: nat)
    requires k < |tasks|
    ensures TaskResult(Occurrences(tasks), CountersAt(tasks, dup, k), play, tasks[k],
                       counter).dup == CountersAt(tasks, dup, k + 1)
  {
    hide CountFrom, RenamedTimes;
    HostsCount(Occurrences(tasks), CountersAt(tasks, dup, k), play, tasks[k].id, tasks[k].hosts, 0, counter);
  }

  lemma {:induction false} TaskStartsAt(tasks: seq<Task>, dup: Counts, play: string, k: nat, j: nat, h: nat,
                                        counter: nat)
    requires k <= j < |tasks| && h < |tasks[j].hosts|
    ensures StartsHost(TasksFrom(Occurrences(tasks), CountersAt(tasks, dup, k), play, tasks, k, counter).0,
                       2 * (HostCount(tasks, k) - HostCount(tasks, j)) + 2 * h,
                       UuidOf(tasks, dup, j, h), tasks[j].hosts[h])
    decreases j - k
  {
    hide HostsFrom, CountFrom, StartsHost, CountersAt, RenamedTimes;
    var occ, now := Occurrences(tasks), CountersAt(tasks, dup, k);
    var t := TaskResult(occ, now, play, tasks[k], counter);
    NextCounters(tasks, dup, play, k, counter);
    var rest := TasksFrom(occ, t.dup, play, tasks, k + 1, counter + |t.events|).0;
    if k == j {
      HostStartsAt(occ, now, play, tasks[k].id, tasks[k].hosts, 0, h, counter);
      StartsEarlier(t.events, rest, 2 * h, UuidOf(tasks, dup, j, h), tasks[j].hosts[h]);
    } else {
      HostsShape(occ, now, play, tasks[k].id, tasks[k].hosts, 0, counter);
      TaskStartsAt(tasks, dup, play, k + 1, j, h, counter + |t.events|);
      StartsLater(t.events, rest, 2 * (HostCount(tasks, k + 1) - HostCount(tasks, j)) + 2 * h,
                  UuidOf(tasks, dup, j, h), tasks[j].hosts[h]);
    }
  }

  lemma {:induction false} TasksCount(tasks: seq<Task>, dup: Counts, play: string, k: nat, counter: nat)
    requires k <= |tasks|
    ensures TasksFrom(Occurrences(tasks), CountersAt(tasks, dup, k), play, tasks, k, counter).1
         == CountersAt(tasks, dup, |tasks|)
    decreases |tasks| - k
  {
    hide HostsFrom, CountFrom, CountersAt;
    if k < |tasks| {
      NextCounters(tasks, dup, play, k, counter);
      var t := TaskResult(Occurrences(tasks), CountersAt(tasks, dup, k), play, tasks[k], counter);
      TasksCount(tasks, dup, play, k + 1, counter + |t.events|);
    }
  }

  lemma BlockStartsAt(dup: Counts, p: Play, j: nat, h: nat, counter: nat)
    requires j < |p.tasks| && h < |p.tasks[j].hosts|
    ensures StartsHost(PlayBlock(dup, p, counter).0, Offset(p, j, h),
                       UuidOf(p.tasks, dup, j, h), p.tasks[j].hosts[h])
  {
    hide TasksFrom, CountFrom, HostCount, UuidOf, StartsHost;
    TaskStartsAt(p.tasks, dup, p.id, 0, j, h, counter + 1);
    var events := TasksFrom(Occurrences(p.tasks), dup, p.id, p.tasks, 0, counter + 1).0;
    var first := [Event(PlayStart, p.id, p.id, counter + 1, "")];
    var at := 2 * (HostCount(p.tasks, 0) - HostCount(p.tasks, j)) + 2 * h;
    StartsLater(first, events, at, UuidOf(p.tasks, dup, j, h), p.tasks[j].hosts[h]);
    StartsEarlier(first + events, [Event(Stats, "", "", counter + 2 + |events|, "")], 1 + at,
                  UuidOf(p.tasks, dup, j, h), p.tasks[j].hosts[h]);
  }

  lemma BlockCounts(dup: Counts, p: Play, counter: nat)
    ensures PlayBlock(dup, p, counter).1 == CountersAt(p.tasks, dup, |p.tasks|)
  {
    hide TasksFrom, CountFrom;
    TasksCount(p.tasks, dup, p.id, 0, counter + 1);
  }

  /** The block of play i in what the plays from k on give. */
  lemma {:induction false} BlockInStream(plays: seq<Play>, k: nat, i: nat, counter: nat)
    returns (before: seq<Event>, after: seq<Event>, c: nat)
    requires k <= i < |plays|
    ensures PlaysFrom(StartCounters(plays, k), plays, k, counter)
         == before + PlayBlock(StartCounters(plays, i), plays[i], c).0 + after
    ensures |before| == StreamLength(plays, k) - StreamLength(plays, i)
    decreases i - k
  {
    PlayUnfolds(plays, k, counter);
    hide PlaysFrom, PlayBlock, StartCounters, StreamLength;
    var block := PlayBlock(StartCounters(plays, k), plays[k], counter).0;
    if k == i {
      before, after, c := [], PlaysFrom(StartCounters(plays, k + 1), plays, k + 1, counter + |block|), counter;
      assert [] + block == block;
    } else {
      before, after, c := BlockInStream(plays, k + 1, i, counter + |block|);
      Regroup(block, before, PlayBlock(StartCounters(plays, i), plays[i], c).0, after);
      before := block + before;
    }
  }

  lemma Regroup(a: seq<Event>, b: seq<Event>, c: seq<Event>, d: seq<Event>)
    ensures a + (b + c + d) == (a + b) + c + d
  {
  }

  lemma PlayUnfolds(plays: seq<Play>, k: nat, counter: nat)
    requires k < |plays|
    ensures
      var block := PlayBlock(StartCounters(plays, k), plays[k], counter).0;
      && PlaysFrom(StartCounters(plays, k), plays, k, counter)
         == block + PlaysFrom(StartCounters(plays, k + 1), plays, k + 1, counter + |block|)
      && StreamLength(plays, k) == |block| + StreamLength(plays, k + 1)
  {
    hide PlayBlock, HostCount, CountersAt;
    BlockCounts(StartCounters(plays, k), plays[k], counter);
    BlockShape(StartCounters(plays, k), plays[k], counter);
  }

  /** Where host h of task j of play i is started, and under which uuid, for every
      result. */
  lemma StartEventOf(plays: seq<Play>, i: nat, j: nat, h: nat)
    requires i < |plays| && j < |plays[i].tasks| && h < |plays[i].tasks[j].hosts|
    ensures StartsHost(Stream(plays), Place(plays, i, j, h),
                       UuidOf(plays[i].tasks, StartCounters(plays, i), j, h), plays[i].tasks[j].hosts[h])
  {
    hide PlaysFrom, PlayBlock, UuidOf, StartsHost, Offset, StreamLength;
    assert StartCounters(plays, 0) == map[];
    var tasks, dup := plays[i].tasks, StartCounters(plays, i);
    hide StartCounters;
    var before, after, c := BlockInStream(plays, 0, i, 0);
    var block := PlayBlock(dup, plays[i], c).0;
    BlockStartsAt(dup, plays[i], j, h, c);
    StartsLater(before, block, Offset(plays[i], j, h), UuidOf(tasks, dup, j, h), tasks[j].hosts[h]);
    StartsEarlier(before + block, after, |before| + Offset(plays[i], j, h),
                  UuidOf(tasks, dup, j, h), tasks[j].hosts[h]);
  }

  // ----------------------------------------------------- the condition on a play

  /** The tasks before k that are renamed and came with this id. */
  function Renames(tasks: seq<Task>, k: nat, id: string): nat
    requires k <= |tasks|
  {
    if k == 0 then 0
    else
      var t := tasks[k - 1];
      Renames(tasks, k - 1, id) + (if t.id == id && t.hosts != [] && Repeated(tasks, id) then 1 else 0)
  }

  /** The rank of task j among the renamed tasks of its id, on top of the counter
      the play starts with. */
  function Rank(tasks: seq<Task>, dup: Counts, j: nat): nat
    requires j < |tasks|
  {
    Get(dup, tasks[j].id) + Renames(tasks, j, tasks[j].id) + 1
  }

  /** The id of a task that is sent under the very id it came with. */
  ghost predicate Taken(tasks: seq<Task>, id: string) {
    !Repeated(tasks, id) && exists m :: 0 <= m < |tasks| && tasks[m].id == id && tasks[m].hosts != []
  }

  /** A task is clear when the name it would be given is not taken by another task,
      and is no repeated id either unless the task has but one host. Ids, numbers of
      hosts and the starting counters decide this. */
  ghost predicate Clear(tasks: seq<Task>, dup: Counts, j: nat)
    requires j < |tasks|
  {
    tasks[j].hosts != [] && Repeated(tasks, tasks[j].id) ==>
      var name := Suffixed(tasks[j].id, Rank(tasks, dup, j));
      !Taken(tasks, name) && (Repeated(tasks, name) ==> |tasks[j].hosts| == 1)
  }

  ghost predicate AllClear(tasks: seq<Task>, dup: Counts) {
    forall j :: 0 <= j < |tasks| ==> Clear(tasks, dup, j)
  }

  predicate HasHost(tasks: seq<Task>, j: int, h: int) {
    0 <= j < |tasks| && 0 <= h < |tasks[j].hosts|
  }

  /** Uuids tell the tasks of a play apart: two start events carry the same uuid
      exactly when they belong to the same task. */
  ghost predicate TellsApart(tasks: seq<Task>, dup: Counts) {
    forall a, g, b, h :: HasHost(tasks, a, g) && HasHost(tasks, b, h) ==>
      (UuidOf(tasks, dup, a, g) == UuidOf(tasks, dup, b, h) <==> a == b)
  }

  /** The uuid of a task as one would compute it. */
  function ClearUuid(tasks: seq<Task>, dup: Counts, j: nat): string
    requires j < |tasks|
  {
    if Repeated(tasks, tasks[j].id) then Suffixed(tasks[j].id, Rank(tasks, dup, j)) else tasks[j].id
  }

  // --------------------------------------------------------------- one task

  lemma {:induction false} OnceIsKept(tasks: seq<Task>, dup: Counts, id: string, n: nat)
    requires !Repeated(tasks, id)
    ensures RenamedTimes(Occurrences(tasks), dup, id, n) == (id, dup)
    decreases n
  {
    hide CountFrom, Times;
    OccurrencesFindRepeats(tasks, id);
    if n > 0 {
      OnceIsKept(tasks, dup, id, n - 1);
    }
  }

  lemma RenamedFirst(tasks: seq<Task>, dup: Counts, id: string)
    requires Repeated(tasks, id)
    ensures Renamed(Occurrences(tasks), dup, id) == (Suffixed(id, Get(dup, id) + 1), dup[id := Get(dup, id) + 1])
  {
    hide CountFrom, Times;
    OccurrencesFindRepeats(tasks, id);
  }

  /** Renamed once and not again. */
  lemma RenamedOnce(tasks: seq<Task>, dup: Counts, id: string, n: nat)
    requires Repeated(tasks, id) && n > 0 && (n == 1 || !Repeated(tasks, Suffixed(id, Get(dup, id) + 1)))
    ensures RenamedTimes(Occurrences(tasks), dup, id, n) == (Suffixed(id, Get(dup, id) + 1),
                                                             dup[id := Get(dup, id) + 1])
  {
    hide CountFrom, Times, Suffixed, Renamed;
    RenamedFirst(tasks, dup, id);
    if n > 1 {
      OnceIsKept(tasks, dup[id := Get(dup, id) + 1], Suffixed(id, Get(dup, id) + 1), n - 1);
    }
  }

  /** Renamed again for the second host. */
  lemma RenamedTwice(tasks: seq<Task>, dup: Counts, id: string)
    requires Repeated(tasks, id) && Repeated(tasks, Suffixed(id, Get(dup, id) + 1))
    ensures RenamedTimes(Occurrences(tasks), dup, id, 1).0 != RenamedTimes(Occurrences(tasks), dup, id, 2).0
  {
    hide CountFrom, Times, Renamed;
    RenamedFirst(tasks, dup, id);
    var id1, dup1 := Suffixed(id, Get(dup, id) + 1), dup[id := Get(dup, id) + 1];
    RenamedFirst(tasks, dup1, id1);
    var (id2, dup2) := Renamed(Occurrences(tasks), dup1, id1);
    assert RenamedTimes(Occurrences(tasks), dup1, id1, 1) == RenamedTimes(Occurrences(tasks), dup2, id2, 0);
    assert RenamedTimes(Occurrences(tasks), dup2, id2, 0) == (id2, dup2);
    assert RenamedTimes(Occurrences(tasks), dup1, id1, 0).0 == id1;
  }

  /** All hosts of a task are started under one uuid exactly when there is but one
      host, or the id is not renamed, or its new name is no repeated id. */
  lemma HostsShareUuidExactlyWhen(tasks: seq<Task>, dup: Counts, j: nat)
    requires j < |tasks|
    ensures (forall g, h :: 0 <= g < |tasks[j].hosts| && 0 <= h < |tasks[j].hosts| ==>
               UuidOf(tasks, dup, j, g) == UuidOf(tasks, dup, j, h))
       <==> (|tasks[j].hosts| <= 1 || !Repeated(tasks, tasks[j].id)
             || !Repeated(tasks, Suffixed(tasks[j].id, Get(CountersAt(tasks, dup, j), tasks[j].id) + 1)))
  {
    hide CountFrom, Times, Suffixed, CountersAt, RenamedTimes;
    var t, now := tasks[j], CountersAt(tasks, dup, j);
    forall h: nat | h < |t.hosts|
      ensures !Repeated(tasks, t.id) ==> UuidOf(tasks, dup, j, h) == t.id
      ensures Repeated(tasks, t.id) && (h == 0 || !Repeated(tasks, Suffixed(t.id, Get(now, t.id) + 1))) ==>
                UuidOf(tasks, dup, j, h) == Suffixed(t.id, Get(now, t.id) + 1)
    {
      if !Repeated(tasks, t.id) {
        OnceIsKept(tasks, now, t.id, h + 1);
      } else if h == 0 || !Repeated(tasks, Suffixed(t.id, Get(now, t.id) + 1)) {
        RenamedOnce(tasks, now, t.id, h + 1);
      }
    }
    if |t.hosts| > 1 && Repeated(tasks, t.id) && Repeated(tasks, Suffixed(t.id, Get(now, t.id) + 1)) {
      RenamedTwice(tasks, now, t.id);
      assert UuidOf(tasks, dup, j, 0) != UuidOf(tasks, dup, j, 1);
    }
  }

  /** The id the item of a task is left with. The data block of a runner event points
      to the item, so this is what it shows in the end. */
  function FinalId(tasks: seq<Task>, dup: Counts, j: nat): string
    requires j < |tasks|
  {
    RenamedTimes(Occurrences(tasks), CountersAt(tasks, dup, j), tasks[j].id, |tasks[j].hosts|).0
  }

  /** The data blocks of all runner events of a task show the uuid of their event
      exactly when all its hosts share one uuid. */
  lemma DataShowsUuidExactlyWhen(tasks: seq<Task>, dup: Counts, j: nat)
    requires j < |tasks|
    ensures (forall h :: 0 <= h < |tasks[j].hosts| ==> UuidOf(tasks, dup, j, h) == FinalId(tasks, dup, j))
       <==> (|tasks[j].hosts| <= 1 || !Repeated(tasks, tasks[j].id)
             || !Repeated(tasks, Suffixed(tasks[j].id, Get(CountersAt(tasks, dup, j), tasks[j].id) + 1)))
  {
    hide CountFrom, Times, Suffixed, CountersAt, RenamedTimes;
    HostsShareUuidExactlyWhen(tasks, dup, j);
    if tasks[j].hosts != [] {
      assert UuidOf(tasks, dup, j, |tasks[j].hosts| - 1) == FinalId(tasks, dup, j);
    }
  }

  // ----------------------------------------------------- counters of clear tasks

  /** While all tasks are clear, each counter has grown by the renamed tasks of its
      id. */
  lemma {:induction false} ClearCounters(tasks: seq<Task>, dup: Counts, j: nat, id: string)
    requires j <= |tasks| && forall q :: 0 <= q < j ==> Clear(tasks, dup, q)
    ensures Get(CountersAt(tasks, dup, j), id) == Get(dup, id) + Renames(tasks, j, id)
    decreases j
  {
    hide CountFrom, Times, Suffixed, RenamedTimes, Taken;
    if j > 0 {
      var t, now := tasks[j - 1], CountersAt(tasks, dup, j - 1);
      ClearCounters(tasks, dup, j - 1, id);
      ClearCounters(tasks, dup, j - 1, t.id);
      assert Clear(tasks, dup, j - 1);
      if t.hosts == [] {
        NoHosts(Occurrences(tasks), now, t.id);
      } else if !Repeated(tasks, t.id) {
        OnceIsKept(tasks, now, t.id, |t.hosts|);
      } else {
        RenamedOnce(tasks, now, t.id, |t.hosts|);
      }
    }
  }

  lemma NoHosts(occ: Counts, dup: Counts, id: string)
    ensures RenamedTimes(occ, dup, id, 0) == (id, dup)
  {
  }

  /** The first host of a task that follows clear tasks. */
  lemma FirstHostUuid(tasks: seq<Task>, dup: Counts, j: nat)
    requires j < |tasks| && forall q :: 0 <= q < j ==> Clear(tasks, dup, q)
    ensures UuidOf(tasks, dup, j, 0) == ClearUuid(tasks, dup, j)
  {
    hide CountFrom, Times, Suffixed, RenamedTimes, Clear, CountersAt;
    var t, now := tasks[j], CountersAt(tasks, dup, j);
    ClearCounters(tasks, dup, j, t.id);
    if Repeated(tasks, t.id) {
      RenamedOnce(tasks, now, t.id, 1);
    } else {
      OnceIsKept(tasks, now, t.id, 1);
    }
  }

  /** All hosts of a clear task that follows clear tasks. */
  lemma ClearUuids(tasks: seq<Task>, dup: Counts, j: nat, h: nat)
    requires j < |tasks| && h < |tasks[j].hosts| && forall q :: 0 <= q <= j ==> Clear(tasks, dup, q)
    ensures UuidOf(tasks, dup, j, h) == ClearUuid(tasks, dup, j)
  {
    hide CountFrom, Times, Suffixed, RenamedTimes, Taken, CountersAt;
    ClearCounters(tasks, dup, j, tasks[j].id);
    FirstHostUuid(tasks, dup, j);
    HostsShareUuidExactlyWhen(tasks, dup, j);
    assert Clear(tasks, dup, j);
  }

  // ------------------------------------------------------------ distinctness

  lemma {:induction false} RenamesGrow(tasks: seq<Task>, a: nat, b: nat, id: string)
    requires a <= b <= |tasks|
    ensures Renames(tasks, a, id) <= Renames(tasks, b, id)
    decreases b
  {
    if a < b {
      RenamesGrow(tasks, a, b - 1, id);
    }
  }

  lemma RanksDiffer(tasks: seq<Task>, dup: Counts, a: nat, b: nat)
    requires a < b < |tasks| && tasks[a].hosts != [] && tasks[a].id == tasks[b].id
    ensures Repeated(tasks, tasks[a].id) && Rank(tasks, dup, a) < Rank(tasks, dup, b)
  {
    hide Times;
    TwoTasksRepeat(tasks, a, b);
    RenamesGrow(tasks, a + 1, b, tasks[a].id);
  }

  lemma ClearUuidsDiffer(tasks: seq<Task>, dup: Counts, a: nat, b: nat)
    requires a < b < |tasks| && tasks[a].hosts != [] && tasks[b].hosts != []
    requires Clear(tasks, dup, a) && Clear(tasks, dup, b)
    ensures ClearUuid(tasks, dup, a) != ClearUuid(tasks, dup, b)
  {
    hide Times, Suffixed, Rank;
    var x, y := tasks[a].id, tasks[b].id;
    var m, n := Rank(tasks, dup, a), Rank(tasks, dup, b);
    if x == y {
      RanksDiffer(tasks, dup, a, b);
    }
    if Suffixed(x, m) == Suffixed(y, n) {
      SuffixedInjective(x, m, y, n);
    }
  }

  lemma ClearTellsApart(tasks: seq<Task>, dup: Counts)
    requires AllClear(tasks, dup)
    ensures TellsApart(tasks, dup)
  {
    hide UuidOf, ClearUuid, Clear;
    forall a, g, b, h | HasHost(tasks, a, g) && HasHost(tasks, b, h)
      ensures UuidOf(tasks, dup, a, g) == UuidOf(tasks, dup, b, h) <==> a == b
    {
      ClearUuids(tasks, dup, a, g);
      ClearUuids(tasks, dup, b, h);
      if a < b {
        ClearUuidsDiffer(tasks, dup, a, b);
      } else if b < a {
        ClearUuidsDiffer(tasks, dup, b, a);
      }
    }
  }

  lemma {:induction false} FirstUnclear(tasks: seq<Task>, dup: Counts, n: nat) returns (j: nat)
    requires n < |tasks| && !Clear(tasks, dup, n)
    ensures j < |tasks| && !Clear(tasks, dup, j) && forall q :: 0 <= q < j ==> Clear(tasks, dup, q)
    decreases n
  {
    if q: nat :| q < n && !Clear(tasks, dup, q) {
      j := FirstUnclear(tasks, dup, q);
    } else {
      j := n;
    }
  }

  /** The first task that is not clear clashes with another one, or its own hosts
      get different uuids. */
  lemma UnclearDoesNotTellApart(tasks: seq<Task>, dup: Counts, n: nat)
    requires n < |tasks| && !Clear(tasks, dup, n)
    ensures !TellsApart(tasks, dup)
  {
    hide CountFrom, Times, Suffixed, RenamedTimes, CountersAt, UuidOf;
    var j := FirstUnclear(tasks, dup, n);
    var t := tasks[j];
    var name := Suffixed(t.id, Rank(tasks, dup, j));
    FirstHostUuid(tasks, dup, j);
    if Taken(tasks, name) {
      var m :| 0 <= m < |tasks| && tasks[m].id == name && tasks[m].hosts != [];
      KeepsItsId(tasks, dup, m);
      assert HasHost(tasks, j, 0) && HasHost(tasks, m, 0);
      assert UuidOf(tasks, dup, j, 0) == UuidOf(tasks, dup, m, 0) && j != m;
    } else {
      ClearCounters(tasks, dup, j, t.id);
      HostsShareUuidExactlyWhen(tasks, dup, j);
    }
  }

  lemma KeepsItsId(tasks: seq<Task>, dup: Counts, m: nat)
    requires m < |tasks| && !Repeated(tasks, tasks[m].id)
    ensures UuidOf(tasks, dup, m, 0) == tasks[m].id
  {
    hide CountFrom, Times, RenamedTimes;
    OnceIsKept(tasks, CountersAt(tasks, dup, m), tasks[m].id, 1);
  }

  /** In a play that starts with any counters, uuids tell the tasks apart if and only
      if every task is clear. */
  lemma TellsApartExactlyWhenClear(tasks: seq<Task>, dup: Counts)
    ensures TellsApart(tasks, dup) <==> AllClear(tasks, dup)
  {
    hide TellsApart, Clear;
    if AllClear(tasks, dup) {
      ClearTellsApart(tasks, dup);
    } else {
      var n :| 0 <= n < |tasks| && !Clear(tasks, dup, n);
      UnclearDoesNotTellApart(tasks, dup, n);
    }
  }

  /** The uuid of the start event of task j, host h, of play i in the stream. */
  function SentUuid(plays: seq<Play>, i: nat, j: nat, h: nat): string
    requires i < |plays| && j < |plays[i].tasks|
  {
    var p := Place(plays, i, j, h);
    if 0 <= p < |Stream(plays)| then Stream(plays)[p].uuid else ""
  }

  /** The same about the stream itself: in play i two start events carry the same
      uuid exactly when they belong to one task, for all its events, if and only if
      the tasks of the play are clear under the counters that the earlier plays
      left. */
  lemma UuidIdentifiesTaskExactlyWhen(plays: seq<Play>, i: nat)
    requires i < |plays|
    ensures
      var tasks := plays[i].tasks;
      (forall a, g, b, h :: HasHost(tasks, a, g) && HasHost(tasks, b, h) ==>
         (SentUuid(plays, i, a, g) == SentUuid(plays, i, b, h) <==> a == b))
      <==> AllClear(tasks, StartCounters(plays, i))
  {
    hide Place, Stream, UuidOf, AllClear, StartCounters;
    var tasks, dup := plays[i].tasks, StartCounters(plays, i);
    forall j, h | HasHost(tasks, j, h)
      ensures SentUuid(plays, i, j, h) == UuidOf(tasks, dup, j, h)
    {
      StartEventOf(plays, i, j, h);
    }
    hide SentUuid;
    TellsApartExactlyWhenClear(tasks, dup);
  }

  /** In a play of clear tasks every host of task j is started under one uuid: its
      id, or, when the id is repeated, its id with its rank as suffix. */
  lemma TaskHasItsUuid(plays: seq<Play>, i: nat, j: nat, h: nat)
    requires i < |plays| && j < |plays[i].tasks| && h < |plays[i].tasks[j].hosts|
    requires AllClear(plays[i].tasks, StartCounters(plays, i))
    ensures StartsHost(Stream(plays), Place(plays, i, j, h),
                       ClearUuid(plays[i].tasks, StartCounters(plays, i), j), plays[i].tasks[j].hosts[h])
  {
    hide PlaysFrom, UuidOf, Place, ClearUuid, Clear, StartsHost, StartCounters;
    StartEventOf(plays, i, j, h);
    ClearUuids(plays[i].tasks, StartCounters(plays, i), j, h);
  }

  // ------------------------------------------------------- ids without underscore

  ghost predicate Plain(tasks: seq<Task>) {
    forall q :: 0 <= q < |tasks| ==> '_' !in tasks[q].id
  }

  lemma SuffixedHasUnderscore(id: string, k: nat)
    ensures '_' in Suffixed(id, k)
  {
    assert Suffixed(id, k)[|id|] == '_';
  }

  /** Ids without underscore make a play clear, whatever the counters. */
  lemma PlainIsClear(tasks: seq<Task>, dup: Counts)
    requires Plain(tasks)
    ensures AllClear(tasks, dup)
  {
    hide Times, Suffixed, Rank;
    forall j | 0 <= j < |tasks| ensures Clear(tasks, dup, j) {
      var name := Suffixed(tasks[j].id, Rank(tasks, dup, j));
      SuffixedHasUnderscore(tasks[j].id, Rank(tasks, dup, j));
      NoTask(tasks, 0, name);
    }
  }

  /** The tasks of the plays before k that are renamed and came with this id. */
  function EarlierRenames(plays: seq<Play>, k: nat, id: string): nat
    requires k <= |plays|
  {
    if k == 0 then 0
    else EarlierRenames(plays, k - 1, id) + Renames(plays[k - 1].tasks, |plays[k - 1].tasks|, id)
  }

  lemma {:induction false} OtherIdsKeepPlain(occ: Counts, dup: Counts, id: string, n: nat, plain: string)
    requires '_' !in plain && id != plain
    ensures Get(RenamedTimes(occ, dup, id, n).1, plain) == Get(dup, plain)
    decreases n
  {
    if n > 0 {
      var (id1, dup1) := Renamed(occ, dup, id);
      SuffixedHasUnderscore(id, Get(dup, id) + 1);
      OtherIdsKeepPlain(occ, dup1, id1, n - 1, plain);
    }
  }

  lemma {:induction false} PlainCounters(tasks: seq<Task>, dup: Counts, j: nat, plain: string)
    requires j <= |tasks| && '_' !in plain
    ensures Get(CountersAt(tasks, dup, j), plain) == Get(dup, plain) + Renames(tasks, j, plain)
    decreases j
  {
    hide CountFrom, Times;
    if j > 0 {
      var t, now := tasks[j - 1], CountersAt(tasks, dup, j - 1);
      PlainCounters(tasks, dup, j - 1, plain);
      if t.id != plain {
        OtherIdsKeepPlain(Occurrences(tasks), now, t.id, |t.hosts|, plain);
      } else if t.hosts != [] {
        PlainIsCounted(tasks, now, plain, |t.hosts|);
      }
    }
  }

  lemma PlainIsCounted(tasks: seq<Task>, dup: Counts, plain: string, n: nat)
    requires '_' !in plain && n > 0
    ensures Get(RenamedTimes(Occurrences(tasks), dup, plain, n).1, plain)
         == Get(dup, plain) + if Repeated(tasks, plain) then 1 else 0
  {
    hide CountFrom, Times;
    if Repeated(tasks, plain) {
      RenamedFirst(tasks, dup, plain);
      SuffixedHasUnderscore(plain, Get(dup, plain) + 1);
      OtherIdsKeepPlain(Occurrences(tasks), dup[plain := Get(dup, plain) + 1], Suffixed(plain, Get(dup, plain) + 1),
                        n - 1, plain);
    } else {
      OnceIsKept(tasks, dup, plain, n);
    }
  }

  /** The counter an id starts a play with is the number of its renamed tasks in all
      earlier plays: for every id without underscore, whatever the plays look like,
      and for every id when the earlier plays are clear. */
  lemma {:induction false} CountedAcrossPlays(plays: seq<Play>, i: nat, id: string)
    requires i <= |plays|
    requires '_' !in id || forall k :: 0 <= k < i ==> AllClear(plays[k].tasks, StartCounters(plays, k))
    ensures Get(StartCounters(plays, i), id) == EarlierRenames(plays, i, id)
    decreases i
  {
    hide CountersAt, Renames, Clear;
    if i > 0 {
      CountedAcrossPlays(plays, i - 1, id);
      var tasks, dup := plays[i - 1].tasks, StartCounters(plays, i - 1);
      if '_' !in id {
        PlainCounters(tasks, dup, |tasks|, id);
      } else {
        assert AllClear(plays[i - 1].tasks, StartCounters(plays, i - 1));
        ClearCounters(tasks, dup, |tasks|, id);
      }
    }
  }

  /** With an underscore in an id two tasks can end under one uuid. */
  lemma UnderscoreMakesUuidsClash(h: Host)
    ensures
      var tasks := [Task("a", [h]), Task("a", [h]), Task("a_1", [h])];
      !AllClear(tasks, map[]) && !TellsApart(tasks, map[])
  {
    var tasks := [Task("a", [h]), Task("a", [h]), Task("a_1", [h])];
    assert Itoa(1) == "1" && Suffixed("a", 1) == "a_1";
    TwoTasksRepeat(tasks, 0, 1);
    assert Times(tasks, 3, "a_1") == 0;
    assert Times(tasks, 2, "a_1") == 1;
    assert Times(tasks, 1, "a_1") == 1;
    assert !Repeated(tasks, "a_1");
    hide Times;
    assert tasks[2].id == "a_1";
    assert Taken(tasks, "a_1");
    assert Rank(tasks, map[], 0) == 1;
    assert !Clear(tasks, map[], 0);
    TellsApartExactlyWhenClear(tasks, map[]);
  }
}
