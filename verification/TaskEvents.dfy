/** Turning the results of a playbook run into the numbered stream of events that
    is sent back, as values. */
module TaskEvents {

  datatype Host = Host(name: string, failed: bool, skipped: bool)

  /** A task with its hosts in the order the map is walked. */
  datatype Task = Task(id: string, hosts: seq<Host>)

  datatype Play = Play(id: string, tasks: seq<Task>)

  datatype Kind = PlayStart | TaskStart | RunnerOk | RunnerFailed | RunnerSkipped | Stats

  /** `parent` is the playbook uuid field: the play for a task start, the task
      start for a runner event. `host` only marks which host an event belongs to; the
      events themselves carry the host list of the play there. The data block is left
      out: for runner events it points into the task item. */
  datatype Event = Event(kind: Kind, uuid: string, parent: string, counter: nat, host: string)

  type Counts = map<string, nat>

  function Get(counts: Counts, id: string): nat {
    if id in counts then counts[id] else 0
  }

  // ------------------------------------------------------------ suffixes

  function Digit(n: nat): char
    requires n < 10
  {
    "0123456789"[n]
  }

  /** strconv.Itoa for the counters. */
  function Itoa(n: nat): string {
    if n < 10 then [Digit(n)] else Itoa(n / 10) + [Digit(n % 10)]
  }

  lemma DigitInjective(a: nat, b: nat)
    requires a < 10 && b < 10 && Digit(a) == Digit(b)
    ensures a == b
  {
  }

  lemma {:induction false} ItoaInjective(a: nat, b: nat)
    requires Itoa(a) == Itoa(b)
    ensures a == b
    decreases a + b
  {
    var x, y := Itoa(a), Itoa(b);
    ItoaNotEmpty(a / 10);
    ItoaNotEmpty(b / 10);
    assert x[|x| - 1] == Digit(a % 10) && y[|y| - 1] == Digit(b % 10);
    DigitInjective(a % 10, b % 10);
    if a >= 10 && b >= 10 {
      assert x[..|x| - 1] == Itoa(a / 10) && y[..|y| - 1] == Itoa(b / 10);
      ItoaInjective(a / 10, b / 10);
    }
  }

  lemma ItoaNotEmpty(n: nat)
    ensures |Itoa(n)| >= 1
  {
  }

  function Suffixed(id: string, k: nat): string {
    id + "_" + Itoa(k)
  }

  lemma {:induction false} ItoaHasNoUnderscore(n: nat)
    ensures '_' !in Itoa(n)
  {
    if n >= 10 {
      ItoaHasNoUnderscore(n / 10);
    }
  }

  lemma SuffixHasLastUnderscore(id: string, k: nat)
    ensures Suffixed(id, k)[|id|] == '_'
    ensures forall i :: |id| < i < |Suffixed(id, k)| ==> Suffixed(id, k)[i] != '_'
  {
    ItoaHasNoUnderscore(k);
    assert forall i :: |id| < i < |Suffixed(id, k)| ==> Suffixed(id, k)[i] == Itoa(k)[i - |id| - 1];
  }

  /** The last underscore splits a renamed id, so it tells the id and the number,
      for all ids. */
  lemma SuffixedInjective(a: string, k: nat, b: string, m: nat)
    requires Suffixed(a, k) == Suffixed(b, m)
    ensures a == b && k == m
  {
    var s := Suffixed(a, k);
    SuffixHasLastUnderscore(a, k);
    SuffixHasLastUnderscore(b, m);
    assert a == s[..|a|] && b == s[..|b|];
    assert Itoa(k) == s[|a| + 1..] && Itoa(m) == s[|b| + 1..];
    ItoaInjective(k, m);
  }

  // -------------------------------------------------------------- the stream

  function CountFrom(tasks: seq<Task>, k: nat, counts: Counts): Counts
    requires k <= |tasks|
    decreases |tasks| - k
  {
    if k == |tasks| then counts
    else CountFrom(tasks, k + 1, counts[tasks[k].id := Get(counts, tasks[k].id) + 1])
  }

  /** countOccurence. */
  function Occurrences(tasks: seq<Task>): Counts {
    CountFrom(tasks, 0, map[])
  }

  /** The id under which the next start event of a task is sent; a repeated id
      gets the next number, counted over the whole playbook. */
  function Renamed(occ: Counts, dup: Counts, id: string): (string, Counts) {
    if id in occ && occ[id] > 1
    then (Suffixed(id, Get(dup, id) + 1), dup[id := Get(dup, id) + 1])
    else (id, dup)
  }

  function RunnerKind(h: Host): Kind {
    if h.failed then RunnerFailed else if h.skipped then RunnerSkipped else RunnerOk
  }

  function HostPair(play: string, id: string, h: Host, counter: nat): seq<Event> {
    [Event(TaskStart, id, play, counter + 1, h.name), Event(RunnerKind(h), id, id, counter + 2, h.name)]
  }

  /** The events of a task from host k on, the id it ends with, the counts. */
  datatype TaskRun = TaskRun(events: seq<Event>, id: string, dup: Counts)

  function HostsFrom(occ: Counts, dup: Counts, play: string, id: string, hosts: seq<Host>, k: nat,
                     counter: nat): (r: TaskRun)
    requires k <= |hosts|
    decreases |hosts| - k
  {
    if k == |hosts| then TaskRun([], id, dup)
    else
      var (id1, dup1) := Renamed(occ, dup, id);
      var r := HostsFrom(occ, dup1, play, id1, hosts, k + 1, counter + 2);
      r.(events := HostPair(play, id1, hosts[k], counter) + r.events)
  }

  function TaskResult(occ: Counts, dup: Counts, play: string, t: Task, counter: nat): TaskRun {
    HostsFrom(occ, dup, play, t.id, t.hosts, 0, counter)
  }

  function TasksFrom(occ: Counts, dup: Counts, play: string, tasks: seq<Task>, k: nat, counter: nat)
    : (seq<Event>, Counts)
    requires k <= |tasks|
    decreases |tasks| - k
  {
    if k == |tasks| then ([], dup)
    else
      var t := TaskResult(occ, dup, play, tasks[k], counter);
      var (events, dup') := TasksFrom(occ, t.dup, play, tasks, k + 1, counter + |t.events|);
      (t.events + events, dup')
  }

  function PlayBlock(dup: Counts, p: Play, counter: nat): (seq<Event>, Counts) {
    var (events, dup') := TasksFrom(Occurrences(p.tasks), dup, p.id, p.tasks, 0, counter + 1);
    ([Event(PlayStart, p.id, p.id, counter + 1, "")] + events
     + [Event(Stats, "", "", counter + 2 + |events|, "")], dup')
  }

  function PlaysFrom(dup: Counts, plays: seq<Play>, k: nat, counter: nat): seq<Event>
    requires k <= |plays|
    decreases |plays| - k
  {
    if k == |plays| then []
    else
      var (block, dup') := PlayBlock(dup, plays[k], counter);
      block + PlaysFrom(dup', plays, k + 1, counter + |block|)
  }

  /** eventTransformer. */
  function Stream(plays: seq<Play>): seq<Event> {
    PlaysFrom(map[], plays, 0, 0)
  }

  // ------------------------------------------------------ numbers and shape

  ghost predicate Numbered(events: seq<Event>, counter: nat) {
    forall i :: 0 <= i < |events| ==> events[i].counter == counter + 1 + i
  }

  predicate IsRunner(kind: Kind) {
    kind.RunnerOk? || kind.RunnerFailed? || kind.RunnerSkipped?
  }

  /** At j a start event under its play, then a runner event under the uuid of
      that start event. */
  ghost predicate PairAt(events: seq<Event>, j: int, play: string) {
    && 0 <= j && j + 1 < |events|
    && events[j].kind.TaskStart? && events[j].parent == play
    && IsRunner(events[j + 1].kind)
    && events[j + 1].uuid == events[j].uuid && events[j + 1].parent == events[j].uuid
    && events[j + 1].host == events[j].host
  }

  ghost predicate Paired(events: seq<Event>, play: string) {
    && |events| % 2 == 0
    && forall j :: 0 <= j < |events| && j % 2 == 0 ==> PairAt(events, j, play)
  }

  lemma PairEarlier(a: seq<Event>, b: seq<Event>, j: int, play: string)
    requires PairAt(a, j, play)
    ensures PairAt(a + b, j, play)
  {
  }

  lemma PairLater(a: seq<Event>, b: seq<Event>, j: int, play: string)
    requires PairAt(b, j, play)
    ensures PairAt(a + b, |a| + j, play)
  {
  }

  lemma PairedSum(a: seq<Event>, b: seq<Event>, play: string)
    requires Paired(a, play) && Paired(b, play)
    ensures Paired(a + b, play)
  {
    hide PairAt;
    forall j | 0 <= j < |a + b| && j % 2 == 0 ensures PairAt(a + b, j, play) {
      if j < |a| {
        PairEarlier(a, b, j, play);
      } else {
        assert (j - |a|) % 2 == 0;
        PairLater(a, b, j - |a|, play);
      }
    }
  }

  lemma NumberedSum(a: seq<Event>, b: seq<Event>, counter: nat)
    requires Numbered(a, counter) && Numbered(b, counter + |a|)
    ensures Numbered(a + b, counter)
  {
  }

  lemma HostPairShape(play: string, id: string, h: Host, counter: nat)
    ensures var pair := HostPair(play, id, h, counter); |pair| == 2 && Paired(pair, play) && Numbered(pair, counter)
  {
  }

  lemma {:induction false} HostsShape(occ: Counts, dup: Counts, play: string, id: string, hosts: seq<Host>, k: nat,
                                      counter: nat)
    requires k <= |hosts|
    ensures
      var events := HostsFrom(occ, dup, play, id, hosts, k, counter).events;
      && |events| == 2 * (|hosts| - k) && Numbered(events, counter) && Paired(events, play)
    decreases |hosts| - k
  {
    NoEvents(counter, play);
    hide Paired, Numbered, HostPair, Renamed;
    if k < |hosts| {
      var (id1, dup1) := Renamed(occ, dup, id);
      HostPairShape(play, id1, hosts[k], counter);
      HostsShape(occ, dup1, play, id1, hosts, k + 1, counter + 2);
      var rest := HostsFrom(occ, dup1, play, id1, hosts, k + 1, counter + 2).events;
      PairedSum(HostPair(play, id1, hosts[k], counter), rest, play);
      NumberedSum(HostPair(play, id1, hosts[k], counter), rest, counter);
    }
  }

  function HostCount(tasks: seq<Task>, k: nat): nat
    requires k <= |tasks|
    decreases |tasks| - k
  {
    if k == |tasks| then 0 else |tasks[k].hosts| + HostCount(tasks, k + 1)
  }

  lemma {:induction false} TasksShape(occ: Counts, dup: Counts, play: string, tasks: seq<Task>, k: nat, counter: nat)
    requires k <= |tasks|
    ensures
      var events := TasksFrom(occ, dup, play, tasks, k, counter).0;
      && |events| == 2 * HostCount(tasks, k) && Numbered(events, counter) && Paired(events, play)
    decreases |tasks| - k
  {
    NoEvents(counter, play);
    hide HostsFrom, Paired, Numbered;
    if k < |tasks| {
      var t := TaskResult(occ, dup, play, tasks[k], counter);
      HostsShape(occ, dup, play, tasks[k].id, tasks[k].hosts, 0, counter);
      TasksShape(occ, t.dup, play, tasks, k + 1, counter + |t.events|);
      var rest := TasksFrom(occ, t.dup, play, tasks, k + 1, counter + |t.events|).0;
      PairedSum(t.events, rest, play);
      NumberedSum(t.events, rest, counter);
    }
  }

  /** One play: its start, the pairs, its stats. */
  ghost predicate IsBlock(events: seq<Event>) {
    && |events| >= 2
    && events[0].kind.PlayStart? && events[|events| - 1].kind.Stats?
    && Paired(events[1..|events| - 1], events[0].uuid)
  }

  lemma BlockShape(dup: Counts, p: Play, counter: nat)
    ensures
      var block := PlayBlock(dup, p, counter).0;
      IsBlock(block) && Numbered(block, counter) && |block| == 2 + 2 * HostCount(p.tasks, 0)
  {
    hide TasksFrom;
    TasksShape(Occurrences(p.tasks), dup, p.id, p.tasks, 0, counter + 1);
    var events := TasksFrom(Occurrences(p.tasks), dup, p.id, p.tasks, 0, counter + 1).0;
    var block := PlayBlock(dup, p, counter).0;
    assert block[1..|block| - 1] == events;
  }

  ghost predicate IsStream(events: seq<Event>)
    decreases |events|
  {
    events == [] || exists n :: 2 <= n <= |events| && IsBlock(events[..n]) && IsStream(events[n..])
  }

  lemma NoEvents(counter: nat, play: string)
    ensures Numbered([], counter) && Paired([], play) && IsStream([])
  {
  }

  lemma StreamCons(block: seq<Event>, rest: seq<Event>)
    requires IsBlock(block) && IsStream(rest)
    ensures IsStream(block + rest)
  {
    var all := block + rest;
    assert all[..|block|] == block && all[|block|..] == rest;
  }

  function StreamLength(plays: seq<Play>, k: nat): nat
    requires k <= |plays|
    decreases |plays| - k
  {
    if k == |plays| then 0 else 2 + 2 * HostCount(plays[k].tasks, 0) + StreamLength(plays, k + 1)
  }

  lemma {:induction false} PlaysShape(dup: Counts, plays: seq<Play>, k: nat, counter: nat)
    requires k <= |plays|
    ensures
      var events := PlaysFrom(dup, plays, k, counter);
      Numbered(events, counter) && |events| == StreamLength(plays, k) && IsStream(events)
    decreases |plays| - k
  {
    NoEvents(counter, "");
    hide PlayBlock, IsBlock, IsStream, Numbered, HostCount;
    if k < |plays| {
      BlockShape(dup, plays[k], counter);
      var (block, dup') := PlayBlock(dup, plays[k], counter);
      var rest := PlaysFrom(dup', plays, k + 1, counter + |block|);
      PlaysShape(dup', plays, k + 1, counter + |block|);
      NumberedSum(block, rest, counter);
      StreamCons(block, rest);
    }
  }

  /** For every result: the k-th event has number k + 1; there are two events per
      play and two per task and host; and the stream is a sequence of blocks
      play start, (task start, runner event)*, stats, in which each runner event
      carries the uuid of the task start just before it. */
  lemma StreamShape(plays: seq<Play>)
    ensures forall k :: 0 <= k < |Stream(plays)| ==> Stream(plays)[k].counter == k + 1
    ensures |Stream(plays)| == StreamLength(plays, 0)
    ensures IsStream(Stream(plays))
  {
    PlaysShape(map[], plays, 0, 0);
  }

  lemma BlockOpens(dup: Counts, p: Play, counter: nat)
    ensures PlayBlock(dup, p, counter).0[0] == Event(PlayStart, p.id, p.id, counter + 1, "")
  {
  }

  lemma {:induction false} PlayOpensAt(dup: Counts, plays: seq<Play>, k: nat, i: nat, counter: nat)
    requires k <= i < |plays|
    ensures
      var p := StreamLength(plays, k) - StreamLength(plays, i);
      && p % 2 == 0 && 0 <= p < |PlaysFrom(dup, plays, k, counter)|
      && PlaysFrom(dup, plays, k, counter)[p] == Event(PlayStart, plays[i].id, plays[i].id, counter + p + 1, "")
    decreases i - k
  {
    hide PlayBlock, IsBlock, Numbered, HostCount;
    BlockShape(dup, plays[k], counter);
    BlockOpens(dup, plays[k], counter);
    var (block, dup') := PlayBlock(dup, plays[k], counter);
    if k < i {
      PlayOpensAt(dup', plays, k + 1, i, counter + |block|);
    }
  }

  /** The counter at the head of the loop over the plays is even for every play,
      so the guard that asks for 1 never holds: the first event of each play,
      and of the stream, is its play start. */
  lemma CounterIsEvenAtEachPlay(plays: seq<Play>, i: nat)
    requires i < |plays|
    ensures
      var counter := StreamLength(plays, 0) - StreamLength(plays, i);
      && counter != 1 && counter % 2 == 0 && 0 <= counter < |Stream(plays)|
      && Stream(plays)[counter] == Event(PlayStart, plays[i].id, plays[i].id, counter + 1, "")
  {
    PlayOpensAt(map[], plays, 0, i, 0);
  }

  // ----------------------------------------------- the order of the hosts

  /** An event without what belongs to the host. */
  function Skeleton(e: Event): Event {
    e.(kind := if IsRunner(e.kind) then RunnerOk else e.kind, host := "")
  }

  ghost predicate SameSkeleton(a: seq<Event>, b: seq<Event>) {
    |a| == |b| && forall i :: 0 <= i < |a| ==> Skeleton(a[i]) == Skeleton(b[i])
  }

  lemma SkeletonRefl(a: seq<Event>)
    ensures SameSkeleton(a, a)
  {
  }

  lemma SkeletonLength(a: seq<Event>, b: seq<Event>)
    requires SameSkeleton(a, b)
    ensures |a| == |b|
  {
  }

  lemma SkeletonSum(a: seq<Event>, b: seq<Event>, c: seq<Event>, d: seq<Event>)
    requires SameSkeleton(a, c) && SameSkeleton(b, d)
    ensures SameSkeleton(a + b, c + d)
  {
  }

  /** The same tasks, their hosts walked in another order. */
  ghost predicate Reordered(a: seq<Task>, b: seq<Task>) {
    |a| == |b| && forall i :: 0 <= i < |a| ==> a[i].id == b[i].id && |a[i].hosts| == |b[i].hosts|
  }

  lemma {:induction false} HostsReordered(occ: Counts, dup: Counts, play: string, id: string, a: seq<Host>,
                                          b: seq<Host>, k: nat, counter: nat)
    requires |a| == |b| && k <= |a|
    ensures
      var x := HostsFrom(occ, dup, play, id, a, k, counter);
      var y := HostsFrom(occ, dup, play, id, b, k, counter);
      x.id == y.id && x.dup == y.dup && SameSkeleton(x.events, y.events)
    decreases |a| - k
  {
    if k < |a| {
      var (id1, dup1) := Renamed(occ, dup, id);
      HostsReordered(occ, dup1, play, id1, a, b, k + 1, counter + 2);
    }
  }

  lemma {:induction false} OccurrencesReordered(a: seq<Task>, b: seq<Task>, k: nat, counts: Counts)
    requires Reordered(a, b) && k <= |a|
    ensures CountFrom(a, k, counts) == CountFrom(b, k, counts)
    decreases |a| - k
  {
    if k < |a| {
      OccurrencesReordered(a, b, k + 1, counts[a[k].id := Get(counts, a[k].id) + 1]);
    }
  }

  lemma {:induction false} TasksReordered(occ: Counts, dup: Counts, play: string, a: seq<Task>, b: seq<Task>, k: nat,
                                          counter: nat)
    requires Reordered(a, b) && k <= |a|
    ensures
      var (x, dupX) := TasksFrom(occ, dup, play, a, k, counter);
      var (y, dupY) := TasksFrom(occ, dup, play, b, k, counter);
      dupX == dupY && SameSkeleton(x, y)
    decreases |a| - k
  {
    hide HostsFrom, SameSkeleton;
    if k == |a| {
      SkeletonRefl([]);
    } else {
      HostsReordered(occ, dup, play, a[k].id, a[k].hosts, b[k].hosts, 0, counter);
      var t, u := TaskResult(occ, dup, play, a[k], counter), TaskResult(occ, dup, play, b[k], counter);
      SkeletonLength(t.events, u.events);
      TasksReordered(occ, t.dup, play, a, b, k + 1, counter + |t.events|);
      SkeletonSum(t.events, TasksFrom(occ, t.dup, play, a, k + 1, counter + |t.events|).0,
                  u.events, TasksFrom(occ, t.dup, play, b, k + 1, counter + |t.events|).0);
    }
  }

  ghost predicate PlaysReordered(a: seq<Play>, b: seq<Play>) {
    |a| == |b| && forall i :: 0 <= i < |a| ==> a[i].id == b[i].id && Reordered(a[i].tasks, b[i].tasks)
  }

  lemma {:induction false} StreamReordered(dup: Counts, a: seq<Play>, b: seq<Play>, k: nat, counter: nat)
    requires PlaysReordered(a, b) && k <= |a|
    ensures SameSkeleton(PlaysFrom(dup, a, k, counter), PlaysFrom(dup, b, k, counter))
    decreases |a| - k
  {
    hide PlayBlock, SameSkeleton;
    if k == |a| {
      SkeletonRefl([]);
    } else {
      BlockReordered(dup, a[k], b[k], counter);
      var (block, dup') := PlayBlock(dup, a[k], counter);
      SkeletonLength(block, PlayBlock(dup, b[k], counter).0);
      StreamReordered(dup', a, b, k + 1, counter + |block|);
      SkeletonSum(block, PlaysFrom(dup', a, k + 1, counter + |block|),
                  PlayBlock(dup, b[k], counter).0, PlaysFrom(dup', b, k + 1, counter + |block|));
    }
  }

  lemma BlockReordered(dup: Counts, a: Play, b: Play, counter: nat)
    requires a.id == b.id && Reordered(a.tasks, b.tasks)
    ensures
      var (x, dupX) := PlayBlock(dup, a, counter);
      var (y, dupY) := PlayBlock(dup, b, counter);
      dupX == dupY && SameSkeleton(x, y)
  {
    hide TasksFrom, CountFrom;
    OccurrencesReordered(a.tasks, b.tasks, 0, map[]);
    TasksReordered(Occurrences(a.tasks), dup, a.id, a.tasks, b.tasks, 0, counter + 1);
  }

  /** Uuids, parents, numbers and the kinds of start events do not depend on the
      order in which the hosts of a task are walked. */
  lemma HostOrderDoesNotMatter(a: seq<Play>, b: seq<Play>)
    requires PlaysReordered(a, b)
    ensures SameSkeleton(Stream(a), Stream(b))
  {
    StreamReordered(map[], a, b, 0, 0);
  }

  // ------------------------------------------------------------ decimal numbers

  /** A string of digits read as a decimal number. */
  function Value(s: string): nat {
    if s == [] || !('0' <= s[|s| - 1] <= '9') then 0
    else 10 * Value(s[..|s| - 1]) + (s[|s| - 1] as int - '0' as int)
  }

  /** The number in a suffix is written in decimal digits. */
  lemma {:induction false} ItoaIsDecimal(n: nat)
    ensures Value(Itoa(n)) == n && forall i :: 0 <= i < |Itoa(n)| ==> '0' <= Itoa(n)[i] <= '9'
  {
    DigitIs(n % 10);
    if n >= 10 {
      ItoaIsDecimal(n / 10);
      var s := Itoa(n);
      assert s[..|s| - 1] == Itoa(n / 10) && s[|s| - 1] == Digit(n % 10);
    } else {
      assert Itoa(n) == [Digit(n)] && Itoa(n)[..0] == [];
      assert Value([]) == 0;
    }
  }

  lemma DigitIs(n: nat)
    requires n < 10
    ensures Digit(n) as int == '0' as int + n
  {
  }
}
