/** The dispatcher that turns playbook results into events, renaming the ids of
    repeated tasks in place. */
module EventTransformer {
  import opened TaskEvents
  import TaskUuids

  /** The part of a task that is shared by pointer and renamed in place. */
  class TaskItem {
    var id: string

    constructor (id: string)
      ensures this.id == id
    {
      this.id := id;
    }
  }

  datatype TaskRecord = TaskRecord(item: TaskItem, hosts: seq<Host>)

  datatype PlayRecord = PlayRecord(id: string, tasks: seq<TaskRecord>)

  ghost function Items(tasks: seq<TaskRecord>): set<TaskItem> {
    set t <- tasks :: t.item
  }

  ghost function AllItems(plays: seq<PlayRecord>): set<TaskItem> {
    set p <- plays, t <- p.tasks :: t.item
  }

  /** The tasks as values. */
  ghost function View(tasks: seq<TaskRecord>): (r: seq<Task>)
    reads Items(tasks)
    ensures |r| == |tasks|
  {
    seq(|tasks|, k requires 0 <= k < |tasks| reads Items(tasks) => Task(tasks[k].item.id, tasks[k].hosts))
  }

  ghost function PlayView(p: PlayRecord): Play
    reads Items(p.tasks)
  {
    Play(p.id, View(p.tasks))
  }

  ghost function PlaysView(plays: seq<PlayRecord>): (r: seq<Play>)
    reads AllItems(plays)
    ensures |r| == |plays|
  {
    seq(|plays|, k requires 0 <= k < |plays| reads AllItems(plays) =>
      assert Items(plays[k].tasks) <= AllItems(plays);
      PlayView(plays[k]))
  }

  /** Tasks do not share their items. */
  ghost predicate Separate(tasks: seq<TaskRecord>) {
    forall a, b :: 0 <= a < b < |tasks| ==> tasks[a].item != tasks[b].item
  }

  ghost predicate AllSeparate(plays: seq<PlayRecord>) {
    && (forall i :: 0 <= i < |plays| ==> Separate(plays[i].tasks))
    && forall i, k :: 0 <= i < k < |plays| ==> Items(plays[i].tasks) !! Items(plays[k].tasks)
  }

  ghost predicate HaveIds(tasks: seq<TaskRecord>, ids: seq<string>)
    reads Items(tasks)
  {
    |ids| == |tasks| && forall q :: 0 <= q < |tasks| ==> tasks[q].item.id == ids[q]
  }

  /** The first tasks have these ids, the others what they came with. */
  ghost predicate CurrentIds(tasks: seq<TaskRecord>, was: seq<Task>, gone: seq<string>)
    reads Items(tasks)
  {
    && |was| == |tasks|
    && forall q :: 0 <= q < |tasks| ==>
         tasks[q].hosts == was[q].hosts && tasks[q].item.id == if q < |gone| then gone[q] else was[q].id
  }

  /** The ids the tasks of a play are left with, from task k on. */
  ghost function IdsFrom(occ: Counts, dup: Counts, play: string, tasks: seq<Task>, k: nat,
                         counter: nat): (r: seq<string>)
    requires k <= |tasks|
    ensures |r| == |tasks| - k
    decreases |tasks| - k
  {
    if k == |tasks| then []
    else
      var t := TaskResult(occ, dup, play, tasks[k], counter);
      [t.id] + IdsFrom(occ, t.dup, play, tasks, k + 1, counter + |t.events|)
  }

  /** countOccurence. */
  method CountOccurrences(tasks: seq<TaskRecord>) returns (occ: Counts)
    ensures occ == Occurrences(View(tasks))
  {
    occ := map[];
    for k := 0 to |tasks|
      invariant CountFrom(View(tasks), 0, map[]) == CountFrom(View(tasks), k, occ)
    {
      var id := tasks[k].item.id;
      occ := occ[id := Get(occ, id) + 1];
    }
  }

  class AnsibleDispatcher {
    var msgList: seq<Event>

    constructor ()
      ensures msgList == []
    {
      msgList := [];
    }

    /** The start event of a task on a host; a repeated id is renamed first, in
        the item itself. */
    method PlaybookOnTaskStart(play: string, counter: nat, item: TaskItem, host: Host, occ: Counts, dup: Counts)
      returns (event: Event, dup': Counts)
      modifies item
      ensures (item.id, dup') == Renamed(occ, dup, old(item.id))
      ensures event == Event(TaskStart, item.id, play, counter, host.name)
    {
      dup' := dup;
      if item.id in occ {
        if occ[item.id] > 1 {
          dup' := dup'[item.id := Get(dup', item.id) + 1];
          item.id := item.id + "_" + Itoa(dup'[item.id]);
        }
      }
      event := Event(TaskStart, item.id, play, counter, host.name);
    }

    /** The inner loop over the hosts of one task. */
    method HostEvents(play: string, t: TaskRecord, occ: Counts, dup: Counts, counter: nat)
      returns (events: seq<Event>, dup': Counts)
      modifies t.item
      ensures TaskRun(events, t.item.id, dup') == TaskResult(occ, dup, play, Task(old(t.item.id), t.hosts), counter)
    {
      var msgCounter := counter;
      events, dup' := [], dup;
      for k := 0 to |t.hosts|
        invariant
          var r := HostsFrom(occ, dup', play, t.item.id, t.hosts, k, msgCounter);
          r.(events := events + r.events) == HostsFrom(occ, dup, play, old(t.item.id), t.hosts, 0, counter)
      {
        var host := t.hosts[k];
        ghost var done, rest := events, HostsFrom(occ, dup', play, t.item.id, t.hosts, k, msgCounter);
        msgCounter := msgCounter + 1;
        var start: Event;
        start, dup' := PlaybookOnTaskStart(play, msgCounter, t.item, host, occ, dup');
        events := events + [start];
        msgCounter := msgCounter + 1;
        if host.failed {
          events := events + [Event(RunnerFailed, t.item.id, start.uuid, msgCounter, host.name)];
        } else if host.skipped {
          events := events + [Event(RunnerSkipped, t.item.id, start.uuid, msgCounter, host.name)];
        } else {
          events := events + [Event(RunnerOk, t.item.id, start.uuid, msgCounter, host.name)];
        }
        assert events == done + HostPair(play, t.item.id, host, msgCounter - 2);
        Regroup(done, HostPair(play, t.item.id, host, msgCounter - 2),
                HostsFrom(occ, dup', play, t.item.id, t.hosts, k + 1, msgCounter).events);
      }
    }

    /** The loop over the tasks of one play. */
    method TaskEventsOf(p: PlayRecord, occ: Counts, dup: Counts, counter: nat)
      returns (events: seq<Event>, dup': Counts)
      requires Separate(p.tasks)
      modifies Items(p.tasks)
      ensures (events, dup') == TasksFrom(occ, dup, p.id, old(View(p.tasks)), 0, counter)
      ensures HaveIds(p.tasks, IdsFrom(occ, dup, p.id, old(View(p.tasks)), 0, counter))
    {
      ghost var was := View(p.tasks);
      ghost var gone: seq<string> := [];
      events, dup' := [], dup;
      var msgCounter: nat := counter;
      Beginning(occ, dup, p.id, was, counter);
      hide TaskResult, TasksFrom, IdsFrom, Midway, Separate;
      for j := 0 to |p.tasks|
        invariant |gone| == j && CurrentIds(p.tasks, was, gone)
        invariant Midway(events, gone, occ, dup, dup', p.id, was, counter, j, msgCounter)
      {
        TaskStep(events, gone, occ, dup, dup', p.id, was, counter, j, msgCounter);
        var next;
        ghost var id;
        next, dup', id := TaskTurn(p, j, occ, dup', msgCounter, was, gone);
        msgCounter := msgCounter + |next|;
        events := events + next;
        gone := gone + [id];
      }
      NoTaskLeft(events, gone, occ, dup, dup', p.id, was, counter, msgCounter);
    }

    /** One turn of that loop; tasks before j have been renamed, those after have
        not. */
    method TaskTurn(p: PlayRecord, j: nat, occ: Counts, dup: Counts, counter: nat, ghost was: seq<Task>,
                    ghost gone: seq<string>)
      returns (next: seq<Event>, dup': Counts, ghost id: string)
      requires Separate(p.tasks) && CurrentIds(p.tasks, was, gone) && |gone| == j < |p.tasks|
      modifies p.tasks[j].item
      ensures TaskRun(next, id, dup') == TaskResult(occ, dup, p.id, was[j], counter)
      ensures CurrentIds(p.tasks, was, gone + [id])
    {
      hide HostsFrom;
      next, dup' := HostEvents(p.id, p.tasks[j], occ, dup, counter);
      id := p.tasks[j].item.id;
    }

    /** eventTransformer: the events of a whole result. The guard for a playbook
        start event asks for counter 1 where the counter is always even. */
    method Transform(plays: seq<PlayRecord>) returns (events: seq<Event>)
      requires AllSeparate(plays)
      modifies AllItems(plays)
      ensures events == Stream(old(PlaysView(plays)))
    {
      ghost var was := PlaysView(plays);
      hide PlayBlock, View, Separate;
      var msgCounter: nat := 0;
      var dup: Counts := map[];
      events := [];
      for i := 0 to |plays|
        invariant msgCounter == |events| && msgCounter % 2 == 0
        invariant Stream(was) == events + PlaysFrom(dup, was, i, msgCounter)
        invariant forall k :: i <= k < |plays| ==> PlayView(plays[k]) == was[k]
      {
        if msgCounter == 1 {
          assert false;
        }
        var block;
        block, dup := PlayEvents(plays, i, dup, msgCounter);
        Regroup(events, block, PlaysFrom(dup, was, i + 1, msgCounter + |block|));
        events := events + block;
        msgCounter := msgCounter + |block|;
      }
    }

    /** One turn of the loop over the plays. */
    method PlayEvents(plays: seq<PlayRecord>, i: nat, dup: Counts, counter: nat)
      returns (block: seq<Event>, dup': Counts)
      requires i < |plays| && AllSeparate(plays)
      modifies Items(plays[i].tasks)
      ensures (block, dup') == PlayBlock(dup, old(PlayView(plays[i])), counter) && |block| % 2 == 0
      ensures forall k :: i < k < |plays| ==> PlayView(plays[k]) == old(PlayView(plays[k]))
    {
      var p := plays[i];
      BlockShape(dup, PlayView(p), counter);
      hide TasksFrom, IdsFrom, CountFrom;
      var occ := CountOccurrences(p.tasks);
      var events;
      events, dup' := TaskEventsOf(p, occ, dup, counter + 1);
      block := [Event(PlayStart, p.id, p.id, counter + 1, "")] + events
               + [Event(Stats, "", "", counter + 2 + |events|, "")];
    }

    /** AddEvent: what is produced is appended to what was there. */
    method AddEvent(plays: seq<PlayRecord>) returns (all: seq<Event>)
      requires AllSeparate(plays)
      modifies this, AllItems(plays)
      ensures msgList == old(msgList) + Stream(old(PlaysView(plays))) && all == msgList
    {
      var events := Transform(plays);
      msgList := msgList + events;
      all := msgList;
    }
  }

  /** After k tasks, their events and final ids stand before what the rest still
      gives. */
  ghost predicate Midway(events: seq<Event>, gone: seq<string>, occ: Counts, dup: Counts, now: Counts, play: string,
                         tasks: seq<Task>, counter: nat, k: nat, at: nat)
  {
    && k <= |tasks|
    && IdsFrom(occ, dup, play, tasks, 0, counter) == gone + IdsFrom(occ, now, play, tasks, k, at)
    && TasksFrom(occ, dup, play, tasks, 0, counter).0 == events + TasksFrom(occ, now, play, tasks, k, at).0
    && TasksFrom(occ, dup, play, tasks, 0, counter).1 == TasksFrom(occ, now, play, tasks, k, at).1
  }

  lemma Beginning(occ: Counts, dup: Counts, play: string, tasks: seq<Task>, counter: nat)
    ensures Midway([], [], occ, dup, dup, play, tasks, counter, 0, counter)
  {
    hide TasksFrom, IdsFrom;
    var events, ids := TasksFrom(occ, dup, play, tasks, 0, counter).0, IdsFrom(occ, dup, play, tasks, 0, counter);
    assert [] + events == events && [] + ids == ids;
  }

  lemma TaskStep(events: seq<Event>, gone: seq<string>, occ: Counts, dup: Counts, now: Counts, play: string,
                 tasks: seq<Task>, counter: nat, k: nat, at: nat)
    requires Midway(events, gone, occ, dup, now, play, tasks, counter, k, at) && k < |tasks|
    ensures
      var t := TaskResult(occ, now, play, tasks[k], at);
      Midway(events + t.events, gone + [t.id], occ, dup, t.dup, play, tasks, counter, k + 1, at + |t.events|)
  {
    TaskUnfolds(occ, now, play, tasks, k, at);
    hide TaskResult, TasksFrom, IdsFrom;
    var t := TaskResult(occ, now, play, tasks[k], at);
    Regroup(events, t.events, TasksFrom(occ, t.dup, play, tasks, k + 1, at + |t.events|).0);
    RegroupIds(gone, [t.id], IdsFrom(occ, t.dup, play, tasks, k + 1, at + |t.events|));
  }

  lemma RegroupIds(a: seq<string>, b: seq<string>, c: seq<string>)
    ensures (a + b) + c == a + (b + c)
  {
  }

  /** The ids that the loop leaves in the items are the final ids of the tasks. */
  lemma {:induction false} ItemsEndWithFinalIds(tasks: seq<Task>, dup: Counts, play: string, k: nat, j: nat,
                                                counter: nat)
    requires k <= j < |tasks|
    ensures IdsFrom(Occurrences(tasks), TaskUuids.CountersAt(tasks, dup, k), play, tasks, k, counter)[j - k]
         == TaskUuids.FinalId(tasks, dup, j)
    decreases j - k
  {
    hide CountFrom, HostsFrom, TaskUuids.CountersAt, TaskUuids.RenamedTimes;
    var occ, now := Occurrences(tasks), TaskUuids.CountersAt(tasks, dup, k);
    TaskUuids.HostsCount(occ, now, play, tasks[k].id, tasks[k].hosts, 0, counter);
    TaskUuids.NextCounters(tasks, dup, play, k, counter);
    if k < j {
      var t := TaskResult(occ, now, play, tasks[k], counter);
      ItemsEndWithFinalIds(tasks, dup, play, k + 1, j, counter + |t.events|);
    }
  }

  lemma TaskUnfolds(occ: Counts, dup: Counts, play: string, tasks: seq<Task>, k: nat, counter: nat)
    requires k < |tasks|
    ensures
      var t := TaskResult(occ, dup, play, tasks[k], counter);
      var rest := TasksFrom(occ, t.dup, play, tasks, k + 1, counter + |t.events|);
      && TasksFrom(occ, dup, play, tasks, k, counter) == (t.events + rest.0, rest.1)
      && IdsFrom(occ, dup, play, tasks, k, counter)
         == [t.id] + IdsFrom(occ, t.dup, play, tasks, k + 1, counter + |t.events|)
  {
    hide TaskResult;
  }

  lemma NoTaskLeft(events: seq<Event>, gone: seq<string>, occ: Counts, dup: Counts, now: Counts, play: string,
                   tasks: seq<Task>, counter: nat, at: nat)
    requires Midway(events, gone, occ, dup, now, play, tasks, counter, |tasks|, at)
    ensures TasksFrom(occ, dup, play, tasks, 0, counter) == (events, now)
    ensures IdsFrom(occ, dup, play, tasks, 0, counter) == gone
  {
    assert TasksFrom(occ, now, play, tasks, |tasks|, at) == ([], now);
    assert IdsFrom(occ, now, play, tasks, |tasks|, at) == [];
    hide TasksFrom, IdsFrom;
    assert events + [] == events && gone + [] == gone;
  }

  lemma Regroup(a: seq<Event>, b: seq<Event>, c: seq<Event>)
    ensures (a + b) + c == a + (b + c)
  {
  }
}
