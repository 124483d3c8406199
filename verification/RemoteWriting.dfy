/** The remote writer: a cursor that moves over the metrics store in windows,
    kept in memory and in a file. */
module RemoteWriting {
  import opened Options
  import opened GoTime
  import opened SampleRequests
  import opened RequestSending

  const DEVICE_LABEL := "edgedeviceid"

  /** How storing the cursor ended: the file holds the new value, keeps the old
      one, or is left without a readable number. */
  datatype SaveOutcome = Stored | Kept | Emptied

  type Store = iset<Labelled>

  /** What one iteration of Write sees. The store changes under the writer, so
      its contents are recorded separately for the moment MinTime was read and
      the moment the range was read. */
  datatype Look = Look(
    maxTime: int,
    minTime: Option<int>,
    query: (int, int) -> Option<seq<Series>>,
    save: SaveOutcome,
    atMin: Store,
    atQuery: Store)

  /** A range that Write finished: it moved the cursor from `after` to `end`. */
  datatype Window = Window(after: int, start: int, end: int, look: Look)

  datatype Writer = Writer(lastWrite: int, saved: Option<int>, log: seq<Attempt>, windows: seq<Window>)

  datatype Settings = Settings(deviceID: string, rangeDuration: int, script: Script)

  function Max(a: int, b: int): int {
    if a >= b then a else b
  }

  /** First and last instant of the next range. */
  function RangeStart(last: int, min: int): int {
    Max(last + NANOS_PER_MILLI, min)
  }

  function RangeEnd(last: int, min: int, max: int, duration: int): int {
    Min(RangeStart(last, min) + duration, max)
  }

  function WithDevice(deviceID: string, labels: Labels): Labels {
    labels[DEVICE_LABEL := deviceID]
  }

  function Relabel(deviceID: string, series: seq<Series>): (r: seq<Series>)
    ensures |r| == |series|
  {
    seq(|series|, i requires 0 <= i < |series| =>
      Series(WithDevice(deviceID, series[i].labels), series[i].points))
  }

  function AfterSave(before: Option<int>, cursor: int, outcome: SaveOutcome): Option<int> {
    match outcome
    case Stored => Some(SavedCursor(cursor))
    case Kept => before
    case Emptied => None
  }

  /** One iteration of Write past the check of MaxTime: the writer afterwards,
      and whether the loop goes on. */
  function Iterate(s: Settings, n: int, w: Writer, look: Look): (Writer, bool)
    requires 0 < n
  {
    if look.minTime.None? then (w, false)
    else
      var start := RangeStart(w.lastWrite, look.minTime.value);
      var end := RangeEnd(w.lastWrite, look.minTime.value, look.maxTime, s.rangeDuration);
      match look.query(ToDbTime(start), ToDbTime(end))
      case None => (w, false)
      case Some(series) =>
        var (ok, log') := SendAll(w.log, s.script, Requests(Relabel(s.deviceID, series), n));
        if !ok then (w.(log := log'), false)
        else (Writer(end, AfterSave(w.saved, end, look.save), log',
                     w.windows + [Window(w.lastWrite, start, end, look)]), true)
  }

  /** A call of Write that sees the given looks, one per iteration, from look k
      on; a call that runs out of looks is one that was cut off. */
  function WriteFrom(s: Settings, n: int, w: Writer, looks: seq<Look>, k: nat): Writer
    requires 0 < n && k <= |looks|
    decreases |looks| - k
  {
    if k == |looks| || looks[k].maxTime <= w.lastWrite then w
    else
      var (w', more) := Iterate(s, n, w, looks[k]);
      if more then WriteFrom(s, n, w', looks, k + 1) else w'
  }

  function WriteCall(s: Settings, n: int, w: Writer, looks: seq<Look>): Writer
    requires 0 < n
  {
    WriteFrom(s, n, w, looks, 0)
  }

  /** Where a new process starts: at the saved cursor if there is one. */
  function Resume(saved: Option<int>): int {
    match saved
    case None => ZERO_TIME
    case Some(i) => LoadedCursor(i)
  }

  class RemoteWrite {
    const settings: Settings
    var lastWrite: int
    var cursorFile: Option<int>
    ghost var windows: seq<Window>

    /** NewRemoteWrite: reads the cursor file. */
    constructor (settings: Settings, cursorFile: Option<int>)
      ensures this.settings == settings && this.cursorFile == cursorFile && windows == []
      ensures lastWrite == Resume(cursorFile)
    {
      this.settings := settings;
      this.cursorFile := cursorFile;
      windows := [];
      if cursorFile.Some? {
        var i := cursorFile.value;
        lastWrite := Unix(Quot(i, NANOS_PER_SECOND), Rem(i, NANOS_PER_SECOND));
      } else {
        lastWrite := ZERO_TIME;
      }
    }

    ghost function State(client: WriteClient): Writer
      reads this, client
    {
      Writer(lastWrite, cursorFile, client.log, windows)
    }

    /** The body of the loop of Write: reads one range, sends it, and moves the
        cursor behind it. */
    method WriteNextRange(client: WriteClient, n: int, look: Look) returns (more: bool)
      requires 0 < n && client.script == settings.script
      modifies this, client
      ensures (State(client), more) == Iterate(settings, n, old(State(client)), look)
    {
      if look.minTime.None? {
        return false;
      }
      var rangeStart := lastWrite + NANOS_PER_MILLI;
      if rangeStart < look.minTime.value {
        rangeStart := look.minTime.value;
      }
      var rangeEnd := rangeStart + settings.rangeDuration;
      if rangeEnd > look.maxTime {
        rangeEnd := look.maxTime;
      }
      var answer := look.query(ToDbTime(rangeStart), ToDbTime(rangeEnd));
      if answer.None? {
        return false;
      }
      var series := Relabel(settings.deviceID, answer.value);
      NoSeriesNoRequests(n);
      if |series| != 0 {
        var ok := WriteRange(series, client, n);
        if !ok {
          return false;
        }
      }
      windows := windows + [Window(lastWrite, rangeStart, rangeEnd, look)];
      lastWrite := rangeEnd;
      cursorFile := AfterSave(cursorFile, lastWrite, look.save);
      return true;
    }

    /** Write: sends range after range until the store is used up, a range is
        given up, or the store cannot be read. */
    method Write(client: WriteClient, n: int, looks: seq<Look>)
      requires 0 < n && client.script == settings.script
      modifies this, client
      ensures State(client) == WriteCall(settings, n, old(State(client)), looks)
    {
      hide Iterate;
      var k := 0;
      ghost var end := WriteCall(settings, n, State(client), looks);
      while k < |looks| && looks[k].maxTime > lastWrite
        invariant 0 <= k <= |looks|
        invariant WriteFrom(settings, n, State(client), looks, k) == end
      {
        var more := WriteNextRange(client, n, looks[k]);
        if !more {
          return;
        }
        k := k + 1;
      }
    }
  }

  lemma NoSeriesNoRequests(n: int)
    requires 0 < n
    ensures Requests([], n) == []
  {
  }
}
