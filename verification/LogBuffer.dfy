/** The buffer between the log writers and a log transport. */
module LogBuffer {
  import opened Options

  datatype LogEntry = LogEntry(data: string, workload: string) {
    function Size(): nat {
      |data|
    }
  }

  datatype Buffer = Buffer(maxlen: int, data: seq<LogEntry>, currentSize: int)

  function TotalSize(entries: seq<LogEntry>): nat {
    if entries == [] then 0 else entries[0].Size() + TotalSize(entries[1..])
  }

  /** The size field is the size of what is queued, and without its last entry
      the queue is within the limit: the limit is passed at most once. */
  ghost predicate Sound(b: Buffer) {
    && b.currentSize == TotalSize(b.data)
    && (b.data != [] ==> TotalSize(b.data[..|b.data| - 1]) <= b.maxlen)
  }

  /** Write: refused without an entry and over the limit. */
  function Written(b: Buffer, entry: Option<LogEntry>): (bool, Buffer) {
    if entry.None? || b.currentSize > b.maxlen then (false, b)
    else (true, b.(data := b.data + [entry.value], currentSize := b.currentSize + entry.value.Size()))
  }

  /** ReadLine. */
  function Taken(b: Buffer): (Option<LogEntry>, Buffer)
    requires Sound(b)
  {
    if b.currentSize <= 0 then (None, b)
    else (Some(b.data[0]), b.(data := b.data[1..], currentSize := b.currentSize - b.data[0].Size()))
  }

  // ------------------------------------------------------------------ sizes

  lemma {:induction false} TotalOfSum(a: seq<LogEntry>, b: seq<LogEntry>)
    ensures TotalSize(a + b) == TotalSize(a) + TotalSize(b)
  {
    if a == [] {
      assert a + b == b;
    } else {
      assert (a + b)[1..] == a[1..] + b;
      TotalOfSum(a[1..], b);
    }
  }

  lemma TotalOfOne(entry: LogEntry)
    ensures TotalSize([entry]) == entry.Size()
  {
  }

  /** Nothing is queued but entries without any byte. */
  ghost predicate AllEmpty(entries: seq<LogEntry>) {
    forall i :: 0 <= i < |entries| ==> entries[i].Size() == 0
  }

  lemma {:induction false} ZeroTotal(entries: seq<LogEntry>)
    ensures TotalSize(entries) == 0 <==> AllEmpty(entries)
  {
    if entries != [] {
      ZeroTotal(entries[1..]);
      assert forall i :: 1 <= i < |entries| ==> entries[i] == entries[1..][i - 1];
      assert forall i :: 0 <= i < |entries| - 1 ==> entries[1..][i] == entries[i + 1];
    }
  }

  // ------------------------------------------------------------- both calls

  /** An entry is accepted exactly when the queue is within the limit. */
  lemma WriteKeepsSound(b: Buffer, entry: Option<LogEntry>)
    requires Sound(b)
    ensures
      var (ok, after) := Written(b, entry);
      && Sound(after) && after.maxlen == b.maxlen
      && (ok <==> entry.Some? && TotalSize(b.data) <= b.maxlen)
      && after.data == (if ok then b.data + [entry.value] else b.data)
  {
    if entry.Some? {
      TotalOfSum(b.data, [entry.value]);
      TotalOfOne(entry.value);
      assert (b.data + [entry.value])[..|b.data|] == b.data;
    }
  }

  /** A read gives the oldest entry; it gives nothing exactly when every queued
      entry is empty, which need not mean that nothing is queued. */
  lemma ReadKeepsSound(b: Buffer)
    requires Sound(b)
    ensures
      var (entry, after) := Taken(b);
      && Sound(after) && after.maxlen == b.maxlen
      && (entry.None? <==> AllEmpty(b.data))
      && (if entry.None? then after == b else b.data == [entry.value] + after.data)
  {
    ZeroTotal(b.data);
    if b.currentSize > 0 {
      var rest := b.data[1..];
      assert b.data == [b.data[0]] + rest;
      if rest != [] {
        var body := b.data[..|b.data| - 1];
        assert body[1..] == rest[..|rest| - 1];
      }
    }
  }

  /** The total is over the limit by at most the last entry. */
  lemma SoftLimit(b: Buffer)
    requires Sound(b)
    ensures b.currentSize > b.maxlen && b.data != [] ==>
              b.currentSize - b.data[|b.data| - 1].Size() <= b.maxlen
    ensures b.data == [] ==> b.currentSize == 0
  {
    if b.data != [] {
      var n := |b.data| - 1;
      assert b.data == b.data[..n] + [b.data[n]];
      TotalOfSum(b.data[..n], [b.data[n]]);
      TotalOfOne(b.data[n]);
    }
  }

  class FIFOLog {
    const maxlen: int
    var data: seq<LogEntry>
    var currentSize: int

    ghost function View(): Buffer
      reads this
    {
      Buffer(maxlen, data, currentSize)
    }

    constructor (maxSize: int)
      ensures View() == Buffer(maxSize, [], 0) && Sound(View())
    {
      maxlen := maxSize;
      data := [];
      currentSize := 0;
    }

    method CurrentSize() returns (size: int)
      requires Sound(View())
      ensures size == TotalSize(data)
    {
      size := currentSize;
    }

    method Write(entry: Option<LogEntry>) returns (ok: bool)
      requires Sound(View())
      modifies this
      ensures (ok, View()) == Written(old(View()), entry) && Sound(View())
    {
      WriteKeepsSound(View(), entry);
      if entry.None? {
        return false;
      }
      if currentSize > maxlen {
        return false;
      }
      data := data + [entry.value];
      currentSize := currentSize + entry.value.Size();
      ok := true;
    }

    method ReadLine() returns (entry: Option<LogEntry>)
      requires Sound(View())
      modifies this
      ensures (entry, View()) == Taken(old(View())) && Sound(View())
    {
      ReadKeepsSound(View());
      if currentSize <= 0 {
        return None;
      }
      var res := data[0];
      data := data[1..];
      currentSize := currentSize - res.Size();
      entry := Some(res);
    }
  }
}
