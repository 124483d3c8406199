/** Under which labels samples are sent. */
module DeviceLabels {
  import opened Options
  import opened GoTime
  import opened SampleRequests
  import opened RequestSending
  import opened RemoteWriting
  import opened Delivery

  /** Every series of a request carries the device's name under its label, and otherwise
      the labels of a stored series. */
  ghost predicate NamesDevice(deviceID: string, request: Request) {
    forall x <- request :: "edgedeviceid" in x.labels && x.labels["edgedeviceid"] == deviceID
  }

  lemma {:induction false} PieceNamesDevice(deviceID: string, series: seq<Series>, from: nat, to: nat)
    requires from <= to <= Total(series) && NamesDevice(deviceID, series)
    ensures NamesDevice(deviceID, Piece(series, from, to))
  {
    if series != [] {
      var k := |series[0].points|;
      assert series[0] in series;
      PieceNamesDevice(deviceID, series[1..], Minus(from, k), Minus(to, k));
    }
  }

  lemma {:induction false} RequestsNameDevice(deviceID: string, series: seq<Series>, n: int, base: nat, k: nat)
    requires 0 < n && base <= Total(series) && NamesDevice(deviceID, series) && k < |RequestsFrom(series, n, base)|
    ensures NamesDevice(deviceID, RequestsFrom(series, n, base)[k])
    decreases Total(series) - base
  {
    hide Piece, NamesDevice;
    if k > 0 {
      RequestsNameDevice(deviceID, series, n, base + n, k - 1);
    } else {
      PieceNamesDevice(deviceID, series, base, Min(base + n, Total(series)));
    }
  }

  lemma {:induction false} AttemptsAreRequests(log: seq<Attempt>, script: Script, requests: seq<Request>, i: nat)
    requires |log| <= i < |SendAll(log, script, requests).1|
    ensures SendAll(log, script, requests).1[i].request in requests
    decreases |requests|
  {
    SendOneAttempts(log, script, requests[0]);
    var (ok, log') := SendOne(log, script, requests[0]);
    if ok {
      SendAllExtends(log', script, requests[1..]);
      var log'' := SendAll(log', script, requests[1..]).1;
      if i < |log'| {
        assert log''[i] == log''[..|log'|][i];
      } else {
        AttemptsAreRequests(log', script, requests[1..], i);
      }
    }
  }

  lemma RelabelNamesDevice(deviceID: string, series: seq<Series>)
    ensures NamesDevice(deviceID, Relabel(deviceID, series))
    ensures forall i :: 0 <= i < |series| ==>
              && Relabel(deviceID, series)[i].labels - {"edgedeviceid"} == series[i].labels - {"edgedeviceid"}
              && Relabel(deviceID, series)[i].points == series[i].points
  {
  }

  /** Everything one iteration sends names this device. */
  lemma SentUnderDevice(s: Settings, n: int, w: Writer, look: Look, i: nat)
    requires 0 < n && |w.log| <= i < |Iterate(s, n, w, look).0.log|
    ensures NamesDevice(s.deviceID, Iterate(s, n, w, look).0.log[i].request)
  {
    hide SendAll, Requests, Relabel, NamesDevice;
    if look.minTime.Some? {
      var start := RangeStart(w.lastWrite, look.minTime.value);
      var end := RangeEnd(w.lastWrite, look.minTime.value, look.maxTime, s.rangeDuration);
      var answer := look.query(ToDbTime(start), ToDbTime(end));
      if answer.Some? {
        var series := Relabel(s.deviceID, answer.value);
        AttemptsAreRequests(w.log, s.script, Requests(series, n), i);
        RelabelNamesDevice(s.deviceID, answer.value);
        forall request | request in Requests(series, n) ensures NamesDevice(s.deviceID, request) {
          RequestInList(series, n, s.deviceID, request);
        }
      }
    }
  }

  lemma RequestInList(series: seq<Series>, n: int, deviceID: string, request: Request)
    requires 0 < n && NamesDevice(deviceID, series) && request in Requests(series, n)
    ensures NamesDevice(deviceID, request)
  {
    var k :| 0 <= k < |Requests(series, n)| && Requests(series, n)[k] == request;
    RequestsNameDevice(deviceID, series, n, 0, k);
  }

  ghost predicate LogNamesDevice(deviceID: string, log: seq<Attempt>) {
    forall i :: 0 <= i < |log| ==> NamesDevice(deviceID, log[i].request)
  }

  lemma IterateNamesDevice(s: Settings, n: int, w: Writer, look: Look)
    requires 0 < n && LogNamesDevice(s.deviceID, w.log)
    ensures LogNamesDevice(s.deviceID, Iterate(s, n, w, look).0.log)
  {
    hide Iterate, NamesDevice;
    var log' := Iterate(s, n, w, look).0.log;
    IterateExtendsLog(s, n, w, look);
    forall i | 0 <= i < |log'| ensures NamesDevice(s.deviceID, log'[i].request) {
      if i < |w.log| {
        assert log'[i] == log'[..|w.log|][i];
      } else {
        SentUnderDevice(s, n, w, look, i);
      }
    }
  }

  lemma {:induction false} CallNamesDevice(s: Settings, n: int, w: Writer, looks: seq<Look>, k: nat)
    requires 0 < n && k <= |looks| && LogNamesDevice(s.deviceID, w.log)
    ensures LogNamesDevice(s.deviceID, WriteFrom(s, n, w, looks, k).log)
    decreases |looks| - k
  {
    hide Iterate, LogNamesDevice;
    if k < |looks| && w.lastWrite < looks[k].maxTime {
      IterateNamesDevice(s, n, w, looks[k]);
      CallNamesDevice(s, n, Iterate(s, n, w, looks[k]).0, looks, k + 1);
    }
  }

  /** Over every run, every series of every request that is sent carries this device's
      id under the label "edgedeviceid". */
  lemma {:induction false} RunNamesDevice(s: Settings, w: Writer, events: seq<Event>)
    requires ValidEvents(events) && LogNamesDevice(s.deviceID, w.log)
    ensures LogNamesDevice(s.deviceID, Run(s, w, events).log)
    decreases |events|
  {
    hide WriteFrom, LogNamesDevice;
    if events != [] {
      if events[0].Call? {
        CallNamesDevice(s, events[0].n, w, events[0].looks, 0);
      }
      RunNamesDevice(s, Step(s, w, events[0]), events[1..]);
    }
  }
}
