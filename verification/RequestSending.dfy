/** Sending write requests: bounded retries for one request, and the loop that
    fills requests sample by sample and sends each one as soon as it is full. */
module RequestSending {
  import opened SampleRequests

  /** What the remote server answers to one attempt. A recoverable failure may
      be retried; any other failure makes the sender skip the request. */
  datatype Reply = Accepted | Recoverable | Rejected

  datatype Attempt = Attempt(request: Request, reply: Reply)

  /** The k-th attempt on a client gets the reply script(k). */
  type Script = nat -> Reply

  const NUM_TRIES := 3

  /** The connection to the server, with the record of all attempts. */
  class WriteClient {
    const script: Script
    var log: seq<Attempt>

    constructor (script: Script)
      ensures this.script == script && log == []
    {
      this.script := script;
      log := [];
    }

    method Write(request: Request) returns (reply: Reply)
      modifies this
      ensures reply == script(|old(log)|)
      ensures log == old(log) + [Attempt(request, reply)]
    {
      reply := script(|log|);
      log := log + [Attempt(request, reply)];
    }
  }

  // ----------------------------------------------------- specification

  /** Outcome of the tries number `try` and later: whether to go on with the
      next request, and the record afterwards. */
  function SendFrom(log: seq<Attempt>, script: Script, request: Request, try: nat): (bool, seq<Attempt>)
    requires 1 <= try <= NUM_TRIES
    decreases NUM_TRIES - try
  {
    var reply := script(|log|);
    var log' := log + [Attempt(request, reply)];
    if !reply.Recoverable? then (true, log')
    else if try == NUM_TRIES then (false, log')
    else SendFrom(log', script, request, try + 1)
  }

  function SendOne(log: seq<Attempt>, script: Script, request: Request): (bool, seq<Attempt>) {
    SendFrom(log, script, request, 1)
  }

  /** Sends the requests in turn and stops at the first that is given up. */
  function SendAll(log: seq<Attempt>, script: Script, requests: seq<Request>): (bool, seq<Attempt>)
    decreases |requests|
  {
    if requests == [] then (true, log)
    else
      var (ok, log') := SendOne(log, script, requests[0]);
      if ok then SendAll(log', script, requests[1..]) else (false, log')
  }

  lemma SendAllCons(log: seq<Attempt>, script: Script, request: Request, rest: seq<Request>)
    ensures
      var (ok, log') := SendOne(log, script, request);
      SendAll(log, script, [request] + rest) == if ok then SendAll(log', script, rest) else (false, log')
  {
  }

  /** The request got a final answer: stored, or refused for good. */
  ghost predicate Settled(log: seq<Attempt>, request: Request) {
    exists i :: 0 <= i < |log| && log[i].request == request && !log[i].reply.Recoverable?
  }

  ghost predicate Extends(log: seq<Attempt>, log': seq<Attempt>) {
    |log| <= |log'| && log'[..|log|] == log
  }

  // -------------------------------------------------------- properties

  /** One request costs one to three attempts, all carrying that request, all
      but the last failing recoverably; the sender goes on exactly when the
      last one is final, and gives up exactly after three recoverable failures. */
  lemma SendOneAttempts(log: seq<Attempt>, script: Script, request: Request)
    ensures
      var (ok, log') := SendOne(log, script, request);
      var n := |log'| - |log|;
      && 1 <= n <= 3
      && Extends(log, log')
      && (forall i :: |log| <= i < |log'| ==> log'[i] == Attempt(request, script(i)))
      && (forall i :: |log| <= i < |log'| - 1 ==> log'[i].reply.Recoverable?)
      && (ok <==> !log'[|log'| - 1].reply.Recoverable?)
      && (!ok ==> n == 3)
  {
  }

  lemma SettledStays(log: seq<Attempt>, log': seq<Attempt>, request: Request)
    requires Extends(log, log') && Settled(log, request)
    ensures Settled(log', request)
  {
  }

  lemma {:induction false} SendAllExtends(log: seq<Attempt>, script: Script, requests: seq<Request>)
    ensures Extends(log, SendAll(log, script, requests).1)
    decreases |requests|
  {
    if requests != [] {
      SendOneAttempts(log, script, requests[0]);
      var (ok, log') := SendOne(log, script, requests[0]);
      if ok {
        SendAllExtends(log', script, requests[1..]);
        var log'' := SendAll(log', script, requests[1..]).1;
        assert log''[..|log|] == log''[..|log'|][..|log|];
      }
    }
  }

  /** Going on to the next range means every request has its final answer. */
  lemma {:induction false} SendAllSettles(log: seq<Attempt>, script: Script, requests: seq<Request>, k: nat)
    requires SendAll(log, script, requests).0 && k < |requests|
    ensures Settled(SendAll(log, script, requests).1, requests[k])
    decreases |requests|
  {
    var (ok, log') := SendOne(log, script, requests[0]);
    SendOneAttempts(log, script, requests[0]);
    SendAllExtends(log', script, requests[1..]);
    if k == 0 {
      assert log'[|log'| - 1].request == requests[0];
      SettledStays(log', SendAll(log', script, requests[1..]).1, requests[0]);
    } else {
      SendAllSettles(log', script, requests[1..], k - 1);
    }
  }

  function AllAccepted(requests: seq<Request>): (r: seq<Attempt>)
    ensures |r| == |requests|
  {
    seq(|requests|, i requires 0 <= i < |requests| => Attempt(requests[i], Accepted))
  }

  /** While the server accepts, each request is sent exactly once, in order. */
  lemma {:induction false} SendAllAccepted(log: seq<Attempt>, script: Script, requests: seq<Request>)
    requires forall i: nat :: |log| <= i ==> script(i) == Accepted
    ensures SendAll(log, script, requests) == (true, log + AllAccepted(requests))
    decreases |requests|
  {
    if requests == [] {
      assert log + AllAccepted(requests) == log;
    } else {
      var log' := log + [Attempt(requests[0], Accepted)];
      assert SendOne(log, script, requests[0]) == (true, log');
      SendAllAccepted(log', script, requests[1..]);
      assert AllAccepted(requests) == [Attempt(requests[0], Accepted)] + AllAccepted(requests[1..]);
      assert log + AllAccepted(requests) == log' + AllAccepted(requests[1..]);
    }
  }

  // ------------------------------------------------------- operations

  /** writeRequest; a request that cannot be encoded is given up without an attempt. */
  method WriteRequest(request: Request, client: WriteClient, encodes: bool) returns (ok: bool)
    modifies client
    ensures encodes ==> (ok, client.log) == SendOne(old(client.log), client.script, request)
    ensures !encodes ==> !ok && client.log == old(client.log)
  {
    if !encodes {
      return false;
    }
    var try := 1;
    while try <= NUM_TRIES
      invariant 1 <= try <= NUM_TRIES + 1
      invariant try <= NUM_TRIES ==>
        SendFrom(client.log, client.script, request, try) == SendOne(old(client.log), client.script, request)
      invariant try > NUM_TRIES ==> (true, client.log) == SendOne(old(client.log), client.script, request)
    {
      var reply := client.Write(request);
      if reply.Accepted? {
        break;
      }
      if reply.Recoverable? {
        if try == NUM_TRIES {
          return false;
        }
      } else {
        try := NUM_TRIES;
      }
      try := try + 1;
    }
    return true;
  }

  /** The request being filled, with the samples of one series appended to its
      last entry. */
  function AppendPoints(request: Request, points: seq<DataPoint>): Request
    requires request != []
  {
    var last := |request| - 1;
    request[last := Series(request[last].labels, request[last].points + points)]
  }

  lemma AppendToFresh(request: Request, labels: Labels, points: seq<DataPoint>)
    ensures AppendPoints(request + [Series(labels, [])], points) == request + [Series(labels, points)]
  {
    assert [] + points == points;
  }

  /** What the loop of WriteRange has done: the first `base`
      samples are behind it, and the current request holds the last numSamples of the samples before sample
      number sampleIndex of series i. */
  ghost predicate Filling(series: seq<Series>, n: int, base: nat, request: Request,
                          i: nat, sampleIndex: nat, numSamples: nat)
  {
    && i <= |series| && numSamples <= n
    && Position(series, i, sampleIndex) <= Total(series)
    && base + numSamples == Position(series, i, sampleIndex)
    && request == Piece(series, base, base + numSamples)
  }

  /** A request that is full, or that the last series ended, is the next one
      of the list; after the last series it is the last of the list. */
  lemma FilledIsNext(series: seq<Series>, n: int, base: nat, request: Request,
                     i: nat, sampleIndex: nat, numSamples: nat)
    requires 0 < n && series != []
    requires Filling(series, n, base, request, i, sampleIndex, numSamples)
    requires numSamples == n || i == |series|
    requires i == |series| ==> sampleIndex == 0
    requires i == |series| && numSamples == 0 ==> EndsEmpty(series)
    requires i == |series| && numSamples == n ==> !EndsEmpty(series)
    ensures i < |series| ==> base + n <= Total(series)
    ensures RequestsFrom(series, n, base)
         == [request] + if i == |series| then [] else RequestsFrom(series, n, base + n)
  {
    PositionEnd(series);
    if i == |series| && numSamples == n {
      assert RequestsFrom(series, n, base + n) == [];
    }
  }

  /** Taking samples from series i keeps the record straight. */
  lemma TakeKeepsFilling(series: seq<Series>, n: int, base: nat, request: Request,
                         i: nat, sampleIndex: nat, numSamples: nat, use: nat)
    requires 0 < n && i < |series|
    requires Filling(series, n, base, request, i, sampleIndex, numSamples)
    requires 0 < use <= n - numSamples && sampleIndex + use <= |series[i].points|
    requires sampleIndex == 0 || numSamples == 0
    ensures
      Filling(series, n, base,
              request + [Series(series[i].labels, series[i].points[sampleIndex..sampleIndex + use])],
              i, sampleIndex + use, numSamples + use)
    ensures numSamples == 0 ==> request == []
  {
    PieceExtend(series, i, sampleIndex, base, use);
    if numSamples == 0 {
      PieceListsNoEmptySeries(series, base, base);
    }
  }

  /** Where the loop of WriteRange stands between two series or two requests. */
  ghost predicate AtLoopHead(series: seq<Series>, n: int, base: nat, request: Request,
                             i: nat, sampleIndex: nat, numSamples: nat)
  {
    && Filling(series, n, base, request, i, sampleIndex, numSamples)
    && i < |series|
    && numSamples < n
    && (sampleIndex == 0 || sampleIndex < |series[i].points|)
    && (sampleIndex > 0 ==> numSamples == 0)
  }

  /** The part of an iteration that takes samples of series i into the request
      and moves on when the series is used up. */
  method TakeSamples(series: seq<Series>, n: int, ghost base: nat, request: Request,
                     i: nat, sampleIndex: nat, numSamples: nat)
    returns (request': Request, i': nat, sampleIndex': nat, numSamples': nat)
    requires AtLoopHead(series, n, base, request, i, sampleIndex, numSamples)
    ensures Filling(series, n, base, request', i', sampleIndex', numSamples')
    ensures i' < |series| && numSamples' < n ==>
      AtLoopHead(series, n, base, request', i', sampleIndex', numSamples')
    ensures i' < |series| ==> sampleIndex' == 0 || sampleIndex' < |series[i'].points|
    ensures i' == |series| ==> sampleIndex' == 0
    ensures i' == |series| && numSamples' == 0 ==> EndsEmpty(series)
    ensures i' == |series| && numSamples' == n ==> !EndsEmpty(series)
    ensures i' > i || (i' == i && sampleIndex' > sampleIndex)
  {
    request', i', sampleIndex', numSamples' := request, i, sampleIndex, numSamples;
    var current := series[i];
    var len := |current.points|;
    if len != 0 {
      var missing := n - numSamples;
      var remainder := len - sampleIndex;
      var use := missing;
      if missing > remainder {
        use := remainder;
      }
      TakeKeepsFilling(series, n, base, request, i, sampleIndex, numSamples, use);
      if sampleIndex == 0 || request == [] {
        request' := request + [Series(current.labels, [])];
      }
      var toAppend := current.points[sampleIndex..sampleIndex + use];
      AppendToFresh(request, current.labels, toAppend);
      numSamples' := numSamples + use;
      sampleIndex' := sampleIndex + use;
      request' := AppendPoints(request', toAppend);
    }
    if sampleIndex' == len {
      PositionNext(series, i);
      i' := i + 1;
      sampleIndex' := 0;
    }
  }

  /** Sends the request that TakeSamples left full or final; `rest` are the
      requests after it. */
  method Flush(series: seq<Series>, n: int, ghost base: nat, request: Request,
               i: nat, sampleIndex: nat, numSamples: nat, client: WriteClient)
    returns (ok: bool, ghost rest: seq<Request>)
    requires 0 < n && series != []
    requires Filling(series, n, base, request, i, sampleIndex, numSamples)
    requires numSamples == n || i == |series|
    requires i == |series| ==> sampleIndex == 0
    requires i == |series| && numSamples == 0 ==> EndsEmpty(series)
    requires i == |series| && numSamples == n ==> !EndsEmpty(series)
    modifies client
    ensures i == |series| ==> rest == []
    ensures i < |series| ==>
      && base + n <= Total(series)
      && rest == RequestsFrom(series, n, base + n)
      && Filling(series, n, base + n, [], i, sampleIndex, 0)
    ensures SendAll(old(client.log), client.script, RequestsFrom(series, n, base))
         == if ok then SendAll(client.log, client.script, rest) else (false, client.log)
  {
    FilledIsNext(series, n, base, request, i, sampleIndex, numSamples);
    rest := if i == |series| then [] else RequestsFrom(series, n, base + n);
    SendAllCons(client.log, client.script, request, rest);
    ok := WriteRequest(request, client, true);
    if i < |series| {
      PieceListsNoEmptySeries(series, base + n, base + n);
    }
  }

  /** Fills requests of n samples from the series, in order, and sends each as
      soon as it is full or the series are used up. */
  method WriteRange(series: seq<Series>, client: WriteClient, n: int) returns (ok: bool)
    requires 0 < n
    modifies client
    ensures (ok, client.log) == SendAll(old(client.log), client.script, Requests(series, n))
  {
    var request: Request := [];
    var sampleIndex: nat, numSamples: nat, i: nat := 0, 0, 0;
    ghost var base: nat, rest := 0, Requests(series, n);
    PieceListsNoEmptySeries(series, 0, 0);
    while i < |series|
      invariant i <= |series| && base <= Total(series)
      invariant i < |series| ==> AtLoopHead(series, n, base, request, i, sampleIndex, numSamples)
      invariant rest == if i < |series| then RequestsFrom(series, n, base) else []
      invariant SendAll(client.log, client.script, rest)
             == SendAll(old(client.log), client.script, Requests(series, n))
      decreases |series| - i, if i < |series| then |series[i].points| - sampleIndex else 0
    {
      request, i, sampleIndex, numSamples := TakeSamples(series, n, base, request, i, sampleIndex, numSamples);
      if numSamples != n && i < |series| {
        continue;
      }
      var written;
      written, rest := Flush(series, n, base, request, i, sampleIndex, numSamples, client);
      if !written {
        return false;
      }
      base := if i < |series| then base + n else base;
      numSamples := 0;
      request := [];
    }
    return true;
  }
}
