/** Cutting a list of series into write requests of a fixed number of samples. */
module SampleRequests {

  type Labels = map<string, string>

  datatype DataPoint = DataPoint(time: int, value: real)

  datatype Series = Series(labels: Labels, points: seq<DataPoint>)

  type Request = seq<Series>

  /** One sample together with the labels it is sent under. */
  type Labelled = (Labels, DataPoint)

  // ---------------------------------------------------------------- samples

  function Tagged(labels: Labels, points: seq<DataPoint>): (r: seq<Labelled>)
    ensures |r| == |points|
  {
    seq(|points|, i requires 0 <= i < |points| => (labels, points[i]))
  }

  /** All samples of a list of series, in the order they are stored. */
  function Flat(series: seq<Series>): seq<Labelled> {
    if series == [] then [] else Tagged(series[0].labels, series[0].points) + Flat(series[1..])
  }

  function Total(series: seq<Series>): nat {
    |Flat(series)|
  }

  function Min(a: int, b: int): int {
    if a <= b then a else b
  }

  function Minus(a: nat, b: nat): nat {
    if a <= b then 0 else a - b
  }

  /** The samples number from..to of one series, as an entry of a request. */
  function Entry(s: Series, from: nat, to: nat): seq<Series>
    requires from <= to <= |s.points|
  {
    if from == to then [] else [Series(s.labels, s.points[from..to])]
  }

  /** The samples number from..to of the list, kept under their series; a
      series without a sample in the interval is not listed. This is what one
      request has to hold, said without reference to the loop that builds it. */
  function Piece(series: seq<Series>, from: nat, to: nat): seq<Series>
    requires from <= to <= Total(series)
  {
    if series == [] then []
    else
      var n := |series[0].points|;
      Entry(series[0], Min(from, n), Min(to, n)) + Piece(series[1..], Minus(from, n), Minus(to, n))
  }

  lemma SliceOfSum<T>(a: seq<T>, b: seq<T>, from: nat, to: nat)
    requires from <= to <= |a| + |b|
    ensures (a + b)[from..to]
         == a[Min(from, |a|)..Min(to, |a|)] + b[Minus(from, |a|)..Minus(to, |a|)]
  {
  }

  lemma TaggedSlice(labels: Labels, points: seq<DataPoint>, from: nat, to: nat)
    requires from <= to <= |points|
    ensures Tagged(labels, points[from..to]) == Tagged(labels, points)[from..to]
  {
  }

  lemma FlatEntry(s: Series, from: nat, to: nat, rest: seq<Series>)
    requires from <= to <= |s.points|
    ensures Flat(Entry(s, from, to) + rest) == Tagged(s.labels, s.points[from..to]) + Flat(rest)
  {
    var entry := Entry(s, from, to);
    assert entry + rest == rest || (entry + rest)[1..] == rest;
  }

  lemma {:induction false} PieceIsFlatSlice(series: seq<Series>, from: nat, to: nat)
    requires from <= to <= Total(series)
    ensures Flat(Piece(series, from, to)) == Flat(series)[from..to]
  {
    if series != [] {
      var s := series[0];
      var n := |s.points|;
      PieceIsFlatSlice(series[1..], Minus(from, n), Minus(to, n));
      SliceOfSum(Tagged(s.labels, s.points), Flat(series[1..]), from, to);
      TaggedSlice(s.labels, s.points, Min(from, n), Min(to, n));
      FlatEntry(s, Min(from, n), Min(to, n), Piece(series[1..], Minus(from, n), Minus(to, n)));
    }
  }

  lemma {:induction false} PieceListsNoEmptySeries(series: seq<Series>, from: nat, to: nat)
    requires from <= to <= Total(series)
    ensures forall s :: s in Piece(series, from, to) ==> s.points != []
    ensures Piece(series, from, to) == [] <==> from == to
  {
    if series != [] {
      var n := |series[0].points|;
      PieceListsNoEmptySeries(series[1..], Minus(from, n), Minus(to, n));
    }
  }

  /** Number of samples before sample `offset` of series i. */
  function Position(series: seq<Series>, i: nat, offset: nat): nat
    requires i <= |series|
  {
    Total(series[..i]) + offset
  }

  lemma {:induction false} PositionNext(series: seq<Series>, i: nat)
    requires i < |series|
    ensures Position(series, i + 1, 0) == Position(series, i, |series[i].points|) <= Total(series)
  {
    if i == 0 {
      assert series[..1][1..] == [];
    } else {
      PositionNext(series[1..], i - 1);
      assert series[..i + 1][1..] == series[1..][..i];
      assert series[..i][1..] == series[1..][..i - 1];
    }
  }

  lemma PositionEnd(series: seq<Series>)
    ensures Position(series, |series|, 0) == Total(series)
  {
    assert series[..|series|] == series;
  }

  lemma PieceInFirst(series: seq<Series>, offset: nat, k: nat)
    requires series != [] && offset + k <= |series[0].points| && 0 < k
    ensures offset + k <= Total(series)
    ensures Piece(series, offset, offset + k) == [Series(series[0].labels, series[0].points[offset..offset + k])]
  {
    PieceListsNoEmptySeries(series[1..], 0, 0);
  }

  lemma PieceUnfold(series: seq<Series>, from: nat, to: nat)
    requires series != [] && from <= to && |series[0].points| <= to <= Total(series)
    ensures
      var n := |series[0].points|;
      Piece(series, from, to) == Entry(series[0], Min(from, n), n) + Piece(series[1..], Minus(from, n), to - n)
  {
  }

  /** Taking k more samples of series i opens a new entry when the piece does
      not already end inside that series. */
  lemma {:induction false} PieceExtend(series: seq<Series>, i: nat, offset: nat, from: nat, k: nat)
    requires i < |series| && offset + k <= |series[i].points| && 0 < k
    requires from <= Position(series, i, offset)
    requires offset == 0 || from == Position(series, i, offset)
    ensures Position(series, i, offset) + k <= Total(series)
    ensures Piece(series, from, Position(series, i, offset) + k)
         == Piece(series, from, Position(series, i, offset))
          + [Series(series[i].labels, series[i].points[offset..offset + k])]
  {
    hide Piece;
    PositionNext(series, i);
    if i == 0 {
      PieceInFirst(series, offset, k);
      PieceListsNoEmptySeries(series, offset, offset);
    } else {
      var n := |series[0].points|;
      var pos := Position(series, i, offset);
      assert series[..i][1..] == series[1..][..i - 1];
      PieceExtend(series[1..], i - 1, offset, Minus(from, n), k);
      PieceUnfold(series, from, pos);
      PieceUnfold(series, from, pos + k);
    }
  }

  // --------------------------------------------------------------- requests

  predicate EndsEmpty(series: seq<Series>) {
    series != [] && series[|series| - 1].points == []
  }

  /** The requests that the samples from number `base` on are cut into: blocks
      of n samples, then what is left. Nothing left is still a request, an
      empty one, when the list ends with an empty series. */
  function RequestsFrom(series: seq<Series>, n: int, base: nat): seq<Request>
    requires 0 < n && base <= Total(series)
    decreases Total(series) - base
  {
    var total := Total(series);
    if base + n <= total then [Piece(series, base, base + n)] + RequestsFrom(series, n, base + n)
    else if base == total && !EndsEmpty(series) then []
    else [Piece(series, base, total)]
  }

  function Requests(series: seq<Series>, n: int): seq<Request>
    requires 0 < n
  {
    RequestsFrom(series, n, 0)
  }

  /** Requests put end to end. */
  function Joined(requests: seq<Request>): seq<Labelled> {
    if requests == [] then [] else Flat(requests[0]) + Joined(requests[1..])
  }

  lemma SplitTail<T>(s: seq<T>, a: nat, b: nat)
    requires a <= b <= |s|
    ensures s[a..b] + s[b..] == s[a..]
  {
  }

  lemma JoinedCons(request: Request, rest: seq<Request>)
    ensures Joined([request] + rest) == Flat(request) + Joined(rest)
  {
  }

  lemma {:induction false} JoinedRest(series: seq<Series>, n: int, base: nat)
    requires 0 < n && base <= Total(series)
    ensures Joined(RequestsFrom(series, n, base)) == Flat(series)[base..]
    decreases Total(series) - base
  {
    hide Piece;
    var total := Total(series);
    var to := Min(base + n, total);
    PieceIsFlatSlice(series, base, to);
    if base + n <= total {
      JoinedRest(series, n, base + n);
      JoinedCons(Piece(series, base, to), RequestsFrom(series, n, base + n));
      SplitTail(Flat(series), base, to);
    } else {
      JoinedCons(Piece(series, base, to), []);
    }
  }

  lemma {:induction false} RestSizes(series: seq<Series>, n: int, base: nat, k: nat)
    requires 0 < n && base <= Total(series) && k < |RequestsFrom(series, n, base)|
    ensures Total(RequestsFrom(series, n, base)[k]) <= n
    ensures k < |RequestsFrom(series, n, base)| - 1 ==> Total(RequestsFrom(series, n, base)[k]) == n
    ensures forall s :: s in RequestsFrom(series, n, base)[k] ==> s.points != []
    decreases Total(series) - base
  {
    var total := Total(series);
    if k > 0 {
      RestSizes(series, n, base + n, k - 1);
    } else {
      var to := Min(base + n, total);
      PieceIsFlatSlice(series, base, to);
      PieceListsNoEmptySeries(series, base, to);
    }
  }

  /** Conservation: put end to end, the requests are the input samples under
      their labels, in order, none lost, none twice; every request but the last
      holds exactly n samples, the last at most n; no request lists an empty
      series. */
  lemma RequestsConserveSamples(series: seq<Series>, n: int)
    requires 0 < n
    ensures Joined(Requests(series, n)) == Flat(series)
    ensures forall k :: 0 <= k < |Requests(series, n)| - 1 ==> Total(Requests(series, n)[k]) == n
    ensures forall k :: 0 <= k < |Requests(series, n)| ==> Total(Requests(series, n)[k]) <= n
    ensures forall k, s :: 0 <= k < |Requests(series, n)| && s in Requests(series, n)[k] ==> s.points != []
  {
    JoinedRest(series, n, 0);
    forall k | 0 <= k < |Requests(series, n)|
      ensures Total(Requests(series, n)[k]) <= n
      ensures k < |Requests(series, n)| - 1 ==> Total(Requests(series, n)[k]) == n
      ensures forall s: Series :: s in Requests(series, n)[k] ==> s.points != []
    {
      RestSizes(series, n, 0, k);
    }
  }

  function CeilDiv(a: nat, b: int): nat
    requires 0 < b
  {
    if a % b == 0 then a / b else a / b + 1
  }

  lemma DivStep(a: nat, b: int)
    requires 0 < b <= a
    ensures a / b == (a - b) / b + 1 && a % b == (a - b) % b
  {
    var q, r := (a - b) / b, (a - b) % b;
    assert a == (q + 1) * b + r;
    QuotientIsUnique(a, b, q + 1);
  }

  lemma QuotientIsUnique(x: nat, b: int, q: nat)
    requires 0 < b && q * b <= x < (q + 1) * b
    ensures x / b == q && x % b == x - q * b
  {
    var p := x / b;
    assert x == p * b + x % b;
    assert p < q ==> (p + 1) * b <= q * b;
    assert q < p ==> (q + 1) * b <= p * b;
  }

  lemma {:induction false} RestCount(series: seq<Series>, n: int, base: nat)
    requires 0 < n && base <= Total(series)
    ensures |RequestsFrom(series, n, base)|
         == CeilDiv(Total(series) - base, n)
          + if EndsEmpty(series) && (Total(series) - base) % n == 0 then 1 else 0
    decreases Total(series) - base
  {
    var left := Total(series) - base;
    if n <= left {
      RestCount(series, n, base + n);
      DivStep(left, n);
    } else {
      QuotientIsUnique(left, n, 0);
    }
  }

  /** Exact number of requests: the samples divided by n, rounded up, and one
      empty request more exactly when n divides them and the last series of the
      list is empty. */
  lemma RequestCount(series: seq<Series>, n: int)
    requires 0 < n
    ensures |Requests(series, n)|
         == CeilDiv(Total(series), n) + if EndsEmpty(series) && Total(series) % n == 0 then 1 else 0
  {
    RestCount(series, n, 0);
  }
}
