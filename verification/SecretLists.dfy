/** Comparing two lists of secrets up to order. */
module SecretLists {

  datatype Secret = Secret(name: string, data: string)

  /** The map filled from the first k secrets; a later one replaces an earlier
      one of the same name. */
  function Indexed(x: seq<Secret>, k: nat): map<string, Secret>
    requires k <= |x|
  {
    if k == 0 then map[] else Indexed(x, k - 1)[x[k - 1].name := x[k - 1]]
  }

  /** What the comparison answers. */
  ghost predicate Matches(x: seq<Secret>, y: seq<Secret>) {
    && |x| == |y|
    && forall i :: 0 <= i < |y| ==> Finds(x, y[i])
  }

  predicate Finds(x: seq<Secret>, s: Secret) {
    s.name in Indexed(x, |x|) && Indexed(x, |x|)[s.name] == s
  }

  /** isEqualUnorderedSecretLists. */
  method IsEqualUnordered(x: seq<Secret>, y: seq<Secret>) returns (equal: bool)
    ensures equal <==> Matches(x, y)
  {
    if |x| != |y| {
      return false;
    }
    var secrets := map[];
    for k := 0 to |x|
      invariant secrets == Indexed(x, k)
    {
      secrets := secrets[x[k].name := x[k]];
    }
    for k := 0 to |y|
      invariant forall i :: 0 <= i < k ==> Finds(x, y[i])
    {
      if y[k].name !in secrets || secrets[y[k].name] != y[k] {
        assert !Finds(x, y[k]);
        return false;
      }
    }
    return true;
  }

  // -------------------------------------------------------------- permutations

  ghost predicate Permutation(x: seq<Secret>, y: seq<Secret>) {
    multiset(x) == multiset(y)
  }

  ghost predicate DistinctNames(y: seq<Secret>) {
    forall i, j :: 0 <= i < j < |y| ==> y[i].name != y[j].name
  }

  /** A list without the element at p. */
  function Without(x: seq<Secret>, p: nat): seq<Secret>
    requires p < |x|
  {
    x[..p] + x[p + 1..]
  }

  lemma SplitAt(x: seq<Secret>, p: nat)
    requires p < |x|
    ensures multiset(x) == multiset(Without(x, p)) + multiset{x[p]}
  {
    assert x == x[..p] + [x[p]] + x[p + 1..];
  }

  lemma InWithout(x: seq<Secret>, p: nat, s: Secret)
    requires p < |x| && s in x && s != x[p]
    ensures s in Without(x, p)
  {
  }

  /** Pigeonhole: as many different secrets as the list is long, all in the
      list, are the whole list. */
  lemma {:induction false} Pigeonhole(x: seq<Secret>, y: seq<Secret>)
    requires |x| == |y| && DistinctNames(y) && forall i :: 0 <= i < |y| ==> y[i] in x
    ensures Permutation(x, y)
    decreases |y|
  {
    if y != [] {
      assert y[0] in x;
      var p :| 0 <= p < |x| && x[p] == y[0];
      assert Without(y, 0) == y[1..] && |Without(x, p)| == |x| - 1;
      SplitAt(x, p);
      SplitAt(y, 0);
      hide Without;
      forall i | 0 <= i < |y[1..]| ensures y[1..][i] in Without(x, p) {
        assert y[i + 1] in x && y[0].name != y[i + 1].name;
        InWithout(x, p, y[i + 1]);
      }
      Pigeonhole(Without(x, p), y[1..]);
    }
  }

  // ------------------------------------------------------------- the comparison

  /** The map knows the names of the list, each with a secret of the list. */
  lemma {:induction false} IndexedNames(x: seq<Secret>, k: nat, name: string)
    requires k <= |x|
    ensures name in Indexed(x, k) <==> exists j :: 0 <= j < k && x[j].name == name
    ensures name in Indexed(x, k) ==> Indexed(x, k)[name].name == name && Indexed(x, k)[name] in x
  {
    if k > 0 {
      IndexedNames(x, k - 1, name);
      if x[k - 1].name == name {
        assert x[k - 1] in x;
      }
    }
  }

  lemma FoundIsIn(x: seq<Secret>, s: Secret)
    requires Finds(x, s)
    ensures s in x
  {
    IndexedNames(x, |x|, s.name);
  }

  /** A secret is found where all secrets of its name are equal to it. */
  lemma OnlyOneIsFound(x: seq<Secret>, s: Secret)
    requires s in x && forall t :: t in x && t.name == s.name ==> t == s
    ensures Finds(x, s)
  {
    IndexedNames(x, |x|, s.name);
    var j :| 0 <= j < |x| && x[j] == s;
    assert x[j].name == s.name;
  }

  /** With distinct names in the second list the comparison is exactly equality
      up to order. */
  lemma MatchesIsPermutation(x: seq<Secret>, y: seq<Secret>)
    requires DistinctNames(y)
    ensures Matches(x, y) <==> Permutation(x, y)
  {
    if Matches(x, y) {
      forall i | 0 <= i < |y| ensures y[i] in x {
        assert Finds(x, y[i]);
        FoundIsIn(x, y[i]);
      }
      Pigeonhole(x, y);
    }
    if Permutation(x, y) {
      assert |multiset(x)| == |multiset(y)|;
      forall i | 0 <= i < |y| ensures Finds(x, y[i]) {
        PermutedIsFound(x, y, i);
      }
    }
  }

  lemma PermutedIsFound(x: seq<Secret>, y: seq<Secret>, i: nat)
    requires DistinctNames(y) && Permutation(x, y) && i < |y|
    ensures Finds(x, y[i])
  {
    assert y[i] in multiset(x);
    forall t | t in x && t.name == y[i].name ensures t == y[i] {
      assert t in multiset(y);
      var j :| 0 <= j < |y| && y[j] == t;
    }
    OnlyOneIsFound(x, y[i]);
  }

  /** Between lists with distinct names the comparison is symmetric. */
  lemma MatchesIsSymmetric(x: seq<Secret>, y: seq<Secret>)
    requires DistinctNames(x) && DistinctNames(y)
    ensures Matches(x, y) <==> Matches(y, x)
  {
    MatchesIsPermutation(x, y);
    MatchesIsPermutation(y, x);
  }

  // ------------------------------------------------------- repeated names

  function TotalLength(y: seq<Secret>): nat {
    if y == [] then 1 else |y[0].name| + TotalLength(y[1..])
  }

  function Repeat(n: nat): (r: string)
    ensures |r| == n
  {
    if n == 0 then "" else Repeat(n - 1) + "x"
  }

  /** A secret whose name is longer than all names of the list. */
  function Stranger(y: seq<Secret>): Secret {
    Secret(Repeat(TotalLength(y)), "")
  }

  lemma {:induction false} NamesAreShorter(y: seq<Secret>, i: nat)
    requires i < |y|
    ensures |y[i].name| < TotalLength(y)
  {
    if i > 0 {
      NamesAreShorter(y[1..], i - 1);
    }
    LengthIsPositive(y[1..]);
  }

  lemma LengthIsPositive(y: seq<Secret>)
    ensures TotalLength(y) > 0
  {
  }

  lemma StrangerIsNotIn(y: seq<Secret>)
    ensures forall i :: 0 <= i < |y| ==> y[i].name != Stranger(y).name
  {
    forall i | 0 <= i < |y| ensures y[i].name != Stranger(y).name {
      NamesAreShorter(y, i);
    }
  }

  /** Two different secrets of one name: the list does not match itself. */
  lemma ConflictIsNotReflexive(y: seq<Secret>, i: nat, j: nat)
    requires i < j < |y| && y[i].name == y[j].name && y[i] != y[j]
    ensures !Matches(y, y) && Permutation(y, y)
  {
  }

  /** One secret listed twice: the list also matches one in which the first copy
      is replaced by a secret it does not have. */
  lemma CopyHidesStranger(y: seq<Secret>, i: nat, j: nat)
    requires i < j < |y| && y[i] == y[j]
    requires forall a, b :: 0 <= a < b < |y| && y[a].name == y[b].name ==> y[a] == y[b]
    ensures Matches(y[i := Stranger(y)], y) && !Permutation(y[i := Stranger(y)], y)
  {
    var s := Stranger(y);
    var x := y[i := s];
    StrangerIsNotIn(y);
    forall k | 0 <= k < |y| ensures Finds(x, y[k]) {
      assert y[k] in x by {
        if k == i {
          assert x[j] == y[k];
        } else {
          assert x[k] == y[k];
        }
      }
      forall t | t in x && t.name == y[k].name ensures t == y[k] {
        var m :| 0 <= m < |x| && x[m] == t;
        assert m != i && y[m] == t;
        assert m < k || m == k || k < m;
      }
      OnlyOneIsFound(x, y[k]);
    }
    assert x[i] == s && s in multiset(x) && s !in multiset(y);
  }

  /** The comparison with y is equality up to order, for every list, if and only
      if the names in y are distinct. */
  lemma ExactForDistinctNames(y: seq<Secret>)
    ensures (forall x :: Matches(x, y) <==> Permutation(x, y)) <==> DistinctNames(y)
  {
    if DistinctNames(y) {
      forall x ensures Matches(x, y) <==> Permutation(x, y) {
        MatchesIsPermutation(x, y);
      }
    } else {
      var x := WrongFor(y);
      assert !(Matches(x, y) <==> Permutation(x, y));
    }
  }

  lemma WrongFor(y: seq<Secret>) returns (x: seq<Secret>)
    requires !DistinctNames(y)
    ensures Matches(x, y) != Permutation(x, y)
  {
    if a, b :| 0 <= a < b < |y| && y[a].name == y[b].name && y[a] != y[b] {
      ConflictIsNotReflexive(y, a, b);
      x := y;
    } else {
      var i, j :| 0 <= i < j < |y| && y[i].name == y[j].name;
      CopyHidesStranger(y, i, j);
      x := y[i := Stranger(y)];
    }
  }

  /** A concrete pair: the answer depends on which list comes first. */
  lemma RepeatedNameBreaksSymmetry()
    ensures
      var a, b := Secret("a", "1"), Secret("b", "2");
      Matches([a, b], [a, a]) && !Matches([a, a], [a, b])
  {
    var a, b := Secret("a", "1"), Secret("b", "2");
    OnlyOneIsFound([a, b], a);
    if Matches([a, a], [a, b]) {
      assert Finds([a, a], [a, b][1]);
      FoundIsIn([a, a], b);
    }
  }

  /** A secret is found exactly when it stands in the list and none of its name follows
      it: of several with one name only the last is looked at. */
  lemma FindsExactlyWhen(x: seq<Secret>, s: Secret)
    ensures Finds(x, s) <==> exists i :: 0 <= i < |x| && x[i] == s && LastOfName(x, i, |x|)
  {
    IndexedLast(x, |x|, s);
  }

  ghost predicate LastOfName(x: seq<Secret>, i: nat, k: nat)
    requires i < k <= |x|
  {
    forall j :: i < j < k ==> x[j].name != x[i].name
  }

  lemma {:induction false} IndexedLast(x: seq<Secret>, k: nat, s: Secret)
    requires k <= |x|
    ensures (s.name in Indexed(x, k) && Indexed(x, k)[s.name] == s)
       <==> exists i :: 0 <= i < k && x[i] == s && LastOfName(x, i, k)
  {
    if k > 0 {
      IndexedLast(x, k - 1, s);
      if x[k - 1] == s {
        assert LastOfName(x, k - 1, k);
      } else if x[k - 1].name != s.name {
        forall i | 0 <= i < k - 1 && x[i] == s ensures LastOfName(x, i, k) <==> LastOfName(x, i, k - 1) {
        }
      }
    }
  }
}
