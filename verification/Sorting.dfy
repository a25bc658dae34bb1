/** The contract of slices.SortFunc: some sorted permutation, with ties in no particular order. */
module Sorting {

  ghost predicate TotalPreorder<K(!new)>(cmp: (K, K) -> int) {
    && (forall x, y :: cmp(x, y) <= 0 || cmp(y, x) <= 0)
    && (forall x, y, z :: cmp(x, y) <= 0 && cmp(y, z) <= 0 ==> cmp(x, z) <= 0)
  }

  ghost predicate SortedBy<T, K>(s: seq<T>, key: T -> K, cmp: (K, K) -> int) {
    forall i, j :: 0 <= i < j < |s| ==> cmp(key(s[i]), key(s[j])) <= 0
  }

  ghost predicate Sorted<K>(s: seq<K>, cmp: (K, K) -> int) {
    forall i, j :: 0 <= i < j < |s| ==> cmp(s[i], s[j]) <= 0
  }

  /** Elements that compare as equal are equal. */
  ghost predicate NoTies<K>(s: seq<K>, cmp: (K, K) -> int) {
    forall i, j :: 0 <= i < |s| && 0 <= j < |s| && cmp(s[i], s[j]) <= 0 && cmp(s[j], s[i]) <= 0 ==> s[i] == s[j]
  }

  ghost predicate Distinct<T>(s: seq<T>) {
    forall i, j :: 0 <= i < j < |s| ==> s[i] != s[j]
  }

  function Inserted<T, K>(x: T, s: seq<T>, key: T -> K, cmp: (K, K) -> int): seq<T> {
    if s == [] || cmp(key(x), key(s[0])) <= 0 then [x] + s else [s[0]] + Inserted(x, s[1..], key, cmp)
  }

  lemma {:induction false} InsertedContents<T, K>(x: T, s: seq<T>, key: T -> K, cmp: (K, K) -> int)
    ensures multiset(Inserted(x, s, key, cmp)) == multiset(s) + multiset{x}
  {
    if s == [] || cmp(key(x), key(s[0])) <= 0 {
      assert multiset([x] + s) == multiset{x} + multiset(s);
    } else {
      InsertedContents(x, s[1..], key, cmp);
      assert s == [s[0]] + s[1..];
    }
  }

  lemma {:induction false} InsertedKeepsSorted<T, K(!new)>(x: T, s: seq<T>, key: T -> K, cmp: (K, K) -> int)
    requires TotalPreorder(cmp) && SortedBy(s, key, cmp)
    ensures SortedBy(Inserted(x, s, key, cmp), key, cmp)
  {
    if s == [] || cmp(key(x), key(s[0])) <= 0 {
    } else {
      InsertedKeepsSorted(x, s[1..], key, cmp);
      InsertedContents(x, s[1..], key, cmp);
      HeadStaysLeast(s[0], x, s[1..], Inserted(x, s[1..], key, cmp), key, cmp);
    }
  }

  lemma HeadStaysLeast<T, K>(h: T, x: T, s: seq<T>, r: seq<T>, key: T -> K, cmp: (K, K) -> int)
    requires multiset(r) == multiset(s) + multiset{x}
    requires cmp(key(h), key(x)) <= 0 && forall i :: 0 <= i < |s| ==> cmp(key(h), key(s[i])) <= 0
    ensures forall i :: 0 <= i < |r| ==> cmp(key(h), key(r[i])) <= 0
  {
    forall i | 0 <= i < |r|
      ensures cmp(key(h), key(r[i])) <= 0
    {
      assert r[i] in multiset(r);
      assert r[i] == x || r[i] in s;
    }
  }

  method SortFunc<T, K(!new)>(s: seq<T>, key: T -> K, cmp: (K, K) -> int) returns (r: seq<T>)
    requires TotalPreorder(cmp)
    ensures multiset(r) == multiset(s)
    ensures SortedBy(r, key, cmp)
  {
    r := [];
    for i := 0 to |s|
      invariant multiset(r) == multiset(s[..i])
      invariant SortedBy(r, key, cmp)
    {
      InsertedKeepsSorted(s[i], r, key, cmp);
      InsertedContents(s[i], r, key, cmp);
      assert s[..i + 1] == s[..i] + [s[i]];
      r := Inserted(s[i], r, key, cmp);
    }
    assert s[..|s|] == s;
  }

  /** Without ties, sorting leaves no choice. */
  lemma {:induction false} SortedIsUnique<K(!new)>(s: seq<K>, t: seq<K>, cmp: (K, K) -> int)
    requires TotalPreorder(cmp) && Sorted(s, cmp) && Sorted(t, cmp)
    requires multiset(s) == multiset(t)
    requires NoTies(s, cmp)
    ensures s == t
  {
    if s == [] {
      assert |multiset(t)| == 0;
    } else {
      LeastElements(s, t, cmp);
      TailFacts(s, cmp);
      TailFacts(t, cmp);
      TailContents(s, t);
      SortedIsUnique(s[1..], t[1..], cmp);
      assert s == [s[0]] + s[1..] && t == [t[0]] + t[1..];
    }
  }

  lemma TailContents<K>(s: seq<K>, t: seq<K>)
    requires s != [] && t != [] && s[0] == t[0] && multiset(s) == multiset(t)
    ensures multiset(s[1..]) == multiset(t[1..])
  {
    assert s == [s[0]] + s[1..] && t == [t[0]] + t[1..];
    assert multiset(s[1..]) == multiset(s) - multiset{s[0]};
    assert multiset(t[1..]) == multiset(t) - multiset{t[0]};
  }

  lemma TailFacts<K>(s: seq<K>, cmp: (K, K) -> int)
    requires s != []
    ensures Sorted(s, cmp) ==> Sorted(s[1..], cmp)
    ensures NoTies(s, cmp) ==> NoTies(s[1..], cmp)
  {
  }

  lemma LeastElements<K(!new)>(s: seq<K>, t: seq<K>, cmp: (K, K) -> int)
    requires TotalPreorder(cmp) && Sorted(s, cmp) && Sorted(t, cmp) && NoTies(s, cmp)
    requires multiset(s) == multiset(t) && s != []
    ensures t != [] && s[0] == t[0]
  {
    assert s[0] in multiset(t);
    assert t[0] in multiset(s);
    var i :| 0 <= i < |s| && s[i] == t[0];
    var j :| 0 <= j < |t| && t[j] == s[0];
    assert cmp(s[0], s[0]) <= 0;
    assert cmp(s[0], s[i]) <= 0;
    assert cmp(t[0], t[j]) <= 0;
  }

  lemma SwapKeepsContents<K>(s: seq<K>, i: nat, j: nat)
    requires i < |s| && j < |s| && i != j
    ensures multiset(s[i := s[j]][j := s[i]]) == multiset(s)
  {
  }

  lemma SwapKeepsSorted<K(!new)>(s: seq<K>, i: nat, j: nat, cmp: (K, K) -> int)
    requires TotalPreorder(cmp) && Sorted(s, cmp)
    requires i < |s| && j < |s| && i != j && cmp(s[i], s[j]) <= 0 && cmp(s[j], s[i]) <= 0
    ensures Sorted(s[i := s[j]][j := s[i]], cmp)
  {
    var t := s[i := s[j]][j := s[i]];
    forall a, b | 0 <= a < b < |t|
      ensures cmp(t[a], t[b]) <= 0
    {
      var p := if a == i then j else if a == j then i else a;
      var q := if b == i then j else if b == j then i else b;
      assert cmp(s[a], s[b]) <= 0;
      assert cmp(t[a], s[a]) <= 0;
      assert cmp(s[b], t[b]) <= 0;
    }
  }

  lemma {:induction false} DistinctCounts<T>(s: seq<T>, x: T)
    requires Distinct(s)
    ensures multiset(s)[x] == if x in s then 1 else 0
  {
    if s != [] {
      assert s == [s[0]] + s[1..];
      DistinctCounts(s[1..], x);
    }
  }

  /** Two sorted lists of distinct keys with the same members are equal. */
  lemma SortedKeysAreUnique<K(!new)>(s: seq<K>, t: seq<K>, cmp: (K, K) -> int)
    requires TotalPreorder(cmp) && Sorted(s, cmp) && Sorted(t, cmp)
    requires Distinct(s) && Distinct(t) && NoTies(s, cmp)
    requires forall x :: x in s <==> x in t
    ensures s == t
  {
    forall x
      ensures multiset(s)[x] == multiset(t)[x]
    {
      DistinctCounts(s, x);
      DistinctCounts(t, x);
    }
    assert multiset(s) == multiset(t);
    SortedIsUnique(s, t, cmp);
  }

  // ----- permutations -----

  lemma {:induction false} TwoOccurrences<T>(s: seq<T>, x: T)
    requires multiset(s)[x] >= 2
    ensures exists p, q :: 0 <= p < q < |s| && s[p] == x && s[q] == x
  {
    assert s == [s[0]] + s[1..];
    if s[0] == x {
      assert x in multiset(s[1..]);
      var q :| 0 <= q < |s[1..]| && s[1..][q] == x;
      assert s[q + 1] == x;
    } else {
      TwoOccurrences(s[1..], x);
      var p, q :| 0 <= p < q < |s[1..]| && s[1..][p] == x && s[1..][q] == x;
      assert s[p + 1] == x && s[q + 1] == x;
    }
  }

  lemma TwiceInMultiset<T>(s: seq<T>, p: nat, q: nat)
    requires p < q < |s| && s[p] == s[q]
    ensures multiset(s)[s[p]] >= 2
  {
    assert s == s[..p] + [s[p]] + s[p + 1..q] + [s[q]] + s[q + 1..];
  }

  /** A symmetric relation between any two elements survives reordering. */
  lemma PairwisePermutes<T>(s: seq<T>, r: seq<T>, related: (T, T) -> bool)
    requires multiset(s) == multiset(r)
    requires forall i, j :: 0 <= i < |s| && 0 <= j < |s| && related(s[i], s[j]) ==> related(s[j], s[i])
    requires forall i, j :: 0 <= i < j < |s| ==> related(s[i], s[j])
    ensures forall i, j :: 0 <= i < j < |r| ==> related(r[i], r[j])
  {
    forall i, j | 0 <= i < j < |r|
      ensures related(r[i], r[j])
    {
      if r[i] == r[j] {
        TwiceInMultiset(r, i, j);
        TwoOccurrences(s, r[i]);
      } else {
        assert r[i] in multiset(s) && r[j] in multiset(s);
        var p :| 0 <= p < |s| && s[p] == r[i];
        var q :| 0 <= q < |s| && s[q] == r[j];
        assert p < q || q < p;
      }
    }
  }

  function Mapped<T, K>(s: seq<T>, m: map<T, K>): (r: seq<K>)
    requires forall i :: 0 <= i < |s| ==> s[i] in m
    ensures |r| == |s|
  {
    seq(|s|, i requires 0 <= i < |s| => m[s[i]])
  }

  lemma RemoveAt<T>(s: seq<T>, j: nat)
    requires j < |s|
    ensures multiset(s) == multiset(s[..j] + s[j + 1..]) + multiset{s[j]}
  {
    assert s == s[..j] + [s[j]] + s[j + 1..];
  }

  lemma CancelOne<T>(a: multiset<T>, b: multiset<T>, x: T)
    requires a + multiset{x} == b + multiset{x}
    ensures a == b
  {
    assert a == a + multiset{x} - multiset{x};
    assert b == b + multiset{x} - multiset{x};
  }

  lemma WithoutFirst<T>(s: seq<T>, r: seq<T>, j: nat)
    requires s != [] && multiset(s) == multiset(r) && j < |r| && r[j] == s[0]
    ensures multiset(s[1..]) == multiset(r[..j] + r[j + 1..])
  {
    RemoveAt(r, j);
    assert s == [s[0]] + s[1..];
    CancelOne(multiset(s[1..]), multiset(r[..j] + r[j + 1..]), s[0]);
  }

  lemma {:induction false} MappedCounts<T, K>(s: seq<T>, r: seq<T>, m: map<T, K>)
    requires multiset(s) == multiset(r)
    requires forall i :: 0 <= i < |s| ==> s[i] in m
    requires forall i :: 0 <= i < |r| ==> r[i] in m
    ensures multiset(Mapped(s, m)) == multiset(Mapped(r, m))
    decreases |s|
  {
    if s == [] {
      assert |multiset(r)| == 0;
    } else {
      assert s[0] in multiset(r);
      var j :| 0 <= j < |r| && r[j] == s[0];
      var rest := r[..j] + r[j + 1..];
      WithoutFirst(s, r, j);
      hide Mapped;
      MappedCounts(s[1..], rest, m);
      MappedWithout(s, 0, m);
      MappedWithout(r, j, m);
      assert s[..0] + s[0 + 1..] == s[1..];
    }
  }

  lemma MappedWithout<T, K>(s: seq<T>, j: nat, m: map<T, K>)
    requires j < |s| && forall i :: 0 <= i < |s| ==> s[i] in m
    ensures multiset(Mapped(s, m)) == multiset(Mapped(s[..j] + s[j + 1..], m)) + multiset{m[s[j]]}
  {
    var t := Mapped(s, m);
    RemoveAt(t, j);
    assert Mapped(s[..j] + s[j + 1..], m) == t[..j] + t[j + 1..];
  }
}
