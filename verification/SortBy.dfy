/** The stable sort that the services apply to lists of rows (`_.sortBy`, `_.orderBy`). */
module SortBy {

  predicate Sorted<T>(s: seq<T>, key: T -> int)
  {
    forall i, j :: 0 <= i < j < |s| ==> key(s[i]) <= key(s[j])
  }

  /** The elements of `s` whose key is `k`, in their order in `s`. */
  function Group<T>(s: seq<T>, key: T -> int, k: int): seq<T>
  {
    if s == [] then []
    else if key(s[0]) == k then [s[0]] + Group(s[1..], key, k)
    else Group(s[1..], key, k)
  }

  /** Two lists are stable rearrangements of each other when every key has the same group in both. */
  ghost predicate SameGroups<T>(a: seq<T>, b: seq<T>, key: T -> int)
  {
    forall k :: Group(a, key, k) == Group(b, key, k)
  }

  /** Inserts `x` after every element whose key is not larger. */
  function InsertAfter<T>(s: seq<T>, x: T, key: T -> int): seq<T>
  {
    if s == [] || key(s[|s| - 1]) <= key(x) then s + [x]
    else InsertAfter(s[..|s| - 1], x, key) + [s[|s| - 1]]
  }

  function StableSort<T>(s: seq<T>, key: T -> int): seq<T>
  {
    if s == [] then [] else InsertAfter(StableSort(s[..|s| - 1], key), s[|s| - 1], key)
  }

  lemma {:induction false} GroupConcat<T>(a: seq<T>, b: seq<T>, key: T -> int, k: int)
    ensures Group(a + b, key, k) == Group(a, key, k) + Group(b, key, k)
  {
    if a == [] {
      assert a + b == b;
    } else {
      GroupConcat(a[1..], b, key, k);
      assert (a + b)[1..] == a[1..] + b;
    }
  }

  lemma {:induction false} GroupMembers<T>(s: seq<T>, key: T -> int, k: int)
    ensures forall x :: x in Group(s, key, k) <==> x in s && key(x) == k
  {
    if s != [] {
      GroupMembers(s[1..], key, k);
      assert forall x :: x in s <==> x == s[0] || x in s[1..];
    }
  }

  lemma {:induction false} InsertAfterBag<T>(s: seq<T>, x: T, key: T -> int)
    ensures multiset(InsertAfter(s, x, key)) == multiset(s) + multiset{x}
  {
    if s == [] || key(s[|s| - 1]) <= key(x) {
    } else {
      InsertAfterBag(s[..|s| - 1], x, key);
      assert s == s[..|s| - 1] + [s[|s| - 1]];
    }
  }

  lemma {:induction false} InsertAfterBelow<T>(s: seq<T>, x: T, key: T -> int, bound: int)
    requires key(x) <= bound && forall i :: 0 <= i < |s| ==> key(s[i]) <= bound
    ensures forall i :: 0 <= i < |InsertAfter(s, x, key)| ==> key(InsertAfter(s, x, key)[i]) <= bound
  {
    if s == [] || key(s[|s| - 1]) <= key(x) {
    } else {
      InsertAfterBelow(s[..|s| - 1], x, key, bound);
    }
  }

  lemma {:induction false} InsertAfterSorted<T>(s: seq<T>, x: T, key: T -> int)
    requires Sorted(s, key)
    ensures Sorted(InsertAfter(s, x, key), key)
  {
    if s == [] || key(s[|s| - 1]) <= key(x) {
    } else {
      InsertAfterSorted(s[..|s| - 1], x, key);
      InsertAfterBelow(s[..|s| - 1], x, key, key(s[|s| - 1]));
    }
  }

  lemma {:induction false} InsertAfterGroup<T>(s: seq<T>, x: T, key: T -> int, k: int)
    ensures Group(InsertAfter(s, x, key), key, k) == Group(s + [x], key, k)
  {
    if s == [] || key(s[|s| - 1]) <= key(x) {
    } else {
      var front, last := s[..|s| - 1], s[|s| - 1];
      InsertAfterGroup(front, x, key, k);
      assert s == front + [last];
      GroupConcat(InsertAfter(front, x, key), [last], key, k);
      GroupConcat(front, [x], key, k);
      GroupConcat(s, [x], key, k);
      GroupConcat(front, [last], key, k);
    }
  }

  lemma InsertAfterSameGroup<T>(sorted: seq<T>, s: seq<T>, x: T, key: T -> int, k: int)
    requires Group(sorted, key, k) == Group(s, key, k)
    ensures Group(InsertAfter(sorted, x, key), key, k) == Group(s + [x], key, k)
  {
    InsertAfterGroup(sorted, x, key, k);
    GroupConcat(sorted, [x], key, k);
    GroupConcat(s, [x], key, k);
  }

  lemma {:induction false} StableSortSorted<T>(s: seq<T>, key: T -> int)
    ensures Sorted(StableSort(s, key), key)
  {
    if s != [] {
      StableSortSorted(s[..|s| - 1], key);
      InsertAfterSorted(StableSort(s[..|s| - 1], key), s[|s| - 1], key);
    }
  }

  lemma {:induction false} StableSortGroup<T>(s: seq<T>, key: T -> int, k: int)
    ensures Group(StableSort(s, key), key, k) == Group(s, key, k)
  {
    if s != [] {
      var front, last := s[..|s| - 1], s[|s| - 1];
      StableSortGroup(front, key, k);
      InsertAfterSameGroup(StableSort(front, key), front, last, key, k);
      assert s == front + [last];
    }
  }

  lemma {:induction false} StableSortBag<T>(s: seq<T>, key: T -> int)
    ensures multiset(StableSort(s, key)) == multiset(s)
  {
    if s != [] {
      var front, last := s[..|s| - 1], s[|s| - 1];
      assert s == front + [last];
      StableSortBag(front, key);
      assert StableSort(s, key) == InsertAfter(StableSort(front, key), last, key);
      InsertAfterBag(StableSort(front, key), last, key);
      assert multiset(s) == multiset(front) + multiset{last};
    }
  }

  /** Sorting is correct: ordered by key, and every key keeps its elements in their old order. */
  lemma StableSortCorrect<T>(s: seq<T>, key: T -> int)
    ensures Sorted(StableSort(s, key), key)
    ensures SameGroups(StableSort(s, key), s, key)
    ensures multiset(StableSort(s, key)) == multiset(s)
  {
    StableSortSorted(s, key);
    forall k ensures Group(StableSort(s, key), key, k) == Group(s, key, k) {
      StableSortGroup(s, key, k);
    }
    StableSortBag(s, key);
  }

  lemma SameFirst<T>(a: seq<T>, b: seq<T>, key: T -> int)
    requires a != [] && Sorted(a, key) && Sorted(b, key) && SameGroups(a, b, key)
    ensures b != [] && a[0] == b[0]
  {
    var k := key(a[0]);
    assert Group(a, key, k) == Group(b, key, k);
    GroupMembers(b, key, k);
    assert Group(b, key, k)[0] == a[0];
    assert a[0] in b;
    var kb := key(b[0]);
    assert Group(a, key, kb) == Group(b, key, kb);
    GroupMembers(a, key, kb);
    assert b[0] in Group(b, key, kb);
    assert kb == k;
    assert Group(b, key, k)[0] == b[0];
  }

  /** A sorted list is determined by its groups, so a stable sort has exactly one result. */
  lemma {:induction false} SortedUnique<T>(a: seq<T>, b: seq<T>, key: T -> int)
    requires Sorted(a, key) && Sorted(b, key) && SameGroups(a, b, key)
    ensures a == b
    decreases |a|
  {
    if a == [] {
      if b != [] {
        SameFirst(b, a, key);
        assert false;
      }
    } else {
      SameFirst(a, b, key);
      forall k ensures Group(a[1..], key, k) == Group(b[1..], key, k) {
        assert Group(a, key, k) == Group(b, key, k);
        if key(a[0]) == k {
          assert Group(a[1..], key, k) == Group(a, key, k)[1..];
        }
      }
      SortedUnique(a[1..], b[1..], key);
      assert a == [a[0]] + a[1..] && b == [b[0]] + b[1..];
    }
  }

  /** Sorting two stretches whose keys do not interleave is sorting each and joining the results. */
  lemma StableSortSplits<T>(a: seq<T>, b: seq<T>, key: T -> int)
    requires forall x, y :: x in a && y in b ==> key(x) <= key(y)
    ensures StableSort(a + b, key) == StableSort(a, key) + StableSort(b, key)
  {
    StableSortCorrect(a, key);
    StableSortCorrect(b, key);
    StableSortCorrect(a + b, key);
    var sa, sb := StableSort(a, key), StableSort(b, key);
    assert Sorted(sa + sb, key) by {
      forall i, j | 0 <= i < j < |sa + sb| ensures key((sa + sb)[i]) <= key((sa + sb)[j]) {
        if j < |sa| {
          assert key(sa[i]) <= key(sa[j]);
        } else if |sa| <= i {
          assert key(sb[i - |sa|]) <= key(sb[j - |sa|]);
        } else {
          assert sa[i] in multiset(sa) && sb[j - |sa|] in multiset(sb);
          assert sa[i] in a && sb[j - |sa|] in b;
        }
      }
    }
    forall k ensures Group(sa + sb, key, k) == Group(StableSort(a + b, key), key, k) {
      GroupConcat(sa, sb, key, k);
      GroupConcat(a, b, key, k);
    }
    SortedUnique(sa + sb, StableSort(a + b, key), key);
  }

  // ----- rows fetched in no particular order -----

  lemma NoSharedKey<T>(a: seq<T>, b: seq<T>, key: T -> int, k: int)
    requires forall x, y :: x in a && y in b ==> key(x) < key(y)
    ensures Group(a, key, k) == [] || Group(b, key, k) == []
  {
    if Group(a, key, k) != [] {
      GroupElement(a, key, k, 0);
      var i :| 0 <= i < |a| && key(a[i]) == k;
      forall j | 0 <= j < |b| ensures key(b[j]) != k {
        assert a[i] in a && b[j] in b;
      }
      NoneInGroup(b, key, k);
    }
  }

  lemma {:induction false} NoneInGroup<T>(s: seq<T>, key: T -> int, k: int)
    requires forall j :: 0 <= j < |s| ==> key(s[j]) != k
    ensures Group(s, key, k) == []
  {
    if s != [] { NoneInGroup(s[1..], key, k); }
  }

  lemma GroupOfFour<T>(a: seq<T>, b: seq<T>, c: seq<T>, d: seq<T>, key: T -> int, k: int)
    ensures Group((a + b) + (c + d), key, k)
            == (Group(a, key, k) + Group(b, key, k)) + (Group(c, key, k) + Group(d, key, k))
  {
    GroupConcat(a + b, c + d, key, k);
    GroupConcat(a, b, key, k);
    GroupConcat(c, d, key, k);
  }

  /** Moving a stretch of smaller keys before a stretch of larger ones keeps every group. */
  lemma SwapMiddleGroups<T>(a: seq<T>, b: seq<T>, c: seq<T>, d: seq<T>, key: T -> int, k: int)
    requires forall x, y :: x in c && y in b ==> key(x) < key(y)
    ensures Group((a + b) + (c + d), key, k) == Group((a + c) + (b + d), key, k)
  {
    GroupOfFour(a, b, c, d, key, k);
    GroupOfFour(a, c, b, d, key, k);
    NoSharedKey(c, b, key, k);
  }

  /** Two lists merged by a stable sort can be cut between two keys and merged part by part. */
  lemma MergeSplits<T>(a1: seq<T>, a2: seq<T>, b1: seq<T>, b2: seq<T>, key: T -> int)
    requires forall x, y :: x in a1 + b1 && y in a2 + b2 ==> key(x) < key(y)
    ensures StableSort((a1 + a2) + (b1 + b2), key) == StableSort(a1 + b1, key) + StableSort(a2 + b2, key)
  {
    var together, apart := (a1 + a2) + (b1 + b2), (a1 + b1) + (a2 + b2);
    forall k ensures Group(together, key, k) == Group(apart, key, k) {
      SwapMiddleGroups(a1, a2, b1, b2, key, k);
    }
    StableSortCorrect(together, key);
    StableSortCorrect(apart, key);
    SortedUnique(StableSort(together, key), StableSort(apart, key), key);
    StableSortSplits(a1 + b1, a2 + b2, key);
  }

  lemma {:induction false} GroupBag<T>(s: seq<T>, key: T -> int, k: int, x: T)
    ensures multiset(Group(s, key, k))[x] == if key(x) == k then multiset(s)[x] else 0
  {
    if s != [] {
      GroupBag(s[1..], key, k, x);
      assert s == [s[0]] + s[1..];
    }
  }

  lemma {:induction false} AllSame<T>(a: seq<T>, b: seq<T>, x: T)
    requires |a| == |b| && (forall i :: 0 <= i < |a| ==> a[i] == x) && (forall i :: 0 <= i < |b| ==> b[i] == x)
    ensures a == b
  {
  }

  /** Keys that identify their elements make the sort independent of the order in which the elements came. */
  lemma SortIgnoresOrder<T(!new)>(a: seq<T>, b: seq<T>, key: T -> int)
    requires multiset(a) == multiset(b)
    requires forall i, j :: 0 <= i < |a| && 0 <= j < |a| && key(a[i]) == key(a[j]) ==> a[i] == a[j]
    ensures StableSort(a, key) == StableSort(b, key)
  {
    forall k ensures Group(a, key, k) == Group(b, key, k) {
      SameSingleGroup(a, b, key, k);
    }
    StableSortCorrect(a, key);
    StableSortCorrect(b, key);
    SortedUnique(StableSort(a, key), StableSort(b, key), key);
  }

  lemma SameSingleGroup<T(!new)>(a: seq<T>, b: seq<T>, key: T -> int, k: int)
    requires multiset(a) == multiset(b)
    requires forall i, j :: 0 <= i < |a| && 0 <= j < |a| && key(a[i]) == key(a[j]) ==> a[i] == a[j]
    ensures Group(a, key, k) == Group(b, key, k)
  {
    var g, h := Group(a, key, k), Group(b, key, k);
    forall x ensures multiset(g)[x] == multiset(h)[x] {
      GroupBag(a, key, k, x);
      GroupBag(b, key, k, x);
    }
    assert multiset(g) == multiset(h);
    assert |g| == |multiset(g)| && |h| == |multiset(h)|;
    if g != [] {
      var x := g[0];
      forall i | 0 <= i < |g| ensures g[i] == x {
        GroupElement(a, key, k, i);
        GroupElement(a, key, k, 0);
      }
      forall i | 0 <= i < |h| ensures h[i] == x {
        assert h[i] in multiset(h);
        assert h[i] in multiset(g);
      }
      AllSame(g, h, x);
    }
  }

  lemma {:induction false} GroupElement<T>(s: seq<T>, key: T -> int, k: int, i: nat)
    requires i < |Group(s, key, k)|
    ensures exists j :: 0 <= j < |s| && s[j] == Group(s, key, k)[i] && key(s[j]) == k
  {
    if key(s[0]) == k && i == 0 {
      assert s[0] == Group(s, key, k)[0];
    } else {
      var i' := if key(s[0]) == k then i - 1 else i;
      GroupElement(s[1..], key, k, i');
      var j :| 0 <= j < |s[1..]| && s[1..][j] == Group(s[1..], key, k)[i'] && key(s[1..][j]) == k;
      assert s[j + 1] == Group(s, key, k)[i];
    }
  }

  /** A sorted list is its own stable sort. */
  lemma SortOfSorted<T>(s: seq<T>, key: T -> int)
    requires Sorted(s, key)
    ensures StableSort(s, key) == s
  {
    StableSortCorrect(s, key);
    SortedUnique(StableSort(s, key), s, key);
  }

  // ----- selecting rows -----

  function Select<T>(s: seq<T>, p: T -> bool): seq<T>
  {
    if s == [] then [] else if p(s[0]) then [s[0]] + Select(s[1..], p) else Select(s[1..], p)
  }

  lemma {:induction false} SelectConcat<T>(a: seq<T>, b: seq<T>, p: T -> bool)
    ensures Select(a + b, p) == Select(a, p) + Select(b, p)
  {
    if a == [] {
      assert a + b == b;
    } else {
      assert (a + b)[1..] == a[1..] + b;
      SelectConcat(a[1..], b, p);
    }
  }

  lemma {:induction false} SelectBag<T>(s: seq<T>, p: T -> bool, x: T)
    ensures multiset(Select(s, p))[x] == if p(x) then multiset(s)[x] else 0
  {
    if s != [] {
      SelectBag(s[1..], p, x);
      assert s == [s[0]] + s[1..];
    }
  }

  lemma SelectSize<T(!new)>(a: seq<T>, b: seq<T>, p: T -> bool)
    requires multiset(a) == multiset(b)
    ensures |Select(a, p)| == |Select(b, p)|
  {
    forall x ensures multiset(Select(a, p))[x] == multiset(Select(b, p))[x] {
      SelectBag(a, p, x);
      SelectBag(b, p, x);
    }
    assert multiset(Select(a, p)) == multiset(Select(b, p));
    assert |multiset(Select(a, p))| == |Select(a, p)|;
  }

  lemma {:induction false} SelectMember<T>(s: seq<T>, p: T -> bool, x: T)
    requires x in s && p(x)
    ensures x in Select(s, p)
  {
    if s[0] != x { SelectMember(s[1..], p, x); }
  }

  lemma SelectOne<T>(x: T, p: T -> bool)
    ensures Select([x], p) == if p(x) then [x] else []
  {
    assert [x][1..] == [];
    assert Select([x][1..], p) == [];
  }

  lemma SelectLast<T>(s: seq<T>, x: T, p: T -> bool)
    ensures Select(s + [x], p) == Select(s, p) + if p(x) then [x] else []
  {
    SelectConcat(s, [x], p);
    SelectOne(x, p);
  }

  /** Every selected element comes from the list, and order is kept. */
  lemma {:induction false} SelectIndices<T>(s: seq<T>, p: T -> bool, i: nat, j: nat) returns (i': nat, j': nat)
    requires i < j < |Select(s, p)|
    ensures i' < j' < |s| && s[i'] == Select(s, p)[i] && s[j'] == Select(s, p)[j]
  {
    if p(s[0]) {
      if i == 0 {
        i' := 0;
        j' := SelectIndex(s[1..], p, j - 1);
        j' := j' + 1;
      } else {
        i', j' := SelectIndices(s[1..], p, i - 1, j - 1);
        i', j' := i' + 1, j' + 1;
      }
    } else {
      i', j' := SelectIndices(s[1..], p, i, j);
      i', j' := i' + 1, j' + 1;
    }
  }

  lemma {:induction false} SelectIndex<T>(s: seq<T>, p: T -> bool, j: nat) returns (j': nat)
    requires j < |Select(s, p)|
    ensures j' < |s| && s[j'] == Select(s, p)[j] && p(s[j'])
  {
    if p(s[0]) && j == 0 {
      j' := 0;
    } else {
      j' := SelectIndex(s[1..], p, if p(s[0]) then j - 1 else j);
      j' := j' + 1;
    }
  }

  lemma SelectSorted<T>(s: seq<T>, p: T -> bool, key: T -> int)
    requires Sorted(s, key)
    ensures Sorted(Select(s, p), key)
  {
    forall i, j | 0 <= i < j < |Select(s, p)| ensures key(Select(s, p)[i]) <= key(Select(s, p)[j]) {
      var i', j' := SelectIndices(s, p, i, j);
    }
  }

  /** The first element of a list, found in a rearrangement of it. */
  lemma FindFirst<T>(s: seq<T>, t: seq<T>) returns (a: seq<T>, b: seq<T>)
    requires s != [] && multiset(s) == multiset(t)
    ensures t == a + [s[0]] + b && multiset(s[1..]) == multiset(a + b)
  {
    var x := s[0];
    assert s == [x] + s[1..];
    assert x in multiset(t);
    var i :| 0 <= i < |t| && t[i] == x;
    a, b := t[..i], t[i + 1..];
    assert t == a + [x] + b;
    assert multiset(s[1..]) == multiset(s) - multiset{x};
    assert multiset(a + b) == multiset(t) - multiset{x};
  }

  /** The lists that `f` makes of the elements, one after the other. */
  function FlatMap<A, B>(s: seq<A>, f: A -> seq<B>): seq<B>
  {
    if s == [] then [] else FlatMap(s[..|s| - 1], f) + f(s[|s| - 1])
  }

  lemma {:induction false} FlatMapConcat<A, B>(a: seq<A>, b: seq<A>, f: A -> seq<B>)
    ensures FlatMap(a + b, f) == FlatMap(a, f) + FlatMap(b, f)
    decreases |b|
  {
    if b == [] {
      assert a + b == a;
    } else {
      assert (a + b)[..|a + b| - 1] == a + b[..|b| - 1];
      FlatMapConcat(a, b[..|b| - 1], f);
    }
  }

  lemma FlatMapOne<A, B>(x: A, f: A -> seq<B>)
    ensures FlatMap([x], f) == f(x)
  {
    assert [x][..0] == [];
  }

  /** Where an element stands does not matter for what the list contributes. */
  lemma FlatMapMove<A, B>(a: seq<A>, x: A, b: seq<A>, f: A -> seq<B>)
    ensures multiset(FlatMap(a + [x] + b, f)) == multiset(FlatMap(a + b, f)) + multiset(f(x))
  {
    FlatMapConcat(a, b, f);
    FlatMapConcat(a + [x], b, f);
    FlatMapConcat(a, [x], f);
    FlatMapOne(x, f);
  }

  lemma FlatMapFirst<A, B>(s: seq<A>, f: A -> seq<B>)
    requires s != []
    ensures multiset(FlatMap(s, f)) == multiset(FlatMap(s[1..], f)) + multiset(f(s[0]))
  {
    FlatMapMove([], s[0], s[1..], f);
    assert [] + [s[0]] + s[1..] == s && [] + s[1..] == s[1..];
  }

  lemma {:induction false} FlatMapBag<A, B>(s: seq<A>, t: seq<A>, f: A -> seq<B>)
    requires multiset(s) == multiset(t)
    ensures multiset(FlatMap(s, f)) == multiset(FlatMap(t, f))
    decreases |s|
  {
    if s == [] {
      assert |multiset(s)| == |multiset(t)|;
    } else {
      var a, b := FindFirst(s, t);
      FlatMapFirst(s, f);
      FlatMapMove(a, s[0], b, f);
      FlatMapBag(s[1..], a + b, f);
    }
  }
}
