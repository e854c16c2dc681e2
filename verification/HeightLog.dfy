/** Logs ordered by block height, and the batches that height ranges cut out of them. */
module HeightLog {
  import opened SortBy

  function Max(a: int, b: int): int { if a >= b then a else b }
  function Min(a: int, b: int): int { if a <= b then a else b }

  /** The entries of `log` with `lo < height <= hi`, in log order: the query every job starts with. */
  function Between<T>(log: seq<T>, height: T -> int, lo: int, hi: int): seq<T>
  {
    if log == [] then []
    else if lo < height(log[0]) <= hi then [log[0]] + Between(log[1..], height, lo, hi)
    else Between(log[1..], height, lo, hi)
  }

  function Flatten<T>(batches: seq<seq<T>>): seq<T>
  {
    if batches == [] then [] else batches[0] + Flatten(batches[1..])
  }

  ghost predicate Nondecreasing(bounds: seq<int>)
  {
    forall i, j :: 0 <= i < j < |bounds| ==> bounds[i] <= bounds[j]
  }

  /** The consecutive batches `(bounds[0], bounds[1]]`, `(bounds[1], bounds[2]]`, and so on. */
  function Batches<T>(log: seq<T>, height: T -> int, bounds: seq<int>): seq<seq<T>>
  {
    if |bounds| < 2 then []
    else [Between(log, height, bounds[0], bounds[1])] + Batches(log, height, bounds[1..])
  }

  lemma {:induction false} BetweenEmpty<T>(log: seq<T>, height: T -> int, lo: int, hi: int)
    requires forall i :: 0 <= i < |log| ==> !(lo < height(log[i]) <= hi)
    ensures Between(log, height, lo, hi) == []
  {
    if log != [] {
      BetweenEmpty(log[1..], height, lo, hi);
    }
  }

  lemma {:induction false} BetweenMembers<T>(log: seq<T>, height: T -> int, lo: int, hi: int)
    ensures forall i :: 0 <= i < |Between(log, height, lo, hi)| ==>
              lo < height(Between(log, height, lo, hi)[i]) <= hi && Between(log, height, lo, hi)[i] in log
  {
    if log != [] {
      BetweenMembers(log[1..], height, lo, hi);
    }
  }

  lemma {:induction false} BetweenOrdered<T>(log: seq<T>, height: T -> int, lo: int, hi: int, key: T -> int)
    requires Sorted(log, key)
    ensures Sorted(Between(log, height, lo, hi), key)
  {
    if log != [] {
      var rest := Between(log[1..], height, lo, hi);
      BetweenOrdered(log[1..], height, lo, hi, key);
      BetweenMembers(log[1..], height, lo, hi);
      forall i | 0 <= i < |rest| ensures key(log[0]) <= key(rest[i]) {
        assert rest[i] in log[1..];
        var j :| 0 <= j < |log[1..]| && log[1..][j] == rest[i];
        assert log[j + 1] == rest[i];
      }
    }
  }

  /** Two adjacent ranges of an ordered log join into one. */
  lemma {:induction false} BetweenJoin<T>(log: seq<T>, height: T -> int, lo: int, mid: int, hi: int)
    requires Sorted(log, height)
    requires lo <= mid <= hi
    ensures Between(log, height, lo, mid) + Between(log, height, mid, hi) == Between(log, height, lo, hi)
  {
    if log != [] {
      BetweenJoin(log[1..], height, lo, mid, hi);
      if mid < height(log[0]) {
        BetweenEmpty(log, height, lo, mid);
        BetweenEmpty(log[1..], height, lo, mid);
      }
    }
  }

  /** A gap that holds no entry can be left out of a range. */
  lemma {:induction false} BetweenSkip<T>(log: seq<T>, height: T -> int, lo: int, lo': int, hi: int)
    requires forall i :: 0 <= i < |log| && height(log[i]) <= hi ==> (lo < height(log[i]) <==> lo' < height(log[i]))
    ensures Between(log, height, lo, hi) == Between(log, height, lo', hi)
  {
    if log != [] {
      assert log[0] in log;
      BetweenSkip(log[1..], height, lo, lo', hi);
    }
  }

  /** Cutting an ordered log into consecutive ranges loses, repeats and reorders nothing. */
  lemma {:induction false} BatchesFlatten<T>(log: seq<T>, height: T -> int, bounds: seq<int>)
    requires Sorted(log, height) && Nondecreasing(bounds) && bounds != []
    ensures Flatten(Batches(log, height, bounds)) == Between(log, height, bounds[0], bounds[|bounds| - 1])
  {
    if |bounds| == 1 {
      BetweenEmpty(log, height, bounds[0], bounds[0]);
    } else {
      BatchesFlatten(log, height, bounds[1..]);
      BetweenJoin(log, height, bounds[0], bounds[1], bounds[|bounds| - 1]);
    }
  }

  lemma {:induction false} FlattenSnoc<T>(batches: seq<seq<T>>, batch: seq<T>)
    ensures Flatten(batches + [batch]) == Flatten(batches) + batch
  {
    if batches == [] {
      assert batches + [batch] == [batch];
      assert [batch][1..] == [];
    } else {
      assert (batches + [batch])[1..] == batches[1..] + [batch];
      FlattenSnoc(batches[1..], batch);
    }
  }

  lemma {:induction false} BetweenConcat<T>(a: seq<T>, b: seq<T>, height: T -> int, lo: int, hi: int)
    ensures Between(a + b, height, lo, hi) == Between(a, height, lo, hi) + Between(b, height, lo, hi)
  {
    if a == [] {
      assert a + b == b;
    } else {
      assert (a + b)[0] == a[0] && (a + b)[1..] == a[1..] + b;
      BetweenConcat(a[1..], b, height, lo, hi);
    }
  }

  /** A range of a range. */
  lemma {:induction false} BetweenBetween<T>(log: seq<T>, height: T -> int, lo: int, hi: int, lo': int, hi': int)
    ensures Between(Between(log, height, lo, hi), height, lo', hi') == Between(log, height, Max(lo, lo'), Min(hi, hi'))
  {
    if log != [] {
      BetweenBetween(log[1..], height, lo, hi, lo', hi');
      if lo < height(log[0]) <= hi {
        assert Between(log, height, lo, hi)[1..] == Between(log[1..], height, lo, hi);
      }
    }
  }

  lemma {:induction false} BetweenSelect<T>(log: seq<T>, height: T -> int, lo: int, hi: int, p: T -> bool)
    ensures Between(Select(log, p), height, lo, hi) == Select(Between(log, height, lo, hi), p)
  {
    if log != [] {
      BetweenSelect(log[1..], height, lo, hi, p);
      if p(log[0]) {
        assert Select(log, p)[1..] == Select(log[1..], p);
      }
      if lo < height(log[0]) <= hi {
        assert Between(log, height, lo, hi)[1..] == Between(log[1..], height, lo, hi);
      }
    }
  }

  lemma {:induction false} BetweenHas<T>(log: seq<T>, height: T -> int, lo: int, hi: int, x: T)
    requires x in log && lo < height(x) <= hi
    ensures x in Between(log, height, lo, hi)
  {
    if log[0] != x { BetweenHas(log[1..], height, lo, hi, x); }
  }

  lemma BetweenOne<T>(x: T, height: T -> int, lo: int, hi: int)
    ensures Between([x], height, lo, hi) == if lo < height(x) <= hi then [x] else []
  {
    assert [x][1..] == [] && Between([x][1..], height, lo, hi) == [];
  }

  lemma {:induction false} BetweenBag<T>(log: seq<T>, height: T -> int, lo: int, hi: int, x: T)
    ensures multiset(Between(log, height, lo, hi))[x] == if lo < height(x) <= hi then multiset(log)[x] else 0
  {
    if log != [] {
      BetweenBag(log[1..], height, lo, hi, x);
      assert log == [log[0]] + log[1..];
    }
  }
}
