/** Range partitions of the block table, created ahead of the chain. */
module Partition {
  import opened Wrappers
  import opened Strings

  /** Heights `h` with `from <= h < to`. */
  datatype Bounds = Bounds(from: nat, to: nat)

  /** The attached partitions by name. */
  type Parts = map<string, Bounds>

  function Name(b: Bounds): string
  {
    "block_partition_" + Numeral(b.from) + "_" + Numeral(b.to)
  }

  /** The partition number `k`. */
  function Nth(step: nat, k: nat): Bounds
  {
    Bounds(step * k, step * k + step)
  }

  function WantedPartition(step: nat, latest: Option<nat>): Option<Bounds>
    requires step > 0
  {
    if latest.None? || 2 * (latest.value % step) < step then None
    else Some(Nth(step, latest.value / step + 1))
  }

  function AfterJob(step: nat, parts: Parts, latest: Option<nat>): Parts
    requires step > 0
  {
    match WantedPartition(step, latest)
    case None => parts
    case Some(b) => if Name(b) in parts then parts else parts[Name(b) := b]
  }

  class CreateBlockPartition {
    const step: nat
    var parts: Parts

    method CreatePartitionName(latest: Option<nat>) returns (info: Option<(string, Bounds)>)
      requires step > 0
      ensures AfterJob(step, parts, latest) == if info.None? then parts else parts[info.value.0 := info.value.1]
      ensures info.Some? ==> info.value.0 !in parts && latest.Some? && info.value.1.from > latest.value
    {
      if latest.None? || 2 * (latest.value % step) < step {
        return None;
      }
      var stepMultiple := latest.value / step + 1;
      var fromHeight := step * stepMultiple;
      var toHeight := fromHeight + step;
      var partitionName := "block_partition_" + Numeral(fromHeight) + "_" + Numeral(toHeight);
      NextIsAbove(step, latest.value);
      if partitionName in parts {
        return None;
      }
      return Some((partitionName, Bounds(fromHeight, toHeight)));
    }

    method JobCreateBlockPartition(latest: Option<nat>) returns (created: bool)
      requires step > 0
      modifies this
      ensures parts == AfterJob(step, old(parts), latest)
      ensures created <==> parts != old(parts)
    {
      var info := CreatePartitionName(latest);
      if info.None? {
        return false;
      }
      parts := parts[info.value.0 := info.value.1];
      return true;
    }
  }

  lemma NextIsAbove(step: nat, h: nat)
    requires step > 0
    ensures step * (h / step + 1) > h && step * (h / step) <= h
  {
    assert h == step * (h / step) + h % step;
    assert step * (h / step + 1) == step * (h / step) + step;
  }

  lemma InPartition(step: nat, h: nat, k: nat)
    requires step > 0 && step * k <= h < step * k + step
    ensures h / step == k && h % step == h - step * k
    ensures Nth(step, h / step + 1) == Bounds(step * k + step, step * k + step + step)
  {
    NthHolds(step, k, h);
    assert h == step * (h / step) + h % step;
    assert step * (k + 1) == step * k + step;
  }

  /**
   The job adds partition `k + 1` and nothing else, exactly when the latest height is in the second half of partition `k`
   and that name is not taken.
   */
  lemma CreatesIff(step: nat, parts: Parts, h: nat, k: nat)
    requires step > 0 && step * k <= h < step * k + step
    ensures var next := Bounds(step * k + step, step * k + step + step);
            var name := "block_partition_" + Numeral(next.from) + "_" + Numeral(next.to);
            && AfterJob(step, parts, None) == parts
            && (if 2 * (h - step * k) >= step && name !in parts then AfterJob(step, parts, Some(h)) == parts[name := next]
                else AfterJob(step, parts, Some(h)) == parts)
  {
    InPartition(step, h, k);
    var next := Bounds(step * k + step, step * k + step + step);
    assert WantedPartition(step, Some(h)) == if 2 * (h - step * k) < step then None else Some(next);
    assert Name(next) == "block_partition_" + Numeral(next.from) + "_" + Numeral(next.to);
  }

  // ----- coverage -----

  /** Every partition is one of the numbered ones, under its own name. */
  ghost predicate Aligned(step: nat, parts: Parts)
  {
    forall n :: n in parts ==> n == Name(parts[n]) && exists k: nat :: parts[n] == Nth(step, k)
  }

  predicate Has(step: nat, parts: Parts, k: nat)
  {
    Name(Nth(step, k)) in parts
  }

  predicate Holds(b: Bounds, h: nat)
  {
    b.from <= h < b.to
  }

  /** Exactly one partition takes the height. */
  ghost predicate CoveredOnce(parts: Parts, h: nat)
  {
    && (exists n :: n in parts && Holds(parts[n], h))
    && (forall n, n' :: n in parts && n' in parts && Holds(parts[n], h) && Holds(parts[n'], h) ==> n == n')
  }

  /** The partitions up to the one of `base` exist, and the next one too when `base` is in the second half of its own. */
  ghost predicate Ready(step: nat, parts: Parts, base: nat)
    requires step > 0
  {
    && (forall k: nat :: k <= base / step ==> Has(step, parts, k))
    && (2 * (base % step) >= step ==> Has(step, parts, base / step + 1))
  }

  lemma NameInjective(a: Bounds, b: Bounds)
    requires Name(a) == Name(b)
    ensures a == b
  {
    var head := "block_partition_";
    var x, y := Numeral(a.from) + ['_'] + Numeral(a.to), Numeral(b.from) + ['_'] + Numeral(b.to);
    assert Name(a) == head + x && Name(b) == head + y;
    assert x == Name(a)[|head|..] && y == Name(b)[|head|..];
    NumeralValue(a.from); NumeralValue(b.from); NumeralValue(a.to); NumeralValue(b.to);
    SplitAfter(Numeral(a.from), Numeral(a.to), '_');
    SplitAfter(Numeral(b.from), Numeral(b.to), '_');
    SplitNone(Numeral(a.to), '_');
    SplitNone(Numeral(b.to), '_');
    assert Split(x, '_') == [Numeral(a.from)] + [Numeral(a.to)];
    assert Split(y, '_') == [Numeral(b.from)] + [Numeral(b.to)];
    assert Split(x, '_')[0] == Numeral(a.from) && Split(x, '_')[1] == Numeral(a.to);
    assert Split(y, '_')[0] == Numeral(b.from) && Split(y, '_')[1] == Numeral(b.to);
    NumeralInjective(a.from, b.from);
    NumeralInjective(a.to, b.to);
  }

  lemma HasBounds(step: nat, parts: Parts, k: nat)
    requires Aligned(step, parts) && Has(step, parts, k)
    ensures parts[Name(Nth(step, k))] == Nth(step, k)
  {
    NameInjective(parts[Name(Nth(step, k))], Nth(step, k));
  }

  /** A numbered partition holds exactly the heights whose quotient is its number. */
  lemma NthHolds(step: nat, k: nat, h: nat)
    requires step > 0
    ensures Holds(Nth(step, k), h) <==> h / step == k
  {
    NextIsAbove(step, h);
    var q := h / step;
    if q < k {
      assert step * k >= step * (q + 1) by { MulMonotone(step, q + 1, k); }
    } else if q > k {
      assert step * q >= step * (k + 1) by { MulMonotone(step, k + 1, q); }
      assert step * (k + 1) == step * k + step;
    } else {
      assert step * (q + 1) == step * q + step;
    }
  }

  lemma MulMonotone(step: nat, a: nat, b: nat)
    requires a <= b
    ensures step * a <= step * b
  {
    assert step * b == step * a + step * (b - a);
  }

  lemma CoveredIff(step: nat, parts: Parts, h: nat)
    requires step > 0 && Aligned(step, parts)
    ensures CoveredOnce(parts, h) <==> Has(step, parts, h / step)
  {
    forall n | n in parts && Holds(parts[n], h) ensures n == Name(Nth(step, h / step)) {
      var k: nat :| parts[n] == Nth(step, k);
      NthHolds(step, k, h);
    }
    if Has(step, parts, h / step) {
      HasBounds(step, parts, h / step);
      NthHolds(step, h / step, h);
      assert Holds(parts[Name(Nth(step, h / step))], h);
    }
  }

  /** Partitions created by the job never overlap. */
  lemma AlignedDisjoint(step: nat, parts: Parts, n: string, n': string, h: nat)
    requires step > 0 && Aligned(step, parts) && n in parts && n' in parts && n != n'
    ensures !(Holds(parts[n], h) && Holds(parts[n'], h))
  {
    var k: nat :| parts[n] == Nth(step, k);
    var k': nat :| parts[n'] == Nth(step, k');
    NthHolds(step, k, h);
    NthHolds(step, k', h);
  }

  lemma JobKeepsAligned(step: nat, parts: Parts, latest: Option<nat>)
    requires step > 0 && Aligned(step, parts)
    ensures Aligned(step, AfterJob(step, parts, latest))
  {
    var wanted := WantedPartition(step, latest);
    if wanted.Some? {
      var k := latest.value / step + 1;
      assert wanted.value == Nth(step, k);
    }
  }

  /** From a ready state, growth by at most half a step stays inside existing partitions. */
  lemma GrowthCovered(step: nat, parts: Parts, base: nat, h: nat)
    requires step > 0 && Aligned(step, parts) && Ready(step, parts, base)
    requires 2 * h <= 2 * base + step
    ensures CoveredOnce(parts, h) && h / step <= base / step + 1
    ensures forall k: nat :: k <= h / step ==> Has(step, parts, k)
  {
    var n: nat := h / step;
    assert n <= base / step + 1 && (2 * (base % step) < step ==> n <= base / step) by { QuotientGrowth(step, base, h); }
    assert forall k: nat :: k <= n ==> Has(step, parts, k) by { ReadyHas(step, parts, base, n); }
    CoveredBy(step, parts, h);
  }

  lemma CoveredBy(step: nat, parts: Parts, h: nat)
    requires step > 0 && Aligned(step, parts) && forall k: nat :: k <= h / step ==> Has(step, parts, k)
    ensures CoveredOnce(parts, h)
  {
    var n: nat := h / step;
    assert Has(step, parts, n);
    CoveredIff(step, parts, h);
  }

  lemma ReadyHas(step: nat, parts: Parts, base: nat, n: nat)
    requires step > 0 && Ready(step, parts, base)
    requires n <= base / step + 1 && (2 * (base % step) < step ==> n <= base / step)
    ensures Has(step, parts, n)
    ensures forall k: nat :: k <= n ==> Has(step, parts, k)
  {
    HasUpTo(step, parts, base / step, 2 * (base % step) >= step, n);
  }

  lemma HasUpTo(step: nat, parts: Parts, q: nat, late: bool, n: nat)
    requires (forall k: nat :: k <= q ==> Has(step, parts, k)) && (late ==> Has(step, parts, q + 1))
    requires n <= q + 1 && (!late ==> n <= q)
    ensures forall k: nat :: k <= n ==> Has(step, parts, k)
  {
    forall k: nat | k <= n ensures Has(step, parts, k) {
      if k > q { assert k == q + 1; }
    }
  }

  lemma QuotientGrowth(step: nat, base: nat, h: nat)
    requires step > 0 && 2 * h <= 2 * base + step
    ensures h / step <= base / step + 1
    ensures 2 * (base % step) < step ==> h / step <= base / step
  {
    var q, r := base / step, base % step;
    assert base == step * q + r;
    assert step * (q + 1) == step * q + step;
    assert step * (q + 2) == step * q + 2 * step;
    QuotientBelow(step, h, q + 2);
    if 2 * r < step {
      QuotientBelow(step, h, q + 1);
    }
  }

  lemma QuotientBelow(step: nat, h: nat, k: nat)
    requires step > 0 && h < step * k
    ensures h / step < k
  {
    NextIsAbove(step, h);
    if h / step >= k { MulMonotone(step, k, h / step); }
  }

  lemma QuotientPositive(step: nat, h: nat)
    requires 0 < step <= h
    ensures h / step > 0
  {
  }

  lemma JobMakesReady(step: nat, parts: Parts, top: nat)
    requires step > 0 && forall k: nat :: k <= top / step ==> Has(step, parts, k)
    ensures Ready(step, AfterJob(step, parts, Some(top)), top)
  {
    var after := AfterJob(step, parts, Some(top));
    forall k: nat | k <= top / step ensures Has(step, after, k) {
      assert Has(step, parts, k);
    }
  }

  /** Half a step is the exact bound: growth by `g` is always covered if and only if `2g <= step`. */
  lemma HalfStepIsExact(step: nat, g: nat)
    requires step > 0
    ensures (forall parts, base: nat, h: nat {:trigger Ready(step, parts, base), CoveredOnce(parts, h)} ::
               Aligned(step, parts) && Ready(step, parts, base) && h <= base + g ==> CoveredOnce(parts, h))
            <==> 2 * g <= step
  {
    if 2 * g <= step {
      forall parts, base: nat, h: nat | Aligned(step, parts) && Ready(step, parts, base) && h <= base + g
        ensures CoveredOnce(parts, h)
      {
        GrowthCovered(step, parts, base, h);
      }
    } else {
      var parts, base := TightState(step);
      var h := base + g;
      QuotientPositive(step, h);
      CoveredIff(step, parts, h);
      OtherNames(step, h / step);
      assert !CoveredOnce(parts, h);
      assert Ready(step, parts, base);
    }
  }

  lemma OtherNames(step: nat, k: nat)
    requires step > 0 && k > 0
    ensures Name(Nth(step, k)) != Name(Nth(step, 0))
  {
    MulMonotone(step, 1, k);
    assert Nth(step, k) != Nth(step, 0);
    if Name(Nth(step, k)) == Name(Nth(step, 0)) {
      NameInjective(Nth(step, k), Nth(step, 0));
    }
  }

  /** One partition, and a top just below its middle. */
  lemma TightState(step: nat) returns (parts: Parts, base: nat)
    requires step > 0
    ensures Aligned(step, parts) && Ready(step, parts, base) && parts == map[Name(Nth(step, 0)) := Nth(step, 0)]
    ensures base == (step - 1) / 2
  {
    base := (step - 1) / 2;
    parts := map[Name(Nth(step, 0)) := Nth(step, 0)];
    SmallQuotient(step, base);
    assert Has(step, parts, 0);
  }

  lemma SmallQuotient(step: nat, h: nat)
    requires h < step
    ensures h / step == 0 && h % step == h
  {
  }

  // ----- runs -----

  /**
   `top` is the highest of the heights stored so far, as the job's query finds it, and `base` the highest one at the
   last partition job.
   */
  datatype State = State(parts: Parts, stored: set<nat>, top: Option<nat>, base: nat)

  datatype Step = Insert(height: nat) | Job

  /** Blocks arrive within half a step of the last partition job. */
  predicate Enabled(step: nat, s: State, st: Step)
  {
    st.Insert? ==> 2 * st.height <= 2 * s.base + step
  }

  function Next(step: nat, s: State, st: Step): State
    requires step > 0
  {
    match st
    case Insert(h) =>
      s.(stored := s.stored + {h}, top := if s.top.Some? && h <= s.top.value then s.top else Some(h))
    case Job =>
      s.(parts := AfterJob(step, s.parts, s.top), base := if s.top.Some? then s.top.value else s.base)
  }

  /** What ordering the stored heights downwards and taking the first returns. */
  ghost predicate IsTop(stored: set<nat>, top: Option<nat>)
  {
    match top
    case None => stored == {}
    case Some(t) => t in stored && forall h :: h in stored ==> h <= t
  }

  ghost predicate Inv(step: nat, s: State)
    requires step > 0
  {
    && Aligned(step, s.parts) && Ready(step, s.parts, s.base)
    && IsTop(s.stored, s.top)
    && (forall h :: h in s.stored ==> 2 * h <= 2 * s.base + step && CoveredOnce(s.parts, h))
  }

  /** The partitions that the migration attaches. */
  function FirstParts(step: nat): Parts
  {
    map[Name(Nth(step, 0)) := Nth(step, 0), Name(Nth(step, 1)) := Nth(step, 1)]
  }

  lemma FirstPartsAligned(step: nat)
    requires 0 < step
    ensures Aligned(step, FirstParts(step)) && Has(step, FirstParts(step), 0) && Has(step, FirstParts(step), 1)
  {
    OtherNames(step, 1);
  }

  lemma OnlyFirstReady(step: nat, parts: Parts, base: nat)
    requires 0 < step && base < step && Has(step, parts, 0) && Has(step, parts, 1)
    ensures Ready(step, parts, base)
  {
    SmallQuotient(step, base);
    forall k: nat | k <= base / step ensures Has(step, parts, k) {
      assert k == 0;
    }
    assert base / step + 1 == 1;
  }

  /** The table as the migration leaves it, with the old blocks in the first partition, satisfies the invariant. */
  lemma MigratedTable(step: nat, stored: set<nat>, top: Option<nat>, base: nat)
    requires 0 < step && base < step && IsTop(stored, top) && forall h :: h in stored ==> h <= base
    ensures Inv(step, State(FirstParts(step), stored, top, base))
  {
    var parts := FirstParts(step);
    FirstPartsAligned(step);
    OnlyFirstReady(step, parts, base);
    forall h | h in stored ensures CoveredOnce(parts, h) {
      SmallQuotient(step, h);
      CoveredIff(step, parts, h);
    }
  }

  lemma MorePartsCover(step: nat, parts: Parts, more: Parts, h: nat)
    requires step > 0 && Aligned(step, parts) && Aligned(step, more) && parts.Keys <= more.Keys && CoveredOnce(parts, h)
    ensures CoveredOnce(more, h)
  {
    CoveredIff(step, parts, h);
    CoveredIff(step, more, h);
  }

  lemma StepKeepsInv(step: nat, s: State, st: Step)
    requires step > 0 && Inv(step, s) && Enabled(step, s, st)
    ensures Inv(step, Next(step, s, st))
    ensures st.Insert? ==> CoveredOnce(s.parts, st.height)
  {
    match st
    case Insert(h) => GrowthCovered(step, s.parts, s.base, h);
    case Job =>
      var s' := Next(step, s, Job);
      JobKeepsAligned(step, s.parts, s.top);
      if s.top.Some? {
        GrowthCovered(step, s.parts, s.base, s.top.value);
        JobMakesReady(step, s.parts, s.top.value);
      }
      forall h | h in s'.stored ensures CoveredOnce(s'.parts, h) { MorePartsCover(step, s.parts, s'.parts, h); }
  }

  ghost predicate IsRun(step: nat, s: State, steps: seq<Step>)
    requires step > 0
    decreases |steps|
  {
    steps != [] ==> Enabled(step, s, steps[0]) && IsRun(step, Next(step, s, steps[0]), steps[1..])
  }

  ghost function After(step: nat, s: State, steps: seq<Step>): State
    requires step > 0
    decreases |steps|
  {
    if steps == [] then s else After(step, Next(step, s, steps[0]), steps[1..])
  }

  /**
   While the chain grows by at most half a step between partition jobs, every height ever inserted lies in exactly
   one partition, at its insertion and ever after, and the partitions stay aligned, hence disjoint.
   */
  lemma {:induction false} EveryHeightInOnePartition(step: nat, s: State, steps: seq<Step>)
    requires step > 0 && Inv(step, s) && IsRun(step, s, steps)
    ensures Inv(step, After(step, s, steps))
    ensures forall h :: h in After(step, s, steps).stored ==> CoveredOnce(After(step, s, steps).parts, h)
    decreases |steps|
  {
    if steps != [] {
      StepKeepsInv(step, s, steps[0]);
      EveryHeightInOnePartition(step, Next(step, s, steps[0]), steps[1..]);
    }
  }
}
