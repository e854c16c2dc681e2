/**
 The checkpoint protocol while the table fills. A job whose dependencies have no row at all reads an end of 0, so an
 unguarded job first commits checkpoint 0, below the start block, and the jobs behind it follow it back.
 */
module Startup {
  import opened Wrappers
  import opened Checkpoint

  /** Either all dependencies of the job have a row, or none has. */
  predicate AllOrNone(c: Config, rows: Rows, j: Job)
    requires j in c.jobs
  {
    || (forall d :: d in c.jobs[j].deps ==> d in rows)
    || (forall d :: d in c.jobs[j].deps ==> d !in rows)
  }

  /** A run whose reads are all skipped by the job's guard, or made with all dependency rows there or none. */
  ghost predicate Starting(c: Config, steps: seq<Step>)
  {
    steps == [] ||
    var before, step := steps[..|steps| - 1], steps[|steps| - 1];
    && Starting(c, before)
    && Enabled(c, Exec(c, before), step)
    && (step.Read? ==>
          || Skips(c.jobs[step.job].guard, ReadRange(Exec(c, before).rows, c.startBlock, step.job, c.jobs[step.job]))
          || AllOrNone(c, Exec(c, before).rows, step.job))
  }

  /** A height that no row backs counts as 0. */
  function Backed(rows: Rows, d: Job): int
  {
    if d in rows then rows[d] else 0
  }

  /** At or below every dependency, and at 0 while one has no row. */
  ghost predicate EndsBelow(c: Config, rows: Rows, j: Job, end: int)
    requires j in c.jobs
  {
    && 0 <= end && (c.jobs[j].deps == [] ==> end == 0)
    && forall d :: d in c.jobs[j].deps ==> end <= Backed(rows, d)
  }

  /** Every row of a job is at or below the rows of its dependencies, and at 0 while one has none. */
  ghost predicate RowsBelow(c: Config, rows: Rows)
  {
    forall j :: j in c.jobs && j in rows ==> EndsBelow(c, rows, j, rows[j])
  }

  /** A pending range starts at the job's own height, ends in a safe place, and goes back only before the job has a row. */
  ghost predicate PendingBelow(c: Config, s: System)
  {
    forall j :: j in s.pending ==>
      && j in c.jobs && s.pending[j].start == HeightOf(s.rows, c.startBlock, j)
      && EndsBelow(c, s.rows, j, s.pending[j].end)
      && (s.pending[j].start <= s.pending[j].end || j !in s.rows)
  }

  /** The committed ranges are consecutive from the start block or, after a first one that goes back, from where that ends. */
  ghost predicate Tiled(c: Config, ranges: seq<Range>, to: int)
  {
    || Consecutive(ranges, c.startBlock, to)
    || (ranges != [] && WentBack(c, ranges[0]) && Consecutive(ranges[1..], ranges[0].end, to))
  }

  predicate WentBack(c: Config, r: Range) { r.start == c.startBlock && r.end <= r.start }

  ghost predicate AllTiled(c: Config, s: System)
  {
    forall j :: j in c.jobs ==>
      && Tiled(c, CommittedBy(s, j), HeightOf(s.rows, c.startBlock, j))
      && (j !in s.rows ==> CommittedBy(s, j) == [])
  }

  ghost predicate StartInv(c: Config, s: System)
  {
    (forall j :: j in s.rows ==> 0 <= s.rows[j]) && RowsBelow(c, s.rows) && PendingBelow(c, s) && AllTiled(c, s)
  }

  /** What a read gives when all dependency rows are there or none is. */
  lemma ReadBelow(c: Config, s: System, j: Job)
    requires c.Valid() && StartInv(c, s) && j in c.jobs && AllOrNone(c, s.rows, j)
    ensures var r := ReadRange(s.rows, c.startBlock, j, c.jobs[j]);
            EndsBelow(c, s.rows, j, r.end) && (r.start <= r.end || j !in s.rows)
  {
    var deps := c.jobs[j].deps;
    var low := LowestRow(s.rows, deps);
    if low.Some? {
      var d :| d in deps && d in s.rows && low.value == s.rows[d];
      assert forall e :: e in deps ==> e in s.rows;
      if j in s.rows { assert EndsBelow(c, s.rows, j, s.rows[j]); }
    } else if j in s.rows {
      assert EndsBelow(c, s.rows, j, s.rows[j]);
      if deps != [] { assert deps[0] in deps && deps[0] !in s.rows; }
    }
  }

  lemma SameCommitted(c: Config, s: System, s': System)
    requires AllTiled(c, s) && s'.committed == s.committed && s'.rows == s.rows
    ensures AllTiled(c, s')
  {
    assert forall k :: CommittedBy(s', k) == CommittedBy(s, k);
  }

  lemma ReadKeeps(c: Config, s: System, j: Job)
    requires c.Valid() && StartInv(c, s) && Enabled(c, s, Read(j))
    requires Skips(c.jobs[j].guard, ReadRange(s.rows, c.startBlock, j, c.jobs[j])) || AllOrNone(c, s.rows, j)
    ensures StartInv(c, Apply(c, s, Read(j)))
  {
    if !Skips(c.jobs[j].guard, ReadRange(s.rows, c.startBlock, j, c.jobs[j])) { ReadBelow(c, s, j); }
    SameCommitted(c, s, Apply(c, s, Read(j)));
  }

  lemma AbortKeeps(c: Config, s: System, j: Job)
    requires StartInv(c, s) && Enabled(c, s, Abort(j))
    ensures StartInv(c, Apply(c, s, Abort(j)))
  {
    SameCommitted(c, s, Apply(c, s, Abort(j)));
  }

  /** Rows that grow, or appear at 0 or above, keep everything below them. */
  lemma StaysBelow(c: Config, rows: Rows, rows': Rows, j: Job, end: int)
    requires j in c.jobs && EndsBelow(c, rows, j, end)
    requires forall d :: d in c.jobs[j].deps ==> Backed(rows, d) <= Backed(rows', d)
    ensures EndsBelow(c, rows', j, end)
  {
  }

  lemma GrowKeeps(c: Config, s: System, root: Job, h: int)
    requires c.Valid() && StartInv(c, s) && Enabled(c, s, Grow(root, h))
    ensures StartInv(c, Apply(c, s, Grow(root, h)))
  {
    var s' := Apply(c, s, Grow(root, h));
    assert root !in c.jobs;
    assert forall d :: Backed(s.rows, d) <= Backed(s'.rows, d);
    forall j | j in c.jobs && j in s'.rows ensures EndsBelow(c, s'.rows, j, s'.rows[j]) {
      assert EndsBelow(c, s.rows, j, s.rows[j]);
      StaysBelow(c, s.rows, s'.rows, j, s.rows[j]);
    }
    forall j | j in s'.pending ensures j in c.jobs && EndsBelow(c, s'.rows, j, s'.pending[j].end) {
      assert EndsBelow(c, s.rows, j, s.pending[j].end);
      StaysBelow(c, s.rows, s'.rows, j, s.pending[j].end);
    }
    forall j | j in c.jobs ensures CommittedBy(s', j) == CommittedBy(s, j)
                                   && HeightOf(s'.rows, c.startBlock, j) == HeightOf(s.rows, c.startBlock, j)
                                   && (j in s'.rows <==> j in s.rows) {
      assert j != root;
    }
  }

  /** A commit never lowers what a dependent can rely on. */
  lemma CommitRaises(c: Config, s: System, j: Job, d: Job)
    requires StartInv(c, s) && Enabled(c, s, Commit(j))
    ensures Backed(s.rows, d) <= Backed(Apply(c, s, Commit(j)).rows, d)
    ensures j in s.rows ==> s.rows[j] <= s.pending[j].end
  {
    assert EndsBelow(c, s.rows, j, s.pending[j].end);
    assert s.pending[j].start == HeightOf(s.rows, c.startBlock, j);
  }

  lemma CommitKeepsRows(c: Config, s: System, j: Job)
    requires c.Valid() && StartInv(c, s) && Enabled(c, s, Commit(j))
    ensures RowsBelow(c, Apply(c, s, Commit(j)).rows) && PendingBelow(c, Apply(c, s, Commit(j)))
  {
    var s' := Apply(c, s, Commit(j));
    forall d ensures Backed(s.rows, d) <= Backed(s'.rows, d) { CommitRaises(c, s, j, d); }
    assert EndsBelow(c, s.rows, j, s.pending[j].end);
    forall k | k in c.jobs && k in s'.rows ensures EndsBelow(c, s'.rows, k, s'.rows[k]) {
      if k != j { assert EndsBelow(c, s.rows, k, s.rows[k]); }
      StaysBelow(c, s.rows, s'.rows, k, s'.rows[k]);
    }
    forall k | k in s'.pending
      ensures k in c.jobs && s'.pending[k].start == HeightOf(s'.rows, c.startBlock, k) && EndsBelow(c, s'.rows, k, s'.pending[k].end)
    {
      assert k != j && EndsBelow(c, s.rows, k, s.pending[k].end);
      StaysBelow(c, s.rows, s'.rows, k, s.pending[k].end);
    }
  }

  lemma ConsecutiveSnoc(ranges: seq<Range>, from: int, r: Range)
    requires Consecutive(ranges, from, r.start) && r.start <= r.end
    ensures Consecutive(ranges + [r], from, r.end)
  {
    assert (ranges + [r])[..|ranges|] == ranges;
  }

  lemma TiledSnoc(c: Config, ranges: seq<Range>, r: Range)
    requires Tiled(c, ranges, r.start) && (r.start <= r.end || ranges == [])
    ensures Tiled(c, ranges + [r], r.end)
  {
    if r.start <= r.end {
      if Consecutive(ranges, c.startBlock, r.start) {
        ConsecutiveSnoc(ranges, c.startBlock, r);
      } else {
        ConsecutiveSnoc(ranges[1..], ranges[0].end, r);
        assert (ranges + [r])[0] == ranges[0] && (ranges + [r])[1..] == ranges[1..] + [r];
      }
    } else {
      assert ranges + [r] == [r] && [r][1..] == [];
    }
  }

  lemma CommitKeepsTiles(c: Config, s: System, j: Job)
    requires StartInv(c, s) && Enabled(c, s, Commit(j))
    ensures AllTiled(c, Apply(c, s, Commit(j)))
  {
    var s', r := Apply(c, s, Commit(j)), s.pending[j];
    assert r.start == HeightOf(s.rows, c.startBlock, j);
    forall k | k in c.jobs ensures Tiled(c, CommittedBy(s', k), HeightOf(s'.rows, c.startBlock, k)) && (k !in s'.rows ==> CommittedBy(s', k) == []) {
      if k == j {
        TiledSnoc(c, CommittedBy(s, j), r);
      } else {
        assert CommittedBy(s', k) == CommittedBy(s, k);
      }
    }
  }

  lemma CommitKeeps(c: Config, s: System, j: Job)
    requires c.Valid() && StartInv(c, s) && Enabled(c, s, Commit(j))
    ensures StartInv(c, Apply(c, s, Commit(j)))
  {
    assert EndsBelow(c, s.rows, j, s.pending[j].end);
    CommitKeepsRows(c, s, j);
    CommitKeepsTiles(c, s, j);
  }

  /** Safety of every start: no row is above the row of a dependency, and the committed ranges leave no gap. */
  lemma {:induction false} StartSafe(c: Config, steps: seq<Step>)
    requires c.Valid() && Starting(c, steps)
    ensures StartInv(c, Exec(c, steps))
  {
    if steps != [] {
      var before, step := steps[..|steps| - 1], steps[|steps| - 1];
      StartSafe(c, before);
      var s := Exec(c, before);
      match step
      case Read(j) => ReadKeeps(c, s, j);
      case Commit(j) => CommitKeeps(c, s, j);
      case Abort(j) => AbortKeeps(c, s, j);
      case Grow(r, h) => GrowKeeps(c, s, r, h);
    }
  }

  /** Once a job has a row, its checkpoint never decreases. */
  lemma {:induction false} RowsRise(c: Config, steps: seq<Step>, n: nat, j: Job)
    requires c.Valid() && Starting(c, steps) && n <= |steps| && j in Exec(c, steps[..n]).rows
    ensures j in Exec(c, steps).rows && Exec(c, steps[..n]).rows[j] <= Exec(c, steps).rows[j]
  {
    if n == |steps| {
      assert steps[..n] == steps;
    } else {
      var before, step := steps[..|steps| - 1], steps[|steps| - 1];
      assert before[..n] == steps[..n];
      RowsRise(c, before, n, j);
      StartSafe(c, before);
      if step.Commit? { CommitRaises(c, Exec(c, before), step.job, j); }
    }
  }

  /** Every height above the start block and up to the checkpoint is handled exactly once, whatever the start was like. */
  lemma StartedHandlesOnce(c: Config, steps: seq<Step>, j: Job, h: int)
    requires c.Valid() && Starting(c, steps) && j in c.jobs && c.startBlock < h
    ensures var s := Exec(c, steps);
            var ranges := CommittedBy(s, j);
            && (h <= HeightOf(s.rows, c.startBlock, j) <==> exists i: nat :: i < |ranges| && Handles(ranges, i, h))
            && (forall i: nat, k: nat ::
                  i < |ranges| && k < |ranges| && Handles(ranges, i, h) && Handles(ranges, k, h) ==> i == k)
  {
    StartSafe(c, steps);
    var s := Exec(c, steps);
    TiledCovers(c, CommittedBy(s, j), HeightOf(s.rows, c.startBlock, j), h);
  }

  lemma TiledCovers(c: Config, ranges: seq<Range>, to: int, h: int)
    requires Tiled(c, ranges, to) && c.startBlock < h
    ensures h <= to <==> exists i: nat :: i < |ranges| && Handles(ranges, i, h)
    ensures forall i: nat, k: nat :: i < |ranges| && k < |ranges| && Handles(ranges, i, h) && Handles(ranges, k, h) ==> i == k
  {
    if Consecutive(ranges, c.startBlock, to) {
      ConsecutiveCovers(ranges, c.startBlock, to, h);
    } else {
      var rest := ranges[1..];
      ConsecutiveCovers(rest, ranges[0].end, to, h);
      assert !Handles(ranges, 0, h);
      assert forall i: nat :: i < |rest| ==> (Handles(ranges, i + 1, h) <==> Handles(rest, i, h));
      if h <= to {
        var i: nat :| i < |rest| && Handles(rest, i, h);
        assert Handles(ranges, i + 1, h);
      }
      forall i: nat | i < |ranges| && Handles(ranges, i, h) ensures h <= to {
        assert i > 0 && Handles(rest, i - 1, h);
      }
      forall i: nat, k: nat | i < |ranges| && k < |ranges| && Handles(ranges, i, h) && Handles(ranges, k, h) ensures i == k {
        assert i > 0 && k > 0 && Handles(rest, i - 1, h) && Handles(rest, k - 1, h);
      }
    }
  }

  /** An unguarded job that starts before its dependency commits checkpoint 0, below a positive start block. */
  lemma ResetExample(job: Job, root: Job, startBlock: nat) returns (steps: seq<Step>)
    requires job != root && 0 < startBlock
    ensures var c := Config(startBlock, map[job := JobSpec([root], Some(100), NoGuard)], {root});
            && c.Valid() && Starting(c, steps) && Exec(c, steps).rows == map[job := 0]
            && CommittedBy(Exec(c, steps), job) == [Range(startBlock, 0)]
  {
    var c := Config(startBlock, map[job := JobSpec([root], Some(100), NoGuard)], {root});
    var s1 := System(map[], map[job := Range(startBlock, 0)], map[]);
    assert LowestRow(map[], [root]) == None;
    StartSnoc(c, [], Read(job));
    steps := [] + [Read(job)];
    assert Exec(c, steps) == s1;
    StartSnoc(c, steps, Commit(job));
    steps := steps + [Commit(job)];
    assert CommittedBy(s1, job) + [Range(startBlock, 0)] == [Range(startBlock, 0)];
  }

  lemma StartSnoc(c: Config, steps: seq<Step>, step: Step)
    requires Starting(c, steps) && Enabled(c, Exec(c, steps), step)
    requires step.Read? ==> AllOrNone(c, Exec(c, steps).rows, step.job)
    ensures Starting(c, steps + [step]) && Exec(c, steps + [step]) == Apply(c, Exec(c, steps), step)
  {
    assert (steps + [step])[..|steps|] == steps;
  }
}
