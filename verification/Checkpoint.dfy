/**
 The checkpoint table and the protocol that every indexing job runs on it: read a
 height range from the rows of the jobs it depends on, work on the range, then
 commit the work together with the new checkpoint.
 */
module Checkpoint {
  import opened Wrappers
  import opened HeightLog

  type Job = string
  type Rows = map<Job, int>

  /** What a job does when the range it read is empty or backwards. */
  datatype Guard = NoGuard | SkipIfStartAtOrPastEnd | SkipIfStartPastEnd

  datatype JobSpec = JobSpec(deps: seq<Job>, blocksPerCall: Option<nat>, guard: Guard)

  /** The heights `h` with `start < h <= end`. */
  datatype Range = Range(start: int, end: int)

  /** The smallest height among the rows of `deps` that exist. */
  function LowestRow(rows: Rows, deps: seq<Job>): (low: Option<int>)
    ensures low.None? <==> forall d :: d in deps ==> d !in rows
    ensures low.Some? ==> forall d :: d in deps && d in rows ==> low.value <= rows[d]
    ensures low.Some? ==> exists d :: d in deps && d in rows && low.value == rows[d]
  {
    if deps == [] then None
    else
      var rest := LowestRow(rows, deps[1..]);
      assert forall d :: d in deps <==> d == deps[0] || d in deps[1..];
      if deps[0] !in rows then rest
      else if rest.None? then Some(rows[deps[0]])
      else Some(Min(rows[deps[0]], rest.value))
  }

  function HeightOf(rows: Rows, startBlock: int, job: Job): int
  {
    if job in rows then rows[job] else startBlock
  }

  function ReadRange(rows: Rows, startBlock: int, job: Job, spec: JobSpec): Range
  {
    var start := HeightOf(rows, startBlock, job);
    match LowestRow(rows, spec.deps)
    case None => Range(start, 0)
    case Some(low) =>
      Range(start, if spec.blocksPerCall.Some? then Min(start + spec.blocksPerCall.value, low) else low)
  }

  predicate Skips(guard: Guard, r: Range)
  {
    match guard
    case NoGuard => false
    case SkipIfStartAtOrPastEnd => r.start >= r.end
    case SkipIfStartPastEnd => r.start > r.end
  }

  /** The `block_checkpoint` table. */
  class BlockCheckpoint {
    const startBlock: int
    var rows: Rows

    constructor (startBlock: int)
      ensures this.startBlock == startBlock && rows == map[]
    {
      this.startBlock := startBlock;
      rows := map[];
    }

    /** Ordering the rows of `names` by height and taking the first. */
    method FirstByHeight(names: seq<Job>) returns (lowest: Option<int>)
      ensures lowest == LowestRow(rows, names)
    {
      lowest := None;
      var i := |names|;
      while i > 0
        invariant 0 <= i <= |names|
        invariant lowest == LowestRow(rows, names[i..])
      {
        i := i - 1;
        assert names[i..][0] == names[i] && names[i..][1..] == names[i + 1..];
        if names[i] in rows && (lowest.None? || rows[names[i]] <= lowest.value) {
          lowest := Some(rows[names[i]]);
        }
      }
      assert names[0..] == names;
    }

    method GetCheckpoint(jobName: Job, lastHeightJobNames: seq<Job>, blocksPerCall: Option<nat>)
      returns (startHeight: int, endHeight: int)
      ensures startHeight == HeightOf(rows, startBlock, jobName)
      ensures (forall d :: d in lastHeightJobNames ==> d !in rows) ==> endHeight == 0
      ensures forall d :: d in lastHeightJobNames && d in rows ==>
                endHeight <= rows[d] && (blocksPerCall.Some? ==> endHeight <= startHeight + blocksPerCall.value)
      ensures (exists d :: d in lastHeightJobNames && d in rows) ==>
                || (exists d :: d in lastHeightJobNames && d in rows && endHeight == rows[d])
                || (blocksPerCall.Some? && endHeight == startHeight + blocksPerCall.value)
      ensures Range(startHeight, endHeight)
              == ReadRange(rows, startBlock, jobName, JobSpec(lastHeightJobNames, blocksPerCall, NoGuard))
    {
      var lastHeight := FirstByHeight(lastHeightJobNames);
      startHeight, endHeight := 0, 0;
      if jobName in rows {
        startHeight := rows[jobName];
      } else {
        startHeight := startBlock;
      }
      if lastHeight.Some? {
        endHeight := if blocksPerCall.Some? then Min(startHeight + blocksPerCall.value, lastHeight.value)
        else lastHeight.value;
      }
    }

    /** `insert(...).onConflict('job_name').merge()` at the end of a job's transaction. */
    method Upsert(jobName: Job, height: int)
      modifies this
      ensures rows == old(rows)[jobName := height]
    {
      rows := rows[jobName := height];
    }
  }

  // ----- the protocol: any interleaving of the two phases of all jobs -----

  /** `roots` are the jobs that feed the table without reading a range, such as the block crawler. */
  datatype Config = Config(startBlock: int, jobs: map<Job, JobSpec>, roots: set<Job>) {
    ghost predicate Valid()
    {
      && startBlock >= 0
      && roots !! jobs.Keys
      && (forall j :: j in jobs ==> j !in jobs[j].deps)
      && (forall j :: j in jobs && jobs[j].blocksPerCall.Some? ==> jobs[j].blocksPerCall.value > 0)
    }
  }

  /** `pending` holds the range of each job between its two phases, `committed` what each job has committed so far. */
  datatype System = System(rows: Rows, pending: map<Job, Range>, committed: map<Job, seq<Range>>)

  datatype Step = Read(job: Job) | Commit(job: Job) | Abort(job: Job) | Grow(root: Job, height: int)

  function CommittedBy(s: System, j: Job): seq<Range>
  {
    if j in s.committed then s.committed[j] else []
  }

  predicate Enabled(c: Config, s: System, step: Step)
  {
    match step
    case Read(j) => j in c.jobs && j !in s.pending
    case Commit(j) => j in c.jobs && j in s.pending
    case Abort(j) => j in s.pending
    case Grow(r, h) => r in c.roots && HeightOf(s.rows, c.startBlock, r) <= h
  }

  function Apply(c: Config, s: System, step: Step): System
    requires Enabled(c, s, step)
  {
    match step
    case Read(j) =>
      var r := ReadRange(s.rows, c.startBlock, j, c.jobs[j]);
      if Skips(c.jobs[j].guard, r) then s else s.(pending := s.pending[j := r])
    case Commit(j) =>
      System(s.rows[j := s.pending[j].end], s.pending - {j}, s.committed[j := CommittedBy(s, j) + [s.pending[j]]])
    case Abort(j) => s.(pending := s.pending - {j})
    case Grow(r, h) => s.(rows := s.rows[r := h])
  }

  const Init: System := System(map[], map[], map[])

  /** Every dependency has a row, or reading without it still lands on the start block. */
  predicate Ready(c: Config, rows: Rows, j: Job)
    requires j in c.jobs
  {
    var deps := c.jobs[j].deps;
    var low := LowestRow(rows, deps);
    if low.None? then HeightOf(rows, c.startBlock, j) == 0
    else (forall d :: d in deps ==> d in rows)
         || (low.value == c.startBlock && HeightOf(rows, c.startBlock, j) == c.startBlock)
  }

  /** A run whose reads are all either skipped by the job's own guard or made when the job is `Ready`. */
  ghost predicate Legal(c: Config, steps: seq<Step>)
  {
    steps == [] ||
    var before := steps[..|steps| - 1];
    var step := steps[|steps| - 1];
    && Legal(c, before)
    && Enabled(c, Exec(c, before), step)
    && (step.Read? ==>
          || Skips(c.jobs[step.job].guard, ReadRange(Exec(c, before).rows, c.startBlock, step.job, c.jobs[step.job]))
          || Ready(c, Exec(c, before).rows, step.job))
  }

  ghost function Exec(c: Config, steps: seq<Step>): System
  {
    if steps == [] then Init
    else
      var s := Exec(c, steps[..|steps| - 1]);
      var step := steps[|steps| - 1];
      if Enabled(c, s, step) then Apply(c, s, step) else s
  }

  // ----- what every reachable state satisfies -----

  /** `r` moves forward and stays at or below every job it depends on. */
  ghost predicate SafeRange(c: Config, rows: Rows, j: Job, r: Range)
    requires j in c.jobs
  {
    r.start <= r.end && forall d :: d in c.jobs[j].deps ==> r.end <= HeightOf(rows, c.startBlock, d)
  }

  /** The ranges are consecutive, go forward, start at `from` and end at `to`. */
  ghost predicate Consecutive(ranges: seq<Range>, from: int, to: int)
  {
    if ranges == [] then from == to
    else
      var last := ranges[|ranges| - 1];
      last.end == to && last.start <= to && Consecutive(ranges[..|ranges| - 1], from, last.start)
  }

  /** No job is ahead of a job it depends on. */
  ghost predicate BehindDependencies(c: Config, rows: Rows)
  {
    forall j, d :: j in c.jobs && d in c.jobs[j].deps ==>
      HeightOf(rows, c.startBlock, j) <= HeightOf(rows, c.startBlock, d)
  }

  /** A job between its two phases still holds a safe range that starts at its own checkpoint. */
  ghost predicate PendingSafe(c: Config, s: System)
  {
    forall j :: j in s.pending ==>
      j in c.jobs && s.pending[j].start == HeightOf(s.rows, c.startBlock, j) && SafeRange(c, s.rows, j, s.pending[j])
  }

  /** The committed ranges of each job run from the start block to its checkpoint. */
  ghost predicate CommittedConsecutive(c: Config, s: System)
  {
    forall j :: j in c.jobs ==> Consecutive(CommittedBy(s, j), c.startBlock, HeightOf(s.rows, c.startBlock, j))
  }

  ghost predicate Inv(c: Config, s: System)
  {
    && (forall j :: j in s.rows ==> c.startBlock <= s.rows[j])
    && BehindDependencies(c, s.rows)
    && PendingSafe(c, s)
    && CommittedConsecutive(c, s)
  }

  /** The condition `Ready` is exact: in a reachable state a read gives a safe range if and only if the job is ready. */
  lemma ReadSafeIffReady(c: Config, s: System, j: Job)
    requires c.Valid() && Inv(c, s) && j in c.jobs
    ensures SafeRange(c, s.rows, j, ReadRange(s.rows, c.startBlock, j, c.jobs[j])) <==> Ready(c, s.rows, j)
  {
    var deps := c.jobs[j].deps;
    var r := ReadRange(s.rows, c.startBlock, j, c.jobs[j]);
    var low := LowestRow(s.rows, deps);
    if low.Some? {
      if forall d :: d in deps ==> d in s.rows {
        var d :| d in deps && d in s.rows && low.value == s.rows[d];
        assert HeightOf(s.rows, c.startBlock, j) <= HeightOf(s.rows, c.startBlock, d);
      } else {
        var d :| d in deps && d !in s.rows;
        assert HeightOf(s.rows, c.startBlock, d) == c.startBlock;
      }
    }
  }

  lemma ReadKeepsInv(c: Config, s: System, j: Job)
    requires c.Valid() && Inv(c, s) && Enabled(c, s, Read(j))
    requires Skips(c.jobs[j].guard, ReadRange(s.rows, c.startBlock, j, c.jobs[j])) || Ready(c, s.rows, j)
    ensures Inv(c, Apply(c, s, Read(j)))
  {
    ReadSafeIffReady(c, s, j);
    var s' := Apply(c, s, Read(j));
    assert forall k :: CommittedBy(s', k) == CommittedBy(s, k);
  }

  lemma CommitKeepsConsecutive(c: Config, s: System, j: Job)
    requires Inv(c, s) && Enabled(c, s, Commit(j))
    ensures CommittedConsecutive(c, Apply(c, s, Commit(j)))
  {
    var s' := Apply(c, s, Commit(j));
    var r := s.pending[j];
    assert r.start == HeightOf(s.rows, c.startBlock, j) && SafeRange(c, s.rows, j, r);
    forall k | k in c.jobs ensures Consecutive(CommittedBy(s', k), c.startBlock, HeightOf(s'.rows, c.startBlock, k)) {
      if k == j {
        assert (CommittedBy(s, j) + [r])[..|CommittedBy(s, j)|] == CommittedBy(s, j);
      } else {
        assert CommittedBy(s', k) == CommittedBy(s, k);
      }
    }
  }

  lemma CommitMovesOneRow(c: Config, s: System, j: Job, k: Job)
    requires Inv(c, s) && Enabled(c, s, Commit(j))
    ensures var s' := Apply(c, s, Commit(j));
            && HeightOf(s'.rows, c.startBlock, k) == (if k == j then s.pending[j].end else HeightOf(s.rows, c.startBlock, k))
            && HeightOf(s.rows, c.startBlock, k) <= HeightOf(s'.rows, c.startBlock, k)
  {
    assert SafeRange(c, s.rows, j, s.pending[j]);
  }

  lemma CommitKeepsBehind(c: Config, s: System, j: Job)
    requires c.Valid() && Inv(c, s) && Enabled(c, s, Commit(j))
    ensures BehindDependencies(c, Apply(c, s, Commit(j)).rows)
  {
    var s' := Apply(c, s, Commit(j));
    forall k, d | k in c.jobs && d in c.jobs[k].deps
      ensures HeightOf(s'.rows, c.startBlock, k) <= HeightOf(s'.rows, c.startBlock, d)
    {
      CommitMovesOneRow(c, s, j, k);
      CommitMovesOneRow(c, s, j, d);
      assert SafeRange(c, s.rows, j, s.pending[j]);
    }
  }

  lemma CommitKeepsPending(c: Config, s: System, j: Job)
    requires Inv(c, s) && Enabled(c, s, Commit(j))
    ensures PendingSafe(c, Apply(c, s, Commit(j)))
  {
    var s' := Apply(c, s, Commit(j));
    forall k | k in s'.pending
      ensures k in c.jobs && s'.pending[k].start == HeightOf(s'.rows, c.startBlock, k) && SafeRange(c, s'.rows, k, s'.pending[k])
    {
      assert k in s.pending && k != j && SafeRange(c, s.rows, k, s.pending[k]);
      forall d | d in c.jobs[k].deps ensures s'.pending[k].end <= HeightOf(s'.rows, c.startBlock, d) {
        CommitMovesOneRow(c, s, j, d);
      }
    }
  }

  lemma CommitKeepsInv(c: Config, s: System, j: Job)
    requires c.Valid() && Inv(c, s) && Enabled(c, s, Commit(j))
    ensures Inv(c, Apply(c, s, Commit(j)))
  {
    CommitKeepsConsecutive(c, s, j);
    CommitKeepsBehind(c, s, j);
    CommitKeepsPending(c, s, j);
    CommitMovesOneRow(c, s, j, j);
  }

  lemma GrowKeepsInv(c: Config, s: System, root: Job, h: int)
    requires c.Valid() && Inv(c, s) && Enabled(c, s, Grow(root, h))
    ensures Inv(c, Apply(c, s, Grow(root, h)))
  {
    var s' := Apply(c, s, Grow(root, h));
    forall k ensures HeightOf(s.rows, c.startBlock, k) <= HeightOf(s'.rows, c.startBlock, k) {}
    assert forall k :: CommittedBy(s', k) == CommittedBy(s, k);
    forall k | k in c.jobs ensures HeightOf(s'.rows, c.startBlock, k) == HeightOf(s.rows, c.startBlock, k) {
      assert k != root;
    }
  }

  lemma AbortKeepsInv(c: Config, s: System, j: Job)
    requires Inv(c, s) && Enabled(c, s, Abort(j))
    ensures Inv(c, Apply(c, s, Abort(j)))
  {
    assert forall k :: CommittedBy(Apply(c, s, Abort(j)), k) == CommittedBy(s, k);
  }

  lemma StepKeepsInv(c: Config, s: System, step: Step)
    requires c.Valid() && Inv(c, s) && Enabled(c, s, step)
    requires step.Read? ==>
               || Skips(c.jobs[step.job].guard, ReadRange(s.rows, c.startBlock, step.job, c.jobs[step.job]))
               || Ready(c, s.rows, step.job)
    ensures Inv(c, Apply(c, s, step))
  {
    match step
    case Read(j) => ReadKeepsInv(c, s, j);
    case Commit(j) => CommitKeepsInv(c, s, j);
    case Abort(j) => AbortKeepsInv(c, s, j);
    case Grow(r, h) => GrowKeepsInv(c, s, r, h);
  }

  /** Safety of every run: in every interleaving, with aborts and retries, the invariant holds in the state reached. */
  lemma {:induction false} RunSafe(c: Config, steps: seq<Step>)
    requires c.Valid() && Legal(c, steps)
    ensures Inv(c, Exec(c, steps))
  {
    if steps != [] {
      RunSafe(c, steps[..|steps| - 1]);
      StepKeepsInv(c, Exec(c, steps[..|steps| - 1]), steps[|steps| - 1]);
    }
  }

  lemma {:induction false} LegalPrefix(c: Config, steps: seq<Step>, n: nat)
    requires Legal(c, steps) && n <= |steps|
    ensures Legal(c, steps[..n])
  {
    if n == |steps| {
      assert steps[..n] == steps;
    } else {
      LegalPrefix(c, steps[..|steps| - 1], n);
      assert steps[..|steps| - 1][..n] == steps[..n];
    }
  }

  lemma StepMonotone(c: Config, s: System, step: Step, j: Job)
    requires Inv(c, s) && Enabled(c, s, step)
    ensures HeightOf(s.rows, c.startBlock, j) <= HeightOf(Apply(c, s, step).rows, c.startBlock, j)
    ensures j in s.rows ==> j in Apply(c, s, step).rows
  {
    if step.Commit? {
      CommitMovesOneRow(c, s, step.job, j);
    }
  }

  /** No checkpoint ever decreases, and no row ever disappears, between any two moments of a run. */
  lemma {:induction false} RunMonotone(c: Config, steps: seq<Step>, n: nat, j: Job)
    requires c.Valid() && Legal(c, steps) && n <= |steps|
    ensures HeightOf(Exec(c, steps[..n]).rows, c.startBlock, j) <= HeightOf(Exec(c, steps).rows, c.startBlock, j)
    ensures j in Exec(c, steps[..n]).rows ==> j in Exec(c, steps).rows
  {
    if n == |steps| {
      assert steps[..n] == steps;
    } else {
      var before := steps[..|steps| - 1];
      RunMonotone(c, before, n, j);
      assert before[..n] == steps[..n];
      RunSafe(c, before);
      StepMonotone(c, Exec(c, before), steps[|steps| - 1], j);
    }
  }

  // ----- every height is handled exactly once -----

  ghost predicate Handles(ranges: seq<Range>, i: nat, h: int)
    requires i < |ranges|
  {
    ranges[i].start < h <= ranges[i].end
  }

  lemma {:induction false} ConsecutiveCovers(ranges: seq<Range>, from: int, to: int, h: int)
    requires Consecutive(ranges, from, to)
    ensures from <= to
    ensures from < h <= to <==> exists i: nat :: i < |ranges| && Handles(ranges, i, h)
    ensures forall i: nat, k: nat :: i < |ranges| && k < |ranges| && Handles(ranges, i, h) && Handles(ranges, k, h) ==> i == k
  {
    if ranges != [] {
      var n := |ranges| - 1;
      var front := ranges[..n];
      ConsecutiveCovers(front, from, ranges[n].start, h);
      assert forall i: nat :: i < n ==> (Handles(ranges, i, h) <==> Handles(front, i, h));
      if from < h <= to {
        if h <= ranges[n].start {
          var i: nat :| i < |front| && Handles(front, i, h);
          assert Handles(ranges, i, h);
        } else {
          assert Handles(ranges, n, h);
        }
      }
    }
  }

  /** In every reachable state the committed ranges of a job contain each height of `(startBlock, checkpoint]` once and no other. */
  lemma HandledExactlyOnce(c: Config, steps: seq<Step>, j: Job, h: int)
    requires c.Valid() && Legal(c, steps) && j in c.jobs
    ensures var s := Exec(c, steps);
            var ranges := CommittedBy(s, j);
            && (c.startBlock < h <= HeightOf(s.rows, c.startBlock, j)
                <==> exists i: nat :: i < |ranges| && Handles(ranges, i, h))
            && (forall i: nat, k: nat ::
                  i < |ranges| && k < |ranges| && Handles(ranges, i, h) && Handles(ranges, k, h) ==> i == k)
  {
    RunSafe(c, steps);
    var s := Exec(c, steps);
    ConsecutiveCovers(CommittedBy(s, j), c.startBlock, HeightOf(s.rows, c.startBlock, j), h);
  }

  /** A height that a job has handled was handled before by every job it depends on. */
  lemma DependenciesHandledFirst(c: Config, steps: seq<Step>, j: Job, d: Job, h: int)
    requires c.Valid() && Legal(c, steps)
    requires j in c.jobs && d in c.jobs && d in c.jobs[j].deps
    requires exists i: nat :: i < |CommittedBy(Exec(c, steps), j)| && Handles(CommittedBy(Exec(c, steps), j), i, h)
    ensures exists i: nat :: i < |CommittedBy(Exec(c, steps), d)| && Handles(CommittedBy(Exec(c, steps), d), i, h)
  {
    RunSafe(c, steps);
    HandledExactlyOnce(c, steps, j, h);
    HandledExactlyOnce(c, steps, d, h);
    assert HeightOf(Exec(c, steps).rows, c.startBlock, j) <= HeightOf(Exec(c, steps).rows, c.startBlock, d);
  }

  // ----- what a missing row does -----

  /** Reading and committing at once keeps the invariant exactly when the guard skips or the job is ready. */
  lemma ReadCommitSafeIff(c: Config, s: System, j: Job)
    requires c.Valid() && Inv(c, s) && Enabled(c, s, Read(j))
    ensures var s1 := Apply(c, s, Read(j));
            var s2 := if Enabled(c, s1, Commit(j)) then Apply(c, s1, Commit(j)) else s1;
            Inv(c, s2) <==>
            Skips(c.jobs[j].guard, ReadRange(s.rows, c.startBlock, j, c.jobs[j])) || Ready(c, s.rows, j)
  {
    var s1 := Apply(c, s, Read(j));
    var r := ReadRange(s.rows, c.startBlock, j, c.jobs[j]);
    ReadSafeIffReady(c, s, j);
    if Skips(c.jobs[j].guard, r) || Ready(c, s.rows, j) {
      ReadKeepsInv(c, s, j);
      if Enabled(c, s1, Commit(j)) { CommitKeepsInv(c, s1, j); }
    } else {
      var s2 := Apply(c, s1, Commit(j));
      assert CommittedBy(s2, j) == CommittedBy(s, j) + [r];
      if r.start <= r.end {
        var d :| d in c.jobs[j].deps && HeightOf(s.rows, c.startBlock, d) < r.end;
        assert d != j && HeightOf(s2.rows, c.startBlock, d) < HeightOf(s2.rows, c.startBlock, j);
      }
    }
  }

  /** A run with no condition on its reads. */
  ghost predicate AnyRun(c: Config, steps: seq<Step>)
  {
    steps == [] ||
    (AnyRun(c, steps[..|steps| - 1]) && Enabled(c, Exec(c, steps[..|steps| - 1]), steps[|steps| - 1]))
  }

  lemma ExecSnoc(c: Config, steps: seq<Step>, step: Step)
    requires AnyRun(c, steps) && Enabled(c, Exec(c, steps), step)
    ensures AnyRun(c, steps + [step]) && Exec(c, steps + [step]) == Apply(c, Exec(c, steps), step)
  {
    assert (steps + [step])[..|steps|] == steps;
  }

  lemma LowestOfTwo(rows: Rows, a: Job, b: Job)
    ensures LowestRow(rows, [a, b]) ==
            if a in rows && b in rows then Some(Min(rows[a], rows[b]))
            else if a in rows then Some(rows[a])
            else if b in rows then Some(rows[b])
            else None
  {
    assert [a, b][1..] == [b] && [b][1..] == [];
  }

  /** An unguarded job that waits for `fast` and `slow`. */
  function TwoDependencies(job: Job, fast: Job, slow: Job): Config
  {
    Config(1, map[job := JobSpec([fast, slow], Some(100), NoGuard)], {fast, slow})
  }

  lemma FastGrows(job: Job, fast: Job, slow: Job)
    requires job != fast && job != slow && fast != slow
    ensures var c := TwoDependencies(job, fast, slow);
            Enabled(c, Init, Grow(fast, 10)) && Apply(c, Init, Grow(fast, 10)) == System(map[fast := 10], map[], map[])
  {
  }

  /** While the row of `slow` is missing, a read goes by `fast` alone. */
  lemma ReadsPastMissingRow(job: Job, fast: Job, slow: Job)
    requires job != fast && job != slow && fast != slow
    ensures var c := TwoDependencies(job, fast, slow);
            var s := System(map[fast := 10], map[], map[]);
            Enabled(c, s, Read(job)) && Apply(c, s, Read(job)) == System(map[fast := 10], map[job := Range(1, 10)], map[])
  {
    LowestOfTwo(map[fast := 10], fast, slow);
  }

  /** So the job overtakes `slow`, whose row then appears below it. */
  lemma OvertakesMissingRow(job: Job, fast: Job, slow: Job)
    requires job != fast && job != slow && fast != slow
    ensures var c := TwoDependencies(job, fast, slow);
            var s := System(map[fast := 10], map[job := Range(1, 10)], map[]);
            && Enabled(c, s, Commit(job))
            && var s' := Apply(c, s, Commit(job));
               && s'.rows == map[fast := 10, job := 10] && s'.pending == map[]
               && Enabled(c, s', Grow(slow, 2))
               && Apply(c, s', Grow(slow, 2)).rows == map[fast := 10, job := 10, slow := 2]
               && Apply(c, s', Grow(slow, 2)).pending == map[]
  {
  }

  /** And its next read takes it back. */
  lemma FallsBack(job: Job, fast: Job, slow: Job, s: System)
    requires job != fast && job != slow && fast != slow
    requires s.rows == map[fast := 10, job := 10, slow := 2] && s.pending == map[]
    ensures var c := TwoDependencies(job, fast, slow);
            && Enabled(c, s, Read(job)) && Enabled(c, Apply(c, s, Read(job)), Commit(job))
            && Apply(c, Apply(c, s, Read(job)), Commit(job)).rows[job] == 2
  {
    LowestOfTwo(s.rows, fast, slow);
  }

  /** With one of two dependency rows missing, an unguarded job overtakes the missing job and later falls back. */
  lemma MissingRowCounterexample(job: Job, fast: Job, slow: Job) returns (early: seq<Step>, late: seq<Step>)
    requires job != fast && job != slow && fast != slow
    ensures var c := TwoDependencies(job, fast, slow);
            && c.Valid() && AnyRun(c, early) && AnyRun(c, late) && early <= late
            && HeightOf(Exec(c, early).rows, 1, job) > HeightOf(Exec(c, early).rows, 1, slow)
            && HeightOf(Exec(c, late).rows, 1, job) < HeightOf(Exec(c, early).rows, 1, job)
  {
    var c := TwoDependencies(job, fast, slow);
    early := EarlyRun(job, fast, slow);
    OvertakesMissingRow(job, fast, slow);
    ExecSnoc(c, early, Commit(job));
    early := early + [Commit(job)];
    ExecSnoc(c, early, Grow(slow, 2));
    late := early + [Grow(slow, 2)];
    late := LateRun(job, fast, slow, late);
  }

  lemma EarlyRun(job: Job, fast: Job, slow: Job) returns (steps: seq<Step>)
    requires job != fast && job != slow && fast != slow
    ensures var c := TwoDependencies(job, fast, slow);
            AnyRun(c, steps) && Exec(c, steps) == System(map[fast := 10], map[job := Range(1, 10)], map[])
  {
    var c := TwoDependencies(job, fast, slow);
    FastGrows(job, fast, slow);
    ExecSnoc(c, [], Grow(fast, 10));
    steps := [] + [Grow(fast, 10)];
    ReadsPastMissingRow(job, fast, slow);
    ExecSnoc(c, steps, Read(job));
    steps := steps + [Read(job)];
  }

  lemma LateRun(job: Job, fast: Job, slow: Job, before: seq<Step>) returns (steps: seq<Step>)
    requires job != fast && job != slow && fast != slow
    requires var c := TwoDependencies(job, fast, slow);
             && AnyRun(c, before) && Exec(c, before).rows == map[fast := 10, job := 10, slow := 2]
             && Exec(c, before).pending == map[]
    ensures var c := TwoDependencies(job, fast, slow);
            AnyRun(c, steps) && before <= steps && HeightOf(Exec(c, steps).rows, 1, job) == 2
  {
    var c := TwoDependencies(job, fast, slow);
    FallsBack(job, fast, slow, Exec(c, before));
    ExecSnoc(c, before, Read(job));
    steps := before + [Read(job)];
    ExecSnoc(c, steps, Commit(job));
    steps := steps + [Commit(job)];
  }

  // ----- a job that keeps going arrives -----

  /** `low` is the smallest height among the dependencies of `j`, which all have a row. */
  ghost predicate LowestIs(c: Config, rows: Rows, j: Job, low: int)
    requires j in c.jobs
  {
    && (forall d :: d in c.jobs[j].deps ==> d in rows && low <= rows[d])
    && (exists d :: d in c.jobs[j].deps && d in rows && low == rows[d])
  }

  /** Where a job at `height` is after `n` rounds towards `low`. */
  predicate ArrivedAfter(n: nat, step: Option<nat>, height: int, low: int, at: int)
  {
    match step
    case None => at == if n == 0 then height else low
    case Some(k) => at == if height + n * k <= low then height + n * k else low
  }

  /** With all rows there, a read asks for one step up, or for what is left below the lowest dependency. */
  lemma RangeReaches(c: Config, s: System, j: Job, low: int)
    requires Inv(c, s) && j in c.jobs && LowestIs(c, s.rows, j, low)
    ensures Ready(c, s.rows, j)
    ensures var r := ReadRange(s.rows, c.startBlock, j, c.jobs[j]);
            && r.start == HeightOf(s.rows, c.startBlock, j) <= r.end <= low
            && ArrivedAfter(1, c.jobs[j].blocksPerCall, r.start, low, r.end)
  {
    assert LowestRow(s.rows, c.jobs[j].deps) == Some(low);
    AtMostLowest(c, s, j, low);
  }

  /** One read, and a commit unless the guard skips. */
  function Round(c: Config, s: System, j: Job): System
    requires Enabled(c, s, Read(j))
  {
    var s1 := Apply(c, s, Read(j));
    if Enabled(c, s1, Commit(j)) then Apply(c, s1, Commit(j)) else s1
  }

  /** Whatever the guard, a round leaves the job at the end of a forward range, and it has a row unless the guard skipped an empty one. */
  lemma RoundEnds(c: Config, s: System, j: Job)
    requires Enabled(c, s, Read(j))
    requires ReadRange(s.rows, c.startBlock, j, c.jobs[j]).start <= ReadRange(s.rows, c.startBlock, j, c.jobs[j]).end
    ensures var s2 := Round(c, s, j);
            && HeightOf(s2.rows, c.startBlock, j) == ReadRange(s.rows, c.startBlock, j, c.jobs[j]).end
            && j !in s2.pending
            && (s2.rows == s.rows || s2.rows == s.rows[j := ReadRange(s.rows, c.startBlock, j, c.jobs[j]).end])
            && (j in s2.rows <==>
                  || j in s.rows
                  || ReadRange(s.rows, c.startBlock, j, c.jobs[j]).start < ReadRange(s.rows, c.startBlock, j, c.jobs[j]).end
                  || c.jobs[j].guard != SkipIfStartAtOrPastEnd)
  {
  }

  /** A round takes a job one step towards its lowest dependency. */
  lemma RoundMoves(c: Config, s: System, j: Job, low: int)
    requires c.Valid() && Inv(c, s) && Enabled(c, s, Read(j)) && LowestIs(c, s.rows, j, low)
    ensures var s2 := Round(c, s, j);
            && ArrivedAfter(1, c.jobs[j].blocksPerCall, HeightOf(s.rows, c.startBlock, j), low, HeightOf(s2.rows, c.startBlock, j))
            && LowestIs(c, s2.rows, j, low) && j !in s2.pending
            && (forall k :: k != j ==> HeightOf(s2.rows, c.startBlock, k) == HeightOf(s.rows, c.startBlock, k))
  {
    RangeReaches(c, s, j, low);
    RoundEnds(c, s, j);
    var s2 := Round(c, s, j);
    forall k | k != j ensures k in s2.rows <==> k in s.rows {}
    assert forall d :: d in c.jobs[j].deps ==> d != j;
    var d :| d in c.jobs[j].deps && d in s.rows && low == s.rows[d];
    assert d in s2.rows && low == s2.rows[d];
  }

  lemma LegalSnoc(c: Config, steps: seq<Step>, step: Step)
    requires Legal(c, steps) && Enabled(c, Exec(c, steps), step)
    requires step.Read? ==> Ready(c, Exec(c, steps).rows, step.job)
    ensures Legal(c, steps + [step]) && Exec(c, steps + [step]) == Apply(c, Exec(c, steps), step)
  {
    assert (steps + [step])[..|steps|] == steps;
  }

  /** The round as the continuation of a run. */
  lemma RoundInRun(c: Config, steps: seq<Step>, j: Job, low: int) returns (more: seq<Step>)
    requires c.Valid() && Legal(c, steps) && Enabled(c, Exec(c, steps), Read(j)) && LowestIs(c, Exec(c, steps).rows, j, low)
    ensures Legal(c, more) && steps <= more && |more| <= |steps| + 2
    ensures var (s, s2) := (Exec(c, steps), Exec(c, more));
            && ArrivedAfter(1, c.jobs[j].blocksPerCall, HeightOf(s.rows, c.startBlock, j), low, HeightOf(s2.rows, c.startBlock, j))
            && LowestIs(c, s2.rows, j, low) && j !in s2.pending
            && (forall k :: k != j ==> HeightOf(s2.rows, c.startBlock, k) == HeightOf(s.rows, c.startBlock, k))
  {
    RunSafe(c, steps);
    RoundMoves(c, Exec(c, steps), j, low);
    RangeReaches(c, Exec(c, steps), j, low);
    LegalSnoc(c, steps, Read(j));
    more := steps + [Read(j)];
    if Enabled(c, Exec(c, more), Commit(j)) {
      LegalSnoc(c, more, Commit(j));
      more := more + [Commit(j)];
    }
  }

  lemma OneMoreRound(n: nat, step: Option<nat>, height: int, low: int, mid: int, at: int)
    requires n > 0 && height <= low && ArrivedAfter(1, step, height, low, mid) && ArrivedAfter(n - 1, step, mid, low, at)
    ensures ArrivedAfter(n, step, height, low, at)
  {
    if step.Some? {
      var k := step.value;
      assert n * k == k + (n - 1) * k;
      assert (n - 1) * k >= 0;
    }
  }

  /**
   Progress, whatever the job's guard: from any moment of a run at which all dependencies have rows, `n` rounds of
   reading and committing take the job exactly `n` steps up, or to its lowest dependency when that is nearer.
   */
  lemma {:induction false} CatchesUp(c: Config, steps: seq<Step>, j: Job, low: int, n: nat) returns (more: seq<Step>)
    requires c.Valid() && Legal(c, steps) && Enabled(c, Exec(c, steps), Read(j)) && LowestIs(c, Exec(c, steps).rows, j, low)
    ensures Legal(c, more) && steps <= more && |more| <= |steps| + 2 * n
    ensures ArrivedAfter(n, c.jobs[j].blocksPerCall, HeightOf(Exec(c, steps).rows, c.startBlock, j), low,
                         HeightOf(Exec(c, more).rows, c.startBlock, j))
    ensures forall k :: k != j ==> HeightOf(Exec(c, more).rows, c.startBlock, k) == HeightOf(Exec(c, steps).rows, c.startBlock, k)
    decreases n
  {
    RunSafe(c, steps);
    AtMostLowest(c, Exec(c, steps), j, low);
    if n == 0 {
      more := steps;
    } else {
      var step, height := c.jobs[j].blocksPerCall, HeightOf(Exec(c, steps).rows, c.startBlock, j);
      var first := RoundInRun(c, steps, j, low);
      more := CatchesUp(c, first, j, low, n - 1);
      OneMoreRound(n, step, height, low, HeightOf(Exec(c, first).rows, c.startBlock, j),
                   HeightOf(Exec(c, more).rows, c.startBlock, j));
    }
  }

  lemma AtMostLowest(c: Config, s: System, j: Job, low: int)
    requires Inv(c, s) && j in c.jobs && LowestIs(c, s.rows, j, low)
    ensures HeightOf(s.rows, c.startBlock, j) <= low
  {
    var d :| d in c.jobs[j].deps && d in s.rows && low == s.rows[d];
    assert HeightOf(s.rows, c.startBlock, j) <= HeightOf(s.rows, c.startBlock, d);
  }

  /** The number of rounds it takes is the distance over the step, rounded up. */
  lemma ArrivedIff(n: nat, k: nat, height: int, low: int, at: int)
    requires k > 0 && height <= low && ArrivedAfter(n, Some(k), height, low, at)
    ensures at == low <==> n >= (low - height + k - 1) / k
  {
    var q := (low - height + k - 1) / k;
    assert q * k <= low - height + k - 1 < q * k + k;
    if n >= q {
      assert n * k >= q * k by { MulMonotone(q, n, k); }
    } else {
      assert (n + 1) * k <= q * k by { MulMonotone(n + 1, q, k); }
      assert (n + 1) * k == n * k + k;
    }
  }

  lemma MulMonotone(x: int, y: int, k: nat)
    requires x <= y
    ensures x * k <= y * k
  {
  }
}
