/**
 The queue of CW20 update jobs of one contract. A job that fails is retried after a delay, so a younger job may run
 before it; after its last attempt it is given up; and a crash can keep it from being created at all.
 */
module Cw20Queue {
  import opened Wrappers
  import opened SortBy
  import opened HeightLog
  import opened Cw20

  datatype JobParams = JobParams(startBlock: int, endBlock: int)

  /** `done` lists the jobs in the order they ran, `lost` the ranges whose job never will; no step reads either. */
  datatype State = State(
    store: Store, checkpoint: int, queue: seq<JobParams>, done: seq<JobParams>, lost: seq<JobParams>)

  /**
   `Handle(end)` is one run of the CW20 job: it moves the checkpoint and asks for an update job.
   `HandleCrashed(end)` stops after the commit, before the update job is created.
   `Attempt(i, page)` is one attempt at the queued job `i`, `page` being the rows its query returned.
   `GiveUp(i)` drops the queued job `i` after its last attempt.
   */
  datatype Step = Handle(end: int) | HandleCrashed(end: int) | Attempt(i: nat, page: seq<Event>) | GiveUp(i: nat)

  function Part(log: seq<Event>, job: JobParams): seq<Event>
  {
    Between(log, Height, job.startBlock, job.endBlock)
  }

  function Without<T>(s: seq<T>, i: nat): seq<T>
    requires i < |s|
  {
    s[..i] + s[i + 1..]
  }

  ghost predicate Enabled(log: seq<Event>, s: State, step: Step)
  {
    match step
    case Handle(end) => s.checkpoint < end
    case HandleCrashed(end) => s.checkpoint < end
    case Attempt(i, page) => i < |s.queue| && multiset(page) == multiset(Part(log, s.queue[i]))
    case GiveUp(i) => i < |s.queue|
  }

  /** The update job that a run of the CW20 job asks for, if any. */
  function Asked(log: seq<Event>, s: State, end: int): seq<JobParams>
  {
    var start := Max(s.checkpoint, s.store.lastUpdated);
    if Between(log, Height, s.checkpoint, end) != [] && start < end then [JobParams(start, end)] else []
  }

  function Next(log: seq<Event>, s: State, step: Step): State
    requires (step.Attempt? || step.GiveUp?) ==> step.i < |s.queue|
  {
    match step
    case Handle(end) => s.(checkpoint := end, queue := s.queue + Asked(log, s, end))
    case HandleCrashed(end) => s.(checkpoint := end, lost := s.lost + Asked(log, s, end))
    case Attempt(i, page) =>
      (match RunJob(s.store, page, s.queue[i].endBlock)
       case Err(_) => s
       case Ok(store) => s.(store := store, queue := Without(s.queue, i), done := s.done + [s.queue[i]]))
    case GiveUp(i) => s.(queue := Without(s.queue, i), lost := s.lost + [s.queue[i]])
  }

  ghost predicate IsRun(log: seq<Event>, s: State, steps: seq<Step>)
    decreases |steps|
  {
    steps == [] || (Enabled(log, s, steps[0]) && IsRun(log, Next(log, s, steps[0]), steps[1..]))
  }

  ghost function Run(log: seq<Event>, s: State, steps: seq<Step>): State
    requires IsRun(log, s, steps)
    decreases |steps|
  {
    if steps == [] then s else Run(log, Next(log, s, steps[0]), steps[1..])
  }

  /** The state after a snapshot, with nothing queued. */
  function Start(snap: Store, checkpoint: int): State
  {
    State(snap, checkpoint, [], [], [])
  }

  /** All snapshot rows were read at height `h`. */
  ghost predicate ReadAt(st: Store, h: int)
  {
    st.lastUpdated == h && forall a :: a in st.holders ==> st.holders[a].lastUpdated == h
  }

  ghost predicate NoEvents(log: seq<Event>, lo: int, hi: int)
  {
    forall i :: 0 <= i < |log| ==> !(lo < log[i].height <= hi)
  }

  // ----- what a list of jobs moves -----

  /** Inflow minus outflow of one address over the ranges of some jobs. */
  function Flow(log: seq<Event>, jobs: seq<JobParams>, a: Address): int
  {
    if jobs == [] then 0 else Flow(log, jobs[..|jobs| - 1], a) + Net(Part(log, jobs[|jobs| - 1]), a)
  }

  lemma {:induction false} FlowConcat(log: seq<Event>, x: seq<JobParams>, y: seq<JobParams>, a: Address)
    ensures Flow(log, x + y, a) == Flow(log, x, a) + Flow(log, y, a)
    decreases |y|
  {
    if y == [] {
      assert x + y == x;
    } else {
      assert (x + y)[..|x + y| - 1] == x + y[..|y| - 1];
      FlowConcat(log, x, y[..|y| - 1], a);
    }
  }

  lemma FlowOne(log: seq<Event>, job: JobParams, a: Address)
    ensures Flow(log, [job], a) == Net(Part(log, job), a)
  {
    assert [job][..0] == [];
  }

  lemma FlowWithout(log: seq<Event>, jobs: seq<JobParams>, i: nat, a: Address)
    requires i < |jobs|
    ensures Flow(log, jobs, a) == Flow(log, Without(jobs, i), a) + Net(Part(log, jobs[i]), a)
  {
    assert jobs == jobs[..i] + ([jobs[i]] + jobs[i + 1..]);
    FlowConcat(log, jobs[..i], [jobs[i]] + jobs[i + 1..], a);
    FlowConcat(log, [jobs[i]], jobs[i + 1..], a);
    FlowConcat(log, jobs[..i], jobs[i + 1..], a);
    FlowOne(log, jobs[i], a);
  }

  lemma {:induction false} NetConcat(x: seq<Event>, y: seq<Event>, a: Address)
    ensures Net(x + y, a) == Net(x, a) + Net(y, a)
  {
    if x == [] {
      assert x + y == y;
    } else {
      assert (x + y)[1..] == x[1..] + y;
      NetConcat(x[1..], y, a);
    }
  }

  // ----- which jobs land on an address -----

  predicate Touched(events: seq<Event>, a: Address)
  {
    exists e :: e in events && Moves(e) && (e.from == Some(a) || e.to == Some(a))
  }

  /** No younger job that touches `a` has run before this one. */
  predicate InTurn(log: seq<Event>, before: seq<JobParams>, job: JobParams, a: Address)
  {
    forall k :: 0 <= k < |before| && job.endBlock <= before[k].startBlock ==> !Touched(Part(log, before[k]), a)
  }

  /** What the jobs that ran in turn moved; the others were too late for this address. */
  function Landed(log: seq<Event>, done: seq<JobParams>, a: Address): int
  {
    if done == [] then 0
    else
      var n := |done| - 1;
      Landed(log, done[..n], a) + if InTurn(log, done[..n], done[n], a) then Net(Part(log, done[n]), a) else 0
  }

  /** What the jobs that ran too late for this address should have moved. */
  function Missed(log: seq<Event>, done: seq<JobParams>, a: Address): int
  {
    if done == [] then 0
    else
      var n := |done| - 1;
      Missed(log, done[..n], a) + if InTurn(log, done[..n], done[n], a) then 0 else Net(Part(log, done[n]), a)
  }

  lemma {:induction false} LandedOrMissed(log: seq<Event>, done: seq<JobParams>, a: Address)
    ensures Flow(log, done, a) == Landed(log, done, a) + Missed(log, done, a)
  {
    if done != [] {
      LandedOrMissed(log, done[..|done| - 1], a);
    }
  }

  // ----- one job on one address -----

  /** If no row of `a` is newer than the events, all of them count. */
  lemma {:induction false} AddressMoves(b: Book, events: seq<Event>, a: Address)
    requires Sorted(events, Height) && ApplyAll(b, events).Ok?
    requires forall i :: 0 <= i < |events| ==> 0 <= events[i].height && LastUpdated(b.holders, a) <= events[i].height
    ensures var hs := ApplyAll(b, events).value.holders;
            && AmountOf(hs, a) == AmountOf(b.holders, a) + Net(events, a)
            && (if Touched(events, a) then exists i :: 0 <= i < |events| && LastUpdated(hs, a) == events[i].height
                else LastUpdated(hs, a) == LastUpdated(b.holders, a))
    decreases |events|
  {
    if events != [] {
      var e, rest := events[0], events[1..];
      var b1 := Apply(b, e).value;
      OneMoves(b, e, a);
      forall i | 0 <= i < |rest| ensures LastUpdated(b1.holders, a) <= rest[i].height {
        assert Height(events[0]) <= Height(events[i + 1]);
      }
      AddressMoves(b1, rest, a);
      TouchedFirst(events, a);
      var hs := ApplyAll(b, events).value.holders;
      if Touched(rest, a) {
        var i :| 0 <= i < |rest| && LastUpdated(hs, a) == rest[i].height;
        assert LastUpdated(hs, a) == events[i + 1].height;
      } else if Touched([e], a) {
        assert LastUpdated(hs, a) == events[0].height;
      }
    }
  }

  lemma TouchedFirst(events: seq<Event>, a: Address)
    requires events != []
    ensures Touched(events, a) <==> Touched([events[0]], a) || Touched(events[1..], a)
  {
    assert forall e :: e in events <==> e == events[0] || e in events[1..];
  }

  lemma OneMoves(b: Book, e: Event, a: Address)
    requires Apply(b, e).Ok? && 0 <= e.height && LastUpdated(b.holders, a) <= e.height
    ensures var hs := Apply(b, e).value.holders;
            && AmountOf(hs, a) == AmountOf(b.holders, a) + NetOne(e, a)
            && LastUpdated(hs, a) == if Touched([e], a) then e.height else LastUpdated(b.holders, a)
  {
    assert e in [e];
  }

  /** If the row of `a` is newer than the events, none of them counts. */
  lemma {:induction false} AddressSkipped(b: Book, events: seq<Event>, a: Address)
    requires ApplyAll(b, events).Ok?
    requires forall i :: 0 <= i < |events| ==> events[i].height < LastUpdated(b.holders, a)
    ensures var hs := ApplyAll(b, events).value.holders;
            AmountOf(hs, a) == AmountOf(b.holders, a) && LastUpdated(hs, a) == LastUpdated(b.holders, a)
    decreases |events|
  {
    if events != [] {
      AddressSkipped(Apply(b, events[0]).value, events[1..], a);
    }
  }

  // ----- the invariant -----

  predicate Separate(p: JobParams, q: JobParams) { p.endBlock <= q.startBlock || q.endBlock <= p.startBlock }

  ghost predicate Apart(jobs: seq<JobParams>)
  {
    forall i, j :: 0 <= i < j < |jobs| ==> Separate(jobs[i], jobs[j])
  }

  ghost predicate Within(jobs: seq<JobParams>, lo: int, hi: int)
  {
    forall i :: 0 <= i < |jobs| ==> lo <= jobs[i].startBlock < jobs[i].endBlock <= hi
  }

  /** The row is newer than the start of every job that touched it. */
  ghost predicate StampAbove(log: seq<Event>, done: seq<JobParams>, last: int, a: Address)
  {
    forall k :: 0 <= k < |done| && Touched(Part(log, done[k]), a) ==> done[k].startBlock < last
  }

  /** The row is from the snapshot or from a job that touched it. */
  ghost predicate StampFrom(log: seq<Event>, done: seq<JobParams>, h: int, last: int, a: Address)
  {
    last <= h ||
    exists k :: 0 <= k < |done| && Touched(Part(log, done[k]), a) && done[k].startBlock < last <= done[k].endBlock
  }

  /** The amount is the snapshot plus what landed, and the row is as old as the youngest job that touched it. */
  ghost predicate HolderRight(log: seq<Event>, snap: Store, h: int, holders: Holders, done: seq<JobParams>, a: Address)
  {
    && AmountOf(holders, a) == AmountOf(snap.holders, a) + Landed(log, done, a)
    && StampAbove(log, done, LastUpdated(holders, a), a)
    && StampFrom(log, done, h, LastUpdated(holders, a), a)
  }

  /** Every event after the snapshot belongs to a job that ran, is queued, or is lost. */
  ghost predicate Accounted(log: seq<Event>, h: int, s: State)
  {
    forall a :: Net(Between(log, Height, h, s.checkpoint), a)
                == Flow(log, s.done, a) + Flow(log, s.queue, a) + Flow(log, s.lost, a)
  }

  ghost predicate Inv(log: seq<Event>, snap: Store, h: int, s: State)
  {
    && 0 <= h <= s.store.lastUpdated && (s.store.lastUpdated == h || s.store.lastUpdated <= s.checkpoint)
    && Apart(s.done + s.queue) && Within(s.done + s.queue, h, s.checkpoint)
    && Accounted(log, h, s)
    && (forall a :: HolderRight(log, snap, h, s.store.holders, s.done, a))
  }

  lemma StartInv(log: seq<Event>, snap: Store, h: int, checkpoint: int)
    requires ReadAt(snap, h) && h >= 0 && NoEvents(log, h, checkpoint)
    ensures Inv(log, snap, h, Start(snap, checkpoint))
  {
    var s := Start(snap, checkpoint);
    BetweenEmpty(log, Height, h, checkpoint);
    assert s.done + s.queue == [];
    forall a ensures HolderRight(log, snap, h, snap.holders, [], a) {
      assert LastUpdated(snap.holders, a) <= h;
    }
    assert Accounted(log, h, s);
  }

  /** The events of a range, split at the checkpoint: what the asked job adds is exactly what the new range adds. */
  lemma AskedFlow(log: seq<Event>, snap: Store, h: int, s: State, end: int, a: Address)
    requires Sorted(log, Height) && Inv(log, snap, h, s) && s.checkpoint < end
    ensures Net(Between(log, Height, h, end), a)
            == Net(Between(log, Height, h, s.checkpoint), a) + Flow(log, Asked(log, s, end), a)
  {
    var start := Max(s.checkpoint, s.store.lastUpdated);
    assert start == Max(s.checkpoint, h);
    if h <= s.checkpoint {
      BetweenJoin(log, Height, h, s.checkpoint, end);
      NetConcat(Between(log, Height, h, s.checkpoint), Between(log, Height, s.checkpoint, end), a);
    } else {
      BetweenEmpty(log, Height, h, s.checkpoint);
      if end <= h {
        BetweenEmpty(log, Height, h, end);
      } else {
        BetweenEmptyWithin(log, s.checkpoint, end, h);
      }
    }
    FlowOne(log, JobParams(start, end), a);
  }

  lemma {:induction false} BetweenEmptyWithin(log: seq<Event>, lo: int, hi: int, mid: int)
    requires lo <= mid
    ensures Between(log, Height, lo, hi) == [] ==> Between(log, Height, mid, hi) == []
  {
    if log != [] {
      BetweenEmptyWithin(log[1..], lo, hi, mid);
    }
  }

  lemma HandleKeepsInv(log: seq<Event>, snap: Store, h: int, s: State, end: int)
    requires Sorted(log, Height) && Inv(log, snap, h, s) && s.checkpoint < end
    ensures Inv(log, snap, h, Next(log, s, Handle(end))) && Inv(log, snap, h, Next(log, s, HandleCrashed(end)))
  {
    var asked := Asked(log, s, end);
    var jobs := s.done + s.queue;
    assert s.done + (s.queue + asked) == jobs + asked;
    forall i, j | 0 <= i < j < |jobs + asked| ensures Separate((jobs + asked)[i], (jobs + asked)[j]) {
      if j < |jobs| {
        assert Separate(jobs[i], jobs[j]);
      } else {
        assert jobs[i].endBlock <= s.checkpoint;
      }
    }
    forall a ensures Net(Between(log, Height, h, end), a)
                     == Flow(log, s.done, a) + Flow(log, s.queue, a) + Flow(log, s.lost, a) + Flow(log, asked, a) {
      AskedFlow(log, snap, h, s, end, a);
    }
    forall a ensures Flow(log, s.queue + asked, a) == Flow(log, s.queue, a) + Flow(log, asked, a)
                     && Flow(log, s.lost + asked, a) == Flow(log, s.lost, a) + Flow(log, asked, a) {
      FlowConcat(log, s.queue, asked, a);
      FlowConcat(log, s.lost, asked, a);
    }
  }

  lemma WithoutAt(jobs: seq<JobParams>, i: nat, k: nat)
    requires i < |jobs| && k < |jobs| - 1
    ensures Without(jobs, i)[k] == jobs[if k < i then k else k + 1]
  {
  }

  /** Leaving out a job keeps the other ranges where they were. */
  lemma ApartWithout(jobs: seq<JobParams>, i: nat, lo: int, hi: int)
    requires i < |jobs| && Apart(jobs) && Within(jobs, lo, hi)
    ensures Apart(Without(jobs, i)) && Within(Without(jobs, i), lo, hi)
    ensures forall k :: 0 <= k < |jobs| - 1 ==> Separate(Without(jobs, i)[k], jobs[i])
  {
    forall k | 0 <= k < |jobs| - 1
      ensures Without(jobs, i)[k] == jobs[if k < i then k else k + 1] && Separate(Without(jobs, i)[k], jobs[i])
    {
      WithoutAt(jobs, i, k);
      if k < i { assert Separate(jobs[k], jobs[i]); } else { assert Separate(jobs[i], jobs[k + 1]); }
    }
  }

  lemma ApartInsert(a: seq<JobParams>, job: JobParams, b: seq<JobParams>, lo: int, hi: int)
    requires Apart(a + b) && Within(a + b, lo, hi) && lo <= job.startBlock < job.endBlock <= hi
    requires forall k :: 0 <= k < |a + b| ==> Separate((a + b)[k], job)
    ensures Apart((a + [job]) + b) && Within((a + [job]) + b, lo, hi)
  {
    var all, n := (a + [job]) + b, |a|;
    assert forall k :: 0 <= k < |all| && k != n ==> all[k] == (a + b)[if k < n then k else k - 1];
    assert all[n] == job;
  }

  /** Taking a job out of the queue keeps the other ranges where they were. */
  lemma TakeOut(done: seq<JobParams>, queue: seq<JobParams>, i: nat, lo: int, hi: int)
    requires i < |queue| && Apart(done + queue) && Within(done + queue, lo, hi)
    ensures Apart(done + Without(queue, i)) && Within(done + Without(queue, i), lo, hi)
    ensures Apart((done + [queue[i]]) + Without(queue, i)) && Within((done + [queue[i]]) + Without(queue, i), lo, hi)
    ensures forall k :: 0 <= k < |done| ==> Separate(done[k], queue[i])
  {
    var rest := Without(queue, i);
    assert Without(done + queue, |done| + i) == done + rest && (done + queue)[|done| + i] == queue[i];
    ApartWithout(done + queue, |done| + i, lo, hi);
    ApartInsert(done, queue[i], rest, lo, hi);
    assert forall k :: 0 <= k < |done| ==> done[k] == (done + rest)[k];
  }

  lemma GiveUpKeepsInv(log: seq<Event>, snap: Store, h: int, s: State, i: nat)
    requires Inv(log, snap, h, s) && i < |s.queue|
    ensures Inv(log, snap, h, Next(log, s, GiveUp(i)))
  {
    TakeOut(s.done, s.queue, i, h, s.checkpoint);
    forall a ensures Flow(log, s.queue, a) + Flow(log, s.lost, a)
                     == Flow(log, Without(s.queue, i), a) + Flow(log, s.lost + [s.queue[i]], a) {
      FlowWithout(log, s.queue, i, a);
      FlowConcat(log, s.lost, [s.queue[i]], a);
      FlowOne(log, s.queue[i], a);
    }
  }

  lemma StampKept(log: seq<Event>, h: int, done: seq<JobParams>, job: JobParams, last: int, a: Address)
    requires StampAbove(log, done, last, a) && StampFrom(log, done, h, last, a)
    requires Touched(Part(log, job), a) ==> job.startBlock < last
    ensures StampAbove(log, done + [job], last, a) && StampFrom(log, done + [job], h, last, a)
  {
    if last > h {
      var m :| 0 <= m < |done| && Touched(Part(log, done[m]), a) && done[m].startBlock < last <= done[m].endBlock;
      assert (done + [job])[m] == done[m];
    }
  }

  lemma StampMoved(log: seq<Event>, h: int, done: seq<JobParams>, job: JobParams, last: int, a: Address)
    requires forall k :: 0 <= k < |done| ==> Separate(done[k], job) && done[k].startBlock < done[k].endBlock
    requires InTurn(log, done, job, a) && Touched(Part(log, job), a) && job.startBlock < last <= job.endBlock
    ensures StampAbove(log, done + [job], last, a) && StampFrom(log, done + [job], h, last, a)
  {
    assert (done + [job])[|done|] == job;
  }

  /** Before a job in turn the row is no newer than the job's start; before a job out of turn it is newer than its end. */
  lemma StampTells(log: seq<Event>, h: int, done: seq<JobParams>, job: JobParams, last: int, a: Address)
    requires forall k :: 0 <= k < |done| ==> Separate(done[k], job) && done[k].startBlock < done[k].endBlock
    requires h <= job.startBlock < job.endBlock
    requires StampAbove(log, done, last, a) && StampFrom(log, done, h, last, a)
    ensures if InTurn(log, done, job, a) then last <= job.startBlock else job.endBlock < last
  {
    if InTurn(log, done, job, a) && last > h {
      var m :| 0 <= m < |done| && Touched(Part(log, done[m]), a) && done[m].startBlock < last <= done[m].endBlock;
      assert Separate(done[m], job);
    }
  }

  /** The holder of `a` after a job has run, in turn or not. */
  lemma JobOnAddress(log: seq<Event>, snap: Store, h: int, b: Book, done: seq<JobParams>, job: JobParams, a: Address)
    requires Sorted(log, Height) && 0 <= h <= job.startBlock < job.endBlock
    requires forall k :: 0 <= k < |done| ==> Separate(done[k], job) && done[k].startBlock < done[k].endBlock
    requires HolderRight(log, snap, h, b.holders, done, a) && ApplyAll(b, Part(log, job)).Ok?
    ensures HolderRight(log, snap, h, ApplyAll(b, Part(log, job)).value.holders, done + [job], a)
  {
    var part, hs := Part(log, job), ApplyAll(b, Part(log, job)).value.holders;
    BetweenOrdered(log, Height, job.startBlock, job.endBlock, Height);
    BetweenMembers(log, Height, job.startBlock, job.endBlock);
    assert (done + [job])[..|done|] == done && (done + [job])[|done|] == job;
    StampTells(log, h, done, job, LastUpdated(b.holders, a), a);
    if InTurn(log, done, job, a) {
      AddressMoves(b, part, a);
      if Touched(part, a) {
        StampMoved(log, h, done, job, LastUpdated(hs, a), a);
      } else {
        StampKept(log, h, done, job, LastUpdated(hs, a), a);
      }
    } else {
      AddressSkipped(b, part, a);
      StampKept(log, h, done, job, LastUpdated(hs, a), a);
    }
  }

  /** A job works through the moving events of its range in log order. */
  lemma JobIsFold(log: seq<Event>, st: Store, job: JobParams, page: seq<Event>)
    requires WellOrdered(log) && multiset(page) == multiset(Part(log, job))
    ensures match RunJob(st, page, job.endBlock)
            case Err(x) => ApplyAll(Book(st.holders, 0), Part(log, job)) == Err(x)
            case Ok(st1) =>
              && ApplyAll(Book(st.holders, 0), Part(log, job)).Ok?
              && st1.holders == ApplyAll(Book(st.holders, 0), Part(log, job)).value.holders
              && (st1.lastUpdated == job.endBlock || st1.lastUpdated == st.lastUpdated)
  {
    PageInLogOrder(log, job.startBlock, job.endBlock, page);
    ApplyAllSkipsOthers(Book(st.holders, 0), Part(log, job));
    if page == [] {
      assert |multiset(Part(log, job))| == |multiset(page)| == 0;
      assert Part(log, job) == [];
    }
  }

  /** An attempt, in turn or not, succeeds if and only if its amounts are there and its senders are known in time. */
  lemma AttemptSucceedsIff(log: seq<Event>, snap: Store, h: int, s: State, i: nat, page: seq<Event>)
    requires WellOrdered(log) && Inv(log, snap, h, s) && Enabled(log, s, Attempt(i, page))
    ensures RunJob(s.store, page, s.queue[i].endBlock).Ok? <==> SendersKnown(s.store.holders, Part(log, s.queue[i]))
  {
    var job := s.queue[i];
    assert (s.done + s.queue)[|s.done| + i] == job;
    BetweenMembers(log, Height, job.startBlock, job.endBlock);
    JobIsFold(log, s.store, job, page);
    JobSucceedsIff(Book(s.store.holders, 0), Part(log, job));
  }

  lemma AttemptKeepsInv(log: seq<Event>, snap: Store, h: int, s: State, i: nat, page: seq<Event>)
    requires WellOrdered(log) && Inv(log, snap, h, s) && Enabled(log, s, Attempt(i, page))
    ensures Inv(log, snap, h, Next(log, s, Attempt(i, page)))
  {
    var job := s.queue[i];
    JobIsFold(log, s.store, job, page);
    if RunJob(s.store, page, job.endBlock).Ok? {
      TakeOut(s.done, s.queue, i, h, s.checkpoint);
      assert (s.done + s.queue)[|s.done| + i] == job;
      assert forall k :: 0 <= k < |s.done| ==> (s.done + s.queue)[k] == s.done[k];
      forall a ensures HolderRight(log, snap, h, Next(log, s, Attempt(i, page)).store.holders, s.done + [job], a) {
        JobOnAddress(log, snap, h, Book(s.store.holders, 0), s.done, job, a);
      }
      forall a ensures Flow(log, s.queue, a) + Flow(log, s.done, a)
                       == Flow(log, Without(s.queue, i), a) + Flow(log, s.done + [job], a) {
        FlowWithout(log, s.queue, i, a);
        FlowConcat(log, s.done, [job], a);
        FlowOne(log, job, a);
      }
    }
  }

  lemma {:induction false} RunKeepsInv(log: seq<Event>, snap: Store, h: int, s: State, steps: seq<Step>)
    requires WellOrdered(log) && Inv(log, snap, h, s) && IsRun(log, s, steps)
    ensures Inv(log, snap, h, Run(log, s, steps))
    decreases |steps|
  {
    if steps != [] {
      match steps[0] {
        case Handle(end) => HandleKeepsInv(log, snap, h, s, end);
        case HandleCrashed(end) => HandleKeepsInv(log, snap, h, s, end);
        case Attempt(i, page) => AttemptKeepsInv(log, snap, h, s, i, page);
        case GiveUp(i) => GiveUpKeepsInv(log, snap, h, s, i);
      }
      RunKeepsInv(log, snap, h, Next(log, s, steps[0]), steps[1..]);
    }
  }

  // ----- what the holders hold, after any run -----

  /**
   With a snapshot read at one height `h`, after any run of the protocol, with jobs retried out of turn, given up or
   lost, each amount is the snapshot plus the flow up to the checkpoint, less what is still queued, what was lost, and
   what ran too late for the address.
   */
  lemma HoldersAfterAnyRun(log: seq<Event>, snap: Store, h: int, checkpoint: int, steps: seq<Step>, a: Address)
    requires WellOrdered(log) && ReadAt(snap, h) && h >= 0 && NoEvents(log, h, checkpoint)
    requires IsRun(log, Start(snap, checkpoint), steps)
    ensures var s := Run(log, Start(snap, checkpoint), steps);
            AmountOf(s.store.holders, a)
            == AmountOf(snap.holders, a) + Net(Between(log, Height, h, s.checkpoint), a)
               - Flow(log, s.queue, a) - Flow(log, s.lost, a) - Missed(log, s.done, a)
  {
    StartInv(log, snap, h, checkpoint);
    RunKeepsInv(log, snap, h, Start(snap, checkpoint), steps);
    var s := Run(log, Start(snap, checkpoint), steps);
    LandedOrMissed(log, s.done, a);
    assert HolderRight(log, snap, h, s.store.holders, s.done, a);
  }

  /** The amount that the log dictates at the checkpoint. */
  function Due(log: seq<Event>, snap: Store, h: int, s: State, a: Address): int
  {
    AmountOf(snap.holders, a) + Net(Between(log, Height, h, s.checkpoint), a)
  }

  /** Every holder has the amount that the log dictates. */
  ghost predicate AllRight(log: seq<Event>, snap: Store, h: int, s: State)
  {
    forall a :: AmountOf(s.store.holders, a) == Due(log, snap, h, s, a)
  }

  /** The ranges whose job never runs move nothing net. */
  ghost predicate NothingLost(log: seq<Event>, s: State)
  {
    forall a :: Flow(log, s.lost, a) == 0
  }

  /** When the queue has drained, a holder is right if and only if nothing net was lost or missed for it. */
  lemma DrainedRightIff(log: seq<Event>, snap: Store, h: int, checkpoint: int, steps: seq<Step>, a: Address)
    requires WellOrdered(log) && ReadAt(snap, h) && h >= 0 && NoEvents(log, h, checkpoint)
    requires IsRun(log, Start(snap, checkpoint), steps) && Run(log, Start(snap, checkpoint), steps).queue == []
    ensures var s := Run(log, Start(snap, checkpoint), steps);
            AmountOf(s.store.holders, a) == Due(log, snap, h, s, a)
            <==> Flow(log, s.lost, a) + Missed(log, s.done, a) == 0
  {
    HoldersAfterAnyRun(log, snap, h, checkpoint, steps, a);
  }

  /** No address is touched by both jobs. */
  ghost predicate NoneShared(log: seq<Event>, older: JobParams, younger: JobParams)
  {
    forall a :: Touched(Part(log, older), a) ==> !Touched(Part(log, younger), a)
  }

  /** No job ran before an older one with which it shares an address. */
  ghost predicate AllInTurn(log: seq<Event>, done: seq<JobParams>)
  {
    forall i, k :: 0 <= k < i < |done| && done[i].endBlock <= done[k].startBlock ==> NoneShared(log, done[i], done[k])
  }

  lemma {:induction false} NetUntouched(events: seq<Event>, a: Address)
    requires !Touched(events, a)
    ensures Net(events, a) == 0
  {
    if events != [] {
      TouchedFirst(events, a);
      assert events[0] in [events[0]];
      NetUntouched(events[1..], a);
    }
  }

  lemma {:induction false} NothingMissed(log: seq<Event>, done: seq<JobParams>, a: Address)
    requires AllInTurn(log, done)
    ensures Missed(log, done, a) == 0
  {
    if done != [] {
      var n := |done| - 1;
      NothingMissed(log, done[..n], a);
      if !InTurn(log, done[..n], done[n], a) {
        var k :| 0 <= k < n && done[n].endBlock <= done[..n][k].startBlock && Touched(Part(log, done[..n][k]), a);
        assert done[..n][k] == done[k];
        assert NoneShared(log, done[n], done[k]);
        NetUntouched(Part(log, done[n]), a);
      }
    }
  }

  /** Jobs run out of turn do no harm while they share no address with an older job that runs after them. */
  lemma OutOfTurnHarmless(log: seq<Event>, snap: Store, h: int, checkpoint: int, steps: seq<Step>, a: Address)
    requires WellOrdered(log) && ReadAt(snap, h) && h >= 0 && NoEvents(log, h, checkpoint)
    requires IsRun(log, Start(snap, checkpoint), steps) && AllInTurn(log, Run(log, Start(snap, checkpoint), steps).done)
    ensures var s := Run(log, Start(snap, checkpoint), steps);
            AmountOf(s.store.holders, a) == Due(log, snap, h, s, a) - Flow(log, s.queue, a) - Flow(log, s.lost, a)
  {
    HoldersAfterAnyRun(log, snap, h, checkpoint, steps, a);
    NothingMissed(log, Run(log, Start(snap, checkpoint), steps).done, a);
  }

  /**
   Ranges lost to a crash or given up do no harm to any holder if and only if they move nothing net: once the queue
   has drained, every holder is right exactly when the lost flow is zero for every address.
   */
  lemma LostHarmlessIff(log: seq<Event>, snap: Store, h: int, checkpoint: int, steps: seq<Step>)
    requires WellOrdered(log) && ReadAt(snap, h) && h >= 0 && NoEvents(log, h, checkpoint)
    requires IsRun(log, Start(snap, checkpoint), steps) && AllInTurn(log, Run(log, Start(snap, checkpoint), steps).done)
    requires Run(log, Start(snap, checkpoint), steps).queue == []
    ensures var s := Run(log, Start(snap, checkpoint), steps);
            AllRight(log, snap, h, s) <==> NothingLost(log, s)
  {
    var s := Run(log, Start(snap, checkpoint), steps);
    forall a ensures AmountOf(s.store.holders, a) == Due(log, snap, h, s, a) <==> Flow(log, s.lost, a) == 0 {
      OutOfTurnHarmless(log, snap, h, checkpoint, steps, a);
    }
  }

  // ----- runs that cannot go wrong -----

  /** A job is attempted before older queued jobs only if it shares no address with any of them. */
  ghost predicate Careful(log: seq<Event>, s: State, step: Step)
    requires Enabled(log, s, step)
  {
    step.Attempt? ==>
      forall k :: 0 <= k < |s.queue| && s.queue[k].endBlock <= s.queue[step.i].startBlock ==>
        NoneShared(log, s.queue[k], s.queue[step.i])
  }

  ghost predicate CarefulRun(log: seq<Event>, s: State, steps: seq<Step>)
    requires IsRun(log, s, steps)
    decreases |steps|
  {
    steps == [] || (Careful(log, s, steps[0]) && CarefulRun(log, Next(log, s, steps[0]), steps[1..]))
  }

  /** What has run shares no address with an older job that has yet to run. */
  ghost predicate CarefulSoFar(log: seq<Event>, s: State)
  {
    && AllInTurn(log, s.done)
    && (forall q, k :: 0 <= q < |s.queue| && 0 <= k < |s.done| && s.queue[q].endBlock <= s.done[k].startBlock ==>
          NoneShared(log, s.queue[q], s.done[k]))
  }

  lemma CarefulAttempt(log: seq<Event>, s: State, i: nat, page: seq<Event>)
    requires CarefulSoFar(log, s) && Enabled(log, s, Attempt(i, page)) && Careful(log, s, Attempt(i, page))
    ensures CarefulSoFar(log, Next(log, s, Attempt(i, page)))
  {
    var s1 := Next(log, s, Attempt(i, page));
    if s1 != s {
      var rest := Without(s.queue, i);
      assert s1.done == s.done + [s.queue[i]] && s1.queue == rest;
      assert forall k :: 0 <= k < |rest| ==> rest[k] == s.queue[if k < i then k else k + 1];
    }
  }

  lemma CarefulStep(log: seq<Event>, snap: Store, h: int, s: State, step: Step)
    requires Inv(log, snap, h, s) && CarefulSoFar(log, s) && Enabled(log, s, step) && Careful(log, s, step)
    ensures CarefulSoFar(log, Next(log, s, step))
  {
    match step
    case Attempt(i, page) => CarefulAttempt(log, s, i, page);
    case GiveUp(i) =>
      var rest := Without(s.queue, i);
      assert forall k :: 0 <= k < |rest| ==> rest[k] == s.queue[if k < i then k else k + 1];
    case HandleCrashed(_) =>
    case Handle(end) =>
      var asked := Asked(log, s, end);
      forall k | 0 <= k < |s.done| ensures s.done[k].startBlock < s.checkpoint {
        assert (s.done + s.queue)[k] == s.done[k];
      }
      assert forall q :: |s.queue| <= q < |s.queue + asked| ==> (s.queue + asked)[q] == JobParams(Max(s.checkpoint, s.store.lastUpdated), end);
  }

  lemma {:induction false} CarefulRunInTurn(log: seq<Event>, snap: Store, h: int, s: State, steps: seq<Step>)
    requires WellOrdered(log) && Inv(log, snap, h, s) && CarefulSoFar(log, s)
    requires IsRun(log, s, steps) && CarefulRun(log, s, steps)
    ensures AllInTurn(log, Run(log, s, steps).done)
    decreases |steps|
  {
    if steps != [] {
      CarefulStep(log, snap, h, s, steps[0]);
      RunKeepsInv(log, snap, h, s, [steps[0]]);
      assert Run(log, s, [steps[0]]) == Next(log, s, steps[0]);
      CarefulRunInTurn(log, snap, h, Next(log, s, steps[0]), steps[1..]);
    }
  }

  /**
   If no job overtakes an older one with which it shares an address, every holder is right once the queue has drained,
   up to what was lost; and right for every address if and only if what was lost moves nothing net.
   */
  lemma CarefulRunRightIff(log: seq<Event>, snap: Store, h: int, checkpoint: int, steps: seq<Step>)
    requires WellOrdered(log) && ReadAt(snap, h) && h >= 0 && NoEvents(log, h, checkpoint)
    requires IsRun(log, Start(snap, checkpoint), steps) && CarefulRun(log, Start(snap, checkpoint), steps)
    requires Run(log, Start(snap, checkpoint), steps).queue == []
    ensures var s := Run(log, Start(snap, checkpoint), steps);
            && (forall a :: AmountOf(s.store.holders, a) == Due(log, snap, h, s, a) - Flow(log, s.lost, a))
            && (AllRight(log, snap, h, s) <==> NothingLost(log, s))
  {
    StartInv(log, snap, h, checkpoint);
    CarefulRunInTurn(log, snap, h, Start(snap, checkpoint), steps);
    var s := Run(log, Start(snap, checkpoint), steps);
    forall a ensures AmountOf(s.store.holders, a) == Due(log, snap, h, s, a) - Flow(log, s.lost, a) {
      OutOfTurnHarmless(log, snap, h, checkpoint, steps, a);
    }
    LostHarmlessIff(log, snap, h, checkpoint, steps);
  }

  // ----- oldest first: the holders are the fold at every moment -----

  /** From `base` on, the ranges are disjoint, ascending, and leave out no event up to the checkpoint. */
  ghost predicate QueueCovers(log: seq<Event>, queue: seq<JobParams>, base: int, checkpoint: int)
  {
    if queue == [] then NoEvents(log, base, checkpoint)
    else
      && base <= queue[0].startBlock < queue[0].endBlock <= checkpoint
      && NoEvents(log, base, queue[0].startBlock)
      && QueueCovers(log, queue[1..], queue[0].endBlock, checkpoint)
  }

  predicate OldestFirst(step: Step)
  {
    match step
    case Handle(_) => true
    case Attempt(i, _) => i == 0
    case HandleCrashed(_) => false
    case GiveUp(_) => false
  }

  /** The height up to which everything has been folded in. */
  function Applied(h: int, s: State): int
  {
    if s.done == [] then h else s.done[|s.done| - 1].endBlock
  }

  ghost predicate Folded(log: seq<Event>, snap: Store, h: int, s: State)
  {
    && h <= s.store.lastUpdated && (s.store.lastUpdated == h || s.store.lastUpdated <= s.checkpoint)
    && s.lost == [] && QueueCovers(log, s.done + s.queue, h, s.checkpoint)
    && IsFold(log, snap, h, Applied(h, s), s.store.holders)
  }

  /** `holders` is the snapshot with exactly the events in `(h, applied]` folded in. */
  ghost predicate IsFold(log: seq<Event>, snap: Store, h: int, applied: int, holders: Holders)
  {
    var r := ApplyAll(Book(snap.holders, 0), Between(log, Height, h, applied));
    r.Ok? && r.value.holders == holders
  }

  lemma {:induction false} CoversSnoc(log: seq<Event>, queue: seq<JobParams>, base: int, checkpoint: int, h: int, end: int)
    requires QueueCovers(log, queue, base, checkpoint) && checkpoint < end && h <= base
    requires base <= checkpoint || base == h
    ensures var start := Max(checkpoint, h);
            && (start < end ==> QueueCovers(log, queue + [JobParams(start, end)], base, end))
            && (NoEvents(log, start, end) ==> QueueCovers(log, queue, base, end))
    decreases |queue|
  {
    var start := Max(checkpoint, h);
    if queue == [] {
      assert queue + [JobParams(start, end)] == [JobParams(start, end)];
      assert [JobParams(start, end)][1..] == [];
    } else {
      CoversSnoc(log, queue[1..], queue[0].endBlock, checkpoint, h, end);
      assert (queue + [JobParams(start, end)])[1..] == queue[1..] + [JobParams(start, end)];
      assert (queue + [JobParams(start, end)])[0] == queue[0];
    }
  }

  /** Every range starts where the one before it ended, but for a gap without events. */
  lemma {:induction false} CoversAt(log: seq<Event>, queue: seq<JobParams>, base: int, checkpoint: int, n: nat)
    requires QueueCovers(log, queue, base, checkpoint) && n <= |queue|
    ensures var from := if n == 0 then base else queue[n - 1].endBlock;
            && base <= from
            && (n < |queue| ==> from <= queue[n].startBlock < queue[n].endBlock <= checkpoint && NoEvents(log, from, queue[n].startBlock))
            && (n == |queue| ==> NoEvents(log, from, checkpoint))
    decreases |queue|
  {
    if n > 0 {
      CoversAt(log, queue[1..], queue[0].endBlock, checkpoint, n - 1);
      assert n > 1 ==> queue[1..][n - 2] == queue[n - 1];
      assert n < |queue| ==> queue[1..][n - 1] == queue[n];
    }
  }

  lemma {:induction false} BetweenEmptyMeansNone(log: seq<Event>, lo: int, hi: int)
    requires Between(log, Height, lo, hi) == []
    ensures NoEvents(log, lo, hi)
  {
    if log != [] {
      BetweenEmptyMeansNone(log[1..], lo, hi);
      forall i | 0 <= i < |log| ensures !(lo < log[i].height <= hi) {
        if i > 0 { assert log[i] == log[1..][i - 1]; }
      }
    }
  }

  lemma HandleFolds(log: seq<Event>, snap: Store, h: int, s: State, end: int)
    requires Folded(log, snap, h, s) && s.checkpoint < end
    ensures Folded(log, snap, h, Next(log, s, Handle(end)))
  {
    CoversSnoc(log, s.done + s.queue, h, s.checkpoint, h, end);
    assert Max(s.checkpoint, s.store.lastUpdated) == Max(s.checkpoint, h);
    assert s.done + (s.queue + Asked(log, s, end)) == (s.done + s.queue) + Asked(log, s, end);
    if Between(log, Height, s.checkpoint, end) == [] {
      BetweenEmptyMeansNone(log, s.checkpoint, end);
    }
    if Asked(log, s, end) == [] {
      assert (s.done + s.queue) + [] == s.done + s.queue;
    }
  }

  lemma AttemptHolders(log: seq<Event>, snap: Store, h: int, s: State, page: seq<Event>)
    requires WellOrdered(log) && Folded(log, snap, h, s) && Enabled(log, s, Attempt(0, page))
    ensures match RunJob(s.store, page, s.queue[0].endBlock)
            case Err(_) => true
            case Ok(st) =>
              && IsFold(log, snap, h, s.queue[0].endBlock, st.holders)
              && (st.lastUpdated == s.queue[0].endBlock || st.lastUpdated == s.store.lastUpdated)
  {
    NextPart(log, h, s);
    JobIsFold(log, s.store, s.queue[0], page);
    FoldOn(snap.holders, Between(log, Height, h, Applied(h, s)), Part(log, s.queue[0]));
  }

  lemma AttemptFolds(log: seq<Event>, snap: Store, h: int, s: State, page: seq<Event>)
    requires WellOrdered(log) && Folded(log, snap, h, s) && Enabled(log, s, Attempt(0, page))
    ensures Folded(log, snap, h, Next(log, s, Attempt(0, page)))
  {
    var job := s.queue[0];
    if RunJob(s.store, page, job.endBlock).Ok? {
      var s1 := Next(log, s, Attempt(0, page));
      AttemptHolders(log, snap, h, s, page);
      assert s1.done + s1.queue == s.done + s.queue && s1.lost == [];
      CoversAt(log, s.done + s.queue, h, s.checkpoint, |s.done|);
      assert (s.done + s.queue)[|s.done|] == job;
      assert Applied(h, s1) == job.endBlock;
    }
  }

  /** The events of the oldest job are exactly the next ones after everything applied so far. */
  lemma NextPart(log: seq<Event>, h: int, s: State)
    requires Sorted(log, Height) && s.queue != [] && QueueCovers(log, s.done + s.queue, h, s.checkpoint)
    ensures h <= Applied(h, s)
    ensures Between(log, Height, h, Applied(h, s)) + Part(log, s.queue[0]) == Between(log, Height, h, s.queue[0].endBlock)
  {
    var job, applied, n := s.queue[0], Applied(h, s), |s.done|;
    CoversAt(log, s.done + s.queue, h, s.checkpoint, n);
    assert (s.done + s.queue)[n] == job && (n > 0 ==> (s.done + s.queue)[n - 1] == s.done[n - 1]);
    BetweenSkip(log, Height, job.startBlock, applied, job.endBlock);
    BetweenJoin(log, Height, h, applied, job.endBlock);
  }

  lemma FoldOn(holders: Holders, x: seq<Event>, y: seq<Event>)
    requires ApplyAll(Book(holders, 0), x).Ok?
    ensures var b := ApplyAll(Book(holders, 0), x).value;
            match ApplyAll(Book(b.holders, 0), y)
            case Err(_) => ApplyAll(Book(holders, 0), x + y).Err?
            case Ok(b1) => ApplyAll(Book(holders, 0), x + y).Ok? && ApplyAll(Book(holders, 0), x + y).value.holders == b1.holders
  {
    var b := ApplyAll(Book(holders, 0), x).value;
    ApplyAllConcat(Book(holders, 0), x, y);
    AddedIsSeparate(b.holders, b.added, 0, y);
  }

  ghost predicate OldestFirstRun(steps: seq<Step>)
  {
    forall i :: 0 <= i < |steps| ==> OldestFirst(steps[i])
  }

  /**
   If jobs run oldest first and none is lost, then at every moment the holder table is the fold over exactly the
   events in `(h, applied]`.
   */
  lemma {:induction false} OldestFirstFolds(log: seq<Event>, snap: Store, h: int, s: State, steps: seq<Step>)
    requires WellOrdered(log) && Folded(log, snap, h, s) && IsRun(log, s, steps) && OldestFirstRun(steps)
    ensures Folded(log, snap, h, Run(log, s, steps))
    decreases |steps|
  {
    if steps != [] {
      assert OldestFirst(steps[0]);
      match steps[0] {
        case Handle(end) => HandleFolds(log, snap, h, s, end);
        case Attempt(i, page) => AttemptFolds(log, snap, h, s, page);
      }
      OldestFirstFolds(log, snap, h, Next(log, s, steps[0]), steps[1..]);
    }
  }

  lemma StartFolded(log: seq<Event>, snap: Store, h: int, checkpoint: int)
    requires ReadAt(snap, h) && NoEvents(log, h, checkpoint)
    ensures Folded(log, snap, h, Start(snap, checkpoint))
  {
    BetweenEmpty(log, Height, h, h);
  }

  /** Then each holder has its snapshot amount plus inflow minus outflow over exactly the events in `(h, applied]`. */
  lemma HoldersAreSnapshotPlusFlow(log: seq<Event>, snap: Store, h: int, checkpoint: int, steps: seq<Step>, a: Address)
    requires WellOrdered(log) && ReadAt(snap, h) && h >= 0 && NoEvents(log, h, checkpoint)
    requires IsRun(log, Start(snap, checkpoint), steps) && OldestFirstRun(steps)
    ensures var s := Run(log, Start(snap, checkpoint), steps);
            AmountOf(s.store.holders, a) == AmountOf(snap.holders, a) + Net(Between(log, Height, h, Applied(h, s)), a)
  {
    StartFolded(log, snap, h, checkpoint);
    OldestFirstFolds(log, snap, h, Start(snap, checkpoint), steps);
    var applied := Applied(h, Run(log, Start(snap, checkpoint), steps));
    BetweenOrdered(log, Height, h, applied, Height);
    BetweenMembers(log, Height, h, applied);
    GuardDropsNothing(Book(snap.holders, 0), Between(log, Height, h, applied), a);
  }

  // ----- runs that go wrong -----

  function Minted(id: int, amount: int, to: Address, height: int): Event
  {
    Event(id, Mint, Some(amount), None, Some(to), height)
  }

  const EmptyStore: Store := Store(map[], 0, 0)

  lemma MintInOrder(id: int, amount: int, to: Address, height: int)
    ensures var page := [Minted(id, amount, to, height)]; InOrder(page) == page
  {
    var e := Minted(id, amount, to, height);
    SelectOne(e, Moves);
    SortOfSorted([e], Id);
  }

  lemma MintApplied(b: Book, id: int, amount: int, to: Address, height: int)
    ensures ApplyAll(b, [Minted(id, amount, to, height)]) == Ok(Move(b, to, amount, height))
  {
    OneEvent(b, Minted(id, amount, to, height));
  }

  lemma MintJob(st: Store, id: int, amount: int, to: Address, height: int)
    ensures var e := Minted(id, amount, to, height);
            RunJob(st, [e], height)
            == Ok(if height >= LastUpdated(st.holders, to)
                  then Store(st.holders[to := Holder(AmountOf(st.holders, to) + amount, height)], st.totalSupply + amount, height)
                  else st.(lastUpdated := height))
  {
    MintInOrder(id, amount, to, height);
    MintApplied(Book(st.holders, 0), id, amount, to, height);
  }

  lemma OneEvent(b: Book, e: Event)
    ensures ApplyAll(b, [e]) == Apply(b, e)
  {
    assert [e][1..] == [];
    if Apply(b, e).Ok? { assert ApplyAll(Apply(b, e).value, []) == Apply(b, e); }
  }

  /** Two mints of one address at heights 1 and 2. */
  function TwoMints(to: Address): seq<Event>
  {
    [Minted(1, 5, to, 1), Minted(2, 7, to, 2)]
  }

  const FirstJob: JobParams := JobParams(0, 1)
  const SecondJob: JobParams := JobParams(1, 2)

  lemma TwoMintParts(to: Address)
    ensures var log := TwoMints(to);
            Part(log, FirstJob) == [log[0]] && Part(log, SecondJob) == [log[1]] && Between(log, Height, 0, 2) == log
    ensures Net(TwoMints(to), to) == 12
  {
    var log := TwoMints(to);
    BetweenTwo(log[0], log[1], 0, 1);
    BetweenTwo(log[0], log[1], 1, 2);
    BetweenTwo(log[0], log[1], 0, 2);
    assert log[1..] == [log[1]] && [log[1]][1..] == [];
    assert Net([log[1]], to) == 7;
  }

  /** Both jobs are queued. */
  lemma BothQueued(to: Address)
    ensures var log, s1 := TwoMints(to), State(EmptyStore, 1, [FirstJob], [], []);
            && Enabled(log, Start(EmptyStore, 0), Handle(1)) && Next(log, Start(EmptyStore, 0), Handle(1)) == s1
            && Enabled(log, s1, Handle(2)) && Next(log, s1, Handle(2)) == State(EmptyStore, 2, [FirstJob, SecondJob], [], [])
  {
    TwoMintParts(to);
  }

  /** The younger job runs first, and the older mint is then dropped by the guard. */
  lemma YoungerFirst(to: Address) returns (st: Store)
    ensures var log := TwoMints(to);
            var s := State(EmptyStore, 2, [FirstJob, SecondJob], [], []);
            var s1 := State(Store(map[to := Holder(7, 2)], 7, 2), 2, [FirstJob], [SecondJob], []);
            && Enabled(log, s, Attempt(1, [log[1]])) && Next(log, s, Attempt(1, [log[1]])) == s1
            && Enabled(log, s1, Attempt(0, [log[0]]))
            && Next(log, s1, Attempt(0, [log[0]])) == State(st, 2, [], [SecondJob, FirstJob], [])
    ensures AmountOf(st.holders, to) == 7
  {
    TwoMintParts(to);
    MintJob(EmptyStore, 2, 7, to, 2);
    st := Store(map[to := Holder(7, 2)], 7, 2);
    MintJob(st, 1, 5, to, 1);
    st := st.(lastUpdated := 1);
  }

  lemma YoungerFirstRun(to: Address) returns (steps: seq<Step>, st: Store)
    ensures var log, s := TwoMints(to), State(EmptyStore, 2, [FirstJob, SecondJob], [], []);
            IsRun(log, s, steps) && Run(log, s, steps) == State(st, 2, [], [SecondJob, FirstJob], [])
    ensures AmountOf(st.holders, to) == 7
  {
    var log, s := TwoMints(to), State(EmptyStore, 2, [FirstJob, SecondJob], [], []);
    st := YoungerFirst(to);
    var s1 := Next(log, s, Attempt(1, [log[1]]));
    RunCons(log, s1, Attempt(0, [log[0]]), []);
    steps := [Attempt(0, [log[0]])] + [];
    RunCons(log, s, Attempt(1, [log[1]]), steps);
    steps := [Attempt(1, [log[1]])] + steps;
  }

  /** With the younger of two jobs first, the holder ends with 7 instead of 12, though nothing was lost. */
  lemma OutOfTurnExample(to: Address) returns (steps: seq<Step>)
    ensures WellOrdered(TwoMints(to)) && IsRun(TwoMints(to), Start(EmptyStore, 0), steps)
    ensures var s := Run(TwoMints(to), Start(EmptyStore, 0), steps);
            && s.queue == [] && s.lost == []
            && AmountOf(s.store.holders, to) == 7 && Due(TwoMints(to), EmptyStore, 0, s, to) == 12
  {
    TwoMintParts(to);
    BothQueued(to);
    var st;
    steps, st := YoungerFirstRun(to);
    RunCons(TwoMints(to), State(EmptyStore, 1, [FirstJob], [], []), Handle(2), steps);
    steps := [Handle(2)] + steps;
    RunCons(TwoMints(to), Start(EmptyStore, 0), Handle(1), steps);
    steps := [Handle(1)] + steps;
  }

  lemma RunCons(log: seq<Event>, s: State, step: Step, rest: seq<Step>)
    requires Enabled(log, s, step) && IsRun(log, Next(log, s, step), rest)
    ensures IsRun(log, s, [step] + rest) && Run(log, s, [step] + rest) == Run(log, Next(log, s, step), rest)
  {
    assert ([step] + rest)[1..] == rest;
  }

  lemma BetweenTwo(x: Event, y: Event, lo: int, hi: int)
    ensures Between([x, y], Height, lo, hi)
            == (if lo < x.height <= hi then [x] else []) + (if lo < y.height <= hi then [y] else [])
  {
    assert [x, y][1..] == [y] && [y][1..] == [];
    assert Between([y], Height, lo, hi) == if lo < y.height <= hi then [y] else [];
  }

  /** A mint whose update job is never created, because the process stops after the checkpoint commit. */
  lemma CrashExample(to: Address) returns (log: seq<Event>, steps: seq<Step>)
    ensures WellOrdered(log) && IsRun(log, Start(EmptyStore, 0), steps)
    ensures var s := Run(log, Start(EmptyStore, 0), steps);
            s.queue == [] && AmountOf(s.store.holders, to) == 0 && Due(log, EmptyStore, 0, s, to) == 5
  {
    var e := Minted(1, 5, to, 1);
    log, steps := [e], [HandleCrashed(1)];
    assert [e][1..] == [] && Between(log, Height, 0, 1) == [e];
    assert steps[1..] == [];
    assert Net([e], to) == 5;
  }

  /** The same mint, whose update job is given up after its last attempt. */
  lemma GiveUpExample(to: Address) returns (log: seq<Event>, steps: seq<Step>)
    ensures WellOrdered(log) && IsRun(log, Start(EmptyStore, 0), steps)
    ensures var s := Run(log, Start(EmptyStore, 0), steps);
            s.queue == [] && AmountOf(s.store.holders, to) == 0 && Due(log, EmptyStore, 0, s, to) == 5
  {
    var e := Minted(1, 5, to, 1);
    log, steps := [e], [Handle(1), GiveUp(0)];
    assert [e][1..] == [] && Between(log, Height, 0, 1) == [e];
    assert Next(log, Start(EmptyStore, 0), steps[0]).queue == [JobParams(0, 1)];
    assert steps[1..] == [GiveUp(0)] && steps[1..][1..] == [];
    assert Net([e], to) == 5;
  }
}
