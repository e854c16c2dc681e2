/**
 The activity rows of a reindexed CW20 contract: a chain of jobs inserts its history page by page from the events
 crawled so far, while the live job goes on inserting new events above its own checkpoint.
 */
module Cw20History {
  import opened Wrappers
  import opened HeightLog
  import opened Cw20

  // ----- the pages of the history -----

  ghost predicate StrictIds(events: seq<Event>)
  {
    forall i, j :: 0 <= i < j < |events| ==> events[i].id < events[j].id
  }

  function Take<T>(s: seq<T>, n: nat): seq<T>
  {
    if n <= |s| then s[..n] else s
  }

  function Above(events: seq<Event>, prevId: int): seq<Event>
  {
    if events == [] then []
    else (if events[0].id > prevId then [events[0]] else []) + Above(events[1..], prevId)
  }

  /** The page query: the first `limit` events with an id above `prevId`. */
  function PageAfter(events: seq<Event>, prevId: int, limit: nat): seq<Event>
  {
    Take(Above(events, prevId), limit)
  }

  lemma {:induction false} AboveIsSuffix(events: seq<Event>, prevId: int, k: nat)
    requires k <= |events|
    requires (forall i :: 0 <= i < k ==> events[i].id <= prevId) && (forall i :: k <= i < |events| ==> events[i].id > prevId)
    ensures Above(events, prevId) == events[k..]
    decreases |events|
  {
    if events != [] {
      var rest := events[1..];
      assert forall i :: 0 <= i < |rest| ==> rest[i] == events[i + 1];
      if k == 0 {
        AboveIsSuffix(rest, prevId, 0);
        assert events == [events[0]] + rest;
      } else {
        AboveIsSuffix(rest, prevId, k - 1);
        assert rest[k - 1..] == events[k..];
      }
    }
  }

  lemma AboveLast(events: seq<Event>, done: nat)
    requires StrictIds(events) && 0 < done <= |events|
    ensures Above(events, events[done - 1].id) == events[done..]
  {
    AboveIsSuffix(events, events[done - 1].id, done);
  }

  /** The id that a history job carries once the first `k` events are done. */
  function LastId(events: seq<Event>, k: nat): int
    requires k <= |events|
  {
    if k == 0 then 0 else events[k - 1].id
  }

  /** The page after that id is the next stretch of what has been crawled, and its last id leads on. */
  lemma PageSteps(events: seq<Event>, k: nat, limit: nat)
    requires limit > 0 && StrictIds(events) && k <= |events| && forall i :: 0 <= i < |events| ==> events[i].id > 0
    ensures var page := PageAfter(events, LastId(events, k), limit);
            && k + |page| <= |events| && events[..k] + page == events[..k + |page|]
            && (page == [] ==> k == |events|)
            && (page != [] ==> page[|page| - 1].id == LastId(events, k + |page|))
  {
    if k == 0 {
      AboveIsSuffix(events, 0, 0);
    } else {
      AboveLast(events, k);
    }
    var page := PageAfter(events, LastId(events, k), limit);
    assert page == events[k..k + |page|];
  }

  // ----- the chain beside the live job -----

  /** The history to rebuild is `(from, to]`; the live job stood at `live` when the old rows were deleted. */
  datatype Config = Config(log: seq<Event>, from: int, to: int, live: int, limit: nat) {
    ghost predicate Valid()
    {
      limit > 0 && WellOrdered(log) && StrictIds(log) && (forall e :: e in log ==> e.id > 0) && from <= live
    }

    function History(): seq<Event> { Between(log, Height, from, to) }

    /** The part of the history that has been crawled when the crawler stands at `seen`. */
    function Crawled(seen: int): seq<Event> { Between(log, Height, from, Min(to, seen)) }
  }

  /**
   `seen` is the checkpoint of the event crawler, `next` the previous id that the queued history job carries, if there
   is one. `closed` records where the crawler stood when a history job found its page empty; no step reads it.
   */
  datatype State = State(rows: seq<Event>, checkpoint: int, seen: int, next: Option<int>, closed: Option<int>)

  /**
   `Crawl(height)` is the crawler moving on, `Live(end)` one run of the CW20 job, `Page` one history job that queues its
   successor or finds nothing left. `Stop(committed)` is a history job that dies, before or after its commit.
   */
  datatype Step = Crawl(height: int) | Live(end: int) | Page | Stop(committed: bool)

  predicate Enabled(s: State, step: Step)
  {
    match step
    case Crawl(height) => s.seen <= height
    case Live(end) => s.checkpoint < end <= s.seen
    case Page => s.next.Some?
    case Stop(_) => s.next.Some?
  }

  function NextPage(c: Config, s: State): seq<Event>
    requires s.next.Some?
  {
    PageAfter(c.Crawled(s.seen), s.next.value, c.limit)
  }

  function Next(c: Config, s: State, step: Step): State
    requires Enabled(s, step)
  {
    match step
    case Crawl(height) => s.(seen := height)
    case Live(end) => s.(rows := s.rows + Between(c.log, Height, s.checkpoint, end), checkpoint := end)
    case Page =>
      var page := NextPage(c, s);
      if page == [] then s.(next := None, closed := Some(s.seen))
      else s.(rows := s.rows + page, next := Some(page[|page| - 1].id))
    case Stop(committed) => s.(rows := s.rows + (if committed then NextPage(c, s) else []), next := None)
  }

  function Start(c: Config, seen: int): State { State([], c.live, seen, Some(0), None) }

  /** The activity table, the two checkpoints and the queued history job. */
  class Cw20Activities {
    var rows: seq<Event>
    var checkpoint: int
    var seen: int
    var next: Option<int>
    ghost var closed: Option<int>

    ghost function Current(): State
      reads this
    {
      State(rows, checkpoint, seen, next, closed)
    }

    /** One history job: insert a page and queue the next job, or find nothing left. */
    method ReindexHistory(c: Config)
      requires next.Some?
      modifies this
      ensures Current() == Next(c, old(Current()), Page)
      ensures old(rows) <= rows && |rows| <= |old(rows)| + c.limit
    {
      var events := PageAfter(c.Crawled(seen), next.value, c.limit);
      if |events| > 0 {
        rows := rows + events;
        next := Some(events[|events| - 1].id);
      } else {
        next := None;
        closed := Some(seen);
      }
    }
  }

  ghost predicate IsRun(c: Config, s: State, steps: seq<Step>)
    decreases |steps|
  {
    steps == [] || (Enabled(s, steps[0]) && IsRun(c, Next(c, s, steps[0]), steps[1..]))
  }

  ghost function Run(c: Config, s: State, steps: seq<Step>): State
    requires IsRun(c, s, steps)
    decreases |steps|
  {
    if steps == [] then s else Run(c, Next(c, s, steps[0]), steps[1..])
  }

  /** The rows are the first `k` events of the history and everything the live job has passed. */
  ghost predicate Holds(c: Config, s: State, k: nat)
  {
    && c.live <= s.checkpoint <= s.seen && k <= |c.Crawled(s.seen)| <= |c.History()|
    && multiset(s.rows) == multiset(c.History()[..k]) + multiset(Between(c.log, Height, c.live, s.checkpoint))
    && (s.next.Some? ==> s.next.value == LastId(c.History(), k) && s.closed.None?)
    && (s.closed.Some? ==> c.live <= s.closed.value <= s.seen && k == |c.Crawled(s.closed.value)|)
  }

  lemma {:induction false} OldIds(log: seq<Event>, lo: int, hi: int)
    requires StrictIds(log)
    ensures StrictIds(Between(log, Height, lo, hi))
  {
    if log != [] {
      OldIds(log[1..], lo, hi);
      BetweenMembers(log[1..], Height, lo, hi);
      var rest := Between(log[1..], Height, lo, hi);
      forall j | 0 <= j < |rest| ensures log[0].id < rest[j].id {
        assert rest[j] in log[1..];
        var m :| 0 <= m < |log[1..]| && log[1..][m] == rest[j];
        assert log[0].id < log[m + 1].id;
      }
    }
  }

  /** What has been crawled is a beginning of the history, and a beginning of what will have been crawled. */
  lemma CrawledGrows(c: Config, seen: int, seen': int)
    requires c.Valid() && c.live <= seen <= seen'
    ensures c.Crawled(seen) <= c.Crawled(seen') <= c.History()
  {
    CrawledJoin(c, Min(c.to, seen), Min(c.to, seen'));
    CrawledJoin(c, Min(c.to, seen'), c.to);
  }

  lemma CrawledJoin(c: Config, mid: int, hi: int)
    requires c.Valid() && mid <= hi
    ensures Between(c.log, Height, c.from, mid) <= Between(c.log, Height, c.from, hi)
  {
    if c.from <= mid {
      BetweenJoin(c.log, Height, c.from, mid, hi);
    } else {
      BetweenEmpty(c.log, Height, c.from, mid);
    }
  }

  /** Inserting the next page extends the done prefix. */
  lemma PageInserted(rows: seq<Event>, events: seq<Event>, live: seq<Event>, k: nat, page: seq<Event>)
    requires k + |page| <= |events| && events[..k] + page == events[..k + |page|]
    requires multiset(rows) == multiset(events[..k]) + multiset(live)
    ensures multiset(rows + page) == multiset(events[..k + |page|]) + multiset(live)
  {
    assert multiset(events[..k] + page) == multiset(events[..k]) + multiset(page);
  }

  lemma LiveHolds(c: Config, s: State, k: nat, end: int)
    requires c.Valid() && Holds(c, s, k) && s.checkpoint < end <= s.seen
    ensures Holds(c, Next(c, s, Live(end)), k)
  {
    BetweenJoin(c.log, Height, c.live, s.checkpoint, end);
  }

  lemma CrawlHolds(c: Config, s: State, k: nat, height: int)
    requires c.Valid() && Holds(c, s, k) && s.seen <= height
    ensures Holds(c, Next(c, s, Crawl(height)), k)
  {
    CrawledGrows(c, s.seen, height);
  }

  /** What the queued history job finds. */
  lemma NextPageFacts(c: Config, s: State, k: nat)
    requires c.Valid() && Holds(c, s, k) && s.next.Some?
    ensures var page, all := NextPage(c, s), c.History();
            && k + |page| <= |c.Crawled(s.seen)| && all[..k] + page == all[..k + |page|]
            && (page == [] ==> k == |c.Crawled(s.seen)|)
            && (page != [] ==> page[|page| - 1].id == LastId(all, k + |page|))
  {
    var crawled, all := c.Crawled(s.seen), c.History();
    CrawledGrows(c, s.seen, s.seen);
    OldIds(c.log, c.from, Min(c.to, s.seen));
    BetweenMembers(c.log, Height, c.from, Min(c.to, s.seen));
    assert crawled == all[..|crawled|];
    assert LastId(crawled, k) == LastId(all, k);
    PageSteps(crawled, k, c.limit);
    var n := k + |NextPage(c, s)|;
    assert crawled[..k] == all[..k] && crawled[..n] == all[..n];
  }

  lemma ChainHolds(c: Config, s: State, k: nat, step: Step) returns (k': nat)
    requires c.Valid() && Holds(c, s, k) && s.next.Some? && (step.Page? || step.Stop?)
    ensures Holds(c, Next(c, s, step), k')
  {
    NextPageFacts(c, s, k);
    var page := NextPage(c, s);
    PageInserted(s.rows, c.History(), Between(c.log, Height, c.live, s.checkpoint), k, page);
    k' := if step.Page? || step.committed then k + |page| else k;
    assert s.rows + [] == s.rows;
  }

  lemma StepHolds(c: Config, s: State, k: nat, step: Step) returns (k': nat)
    requires c.Valid() && Holds(c, s, k) && Enabled(s, step)
    ensures Holds(c, Next(c, s, step), k')
    ensures s.next.None? ==> k' == k && Next(c, s, step).next.None? && Next(c, s, step).closed == s.closed
  {
    k' := k;
    match step
    case Crawl(height) => CrawlHolds(c, s, k, height);
    case Live(end) => LiveHolds(c, s, k, end);
    case Page => k' := ChainHolds(c, s, k, step);
    case Stop(_) => k' := ChainHolds(c, s, k, step);
  }

  /**
   After any run the rows are a beginning of the history and what the live job passed; if the chain ended by itself, the
   beginning is all that had been crawled at that moment.
   */
  lemma {:induction false} RunHolds(c: Config, s: State, k: nat, steps: seq<Step>) returns (k': nat)
    requires c.Valid() && Holds(c, s, k) && IsRun(c, s, steps)
    ensures Holds(c, Run(c, s, steps), k')
    ensures s.next.None? ==> k' == k && Run(c, s, steps).next.None? && Run(c, s, steps).closed == s.closed
    decreases |steps|
  {
    k' := k;
    if steps != [] {
      k' := StepHolds(c, s, k, steps[0]);
      k' := RunHolds(c, Next(c, s, steps[0]), k', steps[1..]);
    }
  }

  lemma {:induction false} CountOnce(log: seq<Event>, e: Event)
    requires StrictIds(log)
    ensures multiset(log)[e] == if e in log then 1 else 0
  {
    if log != [] {
      CountOnce(log[1..], e);
      assert log == [log[0]] + log[1..];
    }
  }

  lemma PrefixCount(events: seq<Event>, k: nat, e: Event)
    requires k <= |events|
    ensures multiset(events[..k])[e] <= multiset(events)[e]
  {
    assert events == events[..k] + events[k..];
  }

  function One(p: bool): nat { if p then 1 else 0 }

  lemma StartHolds(c: Config, seen: int)
    requires c.Valid() && c.live <= seen
    ensures Holds(c, Start(c, seen), 0)
  {
    CrawledGrows(c, seen, seen);
    BetweenEmpty(c.log, Height, c.live, c.live);
  }

  /** Where the rebuilt history ends: at its own end, or where the crawler stood when the chain found nothing left. */
  function RebuiltTo(c: Config, s: State): int
    requires s.closed.Some?
  {
    Min(c.to, s.closed.value)
  }

  /**
   When the chain has ended by itself, an event is inserted once for lying in the history crawled by then and once for
   lying above the checkpoint at which the live job stood: so twice, once, or never.
   */
  lemma InsertedHowOften(c: Config, seen: int, steps: seq<Step>, e: Event)
    requires c.Valid() && c.live <= seen && e in c.log && IsRun(c, Start(c, seen), steps)
    requires Run(c, Start(c, seen), steps).closed.Some?
    ensures var s := Run(c, Start(c, seen), steps);
            multiset(s.rows)[e] == One(c.from < e.height <= RebuiltTo(c, s)) + One(c.live < e.height <= s.checkpoint)
  {
    StartHolds(c, seen);
    var k := RunHolds(c, Start(c, seen), 0, steps);
    var s := Run(c, Start(c, seen), steps);
    CrawledGrows(c, s.closed.value, s.seen);
    assert c.History()[..k] == c.Crawled(s.closed.value);
    BetweenBag(c.log, Height, c.from, RebuiltTo(c, s), e);
    BetweenBag(c.log, Height, c.live, s.checkpoint, e);
    CountOnce(c.log, e);
  }

  ghost predicate OnceEach(c: Config, s: State)
  {
    forall e :: e in c.log && c.from < e.height <= s.checkpoint ==> multiset(s.rows)[e] == 1
  }

  /** No event lies between where the rebuilt history ends and the checkpoint at which the live job stood. */
  ghost predicate Meets(c: Config, s: State)
    requires s.closed.Some?
  {
    forall e :: e in c.log && e.height <= s.checkpoint ==>
      !(c.live < e.height <= RebuiltTo(c, s)) && !(c.from < e.height && RebuiltTo(c, s) < e.height <= c.live)
  }

  /** Every event is inserted exactly once if and only if the two insertions meet without overlap or gap on the log. */
  lemma OnceEachIff(c: Config, seen: int, steps: seq<Step>)
    requires c.Valid() && c.live <= seen && IsRun(c, Start(c, seen), steps) && Run(c, Start(c, seen), steps).closed.Some?
    ensures var s := Run(c, Start(c, seen), steps);
            OnceEach(c, s) <==> Meets(c, s)
  {
    var s := Run(c, Start(c, seen), steps);
    forall e | e in c.log
      ensures multiset(s.rows)[e] == One(c.from < e.height <= RebuiltTo(c, s)) + One(c.live < e.height <= s.checkpoint)
    {
      InsertedHowOften(c, seen, steps, e);
    }
    if OnceEach(c, s) {
      forall e | e in c.log && e.height <= s.checkpoint
        ensures !(c.live < e.height <= RebuiltTo(c, s)) && !(c.from < e.height && RebuiltTo(c, s) < e.height <= c.live)
      {
        assert c.from < e.height ==> multiset(s.rows)[e] == 1;
      }
    }
  }

  /**
   Whatever happens to the chain, no event is inserted more often than its place in the history and above the live
   checkpoint allows, and none that the live job passed is missing.
   */
  lemma NeverMoreOften(c: Config, seen: int, steps: seq<Step>, e: Event)
    requires c.Valid() && c.live <= seen && e in c.log && IsRun(c, Start(c, seen), steps)
    ensures var s := Run(c, Start(c, seen), steps);
            && multiset(s.rows)[e] <= One(c.from < e.height <= c.to) + One(c.live < e.height <= s.checkpoint)
            && multiset(s.rows)[e] >= One(c.live < e.height <= s.checkpoint)
  {
    StartHolds(c, seen);
    var k := RunHolds(c, Start(c, seen), 0, steps);
    var s := Run(c, Start(c, seen), steps);
    PrefixCount(c.History(), k, e);
    BetweenBag(c.log, Height, c.from, c.to, e);
    BetweenBag(c.log, Height, c.live, s.checkpoint, e);
    CountOnce(c.log, e);
  }

  /** A history job that dies leaves every event below the live job's checkpoint that it had not reached out for good. */
  lemma StoppedChainLoses(c: Config, s: State, k: nat, steps: seq<Step>, i: nat)
    requires c.Valid() && Holds(c, s, k) && s.next.None? && IsRun(c, s, steps)
    requires k <= i < |c.History()| && c.History()[i].height <= c.live
    ensures multiset(Run(c, s, steps).rows)[c.History()[i]] == 0
  {
    var k' := RunHolds(c, s, k, steps);
    var s1, e := Run(c, s, steps), c.History()[i];
    OldIds(c.log, c.from, c.to);
    BetweenBag(c.log, Height, c.live, s1.checkpoint, e);
    forall j | 0 <= j < k ensures c.History()[..k][j] != e {
      assert c.History()[j].id < c.History()[i].id;
    }
    assert e !in c.History()[..k];
    assert multiset(c.History()[..k])[e] == 0;
  }

  // ----- overlapping insertions -----

  const Event2: Event := Event(1, Mint, Some(5), None, Some("holder"), 2)

  /** The history is rebuilt up to height 3, while the live job stood at 1. */
  const Overlap: Config := Config([Event2], 0, 3, 1, 10)

  lemma OverlapFacts()
    ensures Overlap.Valid() && Overlap.Crawled(3) == [Event2] && Overlap.Crawled(1) == []
    ensures Between([Event2], Height, 1, 3) == [Event2]
    ensures PageAfter([Event2], 0, 10) == [Event2] && PageAfter([Event2], 1, 10) == [] && PageAfter([], 0, 10) == []
  {
    BetweenOne(Event2, Height, 0, 3);
    BetweenOne(Event2, Height, 0, 1);
    BetweenOne(Event2, Height, 1, 3);
    AboveOne(Event2, 0);
    AboveOne(Event2, 1);
  }

  lemma AboveOne(e: Event, prevId: int)
    ensures Above([e], prevId) == if e.id > prevId then [e] else []
  {
    assert [e][1..] == [];
    assert Above([], prevId) == [];
  }

  lemma RunCons(c: Config, s: State, step: Step, rest: seq<Step>)
    requires Enabled(s, step) && IsRun(c, Next(c, s, step), rest)
    ensures IsRun(c, s, [step] + rest) && Run(c, s, [step] + rest) == Run(c, Next(c, s, step), rest)
  {
    assert ([step] + rest)[1..] == rest;
  }

  /** With the event crawled in time, the live job inserts it and so does the history job. */
  lemma InsertedTwiceExample() returns (steps: seq<Step>)
    ensures Overlap.Valid() && IsRun(Overlap, Start(Overlap, 3), steps)
    ensures Run(Overlap, Start(Overlap, 3), steps) == State([Event2, Event2], 3, 3, None, Some(3))
  {
    OverlapFacts();
    var s1, s2 := State([Event2], 3, 3, Some(0), None), State([Event2, Event2], 3, 3, Some(1), None);
    assert Next(Overlap, s2, Page) == State([Event2, Event2], 3, 3, None, Some(3));
    RunCons(Overlap, s2, Page, []);
    steps := [Page] + [];
    assert [Event2] + [Event2] == [Event2, Event2];
    assert Next(Overlap, s1, Page) == s2;
    RunCons(Overlap, s1, Page, steps);
    steps := [Page] + steps;
    assert [] + [Event2] == [Event2];
    assert Next(Overlap, Start(Overlap, 3), Live(3)) == s1;
    RunCons(Overlap, Start(Overlap, 3), Live(3), steps);
    steps := [Live(3)] + steps;
  }

  /** With the event crawled only after the chain found nothing left, it is inserted once although the ranges overlap. */
  lemma CrawledLateExample() returns (steps: seq<Step>)
    ensures Overlap.Valid() && IsRun(Overlap, Start(Overlap, 1), steps)
    ensures Run(Overlap, Start(Overlap, 1), steps) == State([Event2], 3, 3, None, Some(1))
  {
    OverlapFacts();
    var s1, s2 := State([], 1, 1, None, Some(1)), State([], 1, 3, None, Some(1));
    assert [] + [Event2] == [Event2];
    assert Next(Overlap, s2, Live(3)) == State([Event2], 3, 3, None, Some(1));
    RunCons(Overlap, s2, Live(3), []);
    steps := [Live(3)] + [];
    assert Next(Overlap, s1, Crawl(3)) == s2;
    RunCons(Overlap, s1, Crawl(3), steps);
    steps := [Crawl(3)] + steps;
    assert Next(Overlap, Start(Overlap, 1), Page) == s1;
    RunCons(Overlap, Start(Overlap, 1), Page, steps);
    steps := [Page] + steps;
  }
}
