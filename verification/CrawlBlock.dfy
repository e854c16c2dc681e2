/** The block crawler: it stores a range of blocks, then moves its checkpoint, and may die in between. */
module CrawlBlock {
  import opened Wrappers
  import opened HeightLog

  /** `blocks` lists the stored heights in the order they were inserted. */
  datatype Db = Db(blocks: seq<int>, checkpoint: Option<int>)

  datatype Config = Config(startBlock: int, blocksPerCall: nat)

  // ----- one run of the job -----

  /** The last height a run asks for, given the latest height of the network. */
  function EndBlock(c: Config, current: int, latest: int): int
  {
    Min(current + c.blocksPerCall, latest)
  }

  /** The answers to the requests for `current + 1 ..`; an answer without a header is `None`. */
  function Responses(current: int, headers: seq<bool>): (r: seq<Option<int>>)
    ensures |r| == |headers|
  {
    seq(|headers|, i requires 0 <= i < |headers| => if headers[i] then Some(current + 1 + i) else None)
  }

  /** The blocks to insert: those with a header whose height is not stored yet. */
  function NewBlocks(stored: seq<int>, list: seq<Option<int>>): seq<int>
  {
    if list == [] then []
    else
      (match list[0]
       case None => []
       case Some(h) => if h in stored then [] else [h])
      + NewBlocks(stored, list[1..])
  }

  function InitCheckpoint(c: Config, db: Db): Db
  {
    if db.checkpoint.Some? then db else db.(checkpoint := Some(c.startBlock))
  }

  function InsertBlocks(db: Db, list: seq<Option<int>>): Db
  {
    db.(blocks := db.blocks + NewBlocks(db.blocks, list))
  }

  function MoveCheckpoint(db: Db, current: int, endBlock: int): Db
  {
    if current < endBlock then db.(checkpoint := Some(endBlock)) else db
  }

  /** How far a run gets before the process dies. */
  datatype Progress = NotStarted | Initialised | Inserted | Completed

  /** What one run sees: the network's latest height, which answers carry a header, and how far it gets. */
  datatype Run = Run(latest: int, headers: seq<bool>, progress: Progress)

  predicate Answers(c: Config, db: Db, r: Run)
  {
    var current := InitCheckpoint(c, db).checkpoint.value;
    |r.headers| == if current < EndBlock(c, current, r.latest) then EndBlock(c, current, r.latest) - current else 0
  }

  function After(c: Config, db: Db, r: Run): Db
    requires Answers(c, db, r)
  {
    if r.progress == NotStarted then db
    else
      var db1 := InitCheckpoint(c, db);
      var current := db1.checkpoint.value;
      if r.progress == Initialised then db1
      else
        var db2 := InsertBlocks(db1, Responses(current, r.headers));
        if r.progress == Inserted then db2
        else MoveCheckpoint(db2, current, EndBlock(c, current, r.latest))
  }

  class CrawlBlockService {
    const config: Config
    var currentBlock: int
    var blocks: seq<int>
    var checkpoint: Option<int>

    constructor (config: Config)
      ensures this.config == config && State() == Db([], None)
    {
      this.config := config;
      currentBlock, blocks, checkpoint := 0, [], None;
    }

    ghost function State(): Db
      reads this
    {
      Db(blocks, checkpoint)
    }

    method InitEnv()
      modifies this
      ensures State() == InitCheckpoint(config, old(State())) && checkpoint == Some(currentBlock)
    {
      if checkpoint.None? {
        checkpoint := Some(config.startBlock);
      }
      currentBlock := checkpoint.value;
    }

    /** The two passes over the answers: mark the stored heights, then collect the blocks to insert. */
    static method CollectNew(blocks: seq<int>, listBlock: seq<Option<int>>) returns (model: seq<int>)
      ensures model == NewBlocks(blocks, listBlock)
    {
      var existed: set<int> := {};
      var i := 0;
      while i < |listBlock|
        invariant 0 <= i <= |listBlock|
        invariant forall k :: 0 <= k < i && listBlock[k].Some? && listBlock[k].value in blocks ==> listBlock[k].value in existed
        invariant forall h :: h in existed ==> h in blocks
      {
        if listBlock[i].Some? && listBlock[i].value in blocks {
          existed := existed + {listBlock[i].value};
        }
        i := i + 1;
      }
      model := [];
      i := 0;
      assert listBlock[0..] == listBlock;
      while i < |listBlock|
        invariant 0 <= i <= |listBlock|
        invariant NewBlocks(blocks, listBlock) == model + NewBlocks(blocks, listBlock[i..])
      {
        assert listBlock[i..][0] == listBlock[i] && listBlock[i..][1..] == listBlock[i + 1..];
        ghost var rest := NewBlocks(blocks, listBlock[i + 1..]);
        if listBlock[i].Some? && listBlock[i].value !in existed {
          var h := listBlock[i].value;
          assert model + ([h] + rest) == (model + [h]) + rest;
          model := model + [h];
        } else {
          assert [] + rest == rest;
        }
        i := i + 1;
      }
    }

    method HandleListBlock(listBlock: seq<Option<int>>)
      modifies this`blocks
      ensures State() == InsertBlocks(old(State()), listBlock)
    {
      var listBlockModel := CollectNew(blocks, listBlock);
      blocks := blocks + listBlockModel;
    }

    /** A run that gets through to the end. */
    method JobHandler(latest: int, headers: seq<bool>)
      requires Answers(config, State(), Run(latest, headers, Completed))
      modifies this
      ensures State() == After(config, old(State()), Run(latest, headers, Completed))
      ensures var from := if old(checkpoint).Some? then old(checkpoint).value else config.startBlock;
              && checkpoint == Some(currentBlock)
              && currentBlock == if latest <= from then from
                                 else if latest < from + config.blocksPerCall then latest
                                 else from + config.blocksPerCall
    {
      InitEnv();
      var startBlock := currentBlock + 1;
      var endBlock := startBlock + config.blocksPerCall - 1;
      if endBlock > latest {
        endBlock := latest;
      }
      HandleListBlock(Responses(currentBlock, headers));
      if currentBlock < endBlock {
        checkpoint := Some(endBlock);
        currentBlock := endBlock;
      }
    }
  }

  // ----- stored heights are contiguous -----

  /** The heights `from + 1, from + 2, ..., to`. */
  function Heights(from: int, to: int): (r: seq<int>)
    requires from <= to
    ensures |r| == to - from
  {
    seq(to - from, i requires 0 <= i < to - from => from + 1 + i)
  }

  /**
   The stored heights are `startBlock + 1 .. m` in order, without gap or repetition, and `m` is between the
   checkpoint and one call past it.
   */
  ghost predicate Inv(c: Config, db: Db)
  {
    var m := c.startBlock + |db.blocks|;
    && db.blocks == Heights(c.startBlock, m)
    && match db.checkpoint
       case None => db.blocks == []
       case Some(cp) => c.startBlock <= cp <= m <= cp + c.blocksPerCall
  }

  /** The answers all carry a header, except perhaps for heights that are stored already. */
  ghost predicate HeadersComplete(c: Config, db: Db, r: Run)
  {
    var current := InitCheckpoint(c, db).checkpoint.value;
    forall k :: 0 <= k < |r.headers| && current + 1 + k > c.startBlock + |db.blocks| ==> r.headers[k]
  }

  lemma InHeights(from: int, to: int, h: int)
    requires from <= to
    ensures h in Heights(from, to) <==> from < h <= to
  {
    if from < h <= to {
      assert Heights(from, to)[h - from - 1] == h;
    }
  }

  lemma HeightsCons(from: int, to: int)
    requires from < to
    ensures Heights(from, to) == [from + 1] + Heights(from + 1, to)
  {
  }

  /** What a range of answers adds to a contiguous store. */
  lemma {:induction false} NewBlocksContiguous(start: int, m: int, current: int, headers: seq<bool>)
    requires start <= current && start <= m
    requires forall k :: 0 <= k < |headers| && current + 1 + k > m ==> headers[k]
    ensures var end := current + |headers|;
            var from := if current > m then current else m;
            NewBlocks(Heights(start, m), Responses(current, headers)) == Heights(from, if end > from then end else from)
    decreases |headers|
  {
    if headers != [] {
      assert Responses(current, headers)[1..] == Responses(current + 1, headers[1..]);
      assert forall k :: 0 <= k < |headers[1..]| ==> headers[1..][k] == headers[k + 1];
      NewBlocksContiguous(start, m, current + 1, headers[1..]);
      InHeights(start, m, current + 1);
      if current + 1 > m {
        HeightsCons(current, current + |headers|);
      }
    }
  }

  /** A missing header of a new height leaves fewer blocks than heights asked for. */
  lemma {:induction false} NewBlocksFewer(start: int, m: int, current: int, headers: seq<bool>)
    requires start <= current && start <= m
    ensures var end := current + |headers|;
            var from := if current > m then current else m;
            var n := |NewBlocks(Heights(start, m), Responses(current, headers))|;
            && n <= (if end > from then end - from else 0)
            && ((exists k :: 0 <= k < |headers| && current + 1 + k > m && !headers[k]) ==> n < end - from)
    decreases |headers|
  {
    if headers != [] {
      assert Responses(current, headers)[1..] == Responses(current + 1, headers[1..]);
      NewBlocksFewer(start, m, current + 1, headers[1..]);
      InHeights(start, m, current + 1);
      if exists k :: 0 <= k < |headers| && current + 1 + k > m && !headers[k] {
        var k :| 0 <= k < |headers| && current + 1 + k > m && !headers[k];
        if k > 0 {
          assert headers[1..][k - 1] == headers[k];
          assert (current + 1) + 1 + (k - 1) > m;
        }
      }
    }
  }

  lemma InsertKeepsInv(c: Config, db: Db, r: Run)
    requires Inv(c, db) && db.checkpoint.Some? && Answers(c, db, r) && HeadersComplete(c, db, r)
    ensures var db1 := InsertBlocks(db, Responses(db.checkpoint.value, r.headers));
            && Inv(c, db1)
            && (EndBlock(c, db.checkpoint.value, r.latest) <= db.checkpoint.value
                || EndBlock(c, db.checkpoint.value, r.latest) <= c.startBlock + |db1.blocks|)
  {
    var current := db.checkpoint.value;
    var m := c.startBlock + |db.blocks|;
    NewBlocksContiguous(c.startBlock, m, current, r.headers);
    var end := current + |r.headers|;
    var m' := if end > m then end else m;
    assert Heights(c.startBlock, m) + Heights(m, m') == Heights(c.startBlock, m');
  }

  /** A run keeps the invariant wherever the process dies, provided the node answers with headers. */
  lemma RunKeepsInv(c: Config, db: Db, r: Run)
    requires Inv(c, db) && Answers(c, db, r) && HeadersComplete(c, db, r)
    ensures Inv(c, After(c, db, r))
  {
    InsertKeepsInv(c, InitCheckpoint(c, db), r);
  }

  /** For a run that completes, that proviso is exact: without the header of some new height the store gets a gap. */
  lemma CompletedRunContiguousIff(c: Config, db: Db, r: Run)
    requires Inv(c, db) && Answers(c, db, r) && r.progress == Completed
    ensures Inv(c, After(c, db, r)) <==> HeadersComplete(c, db, r)
  {
    if HeadersComplete(c, db, r) {
      RunKeepsInv(c, db, r);
    } else {
      var current := InitCheckpoint(c, db).checkpoint.value;
      var m := c.startBlock + |db.blocks|;
      NewBlocksFewer(c.startBlock, m, current, r.headers);
      var k :| 0 <= k < |r.headers| && current + 1 + k > m && !r.headers[k];
      assert After(c, db, r).checkpoint == Some(EndBlock(c, current, r.latest));
    }
  }

  // ----- any number of runs -----

  ghost predicate IsRun(c: Config, db: Db, runs: seq<Run>)
    decreases |runs|
  {
    runs != [] ==> Answers(c, db, runs[0]) && IsRun(c, After(c, db, runs[0]), runs[1..])
  }

  /** The node answers every new height with a header. */
  ghost predicate AllAnswered(c: Config, db: Db, runs: seq<Run>)
    requires IsRun(c, db, runs)
    decreases |runs|
  {
    runs != [] ==> HeadersComplete(c, db, runs[0]) && AllAnswered(c, After(c, db, runs[0]), runs[1..])
  }

  ghost function AfterAll(c: Config, db: Db, runs: seq<Run>): Db
    requires IsRun(c, db, runs)
    decreases |runs|
  {
    if runs == [] then db else AfterAll(c, After(c, db, runs[0]), runs[1..])
  }

  lemma {:induction false} RunsKeepInv(c: Config, db: Db, runs: seq<Run>)
    requires Inv(c, db) && IsRun(c, db, runs) && AllAnswered(c, db, runs)
    ensures Inv(c, AfterAll(c, db, runs))
    decreases |runs|
  {
    if runs != [] {
      RunKeepsInv(c, db, runs[0]);
      RunsKeepInv(c, After(c, db, runs[0]), runs[1..]);
    }
  }

  /**
   From an empty database, after any runs and crashes, the stored heights are one contiguous stretch above the start
   block that ends between the checkpoint and one call past it, and no height was inserted twice.
   */
  lemma StoredHeightsContiguous(c: Config, runs: seq<Run>)
    requires IsRun(c, Db([], None), runs) && AllAnswered(c, Db([], None), runs)
    ensures var db := AfterAll(c, Db([], None), runs);
            var m := c.startBlock + |db.blocks|;
            && (forall h :: h in db.blocks <==> c.startBlock < h <= m)
            && (forall i, j :: 0 <= i < j < |db.blocks| ==> db.blocks[i] < db.blocks[j])
            && (db.checkpoint.Some? ==> db.checkpoint.value <= m <= db.checkpoint.value + c.blocksPerCall)
  {
    RunsKeepInv(c, Db([], None), runs);
    var db := AfterAll(c, Db([], None), runs);
    var m := c.startBlock + |db.blocks|;
    forall h ensures h in db.blocks <==> c.startBlock < h <= m { InHeights(c.startBlock, m, h); }
  }

  // ----- what a missing header does -----

  /** A block is inserted only for an answer with a header. */
  lemma {:induction false} NewBlocksFrom(stored: seq<int>, current: int, headers: seq<bool>, h: int)
    requires h in NewBlocks(stored, Responses(current, headers))
    ensures current < h <= current + |headers| && headers[h - current - 1]
    decreases |headers|
  {
    if headers != [] {
      assert Responses(current, headers)[1..] == Responses(current + 1, headers[1..]);
      if h != current + 1 || !headers[0] {
        NewBlocksFrom(stored, current + 1, headers[1..], h);
      }
    }
  }

  /** A height at or below the checkpoint that is not stored stays out of the store, whatever runs follow. */
  lemma {:induction false} GapStays(c: Config, db: Db, runs: seq<Run>, h: int)
    requires IsRun(c, db, runs) && db.checkpoint.Some? && h <= db.checkpoint.value && h !in db.blocks
    ensures h !in AfterAll(c, db, runs).blocks
    decreases |runs|
  {
    if runs != [] {
      var current := db.checkpoint.value;
      if h in NewBlocks(db.blocks, Responses(current, runs[0].headers)) {
        NewBlocksFrom(db.blocks, current, runs[0].headers, h);
      }
      GapStays(c, After(c, db, runs[0]), runs[1..], h);
    }
  }

  /** A new height that a completed run got no header for is never stored, by that run or by any later one. */
  lemma MissingHeaderStays(c: Config, db: Db, r: Run, k: nat, runs: seq<Run>)
    requires Answers(c, db, r) && r.progress == Completed && k < |r.headers| && !r.headers[k]
    requires InitCheckpoint(c, db).checkpoint.value + 1 + k !in db.blocks
    requires IsRun(c, After(c, db, r), runs)
    ensures InitCheckpoint(c, db).checkpoint.value + 1 + k !in AfterAll(c, After(c, db, r), runs).blocks
  {
    var current := InitCheckpoint(c, db).checkpoint.value;
    var h := current + 1 + k;
    if h in NewBlocks(db.blocks, Responses(current, r.headers)) {
      NewBlocksFrom(db.blocks, current, r.headers, h);
    }
    GapStays(c, After(c, db, r), runs, h);
  }

  lemma ExampleBlocks()
    ensures NewBlocks([], Responses(0, [true, false, true])) == [1, 3]
  {
    var list := [Some(1), None, Some(3)];
    assert Responses(0, [true, false, true]) == list;
    assert list[1..] == [None, Some(3)] && [None, Some(3)][1..] == [Some(3)] && [Some(3)][1..] == [];
    assert NewBlocks([], [Some(3)]) == [3];
    assert NewBlocks([], [None, Some(3)]) == [3];
  }

  /** Blocks 1 to 3 are asked for and block 2 comes without a header: 1 and 3 are stored, and 2 never is. */
  lemma {:induction false} MissingHeaderExample(runs: seq<Run>)
    requires IsRun(Config(0, 10), Db([1, 3], Some(3)), runs)
    ensures var c, r := Config(0, 10), Run(3, [true, false, true], Completed);
            && Answers(c, Db([], None), r) && After(c, Db([], None), r) == Db([1, 3], Some(3))
            && 2 !in AfterAll(c, Db([1, 3], Some(3)), runs).blocks
  {
    ExampleBlocks();
    assert [] + [1, 3] == [1, 3];
    GapStays(Config(0, 10), Db([1, 3], Some(3)), runs, 2);
  }

  // ----- the crawler arrives -----

  /** Every run completes and sees the network at `latest`. */
  predicate AllCompleted(runs: seq<Run>, latest: int)
  {
    forall i :: 0 <= i < |runs| ==> runs[i].progress == Completed && runs[i].latest == latest
  }

  /** How far `n` calls get from `from` when the network stands at `latest`. */
  function Reached(c: Config, from: int, n: nat, latest: int): int
  {
    if latest <= from then from else if latest < from + n * c.blocksPerCall then latest else from + n * c.blocksPerCall
  }

  lemma ReachedNext(c: Config, from: int, n: nat, latest: int)
    requires n > 0
    ensures Reached(c, Reached(c, from, 1, latest), n - 1, latest) == Reached(c, from, n, latest)
  {
    var k := c.blocksPerCall;
    assert n * k == k + (n - 1) * k;
    assert (n - 1) * k >= 0;
  }

  lemma RunReaches(c: Config, db: Db, r: Run)
    requires Answers(c, db, r) && r.progress == Completed
    ensures After(c, db, r).checkpoint
            == Some(Reached(c, if db.checkpoint.Some? then db.checkpoint.value else c.startBlock, 1, r.latest))
  {
  }

  /** While the network stands at `latest`, each completed run moves the checkpoint one call up, or to `latest` if that is nearer. */
  lemma {:induction false} RunsReach(c: Config, db: Db, runs: seq<Run>, latest: int)
    requires IsRun(c, db, runs) && AllCompleted(runs, latest) && runs != []
    ensures AfterAll(c, db, runs).checkpoint
            == Some(Reached(c, if db.checkpoint.Some? then db.checkpoint.value else c.startBlock, |runs|, latest))
    decreases |runs|
  {
    var db1 := After(c, db, runs[0]);
    RunReaches(c, db, runs[0]);
    if |runs| == 1 {
      assert AfterAll(c, db1, runs[1..]) == db1;
    } else {
      RunsReach(c, db1, runs[1..], latest);
      ReachedNext(c, if db.checkpoint.Some? then db.checkpoint.value else c.startBlock, |runs|, latest);
    }
  }
}
