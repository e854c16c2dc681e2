/** Two runs of the ERC20 jobs in which an activity is missed: a contract row that comes late, and one that is untracked. */
module PipelineExamples {
  import opened Wrappers
  import opened SortBy
  import opened HeightLog
  import opened Checkpoint
  import opened Erc20
  import opened Pipeline

  const Crawl: Job := "crawl"
  const Proxy: Job := "proxy"
  const ContractJob: Job := "contract"
  const ActivityJob: Job := "activity"
  const BalanceJob: Job := "balance"

  /** The three jobs with their dependencies; the crawler and the proxy job are roots here. */
  const Jobs: Config := Config(1,
    map[ContractJob := JobSpec([Crawl], Some(100), NoGuard),
        ActivityJob := JobSpec([ContractJob, Proxy], Some(100), NoGuard),
        BalanceJob := JobSpec([ActivityJob], Some(100), NoGuard)],
    {Crawl, Proxy})

  const Mint: Activity := Activity(Transfer, "token", ZERO_ADDRESS, "holder", 0, 1, 5, 4, 1)

  const Holder: Erc20.Key := (1, "token")

  /** A mint at height 4 of a token created at height 2, from an EVM event or from a Cosmos event. */
  function Example(evm: bool): Setup
  {
    Setup(Jobs, ContractJob, ActivityJob, BalanceJob, [Mint], if evm then {Mint} else {},
          if evm then map["token" := 2] else map[], map[], map[0 := ZERO_ADDRESS, 1 := "holder"], Ledger(map[], map[]), {})
  }

  const R10: Range := Range(1, 10)

  lemma NamesDiffer()
    ensures Crawl != Proxy && Crawl != ContractJob && Crawl != ActivityJob && Crawl != BalanceJob
    ensures Proxy != ContractJob && Proxy != ActivityJob && Proxy != BalanceJob
    ensures ContractJob != ActivityJob && ContractJob != BalanceJob && ActivityJob != BalanceJob
  {
    assert Crawl[0] == 'c' && Proxy[0] == 'p' && ActivityJob[0] == 'a' && BalanceJob[0] == 'b' && ContractJob[0] == 'c';
    assert |Crawl| == 5 && |ContractJob| == 8;
  }

  lemma ExampleValid(evm: bool)
    ensures Example(evm).Valid()
  {
    NamesDiffer();
  }

  lemma MintFacts()
    ensures InRange([Mint], R10) == [Mint] && Net([Mint], Holder) == 5 && Net([], Holder) == 0
    ensures Between([Mint], ActivityHeight, 1, 10) == [Mint]
  {
    BetweenOne(Mint, ActivityHeight, 1, 10);
    assert [Mint][1..] == [];
    assert |ZERO_ADDRESS| == 42 && |"holder"| == 6;
  }

  lemma CutOne(p: Activity -> bool)
    ensures Cut([Mint], p) == if p(Mint) then Split([Mint], []) else Split([], [Mint])
    ensures Cut([], p) == Nothing
  {
    SelectOne(Mint, p);
    SelectOne(Mint, (a: Activity) => !p(a));
  }

  /** A world of the example: nothing is ever applied in it. */
  function State(rows: Checkpoint.Rows, pending: map<Job, Range>, committed: map<Job, seq<Range>>, built: Split, table: Split,
                 batch: Split, applied: Split, contracts: map<Address, Contract>, tracked: set<Address>,
                 base: map<Address, Inserted>): World
  {
    World(System(rows, pending, committed), built, table, batch, applied, Ledger(map[], contracts), tracked, base)
  }

  lemma GrowMove(evm: bool, w: World, root: Job, rows: Checkpoint.Rows)
    requires root in {Crawl, Proxy} && root !in w.sys.rows && rows == w.sys.rows[root := 10]
    ensures CanMove(Example(evm), w, Take(Grow(root, 10)))
    ensures After(Example(evm), w, Take(Grow(root, 10))) == w.(sys := w.sys.(rows := rows))
  {
    NamesDiffer();
  }

  /** A job that reads `(1, 10]`. */
  lemma ReadTen(j: Job, rows: Checkpoint.Rows)
    requires j in Jobs.jobs && j !in rows
    requires (exists d :: d in Jobs.jobs[j].deps && d in rows) && forall d :: d in Jobs.jobs[j].deps && d in rows ==> rows[d] == 10
    ensures ReadRange(rows, 1, j, Jobs.jobs[j]) == R10
  {
  }

  lemma InsertNone(w: World, rows: map<Address, Contract>)
    requires rows.Keys == {}
    ensures Insert(w, rows) == w
  {
    assert Insert(w, rows).ledger.contracts == w.ledger.contracts;
    assert Insert(w, rows).base == w.base;
  }

  // The contract job's row is missing, and the activity job goes by the proxy job alone.

  const Dropped: Split := Split([], [Mint])

  const M1: World := State(map[Proxy := 10], map[], map[], Nothing, Nothing, Nothing, Nothing, map[], {}, map[])
  const M2: World := State(map[Proxy := 10], map[ActivityJob := R10], map[], Dropped, Nothing, Nothing, Nothing, map[], {}, map[])
  const M3: World :=
    State(map[Proxy := 10, ActivityJob := 10], map[], map[ActivityJob := [R10]], Dropped, Dropped, Nothing, Nothing, map[], {}, map[])
  const M4: World := M3.(sys := M3.sys.(rows := map[Proxy := 10, ActivityJob := 10, Crawl := 10]))
  const M5: World := M4.(sys := M4.sys.(pending := map[ContractJob := R10]))
  const Token: map<Address, Contract> := map["token" := Contract(None, 2)]
  const M6: World :=
    State(map[Proxy := 10, ActivityJob := 10, Crawl := 10, ContractJob := 10], map[],
          map[ActivityJob := [R10], ContractJob := [R10]], Dropped, Dropped, Nothing, Nothing, Token, {"token"},
          map["token" := Inserted(Contract(None, 2), 0)])
  const M7: World := M6.(sys := M6.sys.(pending := map[BalanceJob := R10]))

  lemma MissingBegin()
    ensures CanMove(Example(true), Begin(Example(true)), Take(Grow(Proxy, 10)))
    ensures After(Example(true), Begin(Example(true)), Take(Grow(Proxy, 10))) == M1
  {
    GrowMove(true, Begin(Example(true)), Proxy, map[Proxy := 10]);
    assert Begin(Example(true)).base == map[];
    assert M1.base == map[];
  }

  /** The join finds no contract, so the mint is dropped. */
  lemma MissingRead()
    ensures CanMove(Example(true), M1, Take(Read(ActivityJob))) && After(Example(true), M1, Take(Read(ActivityJob))) == M2
  {
    NamesDiffer();
    assert Proxy in Jobs.jobs[ActivityJob].deps && ContractJob !in M1.sys.rows;
    ReadTen(ActivityJob, M1.sys.rows);
    MintFacts();
    CutOne(IsListed(Example(true), M1.ledger.contracts.Keys));
    assert map[][ActivityJob := R10] == map[ActivityJob := R10];
  }

  lemma MissingCommit()
    ensures CanMove(Example(true), M2, Take(Commit(ActivityJob))) && After(Example(true), M2, Take(Commit(ActivityJob))) == M3
  {
    NamesDiffer();
    CommitActivityIs(Example(true), M2);
    InsertNone(M2, MissingIn(Example(true), [], M2.ledger.contracts.Keys));
    assert CommittedBy(M2.sys, ActivityJob) + [R10] == [R10];
    assert Checkpoint.Apply(Jobs, M2.sys, Commit(ActivityJob)) == M3.sys;
    assert Append(Nothing, Dropped) == Dropped;
  }

  lemma MissingGrow()
    ensures CanMove(Example(true), M3, Take(Grow(Crawl, 10))) && After(Example(true), M3, Take(Grow(Crawl, 10))) == M4
  {
    NamesDiffer();
    GrowMove(true, M3, Crawl, map[Proxy := 10, ActivityJob := 10, Crawl := 10]);
  }

  lemma MissingReadContract()
    ensures CanMove(Example(true), M4, Take(Read(ContractJob))) && After(Example(true), M4, Take(Read(ContractJob))) == M5
  {
    NamesDiffer();
    assert Crawl in Jobs.jobs[ContractJob].deps;
    ReadTen(ContractJob, M4.sys.rows);
    assert map[][ContractJob := R10] == map[ContractJob := R10];
  }

  /** Now the contract is listed and tracked, too late for the mint. */
  lemma MissingCommitContract()
    ensures CanMove(Example(true), M5, Take(Commit(ContractJob))) && After(Example(true), M5, Take(Commit(ContractJob))) == M6
  {
    NamesDiffer();
    CommitContractIs(Example(true), M5);
    TokenRow();
    assert CommittedBy(M5.sys, ContractJob) + [R10] == [R10];
    assert Checkpoint.Apply(Jobs, M5.sys, Commit(ContractJob)) == M6.sys;
  }

  lemma TokenRow()
    ensures CreatedIn(Example(true), R10) == Token && M5.tracked + Token.Keys == M6.tracked
    ensures Insert(M5, Token).ledger == M6.ledger && Insert(M5, Token).base == M6.base
  {
    assert Example(true).Row("token", 2) == Contract(None, 2);
    assert Insert(M5, Token).ledger.contracts == Token;
  }

  lemma MissingReadBalance()
    ensures CanMove(Example(true), M6, Take(Read(BalanceJob))) && After(Example(true), M6, Take(Read(BalanceJob))) == M7
  {
    NamesDiffer();
    assert ActivityJob in Jobs.jobs[BalanceJob].deps;
    ReadTen(BalanceJob, M6.sys.rows);
    CutOne(IsTracked(M6.tracked));
    assert InRange([], R10) == [];
    assert map[][BalanceJob := R10] == map[BalanceJob := R10];
  }

  lemma MissingCommitBalance() returns (w: World)
    ensures CanMove(Example(true), M7, Take(Commit(BalanceJob))) && After(Example(true), M7, Take(Commit(BalanceJob))) == w
    ensures w.ledger == M7.ledger && w.table == Dropped && w.tracked == {"token"} && At(Example(true), w, BalanceJob) == 10
  {
    NamesDiffer();
    CommitBalanceIs(Example(true), M7);
    BatchRefinesFold(M7.ledger, Example(true).accounts, []);
    w := After(Example(true), M7, Take(Commit(BalanceJob)));
  }

  lemma RunCons(u: Setup, w: World, m: Move, rest: seq<Move>)
    requires CanMove(u, w, m) && IsRun(u, After(u, w, m), rest)
    ensures IsRun(u, w, [m] + rest) && Run(u, w, [m] + rest) == Run(u, After(u, w, m), rest)
    ensures ReadyMove(u, w, m) && ReadyRun(u, After(u, w, m), rest) ==> ReadyRun(u, w, [m] + rest)
  {
    assert ([m] + rest)[1..] == rest;
  }

  lemma MissingTail() returns (moves: seq<Move>, w: World)
    ensures IsRun(Example(true), M4, moves) && Run(Example(true), M4, moves) == w
    ensures w.ledger == M7.ledger && w.table == Dropped && w.tracked == {"token"} && At(Example(true), w, BalanceJob) == 10
  {
    var u := Example(true);
    w := MissingCommitBalance();
    RunCons(u, M7, Take(Commit(BalanceJob)), []);
    moves := [Take(Commit(BalanceJob))] + [];
    MissingReadBalance();
    RunCons(u, M6, Take(Read(BalanceJob)), moves);
    moves := [Take(Read(BalanceJob))] + moves;
    MissingCommitContract();
    RunCons(u, M5, Take(Commit(ContractJob)), moves);
    moves := [Take(Commit(ContractJob))] + moves;
    MissingReadContract();
    RunCons(u, M4, Take(Read(ContractJob)), moves);
    moves := [Take(Read(ContractJob))] + moves;
  }

  /**
   While the contract job's row is missing, the activity job passes height 10, and the join drops the mint at height 4
   because its contract is not listed yet. The contract is listed and tracked later, but the mint is never applied by the
   time the balance job has passed it.
   */
  lemma MissingRowLosesActivity() returns (moves: seq<Move>)
    ensures Example(true).Valid() && IsRun(Example(true), Begin(Example(true)), moves)
    ensures var u, w := Example(true), Run(Example(true), Begin(Example(true)), moves);
            && "token" in w.tracked && w.table == Dropped && UpTo(u, w, u.log, BalanceJob) == [Mint]
            && AmountAt(w.ledger, Holder) == 0 && AmountAt(u.db, Holder) + Net(UpTo(u, w, u.log, BalanceJob), Holder) == 5
  {
    var u := Example(true);
    ExampleValid(true);
    MintFacts();
    var w;
    moves, w := MissingTail();
    MissingGrow();
    RunCons(u, M3, Take(Grow(Crawl, 10)), moves);
    moves := [Take(Grow(Crawl, 10))] + moves;
    MissingCommit();
    RunCons(u, M2, Take(Commit(ActivityJob)), moves);
    moves := [Take(Commit(ActivityJob))] + moves;
    MissingRead();
    RunCons(u, M1, Take(Read(ActivityJob)), moves);
    moves := [Take(Read(ActivityJob))] + moves;
    MissingBegin();
    RunCons(u, Begin(u), Take(Grow(Proxy, 10)), moves);
    moves := [Take(Grow(Proxy, 10))] + moves;
  }

  // All jobs are ready, but the contract of a Cosmos event is listed untracked.

  const Kept: Split := Split([Mint], [])

  const C1: World := State(map[Crawl := 10], map[], map[], Nothing, Nothing, Nothing, Nothing, map[], {}, map[])
  const C2: World := C1.(sys := C1.sys.(pending := map[ContractJob := R10]))
  const C3: World :=
    State(map[Crawl := 10, ContractJob := 10], map[], map[ContractJob := [R10]], Nothing, Nothing, Nothing, Nothing, map[], {}, map[])
  const C4: World := C3.(sys := C3.sys.(rows := map[Crawl := 10, ContractJob := 10, Proxy := 10]))
  const C5: World := C4.(sys := C4.sys.(pending := map[ActivityJob := R10]), built := Kept)
  const Unknown: map<Address, Contract> := map["token" := Contract(None, -1)]
  const C6: World :=
    State(map[Crawl := 10, ContractJob := 10, Proxy := 10, ActivityJob := 10], map[],
          map[ContractJob := [R10], ActivityJob := [R10]], Kept, Kept, Nothing, Nothing, Unknown, {},
          map["token" := Inserted(Contract(None, -1), 0)])
  const C7: World := C6.(sys := C6.sys.(pending := map[BalanceJob := R10]), batch := Dropped)

  lemma ReadyTen(w: World, j: Job)
    requires j in Jobs.jobs && Jobs.jobs[j].deps != [] && forall d :: d in Jobs.jobs[j].deps ==> d in w.sys.rows
    ensures ReadyMove(Example(false), w, Take(Read(j)))
  {
    assert Jobs.jobs[j].deps[0] in Jobs.jobs[j].deps;
  }

  lemma CosmosBegin()
    ensures CanMove(Example(false), Begin(Example(false)), Take(Grow(Crawl, 10)))
    ensures After(Example(false), Begin(Example(false)), Take(Grow(Crawl, 10))) == C1
  {
    GrowMove(false, Begin(Example(false)), Crawl, map[Crawl := 10]);
    assert Begin(Example(false)).base == map[];
    assert C1.base == map[];
  }

  lemma CosmosReadContract()
    ensures CanMove(Example(false), C1, Take(Read(ContractJob))) && After(Example(false), C1, Take(Read(ContractJob))) == C2
    ensures ReadyMove(Example(false), C1, Take(Read(ContractJob)))
  {
    NamesDiffer();
    assert Crawl in Jobs.jobs[ContractJob].deps;
    ReadTen(ContractJob, C1.sys.rows);
    ReadyTen(C1, ContractJob);
    assert map[][ContractJob := R10] == map[ContractJob := R10];
  }

  lemma CosmosCommitContract()
    ensures CanMove(Example(false), C2, Take(Commit(ContractJob))) && After(Example(false), C2, Take(Commit(ContractJob))) == C3
  {
    NamesDiffer();
    CommitContractIs(Example(false), C2);
    InsertNone(C2, CreatedIn(Example(false), R10));
    assert CommittedBy(C2.sys, ContractJob) + [R10] == [R10];
    assert Checkpoint.Apply(Jobs, C2.sys, Commit(ContractJob)) == C3.sys;
  }

  lemma CosmosGrow()
    ensures CanMove(Example(false), C3, Take(Grow(Proxy, 10))) && After(Example(false), C3, Take(Grow(Proxy, 10))) == C4
  {
    NamesDiffer();
    GrowMove(false, C3, Proxy, map[Crawl := 10, ContractJob := 10, Proxy := 10]);
  }

  lemma CosmosRead()
    ensures CanMove(Example(false), C4, Take(Read(ActivityJob))) && After(Example(false), C4, Take(Read(ActivityJob))) == C5
    ensures ReadyMove(Example(false), C4, Take(Read(ActivityJob)))
  {
    NamesDiffer();
    assert Proxy in Jobs.jobs[ActivityJob].deps;
    ReadTen(ActivityJob, C4.sys.rows);
    ReadyTen(C4, ActivityJob);
    MintFacts();
    CutOne(IsListed(Example(false), C4.ledger.contracts.Keys));
    assert map[][ActivityJob := R10] == map[ActivityJob := R10];
  }

  lemma CosmosSys()
    ensures Checkpoint.Enabled(Jobs, C5.sys, Commit(ActivityJob)) && Checkpoint.Apply(Jobs, C5.sys, Commit(ActivityJob)) == C6.sys
  {
    NamesDiffer();
    assert CommittedBy(C5.sys, ActivityJob) + [R10] == [R10];
    assert C5.sys.pending - {ActivityJob} == map[];
  }

  lemma CosmosInsert()
    ensures CommitActivity(Example(false), C5) == C6.(sys := C5.sys)
  {
    UnknownRow();
    assert Append(Nothing, Kept) == Kept;
  }

  /** The mint is kept, and its contract is listed without being tracked. */
  lemma CosmosCommit()
    ensures CanMove(Example(false), C5, Take(Commit(ActivityJob))) && After(Example(false), C5, Take(Commit(ActivityJob))) == C6
  {
    CosmosSys();
    assert ActivityJob != ContractJob by { NamesDiffer(); }
    CommitActivityIs(Example(false), C5);
    CosmosInsert();
  }

  lemma UnknownRow()
    ensures MissingIn(Example(false), [Mint], {}) == Unknown
    ensures Insert(C5, Unknown).ledger == C6.ledger && Insert(C5, Unknown).base == C6.base
  {
    assert (set a | a in [Mint] :: a.contract) == {"token"};
    assert Example(false).Row("token", -1) == Contract(None, -1);
    assert Insert(C5, Unknown).ledger.contracts == Unknown;
  }

  lemma CosmosReadBalance()
    ensures CanMove(Example(false), C6, Take(Read(BalanceJob))) && After(Example(false), C6, Take(Read(BalanceJob))) == C7
    ensures ReadyMove(Example(false), C6, Take(Read(BalanceJob)))
  {
    NamesDiffer();
    assert ActivityJob in Jobs.jobs[BalanceJob].deps;
    ReadTen(BalanceJob, C6.sys.rows);
    ReadyTen(C6, BalanceJob);
    MintFacts();
    CutOne(IsTracked(C6.tracked));
    assert map[][BalanceJob := R10] == map[BalanceJob := R10];
  }

  lemma CosmosCommitBalance() returns (w: World)
    ensures CanMove(Example(false), C7, Take(Commit(BalanceJob))) && After(Example(false), C7, Take(Commit(BalanceJob))) == w
    ensures w.ledger == C7.ledger && w.applied == Dropped && w.table == Kept && At(Example(false), w, BalanceJob) == 10
  {
    NamesDiffer();
    CommitBalanceIs(Example(false), C7);
    BatchRefinesFold(C7.ledger, Example(false).accounts, []);
    w := After(Example(false), C7, Take(Commit(BalanceJob)));
  }

  lemma CosmosTail() returns (moves: seq<Move>, w: World)
    ensures IsRun(Example(false), C4, moves) && ReadyRun(Example(false), C4, moves) && Run(Example(false), C4, moves) == w
    ensures w.ledger == C7.ledger && w.applied == Dropped && w.table == Kept && At(Example(false), w, BalanceJob) == 10
  {
    var u := Example(false);
    w := CosmosCommitBalance();
    RunCons(u, C7, Take(Commit(BalanceJob)), []);
    moves := [Take(Commit(BalanceJob))] + [];
    CosmosReadBalance();
    RunCons(u, C6, Take(Read(BalanceJob)), moves);
    moves := [Take(Read(BalanceJob))] + moves;
    CosmosCommit();
    RunCons(u, C5, Take(Commit(ActivityJob)), moves);
    moves := [Take(Commit(ActivityJob))] + moves;
    CosmosRead();
    RunCons(u, C4, Take(Read(ActivityJob)), moves);
    moves := [Take(Read(ActivityJob))] + moves;
  }

  /**
   A run of ready jobs in which a mint is in the activity table, but its contract is untracked when the balance job reads
   the range: the job passes it, and the balance is 0 instead of 5.
   */
  lemma UntrackedIsMissed() returns (moves: seq<Move>)
    ensures Example(false).Valid()
    ensures IsRun(Example(false), Begin(Example(false)), moves) && ReadyRun(Example(false), Begin(Example(false)), moves)
    ensures var u, w := Example(false), Run(Example(false), Begin(Example(false)), moves);
            && w.table.taken == [Mint] && w.applied.left == [Mint] && UpTo(u, w, u.log, BalanceJob) == [Mint]
            && AmountAt(w.ledger, Holder) == 0 && AmountAt(u.db, Holder) + Net(UpTo(u, w, u.log, BalanceJob), Holder) == 5
  {
    var u := Example(false);
    ExampleValid(false);
    MintFacts();
    var w;
    moves, w := CosmosTail();
    CosmosGrow();
    RunCons(u, C3, Take(Grow(Proxy, 10)), moves);
    moves := [Take(Grow(Proxy, 10))] + moves;
    CosmosCommitContract();
    RunCons(u, C2, Take(Commit(ContractJob)), moves);
    moves := [Take(Commit(ContractJob))] + moves;
    CosmosReadContract();
    RunCons(u, C1, Take(Read(ContractJob)), moves);
    moves := [Take(Read(ContractJob))] + moves;
    CosmosBegin();
    RunCons(u, Begin(u), Take(Grow(Crawl, 10)), moves);
    moves := [Take(Grow(Crawl, 10))] + moves;
  }
}
