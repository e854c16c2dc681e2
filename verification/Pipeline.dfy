/**
 The checkpoint protocol and the ERC20 tables in one state. The contract job lists contracts, the activity job keeps the
 events of listed contracts, and the balance job reads the activities of tracked contracts and applies them.
 */
module Pipeline {
  import opened Wrappers
  import opened SortBy
  import opened HeightLog
  import opened Checkpoint
  import opened Erc20

  /**
   `log` holds the activities that the chain's events give rise to, `evm` those that come from EVM events, `created` the
   heights at which ERC20 contracts were created, and `supply` what the chain answers for them. `db` and `tracked` are
   the tables at the start.
   */
  datatype Setup = Setup(
    c: Config, contract: Job, activity: Job, balance: Job,
    log: seq<Activity>, evm: set<Activity>, created: map<Address, int>, supply: map<Address, int>,
    accounts: Accounts, db: Ledger, tracked: set<Address>)
  {
    ghost predicate Valid()
    {
      && c.Valid() && contract in c.jobs && activity in c.jobs && balance in c.jobs
      && contract in c.jobs[activity].deps && activity in c.jobs[balance].deps && contract != balance
      && Sorted(log, ActivityHeight) && Joined(accounts, log) && tracked <= db.contracts.Keys
    }

    function Row(address: Address, height: int): Contract
    {
      Contract(if address in supply then Some(supply[address]) else None, height)
    }
  }

  /** What a query takes and what it leaves out. */
  datatype Split = Split(taken: seq<Activity>, left: seq<Activity>)

  function Cut(s: seq<Activity>, p: Activity -> bool): Split
  {
    Split(Select(s, p), Select(s, (a: Activity) => !p(a)))
  }

  function Append(a: Split, b: Split): Split { Split(a.taken + b.taken, a.left + b.left) }

  /** A contract row as it was inserted, and how many activities had been applied by then. */
  datatype Inserted = Inserted(row: Contract, since: nat)

  /**
   `table.taken` is the activity table and `applied.taken` what the balance job has applied; `built` and `batch` are what
   the two jobs have read and not yet committed. `base` records each contract row as it was last inserted. No move reads a
   `left` part or `base`.
   */
  datatype World = World(
    sys: System, built: Split, table: Split, batch: Split, applied: Split,
    ledger: Ledger, tracked: set<Address>, base: map<Address, Inserted>)

  /**
   `Requery` is the balance job reading its range again, after it had missing accounts created. `Track` inserts or
   overwrites a contract row and tracks it, `Untrack` clears `track`, as a reindex does before it starts.
   */
  datatype Move = Take(step: Step) | Requery | Track(address: Address, row: Contract) | Untrack(address: Address)

  function InRange(s: seq<Activity>, r: Range): seq<Activity>
  {
    Between(s, ActivityHeight, r.start, r.end)
  }

  /** The inner join with the contract table, which only EVM events go through. */
  function IsListed(u: Setup, contracts: set<Address>): Activity -> bool
  {
    (a: Activity) => a in u.evm ==> a.contract in contracts
  }

  function IsTracked(tracked: set<Address>): Activity -> bool
  {
    (a: Activity) => a.contract in tracked
  }

  predicate CanMove(u: Setup, w: World, m: Move)
  {
    match m
    case Take(step) => Checkpoint.Enabled(u.c, w.sys, step)
    case Requery => u.balance in w.sys.pending
    case Track(_, _) => true
    case Untrack(_) => true
  }

  /** Inserts contract rows, over old ones with the same address. */
  function Insert(w: World, rows: map<Address, Contract>): World
  {
    w.(ledger := Ledger(w.ledger.balances, w.ledger.contracts + rows),
       base := w.base + map a | a in rows :: Inserted(rows[a], |w.applied.taken|))
  }

  /** The rows that the contract job inserts for a range. */
  function CreatedIn(u: Setup, r: Range): map<Address, Contract>
  {
    map a | a in u.created && r.start < u.created[a] <= r.end :: u.Row(a, u.created[a])
  }

  /** The untracked rows that the activity job inserts for contracts it does not know. */
  function MissingIn(u: Setup, acts: seq<Activity>, contracts: set<Address>): map<Address, Contract>
  {
    map c | c in (set a | a in acts :: a.contract) && c !in contracts :: u.Row(c, -1)
  }

  function ReadBalance(u: Setup, w: World, r: Range): World
  {
    w.(batch := Cut(InRange(w.table.taken, r), IsTracked(w.tracked)))
  }

  function CommitContract(u: Setup, w: World): World
    requires u.contract in w.sys.pending
  {
    var rows := CreatedIn(u, w.sys.pending[u.contract]);
    Insert(w, rows).(tracked := w.tracked + rows.Keys)
  }

  function CommitActivity(u: Setup, w: World): World
  {
    Insert(w, MissingIn(u, w.built.taken, w.ledger.contracts.Keys)).(table := Append(w.table, w.built))
  }

  /** The tables after a protocol step; `sys` is the protocol's own state after it. */
  function Work(u: Setup, w: World, step: Step): World
    requires Checkpoint.Enabled(u.c, w.sys, step)
  {
    var sys := Checkpoint.Apply(u.c, w.sys, step);
    if step == Read(u.activity) && u.activity in sys.pending then
      w.(sys := sys, built := Cut(InRange(u.log, sys.pending[u.activity]), IsListed(u, w.ledger.contracts.Keys)))
    else if step == Read(u.balance) && u.balance in sys.pending then
      ReadBalance(u, w, sys.pending[u.balance]).(sys := sys)
    else if step == Commit(u.contract) then CommitContract(u, w).(sys := sys)
    else if step == Commit(u.activity) then CommitActivity(u, w).(sys := sys)
    else if step == Commit(u.balance) then
      match Erc20.Batch(w.ledger, u.accounts, w.batch.taken)
      case Ok(ledger) => w.(sys := sys, ledger := ledger, applied := Append(w.applied, w.batch))
      case Err(_) => w.(sys := Checkpoint.Apply(u.c, w.sys, Abort(u.balance)))
    else w.(sys := sys)
  }

  function After(u: Setup, w: World, m: Move): World
    requires CanMove(u, w, m)
  {
    match m
    case Take(step) => Work(u, w, step)
    case Requery => ReadBalance(u, w, w.sys.pending[u.balance])
    case Track(address, row) => Insert(w, map[address := row]).(tracked := w.tracked + {address})
    case Untrack(address) => w.(tracked := w.tracked - {address})
  }

  const Nothing: Split := Split([], [])

  function Begin(u: Setup): World
  {
    World(Init, Nothing, Nothing, Nothing, Nothing, u.db, u.tracked, map a | a in u.db.contracts :: Inserted(u.db.contracts[a], 0))
  }

  /** A read is either skipped by the job's guard or made when the job is ready. */
  ghost predicate ReadyMove(u: Setup, w: World, m: Move)
  {
    m.Take? && m.step.Read? && m.step.job in u.c.jobs ==>
      var spec := u.c.jobs[m.step.job];
      || Skips(spec.guard, ReadRange(w.sys.rows, u.c.startBlock, m.step.job, spec))
      || Ready(u.c, w.sys.rows, m.step.job)
  }

  ghost predicate IsRun(u: Setup, w: World, moves: seq<Move>)
    decreases |moves|
  {
    moves == [] || (CanMove(u, w, moves[0]) && IsRun(u, After(u, w, moves[0]), moves[1..]))
  }

  ghost function Run(u: Setup, w: World, moves: seq<Move>): World
    requires IsRun(u, w, moves)
    decreases |moves|
  {
    if moves == [] then w else Run(u, After(u, w, moves[0]), moves[1..])
  }

  ghost predicate ReadyRun(u: Setup, w: World, moves: seq<Move>)
    requires IsRun(u, w, moves)
    decreases |moves|
  {
    moves == [] || (ReadyMove(u, w, moves[0]) && ReadyRun(u, After(u, w, moves[0]), moves[1..]))
  }

  function At(u: Setup, w: World, job: Job): int { HeightOf(w.sys.rows, u.c.startBlock, job) }

  /** The part of a list from the start block to a job's checkpoint. */
  function UpTo(u: Setup, w: World, s: seq<Activity>, job: Job): seq<Activity>
  {
    Between(s, ActivityHeight, u.c.startBlock, At(u, w, job))
  }

  // ----- what a query takes and leaves is everything, once -----

  ghost predicate Divides(s: Split, all: seq<Activity>)
  {
    multiset(s.taken) + multiset(s.left) == multiset(all) && Sorted(s.taken, ActivityHeight)
  }

  lemma CutDivides(all: seq<Activity>, p: Activity -> bool)
    requires Sorted(all, ActivityHeight)
    ensures Divides(Cut(all, p), all)
  {
    var s := Cut(all, p);
    forall x ensures multiset(s.taken)[x] + multiset(s.left)[x] == multiset(all)[x] {
      SelectBag(all, p, x);
      SelectBag(all, (a: Activity) => !p(a), x);
    }
    SelectSorted(all, p, ActivityHeight);
  }

  lemma DividesMembers(s: Split, all: seq<Activity>, a: Activity)
    requires Divides(s, all) && (a in s.taken || a in s.left)
    ensures a in all
  {
    assert a in multiset(s.taken) + multiset(s.left);
    assert a in multiset(all);
  }

  lemma SortedJoin(a: seq<Activity>, b: seq<Activity>, mid: int)
    requires Sorted(a, ActivityHeight) && Sorted(b, ActivityHeight)
    requires (forall x :: x in a ==> x.height <= mid) && (forall x :: x in b ==> mid < x.height)
    ensures Sorted(a + b, ActivityHeight)
  {
    forall i, j | 0 <= i < j < |a + b| ensures ActivityHeight((a + b)[i]) <= ActivityHeight((a + b)[j]) {
      if i < |a| <= j {
        assert (a + b)[i] in a && (a + b)[j] in b;
      }
    }
  }

  lemma DividesJoin(a: Split, x: seq<Activity>, b: Split, y: seq<Activity>, mid: int)
    requires Divides(a, x) && Divides(b, y)
    requires (forall e :: e in x ==> e.height <= mid) && (forall e :: e in y ==> mid < e.height)
    ensures Divides(Append(a, b), x + y)
  {
    forall e | e in a.taken ensures e.height <= mid { DividesMembers(a, x, e); }
    forall e | e in b.taken ensures mid < e.height { DividesMembers(b, y, e); }
    SortedJoin(a.taken, b.taken, mid);
    assert multiset(x + y) == multiset(x) + multiset(y);
  }

  lemma RowsHeights(s: seq<Activity>, lo: int, hi: int)
    ensures forall e :: e in Between(s, ActivityHeight, lo, hi) ==> lo < e.height <= hi && e in s
  {
    BetweenMembers(s, ActivityHeight, lo, hi);
  }

  // ----- the invariant -----

  /** The row of a contract has the supply it was inserted with, plus what was minted and less what was burned since. */
  ghost predicate SupplyRight(w: World, c: Address)
  {
    && c in w.base && c in w.ledger.contracts && w.base[c].since <= |w.applied.taken|
    && w.ledger.contracts[c].totalSupply
       == Plus(w.base[c].row.totalSupply, MintNet(w.applied.taken[w.base[c].since..], c))
  }

  ghost predicate SupplyInv(w: World)
  {
    w.ledger.contracts.Keys == w.base.Keys && forall c :: c in w.base ==> SupplyRight(w, c)
  }

  ghost predicate TablesInv(u: Setup, w: World)
  {
    && Divides(w.table, UpTo(u, w, u.log, u.activity))
    && Divides(w.applied, UpTo(u, w, w.table.taken, u.balance))
    && w.ledger.balances == FoldBalances(u.db.balances, w.applied.taken)
    && w.tracked <= w.ledger.contracts.Keys
    && SupplyInv(w)
  }

  ghost predicate PendingInv(u: Setup, w: World)
  {
    && (u.activity in w.sys.pending ==> Divides(w.built, InRange(u.log, w.sys.pending[u.activity])))
    && (u.balance in w.sys.pending ==>
          && Divides(w.batch, InRange(w.table.taken, w.sys.pending[u.balance]))
          && forall a :: a in w.batch.taken ==> a.contract in w.ledger.contracts)
  }

  ghost predicate WorldInv(u: Setup, w: World)
  {
    Inv(u.c, w.sys) && TablesInv(u, w) && PendingInv(u, w)
  }

  lemma BeginInv(u: Setup)
    requires u.Valid()
    ensures WorldInv(u, Begin(u))
  {
    BetweenEmpty(u.log, ActivityHeight, u.c.startBlock, u.c.startBlock);
  }

  lemma InOrder(u: Setup, w: World)
    requires u.Valid() && Inv(u.c, w.sys)
    ensures u.c.startBlock <= At(u, w, u.balance) <= At(u, w, u.activity) <= At(u, w, u.contract)
  {
  }

  /** The table is in height order. */
  lemma TableSorted(u: Setup, w: World)
    requires u.Valid() && TablesInv(u, w)
    ensures Sorted(w.table.taken, ActivityHeight)
    ensures forall a :: a in w.table.taken ==> a in u.log && u.c.startBlock < a.height <= At(u, w, u.activity)
  {
    RowsHeights(u.log, u.c.startBlock, At(u, w, u.activity));
    forall a | a in w.table.taken ensures a in UpTo(u, w, u.log, u.activity) {
      DividesMembers(w.table, UpTo(u, w, u.log, u.activity), a);
    }
  }

  // ----- contract rows come and go -----

  lemma InsertKeepsSupply(w: World, rows: map<Address, Contract>)
    requires SupplyInv(w)
    ensures SupplyInv(Insert(w, rows))
  {
    var w1, n := Insert(w, rows), |w.applied.taken|;
    assert w.applied.taken[n..] == [];
    forall c | c in w1.base ensures SupplyRight(w1, c) {
      if c !in rows { assert w1.base[c] == w.base[c] && SupplyRight(w, c); }
    }
  }

  /** Inserting rows and tracking some of them leaves everything else alone. */
  lemma InsertKeeps(u: Setup, w: World, rows: map<Address, Contract>, tracked: set<Address>)
    requires WorldInv(u, w) && tracked <= w.ledger.contracts.Keys + rows.Keys
    ensures WorldInv(u, Insert(w, rows).(tracked := tracked))
  {
    InsertKeepsSupply(w, rows);
    var w1 := Insert(w, rows).(tracked := tracked);
    assert w1.sys == w.sys && w1.table == w.table && w1.built == w.built && w1.batch == w.batch && w1.applied == w.applied;
    assert w.ledger.contracts.Keys <= w1.ledger.contracts.Keys;
  }

  // ----- reads -----

  lemma CutTracked(w: World, s: seq<Activity>)
    ensures forall a :: a in Cut(s, IsTracked(w.tracked)).taken ==> a.contract in w.tracked
  {
    var taken := Cut(s, IsTracked(w.tracked)).taken;
    forall a | a in taken ensures a.contract in w.tracked {
      var i :| 0 <= i < |taken| && taken[i] == a;
      var j := SelectIndex(s, IsTracked(w.tracked), i);
    }
  }

  lemma RequeryKeeps(u: Setup, w: World)
    requires u.Valid() && WorldInv(u, w) && CanMove(u, w, Requery)
    ensures WorldInv(u, After(u, w, Requery))
  {
    var r := w.sys.pending[u.balance];
    TableSorted(u, w);
    BetweenOrdered(w.table.taken, ActivityHeight, r.start, r.end, ActivityHeight);
    CutDivides(InRange(w.table.taken, r), IsTracked(w.tracked));
    CutTracked(w, InRange(w.table.taken, r));
  }

  /** The tables do not depend on a new pending range. */
  lemma SameTables(u: Setup, w: World, w1: World)
    requires TablesInv(u, w) && w1.sys.rows == w.sys.rows && w1.table == w.table && w1.applied == w.applied
    requires w1.ledger == w.ledger && w1.tracked == w.tracked && w1.base == w.base
    ensures TablesInv(u, w1)
  {
  }

  lemma ReadChanges(u: Setup, w: World, j: Job)
    requires CanMove(u, w, Take(Read(j)))
    ensures var w1, r := After(u, w, Take(Read(j))), ReadRange(w.sys.rows, u.c.startBlock, j, u.c.jobs[j]);
            && w1.sys == Checkpoint.Apply(u.c, w.sys, Read(j)) && w1.sys.rows == w.sys.rows
            && w1.table == w.table && w1.applied == w.applied && w1.ledger == w.ledger
            && w1.tracked == w.tracked && w1.base == w.base
            && (Skips(u.c.jobs[j].guard, r) ==> w1 == w)
            && (!Skips(u.c.jobs[j].guard, r) ==> w1.sys.pending == w.sys.pending[j := r])
            && (!Skips(u.c.jobs[j].guard, r) && j == u.activity ==> w1.built == Cut(InRange(u.log, r), IsListed(u, w.ledger.contracts.Keys)))
            && (!Skips(u.c.jobs[j].guard, r) && j == u.balance && j != u.activity ==>
                  w1.batch == Cut(InRange(w.table.taken, r), IsTracked(w.tracked)))
            && (j != u.activity ==> w1.built == w.built) && (j != u.balance || j == u.activity ==> w1.batch == w.batch)
  {
  }

  lemma ReadKeeps(u: Setup, w: World, j: Job)
    requires u.Valid() && WorldInv(u, w) && CanMove(u, w, Take(Read(j))) && ReadyMove(u, w, Take(Read(j)))
    ensures WorldInv(u, After(u, w, Take(Read(j))))
  {
    ReadChanges(u, w, j);
    var w1, r := After(u, w, Take(Read(j))), ReadRange(w.sys.rows, u.c.startBlock, j, u.c.jobs[j]);
    if !Skips(u.c.jobs[j].guard, r) {
      assert Inv(u.c, w1.sys) by { ReadKeepsInv(u.c, w.sys, j); }
      assert TablesInv(u, w1) by { SameTables(u, w, w1); }
      ReadKeepsPending(u, w, j, r);
    }
  }

  lemma ReadKeepsPending(u: Setup, w: World, j: Job, r: Range)
    requires u.Valid() && WorldInv(u, w) && CanMove(u, w, Take(Read(j)))
    requires r == ReadRange(w.sys.rows, u.c.startBlock, j, u.c.jobs[j]) && !Skips(u.c.jobs[j].guard, r)
    ensures PendingInv(u, After(u, w, Take(Read(j))))
  {
    ReadChanges(u, w, j);
    assert u.activity != u.balance;
    if j == u.activity {
      BetweenOrdered(u.log, ActivityHeight, r.start, r.end, ActivityHeight);
      CutDivides(InRange(u.log, r), IsListed(u, w.ledger.contracts.Keys));
    } else if j == u.balance {
      TableSorted(u, w);
      BetweenOrdered(w.table.taken, ActivityHeight, r.start, r.end, ActivityHeight);
      CutDivides(InRange(w.table.taken, r), IsTracked(w.tracked));
      CutTracked(w, InRange(w.table.taken, r));
    }
  }

  // ----- commits -----

  /** Steps that move neither of the two checkpoints and add no range keep what is known of the tables. */
  lemma SysMoves(u: Setup, w: World, sys: System)
    requires TablesInv(u, w) && PendingInv(u, w)
    requires HeightOf(sys.rows, u.c.startBlock, u.activity) == At(u, w, u.activity)
    requires HeightOf(sys.rows, u.c.startBlock, u.balance) == At(u, w, u.balance)
    requires u.activity in sys.pending ==> u.activity in w.sys.pending && sys.pending[u.activity] == w.sys.pending[u.activity]
    requires u.balance in sys.pending ==> u.balance in w.sys.pending && sys.pending[u.balance] == w.sys.pending[u.balance]
    ensures TablesInv(u, w.(sys := sys)) && PendingInv(u, w.(sys := sys))
  {
    var w1 := w.(sys := sys);
    assert UpTo(u, w1, u.log, u.activity) == UpTo(u, w, u.log, u.activity);
    assert UpTo(u, w1, w.table.taken, u.balance) == UpTo(u, w, w.table.taken, u.balance);
  }

  /** All other steps change the protocol's own state alone, and none of the three checkpoints. */
  lemma OtherIs(u: Setup, w: World, step: Step)
    requires u.Valid() && CanMove(u, w, Take(step)) && !step.Read?
    requires step != Commit(u.contract) && step != Commit(u.activity) && step != Commit(u.balance)
    ensures var sys := Checkpoint.Apply(u.c, w.sys, step);
            && After(u, w, Take(step)) == w.(sys := sys)
            && (forall j :: j in {u.contract, u.activity, u.balance} ==> HeightOf(sys.rows, u.c.startBlock, j) == At(u, w, j))
            && (forall j :: j in sys.pending ==> j in w.sys.pending && sys.pending[j] == w.sys.pending[j])
  {
    assert u.contract !in u.c.roots && u.activity !in u.c.roots && u.balance !in u.c.roots;
  }

  lemma OtherKeeps(u: Setup, w: World, step: Step)
    requires u.Valid() && WorldInv(u, w) && CanMove(u, w, Take(step)) && !step.Read?
    requires step != Commit(u.contract) && step != Commit(u.activity) && step != Commit(u.balance)
    ensures WorldInv(u, After(u, w, Take(step)))
  {
    OtherIs(u, w, step);
    var sys := Checkpoint.Apply(u.c, w.sys, step);
    assert TablesInv(u, w.(sys := sys)) && PendingInv(u, w.(sys := sys)) by { SysMoves(u, w, sys); }
    assert Inv(u.c, sys) by { StepKeepsInv(u.c, w.sys, step); }
  }

  lemma CommitContractKeeps(u: Setup, w: World)
    requires u.Valid() && WorldInv(u, w) && CanMove(u, w, Take(Commit(u.contract)))
    requires u.contract != u.activity && u.contract != u.balance
    ensures WorldInv(u, After(u, w, Take(Commit(u.contract))))
  {
    var rows := CreatedIn(u, w.sys.pending[u.contract]);
    var w1, sys := CommitContract(u, w), Checkpoint.Apply(u.c, w.sys, Commit(u.contract));
    assert WorldInv(u, w1) by { InsertKeeps(u, w, rows, w.tracked + rows.Keys); }
    CommitContractIs(u, w);
    ContractCommits(u, w1);
  }

  lemma ContractCommits(u: Setup, w: World)
    requires u.Valid() && WorldInv(u, w) && Checkpoint.Enabled(u.c, w.sys, Commit(u.contract))
    requires u.contract != u.activity && u.contract != u.balance
    ensures WorldInv(u, w.(sys := Checkpoint.Apply(u.c, w.sys, Commit(u.contract))))
  {
    var sys := Checkpoint.Apply(u.c, w.sys, Commit(u.contract));
    assert Inv(u.c, sys) by { CommitKeepsInv(u.c, w.sys, u.contract); }
    CommitHeights(u.c, w.sys, u.contract, u.activity);
    CommitHeights(u.c, w.sys, u.contract, u.balance);
    SysMoves(u, w, sys);
  }

  /** New rows lie above everything the balance job has read or will commit. */
  lemma RowsStay(u: Setup, w: World, lo: int, hi: int)
    requires u.Valid() && WorldInv(u, w) && u.activity in w.sys.pending && hi <= At(u, w, u.activity)
    ensures Between(w.table.taken + w.built.taken, ActivityHeight, lo, hi) == Between(w.table.taken, ActivityHeight, lo, hi)
  {
    var r := w.sys.pending[u.activity];
    assert r.start == At(u, w, u.activity);
    BetweenConcat(w.table.taken, w.built.taken, ActivityHeight, lo, hi);
    RowsHeights(u.log, r.start, r.end);
    forall i | 0 <= i < |w.built.taken| ensures hi < w.built.taken[i].height {
      assert w.built.taken[i] in w.built.taken;
      DividesMembers(w.built, InRange(u.log, r), w.built.taken[i]);
    }
    BetweenEmpty(w.built.taken, ActivityHeight, lo, hi);
  }

  lemma TableGrows(u: Setup, w: World)
    requires u.Valid() && WorldInv(u, w) && u.activity in w.sys.pending
    ensures Divides(Append(w.table, w.built), Between(u.log, ActivityHeight, u.c.startBlock, w.sys.pending[u.activity].end))
  {
    var r := w.sys.pending[u.activity];
    InOrder(u, w);
    assert r.start == At(u, w, u.activity) && SafeRange(u.c, w.sys.rows, u.activity, r);
    RowsHeights(u.log, u.c.startBlock, r.start);
    RowsHeights(u.log, r.start, r.end);
    DividesJoin(w.table, UpTo(u, w, u.log, u.activity), w.built, InRange(u.log, r), r.start);
    BetweenJoin(u.log, ActivityHeight, u.c.startBlock, r.start, r.end);
  }

  lemma CommitActivityIs(u: Setup, w: World)
    requires CanMove(u, w, Take(Commit(u.activity))) && u.activity != u.contract
    ensures After(u, w, Take(Commit(u.activity))) == CommitActivity(u, w).(sys := Checkpoint.Apply(u.c, w.sys, Commit(u.activity)))
  {
  }

  lemma ActivityCommits(u: Setup, w: World)
    requires u.Valid() && WorldInv(u, w) && Checkpoint.Enabled(u.c, w.sys, Commit(u.activity)) && u.activity != u.balance
    ensures WorldInv(u, w.(sys := Checkpoint.Apply(u.c, w.sys, Commit(u.activity)), table := Append(w.table, w.built)))
  {
    var sys := Checkpoint.Apply(u.c, w.sys, Commit(u.activity));
    var w1 := w.(sys := sys, table := Append(w.table, w.built));
    assert Inv(u.c, sys) by { CommitKeepsInv(u.c, w.sys, u.activity); }
    CommitHeights(u.c, w.sys, u.activity, u.balance);
    InOrder(u, w);
    assert Divides(w1.table, UpTo(u, w1, u.log, u.activity)) by { TableGrows(u, w); }
    assert UpTo(u, w1, w1.table.taken, u.balance) == UpTo(u, w, w.table.taken, u.balance) by {
      RowsStay(u, w, u.c.startBlock, At(u, w, u.balance));
    }
    if u.balance in sys.pending {
      var r := w.sys.pending[u.balance];
      assert SafeRange(u.c, w.sys.rows, u.balance, r);
      RowsStay(u, w, r.start, r.end);
    }
  }

  lemma CommitActivityKeeps(u: Setup, w: World)
    requires u.Valid() && WorldInv(u, w) && CanMove(u, w, Take(Commit(u.activity)))
    requires u.activity != u.contract && u.activity != u.balance
    ensures WorldInv(u, After(u, w, Take(Commit(u.activity))))
  {
    var rows := MissingIn(u, w.built.taken, w.ledger.contracts.Keys);
    var w1 := Insert(w, rows).(tracked := w.tracked);
    assert WorldInv(u, w1) by { InsertKeeps(u, w, rows, w.tracked); }
    CommitActivityIs(u, w);
    ActivityCommits(u, w1);
  }

  /** What has been applied after the pending batch. */
  lemma AppliedGrows(u: Setup, w: World)
    requires u.Valid() && WorldInv(u, w) && u.balance in w.sys.pending
    ensures Divides(Append(w.applied, w.batch), Between(w.table.taken, ActivityHeight, u.c.startBlock, w.sys.pending[u.balance].end))
  {
    var r := w.sys.pending[u.balance];
    InOrder(u, w);
    TableSorted(u, w);
    assert r.start == At(u, w, u.balance) && SafeRange(u.c, w.sys.rows, u.balance, r);
    RowsHeights(w.table.taken, u.c.startBlock, r.start);
    RowsHeights(w.table.taken, r.start, r.end);
    DividesJoin(w.applied, UpTo(u, w, w.table.taken, u.balance), w.batch, InRange(w.table.taken, r), r.start);
    BetweenJoin(w.table.taken, ActivityHeight, u.c.startBlock, r.start, r.end);
  }

  /** The batch joins with the accounts, so the sliced batch is the fold over the whole ledger. */
  lemma BatchIsFold(u: Setup, w: World)
    requires u.Valid() && WorldInv(u, w) && u.balance in w.sys.pending
    ensures Joined(u.accounts, w.batch.taken)
    ensures Erc20.Batch(w.ledger, u.accounts, w.batch.taken) == ApplyAll(w.ledger, w.batch.taken)
  {
    var r := w.sys.pending[u.balance];
    TableSorted(u, w);
    RowsHeights(w.table.taken, r.start, r.end);
    forall a | a in w.batch.taken ensures a in u.log {
      DividesMembers(w.batch, InRange(w.table.taken, r), a);
    }
    BatchRefinesFold(w.ledger, u.accounts, w.batch.taken);
  }

  lemma TailOfJoin(a: seq<Activity>, b: seq<Activity>, n: nat, c: Address)
    requires n <= |a|
    ensures MintNet((a + b)[n..], c) == MintNet(a[n..], c) + MintNet(b, c)
  {
    assert (a + b)[n..] == a[n..] + b;
    MintNetConcat(a[n..], b, c);
  }

  lemma SupplyGrows(w: World, batch: Split, ledger: Ledger)
    requires SupplyInv(w) && ApplyAll(w.ledger, batch.taken) == Ok(ledger)
    ensures SupplyInv(w.(ledger := ledger, applied := Append(w.applied, batch)))
    ensures ledger.contracts.Keys == w.ledger.contracts.Keys
  {
    ContractsStay(w.ledger, batch.taken);
    var w1 := w.(ledger := ledger, applied := Append(w.applied, batch));
    forall c | c in w.base ensures SupplyRight(w1, c) { SupplyGrowsOne(w, batch, ledger, c); }
  }

  lemma SupplyGrowsOne(w: World, batch: Split, ledger: Ledger, c: Address)
    requires SupplyRight(w, c) && ApplyAll(w.ledger, batch.taken) == Ok(ledger)
    ensures SupplyRight(w.(ledger := ledger, applied := Append(w.applied, batch)), c)
  {
    SupplyIsMintNet(w.ledger, batch.taken, c);
    TailOfJoin(w.applied.taken, batch.taken, w.base[c].since, c);
  }

  /** What a commit does to the protocol's own state. */
  lemma CommitHeights(c: Config, s: System, j: Job, k: Job)
    requires Inv(c, s) && Checkpoint.Enabled(c, s, Commit(j))
    ensures var sys := Checkpoint.Apply(c, s, Commit(j));
            && HeightOf(sys.rows, c.startBlock, j) == s.pending[j].end
            && (k != j ==> HeightOf(sys.rows, c.startBlock, k) == HeightOf(s.rows, c.startBlock, k))
            && sys.pending == s.pending - {j}
  {
    CommitMovesOneRow(c, s, j, j);
    CommitMovesOneRow(c, s, j, k);
  }

  lemma CommitBalanceIs(u: Setup, w: World)
    requires CanMove(u, w, Take(Commit(u.balance))) && u.balance != u.activity && u.balance != u.contract
    ensures After(u, w, Take(Commit(u.balance))) ==
            match Erc20.Batch(w.ledger, u.accounts, w.batch.taken)
            case Ok(ledger) => w.(sys := Checkpoint.Apply(u.c, w.sys, Commit(u.balance)), ledger := ledger, applied := Append(w.applied, w.batch))
            case Err(_) => w.(sys := Checkpoint.Apply(u.c, w.sys, Abort(u.balance)))
  {
  }

  lemma CommitContractIs(u: Setup, w: World)
    requires CanMove(u, w, Take(Commit(u.contract)))
    ensures After(u, w, Take(Commit(u.contract))) == CommitContract(u, w).(sys := Checkpoint.Apply(u.c, w.sys, Commit(u.contract)))
  {
  }

  lemma BatchFails(u: Setup, w: World)
    requires WorldInv(u, w) && Checkpoint.Enabled(u.c, w.sys, Abort(u.balance))
    ensures WorldInv(u, w.(sys := Checkpoint.Apply(u.c, w.sys, Abort(u.balance))))
  {
    var sys := Checkpoint.Apply(u.c, w.sys, Abort(u.balance));
    assert Inv(u.c, sys) by { AbortKeepsInv(u.c, w.sys, u.balance); }
    assert sys.rows == w.sys.rows && sys.pending == w.sys.pending - {u.balance};
    SysMoves(u, w, sys);
  }

  /** The ledger after a batch is the fold of everything applied. */
  lemma LedgerGrows(u: Setup, w: World, ledger: Ledger)
    requires TablesInv(u, w) && ApplyAll(w.ledger, w.batch.taken) == Ok(ledger)
    ensures ledger.balances == FoldBalances(u.db.balances, Append(w.applied, w.batch).taken)
    ensures ledger.contracts.Keys == w.ledger.contracts.Keys
    ensures SupplyInv(w.(ledger := ledger, applied := Append(w.applied, w.batch)))
  {
    BalancesAreFold(w.ledger, w.batch.taken);
    FoldBalancesConcat(u.db.balances, w.applied.taken, w.batch.taken);
    SupplyGrows(w, w.batch, ledger);
  }

  lemma BatchCommits(u: Setup, w: World, ledger: Ledger)
    requires u.Valid() && WorldInv(u, w) && Checkpoint.Enabled(u.c, w.sys, Commit(u.balance)) && u.balance != u.activity
    requires Erc20.Batch(w.ledger, u.accounts, w.batch.taken) == Ok(ledger)
    ensures var sys := Checkpoint.Apply(u.c, w.sys, Commit(u.balance));
            WorldInv(u, w.(sys := sys, ledger := ledger, applied := Append(w.applied, w.batch)))
  {
    var sys := Checkpoint.Apply(u.c, w.sys, Commit(u.balance));
    var w1 := w.(sys := sys, ledger := ledger, applied := Append(w.applied, w.batch));
    assert TablesInv(u, w1) && PendingInv(u, w1) by {
      CommitHeights(u.c, w.sys, u.balance, u.activity);
      BatchIsFold(u, w);
      LedgerGrows(u, w, ledger);
      AppliedGrows(u, w);
      CommittedTables(u, w, w1);
    }
    assert Inv(u.c, sys) by { CommitKeepsInv(u.c, w.sys, u.balance); }
  }

  lemma CommitBalanceKeeps(u: Setup, w: World)
    requires u.Valid() && WorldInv(u, w) && CanMove(u, w, Take(Commit(u.balance)))
    requires u.balance != u.activity && u.balance != u.contract
    ensures WorldInv(u, After(u, w, Take(Commit(u.balance))))
  {
    CommitBalanceIs(u, w);
    match Erc20.Batch(w.ledger, u.accounts, w.batch.taken)
    case Err(_) => BatchFails(u, w);
    case Ok(ledger) => BatchCommits(u, w, ledger);
  }

  lemma CommittedTables(u: Setup, w: World, w1: World)
    requires u.Valid() && TablesInv(u, w) && PendingInv(u, w) && u.balance in w.sys.pending && u.balance != u.activity
    requires w1.table == w.table && w1.built == w.built && w1.tracked == w.tracked && w1.applied == Append(w.applied, w.batch)
    requires Divides(w1.applied, Between(w.table.taken, ActivityHeight, u.c.startBlock, w.sys.pending[u.balance].end))
    requires At(u, w1, u.balance) == w.sys.pending[u.balance].end && At(u, w1, u.activity) == At(u, w, u.activity)
    requires w1.sys.pending == w.sys.pending - {u.balance}
    requires w1.ledger.balances == FoldBalances(u.db.balances, w1.applied.taken) && SupplyInv(w1)
    requires w1.ledger.contracts.Keys == w.ledger.contracts.Keys
    ensures TablesInv(u, w1) && PendingInv(u, w1)
  {
  }

  lemma NamesApart(u: Setup)
    requires u.Valid()
    ensures u.contract != u.activity && u.activity != u.balance && u.contract != u.balance
  {
  }

  lemma StepKeeps(u: Setup, w: World, step: Step)
    requires u.Valid() && WorldInv(u, w) && CanMove(u, w, Take(step)) && ReadyMove(u, w, Take(step))
    ensures WorldInv(u, After(u, w, Take(step)))
  {
    NamesApart(u);
    if step.Read? {
      ReadKeeps(u, w, step.job);
    } else if step == Commit(u.contract) {
      CommitContractKeeps(u, w);
    } else if step == Commit(u.activity) {
      CommitActivityKeeps(u, w);
    } else if step == Commit(u.balance) {
      CommitBalanceKeeps(u, w);
    } else {
      OtherKeeps(u, w, step);
    }
  }

  lemma TrackKeeps(u: Setup, w: World, address: Address, row: Contract)
    requires WorldInv(u, w)
    ensures WorldInv(u, After(u, w, Track(address, row)))
  {
    InsertKeeps(u, w, map[address := row], w.tracked + {address});
  }

  lemma UntrackKeeps(u: Setup, w: World, address: Address)
    requires WorldInv(u, w)
    ensures WorldInv(u, After(u, w, Untrack(address)))
  {
    assert w.tracked - {address} <= w.tracked;
  }

  lemma MoveKeeps(u: Setup, w: World, m: Move)
    requires u.Valid() && WorldInv(u, w) && CanMove(u, w, m) && ReadyMove(u, w, m)
    ensures WorldInv(u, After(u, w, m))
  {
    match m
    case Take(step) => StepKeeps(u, w, step);
    case Requery => RequeryKeeps(u, w);
    case Track(address, row) => TrackKeeps(u, w, address, row);
    case Untrack(address) => UntrackKeeps(u, w, address);
  }

  lemma {:induction false} RunKeeps(u: Setup, w: World, moves: seq<Move>)
    requires u.Valid() && WorldInv(u, w) && IsRun(u, w, moves) && ReadyRun(u, w, moves)
    ensures WorldInv(u, Run(u, w, moves))
    decreases |moves|
  {
    if moves != [] {
      MoveKeeps(u, w, moves[0]);
      RunKeeps(u, After(u, w, moves[0]), moves[1..]);
    }
  }

  // ----- what the tables hold, at every moment -----

  /**
   At every moment of every run in which jobs read when they are ready, however it is scheduled, aborted and retried and
   whatever is tracked and untracked meanwhile:
   each activity up to the activity job's checkpoint is in the table or was left out by the join, exactly once;
   each activity in the table up to the balance job's checkpoint was applied or left out as untracked, exactly once;
   the balances are one fold over what was applied; and each supply is what was inserted plus what was minted since.
   */
  lemma LedgerFollowsCheckpoint(u: Setup, moves: seq<Move>)
    requires u.Valid() && IsRun(u, Begin(u), moves) && ReadyRun(u, Begin(u), moves)
    ensures var w := Run(u, Begin(u), moves);
            && Divides(w.table, UpTo(u, w, u.log, u.activity))
            && Divides(w.applied, UpTo(u, w, w.table.taken, u.balance))
            && w.ledger.balances == FoldBalances(u.db.balances, w.applied.taken)
            && SupplyInv(w)
  {
    BeginInv(u);
    RunKeeps(u, Begin(u), moves);
  }

  /** What the balance job passed without applying it: dropped by the join, or untracked when its range was read. */
  function Missed(u: Setup, w: World, k: Erc20.Key): int
  {
    Net(UpTo(u, w, w.table.left, u.balance), k) + Net(w.applied.left, k)
  }

  lemma DividedFlow(s: Split, all: seq<Activity>, k: Erc20.Key)
    requires multiset(s.taken) + multiset(s.left) == multiset(all)
    ensures Net(all, k) == Net(s.taken, k) + Net(s.left, k)
  {
    NetBag(all, s.taken + s.left, k);
    Erc20.NetConcat(s.taken, s.left, k);
  }

  /** Up to a lower height, a divided list is still divided. */
  lemma DividedBelow(log: seq<Activity>, s: Split, lo: int, hi: int, hi': int)
    requires multiset(s.taken) + multiset(s.left) == multiset(Between(log, ActivityHeight, lo, hi)) && hi' <= hi
    ensures multiset(Between(s.taken, ActivityHeight, lo, hi')) + multiset(Between(s.left, ActivityHeight, lo, hi'))
            == multiset(Between(log, ActivityHeight, lo, hi'))
  {
    forall x
      ensures multiset(Between(s.taken, ActivityHeight, lo, hi'))[x] + multiset(Between(s.left, ActivityHeight, lo, hi'))[x]
              == multiset(Between(log, ActivityHeight, lo, hi'))[x]
    {
      CountBelow(log, s, lo, hi, hi', x);
    }
  }

  lemma CountBelow(log: seq<Activity>, s: Split, lo: int, hi: int, hi': int, x: Activity)
    requires multiset(s.taken) + multiset(s.left) == multiset(Between(log, ActivityHeight, lo, hi)) && hi' <= hi
    ensures multiset(Between(s.taken, ActivityHeight, lo, hi'))[x] + multiset(Between(s.left, ActivityHeight, lo, hi'))[x]
            == multiset(Between(log, ActivityHeight, lo, hi'))[x]
  {
    assert multiset(s.taken)[x] + multiset(s.left)[x] == multiset(Between(log, ActivityHeight, lo, hi))[x];
    BetweenBag(s.taken, ActivityHeight, lo, hi', x);
    BetweenBag(s.left, ActivityHeight, lo, hi', x);
    BetweenBag(log, ActivityHeight, lo, hi', x);
    BetweenBag(log, ActivityHeight, lo, hi, x);
  }

  lemma AmountIs(u: Setup, w: World, k: Erc20.Key)
    requires u.Valid() && WorldInv(u, w)
    ensures AmountAt(w.ledger, k) == AmountAt(u.db, k) + Net(UpTo(u, w, u.log, u.balance), k) - Missed(u, w, k)
  {
    InOrder(u, w);
    FoldedRow(u.db.balances, w.applied.taken, k);
    DividedFlow(w.applied, UpTo(u, w, w.table.taken, u.balance), k);
    DividedBelow(u.log, w.table, u.c.startBlock, At(u, w, u.activity), At(u, w, u.balance));
    DividedFlow(Split(UpTo(u, w, w.table.taken, u.balance), UpTo(u, w, w.table.left, u.balance)), UpTo(u, w, u.log, u.balance), k);
  }

  /** So each balance is its first value plus inflow minus outflow up to the checkpoint, less what was missed. */
  lemma BalancesFollowCheckpoint(u: Setup, moves: seq<Move>, k: Erc20.Key)
    requires u.Valid() && IsRun(u, Begin(u), moves) && ReadyRun(u, Begin(u), moves)
    ensures var w := Run(u, Begin(u), moves);
            AmountAt(w.ledger, k) == AmountAt(u.db, k) + Net(UpTo(u, w, u.log, u.balance), k) - Missed(u, w, k)
  {
    BeginInv(u);
    RunKeeps(u, Begin(u), moves);
    AmountIs(u, Run(u, Begin(u), moves), k);
  }

  /** And it is that flow in full if and only if what was missed moves nothing net for it. */
  lemma BalanceRightIff(u: Setup, moves: seq<Move>, k: Erc20.Key)
    requires u.Valid() && IsRun(u, Begin(u), moves) && ReadyRun(u, Begin(u), moves)
    ensures var w := Run(u, Begin(u), moves);
            AmountAt(w.ledger, k) == AmountAt(u.db, k) + Net(UpTo(u, w, u.log, u.balance), k) <==> Missed(u, w, k) == 0
  {
    BalancesFollowCheckpoint(u, moves, k);
  }

  // ----- the balance job gets through -----

  /** No balance row is newer at the start than an activity above the start block. */
  ghost predicate StartsOld(u: Setup)
  {
    forall a, k :: a in u.log && a.height > u.c.startBlock && k in u.db.balances && Touches(a, k) ==>
      u.db.balances[k].lastUpdated <= a.height
  }

  /** In a run of ready jobs a balance job that has read its batch never throws, whatever was tracked meanwhile. */
  lemma BatchSucceeds(u: Setup, w: World)
    requires u.Valid() && WorldInv(u, w) && StartsOld(u) && u.balance in w.sys.pending
    ensures Erc20.Batch(w.ledger, u.accounts, w.batch.taken).Ok?
  {
    var r, acts := w.sys.pending[u.balance], w.batch.taken;
    BatchIsFold(u, w);
    InOrder(u, w);
    TableSorted(u, w);
    RowsHeights(w.table.taken, r.start, r.end);
    forall a | a in acts ensures a in u.log && r.start < a.height { DividesMembers(w.batch, InRange(w.table.taken, r), a); }
    forall k, i | k in w.ledger.balances && 0 <= i < |acts| && Touches(acts[i], k)
      ensures w.ledger.balances[k].lastUpdated <= acts[i].height
    {
      assert acts[i] in acts;
      RowIsOld(u, w, k);
    }
    forall k ensures RowNotNewer(w.ledger, acts, k) {}
    OrderedOkIff(w.ledger, acts);
  }

  /** A stored row is as the start left it, or no newer than the balance job's checkpoint. */
  lemma RowIsOld(u: Setup, w: World, k: Erc20.Key)
    requires u.Valid() && WorldInv(u, w) && k in w.ledger.balances
    ensures var row := w.ledger.balances[k];
            row.lastUpdated <= At(u, w, u.balance) || (k in u.db.balances && row == u.db.balances[k])
  {
    FoldedRow(u.db.balances, w.applied.taken, k);
    LastTouchIs(w.applied.taken, k);
    if LastTouch(w.applied.taken, k).Some? {
      var a :| a in w.applied.taken && Touches(a, k) && a.height == w.ledger.balances[k].lastUpdated;
      RowsHeights(w.table.taken, u.c.startBlock, At(u, w, u.balance));
      DividesMembers(w.applied, UpTo(u, w, w.table.taken, u.balance), a);
    }
  }

  /** So the commit of the balance job always moves its checkpoint. */
  lemma BalanceJobNeverThrows(u: Setup, moves: seq<Move>)
    requires u.Valid() && StartsOld(u) && IsRun(u, Begin(u), moves) && ReadyRun(u, Begin(u), moves)
    requires CanMove(u, Run(u, Begin(u), moves), Take(Commit(u.balance)))
    ensures var w := Run(u, Begin(u), moves);
            After(u, w, Take(Commit(u.balance))).sys == Checkpoint.Apply(u.c, w.sys, Commit(u.balance))
  {
    BeginInv(u);
    RunKeeps(u, Begin(u), moves);
    NamesApart(u);
    BatchSucceeds(u, Run(u, Begin(u), moves));
    CommitBalanceIs(u, Run(u, Begin(u), moves));
  }

  // ----- contracts that are always right -----

  /** The contract is tracked from the start, or created later and before all its activities. */
  ghost predicate Followed(u: Setup, c: Address)
  {
    || c in u.tracked
    || (c in u.created && u.c.startBlock < u.created[c] && forall a :: a in u.log && a.contract == c ==> u.created[c] <= a.height)
  }

  ghost predicate NoneOf(s: seq<Activity>, c: Address) { forall a :: a in s ==> a.contract != c }

  /** The contract is tracked once the contract job has reached it, and nothing of it was left out. */
  ghost predicate Watched(u: Setup, w: World, c: Address)
  {
    && (c in u.tracked ==> c in w.tracked)
    && (c in u.created && u.c.startBlock < u.created[c] <= At(u, w, u.contract) ==> c in w.tracked)
    && NoneOf(w.table.left, c) && NoneOf(w.applied.left, c)
    && (u.activity in w.sys.pending ==> NoneOf(w.built.left, c))
    && (u.balance in w.sys.pending ==> NoneOf(w.batch.left, c))
  }

  lemma CutLeft(s: seq<Activity>, p: Activity -> bool, a: Activity)
    requires a in Cut(s, p).left
    ensures a in s && !p(a)
  {
    var left := Cut(s, p).left;
    var i :| 0 <= i < |left| && left[i] == a;
    var j := SelectIndex(s, (x: Activity) => !p(x), i);
  }

  /** An activity of the contract below the contract job's checkpoint finds the contract tracked. */
  lemma TrackedByThen(u: Setup, w: World, c: Address, a: Activity)
    requires Followed(u, c) && Watched(u, w, c)
    requires a in u.log && a.contract == c && u.c.startBlock < a.height <= At(u, w, u.contract)
    ensures c in w.tracked
  {
  }

  lemma ReadLeavesNone(u: Setup, w: World, c: Address, r: Range)
    requires u.Valid() && WorldInv(u, w) && Followed(u, c) && Watched(u, w, c)
    requires u.c.startBlock <= r.start && r.end <= At(u, w, u.contract)
    ensures NoneOf(Cut(InRange(u.log, r), IsListed(u, w.ledger.contracts.Keys)).left, c)
    ensures NoneOf(Cut(InRange(w.table.taken, r), IsTracked(w.tracked)).left, c)
  {
    RowsHeights(u.log, r.start, r.end);
    RowsHeights(w.table.taken, r.start, r.end);
    TableSorted(u, w);
    forall a | a in Cut(InRange(u.log, r), IsListed(u, w.ledger.contracts.Keys)).left ensures a.contract != c {
      CutLeft(InRange(u.log, r), IsListed(u, w.ledger.contracts.Keys), a);
      if a.contract == c { TrackedByThen(u, w, c, a); }
    }
    forall a | a in Cut(InRange(w.table.taken, r), IsTracked(w.tracked)).left ensures a.contract != c {
      CutLeft(InRange(w.table.taken, r), IsTracked(w.tracked), a);
      if a.contract == c { TrackedByThen(u, w, c, a); }
    }
  }

  lemma WatchRead(u: Setup, w: World, c: Address, j: Job)
    requires u.Valid() && WorldInv(u, w) && Followed(u, c) && Watched(u, w, c)
    requires CanMove(u, w, Take(Read(j))) && ReadyMove(u, w, Take(Read(j)))
    ensures Watched(u, After(u, w, Take(Read(j))), c)
  {
    ReadChanges(u, w, j);
    var r := ReadRange(w.sys.rows, u.c.startBlock, j, u.c.jobs[j]);
    if !Skips(u.c.jobs[j].guard, r) && (j == u.activity || j == u.balance) {
      ReadSafeIffReady(u.c, w.sys, j);
      InOrder(u, w);
      ReadLeavesNone(u, w, c, r);
    }
  }

  lemma CommitHeightsOf(u: Setup, w: World, j: Job)
    requires u.Valid() && WorldInv(u, w) && Checkpoint.Enabled(u.c, w.sys, Commit(j))
    ensures var sys := Checkpoint.Apply(u.c, w.sys, Commit(j));
            && HeightOf(sys.rows, u.c.startBlock, u.contract) == (if j == u.contract then w.sys.pending[j].end else At(u, w, u.contract))
            && sys.pending == w.sys.pending - {j}
            && w.sys.pending[j].start == At(u, w, j)
  {
    CommitHeights(u.c, w.sys, j, u.contract);
  }

  lemma WatchCommitContract(u: Setup, w: World, c: Address)
    requires u.Valid() && WorldInv(u, w) && Watched(u, w, c) && CanMove(u, w, Take(Commit(u.contract)))
    ensures Watched(u, After(u, w, Take(Commit(u.contract))), c)
  {
    NamesApart(u);
    CommitHeightsOf(u, w, u.contract);
    CommitContractIs(u, w);
    var r := w.sys.pending[u.contract];
    if c in u.created && u.c.startBlock < u.created[c] <= r.end && r.start < u.created[c] {
      assert c in CreatedIn(u, r).Keys;
    }
  }

  lemma WatchCommitActivity(u: Setup, w: World, c: Address)
    requires u.Valid() && WorldInv(u, w) && Watched(u, w, c) && CanMove(u, w, Take(Commit(u.activity)))
    ensures Watched(u, After(u, w, Take(Commit(u.activity))), c)
  {
    NamesApart(u);
    CommitHeightsOf(u, w, u.activity);
    CommitActivityIs(u, w);
  }

  /** A new protocol state with the same contract checkpoint and no new pending range keeps the watch. */
  lemma WatchStays(u: Setup, w: World, c: Address, sys: System)
    requires Watched(u, w, c) && HeightOf(sys.rows, u.c.startBlock, u.contract) == At(u, w, u.contract)
    requires u.activity in sys.pending ==> u.activity in w.sys.pending
    requires u.balance in sys.pending ==> u.balance in w.sys.pending
    ensures Watched(u, w.(sys := sys), c)
  {
  }

  lemma WatchApplied(u: Setup, w: World, c: Address, ledger: Ledger)
    requires Watched(u, w, c) && u.balance in w.sys.pending
    ensures Watched(u, w.(ledger := ledger, applied := Append(w.applied, w.batch)), c)
  {
  }

  lemma WatchCommitBalance(u: Setup, w: World, c: Address)
    requires u.Valid() && WorldInv(u, w) && Watched(u, w, c) && CanMove(u, w, Take(Commit(u.balance)))
    ensures Watched(u, After(u, w, Take(Commit(u.balance))), c)
  {
    NamesApart(u);
    CommitBalanceIs(u, w);
    match Erc20.Batch(w.ledger, u.accounts, w.batch.taken)
    case Err(_) =>
      WatchStays(u, w, c, Checkpoint.Apply(u.c, w.sys, Abort(u.balance)));
    case Ok(ledger) =>
      CommitHeightsOf(u, w, u.balance);
      WatchApplied(u, w, c, ledger);
      WatchStays(u, w.(ledger := ledger, applied := Append(w.applied, w.batch)), c, Checkpoint.Apply(u.c, w.sys, Commit(u.balance)));
  }

  lemma WatchOther(u: Setup, w: World, c: Address, step: Step)
    requires u.Valid() && Watched(u, w, c) && CanMove(u, w, Take(step)) && !step.Read?
    requires step != Commit(u.contract) && step != Commit(u.activity) && step != Commit(u.balance)
    ensures Watched(u, After(u, w, Take(step)), c)
  {
    OtherIs(u, w, step);
    WatchStays(u, w, c, Checkpoint.Apply(u.c, w.sys, step));
  }

  lemma WatchMove(u: Setup, w: World, c: Address, m: Move)
    requires u.Valid() && WorldInv(u, w) && Followed(u, c) && Watched(u, w, c)
    requires CanMove(u, w, m) && ReadyMove(u, w, m) && m != Untrack(c)
    ensures Watched(u, After(u, w, m), c)
  {
    match m
    case Requery =>
      var r := w.sys.pending[u.balance];
      InOrder(u, w);
      assert r.start == At(u, w, u.balance) && SafeRange(u.c, w.sys.rows, u.balance, r);
      ReadLeavesNone(u, w, c, r);
    case Track(_, _) =>
    case Untrack(_) =>
    case Take(step) =>
      if step.Read? {
        WatchRead(u, w, c, step.job);
      } else if step == Commit(u.contract) {
        WatchCommitContract(u, w, c);
      } else if step == Commit(u.activity) {
        WatchCommitActivity(u, w, c);
      } else if step == Commit(u.balance) {
        WatchCommitBalance(u, w, c);
      } else {
        WatchOther(u, w, c, step);
      }
  }

  lemma {:induction false} WatchRun(u: Setup, w: World, c: Address, moves: seq<Move>)
    requires u.Valid() && WorldInv(u, w) && Followed(u, c) && Watched(u, w, c)
    requires IsRun(u, w, moves) && ReadyRun(u, w, moves) && Untrack(c) !in moves
    ensures Watched(u, Run(u, w, moves), c)
    decreases |moves|
  {
    if moves != [] {
      assert moves[0] in moves && forall m :: m in moves[1..] ==> m in moves;
      MoveKeeps(u, w, moves[0]);
      WatchMove(u, w, c, moves[0]);
      WatchRun(u, After(u, w, moves[0]), c, moves[1..]);
    }
  }

  /**
   A contract that is tracked from the start, or listed by the contract job before its first activity, and never
   untracked has all its balances right at every moment of every such run.
   */
  lemma FollowedBalancesRight(u: Setup, moves: seq<Move>, k: Erc20.Key)
    requires u.Valid() && IsRun(u, Begin(u), moves) && ReadyRun(u, Begin(u), moves)
    requires Followed(u, k.1) && Untrack(k.1) !in moves
    ensures var w := Run(u, Begin(u), moves);
            AmountAt(w.ledger, k) == AmountAt(u.db, k) + Net(UpTo(u, w, u.log, u.balance), k)
  {
    BeginInv(u);
    WatchRun(u, Begin(u), k.1, moves);
    var w := Run(u, Begin(u), moves);
    RowsHeights(w.table.left, u.c.startBlock, At(u, w, u.balance));
    NetOfOthers(UpTo(u, w, w.table.left, u.balance), k);
    NetOfOthers(w.applied.left, k);
    BalancesFollowCheckpoint(u, moves, k);
  }

  // ----- the contract rows -----

  /** Committing a range of the contract job writes and tracks a row for each contract created in it, and no other. */
  lemma ContractsAppear(u: Setup, w: World, address: Address)
    requires u.Valid() && CanMove(u, w, Take(Commit(u.contract)))
    ensures var (r, w1) := (w.sys.pending[u.contract], After(u, w, Take(Commit(u.contract))));
            if address in u.created && r.start < u.created[address] <= r.end then
              && address in w1.ledger.contracts && address in w1.tracked
              && w1.ledger.contracts[address].lastUpdated == u.created[address]
              && w1.ledger.contracts[address].totalSupply == (if address in u.supply then Some(u.supply[address]) else None)
            else
              && (address in w1.tracked <==> address in w.tracked)
              && (address in w1.ledger.contracts <==> address in w.ledger.contracts)
              && (address in w.ledger.contracts ==> w1.ledger.contracts[address] == w.ledger.contracts[address])
  {
    assert u.contract != u.activity by {
      assert forall j :: j in u.c.jobs ==> j !in u.c.jobs[j].deps;
    }
  }

  /** Committing activities of an unknown contract inserts a row for it at height -1, and does not track it. */
  lemma MissingContractsAppear(u: Setup, w: World, address: Address)
    requires u.Valid() && CanMove(u, w, Take(Commit(u.activity)))
    ensures var w1 := After(u, w, Take(Commit(u.activity)));
            && w1.tracked == w.tracked
            && (if address !in w.ledger.contracts && exists a :: a in w.built.taken && a.contract == address then
                  && address in w1.ledger.contracts && w1.ledger.contracts[address].lastUpdated == -1
                  && w1.ledger.contracts[address].totalSupply == (if address in u.supply then Some(u.supply[address]) else None)
                else
                  && (address in w1.ledger.contracts <==> address in w.ledger.contracts)
                  && (address in w.ledger.contracts ==> w1.ledger.contracts[address] == w.ledger.contracts[address]))
  {
    assert u.contract != u.activity by {
      assert forall j :: j in u.c.jobs ==> j !in u.c.jobs[j].deps;
    }
  }
}
