/**
 The ERC20 ledger: balances per account and contract, and the supply of each
 contract, folded from the activity log one checkpoint batch at a time.
 */
module Erc20 {
  import opened Wrappers
  import opened Tables
  import opened SortBy
  import opened HeightLog

  type Address = string
  type AccountId = nat

  const ZERO_ADDRESS: Address := "0x0000000000000000000000000000000000000000"

  datatype Action = Transfer | Approval | Deposit | Withdrawal

  /** A row of `erc20_activity`, joined with the account ids of its two ends. */
  datatype Activity = Activity(
    action: Action, contract: Address, from: Address, to: Address,
    fromId: AccountId, toId: AccountId, amount: int, height: int, cosmosTxId: int)

  datatype Balance = Balance(amount: int, lastUpdated: int)

  datatype Contract = Contract(totalSupply: Option<int>, lastUpdated: int)

  datatype Error = ContractNotFound | FromWasUpdated | ToWasUpdated | MissingAccounts

  type Key = (AccountId, Address)

  datatype Ledger = Ledger(balances: map<Key, Balance>, contracts: map<Address, Contract>)

  /** The `account` table: the EVM address of each account id. */
  type Accounts = map<AccountId, Address>

  // ----- one activity -----

  function ActivityHeight(a: Activity): int { a.height }

  function AmountAt(l: Ledger, k: Key): int
  {
    if k in l.balances then l.balances[k].amount else 0
  }

  function ChangeSupply(c: Contract, delta: int, height: int): Contract
  {
    if c.totalSupply.None? then c else Contract(Some(c.totalSupply.value + delta), height)
  }

  /** One end of a transfer: `delta` goes to the account, or out of the supply when the end is the zero address. */
  function ApplySide(l: Ledger, contract: Address, end: Address, id: AccountId, delta: int, height: int, stale: Error)
    : Result<Ledger, Error>
    requires contract in l.contracts
  {
    if end != ZERO_ADDRESS then
      var key := (id, contract);
      if key in l.balances && height < l.balances[key].lastUpdated then Err(stale)
      else Ok(l.(balances := l.balances[key := Balance(AmountAt(l, key) + delta, height)]))
    else Ok(l.(contracts := l.contracts[contract := ChangeSupply(l.contracts[contract], -delta, height)]))
  }

  function Apply(l: Ledger, a: Activity): Result<Ledger, Error>
  {
    if a.action == Approval then Ok(l)
    else if a.contract !in l.contracts then Err(ContractNotFound)
    else
      match ApplySide(l, a.contract, a.from, a.fromId, -a.amount, a.height, FromWasUpdated)
      case Err(e) => Err(e)
      case Ok(l1) => ApplySide(l1, a.contract, a.to, a.toId, a.amount, a.height, ToWasUpdated)
  }

  /** The simple fold over a log, with the whole ledger at hand. */
  function ApplyAll(l: Ledger, acts: seq<Activity>): Result<Ledger, Error>
    decreases |acts|
  {
    if acts == [] then Ok(l)
    else
      match Apply(l, acts[0])
      case Err(e) => Err(e)
      case Ok(l1) => ApplyAll(l1, acts[1..])
  }

  /** The handler object: it works on the rows it was given and updates them in place. */
  class Erc20Handler {
    var accountBalances: map<Key, Balance>
    const erc20Activities: seq<Activity>
    var erc20Contracts: map<Address, Contract>

    constructor (accountBalances: map<Key, Balance>, erc20Activities: seq<Activity>, erc20Contracts: map<Address, Contract>)
      ensures this.accountBalances == accountBalances && this.erc20Contracts == erc20Contracts
      ensures this.erc20Activities == erc20Activities
    {
      this.accountBalances := accountBalances;
      this.erc20Activities := erc20Activities;
      this.erc20Contracts := erc20Contracts;
    }

    ghost function State(): Ledger
      reads this
    {
      Ledger(accountBalances, erc20Contracts)
    }

    method HandlerErc20Transfer(a: Activity) returns (thrown: Option<Error>)
      requires a.action != Approval
      modifies this
      ensures thrown == match Apply(old(State()), a) { case Ok(_) => None case Err(e) => Some(e) }
      ensures thrown.None? ==> Apply(old(State()), a) == Ok(State())
    {
      if a.contract !in erc20Contracts {
        return Some(ContractNotFound);
      }
      if a.from != ZERO_ADDRESS {
        var key := (a.fromId, a.contract);
        if key in accountBalances && a.height < accountBalances[key].lastUpdated {
          return Some(FromWasUpdated);
        }
        var amount := (if key in accountBalances then accountBalances[key].amount else 0) - a.amount;
        accountBalances := accountBalances[key := Balance(amount, a.height)];
      } else {
        var c := erc20Contracts[a.contract];
        if c.totalSupply.Some? {
          erc20Contracts := erc20Contracts[a.contract := Contract(Some(c.totalSupply.value + a.amount), a.height)];
        }
        assert erc20Contracts == old(erc20Contracts)[a.contract := ChangeSupply(c, a.amount, a.height)];
      }
      ghost var middle := State();
      assert ApplySide(old(State()), a.contract, a.from, a.fromId, -a.amount, a.height, FromWasUpdated) == Ok(middle);
      if a.to != ZERO_ADDRESS {
        var key := (a.toId, a.contract);
        if key in accountBalances && a.height < accountBalances[key].lastUpdated {
          return Some(ToWasUpdated);
        }
        var amount := (if key in accountBalances then accountBalances[key].amount else 0) + a.amount;
        accountBalances := accountBalances[key := Balance(amount, a.height)];
      } else {
        var c := erc20Contracts[a.contract];
        if c.totalSupply.Some? {
          erc20Contracts := erc20Contracts[a.contract := Contract(Some(c.totalSupply.value - a.amount), a.height)];
        }
        assert erc20Contracts == middle.contracts[a.contract := ChangeSupply(c, -a.amount, a.height)];
      }
      return None;
    }

    method Process() returns (thrown: Option<Error>)
      modifies this
      ensures thrown == match ApplyAll(old(State()), erc20Activities) { case Ok(_) => None case Err(e) => Some(e) }
      ensures thrown.None? ==> ApplyAll(old(State()), erc20Activities) == Ok(State())
    {
      var i := 0;
      while i < |erc20Activities|
        invariant 0 <= i <= |erc20Activities|
        invariant ApplyAll(old(State()), erc20Activities) == ApplyAll(State(), erc20Activities[i..])
      {
        var a := erc20Activities[i];
        ghost var rest := erc20Activities[i..];
        assert rest[0] == a && rest[1..] == erc20Activities[i + 1..];
        if a.action == Transfer || a.action == Deposit || a.action == Withdrawal {
          thrown := HandlerErc20Transfer(a);
          if thrown.Some? {
            return;
          }
        }
        i := i + 1;
      }
      return None;
    }
  }

  // ----- a batch: load the touched rows, process, write them back -----

  /** `(address, contract)` is one of the pairs the batch asks the balance table for. */
  predicate Listed(acts: seq<Activity>, address: Address, contract: Address)
  {
    exists e :: e in acts && e.contract == contract && (e.from == address || e.to == address)
  }

  function LoadSlice(db: Ledger, accounts: Accounts, acts: seq<Activity>): Ledger
  {
    Ledger(
      map k | k in db.balances && k.0 in accounts && Listed(acts, accounts[k.0], k.1) :: db.balances[k],
      map c | c in db.contracts && (exists e :: e in acts && e.contract == c) :: db.contracts[c])
  }

  function Upsert(db: Ledger, rows: Ledger): Ledger
  {
    Ledger(db.balances + rows.balances, db.contracts + rows.contracts)
  }

  function Batch(db: Ledger, accounts: Accounts, acts: seq<Activity>): Result<Ledger, Error>
  {
    match ApplyAll(LoadSlice(db, accounts, acts), acts)
    case Err(e) => Err(e)
    case Ok(rows) => Ok(Upsert(db, rows))
  }

  function RunBatches(db: Ledger, accounts: Accounts, batches: seq<seq<Activity>>): Result<Ledger, Error>
    decreases |batches|
  {
    if batches == [] then Ok(db)
    else
      match Batch(db, accounts, batches[0])
      case Err(e) => Err(e)
      case Ok(db1) => RunBatches(db1, accounts, batches[1..])
  }

  /** The account ids were joined by address. */
  predicate Joined(accounts: Accounts, acts: seq<Activity>)
  {
    forall e :: e in acts ==>
      && e.fromId in accounts && accounts[e.fromId] == e.from
      && e.toId in accounts && accounts[e.toId] == e.to
  }

  function NotOf(contract: Address): Activity -> bool
  {
    (a: Activity) => a.contract != contract
  }

  /** The tables that the balance job and the reindexer write; `tracked` are the contracts whose `track` is set. */
  class Database {
    var balances: map<Key, Balance>
    var contracts: map<Address, Contract>
    var tracked: set<Address>
    var activities: seq<Activity>

    ghost function State(): Ledger
      reads this
    {
      Ledger(balances, contracts)
    }

    /** One transaction: nothing is written when the handler throws. */
    method UpdateErc20AccountsBalance(accounts: Accounts, acts: seq<Activity>) returns (thrown: Option<Error>)
      requires Joined(accounts, acts)
      modifies this`balances, this`contracts
      ensures ApplyAll(old(State()), acts) == (match thrown { case None => Ok(State()) case Some(e) => Err(e) })
      ensures thrown.Some? ==> State() == old(State())
    {
      if acts == [] {
        return None;
      }
      var rows := LoadSlice(Ledger(balances, contracts), accounts, acts);
      var handler := new Erc20Handler(rows.balances, acts, rows.contracts);
      thrown := handler.Process();
      BatchRefinesFold(State(), accounts, acts);
      if thrown.None? {
        contracts := contracts + handler.erc20Contracts;
        balances := balances + handler.accountBalances;
      }
    }

    /**
     Stops tracking, then deletes and rebuilds the rows of one contract in one transaction; `acts` is its rebuilt log.
     A reindex that throws changes no table, but leaves the contract untracked.
     */
    method ReindexContract(accounts: Accounts, contract: Address, blockHeight: int, acts: seq<Activity>)
      returns (thrown: Option<Error>)
      modifies this
      ensures Reindex(old(State()), accounts, contract, blockHeight, acts)
              == (match thrown { case None => Ok(State()) case Some(e) => Err(e) })
      ensures thrown.None? ==>
                activities == Select(old(activities), NotOf(contract)) + acts && tracked == old(tracked) + {contract}
      ensures thrown.Some? ==>
                State() == old(State()) && activities == old(activities) && tracked == old(tracked) - {contract}
    {
      tracked := tracked - {contract};
      var savedBalances, savedContracts := balances, contracts;
      if contract !in contracts {
        return Some(ContractNotFound);
      }
      if !Joined(accounts, acts) {
        return Some(MissingAccounts);
      }
      balances := map k | k in balances && k.1 != contract :: balances[k];
      contracts := contracts - {contract};
      contracts := contracts[contract := Contract(Some(0), blockHeight)];
      assert contracts == old(contracts)[contract := Contract(Some(0), blockHeight)];
      BatchRefinesFold(State(), accounts, acts);
      thrown := UpdateErc20AccountsBalance(accounts, acts);
      if thrown.Some? {
        balances, contracts := savedBalances, savedContracts;
      } else {
        activities := Select(activities, NotOf(contract)) + acts;
        tracked := tracked + {contract};
      }
    }
  }

  /** The tables after the old rows of `contract` are deleted and a fresh contract row is inserted. */
  function Cleared(db: Ledger, contract: Address, blockHeight: int): Ledger
  {
    Ledger(
      map k | k in db.balances && k.1 != contract :: db.balances[k],
      db.contracts[contract := Contract(Some(0), blockHeight)])
  }

  function Reindex(db: Ledger, accounts: Accounts, contract: Address, blockHeight: int, acts: seq<Activity>)
    : Result<Ledger, Error>
  {
    if contract !in db.contracts then Err(ContractNotFound)
    else if !Joined(accounts, acts) then Err(MissingAccounts)
    else Batch(Cleared(db, contract, blockHeight), accounts, acts)
  }

  /** `rows` holds, for each of the given keys and contracts, what the whole ledger `l` holds. */
  ghost predicate Agrees(db: Ledger, keys: set<Key>, cs: set<Address>, l: Ledger, rows: Ledger)
  {
    && l.balances == db.balances + rows.balances
    && l.contracts == db.contracts + rows.contracts
    && keys * l.balances.Keys <= rows.balances.Keys
    && cs * l.contracts.Keys <= rows.contracts.Keys
  }

  lemma BalanceAgrees(db: Ledger, keys: set<Key>, cs: set<Address>, l: Ledger, rows: Ledger, key: Key, row: Balance)
    requires Agrees(db, keys, cs, l, rows)
    ensures Agrees(db, keys, cs, l.(balances := l.balances[key := row]), rows.(balances := rows.balances[key := row]))
  {
    assert l.balances[key := row] == db.balances + rows.balances[key := row];
  }

  lemma ContractAgrees(db: Ledger, keys: set<Key>, cs: set<Address>, l: Ledger, rows: Ledger, c: Address, row: Contract)
    requires Agrees(db, keys, cs, l, rows)
    ensures Agrees(db, keys, cs, l.(contracts := l.contracts[c := row]), rows.(contracts := rows.contracts[c := row]))
  {
    assert l.contracts[c := row] == db.contracts + rows.contracts[c := row];
  }

  /** The handler reads from its rows what it would read from the tables. */
  lemma ReadAgrees(db: Ledger, keys: set<Key>, cs: set<Address>, l: Ledger, rows: Ledger, key: Key)
    requires Agrees(db, keys, cs, l, rows) && key in keys && key.1 in cs
    ensures (key in l.balances <==> key in rows.balances) && AmountAt(l, key) == AmountAt(rows, key)
    ensures key in rows.balances ==> l.balances[key] == rows.balances[key]
    ensures (key.1 in l.contracts <==> key.1 in rows.contracts)
    ensures key.1 in rows.contracts ==> l.contracts[key.1] == rows.contracts[key.1]
  {
    assert key in l.balances ==> key in keys * l.balances.Keys;
    assert key.1 in l.contracts ==> key.1 in cs * l.contracts.Keys;
  }

  lemma AccountSideAgrees(db: Ledger, keys: set<Key>, cs: set<Address>, l: Ledger, rows: Ledger,
                          contract: Address, end: Address, id: AccountId, delta: int, height: int, stale: Error)
    requires Agrees(db, keys, cs, l, rows) && (id, contract) in keys && contract in cs && contract in l.contracts
    requires end != ZERO_ADDRESS
    ensures contract in rows.contracts
    ensures var r, r' := ApplySide(l, contract, end, id, delta, height, stale),
                         ApplySide(rows, contract, end, id, delta, height, stale);
            && (r.Err? ==> r' == r)
            && (r.Ok? ==> r'.Ok? && Agrees(db, keys, cs, r.value, r'.value) && contract in r.value.contracts)
  {
    var key := (id, contract);
    ReadAgrees(db, keys, cs, l, rows, key);
    var row := Balance(AmountAt(l, key) + delta, height);
    BalanceAgrees(db, keys, cs, l, rows, key, row);
  }

  lemma SideAgrees(db: Ledger, keys: set<Key>, cs: set<Address>, l: Ledger, rows: Ledger,
                   contract: Address, end: Address, id: AccountId, delta: int, height: int, stale: Error)
    requires Agrees(db, keys, cs, l, rows) && (id, contract) in keys && contract in cs && contract in l.contracts
    ensures contract in rows.contracts
    ensures var r, r' := ApplySide(l, contract, end, id, delta, height, stale),
                         ApplySide(rows, contract, end, id, delta, height, stale);
            && (r.Err? ==> r' == r)
            && (r.Ok? ==> r'.Ok? && Agrees(db, keys, cs, r.value, r'.value) && contract in r.value.contracts)
  {
    if end != ZERO_ADDRESS {
      AccountSideAgrees(db, keys, cs, l, rows, contract, end, id, delta, height, stale);
    } else {
      ReadAgrees(db, keys, cs, l, rows, (id, contract));
      ContractAgrees(db, keys, cs, l, rows, contract, ChangeSupply(l.contracts[contract], -delta, height));
    }
  }

  lemma ApplyAgrees(db: Ledger, keys: set<Key>, cs: set<Address>, l: Ledger, rows: Ledger, e: Activity)
    requires Agrees(db, keys, cs, l, rows)
    requires (e.fromId, e.contract) in keys && (e.toId, e.contract) in keys && e.contract in cs
    ensures var r, r' := Apply(l, e), Apply(rows, e);
            (r.Err? ==> r' == r) && (r.Ok? ==> r'.Ok? && Agrees(db, keys, cs, r.value, r'.value))
  {
    ReadAgrees(db, keys, cs, l, rows, (e.fromId, e.contract));
    if e.action != Approval && e.contract in l.contracts {
      SideAgrees(db, keys, cs, l, rows, e.contract, e.from, e.fromId, -e.amount, e.height, FromWasUpdated);
      var r := ApplySide(l, e.contract, e.from, e.fromId, -e.amount, e.height, FromWasUpdated);
      var r' := ApplySide(rows, e.contract, e.from, e.fromId, -e.amount, e.height, FromWasUpdated);
      if r.Ok? {
        SideAgrees(db, keys, cs, r.value, r'.value, e.contract, e.to, e.toId, e.amount, e.height, ToWasUpdated);
      }
    }
  }

  lemma {:induction false} ApplyAllAgrees(
      db: Ledger, keys: set<Key>, cs: set<Address>, l: Ledger, rows: Ledger, todo: seq<Activity>)
    requires Agrees(db, keys, cs, l, rows)
    requires forall e :: e in todo ==> (e.fromId, e.contract) in keys && (e.toId, e.contract) in keys && e.contract in cs
    ensures var r, r' := ApplyAll(l, todo), ApplyAll(rows, todo);
            (r.Err? ==> r' == r) && (r.Ok? ==> r'.Ok? && r.value == Upsert(db, r'.value))
    decreases |todo|
  {
    if todo != [] {
      assert todo[0] in todo;
      ApplyAgrees(db, keys, cs, l, rows, todo[0]);
      if Apply(l, todo[0]).Ok? {
        ApplyAllAgrees(db, keys, cs, Apply(l, todo[0]).value, Apply(rows, todo[0]).value, todo[1..]);
      }
    }
  }

  /** The load query returns every row that the batch can touch. */
  lemma SliceHasTouched(db: Ledger, accounts: Accounts, acts: seq<Activity>, keys: set<Key>, cs: set<Address>)
    requires Joined(accounts, acts)
    requires keys == (set e | e in acts :: (e.fromId, e.contract)) + (set e | e in acts :: (e.toId, e.contract))
    requires cs == set e | e in acts :: e.contract
    ensures Agrees(db, keys, cs, db, LoadSlice(db, accounts, acts))
  {
    var rows := LoadSlice(db, accounts, acts);
    assert db.balances + rows.balances == db.balances && db.contracts + rows.contracts == db.contracts;
    forall k | k in keys * db.balances.Keys ensures k in rows.balances {
      var e :| e in acts && e.contract == k.1 && (e.fromId == k.0 || e.toId == k.0);
      assert Listed(acts, accounts[k.0], k.1);
    }
  }

  /** Working on the loaded rows only gives the same tables, or the same error, as folding over the whole ledger. */
  lemma BatchRefinesFold(db: Ledger, accounts: Accounts, acts: seq<Activity>)
    requires Joined(accounts, acts)
    ensures Batch(db, accounts, acts) == ApplyAll(db, acts)
  {
    var keys := (set e | e in acts :: (e.fromId, e.contract)) + (set e | e in acts :: (e.toId, e.contract));
    var cs := set e | e in acts :: e.contract;
    SliceHasTouched(db, accounts, acts, keys, cs);
    ApplyAllAgrees(db, keys, cs, db, LoadSlice(db, accounts, acts), acts);
  }

  lemma {:induction false} ApplyAllConcat(l: Ledger, a: seq<Activity>, b: seq<Activity>)
    ensures ApplyAll(l, a + b) ==
            match ApplyAll(l, a) { case Err(e) => Err(e) case Ok(l1) => ApplyAll(l1, b) }
    decreases |a|
  {
    if a == [] {
      assert a + b == b;
    } else {
      assert (a + b)[0] == a[0] && (a + b)[1..] == a[1..] + b;
      if Apply(l, a[0]).Ok? {
        ApplyAllConcat(Apply(l, a[0]).value, a[1..], b);
      }
    }
  }

  /** However the log is cut into batches, the tables end as one fold over the whole log. */
  lemma {:induction false} BatchesRefineFold(db: Ledger, accounts: Accounts, batches: seq<seq<Activity>>)
    requires Joined(accounts, Flatten(batches))
    ensures RunBatches(db, accounts, batches) == ApplyAll(db, Flatten(batches))
    decreases |batches|
  {
    if batches != [] {
      var rest := Flatten(batches[1..]);
      assert forall e :: e in batches[0] ==> e in Flatten(batches);
      assert forall e :: e in rest ==> e in Flatten(batches);
      BatchRefinesFold(db, accounts, batches[0]);
      ApplyAllConcat(db, batches[0], rest);
      if Batch(db, accounts, batches[0]).Ok? {
        BatchesRefineFold(Batch(db, accounts, batches[0]).value, accounts, batches[1..]);
      }
    }
  }

  /** Any two sequences of checkpoints over the same heights give the same ledger. */
  lemma CheckpointsDoNotMatter(
      db: Ledger, accounts: Accounts, log: seq<Activity>, bounds: seq<int>, bounds': seq<int>)
    requires Sorted(log, ActivityHeight) && Joined(accounts, log)
    requires bounds != [] && bounds' != [] && Nondecreasing(bounds) && Nondecreasing(bounds')
    requires bounds[0] == bounds'[0] && bounds[|bounds| - 1] == bounds'[|bounds'| - 1]
    ensures RunBatches(db, accounts, Batches(log, ActivityHeight, bounds))
            == RunBatches(db, accounts, Batches(log, ActivityHeight, bounds'))
            == ApplyAll(db, Between(log, ActivityHeight, bounds[0], bounds[|bounds| - 1]))
  {
    var part := Between(log, ActivityHeight, bounds[0], bounds[|bounds| - 1]);
    BatchesFlatten(log, ActivityHeight, bounds);
    BatchesFlatten(log, ActivityHeight, bounds');
    BetweenMembers(log, ActivityHeight, bounds[0], bounds[|bounds| - 1]);
    assert Joined(accounts, part);
    BatchesRefineFold(db, accounts, Batches(log, ActivityHeight, bounds));
    BatchesRefineFold(db, accounts, Batches(log, ActivityHeight, bounds'));
  }

  // ----- what the fold computes -----

  predicate Touches(a: Activity, k: Key)
  {
    && a.action != Approval
    && a.contract == k.1
    && ((a.from != ZERO_ADDRESS && a.fromId == k.0) || (a.to != ZERO_ADDRESS && a.toId == k.0))
  }

  /** What one activity adds to the balance `k`. */
  function NetOne(a: Activity, k: Key): int
  {
    if a.action == Approval || a.contract != k.1 then 0
    else
      (if a.to != ZERO_ADDRESS && a.toId == k.0 then a.amount else 0)
      - (if a.from != ZERO_ADDRESS && a.fromId == k.0 then a.amount else 0)
  }

  /** Inflow minus outflow of `k` over a log. */
  function Net(acts: seq<Activity>, k: Key): int
  {
    if acts == [] then 0 else NetOne(acts[0], k) + Net(acts[1..], k)
  }

  /** The height of the last activity that touches `k`. */
  function LastTouch(acts: seq<Activity>, k: Key): Option<int>
  {
    if acts == [] then None
    else if LastTouch(acts[1..], k).Some? then LastTouch(acts[1..], k)
    else if Touches(acts[0], k) then Some(acts[0].height)
    else None
  }

  lemma ApplyRow(l: Ledger, a: Activity, k: Key)
    requires Apply(l, a).Ok?
    ensures var l1 := Apply(l, a).value;
            && AmountAt(l1, k) == AmountAt(l, k) + NetOne(a, k)
            && (if Touches(a, k) then k in l1.balances && l1.balances[k].lastUpdated == a.height
                else (k in l1.balances <==> k in l.balances) && (k in l.balances ==> l1.balances[k] == l.balances[k]))
            && l1.contracts.Keys == l.contracts.Keys
  {
  }

  /** Each balance is its old value plus inflow minus outflow; rows that no activity touches stay as they were. */
  lemma {:induction false} BalanceIsNetFlow(l: Ledger, acts: seq<Activity>, k: Key)
    requires ApplyAll(l, acts).Ok?
    ensures var l1 := ApplyAll(l, acts).value;
            && AmountAt(l1, k) == AmountAt(l, k) + Net(acts, k)
            && match LastTouch(acts, k)
               case Some(h) => k in l1.balances && l1.balances[k].lastUpdated == h
               case None => (k in l1.balances <==> k in l.balances) && (k in l.balances ==> l1.balances[k] == l.balances[k])
    decreases |acts|
  {
    if acts != [] {
      ApplyRow(l, acts[0], k);
      BalanceIsNetFlow(Apply(l, acts[0]).value, acts[1..], k);
    }
  }

  ghost predicate RowNotNewer(l: Ledger, acts: seq<Activity>, k: Key)
  {
    k in l.balances ==> forall i :: 0 <= i < |acts| && Touches(acts[i], k) ==> l.balances[k].lastUpdated <= acts[i].height
  }

  /** No stored row is newer than an activity that will touch it. */
  ghost predicate NotNewer(l: Ledger, acts: seq<Activity>)
  {
    forall k :: RowNotNewer(l, acts, k)
  }

  /** One activity goes through if and only if its contract is known and no row it touches is newer. */
  lemma ApplyOkIff(l: Ledger, a: Activity)
    ensures Apply(l, a).Ok?
            <==> && (a.action == Approval || a.contract in l.contracts)
                 && forall k :: k in l.balances && Touches(a, k) ==> l.balances[k].lastUpdated <= a.height
    ensures Apply(l, a) == Err(ContractNotFound) <==> a.action != Approval && a.contract !in l.contracts
  {
    var kf, kt := (a.fromId, a.contract), (a.toId, a.contract);
    assert a.action != Approval && a.from != ZERO_ADDRESS ==> Touches(a, kf);
    assert a.action != Approval && a.to != ZERO_ADDRESS ==> Touches(a, kt);
  }

  ghost predicate Known(l: Ledger, acts: seq<Activity>)
  {
    forall a :: a in acts ==> a.action == Approval || a.contract in l.contracts
  }

  /** The activities that touch a balance come in height order. */
  ghost predicate InHeightOrder(acts: seq<Activity>, k: Key)
  {
    forall i, j :: 0 <= i < j < |acts| && Touches(acts[i], k) && Touches(acts[j], k) ==> acts[i].height <= acts[j].height
  }

  lemma NotNewerStep(l: Ledger, acts: seq<Activity>)
    requires acts != [] && Apply(l, acts[0]).Ok?
    ensures var l1 := Apply(l, acts[0]).value;
            NotNewer(l, acts) && (forall k :: InHeightOrder(acts, k))
            <==> NotNewer(l1, acts[1..]) && (forall k :: InHeightOrder(acts[1..], k))
  {
    var l1, rest := Apply(l, acts[0]).value, acts[1..];
    ApplyOkIff(l, acts[0]);
    assert forall i :: 0 <= i < |rest| ==> rest[i] == acts[i + 1];
    forall k ensures InHeightOrder(acts, k)
                     <==> InHeightOrder(rest, k)
                          && (Touches(acts[0], k) ==> forall i :: 0 <= i < |rest| && Touches(rest[i], k) ==> acts[0].height <= rest[i].height)
    {
      OrderFirst(acts, k);
    }
    forall k ensures RowNotNewer(l, acts, k) && InHeightOrder(acts, k) <==> RowNotNewer(l1, rest, k) && InHeightOrder(rest, k)
    {
      ApplyRow(l, acts[0], k);
      OrderFirst(acts, k);
    }
    assert (forall k :: RowNotNewer(l, acts, k) && InHeightOrder(acts, k)) <==> (forall k :: RowNotNewer(l1, rest, k) && InHeightOrder(rest, k));
  }

  lemma OrderFirst(acts: seq<Activity>, k: Key)
    requires acts != []
    ensures InHeightOrder(acts, k)
            <==> InHeightOrder(acts[1..], k)
                 && (Touches(acts[0], k) ==>
                       forall i :: 0 <= i < |acts[1..]| && Touches(acts[1..][i], k) ==> acts[0].height <= acts[1..][i].height)
  {
    var rest := acts[1..];
    assert forall i :: 0 <= i < |rest| ==> rest[i] == acts[i + 1];
    if InHeightOrder(acts, k) {
      forall i, j | 0 <= i < j < |rest| && Touches(rest[i], k) && Touches(rest[j], k) ensures rest[i].height <= rest[j].height {
        assert acts[i + 1].height <= acts[j + 1].height;
      }
      forall i | 0 <= i < |rest| && Touches(acts[0], k) && Touches(rest[i], k) ensures acts[0].height <= rest[i].height {
        assert acts[0].height <= acts[i + 1].height;
      }
    }
    if InHeightOrder(rest, k)
       && (Touches(acts[0], k) ==> forall i :: 0 <= i < |rest| && Touches(rest[i], k) ==> acts[0].height <= rest[i].height)
    {
      forall i, j | 0 <= i < j < |acts| && Touches(acts[i], k) && Touches(acts[j], k) ensures acts[i].height <= acts[j].height {
        assert acts[j] == rest[j - 1];
        if i > 0 { assert acts[i] == rest[i - 1]; }
      }
    }
  }

  /**
   A list of activities in any order goes through if and only if all contracts are known, no stored row is newer than
   an activity that touches it, and each balance is touched in height order.
   */
  lemma {:induction false} ApplyAllOkIff(l: Ledger, acts: seq<Activity>)
    ensures ApplyAll(l, acts).Ok? <==> Known(l, acts) && NotNewer(l, acts) && (forall k :: InHeightOrder(acts, k))
    decreases |acts|
  {
    if acts != [] {
      ApplyOkIff(l, acts[0]);
      assert acts[0] in acts && forall a :: a in acts <==> a == acts[0] || a in acts[1..];
      if Apply(l, acts[0]).Ok? {
        var l1 := Apply(l, acts[0]).value;
        ApplyAllOkIff(l1, acts[1..]);
        NotNewerStep(l, acts);
        ApplyRow(l, acts[0], (0, acts[0].contract));
      } else if Known(l, acts) {
        var k :| k in l.balances && Touches(acts[0], k) && l.balances[k].lastUpdated > acts[0].height;
        assert !RowNotNewer(l, acts, k);
      }
    }
  }

  /** On a height-ordered log the fold succeeds if and only if all contracts are known and no stored row is newer. */
  lemma OrderedOkIff(l: Ledger, acts: seq<Activity>)
    requires Sorted(acts, ActivityHeight)
    ensures ApplyAll(l, acts).Ok? <==> Known(l, acts) && NotNewer(l, acts)
  {
    ApplyAllOkIff(l, acts);
    forall k ensures InHeightOrder(acts, k) {
      assert forall i, j :: 0 <= i < j < |acts| ==> ActivityHeight(acts[i]) <= ActivityHeight(acts[j]);
    }
  }

  /** On a height-ordered log over older rows the "was updated" errors never fire; the fold fails only for an unknown contract. */
  lemma {:induction false} NeverWasUpdated(l: Ledger, acts: seq<Activity>)
    requires Sorted(acts, ActivityHeight) && NotNewer(l, acts)
    ensures ApplyAll(l, acts).Ok? <==> Known(l, acts)
    ensures ApplyAll(l, acts).Err? ==> ApplyAll(l, acts).error == ContractNotFound
    decreases |acts|
  {
    OrderedOkIff(l, acts);
    if acts != [] {
      ApplyOkIff(l, acts[0]);
      forall k | k in l.balances && Touches(acts[0], k) ensures l.balances[k].lastUpdated <= acts[0].height {
        assert RowNotNewer(l, acts, k);
      }
      if Apply(l, acts[0]).Ok? {
        NotNewerStep(l, acts);
        var rest := acts[1..];
        forall k ensures InHeightOrder(acts, k) {
          assert forall i, j :: 0 <= i < j < |acts| ==> ActivityHeight(acts[i]) <= ActivityHeight(acts[j]);
        }
        NeverWasUpdated(Apply(l, acts[0]).value, rest);
      }
    }
  }

  // ----- conservation -----

  function Amounts(l: Ledger, contract: Address): map<Key, int>
  {
    map k | k in l.balances && k.1 == contract :: l.balances[k].amount
  }

  /** Supply minus the sum of the balances of one contract. */
  ghost function Gap(l: Ledger, contract: Address): int
    requires contract in l.contracts && l.contracts[contract].totalSupply.Some?
  {
    l.contracts[contract].totalSupply.value - Total(Amounts(l, contract))
  }

  ghost predicate HasSupply(l: Ledger, contract: Address)
  {
    contract in l.contracts && l.contracts[contract].totalSupply.Some?
  }

  lemma SideGap(l: Ledger, c: Address, contract: Address, end: Address, id: AccountId, delta: int, height: int, stale: Error)
    requires HasSupply(l, c) && contract in l.contracts
    requires ApplySide(l, contract, end, id, delta, height, stale).Ok?
    ensures var l1 := ApplySide(l, contract, end, id, delta, height, stale).value;
            HasSupply(l1, c) && contract in l1.contracts && Gap(l1, c) == Gap(l, c) - (if c == contract then delta else 0)
  {
    var l1 := ApplySide(l, contract, end, id, delta, height, stale).value;
    if end != ZERO_ADDRESS && c == contract {
      var key := (id, contract);
      TotalUpdate(Amounts(l, c), key, AmountAt(l, key) + delta);
      assert Amounts(l1, c) == Amounts(l, c)[key := AmountAt(l, key) + delta];
    } else {
      assert Amounts(l1, c) == Amounts(l, c);
    }
  }

  lemma ApplyGap(l: Ledger, a: Activity, c: Address)
    requires HasSupply(l, c) && Apply(l, a).Ok?
    ensures HasSupply(Apply(l, a).value, c) && Gap(Apply(l, a).value, c) == Gap(l, c)
  {
    if a.action != Approval {
      SideGap(l, c, a.contract, a.from, a.fromId, -a.amount, a.height, FromWasUpdated);
      var l1 := ApplySide(l, a.contract, a.from, a.fromId, -a.amount, a.height, FromWasUpdated).value;
      assert Apply(l, a) == ApplySide(l1, a.contract, a.to, a.toId, a.amount, a.height, ToWasUpdated);
      SideGap(l1, c, a.contract, a.to, a.toId, a.amount, a.height, ToWasUpdated);
    }
  }

  /** Transfers, mints, burns, deposits, withdrawals and self-transfers all leave the gap of every contract unchanged. */
  lemma {:induction false} GapConserved(l: Ledger, acts: seq<Activity>, c: Address)
    requires HasSupply(l, c) && ApplyAll(l, acts).Ok?
    ensures HasSupply(ApplyAll(l, acts).value, c) && Gap(ApplyAll(l, acts).value, c) == Gap(l, c)
    decreases |acts|
  {
    if acts != [] {
      ApplyGap(l, acts[0], c);
      GapConserved(Apply(l, acts[0]).value, acts[1..], c);
    }
  }

  /** On an ordered log the last touch is the highest. */
  lemma {:induction false} LastTouchIs(acts: seq<Activity>, k: Key)
    requires Sorted(acts, ActivityHeight)
    ensures match LastTouch(acts, k)
            case None => forall a :: a in acts ==> !Touches(a, k)
            case Some(h) => && (exists a :: a in acts && Touches(a, k) && a.height == h)
                            && (forall a :: a in acts && Touches(a, k) ==> a.height <= h)
  {
    if acts != [] {
      var rest := acts[1..];
      assert forall i, j :: 0 <= i < j < |rest| ==> rest[i] == acts[i + 1] && rest[j] == acts[j + 1];
      LastTouchIs(rest, k);
      assert forall a :: a in acts <==> a == acts[0] || a in rest;
      forall a | a in rest ensures acts[0].height <= a.height {
        var i :| 0 <= i < |rest| && rest[i] == a;
        assert ActivityHeight(acts[0]) <= ActivityHeight(acts[i + 1]);
      }
    }
  }

  // ----- balances and supply as folds of their own -----

  function BalanceSide(rows: map<Key, Balance>, k: Key, end: Address, delta: int, height: int): map<Key, Balance>
  {
    if end == ZERO_ADDRESS then rows
    else rows[k := Balance((if k in rows then rows[k].amount else 0) + delta, height)]
  }

  /** The balance rows alone: every activity moves its amount from one end to the other. */
  function FoldBalances(rows: map<Key, Balance>, acts: seq<Activity>): map<Key, Balance>
    decreases |acts|
  {
    if acts == [] then rows
    else
      var a := acts[0];
      if a.action == Approval then FoldBalances(rows, acts[1..])
      else
        var rows1 := BalanceSide(rows, (a.fromId, a.contract), a.from, -a.amount, a.height);
        FoldBalances(BalanceSide(rows1, (a.toId, a.contract), a.to, a.amount, a.height), acts[1..])
  }

  lemma {:induction false} BalancesAreFold(l: Ledger, acts: seq<Activity>)
    requires ApplyAll(l, acts).Ok?
    ensures ApplyAll(l, acts).value.balances == FoldBalances(l.balances, acts)
    decreases |acts|
  {
    if acts != [] { BalancesAreFold(Apply(l, acts[0]).value, acts[1..]); }
  }

  lemma {:induction false} FoldBalancesConcat(rows: map<Key, Balance>, a: seq<Activity>, b: seq<Activity>)
    ensures FoldBalances(rows, a + b) == FoldBalances(FoldBalances(rows, a), b)
    decreases |a|
  {
    if a == [] {
      assert a + b == b;
    } else {
      assert (a + b)[0] == a[0] && (a + b)[1..] == a[1..] + b;
      var x := a[0];
      if x.action == Approval {
        FoldBalancesConcat(rows, a[1..], b);
      } else {
        var rows1 := BalanceSide(rows, (x.fromId, x.contract), x.from, -x.amount, x.height);
        FoldBalancesConcat(BalanceSide(rows1, (x.toId, x.contract), x.to, x.amount, x.height), a[1..], b);
      }
    }
  }

  /** What one activity adds to the supply of a contract. */
  function MintOne(a: Activity, c: Address): int
  {
    if a.action == Approval || a.contract != c then 0
    else (if a.from == ZERO_ADDRESS then a.amount else 0) - (if a.to == ZERO_ADDRESS then a.amount else 0)
  }

  function MintNet(acts: seq<Activity>, c: Address): int
  {
    if acts == [] then 0 else MintOne(acts[0], c) + MintNet(acts[1..], c)
  }

  function Plus(supply: Option<int>, delta: int): Option<int>
  {
    if supply.Some? then Some(supply.value + delta) else None
  }

  lemma {:induction false} ContractsStay(l: Ledger, acts: seq<Activity>)
    requires ApplyAll(l, acts).Ok?
    ensures ApplyAll(l, acts).value.contracts.Keys == l.contracts.Keys
    decreases |acts|
  {
    if acts != [] {
      ApplyRow(l, acts[0], (0, ""));
      ContractsStay(Apply(l, acts[0]).value, acts[1..]);
    }
  }

  lemma {:induction false} SupplyIsMintNet(l: Ledger, acts: seq<Activity>, c: Address)
    requires ApplyAll(l, acts).Ok? && c in l.contracts
    ensures var l1 := ApplyAll(l, acts).value;
            c in l1.contracts && l1.contracts[c].totalSupply == Plus(l.contracts[c].totalSupply, MintNet(acts, c))
    decreases |acts|
  {
    if acts != [] {
      ApplyRow(l, acts[0], (0, c));
      SupplyIsMintNet(Apply(l, acts[0]).value, acts[1..], c);
    }
  }

  /** The height of the last activity that minted or burned tokens of `c`, or `before` if none did. */
  function SupplyStamp(acts: seq<Activity>, c: Address, before: int): int
    decreases |acts|
  {
    if acts == [] then before
    else
      var changes := acts[0].action != Approval && acts[0].contract == c && (acts[0].from == ZERO_ADDRESS || acts[0].to == ZERO_ADDRESS);
      SupplyStamp(acts[1..], c, if changes then acts[0].height else before)
  }

  lemma OneStamp(l: Ledger, a: Activity, c: Address)
    requires Apply(l, a).Ok? && c in l.contracts
    ensures var l1 := Apply(l, a).value;
            && c in l1.contracts
            && l1.contracts[c].totalSupply.Some? == l.contracts[c].totalSupply.Some?
            && l1.contracts[c].lastUpdated == if l.contracts[c].totalSupply.Some? then SupplyStamp([a], c, l.contracts[c].lastUpdated)
                                             else l.contracts[c].lastUpdated
  {
    assert [a][1..] == [];
  }

  /** A contract row with a supply carries the height of its last mint or burn; one without is never written. */
  lemma {:induction false} ContractStamp(l: Ledger, acts: seq<Activity>, c: Address)
    requires ApplyAll(l, acts).Ok? && c in l.contracts
    ensures var l1 := ApplyAll(l, acts).value;
            && c in l1.contracts
            && l1.contracts[c].lastUpdated == if l.contracts[c].totalSupply.Some? then SupplyStamp(acts, c, l.contracts[c].lastUpdated)
                                             else l.contracts[c].lastUpdated
    decreases |acts|
  {
    if acts != [] {
      OneStamp(l, acts[0], c);
      ContractStamp(Apply(l, acts[0]).value, acts[1..], c);
      assert [acts[0]][1..] == [];
    }
  }

  lemma {:induction false} MintNetConcat(a: seq<Activity>, b: seq<Activity>, c: Address)
    ensures MintNet(a + b, c) == MintNet(a, c) + MintNet(b, c)
  {
    if a == [] {
      assert a + b == b;
    } else {
      assert (a + b)[1..] == a[1..] + b;
      MintNetConcat(a[1..], b, c);
    }
  }

  lemma {:induction false} NetConcat(a: seq<Activity>, b: seq<Activity>, k: Key)
    ensures Net(a + b, k) == Net(a, k) + Net(b, k)
  {
    if a == [] {
      assert a + b == b;
    } else {
      assert (a + b)[1..] == a[1..] + b;
      NetConcat(a[1..], b, k);
    }
  }

  lemma {:induction false} NetOfOthers(acts: seq<Activity>, k: Key)
    requires forall i :: 0 <= i < |acts| ==> acts[i].contract != k.1
    ensures Net(acts, k) == 0
  {
    if acts != [] {
      assert forall i :: 0 <= i < |acts[1..]| ==> acts[1..][i] == acts[i + 1];
      NetOfOthers(acts[1..], k);
    }
  }

  /** What the fold leaves in one balance row. */
  lemma {:induction false} FoldedRow(rows: map<Key, Balance>, acts: seq<Activity>, k: Key)
    ensures var rows1 := FoldBalances(rows, acts);
            && (if k in rows1 then rows1[k].amount else 0) == (if k in rows then rows[k].amount else 0) + Net(acts, k)
            && match LastTouch(acts, k)
               case Some(h) => k in rows1 && rows1[k].lastUpdated == h
               case None => (k in rows1 <==> k in rows) && (k in rows ==> rows1[k] == rows[k])
    decreases |acts|
  {
    if acts != [] {
      var a := acts[0];
      if a.action == Approval {
        FoldedRow(rows, acts[1..], k);
      } else {
        var rows1 := BalanceSide(rows, (a.fromId, a.contract), a.from, -a.amount, a.height);
        FoldedRow(BalanceSide(rows1, (a.toId, a.contract), a.to, a.amount, a.height), acts[1..], k);
      }
    }
  }

  /** The flow of a balance does not depend on the order of the activities. */
  lemma {:induction false} NetBag(a: seq<Activity>, b: seq<Activity>, k: Key)
    requires multiset(a) == multiset(b)
    ensures Net(a, k) == Net(b, k)
    decreases |a|
  {
    assert |multiset(a)| == |multiset(b)|;
    if a != [] {
      var x := a[0];
      var y, z := FindFirst(a, b);
      NetBag(a[1..], y + z, k);
      NetConcat(y + [x], z, k);
      NetConcat(y, [x], k);
      NetConcat(y, z, k);
      assert [x][1..] == [];
    }
  }

  // ----- reindexing one contract from zero -----

  lemma {:induction false} OtherContractsUntouched(l: Ledger, acts: seq<Activity>, contract: Address, c: Address)
    requires c != contract && (forall a :: a in acts ==> a.contract == contract)
    requires ApplyAll(l, acts).Ok?
    ensures c in l.contracts ==> c in ApplyAll(l, acts).value.contracts
                                 && ApplyAll(l, acts).value.contracts[c] == l.contracts[c]
    decreases |acts|
  {
    if acts != [] {
      assert acts[0] in acts;
      OtherContractsUntouched(Apply(l, acts[0]).value, acts[1..], contract, c);
    }
  }

  /** A reindex of a known contract succeeds on its height-ordered log, and leaves its supply equal to the sum of its balances. */
  lemma ReindexSupplyIsSumOfBalances(
      db: Ledger, accounts: Accounts, contract: Address, blockHeight: int, acts: seq<Activity>)
    requires contract in db.contracts && Joined(accounts, acts)
    requires Sorted(acts, ActivityHeight) && forall a :: a in acts ==> a.contract == contract
    ensures Reindex(db, accounts, contract, blockHeight, acts).Ok?
    ensures var l := Reindex(db, accounts, contract, blockHeight, acts).value;
            && HasSupply(l, contract) && l.contracts[contract].totalSupply.value == Total(Amounts(l, contract))
            && (forall k: Key :: k.1 == contract ==> AmountAt(l, k) == Net(acts, k))
            && l.contracts[contract].lastUpdated == SupplyStamp(acts, contract, blockHeight)
  {
    var start := Cleared(db, contract, blockHeight);
    BatchRefinesFold(start, accounts, acts);
    assert forall i :: 0 <= i < |acts| ==> acts[i].contract == contract;
    NeverWasUpdated(start, acts);
    ContractStamp(start, acts, contract);
    assert Amounts(start, contract) == map[];
    GapConserved(start, acts, contract);
    forall k: Key | k.1 == contract ensures AmountAt(ApplyAll(start, acts).value, k) == Net(acts, k) {
      BalanceIsNetFlow(start, acts, k);
    }
  }

  /** A reindex over the contract's ordered log fails exactly for an unknown contract or an activity without its accounts. */
  lemma ReindexOkIff(db: Ledger, accounts: Accounts, contract: Address, blockHeight: int, acts: seq<Activity>)
    requires Sorted(acts, ActivityHeight) && forall a :: a in acts ==> a.contract == contract
    ensures Reindex(db, accounts, contract, blockHeight, acts).Ok?
            <==> contract in db.contracts
                 && forall a :: a in acts ==>
                      && a.fromId in accounts && accounts[a.fromId] == a.from
                      && a.toId in accounts && accounts[a.toId] == a.to
  {
    if contract in db.contracts && Joined(accounts, acts) {
      ReindexSupplyIsSumOfBalances(db, accounts, contract, blockHeight, acts);
    }
  }

  /** A reindex changes no balance and no contract row of any other contract. */
  lemma ReindexTouchesOneContract(
      db: Ledger, accounts: Accounts, contract: Address, blockHeight: int, acts: seq<Activity>, k: Key)
    requires Joined(accounts, acts) && k.1 != contract && forall a :: a in acts ==> a.contract == contract
    requires Reindex(db, accounts, contract, blockHeight, acts).Ok?
    ensures var l := Reindex(db, accounts, contract, blockHeight, acts).value;
            && (k in l.balances <==> k in db.balances) && (k in db.balances ==> l.balances[k] == db.balances[k])
            && (k.1 in db.contracts ==> k.1 in l.contracts && l.contracts[k.1] == db.contracts[k.1])
  {
    var start := Cleared(db, contract, blockHeight);
    BatchRefinesFold(start, accounts, acts);
    BalanceIsNetFlow(start, acts, k);
    NoTouch(acts, contract, k);
    OtherContractsUntouched(start, acts, contract, k.1);
  }

  lemma {:induction false} NoTouch(acts: seq<Activity>, contract: Address, k: Key)
    requires k.1 != contract && forall a :: a in acts ==> a.contract == contract
    ensures LastTouch(acts, k) == None
  {
    if acts != [] {
      assert acts[0] in acts;
      NoTouch(acts[1..], contract, k);
    }
  }

  // ----- the order in which activities enter the log -----

  function TxId(a: Activity): int { a.cosmosTxId }

  /** EVM events and Cosmos events of one range, merged by a stable sort on the transaction id. */
  function BuildErc20Activities(evm: seq<Activity>, cosmos: seq<Activity>): seq<Activity>
  {
    StableSort(evm + cosmos, TxId)
  }

  /** Building two adjacent ranges separately gives the same log as building them together. */
  lemma BuildSplits(evm1: seq<Activity>, evm2: seq<Activity>, cosmos1: seq<Activity>, cosmos2: seq<Activity>)
    requires forall x, y :: x in evm1 + cosmos1 && y in evm2 + cosmos2 ==> x.cosmosTxId < y.cosmosTxId
    ensures BuildErc20Activities(evm1 + evm2, cosmos1 + cosmos2)
            == BuildErc20Activities(evm1, cosmos1) + BuildErc20Activities(evm2, cosmos2)
  {
    MergeSplits(evm1, evm2, cosmos1, cosmos2, TxId);
  }

  /** When transaction ids grow with height, the merged log is ordered by height, as the balance job needs. */
  lemma BuildOrderedByHeight(evm: seq<Activity>, cosmos: seq<Activity>)
    requires forall x, y :: x in evm + cosmos && y in evm + cosmos && x.cosmosTxId <= y.cosmosTxId ==> x.height <= y.height
    ensures Sorted(BuildErc20Activities(evm, cosmos), ActivityHeight)
    ensures multiset(BuildErc20Activities(evm, cosmos)) == multiset(evm + cosmos)
  {
    StableSortCorrect(evm + cosmos, TxId);
    var log := BuildErc20Activities(evm, cosmos);
    forall i, j | 0 <= i < j < |log| ensures log[i].height <= log[j].height {
      assert TxId(log[i]) <= TxId(log[j]);
      assert log[i] in multiset(log) && log[j] in multiset(log);
      assert log[i] in evm + cosmos && log[j] in evm + cosmos;
    }
  }
}
