/**
 Delegator rows and the delegator count of each validator, updated one staking
 message at a time, each message in its own transaction together with the checkpoint.
 */
module Delegators {
  import opened Wrappers
  import opened Tables

  type Address = string

  /** A delegator's row for one validator. */
  type Key = (Address, Address)

  datatype Action =
    | Delegate(validator: Address)
    | Undelegate(validator: Address)
    | CancelUndelegate(validator: Address)
    | Redelegate(src: Address, dst: Address)

  datatype Msg = Msg(id: int, delegator: Address, action: Action, amount: int)

  /** `counts` is `delegators_count` of every known validator. */
  datatype Db = Db(counts: map<Address, int>, rows: map<Key, int>, checkpoint: int)

  // ----- one message -----

  function HandleDelegate(db: Db, d: Address, v: Address, amount: int): Db
  {
    if v !in db.counts then db
    else if (d, v) !in db.rows then
      db.(rows := db.rows[(d, v) := amount], counts := db.counts[v := db.counts[v] + 1])
    else db.(rows := db.rows[(d, v) := db.rows[(d, v)] + amount])
  }

  function HandleUndelegate(db: Db, d: Address, v: Address, amount: int): Db
  {
    if v !in db.counts || (d, v) !in db.rows then db
    else if db.rows[(d, v)] - amount > 0 then db.(rows := db.rows[(d, v) := db.rows[(d, v)] - amount])
    else db.(rows := db.rows - {(d, v)}, counts := db.counts[v := db.counts[v] - 1])
  }

  /** Both ends were read before anything is written: `before` is what was read, `db` the transaction so far. */
  function CreditDestination(before: Db, db: Db, d: Address, dst: Address, amount: int): Db
    requires dst in before.counts
  {
    if (d, dst) !in before.rows then
      db.(rows := db.rows[(d, dst) := amount], counts := db.counts[dst := before.counts[dst] + 1])
    else if (d, dst) in db.rows then db.(rows := db.rows[(d, dst) := before.rows[(d, dst)] + amount])
    else db
  }

  function HandleRedelegate(db: Db, d: Address, src: Address, dst: Address, amount: int): Db
  {
    if src !in db.counts || dst !in db.counts then db
    else CreditDestination(db, HandleUndelegate(db, d, src, amount), d, dst, amount)
  }

  function Handle(db: Db, m: Msg): Db
  {
    match m.action
    case Delegate(v) => HandleDelegate(db, m.delegator, v, m.amount)
    case CancelUndelegate(v) => HandleDelegate(db, m.delegator, v, m.amount)
    case Undelegate(v) => HandleUndelegate(db, m.delegator, v, m.amount)
    case Redelegate(src, dst) => HandleRedelegate(db, m.delegator, src, dst, m.amount)
  }

  function Commit(db: Db, m: Msg): Db
  {
    Handle(db, m).(checkpoint := m.id)
  }

  function CommitAll(db: Db, ms: seq<Msg>): Db
    decreases |ms|
  {
    if ms == [] then db else CommitAll(Commit(db, ms[0]), ms[1..])
  }

  /** The messages of a page whose transactions were not rolled back. */
  function Survivors(page: seq<Msg>, failed: seq<bool>): seq<Msg>
    requires |failed| == |page|
  {
    if page == [] then []
    else (if failed[0] then [] else [page[0]]) + Survivors(page[1..], failed[1..])
  }

  class CrawlDelegators {
    var counts: map<Address, int>
    var rows: map<Key, int>
    var checkpoint: int

    ghost function State(): Db
      reads this
    {
      Db(counts, rows, checkpoint)
    }

    method HandleDelegateTxMsg(d: Address, v: Address, amount: int)
      modifies this`counts, this`rows
      ensures State() == HandleDelegate(old(State()), d, v, amount)
    {
      if v !in counts {
        return;
      }
      if (d, v) !in rows {
        rows := rows[(d, v) := amount];
        counts := counts[v := counts[v] + 1];
      } else {
        rows := rows[(d, v) := rows[(d, v)] + amount];
      }
    }

    method HandleUnDelegateTxMsg(d: Address, v: Address, amount: int)
      modifies this`counts, this`rows
      ensures State() == HandleUndelegate(old(State()), d, v, amount)
    {
      if v !in counts {
        return;
      }
      if (d, v) !in rows {
        return;
      }
      var remain := rows[(d, v)] - amount;
      if remain > 0 {
        rows := rows[(d, v) := remain];
      } else {
        rows := rows - {(d, v)};
        counts := counts[v := counts[v] - 1];
      }
    }

    method HandleReDelegateTxMsg(d: Address, src: Address, dst: Address, amount: int)
      modifies this`counts, this`rows
      ensures State() == HandleRedelegate(old(State()), d, src, dst, amount)
    {
      if src !in counts || dst !in counts {
        return;
      }
      var srcCount, dstCount := counts[src], counts[dst];
      var delegatorSrc := if (d, src) in rows then Some(rows[(d, src)]) else None;
      var delegatorDst := if (d, dst) in rows then Some(rows[(d, dst)]) else None;
      if delegatorSrc.Some? {
        var remain := delegatorSrc.value - amount;
        if remain > 0 {
          rows := rows[(d, src) := remain];
        } else {
          rows := rows - {(d, src)};
          counts := counts[src := srcCount - 1];
        }
      }
      if delegatorDst.None? {
        rows := rows[(d, dst) := amount];
        counts := counts[dst := dstCount + 1];
      } else if (d, dst) in rows {
        rows := rows[(d, dst) := delegatorDst.value + amount];
      }
    }

    /** The transaction of one message: its effect and the checkpoint. */
    method HandleMsg(m: Msg)
      modifies this
      ensures State() == Commit(old(State()), m)
    {
      match m.action {
        case Delegate(v) => HandleDelegateTxMsg(m.delegator, v, m.amount);
        case Redelegate(src, dst) => HandleReDelegateTxMsg(m.delegator, src, dst, m.amount);
        case Undelegate(v) => HandleUnDelegateTxMsg(m.delegator, v, m.amount);
        case CancelUndelegate(v) => HandleDelegateTxMsg(m.delegator, v, m.amount);
      }
      checkpoint := m.id;
    }

    /** One page: each message in its own transaction; `failed[i]` says that transaction `i` throws and is rolled back. */
    method HandleJob(page: seq<Msg>, failed: seq<bool>)
      requires |failed| == |page|
      modifies this
      ensures State() == CommitAll(old(State()), Survivors(page, failed))
    {
      var i := 0;
      assert page[0..] == page && failed[0..] == failed;
      while i < |page|
        invariant 0 <= i <= |page|
        invariant CommitAll(old(State()), Survivors(page, failed)) == CommitAll(State(), Survivors(page[i..], failed[i..]))
      {
        assert page[i..][0] == page[i] && page[i..][1..] == page[i + 1..];
        assert failed[i..][0] == failed[i] && failed[i..][1..] == failed[i + 1..];
        ghost var rest := Survivors(page[i + 1..], failed[i + 1..]);
        assert ([page[i]] + rest)[0] == page[i] && ([page[i]] + rest)[1..] == rest && [] + rest == rest;
        if !failed[i] {
          HandleMsg(page[i]);
        }
        i := i + 1;
      }
    }
  }

  // ----- counts and amounts -----

  function RowsOf(rows: map<Key, int>, v: Address): set<Key>
  {
    set k | k in rows && k.1 == v
  }

  /** Every count is the number of rows, every stored amount is positive, and rows belong to known validators. */
  ghost predicate Inv(db: Db)
  {
    && (forall v :: v in db.counts ==> db.counts[v] == |RowsOf(db.rows, v)|)
    && (forall k :: k in db.rows ==> db.rows[k] > 0 && k.1 in db.counts)
  }

  lemma RowsOfInsert(rows: map<Key, int>, k: Key, amount: int, v: Address)
    ensures |RowsOf(rows[k := amount], v)| == |RowsOf(rows, v)| + if k !in rows && k.1 == v then 1 else 0
  {
    if k.1 == v {
      assert RowsOf(rows[k := amount], v) == RowsOf(rows, v) + {k};
    } else {
      assert RowsOf(rows[k := amount], v) == RowsOf(rows, v);
    }
  }

  lemma RowsOfRemove(rows: map<Key, int>, k: Key, v: Address)
    requires k in rows
    ensures |RowsOf(rows - {k}, v)| == |RowsOf(rows, v)| - if k.1 == v then 1 else 0
  {
    if k.1 == v {
      assert RowsOf(rows - {k}, v) == RowsOf(rows, v) - {k};
    } else {
      assert RowsOf(rows - {k}, v) == RowsOf(rows, v);
    }
  }

  lemma DelegateKeepsInv(db: Db, d: Address, v: Address, amount: int)
    requires Inv(db) && amount > 0
    ensures Inv(HandleDelegate(db, d, v, amount))
  {
    if v in db.counts {
      var db1 := HandleDelegate(db, d, v, amount);
      forall x | x in db1.counts ensures db1.counts[x] == |RowsOf(db1.rows, x)| {
        RowsOfInsert(db.rows, (d, v), db1.rows[(d, v)], x);
      }
    }
  }

  lemma UndelegateKeepsInv(db: Db, d: Address, v: Address, amount: int)
    requires Inv(db) && amount > 0
    ensures Inv(HandleUndelegate(db, d, v, amount))
  {
    if v in db.counts && (d, v) in db.rows {
      var db1 := HandleUndelegate(db, d, v, amount);
      forall x | x in db1.counts ensures db1.counts[x] == |RowsOf(db1.rows, x)| {
        if db.rows[(d, v)] - amount > 0 {
          RowsOfInsert(db.rows, (d, v), db1.rows[(d, v)], x);
        } else {
          RowsOfRemove(db.rows, (d, v), x);
        }
      }
    }
  }

  lemma RedelegateKeepsInv(db: Db, d: Address, src: Address, dst: Address, amount: int)
    requires Inv(db) && amount > 0
    ensures Inv(HandleRedelegate(db, d, src, dst, amount))
  {
    if src in db.counts && dst in db.counts {
      var mid := HandleUndelegate(db, d, src, amount);
      UndelegateKeepsInv(db, d, src, amount);
      var end := CreditDestination(db, mid, d, dst, amount);
      if (d, dst) !in db.rows {
        assert (d, dst) !in mid.rows && mid.counts[dst] == db.counts[dst];
        forall x | x in end.counts ensures end.counts[x] == |RowsOf(end.rows, x)| {
          RowsOfInsert(mid.rows, (d, dst), amount, x);
        }
      } else if (d, dst) in mid.rows {
        forall x | x in end.counts ensures end.counts[x] == |RowsOf(end.rows, x)| {
          RowsOfInsert(mid.rows, (d, dst), end.rows[(d, dst)], x);
        }
      }
    }
  }

  lemma CommitKeepsInv(db: Db, m: Msg)
    requires Inv(db) && m.amount > 0
    ensures Inv(Commit(db, m))
  {
    match m.action
    case Delegate(v) => DelegateKeepsInv(db, m.delegator, v, m.amount);
    case CancelUndelegate(v) => DelegateKeepsInv(db, m.delegator, v, m.amount);
    case Undelegate(v) => UndelegateKeepsInv(db, m.delegator, v, m.amount);
    case Redelegate(src, dst) => RedelegateKeepsInv(db, m.delegator, src, dst, m.amount);
  }

  // ----- runs of the job -----

  /** One run of the job: the page it fetched, and which of its transactions failed. */
  datatype Run = Run(page: seq<Msg>, failed: seq<bool>)

  ghost predicate Ascending(ms: seq<Msg>)
  {
    forall i, j :: 0 <= i < j < |ms| ==> ms[i].id < ms[j].id
  }

  /** The page query: messages after the checkpoint, in id order. */
  ghost predicate Fetched(db: Db, r: Run)
  {
    && |r.failed| == |r.page|
    && Ascending(r.page)
    && (forall i :: 0 <= i < |r.page| ==> r.page[i].id > db.checkpoint && r.page[i].amount > 0)
  }

  ghost predicate IsRun(db: Db, runs: seq<Run>)
    decreases |runs|
  {
    runs != [] ==> Fetched(db, runs[0]) && IsRun(CommitAll(db, Survivors(runs[0].page, runs[0].failed)), runs[1..])
  }

  /** Everything committed over a sequence of runs, in commit order. */
  ghost function Committed(db: Db, runs: seq<Run>): seq<Msg>
    requires IsRun(db, runs)
    decreases |runs|
  {
    if runs == [] then []
    else
      var ms := Survivors(runs[0].page, runs[0].failed);
      ms + Committed(CommitAll(db, ms), runs[1..])
  }

  lemma {:induction false} SurvivorIndex(page: seq<Msg>, failed: seq<bool>, i: nat) returns (j: nat)
    requires |failed| == |page| && i < |Survivors(page, failed)|
    ensures j < |page| && Survivors(page, failed)[i] == page[j] && i <= j
  {
    var head := if failed[0] then 0 else 1;
    if i < head {
      j := 0;
    } else {
      j := SurvivorIndex(page[1..], failed[1..], i - head);
      j := j + 1;
    }
  }

  /** A message of a page is committed if and only if its transaction did not fail. */
  lemma {:induction false} CommittedIff(page: seq<Msg>, failed: seq<bool>, j: nat)
    requires |failed| == |page| && Ascending(page) && j < |page|
    ensures page[j] in Survivors(page, failed) <==> !failed[j]
  {
    var rest := Survivors(page[1..], failed[1..]);
    forall m | m in rest ensures m != page[0] {
      var i :| 0 <= i < |rest| && rest[i] == m;
      var k := SurvivorIndex(page[1..], failed[1..], i);
      assert page[1..][k] == page[k + 1];
    }
    if j > 0 { CommittedIff(page[1..], failed[1..], j - 1); }
  }

  lemma {:induction false} SurvivorsAscending(page: seq<Msg>, failed: seq<bool>)
    requires |failed| == |page| && Ascending(page)
    ensures Ascending(Survivors(page, failed))
  {
    if page != [] {
      var rest := Survivors(page[1..], failed[1..]);
      SurvivorsAscending(page[1..], failed[1..]);
      forall i | 0 <= i < |rest| ensures page[0].id < rest[i].id {
        var j := SurvivorIndex(page[1..], failed[1..], i);
        assert page[1..][j] == page[j + 1];
      }
    }
  }

  lemma {:induction false} CheckpointAfter(db: Db, ms: seq<Msg>)
    ensures CommitAll(db, ms).checkpoint == if ms == [] then db.checkpoint else ms[|ms| - 1].id
    decreases |ms|
  {
    if ms != [] {
      CheckpointAfter(Commit(db, ms[0]), ms[1..]);
    }
  }

  lemma {:induction false} CommitAllConcat(db: Db, a: seq<Msg>, b: seq<Msg>)
    ensures CommitAll(db, a + b) == CommitAll(CommitAll(db, a), b)
    decreases |a|
  {
    if a == [] {
      assert a + b == b;
    } else {
      assert (a + b)[0] == a[0] && (a + b)[1..] == a[1..] + b;
      CommitAllConcat(Commit(db, a[0]), a[1..], b);
    }
  }

  ghost function After(db: Db, runs: seq<Run>): Db
    requires IsRun(db, runs)
    decreases |runs|
  {
    if runs == [] then db else After(CommitAll(db, Survivors(runs[0].page, runs[0].failed)), runs[1..])
  }

  /** What one run commits lies after the old checkpoint and up to the new one. */
  lemma PageCommits(db: Db, r: Run)
    requires Fetched(db, r)
    ensures var ms := Survivors(r.page, r.failed);
            && Ascending(ms)
            && (forall m :: m in ms ==> db.checkpoint < m.id <= CommitAll(db, ms).checkpoint && m.amount > 0)
  {
    var ms := Survivors(r.page, r.failed);
    SurvivorsAscending(r.page, r.failed);
    CheckpointAfter(db, ms);
    forall m | m in ms ensures db.checkpoint < m.id <= CommitAll(db, ms).checkpoint && m.amount > 0 {
      var i :| 0 <= i < |ms| && ms[i] == m;
      var j := SurvivorIndex(r.page, r.failed, i);
      assert i < |ms| - 1 ==> ms[i].id < ms[|ms| - 1].id;
    }
  }

  lemma AscendingJoin(a: seq<Msg>, b: seq<Msg>, bound: int)
    requires Ascending(a) && Ascending(b)
    requires (forall m :: m in a ==> m.id <= bound) && (forall m :: m in b ==> bound < m.id)
    ensures Ascending(a + b)
  {
    var ab := a + b;
    forall i, j | 0 <= i < j < |ab| ensures ab[i].id < ab[j].id {
      if i < |a| <= j {
        assert ab[i] in a && ab[j] in b;
      }
    }
  }

  /**
   Over any sequence of runs, with any rollbacks, the committed messages have strictly ascending ids (so none commits
   twice), and the tables are the fold of exactly these messages.
   */
  lemma {:induction false} CommitsAscend(db: Db, runs: seq<Run>)
    requires IsRun(db, runs)
    ensures Ascending(Committed(db, runs))
    ensures forall m :: m in Committed(db, runs) ==> m.id > db.checkpoint && m.amount > 0
    ensures After(db, runs) == CommitAll(db, Committed(db, runs))
    decreases |runs|
  {
    if runs != [] {
      var ms := Survivors(runs[0].page, runs[0].failed);
      var db1 := CommitAll(db, ms);
      PageCommits(db, runs[0]);
      CommitsAscend(db1, runs[1..]);
      var rest := Committed(db1, runs[1..]);
      CommitAllConcat(db, ms, rest);
      AscendingJoin(ms, rest, db1.checkpoint);
      CheckpointMoves(db, runs[0]);
    }
  }

  lemma CheckpointMoves(db: Db, r: Run)
    requires Fetched(db, r)
    ensures db.checkpoint <= CommitAll(db, Survivors(r.page, r.failed)).checkpoint
  {
    var ms := Survivors(r.page, r.failed);
    CheckpointAfter(db, ms);
    PageCommits(db, r);
    if ms != [] { assert ms[0] in ms; }
  }

  lemma {:induction false} CommitAllKeepsInv(db: Db, ms: seq<Msg>)
    requires Inv(db) && forall m :: m in ms ==> m.amount > 0
    ensures Inv(CommitAll(db, ms))
    decreases |ms|
  {
    if ms != [] {
      CommitKeepsInv(db, ms[0]);
      CommitAllKeepsInv(Commit(db, ms[0]), ms[1..]);
    }
  }

  /** In every state a run can reach, each validator's count is its number of rows and all amounts are positive. */
  lemma CountsAlwaysMatch(db: Db, runs: seq<Run>)
    requires Inv(db) && IsRun(db, runs)
    ensures Inv(After(db, runs))
  {
    CommitsAscend(db, runs);
    CommitAllKeepsInv(db, Committed(db, runs));
  }

  /** A message that is rolled back is fetched again later if and only if no later message of its page commits. */
  lemma RolledBackRetriedIff(db: Db, r: Run, i: nat)
    requires Fetched(db, r) && i < |r.page| && r.failed[i]
    ensures r.page[i].id > CommitAll(db, Survivors(r.page, r.failed)).checkpoint
            <==> forall j :: i < j < |r.page| ==> r.failed[j]
  {
    var ms := Survivors(r.page, r.failed);
    CheckpointAfter(db, ms);
    if forall j :: i < j < |r.page| ==> r.failed[j] {
      if ms != [] {
        var j := LastSurvivor(r.page, r.failed);
        assert j < i;
      }
    } else {
      var j :| i < j < |r.page| && !r.failed[j];
      SurvivorsReach(r.page, r.failed, j);
    }
  }

  /** A message at or below the checkpoint is in no later page. */
  lemma {:induction false} PassedNeverFetched(db: Db, runs: seq<Run>, id: int, k: nat)
    requires IsRun(db, runs) && id <= db.checkpoint && k < |runs|
    ensures forall i :: 0 <= i < |runs[k].page| ==> runs[k].page[i].id != id
    decreases |runs|
  {
    if k > 0 {
      CheckpointMoves(db, runs[0]);
      PassedNeverFetched(CommitAll(db, Survivors(runs[0].page, runs[0].failed)), runs[1..], id, k - 1);
    }
  }

  /** A message rolled back before a later one of its page commits is skipped for good: no later run fetches it. */
  lemma {:induction false} SkippedForGood(db: Db, r: Run, i: nat, j: nat, runs: seq<Run>, k: nat)
    requires Fetched(db, r) && i < j < |r.page| && r.failed[i] && !r.failed[j]
    requires IsRun(CommitAll(db, Survivors(r.page, r.failed)), runs) && k < |runs|
    ensures forall m :: m in runs[k].page ==> m.id != r.page[i].id
  {
    RolledBackRetriedIff(db, r, i);
    PassedNeverFetched(CommitAll(db, Survivors(r.page, r.failed)), runs, r.page[i].id, k);
  }

  /** Two delegations of one page; the first is rolled back and the second commits, so 5 of 12 are never recorded. */
  lemma {:induction false} SkippedExample(d: Address, v: Address, runs: seq<Run>, k: nat)
    requires IsRun(Db(map[v := 1], map[(d, v) := 7], 2), runs) && k < |runs|
    ensures var db := Db(map[v := 0], map[], 0);
            var r := Run([Msg(1, d, Delegate(v), 5), Msg(2, d, Delegate(v), 7)], [true, false]);
            && Fetched(db, r)
            && CommitAll(db, Survivors(r.page, r.failed)) == Db(map[v := 1], map[(d, v) := 7], 2)
            && (forall m :: m in runs[k].page ==> m.id != 1)
  {
    var page := [Msg(1, d, Delegate(v), 5), Msg(2, d, Delegate(v), 7)];
    var second := page[1..];
    assert second == [page[1]] && second[1..] == [] && [true, false][1..] == [false];
    assert Survivors(second, [false]) == [page[1]] + [];
    assert Survivors(page, [true, false]) == [page[1]];
    assert [page[1]][1..] == [];
    PassedNeverFetched(Db(map[v := 1], map[(d, v) := 7], 2), runs, 1, k);
  }

  lemma {:induction false} LastSurvivor(page: seq<Msg>, failed: seq<bool>) returns (j: nat)
    requires |failed| == |page| && Survivors(page, failed) != []
    ensures j < |page| && !failed[j] && Survivors(page, failed)[|Survivors(page, failed)| - 1] == page[j]
  {
    if Survivors(page[1..], failed[1..]) == [] {
      j := 0;
    } else {
      j := LastSurvivor(page[1..], failed[1..]);
      j := j + 1;
    }
  }

  lemma {:induction false} SurvivorsReach(page: seq<Msg>, failed: seq<bool>, j: nat)
    requires |failed| == |page| && Ascending(page) && j < |page| && !failed[j]
    ensures Survivors(page, failed) != []
    ensures Survivors(page, failed)[|Survivors(page, failed)| - 1].id >= page[j].id
  {
    if j > 0 {
      SurvivorsReach(page[1..], failed[1..], j - 1);
    } else {
      var rest := Survivors(page[1..], failed[1..]);
      if rest != [] {
        var i := SurvivorIndex(page[1..], failed[1..], |rest| - 1);
        assert page[1..][i] == page[i + 1];
      }
    }
  }

  // ----- stake -----

  /** The amounts one delegator has with each validator. */
  function Stakes(rows: map<Key, int>, d: Address): map<Key, int>
  {
    map k | k in rows && k.0 == d :: rows[k]
  }

  ghost function StakeOf(db: Db, d: Address): int
  {
    Total(Stakes(db.rows, d))
  }

  function AmountAt(db: Db, k: Key): int
  {
    if k in db.rows then db.rows[k] else 0
  }

  lemma StakeInsert(rows: map<Key, int>, k: Key, amount: int)
    ensures Total(Stakes(rows[k := amount], k.0)) == Total(Stakes(rows, k.0)) + amount - (if k in rows then rows[k] else 0)
  {
    TotalUpdate(Stakes(rows, k.0), k, amount);
    assert Stakes(rows[k := amount], k.0) == Stakes(rows, k.0)[k := amount];
  }

  lemma StakeRemove(rows: map<Key, int>, k: Key)
    requires k in rows
    ensures Total(Stakes(rows - {k}, k.0)) == Total(Stakes(rows, k.0)) - rows[k]
  {
    TotalRemove(Stakes(rows, k.0), k);
    assert Stakes(rows - {k}, k.0) == Stakes(rows, k.0) - {k};
  }

  lemma UndelegateStake(db: Db, d: Address, v: Address, amount: int)
    requires v in db.counts && (forall k :: k in db.rows ==> db.rows[k] > 0) && amount > 0
    ensures StakeOf(HandleUndelegate(db, d, v, amount), d)
            == StakeOf(db, d) - (if AmountAt(db, (d, v)) < amount then AmountAt(db, (d, v)) else amount)
  {
    if (d, v) in db.rows {
      if db.rows[(d, v)] - amount > 0 {
        StakeInsert(db.rows, (d, v), db.rows[(d, v)] - amount);
      } else {
        StakeRemove(db.rows, (d, v));
      }
    }
  }

  lemma CreditStake(before: Db, db: Db, d: Address, dst: Address, amount: int)
    requires dst in before.counts
    requires (d, dst) in before.rows <==> (d, dst) in db.rows
    requires AmountAt(db, (d, dst)) == AmountAt(before, (d, dst))
    ensures StakeOf(CreditDestination(before, db, d, dst, amount), d) == StakeOf(db, d) + amount
  {
    StakeInsert(db.rows, (d, dst), AmountAt(before, (d, dst)) + amount);
  }

  /**
   A redelegation between two different known validators raises the delegator's stake by what the source row is
   short of: it never lowers it, and preserves it exactly when the source row holds at least the moved amount.
   */
  lemma RedelegateStake(db: Db, d: Address, src: Address, dst: Address, amount: int)
    requires Inv(db) && src != dst && src in db.counts && dst in db.counts && amount > 0
    ensures var after := StakeOf(HandleRedelegate(db, d, src, dst, amount), d);
            && after >= StakeOf(db, d)
            && (after == StakeOf(db, d) <==> AmountAt(db, (d, src)) >= amount)
            && (AmountAt(db, (d, src)) < amount ==> after == StakeOf(db, d) + amount - AmountAt(db, (d, src)))
  {
    UndelegateStake(db, d, src, amount);
    var mid := HandleUndelegate(db, d, src, amount);
    CreditStake(db, mid, d, dst, amount);
  }

  /** Redelegations never touch another delegator. */
  lemma RedelegateOthers(db: Db, d: Address, src: Address, dst: Address, amount: int, other: Address)
    requires other != d
    ensures Stakes(HandleRedelegate(db, d, src, dst, amount).rows, other) == Stakes(db.rows, other)
  {
  }

  /** Every message is a redelegation between different known validators whose source row covers it when its turn comes. */
  ghost predicate CoveredRedelegations(db: Db, ms: seq<Msg>)
    decreases |ms|
  {
    ms != [] ==>
      && ms[0].amount > 0
      && (match ms[0].action
          case Redelegate(src, dst) =>
            src != dst && src in db.counts && dst in db.counts && AmountAt(db, (ms[0].delegator, src)) >= ms[0].amount
          case _ => false)
      && CoveredRedelegations(Commit(db, ms[0]), ms[1..])
  }

  /** Runs of such redelegations conserve the stake of every delegator. */
  lemma {:induction false} RedelegationsConserveStake(db: Db, ms: seq<Msg>, d: Address)
    requires Inv(db) && CoveredRedelegations(db, ms)
    ensures StakeOf(CommitAll(db, ms), d) == StakeOf(db, d)
    decreases |ms|
  {
    if ms != [] {
      var m := ms[0];
      CommitKeepsInv(db, m);
      if m.delegator == d {
        RedelegateStake(db, d, m.action.src, m.action.dst, m.amount);
      } else {
        RedelegateOthers(db, m.delegator, m.action.src, m.action.dst, m.amount, d);
      }
      RedelegationsConserveStake(Commit(db, m), ms[1..], d);
    }
  }

  /** A delegation to a known validator, or the cancelling of an undelegation, raises the stake by the amount and moves one row. */
  lemma DelegateStake(db: Db, m: Msg, v: Address)
    requires v in db.counts && (m.action == Delegate(v) || m.action == CancelUndelegate(v))
    ensures StakeOf(Commit(db, m), m.delegator) == StakeOf(db, m.delegator) + m.amount
    ensures AmountAt(Commit(db, m), (m.delegator, v)) == AmountAt(db, (m.delegator, v)) + m.amount
    ensures forall k: Key :: k != (m.delegator, v) ==> AmountAt(Commit(db, m), k) == AmountAt(db, k)
  {
    var k := (m.delegator, v);
    StakeInsert(db.rows, k, AmountAt(db, k) + m.amount);
    assert Commit(db, m).rows == db.rows[k := AmountAt(db, k) + m.amount];
  }

  // ----- every row, over any run -----

  /** What a message brings to the row `k`, among the known validators. */
  function Inflow(known: set<Address>, m: Msg, k: Key): int
  {
    if m.delegator != k.0 || k.1 !in known then 0
    else
      match m.action
      case Delegate(v) => if v == k.1 then m.amount else 0
      case CancelUndelegate(v) => if v == k.1 then m.amount else 0
      case Undelegate(_) => 0
      case Redelegate(src, dst) => if dst == k.1 && src in known then m.amount else 0
  }

  /** What a message asks the row `k` to give up. */
  function Outflow(known: set<Address>, m: Msg, k: Key): int
  {
    if m.delegator != k.0 || k.1 !in known then 0
    else
      match m.action
      case Delegate(_) => 0
      case CancelUndelegate(_) => 0
      case Undelegate(v) => if v == k.1 then m.amount else 0
      case Redelegate(src, dst) => if src == k.1 && dst in known then m.amount else 0
  }

  predicate SelfRedelegates(m: Msg) { m.action.Redelegate? && m.action.src == m.action.dst }

  /** How far a row falls short of what it is asked to give up. */
  function Short(held: int, asked: int): int { if held < asked then asked - held else 0 }

  /** One message on one row, for every message but a redelegation of a validator to itself. */
  lemma CommitRow(db: Db, m: Msg, k: Key)
    requires Inv(db) && m.amount > 0 && !SelfRedelegates(m)
    ensures var known, held := db.counts.Keys, AmountAt(db, k);
            AmountAt(Commit(db, m), k)
            == held + Inflow(known, m, k) - Outflow(known, m, k) + Short(held, Outflow(known, m, k))
  {
    match m.action
    case Delegate(v) =>
    case CancelUndelegate(v) =>
    case Undelegate(v) =>
    case Redelegate(src, dst) =>
      if src in db.counts && dst in db.counts {
        RedelegateRow(db, m.delegator, src, dst, m.amount, k);
      }
  }

  lemma RedelegateRow(db: Db, d: Address, src: Address, dst: Address, amount: int, k: Key)
    requires Inv(db) && amount > 0 && src != dst && src in db.counts && dst in db.counts
    ensures AmountAt(HandleRedelegate(db, d, src, dst, amount), k)
            == if k == (d, src) then AmountAt(db, k) - amount + Short(AmountAt(db, k), amount)
               else if k == (d, dst) then AmountAt(db, k) + amount
               else AmountAt(db, k)
  {
  }

  /** A redelegation of a validator to itself adds the amount, unless the row holds no more than it: then the row is lost. */
  lemma SelfRedelegateRow(db: Db, m: Msg, v: Address, k: Key)
    requires Inv(db) && m.amount > 0 && m.action == Redelegate(v, v) && v in db.counts
    ensures AmountAt(Commit(db, m), k)
            == if k != (m.delegator, v) then AmountAt(db, k)
               else if k in db.rows && db.rows[k] <= m.amount then 0
               else AmountAt(db, k) + m.amount
  {
  }

  lemma KnownStays(db: Db, m: Msg)
    ensures Inv(db) ==> Commit(db, m).counts.Keys == db.counts.Keys
  {
  }

  function TotalInflow(known: set<Address>, ms: seq<Msg>, k: Key): int
  {
    if ms == [] then 0 else Inflow(known, ms[0], k) + TotalInflow(known, ms[1..], k)
  }

  function TotalOutflow(known: set<Address>, ms: seq<Msg>, k: Key): int
  {
    if ms == [] then 0 else Outflow(known, ms[0], k) + TotalOutflow(known, ms[1..], k)
  }

  /** Everything the row `k` fell short of, each time a message asked for more than it held. */
  function TotalShort(db: Db, ms: seq<Msg>, k: Key): int
    decreases |ms|
  {
    if ms == [] then 0
    else
      Short(AmountAt(db, k), Outflow(db.counts.Keys, ms[0], k)) + TotalShort(Commit(db, ms[0]), ms[1..], k)
  }

  /** Each row is its first amount plus what was delegated to it, minus what was taken from it, plus what it fell short of. */
  lemma {:induction false} RowIsFlow(db: Db, ms: seq<Msg>, k: Key)
    requires Inv(db) && forall m :: m in ms ==> m.amount > 0 && !SelfRedelegates(m)
    ensures AmountAt(CommitAll(db, ms), k)
            == AmountAt(db, k) + TotalInflow(db.counts.Keys, ms, k) - TotalOutflow(db.counts.Keys, ms, k) + TotalShort(db, ms, k)
    ensures TotalShort(db, ms, k) >= 0
    decreases |ms|
  {
    if ms != [] {
      assert ms[0] in ms && forall m :: m in ms[1..] ==> m in ms;
      CommitRow(db, ms[0], k);
      KnownStays(db, ms[0]);
      CommitKeepsInv(db, ms[0]);
      RowIsFlow(Commit(db, ms[0]), ms[1..], k);
    }
  }

  /** No message of the list asks the row for more than it holds when its turn comes. */
  ghost predicate Covered(db: Db, ms: seq<Msg>, k: Key)
    decreases |ms|
  {
    ms != [] ==> Outflow(db.counts.Keys, ms[0], k) <= AmountAt(db, k) && Covered(Commit(db, ms[0]), ms[1..], k)
  }

  lemma {:induction false} CoveredIffNoneShort(db: Db, ms: seq<Msg>, k: Key)
    ensures TotalShort(db, ms, k) >= 0 && (TotalShort(db, ms, k) == 0 <==> Covered(db, ms, k))
    decreases |ms|
  {
    if ms != [] { CoveredIffNoneShort(Commit(db, ms[0]), ms[1..], k); }
  }

  /**
   Over any runs with any rollbacks, each row is its first amount plus delegated minus undelegated over exactly the
   committed messages, if and only if none of them asked the row for more than it held.
   */
  lemma RowsFollowCommits(db: Db, runs: seq<Run>, k: Key)
    requires Inv(db) && IsRun(db, runs) && forall m :: m in Committed(db, runs) ==> !SelfRedelegates(m)
    ensures var ms := Committed(db, runs);
            AmountAt(After(db, runs), k)
            == AmountAt(db, k) + TotalInflow(db.counts.Keys, ms, k) - TotalOutflow(db.counts.Keys, ms, k)
            <==> Covered(db, ms, k)
  {
    var ms := Committed(db, runs);
    CommitsAscend(db, runs);
    RowIsFlow(db, ms, k);
    CoveredIffNoneShort(db, ms, k);
  }
}
