/**
 A reindex and the balance job after it. The reindex rebuilds a contract up to the height of the chain, while the
 activity job and the balance job go on from their own checkpoints, which may be lower.
 */
module Erc20Reindex {
  import opened Wrappers
  import opened SortBy
  import opened HeightLog
  import opened Erc20

  function Of(contract: Address): Activity -> bool
  {
    (a: Activity) => a.contract == contract
  }

  function Range(log: seq<Activity>, lo: int, hi: int): seq<Activity>
  {
    Between(log, ActivityHeight, lo, hi)
  }

  /** The log of one contract in a range. */
  function ContractLog(log: seq<Activity>, contract: Address, lo: int, hi: int): seq<Activity>
  {
    Select(Range(log, lo, hi), Of(contract))
  }

  /**
   A reindex of `contract` at `height` on a chain that starts at `from`, with the activity job standing at `live` and the
   balance job at `cp`. `tracked` are the contracts that the balance job reads, `db` the ledger before the reindex.
   */
  datatype Case = Case(
    db: Ledger, accounts: Accounts, log: seq<Activity>, tracked: set<Address>, contract: Address,
    from: int, cp: int, live: int, height: int)
  {
    ghost predicate Valid()
    {
      && Sorted(log, ActivityHeight) && Joined(accounts, log)
      && contract in db.contracts && contract in tracked
      && from <= cp <= live <= height
    }

    /** The tables after the reindex. */
    function Rebuilt(): Result<Ledger, Error>
    {
      Reindex(db, accounts, contract, height, ContractLog(log, contract, from, height))
    }

    /** The activity table, in id order, once the activity job has come to `to`. */
    function Table(to: int): seq<Activity>
    {
      Select(Range(log, from, live), NotOf(contract)) + ContractLog(log, contract, from, height) + Range(log, live, to)
    }

    function IsTracked(): Activity -> bool
    {
      (a: Activity) => a.contract in tracked
    }

    /** What the balance job reads for `(cp, end]`. */
    function Batch(to: int, end: int): seq<Activity>
    {
      Select(Range(Table(to), cp, end), IsTracked())
    }
  }

  // ----- the batch -----

  lemma {:induction false} SelectTwice<T>(s: seq<T>, p: T -> bool, q: T -> bool)
    requires forall x :: x in s && p(x) ==> q(x)
    ensures Select(Select(s, p), q) == Select(s, p)
  {
    if s != [] {
      assert s[0] in s && forall x :: x in s[1..] ==> x in s;
      SelectTwice(s[1..], p, q);
      if p(s[0]) {
        assert Select(s, p)[1..] == Select(s[1..], p);
      }
    }
  }

  /** The tracked activities of other contracts that were there before, the rebuilt ones, and those inserted since. */
  function Before(c: Case, end: int): seq<Activity>
  {
    Select(Select(Range(c.log, c.cp, Min(c.live, end)), NotOf(c.contract)), c.IsTracked())
  }

  function Rebuild(c: Case, end: int): seq<Activity>
  {
    ContractLog(c.log, c.contract, c.cp, Min(c.height, end))
  }

  function Since(c: Case, end: int): seq<Activity>
  {
    Select(Range(c.log, c.live, end), c.IsTracked())
  }

  lemma BatchParts(c: Case, to: int, end: int)
    requires c.Valid() && c.cp <= end <= to
    ensures c.Batch(to, end) == (Before(c, end) + Rebuild(c, end)) + Since(c, end)
  {
    var x, y, z := Select(Range(c.log, c.from, c.live), NotOf(c.contract)),
                   ContractLog(c.log, c.contract, c.from, c.height), Range(c.log, c.live, to);
    BetweenConcat(x + y, z, ActivityHeight, c.cp, end);
    BetweenConcat(x, y, ActivityHeight, c.cp, end);
    BetweenSelect(Range(c.log, c.from, c.live), ActivityHeight, c.cp, end, NotOf(c.contract));
    BetweenSelect(Range(c.log, c.from, c.height), ActivityHeight, c.cp, end, Of(c.contract));
    BetweenBetween(c.log, ActivityHeight, c.from, c.live, c.cp, end);
    BetweenBetween(c.log, ActivityHeight, c.from, c.height, c.cp, end);
    BetweenBetween(c.log, ActivityHeight, c.live, to, c.cp, end);
    SelectConcat(Range(x, c.cp, end) + Range(y, c.cp, end), Range(z, c.cp, end), c.IsTracked());
    SelectConcat(Range(x, c.cp, end), Range(y, c.cp, end), c.IsTracked());
    SelectTwice(Range(c.log, c.cp, Min(c.height, end)), Of(c.contract), c.IsTracked());
  }

  lemma PartOf(log: seq<Activity>, lo: int, hi: int, p: Activity -> bool, a: Activity)
    ensures a in Select(Range(log, lo, hi), p) <==> a in log && lo < a.height <= hi && p(a)
  {
    var part := Range(log, lo, hi);
    BetweenMembers(log, ActivityHeight, lo, hi);
    if a in Select(part, p) {
      var i :| 0 <= i < |Select(part, p)| && Select(part, p)[i] == a;
      var j := SelectIndex(part, p, i);
    }
    if a in log && lo < a.height <= hi && p(a) {
      BetweenHas(log, ActivityHeight, lo, hi, a);
      SelectMember(part, p, a);
    }
  }

  lemma SelectIn<T>(s: seq<T>, p: T -> bool, x: T)
    ensures x in Select(s, p) <==> x in s && p(x)
  {
    if x in Select(s, p) {
      var i :| 0 <= i < |Select(s, p)| && Select(s, p)[i] == x;
      var j := SelectIndex(s, p, i);
    }
    if x in s && p(x) { SelectMember(s, p, x); }
  }

  lemma BatchMembers(c: Case, end: int, a: Activity)
    ensures a in Before(c, end)
            <==> a in c.log && c.cp < a.height <= Min(c.live, end) && a.contract != c.contract && a.contract in c.tracked
    ensures a in Rebuild(c, end) <==> a in c.log && c.cp < a.height <= Min(c.height, end) && a.contract == c.contract
    ensures a in Since(c, end) <==> a in c.log && c.live < a.height <= end && a.contract in c.tracked
  {
    PartOf(c.log, c.cp, Min(c.live, end), NotOf(c.contract), a);
    SelectIn(Select(Range(c.log, c.cp, Min(c.live, end)), NotOf(c.contract)), c.IsTracked(), a);
    PartOf(c.log, c.cp, Min(c.height, end), Of(c.contract), a);
    PartOf(c.log, c.live, end, c.IsTracked(), a);
  }

  // ----- what the balances are after the job -----

  lemma {:induction false} NetOfContract(acts: seq<Activity>, k: Key)
    ensures Net(Select(acts, Of(k.1)), k) == Net(acts, k)
    ensures Net(Select(acts, NotOf(k.1)), k) == 0
  {
    if acts != [] {
      NetOfContract(acts[1..], k);
      if acts[0].contract == k.1 {
        assert Select(acts, Of(k.1))[1..] == Select(acts[1..], Of(k.1));
      } else {
        assert Select(acts, NotOf(k.1))[1..] == Select(acts[1..], NotOf(k.1));
      }
    }
  }

  /** Selecting by a condition that every activity of the contract meets keeps its flow. */
  lemma {:induction false} NetSelected(acts: seq<Activity>, p: Activity -> bool, k: Key)
    requires forall a :: a in acts && a.contract == k.1 ==> p(a)
    ensures Net(Select(acts, p), k) == Net(acts, k)
  {
    if acts != [] {
      assert acts[0] in acts && forall a :: a in acts[1..] ==> a in acts;
      NetSelected(acts[1..], p, k);
      if p(acts[0]) {
        assert Select(acts, p)[1..] == Select(acts[1..], p);
      }
    }
  }

  lemma ContractLogFacts(c: Case, lo: int, hi: int)
    requires c.Valid()
    ensures var acts := ContractLog(c.log, c.contract, lo, hi);
            && Sorted(acts, ActivityHeight) && Joined(c.accounts, acts)
            && (forall a :: a in acts <==> a in c.log && lo < a.height <= hi && a.contract == c.contract)
  {
    BetweenOrdered(c.log, ActivityHeight, lo, hi, ActivityHeight);
    SelectSorted(Range(c.log, lo, hi), Of(c.contract), ActivityHeight);
    forall a ensures a in ContractLog(c.log, c.contract, lo, hi) <==> a in c.log && lo < a.height <= hi && a.contract == c.contract {
      PartOf(c.log, lo, hi, Of(c.contract), a);
    }
  }

  /** A reindex succeeds and leaves every balance of the contract at its net flow. */
  lemma RebuiltIsNetFlow(c: Case, k: Key)
    requires c.Valid() && k.1 == c.contract
    ensures c.Rebuilt().Ok? && AmountAt(c.Rebuilt().value, k) == Net(Range(c.log, c.from, c.height), k)
  {
    var acts := ContractLog(c.log, c.contract, c.from, c.height);
    ContractLogFacts(c, c.from, c.height);
    ReindexSupplyIsSumOfBalances(c.db, c.accounts, c.contract, c.height, acts);
    NetOfContract(Range(c.log, c.from, c.height), k);
  }

  /** What the batch moves for a balance of the contract: the rebuilt rows, and the rows inserted since. */
  lemma BatchFlow(c: Case, to: int, end: int, k: Key)
    requires c.Valid() && c.cp <= end <= to && k.1 == c.contract
    ensures Net(c.Batch(to, end), k) == Net(Range(c.log, c.cp, Min(c.height, end)), k) + Net(Range(c.log, c.live, end), k)
  {
    BatchParts(c, to, end);
    NetConcat(Before(c, end) + Rebuild(c, end), Since(c, end), k);
    NetConcat(Before(c, end), Rebuild(c, end), k);
    NetOfContract(Range(c.log, c.cp, Min(c.live, end)), k);
    NetOfContract(Range(c.log, c.cp, Min(c.height, end)), k);
    NetSelected(Select(Range(c.log, c.cp, Min(c.live, end)), NotOf(c.contract)), c.IsTracked(), k);
    NetSelected(Range(c.log, c.live, end), c.IsTracked(), k);
  }

  /** The flow of `(lo, hi]`, split at a height in between. */
  lemma NetJoin(c: Case, lo: int, mid: int, hi: int, k: Key)
    requires c.Valid() && lo <= mid <= hi
    ensures Net(Range(c.log, lo, hi), k) == Net(Range(c.log, lo, mid), k) + Net(Range(c.log, mid, hi), k)
  {
    BetweenJoin(c.log, ActivityHeight, lo, mid, hi);
    NetConcat(Range(c.log, lo, mid), Range(c.log, mid, hi), k);
  }

  /** What is counted beyond the log: `(cp, height]` once more by the job, `(live, height]` once more by the activity job. */
  function Excess(c: Case, k: Key): int
  {
    Net(Range(c.log, c.cp, c.height), k) + Net(Range(c.log, c.live, c.height), k)
  }

  /**
   If the balance job gets through, every balance of the contract counts the activities in `(cp, live]` twice and those
   in `(live, height]` three times.
   */
  lemma JobAfterReindex(c: Case, to: int, end: int, k: Key)
    requires c.Valid() && c.height <= end <= to && k.1 == c.contract
    requires c.Rebuilt().Ok? && ApplyAll(c.Rebuilt().value, c.Batch(to, end)).Ok?
    ensures AmountAt(ApplyAll(c.Rebuilt().value, c.Batch(to, end)).value, k)
            == Net(Range(c.log, c.from, end), k) + Excess(c, k)
  {
    RebuiltIsNetFlow(c, k);
    BalanceIsNetFlow(c.Rebuilt().value, c.Batch(to, end), k);
    BatchFlow(c, to, end, k);
    NetJoin(c, c.from, c.height, end, k);
    NetJoin(c, c.live, c.height, end, k);
  }

  // ----- when the job gets through -----

  /** The other contracts let the job through: their contracts are known and none of their rows is newer. */
  ghost predicate OthersReady(c: Case, to: int, end: int)
  {
    && Known(c.db, c.Batch(to, end))
    && forall k: Key :: k.1 != c.contract ==> RowNotNewer(c.db, c.Batch(to, end), k)
  }

  /** `a` is in the part of the rebuilt log that the job reads again, and `b` is a later activity of the same balance in it. */
  predicate Overtaken(c: Case, end: int, k: Key, a: Activity, b: Activity)
  {
    && Touches(a, k) && Touches(b, k)
    && c.cp < a.height <= Min(c.height, end) && c.from < b.height <= c.height && a.height < b.height
  }

  /** Every balance of the contract is touched for the last time by each activity that the job reads again. */
  ghost predicate NoneOvertaken(c: Case, end: int)
  {
    forall k: Key, a, b :: k.1 == c.contract && a in c.log && b in c.log ==> !Overtaken(c, end, k, a, b)
  }

  /** The rebuilt row of a balance carries the height of its last activity up to `height`. */
  lemma RebuiltRow(c: Case, k: Key)
    requires c.Valid() && k.1 == c.contract
    ensures c.Rebuilt().Ok?
    ensures var rows := c.Rebuilt().value.balances;
            && (k in rows ==> exists b :: b in c.log && Touches(b, k) && c.from < b.height <= c.height && b.height == rows[k].lastUpdated)
            && (forall b :: b in c.log && Touches(b, k) && c.from < b.height <= c.height ==> k in rows && b.height <= rows[k].lastUpdated)
  {
    var acts, start := ContractLog(c.log, c.contract, c.from, c.height), Cleared(c.db, c.contract, c.height);
    ContractLogFacts(c, c.from, c.height);
    ReindexSupplyIsSumOfBalances(c.db, c.accounts, c.contract, c.height, acts);
    BatchRefinesFold(start, c.accounts, acts);
    BalanceIsNetFlow(start, acts, k);
    assert k !in start.balances;
    LastTouchIs(acts, k);
  }

  lemma OtherRow(c: Case, k: Key)
    requires c.Valid() && k.1 != c.contract && c.Rebuilt().Ok?
    ensures var l := c.Rebuilt().value;
            (k in l.balances <==> k in c.db.balances) && (k in c.db.balances ==> l.balances[k] == c.db.balances[k])
  {
    ContractLogFacts(c, c.from, c.height);
    ReindexTouchesOneContract(c.db, c.accounts, c.contract, c.height, ContractLog(c.log, c.contract, c.from, c.height), k);
  }

  lemma RebuiltContracts(c: Case)
    requires c.Valid()
    ensures c.Rebuilt().Ok? && c.Rebuilt().value.contracts.Keys == c.db.contracts.Keys
  {
    var acts, start := ContractLog(c.log, c.contract, c.from, c.height), Cleared(c.db, c.contract, c.height);
    ContractLogFacts(c, c.from, c.height);
    ReindexSupplyIsSumOfBalances(c.db, c.accounts, c.contract, c.height, acts);
    BatchRefinesFold(start, c.accounts, acts);
    ContractsStay(start, acts);
    assert start.contracts.Keys == c.db.contracts.Keys + {c.contract};
  }

  ghost predicate RowOvertakesNone(c: Case, end: int, k: Key)
  {
    forall a, b :: a in c.log && b in c.log ==> !Overtaken(c, end, k, a, b)
  }

  /** For a balance of the contract, the rebuilt row is not newer than the batch exactly when nothing is overtaken. */
  lemma RowReadyIff(c: Case, to: int, end: int, k: Key)
    requires c.Valid() && c.cp <= end <= to && k.1 == c.contract && c.Rebuilt().Ok?
    ensures RowNotNewer(c.Rebuilt().value, c.Batch(to, end), k) <==> RowOvertakesNone(c, end, k)
  {
    BatchParts(c, to, end);
    RebuiltRow(c, k);
    var l, batch := c.Rebuilt().value, c.Batch(to, end);
    if RowNotNewer(l, batch, k) {
      forall a, b | a in c.log && b in c.log ensures !Overtaken(c, end, k, a, b) {
        BatchMembers(c, end, a);
        if Touches(a, k) && c.cp < a.height <= Min(c.height, end) {
          assert a in batch;
          var i :| 0 <= i < |batch| && batch[i] == a;
        }
      }
    }
    if RowOvertakesNone(c, end, k) && k in l.balances {
      var b :| b in c.log && Touches(b, k) && c.from < b.height <= c.height && b.height == l.balances[k].lastUpdated;
      forall i | 0 <= i < |batch| && Touches(batch[i], k) ensures l.balances[k].lastUpdated <= batch[i].height {
        BatchMembers(c, end, batch[i]);
        assert batch[i] in batch && batch[i] in c.log;
        assert !Overtaken(c, end, k, batch[i], b);
      }
    }
  }

  lemma SortedInOrder(acts: seq<Activity>, k: Key)
    requires Sorted(acts, ActivityHeight)
    ensures InHeightOrder(acts, k)
  {
    assert forall i, j :: 0 <= i < j < |acts| ==> ActivityHeight(acts[i]) <= ActivityHeight(acts[j]);
  }

  lemma OrderJoins(a: seq<Activity>, b: seq<Activity>, k: Key)
    requires InHeightOrder(a, k) && InHeightOrder(b, k)
    requires forall x, y :: x in a && y in b && Touches(x, k) && Touches(y, k) ==> x.height <= y.height
    ensures InHeightOrder(a + b, k)
  {
    forall i, j | 0 <= i < j < |a + b| && Touches((a + b)[i], k) && Touches((a + b)[j], k)
      ensures (a + b)[i].height <= (a + b)[j].height
    {
      if i < |a| <= j {
        assert (a + b)[i] in a && (a + b)[j] in b;
      }
    }
  }

  lemma PartsSorted(c: Case, end: int)
    requires c.Valid()
    ensures Sorted(Before(c, end), ActivityHeight) && Sorted(Rebuild(c, end), ActivityHeight) && Sorted(Since(c, end), ActivityHeight)
  {
    BetweenOrdered(c.log, ActivityHeight, c.cp, Min(c.live, end), ActivityHeight);
    SelectSorted(Range(c.log, c.cp, Min(c.live, end)), NotOf(c.contract), ActivityHeight);
    SelectSorted(Select(Range(c.log, c.cp, Min(c.live, end)), NotOf(c.contract)), c.IsTracked(), ActivityHeight);
    ContractLogFacts(c, c.cp, Min(c.height, end));
    BetweenOrdered(c.log, ActivityHeight, c.live, end, ActivityHeight);
    SelectSorted(Range(c.log, c.live, end), c.IsTracked(), ActivityHeight);
  }

  /** When nothing is overtaken, each balance is touched in height order, though the rows are in id order. */
  lemma BatchInOrder(c: Case, to: int, end: int, k: Key)
    requires c.Valid() && c.cp <= end <= to && (k.1 == c.contract ==> RowOvertakesNone(c, end, k))
    ensures InHeightOrder(c.Batch(to, end), k)
  {
    var x, y, z := Before(c, end), Rebuild(c, end), Since(c, end);
    BatchParts(c, to, end);
    PartsSorted(c, end);
    SortedInOrder(x, k);
    SortedInOrder(y, k);
    SortedInOrder(z, k);
    forall a, b | a in x && b in y ensures a.contract != b.contract {
      BatchMembers(c, end, a);
      BatchMembers(c, end, b);
    }
    OrderJoins(x, y, k);
    forall a, b | a in x + y && b in z && Touches(a, k) && Touches(b, k) ensures a.height <= b.height {
      BatchMembers(c, end, a);
      BatchMembers(c, end, b);
      if a !in x {
        assert !Overtaken(c, end, k, b, a);
      }
    }
    OrderJoins(x + y, z, k);
  }

  /**
   The balance job gets through after a reindex if and only if the other contracts let it and no activity that it reads
   again is overtaken by a later activity of the same balance in the rebuilt log.
   */
  lemma JobGetsThroughIff(c: Case, to: int, end: int)
    requires c.Valid() && c.cp <= end <= to
    ensures c.Rebuilt().Ok?
    ensures ApplyAll(c.Rebuilt().value, c.Batch(to, end)).Ok? <==> OthersReady(c, to, end) && NoneOvertaken(c, end)
  {
    RebuiltContracts(c);
    var l, batch := c.Rebuilt().value, c.Batch(to, end);
    ApplyAllOkIff(l, batch);
    forall k: Key | k.1 == c.contract ensures RowNotNewer(l, batch, k) <==> RowOvertakesNone(c, end, k) {
      RowReadyIff(c, to, end, k);
    }
    forall k: Key | k.1 != c.contract ensures RowNotNewer(l, batch, k) <==> RowNotNewer(c.db, batch, k) {
      OtherRow(c, k);
    }
    NoneOvertakenByRow(c, end);
    if OthersReady(c, to, end) && NoneOvertaken(c, end) {
      forall k ensures InHeightOrder(batch, k) { BatchInOrder(c, to, end, k); }
    }
  }

  lemma NoneOvertakenByRow(c: Case, end: int)
    ensures NoneOvertaken(c, end) <==> forall k: Key :: k.1 == c.contract ==> RowOvertakesNone(c, end, k)
  {
    if forall k: Key :: k.1 == c.contract ==> RowOvertakesNone(c, end, k) {
      forall k: Key, a, b | k.1 == c.contract && a in c.log && b in c.log ensures !Overtaken(c, end, k, a, b) {
        assert RowOvertakesNone(c, end, k);
      }
    }
  }

  /** Once the job cannot get through, it cannot with any later end either: it stays where it is. */
  lemma StuckForGood(c: Case, to: int, end: int, to': int, end': int)
    requires c.Valid() && c.cp <= end <= to && end <= end' <= to' && !NoneOvertaken(c, end)
    ensures c.Rebuilt().Ok? && ApplyAll(c.Rebuilt().value, c.Batch(to', end')).Err?
  {
    JobGetsThroughIff(c, to', end');
    var k: Key, a, b :| k.1 == c.contract && a in c.log && b in c.log && Overtaken(c, end, k, a, b);
    assert Overtaken(c, end', k, a, b);
  }

  // ----- when it gets through and is right -----

  /** All balances of the contract are what the log up to `end` dictates. */
  ghost predicate BalancesRight(c: Case, l: Ledger, end: int)
  {
    forall k: Key :: k.1 == c.contract ==> AmountAt(l, k) == Net(Range(c.log, c.from, end), k)
  }

  ghost predicate NoExcess(c: Case)
  {
    forall k: Key :: k.1 == c.contract ==> Excess(c, k) == 0
  }

  /**
   The job gets through and leaves all balances of the contract right if and only if the other contracts let it, nothing
   is overtaken, and what is counted again moves nothing net.
   */
  lemma JobAfterReindexRightIff(c: Case, to: int, end: int)
    requires c.Valid() && c.height <= end <= to
    ensures c.Rebuilt().Ok?
    ensures var r := ApplyAll(c.Rebuilt().value, c.Batch(to, end));
            r.Ok? && BalancesRight(c, r.value, end) <==> OthersReady(c, to, end) && NoneOvertaken(c, end) && NoExcess(c)
  {
    JobGetsThroughIff(c, to, end);
    var r := ApplyAll(c.Rebuilt().value, c.Batch(to, end));
    if r.Ok? {
      forall k: Key | k.1 == c.contract ensures AmountAt(r.value, k) == Net(Range(c.log, c.from, end), k) + Excess(c, k) {
        JobAfterReindex(c, to, end, k);
      }
      if BalancesRight(c, r.value, end) {
        forall k: Key | k.1 == c.contract ensures Excess(c, k) == 0 {
          assert AmountAt(r.value, k) == Net(Range(c.log, c.from, end), k);
        }
      }
      if NoExcess(c) {
        forall k: Key | k.1 == c.contract ensures AmountAt(r.value, k) == Net(Range(c.log, c.from, end), k) {
          assert Excess(c, k) == 0;
        }
      }
    }
  }

  /** The contract has no activity between the balance job's checkpoint and the reindexed height. */
  ghost predicate Quiet(c: Case)
  {
    forall a :: a in c.log && a.contract == c.contract ==> !(c.cp < a.height <= c.height)
  }

  /** A quiet stretch is enough: the job then gets through whenever the other contracts let it, and is right. */
  lemma QuietReindexRight(c: Case, to: int, end: int)
    requires c.Valid() && c.height <= end <= to && Quiet(c) && OthersReady(c, to, end)
    ensures c.Rebuilt().Ok?
    ensures var r := ApplyAll(c.Rebuilt().value, c.Batch(to, end));
            r.Ok? && BalancesRight(c, r.value, end)
  {
    forall k: Key | k.1 == c.contract ensures Excess(c, k) == 0 {
      QuietNet(c, c.cp, k);
      QuietNet(c, c.live, k);
    }
    JobAfterReindexRightIff(c, to, end);
  }

  lemma QuietNet(c: Case, lo: int, k: Key)
    requires Quiet(c) && k.1 == c.contract && c.cp <= lo
    ensures Net(Range(c.log, lo, c.height), k) == 0
  {
    var part := Range(c.log, lo, c.height);
    BetweenMembers(c.log, ActivityHeight, lo, c.height);
    NetOfOthers(part, k);
  }

  // ----- a reindex ahead of the jobs -----

  function Minted(amount: int, height: int): Activity
  {
    Activity(Transfer, "token", ZERO_ADDRESS, "holder", 0, 1, amount, height, height)
  }

  const Holder: Key := (1, "token")

  /** A reindex at height 5 while the balance job stands at 3 and the activity job at `live`. */
  function Ahead(log: seq<Activity>, live: int): Case
  {
    Case(Ledger(map[], map["token" := Contract(Some(0), 0)]), map[0 := ZERO_ADDRESS, 1 := "holder"], log,
         {"token"}, "token", 0, 3, live, 5)
  }

  lemma MintFacts(amount: int, height: int)
    ensures Touches(Minted(amount, height), Holder) && NetOne(Minted(amount, height), Holder) == amount
    ensures forall k :: Touches(Minted(amount, height), k) ==> k == Holder
  {
    assert |ZERO_ADDRESS| == 42 && |"holder"| == 6;
  }

  /** On an empty ledger that knows the contracts of the log, the other contracts are no obstacle. */
  lemma NoOthers(c: Case, to: int, end: int)
    requires c.Valid() && c.cp <= end <= to && c.db.balances == map[]
    requires forall a :: a in c.log ==> a.contract in c.db.contracts
    ensures OthersReady(c, to, end)
  {
    BatchParts(c, to, end);
    forall a | a in c.Batch(to, end) ensures a.contract in c.db.contracts {
      BatchMembers(c, end, a);
    }
  }

  lemma OneMintFlow(live: int)
    requires 3 <= live <= 5
    ensures var c := Ahead([Minted(5, 4)], live);
            Excess(c, Holder) == (if live < 4 then 10 else 5) && Net(Range(c.log, 0, 5), Holder) == 5
  {
    var a := Minted(5, 4);
    MintFacts(5, 4);
    BetweenOne(a, ActivityHeight, 0, 5);
    BetweenOne(a, ActivityHeight, 3, 5);
    BetweenOne(a, ActivityHeight, live, 5);
    assert [a][1..] == [] && Net([a], Holder) == 5;
  }

  lemma OneMintCase(live: int)
    requires 3 <= live <= 5
    ensures var c := Ahead([Minted(5, 4)], live);
            c.Valid() && OthersReady(c, 5, 5) && NoneOvertaken(c, 5)
  {
    NoOthers(Ahead([Minted(5, 4)], live), 5, 5);
  }

  /** A mint of 5 at height 4: the holder ends with 10, or with 15 if the activity job inserts the mint again. */
  lemma ReindexAheadExample(live: int)
    requires 3 <= live <= 5
    ensures var c := Ahead([Minted(5, 4)], live);
            && c.Valid() && c.Rebuilt().Ok? && ApplyAll(c.Rebuilt().value, c.Batch(5, 5)).Ok?
            && AmountAt(ApplyAll(c.Rebuilt().value, c.Batch(5, 5)).value, Holder) == (if live < 4 then 15 else 10)
            && Net(Range(c.log, c.from, 5), Holder) == 5
  {
    var c := Ahead([Minted(5, 4)], live);
    OneMintCase(live);
    OneMintFlow(live);
    JobGetsThroughIff(c, 5, 5);
    JobAfterReindex(c, 5, 5, Holder);
  }

  /** Mints of 5 at height 4 and 7 at height 5 to one holder: the balance job throws, now and on every retry. */
  lemma StuckExample(to: int, end: int)
    requires 5 <= end <= to
    ensures var c := Ahead([Minted(5, 4), Minted(7, 5)], 5);
            c.Valid() && c.Rebuilt().Ok? && ApplyAll(c.Rebuilt().value, c.Batch(to, end)).Err?
  {
    var c := Ahead([Minted(5, 4), Minted(7, 5)], 5);
    MintFacts(5, 4);
    MintFacts(7, 5);
    assert c.log[0] in c.log && c.log[1] in c.log && Overtaken(c, 5, Holder, c.log[0], c.log[1]);
    StuckForGood(c, 5, 5, to, end);
  }
}
