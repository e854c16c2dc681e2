/**
 CW20 holders and supply of one contract: a snapshot taken from the chain, then
 update jobs that a queue runs over ranges of the activity log.
 */
module Cw20 {
  import opened Wrappers
  import opened Tables
  import opened SortBy
  import opened HeightLog

  type Address = string

  datatype Action = Mint | Burn | Transfer | Send | TransferFrom | BurnFrom | SendFrom | Other

  /** A row of `cw20_activity`; absent attributes are `None`. */
  datatype Event = Event(id: int, action: Action, amount: Option<int>, from: Option<Address>, to: Option<Address>, height: int)

  datatype Holder = Holder(amount: int, lastUpdated: int)

  type Holders = map<Address, Holder>

  datatype Error = NoAmount | UnknownSender

  function Id(e: Event): int { e.id }
  function Height(e: Event): int { e.height }
  predicate Moves(e: Event) { e.action != Other }

  // ----- one event -----

  /** The holder rows and the running `addAmount`. */
  datatype Book = Book(holders: Holders, added: int)

  function AmountOf(holders: Holders, a: Address): int
  {
    if a in holders then holders[a].amount else 0
  }

  function LastUpdated(holders: Holders, a: Address): int
  {
    if a in holders then holders[a].lastUpdated else 0
  }

  /** Adds `delta` to the holder unless the event is older than the holder's row. */
  function Move(b: Book, a: Address, delta: int, height: int): Book
  {
    if height >= LastUpdated(b.holders, a) then
      Book(b.holders[a := Holder(AmountOf(b.holders, a) + delta, height)], b.added + delta)
    else b
  }

  function MoveSome(b: Book, a: Option<Address>, delta: int, height: int): Book
  {
    if a.Some? then Move(b, a.value, delta, height) else b
  }

  function Apply(b: Book, e: Event): Result<Book, Error>
  {
    if !Moves(e) then Ok(b)
    else if e.amount.None? then Err(NoAmount)
    else if e.from.Some? && e.from.value !in b.holders then Err(UnknownSender)
    else Ok(MoveSome(MoveSome(b, e.from, -e.amount.value, e.height), e.to, e.amount.value, e.height))
  }

  function ApplyAll(b: Book, events: seq<Event>): Result<Book, Error>
    decreases |events|
  {
    if events == [] then Ok(b)
    else
      match Apply(b, events[0])
      case Err(x) => Err(x)
      case Ok(b1) => ApplyAll(b1, events[1..])
  }

  // ----- an update job -----

  datatype Store = Store(holders: Holders, totalSupply: int, lastUpdated: int)

  predicate Mentioned(events: seq<Event>, a: Address)
  {
    exists e :: e in events && (e.from == Some(a) || e.to == Some(a))
  }

  function LoadHolders(holders: Holders, events: seq<Event>): Holders
  {
    map a | a in holders && Mentioned(events, a) :: holders[a]
  }

  function InOrder(page: seq<Event>): seq<Event>
  {
    StableSort(Select(page, Moves), Id)
  }

  /** What `jobHandle` leaves behind for the events of its range, in whatever order they were fetched. */
  function RunJob(st: Store, page: seq<Event>, endBlock: int): Result<Store, Error>
  {
    if page == [] then Ok(st)
    else
      match ApplyAll(Book(st.holders, 0), InOrder(page))
      case Err(x) => Err(x)
      case Ok(b) => Ok(Store(b.holders, st.totalSupply + b.added, endBlock))
  }

  /** The holder and contract rows of one contract. */
  class Cw20Tables {
    var holders: Holders
    var totalSupply: int
    var lastUpdatedHeight: int

    ghost function State(): Store
      reads this
    {
      Store(holders, totalSupply, lastUpdatedHeight)
    }

    /** The body of the loop over the ordered events. */
    static method ApplyEvent(holders: Holders, added: int, event: Event)
      returns (rows: Holders, addAmount: int, thrown: Option<Error>)
      requires Moves(event)
      ensures Apply(Book(holders, added), event)
              == (match thrown { case None => Ok(Book(rows, addAmount)) case Some(x) => Err(x) })
    {
      rows, addAmount := holders, added;
      if event.amount.None? {
        return rows, addAmount, Some(NoAmount);
      }
      var amount := event.amount.value;
      if event.from.Some? {
        var from := event.from.value;
        if from !in rows {
          return rows, addAmount, Some(UnknownSender);
        }
        if event.height >= rows[from].lastUpdated {
          rows := rows[from := Holder(rows[from].amount - amount, event.height)];
          addAmount := addAmount - amount;
        }
      }
      if event.to.Some? {
        var to := event.to.value;
        if event.height >= LastUpdated(rows, to) {
          rows := rows[to := Holder(AmountOf(rows, to) + amount, event.height)];
          addAmount := addAmount + amount;
        }
      }
      return rows, addAmount, None;
    }

    method UpdateBalanceHolders(cw20Events: seq<Event>) returns (addAmount: int, thrown: Option<Error>)
      modifies this`holders
      ensures ApplyAll(Book(old(holders), 0), InOrder(cw20Events))
              == (match thrown { case None => Ok(Book(holders, addAmount)) case Some(x) => Err(x) })
      ensures thrown.Some? ==> holders == old(holders)
    {
      addAmount := 0;
      var orderEvents := StableSort(Select(cw20Events, Moves), Id);
      var rows := LoadHolders(holders, orderEvents);
      ghost var loaded := rows;
      SliceRefinesFold(holders, orderEvents);
      var i := 0;
      while i < |orderEvents|
        invariant 0 <= i <= |orderEvents| && holders == old(holders)
        invariant ApplyAll(Book(loaded, 0), orderEvents) == ApplyAll(Book(rows, addAmount), orderEvents[i..])
      {
        var event := orderEvents[i];
        assert orderEvents[i..][0] == event && orderEvents[i..][1..] == orderEvents[i + 1..];
        SelectedMove(cw20Events, i);
        rows, addAmount, thrown := ApplyEvent(rows, addAmount, event);
        if thrown.Some? {
          return;
        }
        i := i + 1;
      }
      holders := holders + rows;
      return addAmount, None;
    }

    method JobHandle(newEvents: seq<Event>, endBlock: int) returns (thrown: Option<Error>)
      modifies this
      ensures RunJob(old(State()), newEvents, endBlock)
              == (match thrown { case None => Ok(State()) case Some(x) => Err(x) })
      ensures thrown.Some? ==> State() == old(State())
    {
      if |newEvents| == 0 {
        return None;
      }
      var addAmount;
      addAmount, thrown := UpdateBalanceHolders(newEvents);
      if thrown.None? {
        totalSupply := totalSupply + addAmount;
        lastUpdatedHeight := endBlock;
      }
    }
  }

  lemma SelectedMove(page: seq<Event>, i: nat)
    requires i < |InOrder(page)|
    ensures Moves(InOrder(page)[i])
  {
    StableSortCorrect(Select(page, Moves), Id);
    var e := InOrder(page)[i];
    assert e in multiset(InOrder(page));
    SelectBag(page, Moves, e);
  }

  /** `rows` holds, for every mentioned address, what the whole table holds. */
  ghost predicate Agrees(db: Holders, events: seq<Event>, all: Book, rows: Book)
  {
    && all.added == rows.added
    && all.holders == db + rows.holders
    && (forall a :: a in all.holders && Mentioned(events, a) ==> a in rows.holders)
  }

  lemma MoveAgrees(db: Holders, events: seq<Event>, all: Book, rows: Book, a: Option<Address>, delta: int, height: int)
    requires Agrees(db, events, all, rows) && (a.Some? ==> Mentioned(events, a.value))
    ensures Agrees(db, events, MoveSome(all, a, delta, height), MoveSome(rows, a, delta, height))
  {
    var all1, rows1 := MoveSome(all, a, delta, height), MoveSome(rows, a, delta, height);
    assert all1.holders == db + rows1.holders;
  }

  lemma ApplyAgrees(db: Holders, events: seq<Event>, all: Book, rows: Book, e: Event)
    requires Agrees(db, events, all, rows) && e in events
    ensures match Apply(all, e)
            case Err(x) => Apply(rows, e) == Err(x)
            case Ok(all1) => Apply(rows, e).Ok? && Agrees(db, events, all1, Apply(rows, e).value)
  {
    if e.from.Some? { SenderAgrees(db, events, all, rows, e); }
    if Moves(e) && e.amount.Some? {
      BothMovesAgree(db, events, all, rows, e, e.amount.value);
    }
  }

  lemma SenderAgrees(db: Holders, events: seq<Event>, all: Book, rows: Book, e: Event)
    requires Agrees(db, events, all, rows) && e in events && e.from.Some?
    ensures e.from.value in all.holders <==> e.from.value in rows.holders
  {
    assert Mentioned(events, e.from.value);
  }

  lemma BothMovesAgree(db: Holders, events: seq<Event>, all: Book, rows: Book, e: Event, amount: int)
    requires Agrees(db, events, all, rows) && e in events
    ensures Agrees(db, events, MoveSome(MoveSome(all, e.from, -amount, e.height), e.to, amount, e.height),
                   MoveSome(MoveSome(rows, e.from, -amount, e.height), e.to, amount, e.height))
  {
    assert e.from.Some? ==> Mentioned(events, e.from.value);
    assert e.to.Some? ==> Mentioned(events, e.to.value);
    MoveAgrees(db, events, all, rows, e.from, -amount, e.height);
    MoveAgrees(db, events, MoveSome(all, e.from, -amount, e.height), MoveSome(rows, e.from, -amount, e.height), e.to, amount, e.height);
  }

  lemma {:induction false} ApplyAllAgrees(db: Holders, events: seq<Event>, all: Book, rows: Book, todo: seq<Event>)
    requires Agrees(db, events, all, rows) && forall e :: e in todo ==> e in events
    ensures match ApplyAll(all, todo)
            case Err(x) => ApplyAll(rows, todo) == Err(x)
            case Ok(all1) => ApplyAll(rows, todo).Ok? && Agrees(db, events, all1, ApplyAll(rows, todo).value)
    decreases |todo|
  {
    if todo != [] {
      ApplyAgrees(db, events, all, rows, todo[0]);
      if Apply(all, todo[0]).Ok? {
        ApplyAllAgrees(db, events, Apply(all, todo[0]).value, Apply(rows, todo[0]).value, todo[1..]);
      }
    }
  }

  /** Loading only the mentioned holders and writing them back is the fold over the whole holder table. */
  lemma SliceRefinesFold(db: Holders, events: seq<Event>)
    ensures ApplyAll(Book(db, 0), events) ==
            match ApplyAll(Book(LoadHolders(db, events), 0), events)
            case Err(x) => Err(x)
            case Ok(rows) => Ok(Book(db + rows.holders, rows.added))
  {
    assert db + LoadHolders(db, events) == db;
    ApplyAllAgrees(db, events, Book(db, 0), Book(LoadHolders(db, events), 0), events);
  }

  // ----- supply equals the sum of the holders -----

  function Amounts(holders: Holders): map<Address, int>
  {
    map a | a in holders :: holders[a].amount
  }

  ghost predicate SupplyIsSum(st: Store)
  {
    st.totalSupply == Total(Amounts(st.holders))
  }

  lemma MoveTotal(b: Book, a: Option<Address>, delta: int, height: int)
    ensures var b1 := MoveSome(b, a, delta, height);
            Total(Amounts(b1.holders)) - b1.added == Total(Amounts(b.holders)) - b.added
  {
    var b1 := MoveSome(b, a, delta, height);
    if a.Some? && height >= LastUpdated(b.holders, a.value) {
      var v := AmountOf(b.holders, a.value) + delta;
      TotalUpdate(Amounts(b.holders), a.value, v);
      assert Amounts(b1.holders) == Amounts(b.holders)[a.value := v];
    }
  }

  lemma ApplyTotal(b: Book, e: Event)
    requires Apply(b, e).Ok?
    ensures var b1 := Apply(b, e).value;
            Total(Amounts(b1.holders)) - b1.added == Total(Amounts(b.holders)) - b.added
  {
    if Moves(e) {
      var amount := e.amount.value;
      var b1 := MoveSome(b, e.from, -amount, e.height);
      MoveTotal(b, e.from, -amount, e.height);
      MoveTotal(b1, e.to, amount, e.height);
      assert Apply(b, e) == Ok(MoveSome(b1, e.to, amount, e.height));
    }
  }

  lemma {:induction false} AddedIsChangeOfTotal(b: Book, events: seq<Event>)
    requires ApplyAll(b, events).Ok?
    ensures var b1 := ApplyAll(b, events).value;
            Total(Amounts(b1.holders)) - b1.added == Total(Amounts(b.holders)) - b.added
    decreases |events|
  {
    if events != [] {
      var e := events[0];
      ApplyTotal(b, e);
      AddedIsChangeOfTotal(Apply(b, e).value, events[1..]);
    }
  }

  /** A balance the chain reported when the contract was indexed, with the height of the answer. */
  datatype InitBalance = InitBalance(address: Address, amount: int, eventHeight: int)

  ghost predicate DistinctAddresses(bs: seq<InitBalance>)
  {
    forall i, j :: 0 <= i < j < |bs| ==> bs[i].address != bs[j].address
  }

  function HolderRows(bs: seq<InitBalance>): Holders
  {
    if bs == [] then map[]
    else
      var last := bs[|bs| - 1];
      HolderRows(bs[..|bs| - 1])[last.address := Holder(last.amount, last.eventHeight)]
  }

  function ReducedSupply(bs: seq<InitBalance>): int
  {
    if bs == [] then 0 else ReducedSupply(bs[..|bs| - 1]) + bs[|bs| - 1].amount
  }

  function MinHeight(bs: seq<InitBalance>): int
  {
    if bs == [] then 0
    else if |bs| == 1 then bs[0].eventHeight
    else
      var m := MinHeight(bs[..|bs| - 1]);
      if bs[|bs| - 1].eventHeight < m then bs[|bs| - 1].eventHeight else m
  }

  /** The rows inserted when a contract is instantiated or reindexed. */
  function Snapshot(bs: seq<InitBalance>): Store
  {
    Store(HolderRows(bs), ReducedSupply(bs), MinHeight(bs))
  }

  lemma {:induction false} HolderRowsKeys(bs: seq<InitBalance>, a: Address)
    ensures a in HolderRows(bs) <==> exists i :: 0 <= i < |bs| && bs[i].address == a
  {
    if bs != [] {
      var front := bs[..|bs| - 1];
      HolderRowsKeys(front, a);
      if a in HolderRows(front) {
        var i :| 0 <= i < |front| && front[i].address == a;
        assert bs[i].address == a;
      }
      if exists i :: 0 <= i < |bs| && bs[i].address == a {
        var i :| 0 <= i < |bs| && bs[i].address == a;
        if i < |front| { assert front[i].address == a; }
      }
    }
  }

  lemma {:induction false} SnapshotSupplyIsSum(bs: seq<InitBalance>)
    requires DistinctAddresses(bs)
    ensures SupplyIsSum(Snapshot(bs))
  {
    if bs != [] {
      var front, last := bs[..|bs| - 1], bs[|bs| - 1];
      SnapshotSupplyIsSum(front);
      HolderRowsKeys(front, last.address);
      TotalUpdate(Amounts(HolderRows(front)), last.address, last.amount);
      assert Amounts(HolderRows(bs)) == Amounts(HolderRows(front))[last.address := last.amount];
    }
  }

  /** Everything that writes the rows of a contract. */
  datatype Write = Recreate(balances: seq<InitBalance>) | Job(page: seq<Event>, endBlock: int)

  function AfterWrites(st: Store, ws: seq<Write>): Store
  {
    if ws == [] then st
    else
      var before := AfterWrites(st, ws[..|ws| - 1]);
      match ws[|ws| - 1]
      case Recreate(bs) => Snapshot(bs)
      case Job(page, end) =>
        match RunJob(before, page, end)
        case Err(_) => before
        case Ok(after) => after
  }

  /**
   In every reachable state the supply is the sum of the holders: through instantiate, reindex and update jobs,
   for any pages of events, also when the height guard drops only one side of a transfer and when a job fails.
   */
  lemma {:induction false} SupplyAlwaysSum(bs: seq<InitBalance>, ws: seq<Write>)
    requires DistinctAddresses(bs)
    requires forall w :: w in ws && w.Recreate? ==> DistinctAddresses(w.balances)
    ensures SupplyIsSum(AfterWrites(Snapshot(bs), ws))
    decreases |ws|
  {
    if ws == [] {
      SnapshotSupplyIsSum(bs);
    } else {
      var front, last := ws[..|ws| - 1], ws[|ws| - 1];
      assert forall w :: w in front ==> w in ws;
      SupplyAlwaysSum(bs, front);
      var before := AfterWrites(Snapshot(bs), front);
      match last
      case Recreate(b) =>
        assert last in ws;
        SnapshotSupplyIsSum(b);
      case Job(page, end) =>
        if page != [] && ApplyAll(Book(before.holders, 0), InOrder(page)).Ok? {
          AddedIsChangeOfTotal(Book(before.holders, 0), InOrder(page));
        }
    }
  }

  // ----- jobs on an ordered log -----

  /** The log is in id order, heights follow ids, and ids are unique. */
  ghost predicate WellOrdered(log: seq<Event>)
  {
    && Sorted(log, Id) && Sorted(log, Height)
    && forall i, j :: 0 <= i < j < |log| ==> log[i].id != log[j].id
  }

  lemma {:induction false} ApplyAllConcat(b: Book, x: seq<Event>, y: seq<Event>)
    ensures ApplyAll(b, x + y) == match ApplyAll(b, x) { case Err(e) => Err(e) case Ok(b1) => ApplyAll(b1, y) }
    decreases |x|
  {
    if x == [] {
      assert x + y == y;
    } else {
      assert (x + y)[0] == x[0] && (x + y)[1..] == x[1..] + y;
      if Apply(b, x[0]).Ok? {
        ApplyAllConcat(Apply(b, x[0]).value, x[1..], y);
      }
    }
  }

  lemma {:induction false} ApplyAllSkipsOthers(b: Book, events: seq<Event>)
    ensures ApplyAll(b, Select(events, Moves)) == ApplyAll(b, events)
    decreases |events|
  {
    if events != [] {
      if Apply(b, events[0]).Ok? {
        ApplyAllSkipsOthers(Apply(b, events[0]).value, events[1..]);
      }
      if Moves(events[0]) {
        assert Select(events, Moves)[1..] == Select(events[1..], Moves);
      }
    }
  }

  /** The running total does not influence the holders. */
  lemma {:induction false} AddedIsSeparate(holders: Holders, x: int, y: int, events: seq<Event>)
    ensures match ApplyAll(Book(holders, x), events)
            case Err(e) => ApplyAll(Book(holders, y), events) == Err(e)
            case Ok(b) => ApplyAll(Book(holders, y), events) == Ok(Book(b.holders, b.added - x + y))
    decreases |events|
  {
    if events != [] && Apply(Book(holders, x), events[0]).Ok? {
      var b := Apply(Book(holders, x), events[0]).value;
      AddedIsSeparate(b.holders, b.added, b.added - x + y, events[1..]);
    }
  }

  lemma SelectSameBag(part: seq<Event>, page: seq<Event>)
    requires multiset(page) == multiset(part)
    ensures multiset(Select(part, Moves)) == multiset(Select(page, Moves))
  {
    var a, b := Select(part, Moves), Select(page, Moves);
    forall x ensures multiset(a)[x] == multiset(b)[x] {
      SelectBag(part, Moves, x);
      SelectBag(page, Moves, x);
    }
  }

  lemma IdsIdentify(log: seq<Event>, lo: int, hi: int)
    requires WellOrdered(log)
    ensures var a := Select(Between(log, Height, lo, hi), Moves);
            forall i, j :: 0 <= i < |a| && 0 <= j < |a| && Id(a[i]) == Id(a[j]) ==> a[i] == a[j]
  {
    var part := Between(log, Height, lo, hi);
    var a := Select(part, Moves);
    forall i, j | 0 <= i < |a| && 0 <= j < |a| && Id(a[i]) == Id(a[j]) ensures a[i] == a[j] {
      var i' := SelectIndex(part, Moves, i);
      var j' := SelectIndex(part, Moves, j);
      BetweenMembers(log, Height, lo, hi);
      assert part[i'] in log && part[j'] in log;
    }
  }

  /** Whatever order the query returns, the job works through its events in log order. */
  lemma PageInLogOrder(log: seq<Event>, lo: int, hi: int, page: seq<Event>)
    requires WellOrdered(log) && multiset(page) == multiset(Between(log, Height, lo, hi))
    ensures InOrder(page) == Select(Between(log, Height, lo, hi), Moves)
  {
    var part := Between(log, Height, lo, hi);
    var a, b := Select(part, Moves), Select(page, Moves);
    SelectSameBag(part, page);
    IdsIdentify(log, lo, hi);
    SortIgnoresOrder(a, b, Id);
    BetweenOrdered(log, Height, lo, hi, Id);
    SelectSorted(part, Moves, Id);
    SortOfSorted(a, Id);
  }

  // ----- what the holders hold -----

  /** What an event brings to an address: seven actions move an amount from `from` to `to`, any other nothing. */
  function NetOne(e: Event, a: Address): int
  {
    match e.action
    case Mint | Burn | Transfer | Send | TransferFrom | BurnFrom | SendFrom =>
      if e.amount.None? then 0
      else (if e.to == Some(a) then e.amount.value else 0) - (if e.from == Some(a) then e.amount.value else 0)
    case Other => 0
  }

  /** Inflow minus outflow of one address over a log. */
  function Net(events: seq<Event>, a: Address): int
  {
    if events == [] then 0 else NetOne(events[0], a) + Net(events[1..], a)
  }

  /** No holder row is newer than `height`. */
  ghost predicate NotNewer(holders: Holders, height: int)
  {
    0 <= height && forall a :: a in holders ==> holders[a].lastUpdated <= height
  }

  /** On an ordered log that starts after all rows, the height guard drops nothing. */
  lemma {:induction false} GuardDropsNothing(b: Book, events: seq<Event>, a: Address)
    requires Sorted(events, Height) && (forall i :: 0 <= i < |events| ==> NotNewer(b.holders, events[i].height))
    requires ApplyAll(b, events).Ok?
    ensures AmountOf(ApplyAll(b, events).value.holders, a) == AmountOf(b.holders, a) + Net(events, a)
    decreases |events|
  {
    if events != [] {
      var b1 := Apply(b, events[0]).value;
      assert NotNewer(b.holders, events[0].height);
      assert AmountOf(b1.holders, a) == AmountOf(b.holders, a) + NetOne(events[0], a);
      assert NotNewer(b1.holders, events[0].height);
      forall i | 0 <= i < |events[1..]| ensures NotNewer(b1.holders, events[1..][i].height) {
        assert Height(events[0]) <= Height(events[i + 1]);
      }
      GuardDropsNothing(b1, events[1..], a);
    }
  }

  // ----- when an update job can fail -----

  /** Every moving event has an amount and a sender that holds, or has received, the token. */
  ghost predicate SendersKnown(holders: Holders, events: seq<Event>)
  {
    forall i :: 0 <= i < |events| && Moves(events[i]) ==>
      && events[i].amount.Some?
      && (events[i].from.Some? ==>
            || events[i].from.value in holders
            || exists j :: 0 <= j < i && Moves(events[j]) && events[j].to == events[i].from)
  }

  lemma ApplyKeys(b: Book, e: Event)
    requires Apply(b, e).Ok? && e.height >= 0
    ensures Apply(b, e).value.holders.Keys
            == b.holders.Keys + (if Moves(e) && e.to.Some? then {e.to.value} else {})
  {
  }

  lemma SendersKnownTail(b: Book, events: seq<Event>)
    requires events != [] && Apply(b, events[0]).Ok? && events[0].height >= 0
    requires Moves(events[0]) ==> events[0].amount.Some? && (events[0].from.Some? ==> events[0].from.value in b.holders)
    ensures SendersKnown(b.holders, events) <==> SendersKnown(Apply(b, events[0]).value.holders, events[1..])
  {
    var b1 := Apply(b, events[0]).value;
    ApplyKeys(b, events[0]);
    if SendersKnown(b.holders, events) {
      forall i | 0 <= i < |events[1..]| && Moves(events[1..][i]) && events[1..][i].from.Some?
        ensures events[1..][i].from.value in b1.holders
                || exists j :: 0 <= j < i && Moves(events[1..][j]) && events[1..][j].to == events[1..][i].from
      {
        var e := events[i + 1];
        if e.from.value !in b1.holders {
          var j :| 0 <= j < i + 1 && Moves(events[j]) && events[j].to == e.from;
          assert j != 0;
          assert events[1..][j - 1] == events[j];
        }
      }
      assert SendersKnown(b1.holders, events[1..]) by {
        forall i | 0 <= i < |events[1..]| && Moves(events[1..][i]) ensures events[1..][i].amount.Some? {
          assert events[i + 1] == events[1..][i];
        }
      }
    }
    if SendersKnown(b1.holders, events[1..]) {
      forall i | 0 <= i < |events| && Moves(events[i])
        ensures events[i].amount.Some?
        ensures events[i].from.Some? ==>
                  || events[i].from.value in b.holders
                  || exists j :: 0 <= j < i && Moves(events[j]) && events[j].to == events[i].from
      {
        if i > 0 {
          assert events[i] == events[1..][i - 1];
          if events[i].from.Some? && events[i].from.value !in b.holders {
            if events[i].from.value in b1.holders {
              assert Moves(events[0]) && events[0].to == events[i].from;
            } else {
              var j :| 0 <= j < i - 1 && Moves(events[1..][j]) && events[1..][j].to == events[1..][i - 1].from;
              assert events[j + 1] == events[1..][j];
            }
          }
        }
      }
    }
  }

  /** A job succeeds, in turn or out of turn, if and only if every amount is there and every sender is known in time. */
  lemma {:induction false} JobSucceedsIff(b: Book, events: seq<Event>)
    requires forall i :: 0 <= i < |events| ==> events[i].height >= 0
    ensures ApplyAll(b, events).Ok? <==> SendersKnown(b.holders, events)
    decreases |events|
  {
    if events != [] {
      if Apply(b, events[0]).Ok? {
        JobSucceedsIff(Apply(b, events[0]).value, events[1..]);
        SendersKnownTail(b, events);
      }
    }
  }

  // ----- what one job does to the two tables -----

  /** What an event adds to the supply: a mint has no sender and a burn no recipient. */
  function SupplyOne(e: Event): int
  {
    match e.action
    case Mint | Burn | Transfer | Send | TransferFrom | BurnFrom | SendFrom =>
      if e.amount.None? then 0
      else (if e.to.Some? then e.amount.value else 0) - (if e.from.Some? then e.amount.value else 0)
    case Other => 0
  }

  function SupplyFlow(events: seq<Event>): int
  {
    if events == [] then 0 else SupplyOne(events[0]) + SupplyFlow(events[1..])
  }

  /** The height of the last event that moves tokens from or to `a`. */
  function StampOf(events: seq<Event>, a: Address, before: int): int
  {
    if events == [] then before
    else
      var e := events[|events| - 1];
      var moves := match e.action
        case Mint | Burn | Transfer | Send | TransferFrom | BurnFrom | SendFrom => true
        case Other => false;
      if moves && (e.from == Some(a) || e.to == Some(a)) then e.height else StampOf(events[..|events| - 1], a, before)
  }

  /** One event that is not older than any row: amounts, heights and supply. */
  lemma ApplyInFull(b: Book, e: Event, a: Address)
    requires NotNewer(b.holders, e.height) && Apply(b, e).Ok?
    ensures var b1 := Apply(b, e).value;
            && AmountOf(b1.holders, a) == AmountOf(b.holders, a) + NetOne(e, a)
            && LastUpdated(b1.holders, a) == StampOf([e], a, LastUpdated(b.holders, a))
            && b1.added == b.added + SupplyOne(e)
            && NotNewer(b1.holders, e.height)
  {
    assert [e][..0] == [] && [e][0] == e;
  }

  lemma {:induction false} StampConcat(x: seq<Event>, y: seq<Event>, a: Address, before: int)
    ensures StampOf(x + y, a, before) == StampOf(y, a, StampOf(x, a, before))
    decreases |y|
  {
    if y == [] {
      assert x + y == x;
    } else {
      assert (x + y)[..|x + y| - 1] == x + y[..|y| - 1];
      StampConcat(x, y[..|y| - 1], a, before);
    }
  }

  lemma {:induction false} ApplyAllInFull(b: Book, events: seq<Event>, a: Address)
    requires Sorted(events, Height) && (forall i :: 0 <= i < |events| ==> NotNewer(b.holders, events[i].height))
    requires ApplyAll(b, events).Ok?
    ensures var b1 := ApplyAll(b, events).value;
            && AmountOf(b1.holders, a) == AmountOf(b.holders, a) + Net(events, a)
            && LastUpdated(b1.holders, a) == StampOf(events, a, LastUpdated(b.holders, a))
            && b1.added == b.added + SupplyFlow(events)
    decreases |events|
  {
    if events != [] {
      var b1 := Apply(b, events[0]).value;
      assert NotNewer(b.holders, events[0].height);
      ApplyInFull(b, events[0], a);
      forall i | 0 <= i < |events[1..]| ensures NotNewer(b1.holders, events[1..][i].height) {
        assert Height(events[0]) <= Height(events[i + 1]);
      }
      ApplyAllInFull(b1, events[1..], a);
      assert events == [events[0]] + events[1..];
      StampConcat([events[0]], events[1..], a, LastUpdated(b.holders, a));
    }
  }

  lemma {:induction false} SelectedFlow(events: seq<Event>, a: Address, before: int)
    ensures Net(Select(events, Moves), a) == Net(events, a)
    ensures SupplyFlow(Select(events, Moves)) == SupplyFlow(events)
    ensures StampOf(Select(events, Moves), a, before) == StampOf(events, a, before)
  {
    if events != [] {
      var first := [events[0]];
      SelectedFlow(events[1..], a, StampOf(first, a, before));
      assert events == first + events[1..];
      StampConcat(first, events[1..], a, before);
      assert first[..0] == [] && first[0] == events[0];
      if Moves(events[0]) {
        assert Select(events, Moves)[1..] == Select(events[1..], Moves);
        assert Select(events, Moves) == first + Select(events[1..], Moves);
        StampConcat(first, Select(events[1..], Moves), a, before);
      }
    }
  }

  /**
   A job over a range that no row is newer than, in whatever order its events were fetched: each holder changes by
   its inflow minus outflow over the seven moving actions and carries the height of its last move, the supply changes
   by what was minted minus what was burned, and the contract row carries the end of the range.
   */
  lemma JobMovesFlow(st: Store, log: seq<Event>, lo: int, hi: int, page: seq<Event>, a: Address)
    requires WellOrdered(log) && page != [] && multiset(page) == multiset(Between(log, Height, lo, hi))
    requires forall i :: 0 <= i < |log| && lo < log[i].height <= hi ==> NotNewer(st.holders, log[i].height)
    requires RunJob(st, page, hi).Ok?
    ensures var (after, events) := (RunJob(st, page, hi).value, Between(log, Height, lo, hi));
            && AmountOf(after.holders, a) == AmountOf(st.holders, a) + Net(events, a)
            && LastUpdated(after.holders, a) == StampOf(events, a, LastUpdated(st.holders, a))
            && after.totalSupply == st.totalSupply + SupplyFlow(events)
            && after.lastUpdated == hi
  {
    var part := Between(log, Height, lo, hi);
    PageInLogOrder(log, lo, hi, page);
    BetweenMembers(log, Height, lo, hi);
    BetweenOrdered(log, Height, lo, hi, Height);
    SelectSorted(part, Moves, Height);
    var events := Select(part, Moves);
    forall i | 0 <= i < |events| ensures NotNewer(st.holders, events[i].height) {
      var j := SelectIndex(part, Moves, i);
      assert part[j] in part;
      assert part[j] in log;
    }
    ApplyAllInFull(Book(st.holders, 0), events, a);
    SelectedFlow(part, a, LastUpdated(st.holders, a));
  }

  /** The snapshot's contract row carries the smallest height the chain answered with, 0 without answers. */
  lemma {:induction false} MinHeightIsMin(bs: seq<InitBalance>)
    ensures bs == [] ==> MinHeight(bs) == 0
    ensures forall i :: 0 <= i < |bs| ==> MinHeight(bs) <= bs[i].eventHeight
    ensures bs != [] ==> exists i :: 0 <= i < |bs| && MinHeight(bs) == bs[i].eventHeight
  {
    if |bs| > 1 {
      MinHeightIsMin(bs[..|bs| - 1]);
      var i :| 0 <= i < |bs[..|bs| - 1]| && MinHeight(bs[..|bs| - 1]) == bs[..|bs| - 1][i].eventHeight;
      assert bs[i] == bs[..|bs| - 1][i];
      assert MinHeight(bs) == bs[i].eventHeight || MinHeight(bs) == bs[|bs| - 1].eventHeight;
    } else if |bs| == 1 {
      assert MinHeight(bs) == bs[0].eventHeight;
    }
  }

  /** Each snapshot row holds what the chain answered for its address. */
  lemma {:induction false} SnapshotRow(bs: seq<InitBalance>, i: nat)
    requires DistinctAddresses(bs) && i < |bs|
    ensures bs[i].address in Snapshot(bs).holders
    ensures Snapshot(bs).holders[bs[i].address] == Holder(bs[i].amount, bs[i].eventHeight)
  {
    if i < |bs| - 1 { SnapshotRow(bs[..|bs| - 1], i); }
  }
}
