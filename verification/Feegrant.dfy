/**
 Fee grants: history rows are attributed to the grant they act on and folded into
 its spend limit and status, one page of unprocessed rows at a time.
 */
module Feegrant {
  import opened Wrappers

  type Address = string

  datatype Status = Available | UsedUp | Revoked

  datatype Action = Create | Use | UseUp | Revoke

  /** A row of `feegrant`; `initTx` is 0 for a grant without a creating transaction. */
  datatype Grant = Grant(
    granter: Address, grantee: Address, initTx: int,
    spendLimit: Option<int>, status: Status, revokeTx: Option<int>)

  /** A row of `feegrant_history`. */
  datatype History = History(txId: int, granter: Address, grantee: Address, action: Action, amount: Option<int>)

  datatype Error = FeeNotFound

  /** The grant table; a row's position is its id. */
  type Grants = seq<Grant>

  // ----- attribution -----

  predicate SamePair(g: Grant, e: History)
  {
    g.granter == e.granter && g.grantee == e.grantee
  }

  /** Among the rows that satisfy `keep`, the one of the pair with the largest `initTx` not after the event. */
  function LatestAmong(grants: Grants, e: History, keep: Grant -> bool): (r: Option<nat>)
    ensures r.Some? ==> r.value < |grants| && grants[r.value].granter == e.granter && grants[r.value].grantee == e.grantee
                        && keep(grants[r.value]) && grants[r.value].initTx <= e.txId
  {
    if grants == [] then None
    else
      var n := |grants| - 1;
      var prev := LatestAmong(grants[..n], e, keep);
      if SamePair(grants[n], e) && grants[n].initTx <= e.txId && keep(grants[n]) then
        if prev.Some? && grants[prev.value].initTx > grants[n].initTx then prev else Some(n)
      else prev
  }

  predicate IsAvailable(g: Grant) { g.status == Available }

  predicate Any(g: Grant) { true }

  /** The grant the job picks: the latest of those that are still available when the page is loaded. */
  function Attribute(grants: Grants, e: History): Option<nat>
  {
    LatestAmong(grants, e, IsAvailable)
  }

  /** The grant an event acts on: the latest of the pair at or before it. */
  function Latest(grants: Grants, e: History): Option<nat>
  {
    LatestAmong(grants, e, Any)
  }

  /** `Latest` is what its name says: no grant of the pair lies between it and the event. */
  lemma {:induction false} LatestIsLatest(grants: Grants, e: History, keep: Grant -> bool, i: nat)
    requires i < |grants| && grants[i].granter == e.granter && grants[i].grantee == e.grantee
    requires grants[i].initTx <= e.txId && keep(grants[i])
    ensures LatestAmong(grants, e, keep).Some?
    ensures var g := LatestAmong(grants, e, keep).value;
            grants[i].initTx < grants[g].initTx || (grants[i].initTx == grants[g].initTx && i <= g)
    decreases |grants|
  {
    var n := |grants| - 1;
    if i < n {
      LatestIsLatest(grants[..n], e, keep, i);
    }
  }

  /** The job picks the latest grant if and only if that one is still available when the page is loaded. */
  lemma AttributeIsLatest(grants: Grants, e: History)
    ensures Attribute(grants, e) == Latest(grants, e)
            <==> (Latest(grants, e).Some? ==> grants[Latest(grants, e).value].status == Available)
  {
    var g := Latest(grants, e);
    if g.Some? && grants[g.value].status != Available {
      assert Attribute(grants, e).Some? ==> IsAvailable(grants[Attribute(grants, e).value]);
    } else if g.Some? {
      LatestIsLatest(grants, e, IsAvailable, g.value);
      LatestIsLatest(grants, e, Any, Attribute(grants, e).value);
    } else {
      var a := Attribute(grants, e);
      if a.Some? {
        LatestIsLatest(grants, e, Any, a.value);
      }
    }
  }

  // ----- one page -----

  /** A history row together with the grant it was attributed to. */
  datatype Attributed = Attributed(h: History, grant: nat)

  /** The rows that found a grant, in page order. */
  function AttributeAll(grants: Grants, page: seq<History>): seq<Attributed>
  {
    if page == [] then []
    else
      match Attribute(grants, page[0])
      case None => AttributeAll(grants, page[1..])
      case Some(g) => [Attributed(page[0], g)] + AttributeAll(grants, page[1..])
  }

  datatype Update = Update(amount: int, status: Status)

  type Updates = map<nat, Update>

  function InitMap(hs: seq<Attributed>): Updates
  {
    if hs == [] then map[]
    else
      var n := |hs| - 1;
      if hs[n].h.action == Create then InitMap(hs[..n]) else InitMap(hs[..n])[hs[n].grant := Update(0, Available)]
  }

  predicate Ends(a: Action) { a == UseUp || a == Revoke }

  predicate Spends(a: Action) { a == Use || a == UseUp }

  predicate FeeMissing(h: History) { Spends(h.action) && h.amount.None? }

  /** What the rows spend from grant `g`. */
  function Spent(hs: seq<Attributed>, g: nat): int
  {
    if hs == [] then 0
    else
      var n := |hs| - 1;
      Spent(hs[..n], g)
      + (if hs[n].grant == g && Spends(hs[n].h.action) && hs[n].h.amount.Some? then hs[n].h.amount.value else 0)
  }

  /** The last row that ends grant `g`. */
  function EndOf(hs: seq<Attributed>, g: nat): Option<History>
  {
    if hs == [] then None
    else
      var n := |hs| - 1;
      if hs[n].grant == g && Ends(hs[n].h.action) then Some(hs[n].h) else EndOf(hs[..n], g)
  }

  function EndStatus(a: Action): Status
  {
    if a == UseUp then UsedUp else Revoked
  }

  /** A grant after the rows have acted on it. */
  function Acted(row: Grant, hs: seq<Attributed>, g: nat): Grant
  {
    var spent := if row.spendLimit.Some? then Some(row.spendLimit.value - Spent(hs, g)) else None;
    match EndOf(hs, g)
    case None => row.(spendLimit := spent)
    case Some(h) => row.(spendLimit := spent, status := EndStatus(h.action), revokeTx := Some(h.txId))
  }

  function ActedAll(grants: Grants, hs: seq<Attributed>): (r: Grants)
    ensures |r| == |grants|
  {
    seq(|grants|, i requires 0 <= i < |grants| => Acted(grants[i], hs, i))
  }

  // ----- the same, read off the rows -----

  /** The amounts of the uses of grant `g`. */
  function TakenFrom(hs: seq<Attributed>, g: nat): int
  {
    if hs == [] then 0
    else
      var n := |hs| - 1;
      TakenFrom(hs[..n], g)
      + match hs[n].h.action
        case Create | Revoke => 0
        case Use | UseUp => if hs[n].grant == g && hs[n].h.amount.Some? then hs[n].h.amount.value else 0
  }

  /** Row `i` ends grant `g`. */
  predicate IsEnd(hs: seq<Attributed>, g: nat, i: nat)
  {
    i < |hs| && hs[i].grant == g && (hs[i].h.action == UseUp || hs[i].h.action == Revoke)
  }

  ghost predicate IsLastEnd(hs: seq<Attributed>, g: nat, i: nat)
  {
    IsEnd(hs, g, i) && forall k: nat :: i < k ==> !IsEnd(hs, g, k)
  }

  /** `after` is `row` with the limit lowered by the uses, and ended by the last row that ends it. */
  ghost predicate ActedByRows(row: Grant, hs: seq<Attributed>, g: nat, after: Grant)
  {
    && after.granter == row.granter && after.grantee == row.grantee && after.initTx == row.initTx
    && after.spendLimit == (if row.spendLimit.Some? then Some(row.spendLimit.value - TakenFrom(hs, g)) else None)
    && (forall i: nat :: IsLastEnd(hs, g, i) ==>
          && after.status == (if hs[i].h.action == UseUp then UsedUp else Revoked)
          && after.revokeTx == Some(hs[i].h.txId))
    && ((forall i: nat :: !IsEnd(hs, g, i)) ==> after.status == row.status && after.revokeTx == row.revokeTx)
  }

  ghost predicate RowsTell(hs: seq<Attributed>, g: nat)
  {
    && Spent(hs, g) == TakenFrom(hs, g)
    && (forall i: nat :: IsLastEnd(hs, g, i) ==>
          && EndOf(hs, g) == Some(hs[i].h)
          && StatusAfter(hs, g) == if hs[i].h.action == UseUp then UsedUp else Revoked)
    && ((forall i: nat :: !IsEnd(hs, g, i)) ==> EndOf(hs, g) == None && StatusAfter(hs, g) == Available)
  }

  lemma {:induction false} RowsDecide(hs: seq<Attributed>, g: nat)
    ensures RowsTell(hs, g)
  {
    if hs != [] {
      var n := |hs| - 1;
      var front := hs[..n];
      RowsDecide(front, g);
      forall i: nat ensures IsEnd(hs, g, i) <==> if i == n then IsEnd(hs, g, n) else IsEnd(front, g, i) {}
      if !IsEnd(hs, g, n) {
        forall i: nat | IsLastEnd(hs, g, i) ensures IsLastEnd(front, g, i) {}
      }
    }
  }

  /** The effect of a page on a grant, read off the page's rows. */
  lemma ActedRow(row: Grant, hs: seq<Attributed>, g: nat)
    ensures ActedByRows(row, hs, g, Acted(row, hs, g))
  {
    RowsDecide(hs, g);
  }

  /** What the accumulation loop must leave in `mapUpdate`. */
  ghost predicate Accumulated(m: Updates, hs: seq<Attributed>, done: nat)
    requires done <= |hs|
  {
    && m.Keys == InitMap(hs).Keys
    && forall g :: g in m ==> m[g] == Update(Spent(hs[..done], g), StatusAfter(hs[..done], g))
  }

  function StatusAfter(hs: seq<Attributed>, g: nat): Status
  {
    match EndOf(hs, g) { case None => Available case Some(h) => EndStatus(h.action) }
  }

  lemma AccumulatedStep(m: Updates, hs: seq<Attributed>, i: nat, current: Update)
    requires i < |hs| && Accumulated(m, hs, i) && hs[i].h.action != Create && hs[i].grant in m && !FeeMissing(hs[i].h)
    requires current.amount == m[hs[i].grant].amount + (if Spends(hs[i].h.action) then hs[i].h.amount.value else 0)
    requires current.status == if Ends(hs[i].h.action) then EndStatus(hs[i].h.action) else m[hs[i].grant].status
    ensures Accumulated(m[hs[i].grant := current], hs, i + 1)
  {
    assert hs[..i + 1][..i] == hs[..i] && hs[..i + 1][i] == hs[i];
  }

  lemma AccumulatedCreate(m: Updates, hs: seq<Attributed>, i: nat)
    requires i < |hs| && Accumulated(m, hs, i) && hs[i].h.action == Create
    ensures Accumulated(m, hs, i + 1)
  {
    assert hs[..i + 1][..i] == hs[..i] && hs[..i + 1][i] == hs[i];
  }

  lemma {:induction false} InitMapKeys(hs: seq<Attributed>, i: nat)
    requires i < |hs| && hs[i].h.action != Create
    ensures hs[i].grant in InitMap(hs)
  {
    var n := |hs| - 1;
    if i < n { InitMapKeys(hs[..n], i); }
  }

  lemma {:induction false} InitMapZero(hs: seq<Attributed>, g: nat)
    requires g in InitMap(hs)
    ensures InitMap(hs)[g] == Update(0, Available)
    ensures exists i :: 0 <= i < |hs| && hs[i].grant == g && hs[i].h.action != Create
  {
    var n := |hs| - 1;
    if hs[n].h.action == Create || hs[n].grant != g {
      InitMapZero(hs[..n], g);
      var i :| 0 <= i < n && hs[..n][i].grant == g && hs[..n][i].h.action != Create;
      assert hs[i].grant == g;
    }
  }

  lemma {:induction false} UnmentionedUnchanged(hs: seq<Attributed>, g: nat)
    requires g !in InitMap(hs)
    ensures Spent(hs, g) == 0 && EndOf(hs, g) == None
  {
    if hs != [] {
      UnmentionedUnchanged(hs[..|hs| - 1], g);
    }
  }

  /** The two tables; `processed` holds the processed history rows with the grant each was attributed to. */
  datatype Tables = Tables(grants: Grants, history: seq<History>, processed: map<nat, Option<nat>>)

  function RowsOf(history: seq<History>, ids: seq<nat>): (r: seq<History>)
    requires forall id :: id in ids ==> id < |history|
    ensures |r| == |ids|
  {
    seq(|ids|, i requires 0 <= i < |ids| => assert ids[i] in ids; history[ids[i]])
  }

  function Attributions(grants: Grants, history: seq<History>, ids: seq<nat>): map<nat, Option<nat>>
  {
    map id | id in ids && id < |history| :: Attribute(grants, history[id])
  }

  /** One run of the job on the rows with the given ids. */
  function PageStep(t: Tables, ids: seq<nat>): Result<Tables, Error>
    requires forall id :: id in ids ==> id < |t.history|
  {
    match PageUpdate(t.grants, RowsOf(t.history, ids))
    case Err(x) => Err(x)
    case Ok(grants) => Ok(Tables(grants, t.history, t.processed + Attributions(t.grants, t.history, ids)))
  }

  /** The grant and history tables and the job that updates them. */
  class UpdateFeegrantJob {
    var grants: Grants
    var history: seq<History>
    var processed: map<nat, Option<nat>>

    ghost function State(): Tables
      reads this
    {
      Tables(grants, history, processed)
    }

    /** The loops that fill `mapUpdate` and `listRevoke`. */
    static method Accumulate(hs: seq<Attributed>)
      returns (thrown: Option<Error>, mapUpdate: Updates, listRevoke: seq<Attributed>)
      ensures thrown == if exists i :: 0 <= i < |hs| && FeeMissing(hs[i].h) then Some(FeeNotFound) else None
      ensures thrown.Some? <==>
                exists i :: 0 <= i < |hs| && (hs[i].h.action == Use || hs[i].h.action == UseUp) && hs[i].h.amount.None?
      ensures thrown.None? ==> Accumulated(mapUpdate, hs, |hs|) && listRevoke == EndRows(hs)
      ensures thrown.None? ==> forall g :: g in mapUpdate ==>
                && mapUpdate[g].amount == TakenFrom(hs, g)
                && (forall i: nat :: IsLastEnd(hs, g, i) ==> mapUpdate[g].status == if hs[i].h.action == UseUp then UsedUp else Revoked)
                && ((forall i: nat :: !IsEnd(hs, g, i)) ==> mapUpdate[g].status == Available)
    {
      mapUpdate := InitMap(hs);
      listRevoke := [];
      assert hs[..0] == [];
      forall g | g in mapUpdate ensures mapUpdate[g] == Update(0, Available) { InitMapZero(hs, g); }
      var i := 0;
      while i < |hs|
        invariant 0 <= i <= |hs|
        invariant forall j :: 0 <= j < i ==> !FeeMissing(hs[j].h)
        invariant Accumulated(mapUpdate, hs, i)
        invariant listRevoke == EndRows(hs[..i])
      {
        var e := hs[i];
        assert hs[..i + 1][..i] == hs[..i] && hs[..i + 1][i] == e;
        if e.h.action != Create {
          InitMapKeys(hs, i);
          var current := mapUpdate[e.grant];
          if e.h.action == Use || e.h.action == UseUp {
            if e.h.amount.None? {
              assert FeeMissing(hs[i].h);
              return Some(FeeNotFound), mapUpdate, listRevoke;
            }
            current := Update(current.amount + e.h.amount.value, current.status);
          }
          if e.h.action == Revoke || e.h.action == UseUp {
            listRevoke := listRevoke + [e];
            current := Update(current.amount, EndStatus(e.h.action));
          }
          AccumulatedStep(mapUpdate, hs, i, current);
          mapUpdate := mapUpdate[e.grant := current];
        } else {
          AccumulatedCreate(mapUpdate, hs, i);
        }
        i := i + 1;
      }
      assert hs[..i] == hs;
      forall g | g in mapUpdate ensures mapUpdate[g] == Update(Spent(hs, g), StatusAfter(hs, g)) && RowsTell(hs, g) { RowsDecide(hs, g); }
      return None, mapUpdate, listRevoke;
    }

    method UpdateFeegrant(hs: seq<Attributed>) returns (thrown: Option<Error>)
      requires forall i :: 0 <= i < |hs| ==> hs[i].grant < |grants| && grants[hs[i].grant].status == Available
      modifies this`grants
      ensures thrown == if exists i :: 0 <= i < |hs| && FeeMissing(hs[i].h) then Some(FeeNotFound) else None
      ensures thrown.None? ==> grants == ActedAll(old(grants), hs)
      ensures thrown.None? ==> forall g: nat :: g < |grants| ==> ActedByRows(old(grants)[g], hs, g, grants[g])
      ensures thrown.Some? ==> grants == old(grants)
    {
      var mapUpdate, listRevoke;
      thrown, mapUpdate, listRevoke := Accumulate(hs);
      if thrown.None? {
        PatchRows(mapUpdate, hs);
        PatchRevokes(listRevoke, hs);
        forall g: nat | g < |grants| ensures ActedByRows(old(grants)[g], hs, g, grants[g]) { ActedRow(old(grants)[g], hs, g); }
      }
    }

    /** Patches the spend limit and the status of every row that has an update. */
    method PatchRows(mapUpdate: Updates, ghost hs: seq<Attributed>)
      requires Accumulated(mapUpdate, hs, |hs|)
      requires forall i :: 0 <= i < |hs| ==> hs[i].grant < |grants| && grants[hs[i].grant].status == Available
      modifies this`grants
      ensures |grants| == |old(grants)|
      ensures forall g: nat :: g < |grants| ==>
                grants[g] == Acted(old(grants)[g], hs, g).(revokeTx := old(grants)[g].revokeTx)
    {
      assert hs[..|hs|] == hs;
      var g := 0;
      while g < |grants|
        invariant 0 <= g <= |grants| == |old(grants)|
        invariant forall k: nat :: k < g ==>
                    grants[k] == Acted(old(grants)[k], hs, k).(revokeTx := old(grants)[k].revokeTx)
        invariant forall k: nat :: g <= k < |grants| ==> grants[k] == old(grants)[k]
      {
        if g in mapUpdate {
          var row := grants[g];
          var up := mapUpdate[g];
          InitMapZero(hs, g);
          if row.spendLimit.Some? {
            grants := grants[g := row.(spendLimit := Some(row.spendLimit.value - up.amount), status := up.status)];
          } else {
            grants := grants[g := row.(status := up.status)];
          }
        } else {
          UnmentionedUnchanged(hs, g);
        }
        g := g + 1;
      }
    }

    /** Patches `revoke_tx_id` of the grant of every ending row, in order. */
    method PatchRevokes(listRevoke: seq<Attributed>, ghost hs: seq<Attributed>)
      requires listRevoke == EndRows(hs)
      requires forall i :: 0 <= i < |hs| ==> hs[i].grant < |grants|
      modifies this`grants
      ensures |grants| == |old(grants)|
      ensures forall g: nat :: g < |grants| ==> grants[g] == old(grants)[g].(revokeTx :=
                match EndOf(hs, g) { case None => old(grants)[g].revokeTx case Some(h) => Some(h.txId) })
    {
      var i := 0;
      assert listRevoke[..0] == [];
      EndRowsBounded(hs, |grants|);
      while i < |listRevoke|
        invariant 0 <= i <= |listRevoke| && |grants| == |old(grants)|
        invariant forall g: nat :: g < |grants| ==> grants[g] == old(grants)[g].(revokeTx :=
                    match EndOf(listRevoke[..i], g) { case None => old(grants)[g].revokeTx case Some(h) => Some(h.txId) })
      {
        var e := listRevoke[i];
        assert listRevoke[..i + 1][..i] == listRevoke[..i];
        grants := grants[e.grant := grants[e.grant].(revokeTx := Some(e.h.txId))];
        i := i + 1;
      }
      assert listRevoke[..i] == listRevoke;
      forall g: nat | g < |grants| ensures EndOf(listRevoke, g) == EndOf(hs, g) { EndOfEndRows(hs, g); }
    }

    /** The loop that finds the grant of each row of the page. */
    static method AttributePage(grants: Grants, history: seq<History>, ids: seq<nat>)
      returns (feegrantHistories: seq<Attributed>, patches: map<nat, Option<nat>>)
      requires forall id :: id in ids ==> id < |history|
      ensures feegrantHistories == AttributeAll(grants, RowsOf(history, ids))
      ensures patches == Attributions(grants, history, ids)
    {
      feegrantHistories, patches := [], map[];
      AttributedNone(grants, history, ids);
      var i := 0;
      while i < |ids|
        invariant 0 <= i <= |ids|
        invariant AttributedUpTo(grants, history, ids, i, feegrantHistories, patches)
      {
        AttributedOne(grants, history, ids, i, feegrantHistories, patches);
        var e := history[ids[i]];
        var g := Attribute(grants, e);
        if g.Some? {
          feegrantHistories := feegrantHistories + [Attributed(e, g.value)];
        }
        patches := patches[ids[i] := g];
        i := i + 1;
      }
      AttributedDone(grants, history, ids, feegrantHistories, patches);
    }

    /** One run of the job on a page of unprocessed rows; the transaction writes nothing when it throws. */
    method JobHandler(ids: seq<nat>) returns (thrown: Option<Error>)
      requires forall id :: id in ids ==> id < |history|
      modifies this
      ensures PageStep(old(State()), ids) == (match thrown { case None => Ok(State()) case Some(x) => Err(x) })
      ensures thrown.Some? ==> State() == old(State())
    {
      var feegrantHistories, patches := AttributePage(grants, history, ids);
      AttributedRows(grants, RowsOf(history, ids));
      thrown := UpdateFeegrant(feegrantHistories);
      if thrown.None? {
        processed := processed + patches;
      }
    }
  }

  /** What the loop over the page has collected after `i` rows. */
  ghost predicate AttributedUpTo(
      grants: Grants, history: seq<History>, ids: seq<nat>, i: nat, hs: seq<Attributed>, patches: map<nat, Option<nat>>)
  {
    && (forall id :: id in ids ==> id < |history|) && i <= |ids|
    && hs + AttributeAll(grants, RowsOf(history, ids)[i..]) == AttributeAll(grants, RowsOf(history, ids))
    && patches == Attributions(grants, history, ids[..i])
  }

  lemma AttributedNone(grants: Grants, history: seq<History>, ids: seq<nat>)
    requires forall id :: id in ids ==> id < |history|
    ensures AttributedUpTo(grants, history, ids, 0, [], map[])
  {
    assert RowsOf(history, ids)[0..] == RowsOf(history, ids);
  }

  lemma AttributedDone(grants: Grants, history: seq<History>, ids: seq<nat>, hs: seq<Attributed>, patches: map<nat, Option<nat>>)
    requires AttributedUpTo(grants, history, ids, |ids|, hs, patches)
    ensures hs == AttributeAll(grants, RowsOf(history, ids)) && patches == Attributions(grants, history, ids)
  {
    assert ids[..|ids|] == ids;
    assert RowsOf(history, ids)[|ids|..] == [];
  }

  lemma AttributedOne(
      grants: Grants, history: seq<History>, ids: seq<nat>, i: nat, hs: seq<Attributed>, patches: map<nat, Option<nat>>)
    requires AttributedUpTo(grants, history, ids, i, hs, patches) && i < |ids|
    ensures ids[i] < |history|
    ensures var e := history[ids[i]];
            var g := Attribute(grants, e);
            AttributedUpTo(grants, history, ids, i + 1, if g.Some? then hs + [Attributed(e, g.value)] else hs, patches[ids[i] := g])
  {
    assert ids[i] in ids;
    var page, g := RowsOf(history, ids), Attribute(grants, history[ids[i]]);
    assert page[i..][0] == history[ids[i]] && page[i..][1..] == page[i + 1..];
    var rest := AttributeAll(grants, page[i + 1..]);
    if g.Some? {
      assert hs + ([Attributed(history[ids[i]], g.value)] + rest) == (hs + [Attributed(history[ids[i]], g.value)]) + rest;
    }
    assert ids[..i + 1] == ids[..i] + [ids[i]];
    AttributionsSnoc(grants, history, ids[..i], ids[i]);
  }

  lemma AttributionsSnoc(grants: Grants, history: seq<History>, ids: seq<nat>, id: nat)
    requires id < |history|
    ensures Attributions(grants, history, ids + [id]) == Attributions(grants, history, ids)[id := Attribute(grants, history[id])]
  {
  }

  function EndRows(hs: seq<Attributed>): seq<Attributed>
  {
    if hs == [] then []
    else
      var n := |hs| - 1;
      if Ends(hs[n].h.action) then EndRows(hs[..n]) + [hs[n]] else EndRows(hs[..n])
  }

  lemma {:induction false} EndRowsBounded(hs: seq<Attributed>, bound: nat)
    requires forall i :: 0 <= i < |hs| ==> hs[i].grant < bound
    ensures forall i :: 0 <= i < |EndRows(hs)| ==> EndRows(hs)[i].grant < bound && Ends(EndRows(hs)[i].h.action)
  {
    if hs != [] { EndRowsBounded(hs[..|hs| - 1], bound); }
  }

  lemma {:induction false} EndOfEndRows(hs: seq<Attributed>, g: nat)
    ensures EndOf(EndRows(hs), g) == EndOf(hs, g)
  {
    if hs != [] {
      var n := |hs| - 1;
      EndOfEndRows(hs[..n], g);
      if Ends(hs[n].h.action) {
        assert EndRows(hs)[..|EndRows(hs)| - 1] == EndRows(hs[..n]);
      }
    }
  }

  lemma {:induction false} AttributedRows(grants: Grants, page: seq<History>)
    ensures forall i :: 0 <= i < |AttributeAll(grants, page)| ==>
              var a := AttributeAll(grants, page)[i];
              && a.grant < |grants| && grants[a.grant].status == Available
              && a.h in page && Attribute(grants, a.h) == Some(a.grant)
  {
    if page != [] {
      AttributedRows(grants, page[1..]);
    }
  }

  function PageUpdate(grants: Grants, page: seq<History>): Result<Grants, Error>
  {
    var hs := AttributeAll(grants, page);
    if exists i :: 0 <= i < |hs| && FeeMissing(hs[i].h) then Err(FeeNotFound) else Ok(ActedAll(grants, hs))
  }

  // ----- the reference: one event at a time, each on the latest grant -----

  function ActOne(row: Grant, h: History): Grant
  {
    var limit := if row.spendLimit.Some? && Spends(h.action) && h.amount.Some?
                 then Some(row.spendLimit.value - h.amount.value) else row.spendLimit;
    if Ends(h.action) then row.(spendLimit := limit, status := EndStatus(h.action), revokeTx := Some(h.txId))
    else row.(spendLimit := limit)
  }

  function Fold(grants: Grants, log: seq<History>): (r: Grants)
    ensures |r| == |grants|
    decreases |log|
  {
    if log == [] then grants
    else
      match Latest(grants, log[0])
      case None => Fold(grants, log[1..])
      case Some(g) => Fold(grants[g := ActOne(grants[g], log[0])], log[1..])
  }

  /** The fields that attribution looks at, apart from the status. */
  ghost predicate SameGrants(a: Grants, b: Grants)
  {
    && |a| == |b|
    && forall i :: 0 <= i < |a| ==> a[i].granter == b[i].granter && a[i].grantee == b[i].grantee && a[i].initTx == b[i].initTx
  }

  lemma {:induction false} LatestStable(a: Grants, b: Grants, e: History)
    requires SameGrants(a, b)
    ensures Latest(a, e) == Latest(b, e)
  {
    if a != [] {
      LatestStable(a[..|a| - 1], b[..|b| - 1], e);
    }
  }

  /**
   A well-formed history: spending rows carry a fee, and the grant an event acts on is available when the log
   starts and has not been ended by an earlier event of the log.
   */
  ghost predicate WellFormed(grants: Grants, log: seq<History>)
  {
    && (forall i :: 0 <= i < |log| ==> !FeeMissing(log[i]))
    && (forall i :: 0 <= i < |log| && Latest(grants, log[i]).Some? ==>
          && grants[Latest(grants, log[i]).value].status == Available
          && forall j :: 0 <= j < i && Ends(log[j].action) ==> Latest(grants, log[j]) != Latest(grants, log[i]))
  }

  lemma {:induction false} FoldKeepsGrants(grants: Grants, log: seq<History>)
    ensures SameGrants(grants, Fold(grants, log))
    decreases |log|
  {
    if log != [] {
      match Latest(grants, log[0])
      case None => FoldKeepsGrants(grants, log[1..]);
      case Some(g) => FoldKeepsGrants(grants[g := ActOne(grants[g], log[0])], log[1..]);
    }
  }

  lemma {:induction false} FoldConcat(grants: Grants, a: seq<History>, b: seq<History>)
    ensures Fold(grants, a + b) == Fold(Fold(grants, a), b)
    decreases |a|
  {
    if a == [] {
      assert a + b == b;
    } else {
      assert (a + b)[0] == a[0] && (a + b)[1..] == a[1..] + b;
      match Latest(grants, a[0])
      case None => FoldConcat(grants, a[1..], b);
      case Some(g) => FoldConcat(grants[g := ActOne(grants[g], a[0])], a[1..], b);
    }
  }

  // ----- a page does what the reference does -----

  /** `Acted` looked at from the front: the first row acts, then the rest. */
  lemma {:induction false} ActedFirst(row: Grant, hs: seq<Attributed>, g: nat)
    requires hs != []
    ensures Acted(row, hs, g) == Acted(if hs[0].grant == g then ActOne(row, hs[0].h) else row, hs[1..], g)
    decreases |hs|
  {
    var n := |hs| - 1;
    if n == 0 {
      assert hs[..0] == [] && hs[1..] == [];
    } else {
      ActedFirst(row, hs[..n], g);
      assert hs[..n][1..] == hs[1..][..n - 1] && hs[1..][n - 1] == hs[n];
      ActedLast(row, hs, g);
      ActedLast(if hs[0].grant == g then ActOne(row, hs[0].h) else row, hs[1..], g);
    }
  }

  lemma ActedLast(row: Grant, hs: seq<Attributed>, g: nat)
    requires hs != []
    ensures var n := |hs| - 1;
            Acted(row, hs, g) == if hs[n].grant == g then ActOne(Acted(row, hs[..n], g), hs[n].h) else Acted(row, hs[..n], g)
  {
  }

  lemma ActedAllFirst(grants: Grants, hs: seq<Attributed>)
    requires hs != [] && hs[0].grant < |grants|
    ensures ActedAll(grants, hs) == ActedAll(grants[hs[0].grant := ActOne(grants[hs[0].grant], hs[0].h)], hs[1..])
  {
    forall g: nat | g < |grants|
      ensures ActedAll(grants, hs)[g] == ActedAll(grants[hs[0].grant := ActOne(grants[hs[0].grant], hs[0].h)], hs[1..])[g]
    {
      ActedFirst(grants[g], hs, g);
    }
  }

  /** A page whose rows are all attributed to their latest grants acts as its rows would one at a time. */
  lemma {:induction false} PageIsFold(loaded: Grants, grants: Grants, page: seq<History>)
    requires SameGrants(loaded, grants)
    requires forall i :: 0 <= i < |page| ==> Attribute(loaded, page[i]) == Latest(loaded, page[i])
    ensures ActedAll(grants, AttributeAll(loaded, page)) == Fold(grants, page)
    decreases |page|
  {
    if page == [] {
      assert ActedAll(grants, []) == grants;
    } else {
      LatestStable(loaded, grants, page[0]);
      var rest := AttributeAll(loaded, page[1..]);
      assert forall i :: 0 <= i < |page[1..]| ==> page[1..][i] == page[i + 1];
      match Latest(grants, page[0])
      case None => PageIsFold(loaded, grants, page[1..]);
      case Some(g) =>
        var grants1 := grants[g := ActOne(grants[g], page[0])];
        PageIsFold(loaded, grants1, page[1..]);
        ActedAllFirst(grants, AttributeAll(loaded, page));
        assert AttributeAll(loaded, page)[1..] == rest;
    }
  }

  lemma PageUpdateOk(grants: Grants, page: seq<History>)
    requires forall i :: 0 <= i < |page| ==> !FeeMissing(page[i])
    ensures PageUpdate(grants, page) == Ok(ActedAll(grants, AttributeAll(grants, page)))
  {
    AttributedRows(grants, page);
  }

  lemma PageUpdateIsFold(grants: Grants, page: seq<History>)
    requires WellFormed(grants, page)
    ensures PageUpdate(grants, page) == Ok(Fold(grants, page))
  {
    PageUpdateOk(grants, page);
    forall i | 0 <= i < |page| ensures Attribute(grants, page[i]) == Latest(grants, page[i]) {
      AttributeIsLatest(grants, page[i]);
    }
    PageIsFold(grants, grants, page);
  }

  // ----- grants that are created later -----

  lemma {:induction false} LatestIgnoresLater(grants: Grants, later: Grants, e: History)
    requires forall k :: 0 <= k < |later| ==> e.txId < later[k].initTx
    ensures Latest(grants + later, e) == Latest(grants, e)
    decreases |later|
  {
    if later == [] {
      assert grants + later == grants;
    } else {
      var n := |later| - 1;
      LatestIgnoresLater(grants, later[..n], e);
      assert (grants + later)[..|grants| + n] == grants + later[..n];
    }
  }

  lemma {:induction false} FoldIgnoresLater(grants: Grants, later: Grants, log: seq<History>)
    requires forall i, k :: 0 <= i < |log| && 0 <= k < |later| ==> log[i].txId < later[k].initTx
    ensures Fold(grants + later, log) == Fold(grants, log) + later
    decreases |log|
  {
    if log != [] {
      LatestIgnoresLater(grants, later, log[0]);
      assert forall i :: 0 <= i < |log[1..]| ==> log[1..][i] == log[i + 1];
      match Latest(grants, log[0])
      case None => FoldIgnoresLater(grants, later, log[1..]);
      case Some(g) =>
        FoldIgnoresLater(grants[g := ActOne(grants[g], log[0])], later, log[1..]);
        assert (grants + later)[g := ActOne(grants[g], log[0])] == grants[g := ActOne(grants[g], log[0])] + later;
    }
  }
}
