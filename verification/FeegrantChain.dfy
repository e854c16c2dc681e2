/** Fee grants from end to end: the events of the chain become rows, range by range, and the update job acts on the rows. */
module FeegrantChain {
  import opened Wrappers
  import opened SortBy
  import opened HeightLog
  import opened Feegrant
  import opened FeegrantEvents
  import FeegrantPages

  // ----- well-formed chains give well-formed histories -----

  predicate SameParties(a: Key, b: Key) { a.granter == b.granter && a.grantee == b.grantee }

  /** Each action of a pair is in a transaction of its own. */
  ghost predicate OwnTx(es: seq<Event>)
  {
    forall k :: CountKey(UseRows(es) + OtherRows(es), k) <= 1
  }

  predicate LeavesRow(e: Event) { e.UseFeegrant? || OtherRow(e) != [] }

  /** `e` ends a grant of the pair for which `f` leaves a row in a later transaction. */
  predicate EndsFor(e: Event, f: Event)
  {
    e.RevokeFeegrant? && LeavesRow(f) && SameParties(e.key, f.key) && e.key.txId < f.key.txId
  }

  /** Between the end of a grant and the next action of its pair the pair has a new grant. */
  ghost predicate Renewed(es: seq<Event>)
  {
    forall e, f :: e in es && f in es && EndsFor(e, f) ==> CreatedBetween(es, e.key, f.key)
  }

  predicate CreatedBetween(es: seq<Event>, from: Key, to: Key)
  {
    exists c :: c in es && Creates(c) && SameParties(c.key, to) && from.txId < c.key.txId <= to.txId
  }

  lemma {:induction false} UseRowFrom(es: seq<Event>, h: History) returns (e: Event)
    requires h in UseRows(es)
    ensures e in es && e.UseFeegrant? && e.key == KeyOf(h)
    decreases |es|
  {
    var n := |es| - 1;
    if h in UseRow(es[n]) {
      e := es[n];
    } else {
      e := UseRowFrom(es[..n], h);
    }
  }

  lemma {:induction false} OtherRowFrom(es: seq<Event>, h: History) returns (e: Event)
    requires h in OtherRows(es)
    ensures e in es && h in OtherRow(e) && e.key == KeyOf(h) && (h.action == Revoke ==> e.RevokeFeegrant?)
    decreases |es|
  {
    var n := |es| - 1;
    if h in OtherRow(es[n]) {
      e := es[n];
    } else {
      e := OtherRowFrom(es[..n], h);
    }
  }

  lemma EndExists(es: seq<Event>, k: Key)
    requires EndsOf(es, k) > 0
    ensures RevokeFeegrant(k, false) in es
  {
    var j := SelectIndex(es, EndsUseOf(k), 0);
    assert es[j] == RevokeFeegrant(k, false);
  }

  /** Every row comes from an event with its key, and an ending row from an ending event. */
  lemma RowFrom(es: seq<Event>, h: History) returns (e: Event)
    requires h in Marked(UseRows(es), es) + OtherRows(es)
    ensures e in es && LeavesRow(e) && e.key == KeyOf(h)
    ensures Ends(h.action) ==> exists r :: r in es && r.RevokeFeegrant? && r.key == KeyOf(h)
  {
    if h in OtherRows(es) {
      e := OtherRowFrom(es, h);
      OtherRowsAreNotUses(es);
      var i :| 0 <= i < |OtherRows(es)| && OtherRows(es)[i] == h;
      assert h.action != UseUp;
    } else {
      var i :| 0 <= i < |UseRows(es)| && Marked(UseRows(es), es)[i] == h;
      assert UseRows(es)[i] in UseRows(es);
      e := UseRowFrom(es, UseRows(es)[i]);
      UseRowsAreUses(es);
      if h.action != Use {
        EndExists(es, KeyOf(h));
        assert RevokeFeegrant(KeyOf(h), false).RevokeFeegrant?;
      }
    }
  }

  lemma {:induction false} GrantRowOf(es: seq<Event>, c: Event) returns (i: nat)
    requires c in es && Creates(c)
    ensures i < |GrantRows(es)|
    ensures var g := GrantRows(es)[i];
            g.granter == c.key.granter && g.grantee == c.key.grantee && g.initTx == c.key.txId
    decreases |es|
  {
    var n := |es| - 1;
    if es[n] == c {
      i := |GrantRows(es[..n])|;
    } else {
      i := GrantRowOf(es[..n], c);
    }
  }

  lemma {:induction false} GrantRowFrom(es: seq<Event>, i: nat) returns (c: Event)
    requires i < |GrantRows(es)|
    ensures c in es && GrantRows(es)[i].initTx == c.key.txId && GrantRows(es)[i].status == Available
    decreases |es|
  {
    var n := |es| - 1;
    if i < |GrantRows(es[..n])| {
      c := GrantRowFrom(es[..n], i);
    } else {
      c := es[n];
    }
  }

  /** A row after the end of a grant acts on a younger grant of the pair. */
  lemma LaterGrant(es: seq<Event>, x: History, y: History)
    requires Renewed(es) && x.txId < y.txId && Ends(x.action)
    requires x in Marked(UseRows(es), es) + OtherRows(es) && y in Marked(UseRows(es), es) + OtherRows(es)
    ensures Latest(GrantRows(es), x).Some? ==> Latest(GrantRows(es), x) != Latest(GrantRows(es), y)
  {
    var grants := GrantRows(es);
    if Latest(grants, x).Some? && Latest(grants, y).Some? && x.granter == y.granter && x.grantee == y.grantee {
      var e := RowFrom(es, x);
      var f := RowFrom(es, y);
      var r :| r in es && r.RevokeFeegrant? && r.key == KeyOf(x);
      assert EndsFor(r, f) && CreatedBetween(es, r.key, f.key);
      var c :| c in es && Creates(c) && SameParties(c.key, f.key) && r.key.txId < c.key.txId <= f.key.txId;
      var i := GrantRowOf(es, c);
      LatestIsLatest(grants, y, Any, i);
    }
  }

  lemma SameKeyCount(hs: seq<History>, i: nat, j: nat)
    requires i < j < |hs| && KeyOf(hs[i]) == KeyOf(hs[j])
    ensures CountKey(hs, KeyOf(hs[i])) >= 2
  {
    CountPrefix(hs, i, j);
    CountPrefix(hs, j, |hs|);
    assert hs[..|hs|] == hs;
  }

  lemma SortedCount(hs: seq<History>, k: Key)
    ensures CountKey(StableSort(hs, TxId), k) == CountKey(hs, k)
  {
    StableSortCorrect(hs, TxId);
    SelectSize(StableSort(hs, TxId), hs, HasKey(k));
  }

  lemma MarkedCount(uses: seq<History>, es: seq<Event>, others: seq<History>, k: Key)
    ensures CountKey(Marked(uses, es) + others, k) == CountKey(uses + others, k)
  {
    SelectConcat(Marked(uses, es), others, HasKey(k));
    SelectConcat(uses, others, HasKey(k));
    SameKeys(uses, Marked(uses, es), k);
  }

  lemma {:induction false} SameKeys(a: seq<History>, b: seq<History>, k: Key)
    requires |a| == |b| && forall i :: 0 <= i < |a| ==> KeyOf(a[i]) == KeyOf(b[i])
    ensures CountKey(a, k) == CountKey(b, k)
  {
    if a != [] {
      var n := |a| - 1;
      SameKeys(a[..n], b[..n], k);
      CountSnoc(a[..n], a[n], k);
      CountSnoc(b[..n], b[n], k);
      assert a == a[..n] + [a[n]] && b == b[..n] + [b[n]];
    }
  }

  lemma DistinctKeys(es: seq<Event>, i: nat, j: nat)
    requires OwnTx(es) && TwoPasses(es).Ok? && i < j < |TwoPasses(es).value.histories|
    ensures KeyOf(TwoPasses(es).value.histories[i]) != KeyOf(TwoPasses(es).value.histories[j])
  {
    TwoPassesAre(es);
    var hs := TwoPasses(es).value.histories;
    var k := KeyOf(hs[i]);
    SortedCount(Marked(UseRows(es), es) + OtherRows(es), k);
    MarkedCount(UseRows(es), es, OtherRows(es), k);
    assert CountKey(hs, k) <= 1;
    if KeyOf(hs[i]) == KeyOf(hs[j]) { SameKeyCount(hs, i, j); }
  }

  lemma HistoryFrom(es: seq<Event>, i: nat)
    requires TwoPasses(es).Ok? && i < |TwoPasses(es).value.histories|
    ensures TwoPasses(es).value.histories[i] in Marked(UseRows(es), es) + OtherRows(es)
  {
    TwoPassesAre(es);
    var j := SortedMember(Marked(UseRows(es), es) + OtherRows(es), i);
  }

  lemma EndsApart(es: seq<Event>, j: nat, i: nat)
    requires OwnTx(es) && Renewed(es) && TwoPasses(es).Ok? && j < i < |TwoPasses(es).value.histories|
    requires Ends(TwoPasses(es).value.histories[j].action)
    requires Latest(GrantRows(es), TwoPasses(es).value.histories[i]).Some?
    ensures Latest(GrantRows(es), TwoPasses(es).value.histories[j]) != Latest(GrantRows(es), TwoPasses(es).value.histories[i])
  {
    var hs, grants := TwoPasses(es).value.histories, GrantRows(es);
    HistoryFrom(es, i);
    HistoryFrom(es, j);
    DistinctKeys(es, j, i);
    TwoPassesAre(es);
    StableSortCorrect(Marked(UseRows(es), es) + OtherRows(es), TxId);
    assert TxId(hs[j]) <= TxId(hs[i]);
    if hs[j].txId < hs[i].txId {
      LaterGrant(es, hs[j], hs[i]);
    }
  }

  /** If each action has its own transaction and an ended grant is renewed before it is used, the history is well formed. */
  lemma ChainGivesWellFormed(es: seq<Event>)
    requires OwnTx(es) && Renewed(es) && TwoPasses(es).Ok?
    ensures WellFormed(TwoPasses(es).value.grants, TwoPasses(es).value.histories)
  {
    TwoPassesAre(es);
    var hs, grants := TwoPasses(es).value.histories, GrantRows(es);
    forall i | 0 <= i < |hs| ensures !FeeMissing(hs[i]) {
      InsertedRowsHaveFees(es, i);
    }
    forall i | 0 <= i < |hs| && Latest(grants, hs[i]).Some?
      ensures grants[Latest(grants, hs[i]).value].status == Available
    {
      var c := GrantRowFrom(es, Latest(grants, hs[i]).value);
    }
    forall i, j | 0 <= j < i < |hs| && Latest(grants, hs[i]).Some? && Ends(hs[j].action)
      ensures Latest(grants, hs[j]) != Latest(grants, hs[i])
    {
      EndsApart(es, j, i);
    }
  }

  // ----- the two jobs together -----

  /** `Range` is one run of the feegrant job over the events of a range, `UpdatePage` one run of the update job. */
  datatype Step = Range(es: seq<Event>) | UpdatePage(ids: seq<nat>)

  function StepOf(step: Step): FeegrantPages.Step
  {
    match step
    case Range(es) =>
      (match TwoPasses(es)
       case Ok(rows) => FeegrantPages.Insert(rows.grants, rows.histories)
       case Err(_) => FeegrantPages.Insert([], []))
    case UpdatePage(ids) => FeegrantPages.Page(ids)
  }

  function StepsOf(steps: seq<Step>): (r: seq<FeegrantPages.Step>)
    ensures |r| == |steps|
  {
    if steps == [] then [] else StepsOf(steps[..|steps| - 1]) + [StepOf(steps[|steps| - 1])]
  }

  /** The events of all ranges handled so far. */
  function EventsOf(steps: seq<Step>): seq<Event>
  {
    if steps == [] then []
    else EventsOf(steps[..|steps| - 1]) + if steps[|steps| - 1].Range? then steps[|steps| - 1].es else []
  }

  /** Ranges are handled in chain order, each with success, and pages hold unprocessed rows. */
  ghost predicate IsRun(steps: seq<Step>)
  {
    steps == [] ||
    var front, last := steps[..|steps| - 1], steps[|steps| - 1];
    && IsRun(front) && FeegrantPages.IsRun([], StepsOf(front))
    && match last
       case Range(es) => TwoPasses(es).Ok? && Apart(EventsOf(front), es)
       case UpdatePage(ids) => FeegrantPages.Enabled(FeegrantPages.Run([], StepsOf(front)), FeegrantPages.Page(ids))
  }

  /** The rows in the tables are those of all events at once. */
  ghost predicate Loaded(steps: seq<Step>)
  {
    && FeegrantPages.IsRun([], StepsOf(steps))
    && var s := FeegrantPages.Run([], StepsOf(steps));
       TwoPasses(EventsOf(steps)) == Ok(Rows(s.t.history, s.born))
  }

  lemma InsertEnabled(a: seq<Event>, b: seq<Event>, s: FeegrantPages.State)
    requires Apart(a, b) && TwoPasses(a) == Ok(Rows(s.t.history, s.born)) && TwoPasses(b).Ok?
    ensures FeegrantPages.Enabled(s, FeegrantPages.Insert(TwoPasses(b).value.grants, TwoPasses(b).value.histories))
  {
    var grants := TwoPasses(b).value.grants;
    TwoPassesAre(b);
    forall i, k | 0 <= i < |s.t.history| && 0 <= k < |grants| ensures s.t.history[i].txId < grants[k].initTx {
      HistoryFrom(a, i);
      RowsMentioned(a);
      var x :| x in a && x.key.txId == s.t.history[i].txId;
      var c := GrantRowFrom(b, k);
    }
  }

  lemma StepsSnoc(front: seq<Step>, last: Step)
    ensures StepsOf(front + [last]) == StepsOf(front) + [StepOf(last)]
    ensures EventsOf(front + [last]) == EventsOf(front) + if last.Range? then last.es else []
  {
    assert (front + [last])[..|front|] == front;
  }

  lemma LoadRange(front: seq<Step>, es: seq<Event>)
    requires Loaded(front) && TwoPasses(es).Ok? && Apart(EventsOf(front), es)
    ensures Loaded(front + [Range(es)])
  {
    var s, step := FeegrantPages.Run([], StepsOf(front)), StepOf(Range(es));
    StepsSnoc(front, Range(es));
    InsertEnabled(EventsOf(front), es, s);
    FeegrantPages.RunSnoc([], StepsOf(front), step);
    RangesJoin(EventsOf(front), es);
  }

  lemma LoadUpdate(front: seq<Step>, ids: seq<nat>)
    requires Loaded(front) && FeegrantPages.Enabled(FeegrantPages.Run([], StepsOf(front)), FeegrantPages.Page(ids))
    ensures Loaded(front + [UpdatePage(ids)])
  {
    StepsSnoc(front, UpdatePage(ids));
    FeegrantPages.RunSnoc([], StepsOf(front), FeegrantPages.Page(ids));
    assert EventsOf(front) + [] == EventsOf(front);
  }

  lemma {:induction false} RunLoads(steps: seq<Step>)
    requires IsRun(steps)
    ensures Loaded(steps)
    decreases |steps|
  {
    if steps == [] {
      TwoPassesAre([]);
    } else {
      var front, last := steps[..|steps| - 1], steps[|steps| - 1];
      assert steps == front + [last];
      RunLoads(front);
      match last
      case Range(es) => LoadRange(front, es);
      case UpdatePage(ids) => LoadUpdate(front, ids);
    }
  }

  /**
   From the events of a well-formed chain, handled range by range and updated page by page: every processed row is
   attributed to the latest grant of its pair if and only if no page comes after the end of a grant with one of its
   rows, and then every grant is what its rows, one at a time in chain order, make of it.
   */
  lemma GrantsFollowEvents(steps: seq<Step>)
    requires IsRun(steps) && OwnTx(EventsOf(steps)) && Renewed(EventsOf(steps))
    ensures FeegrantPages.IsRun([], StepsOf(steps)) && TwoPasses(EventsOf(steps)).Ok?
    ensures var s := FeegrantPages.Run([], StepsOf(steps));
            && s.born == TwoPasses(EventsOf(steps)).value.grants
            && s.t.history == TwoPasses(EventsOf(steps)).value.histories
            && (FeegrantPages.Right(s) <==> FeegrantPages.Timely(s))
            && (FeegrantPages.Timely(s) ==> s.t.grants == FeegrantPages.Reference(s))
            && (FeegrantPages.Timely(s) && FeegrantPages.AllProcessed(s) ==> FeegrantPages.Final(s))
  {
    RunLoads(steps);
    ChainGivesWellFormed(EventsOf(steps));
    FeegrantPages.PagesRightIff([], StepsOf(steps));
    var s := FeegrantPages.Run([], StepsOf(steps));
    if FeegrantPages.Timely(s) && FeegrantPages.AllProcessed(s) {
      FeegrantPages.AllPagesRight([], StepsOf(steps));
    }
  }
}
