/**
 Runs of the fee-grant update job. The query takes any rows that are not processed yet, in any order, so a page may
 hold the end of a grant while an earlier use of it is left for a later page.
 */
module FeegrantPages {
  import opened Wrappers
  import opened SortBy
  import opened HeightLog
  import opened Feegrant

  /** `born` lists the grants as they were inserted and `pages` the pages in the order they ran; no step reads either. */
  datatype State = State(t: Tables, born: Grants, pages: seq<seq<nat>>)

  /** `Insert` is the feegrant job adding grants and history rows, `Page` the update job on some unprocessed rows. */
  datatype Step = Insert(grants: seq<Grant>, rows: seq<History>) | Page(ids: seq<nat>)

  ghost predicate Distinct(ids: seq<nat>)
  {
    forall i, j :: 0 <= i < j < |ids| ==> ids[i] != ids[j]
  }

  /** New grants come from later transactions than all rows inserted so far. */
  ghost predicate Enabled(s: State, step: Step)
  {
    match step
    case Insert(grants, _) =>
      forall i, k :: 0 <= i < |s.t.history| && 0 <= k < |grants| ==> s.t.history[i].txId < grants[k].initTx
    case Page(ids) => Distinct(ids) && forall id :: id in ids ==> id < |s.t.history| && id !in s.t.processed
  }

  function Next(s: State, step: Step): State
    requires step.Page? ==> forall id :: id in step.ids ==> id < |s.t.history|
  {
    match step
    case Insert(grants, rows) =>
      State(s.t.(grants := s.t.grants + grants, history := s.t.history + rows), s.born + grants, s.pages)
    case Page(ids) =>
      match PageStep(s.t, ids)
      case Err(_) => s
      case Ok(t) => State(t, s.born, s.pages + [ids])
  }

  function Start(grants: Grants): State { State(Tables(grants, [], map[]), grants, []) }

  ghost predicate IsRun(grants: Grants, steps: seq<Step>)
    decreases |steps|, 0
  {
    steps == [] ||
    (IsRun(grants, steps[..|steps| - 1]) && Enabled(Run(grants, steps[..|steps| - 1]), steps[|steps| - 1]))
  }

  ghost function Run(grants: Grants, steps: seq<Step>): State
    requires IsRun(grants, steps)
    decreases |steps|, 1
  {
    if steps == [] then Start(grants) else Next(Run(grants, steps[..|steps| - 1]), steps[|steps| - 1])
  }

  /** Every processed row was attributed to the latest grant of its pair at or before it. */
  ghost predicate Right(s: State)
  {
    forall id :: id in s.t.processed ==> id < |s.t.history| && s.t.processed[id] == Latest(s.born, s.t.history[id])
  }

  /** No row of a grant is in a later page than the row that ends the grant. */
  ghost predicate Timely(s: State)
  {
    forall p, q, i, j :: 0 <= p < q < |s.pages| && i in s.pages[p] && j in s.pages[q] ==> !EndsBefore(s, i, j)
  }

  /** Row `i` ends the grant that row `j` acts on. */
  predicate EndsBefore(s: State, i: nat, j: nat)
  {
    i < |s.t.history| && j < |s.t.history| && EndsGrantOf(s.born, s.t.history[i], s.t.history[j])
  }

  predicate EndsGrantOf(born: Grants, e: History, f: History)
  {
    Ends(e.action) && Latest(born, e).Some? && Latest(born, e) == Latest(born, f)
  }

  function Done(s: State): seq<nat> { Flatten(s.pages) }

  ghost predicate Valid(s: State)
  {
    && Distinct(Done(s))
    && (forall id :: id in Done(s) ==> id < |s.t.history|)
    && (forall id :: id in s.t.processed <==> id in Done(s))
    && SameGrants(s.born, s.t.grants)
  }

  /** What is proved of every state of a run. */
  ghost predicate Good(s: State)
  {
    && Valid(s)
    && (Right(s) <==> Timely(s))
    && (Right(s) ==> s.t.grants == Fold(s.born, RowsOf(s.t.history, Done(s))))
  }

  // ----- the state of a grant in the reference -----

  predicate Ended(born: Grants, log: seq<History>, g: nat)
  {
    exists e :: e in log && Ends(e.action) && Latest(born, e) == Some(g)
  }

  lemma {:induction false} FoldStatus(born: Grants, grants: Grants, log: seq<History>, g: nat)
    requires SameGrants(born, grants) && g < |grants|
    ensures !Ended(born, log, g) ==> Fold(grants, log)[g].status == grants[g].status
    ensures Ended(born, log, g) || grants[g].status != Available ==> Fold(grants, log)[g].status != Available
    decreases |log|
  {
    if log != [] {
      LatestStable(born, grants, log[0]);
      assert forall e :: e in log <==> e == log[0] || e in log[1..];
      match Latest(grants, log[0])
      case None => FoldStatus(born, grants, log[1..], g);
      case Some(k) => FoldStatus(born, grants[k := ActOne(grants[k], log[0])], log[1..], g);
    }
  }

  /** After the rows `log`, the job attributes `e` right if and only if none of them ended its grant. */
  lemma RightIffNotEnded(born: Grants, log: seq<History>, e: History)
    requires Latest(born, e).Some? ==> born[Latest(born, e).value].status == Available
    ensures Attribute(Fold(born, log), e) == Latest(born, e)
            <==> (Latest(born, e).Some? ==> !Ended(born, log, Latest(born, e).value))
  {
    FoldKeepsGrants(born, log);
    LatestStable(born, Fold(born, log), e);
    AttributeIsLatest(Fold(born, log), e);
    if Latest(born, e).Some? {
      FoldStatus(born, born, log, Latest(born, e).value);
    }
  }

  // ----- each step keeps it -----

  lemma {:induction false} FlattenMembers<T(!new)>(batches: seq<seq<T>>, x: T)
    ensures x in Flatten(batches) <==> exists p :: 0 <= p < |batches| && x in batches[p]
  {
    if batches != [] {
      FlattenMembers(batches[1..], x);
      if x in Flatten(batches[1..]) {
        var p :| 0 <= p < |batches[1..]| && x in batches[1..][p];
        assert x in batches[p + 1];
      }
      if exists p :: 0 <= p < |batches| && x in batches[p] {
        var p :| 0 <= p < |batches| && x in batches[p];
        if p > 0 { assert x in batches[1..][p - 1]; }
      }
    }
  }

  lemma {:induction false} PageInDone(pages: seq<seq<nat>>, p: nat, i: nat)
    requires p < |pages| && i in pages[p]
    ensures i in Flatten(pages)
  {
    if p > 0 { PageInDone(pages[1..], p - 1, i); }
  }

  lemma InsertKeepsLatest(s: State, grants: seq<Grant>, rows: seq<History>)
    requires Enabled(s, Insert(grants, rows))
    ensures forall i :: 0 <= i < |s.t.history| ==> Latest(s.born + grants, s.t.history[i]) == Latest(s.born, s.t.history[i])
  {
    forall i | 0 <= i < |s.t.history| ensures Latest(s.born + grants, s.t.history[i]) == Latest(s.born, s.t.history[i]) {
      LatestIgnoresLater(s.born, grants, s.t.history[i]);
    }
  }

  lemma InsertKeepsValid(s: State, grants: seq<Grant>, rows: seq<History>)
    requires Valid(s) && Enabled(s, Insert(grants, rows))
    ensures var s1 := Next(s, Insert(grants, rows));
            Valid(s1) && RowsOf(s1.t.history, Done(s1)) == RowsOf(s.t.history, Done(s))
  {
    assert forall i :: 0 <= i < |Done(s)| ==> Done(s)[i] in Done(s);
  }

  lemma InsertKeepsRight(s: State, grants: seq<Grant>, rows: seq<History>)
    requires Valid(s) && Enabled(s, Insert(grants, rows))
    ensures Right(Next(s, Insert(grants, rows))) <==> Right(s)
  {
    var s1 := Next(s, Insert(grants, rows));
    InsertKeepsLatest(s, grants, rows);
    forall id | id in s.t.processed
      ensures id < |s.t.history| && Latest(s1.born, s1.t.history[id]) == Latest(s.born, s.t.history[id])
    {
      assert id in Done(s);
    }
  }

  lemma InsertKeepsTimely(s: State, grants: seq<Grant>, rows: seq<History>)
    requires Valid(s) && Enabled(s, Insert(grants, rows))
    ensures Timely(Next(s, Insert(grants, rows))) <==> Timely(s)
  {
    var s1 := Next(s, Insert(grants, rows));
    forall p, q, i, j | 0 <= p < q < |s.pages| && i in s.pages[p] && j in s.pages[q]
      ensures EndsBefore(s1, i, j) <==> EndsBefore(s, i, j)
    {
      PageInDone(s.pages, p, i);
      PageInDone(s.pages, q, j);
      InsertKeepsEnds(s, grants, rows, i, j);
    }
  }

  lemma InsertKeepsEnds(s: State, grants: seq<Grant>, rows: seq<History>, i: nat, j: nat)
    requires Enabled(s, Insert(grants, rows)) && i < |s.t.history| && j < |s.t.history|
    ensures EndsBefore(Next(s, Insert(grants, rows)), i, j) <==> EndsBefore(s, i, j)
  {
    InsertKeepsLatest(s, grants, rows);
  }

  lemma InsertKeepsGood(s: State, grants: seq<Grant>, rows: seq<History>)
    requires Good(s) && Enabled(s, Insert(grants, rows))
    ensures Good(Next(s, Insert(grants, rows)))
  {
    InsertKeepsValid(s, grants, rows);
    InsertKeepsRight(s, grants, rows);
    InsertKeepsTimely(s, grants, rows);
    FoldIgnoresLater(s.born, grants, RowsOf(s.t.history, Done(s)));
  }

  /** A history stays well formed when looked at before its last rows and grants came. */
  lemma WellFormedBefore(s: State, step: Step)
    requires Enabled(s, step) && WellFormed(Next(s, step).born, Next(s, step).t.history)
    ensures WellFormed(s.born, s.t.history)
  {
    if step.Insert? {
      InsertKeepsLatest(s, step.grants, step.rows);
      var h1 := Next(s, step).t.history;
      assert forall i :: 0 <= i < |s.t.history| ==> h1[i] == s.t.history[i];
    }
  }

  /** The page is attributed right if and only if no row processed before ended the grant of one of its rows. */
  ghost predicate PageTimely(s: State, ids: seq<nat>)
  {
    forall i, j :: i in Done(s) && j in ids ==> !EndsBefore(s, i, j)
  }

  lemma TimelyStep(s: State, ids: seq<nat>)
    ensures Timely(s.(pages := s.pages + [ids])) <==> Timely(s) && PageTimely(s, ids)
  {
    var s1 := s.(pages := s.pages + [ids]);
    var n := |s.pages|;
    assert forall i, j :: EndsBefore(s1, i, j) <==> EndsBefore(s, i, j);
    if Timely(s1) {
      forall i, j | i in Done(s) && j in ids ensures !EndsBefore(s, i, j) {
        FlattenMembers(s.pages, i);
        var p :| 0 <= p < n && i in s.pages[p];
        assert i in s1.pages[p] && j in s1.pages[n];
      }
      forall p, q, i, j | 0 <= p < q < n && i in s.pages[p] && j in s.pages[q] ensures !EndsBefore(s, i, j) {
        assert i in s1.pages[p] && j in s1.pages[q];
      }
    }
    if Timely(s) && PageTimely(s, ids) {
      forall p, q, i, j | 0 <= p < q <= n && i in s1.pages[p] && j in s1.pages[q] ensures !EndsBefore(s1, i, j) {
        if q == n { FlattenMembers(s.pages, i); } else { assert i in s.pages[p] && j in s.pages[q]; }
      }
    }
  }

  lemma AttributionRight(s: State, id: nat)
    requires Good(s) && Right(s) && WellFormed(s.born, s.t.history) && id < |s.t.history|
    ensures Attribute(s.t.grants, s.t.history[id]) == Latest(s.born, s.t.history[id])
            <==> forall i :: i in Done(s) ==> !EndsBefore(s, i, id)
  {
    var rows, e := RowsOf(s.t.history, Done(s)), s.t.history[id];
    RightIffNotEnded(s.born, rows, e);
    if Latest(s.born, e).Some? {
      var g := Latest(s.born, e).value;
      if Ended(s.born, rows, g) {
        var x :| x in rows && Ends(x.action) && Latest(s.born, x) == Some(g);
        var k :| 0 <= k < |rows| && rows[k] == x;
        assert Done(s)[k] in Done(s) && EndsBefore(s, Done(s)[k], id);
      }
      if i :| i in Done(s) && EndsBefore(s, i, id) {
        var k :| 0 <= k < |Done(s)| && Done(s)[k] == i;
        assert rows[k] in rows && rows[k] == s.t.history[i];
      }
    }
  }

  /** The page's attributions are all right if and only if it is timely, given that all before were right. */
  lemma PageRightIff(s: State, ids: seq<nat>)
    requires Good(s) && Right(s) && WellFormed(s.born, s.t.history) && Enabled(s, Page(ids))
    ensures (forall id :: id in ids ==> Attribute(s.t.grants, s.t.history[id]) == Latest(s.born, s.t.history[id]))
            <==> PageTimely(s, ids)
  {
    forall id | id in ids
      ensures Attribute(s.t.grants, s.t.history[id]) == Latest(s.born, s.t.history[id])
              <==> forall i :: i in Done(s) ==> !EndsBefore(s, i, id)
    {
      AttributionRight(s, id);
    }
  }

  /** A page of a well-formed history never fails. */
  lemma PageApplies(s: State, ids: seq<nat>)
    requires WellFormed(s.born, s.t.history) && Enabled(s, Page(ids))
    ensures var rows := RowsOf(s.t.history, ids);
            Next(s, Page(ids)) == State(
              Tables(ActedAll(s.t.grants, AttributeAll(s.t.grants, rows)), s.t.history,
                     s.t.processed + Attributions(s.t.grants, s.t.history, ids)),
              s.born, s.pages + [ids])
  {
    assert forall i :: 0 <= i < |ids| ==> ids[i] in ids;
    PageUpdateOk(s.t.grants, RowsOf(s.t.history, ids));
  }

  lemma DistinctJoin(a: seq<nat>, b: seq<nat>)
    requires Distinct(a) && Distinct(b) && forall id :: id in b ==> id !in a
    ensures Distinct(a + b)
  {
    forall i, j | 0 <= i < j < |a + b| ensures (a + b)[i] != (a + b)[j] {
      if i < |a| <= j {
        assert (a + b)[i] in a && (a + b)[j] in b;
      }
    }
  }

  lemma ActedAllKeeps(born: Grants, grants: Grants, hs: seq<Attributed>)
    requires SameGrants(born, grants)
    ensures SameGrants(born, ActedAll(grants, hs))
  {
  }

  lemma PageKeepsValid(s: State, ids: seq<nat>)
    requires Valid(s) && WellFormed(s.born, s.t.history) && Enabled(s, Page(ids))
    ensures Valid(Next(s, Page(ids))) && Done(Next(s, Page(ids))) == Done(s) + ids
  {
    var s1 := Next(s, Page(ids));
    PageApplies(s, ids);
    FlattenSnoc(s.pages, ids);
    DistinctJoin(Done(s), ids);
    ActedAllKeeps(s.born, s.t.grants, AttributeAll(s.t.grants, RowsOf(s.t.history, ids)));
    assert s1.t.processed.Keys == s.t.processed.Keys + (set id | id in ids);
  }

  /** What the page adds to `processed`. */
  lemma ProcessedAfter(s: State, ids: seq<nat>, id: nat)
    requires WellFormed(s.born, s.t.history) && Enabled(s, Page(ids))
    ensures var after := Next(s, Page(ids)).t.processed;
            && (id in after <==> id in s.t.processed || id in ids)
            && (id in ids ==> after[id] == Attribute(s.t.grants, s.t.history[id]))
            && (id in s.t.processed ==> after[id] == s.t.processed[id])
  {
    PageApplies(s, ids);
  }

  lemma RightStep(s: State, ids: seq<nat>)
    requires WellFormed(s.born, s.t.history) && Enabled(s, Page(ids))
    ensures Right(Next(s, Page(ids)))
            <==> Right(s) && forall id :: id in ids ==> Attribute(s.t.grants, s.t.history[id]) == Latest(s.born, s.t.history[id])
  {
    var s1 := Next(s, Page(ids));
    PageApplies(s, ids);
    assert s1.born == s.born && s1.t.history == s.t.history;
    forall id: nat
      ensures (id in s1.t.processed ==> id < |s.t.history| && s1.t.processed[id] == Latest(s.born, s.t.history[id]))
              <==>
              && (id in s.t.processed ==> id < |s.t.history| && s.t.processed[id] == Latest(s.born, s.t.history[id]))
              && (id in ids ==> Attribute(s.t.grants, s.t.history[id]) == Latest(s.born, s.t.history[id]))
    {
      ProcessedAfter(s, ids, id);
    }
  }

  lemma PageKeepsGood(s: State, ids: seq<nat>)
    requires Good(s) && WellFormed(s.born, s.t.history) && Enabled(s, Page(ids))
    ensures Good(Next(s, Page(ids)))
  {
    var s1 := Next(s, Page(ids));
    PageApplies(s, ids);
    PageKeepsValid(s, ids);
    RightStep(s, ids);
    TimelyStep(s, ids);
    TimelyOfPages(s.(pages := s.pages + [ids]), s1);
    if Right(s) {
      PageRightIff(s, ids);
      if Right(s1) {
        GrantsStep(s, ids);
      }
    }
  }

  lemma TimelyOfPages(a: State, b: State)
    requires a.pages == b.pages && a.born == b.born && a.t.history == b.t.history
    ensures Timely(a) <==> Timely(b)
  {
    assert forall i, j :: EndsBefore(a, i, j) <==> EndsBefore(b, i, j);
  }

  lemma GrantsStep(s: State, ids: seq<nat>)
    requires Good(s) && Right(s) && WellFormed(s.born, s.t.history) && Enabled(s, Page(ids))
    requires forall id :: id in ids ==> Attribute(s.t.grants, s.t.history[id]) == Latest(s.born, s.t.history[id])
    requires Valid(Next(s, Page(ids))) && Done(Next(s, Page(ids))) == Done(s) + ids
    ensures Next(s, Page(ids)).t.grants == Fold(s.born, RowsOf(s.t.history, Done(Next(s, Page(ids)))))
  {
    var rows := RowsOf(s.t.history, ids);
    PageApplies(s, ids);
    PageFolds(s, ids);
    FoldConcat(s.born, RowsOf(s.t.history, Done(s)), rows);
    RowsOfConcat(s.t.history, Done(s), ids);
  }

  lemma RowsOfConcat(history: seq<History>, a: seq<nat>, b: seq<nat>)
    requires (forall id :: id in a ==> id < |history|) && (forall id :: id in b ==> id < |history|)
    ensures RowsOf(history, a + b) == RowsOf(history, a) + RowsOf(history, b)
  {
  }

  lemma PageFolds(s: State, ids: seq<nat>)
    requires SameGrants(s.born, s.t.grants) && Enabled(s, Page(ids))
    requires forall id :: id in ids ==> Attribute(s.t.grants, s.t.history[id]) == Latest(s.born, s.t.history[id])
    ensures var rows := RowsOf(s.t.history, ids);
            ActedAll(s.t.grants, AttributeAll(s.t.grants, rows)) == Fold(s.t.grants, rows)
  {
    var rows := RowsOf(s.t.history, ids);
    forall i | 0 <= i < |rows| ensures Attribute(s.t.grants, rows[i]) == Latest(s.t.grants, rows[i]) {
      assert ids[i] in ids;
      LatestStable(s.born, s.t.grants, rows[i]);
    }
    PageIsFold(s.t.grants, s.t.grants, rows);
  }

  lemma {:induction false} RunGood(grants: Grants, steps: seq<Step>)
    requires IsRun(grants, steps) && WellFormed(Run(grants, steps).born, Run(grants, steps).t.history)
    ensures Good(Run(grants, steps))
    decreases |steps|
  {
    if steps != [] {
      var s, step := Run(grants, steps[..|steps| - 1]), steps[|steps| - 1];
      WellFormedBefore(s, step);
      RunGood(grants, steps[..|steps| - 1]);
      match step
      case Insert(gs, rows) => InsertKeepsGood(s, gs, rows);
      case Page(ids) => PageKeepsGood(s, ids);
    }
  }

  // ----- the reference does not care about the order of the rows -----

  function EndsIt(born: Grants, g: nat): History -> bool
  {
    (e: History) => Ends(e.action) && Latest(born, e) == Some(g)
  }

  /** No grant is ended twice. */
  ghost predicate EndedOnce(born: Grants, log: seq<History>)
  {
    forall g :: |Select(log, EndsIt(born, g))| <= 1
  }

  function FoldOne(grants: Grants, e: History): (r: Grants)
    ensures |r| == |grants|
  {
    match Latest(grants, e)
    case None => grants
    case Some(g) => grants[g := ActOne(grants[g], e)]
  }

  lemma FoldOneKeeps(born: Grants, grants: Grants, e: History)
    requires SameGrants(born, grants)
    ensures SameGrants(born, FoldOne(grants, e)) && Latest(grants, e) == Latest(born, e)
    ensures forall f :: Latest(FoldOne(grants, e), f) == Latest(born, f)
  {
    LatestStable(born, grants, e);
    forall f ensures Latest(FoldOne(grants, e), f) == Latest(born, f) {
      LatestStable(born, FoldOne(grants, e), f);
    }
  }

  /** Two rows can change places unless both end the same grant. */
  lemma Commute(born: Grants, grants: Grants, x: History, y: History)
    requires SameGrants(born, grants)
    requires !(Ends(y.action) && EndsGrantOf(born, x, y))
    ensures FoldOne(FoldOne(grants, x), y) == FoldOne(FoldOne(grants, y), x)
  {
    FoldOneKeeps(born, grants, x);
    FoldOneKeeps(born, grants, y);
  }

  lemma FoldCons(grants: Grants, x: History, rest: seq<History>)
    ensures Fold(grants, [x] + rest) == Fold(FoldOne(grants, x), rest)
  {
    assert ([x] + rest)[1..] == rest;
  }

  lemma {:induction false} MoveToFront(born: Grants, grants: Grants, a: seq<History>, x: History, b: seq<History>)
    requires SameGrants(born, grants)
    requires forall y :: y in a ==> !(Ends(x.action) && EndsGrantOf(born, y, x))
    ensures Fold(grants, a + [x] + b) == Fold(grants, [x] + (a + b))
    decreases |a|
  {
    if a == [] {
      assert a + [x] + b == [x] + (a + b);
    } else {
      var y, rest := a[0], a[1..];
      assert y in a && forall z :: z in rest ==> z in a;
      FoldOneKeeps(born, grants, y);
      MoveToFront(born, FoldOne(grants, y), rest, x, b);
      Regroup(a, x, b);
      FoldCons(grants, y, rest + [x] + b);
      SwapFirst(born, grants, y, x, rest + b);
    }
  }

  lemma Regroup(a: seq<History>, x: History, b: seq<History>)
    requires a != []
    ensures a + [x] + b == [a[0]] + (a[1..] + [x] + b) && a + b == [a[0]] + (a[1..] + b)
  {
  }

  lemma SwapFirst(born: Grants, grants: Grants, x: History, y: History, rest: seq<History>)
    requires SameGrants(born, grants) && !(Ends(y.action) && EndsGrantOf(born, x, y))
    ensures Fold(FoldOne(grants, x), [y] + rest) == Fold(grants, [y] + ([x] + rest))
  {
    Commute(born, grants, x, y);
    FoldCons(FoldOne(grants, x), y, rest);
    FoldCons(grants, y, [x] + rest);
    FoldCons(FoldOne(grants, y), x, rest);
  }

  lemma EndsAlone(born: Grants, a: seq<History>, x: History, b: seq<History>, y: History)
    requires EndedOnce(born, a + [x] + b) && y in a
    ensures !(Ends(x.action) && EndsGrantOf(born, y, x))
  {
    forall g ensures !(EndsIt(born, g)(x) && EndsIt(born, g)(y)) {
      var p := EndsIt(born, g);
      assert |Select(a + [x] + b, p)| <= 1;
      SelectConcat(a + [x], b, p);
      SelectLast(a, x, p);
      if p(y) { SelectMember(a, p, y); }
    }
    if Latest(born, x).Some? {
      assert !(EndsIt(born, Latest(born, x).value)(x) && EndsIt(born, Latest(born, x).value)(y));
    }
  }

  lemma EndedOnceTail(born: Grants, x: History, rest: seq<History>)
    requires EndedOnce(born, [x] + rest)
    ensures EndedOnce(born, rest)
  {
    forall g ensures |Select(rest, EndsIt(born, g))| <= 1 {
      SelectConcat([x], rest, EndsIt(born, g));
    }
  }

  lemma EndedOnceBag(born: Grants, log: seq<History>, log': seq<History>)
    requires multiset(log) == multiset(log') && EndedOnce(born, log)
    ensures EndedOnce(born, log')
  {
    forall g ensures |Select(log', EndsIt(born, g))| <= 1 {
      SelectSize(log, log', EndsIt(born, g));
    }
  }

  /** If no grant is ended twice, the rows may be acted on in any order. */
  lemma {:induction false} FoldIgnoresOrder(born: Grants, grants: Grants, log: seq<History>, log': seq<History>)
    requires SameGrants(born, grants) && multiset(log) == multiset(log') && EndedOnce(born, log)
    ensures Fold(grants, log) == Fold(grants, log')
    decreases |log|
  {
    assert |multiset(log)| == |multiset(log')|;
    if log != [] {
      var x, rest := log[0], log[1..];
      assert log == [x] + rest;
      var a, b := FindFirst(log, log');
      EndedOnceBag(born, log, log');
      forall y | y in a ensures !(Ends(x.action) && EndsGrantOf(born, y, x)) {
        EndsAlone(born, a, x, b, y);
      }
      MoveToFront(born, grants, a, x, b);
      EndedOnceTail(born, x, rest);
      FoldOneKeeps(born, grants, x);
      FoldIgnoresOrder(born, FoldOne(grants, x), rest, a + b);
      FoldCons(grants, x, rest);
      FoldCons(grants, x, a + b);
    }
  }

  // ----- the processed rows in history order -----

  function InOrder(history: seq<History>, ids: set<nat>): seq<History>
  {
    if history == [] then []
    else
      var n := |history| - 1;
      InOrder(history[..n], ids) + if n in ids then [history[n]] else []
  }

  lemma {:induction false} InOrderSame(history: seq<History>, ids: set<nat>, i: nat)
    requires i >= |history|
    ensures InOrder(history, ids + {i}) == InOrder(history, ids)
  {
    if history != [] { InOrderSame(history[..|history| - 1], ids, i); }
  }

  lemma {:induction false} InOrderAdd(history: seq<History>, ids: set<nat>, i: nat)
    requires i < |history| && i !in ids
    ensures multiset(InOrder(history, ids + {i})) == multiset(InOrder(history, ids)) + multiset{history[i]}
  {
    var n := |history| - 1;
    if i == n { InOrderSame(history[..n], ids, i); } else { InOrderAdd(history[..n], ids, i); }
  }

  lemma {:induction false} InOrderNone(history: seq<History>)
    ensures InOrder(history, {}) == []
  {
    if history != [] { InOrderNone(history[..|history| - 1]); }
  }

  lemma {:induction false} InOrderAll(history: seq<History>, ids: set<nat>)
    requires forall i: nat :: i < |history| ==> i in ids
    ensures InOrder(history, ids) == history
  {
    if history != [] {
      var n := |history| - 1;
      InOrderAll(history[..n], ids);
      assert history == history[..n] + [history[n]];
    }
  }

  function IdSet(ids: seq<nat>): set<nat> { set id | id in ids }

  lemma {:induction false} InOrderBag(history: seq<History>, ids: seq<nat>)
    requires Distinct(ids) && forall id :: id in ids ==> id < |history|
    ensures multiset(RowsOf(history, ids)) == multiset(InOrder(history, IdSet(ids)))
    decreases |ids|
  {
    if ids == [] {
      InOrderNone(history);
      assert IdSet(ids) == {};
    } else {
      var n := |ids| - 1;
      var front, last := ids[..n], ids[n];
      assert ids == front + [last] && last in ids && forall id :: id in front ==> id in ids;
      IdSetLast(front, last);
      InOrderBag(history, front);
      InOrderAdd(history, IdSet(front), last);
      RowsOfConcat(history, front, [last]);
      assert RowsOf(history, [last]) == [history[last]];
    }
  }

  lemma IdSetLast(front: seq<nat>, last: nat)
    requires Distinct(front + [last])
    ensures IdSet(front + [last]) == IdSet(front) + {last} && last !in IdSet(front) && Distinct(front)
  {
    var ids := front + [last];
    assert ids[|front|] == last;
    forall i | 0 <= i < |front| ensures front[i] != last {
      assert ids[i] == front[i];
    }
    forall i, j | 0 <= i < j < |front| ensures front[i] != front[j] {
      assert ids[i] == front[i] && ids[j] == front[j];
    }
  }

  lemma SelectInOrder(history: seq<History>, ids: set<nat>, p: History -> bool)
    requires history != []
    ensures var n := |history| - 1;
            Select(InOrder(history, ids), p)
            == Select(InOrder(history[..n], ids), p) + if n in ids && p(history[n]) then [history[n]] else []
  {
    var n := |history| - 1;
    var front := InOrder(history[..n], ids);
    SelectLast(front, history[n], p);
    assert front + [] == front;
  }

  lemma {:induction false} NoneSelected(history: seq<History>, ids: set<nat>, p: History -> bool)
    requires forall i :: 0 <= i < |history| ==> !p(history[i])
    ensures Select(InOrder(history, ids), p) == []
  {
    if history != [] {
      NoneSelected(history[..|history| - 1], ids, p);
      SelectInOrder(history, ids, p);
    }
  }

  /** In a well-formed history no grant is ended twice, by whichever of its rows. */
  lemma {:induction false} InOrderEndedOnce(born: Grants, history: seq<History>, ids: set<nat>, g: nat)
    requires WellFormed(born, history)
    ensures |Select(InOrder(history, ids), EndsIt(born, g))| <= 1
  {
    if history != [] {
      var n := |history| - 1;
      var front, e, p := history[..n], history[n], EndsIt(born, g);
      assert WellFormed(born, front) by {
        assert forall i :: 0 <= i < n ==> front[i] == history[i];
      }
      InOrderEndedOnce(born, front, ids, g);
      SelectInOrder(history, ids, p);
      if p(e) {
        forall i | 0 <= i < n ensures !p(front[i]) {
          assert Latest(born, history[n]).Some? && front[i] == history[i];
        }
        NoneSelected(front, ids, p);
      }
    }
  }

  // ----- the main results -----

  function DoneSet(s: State): set<nat> { s.t.processed.Keys }

  /** The grants as the processed rows, taken one at a time in history order, leave them. */
  function Reference(s: State): Grants
  {
    Fold(s.born, InOrder(s.t.history, DoneSet(s)))
  }

  lemma ReferenceOfPages(s: State)
    requires Valid(s) && WellFormed(s.born, s.t.history)
    ensures Fold(s.born, RowsOf(s.t.history, Done(s))) == Reference(s)
  {
    InOrderBag(s.t.history, Done(s));
    assert IdSet(Done(s)) == DoneSet(s);
    var ordered := InOrder(s.t.history, DoneSet(s));
    forall g ensures |Select(ordered, EndsIt(s.born, g))| <= 1 {
      InOrderEndedOnce(s.born, s.t.history, DoneSet(s), g);
    }
    FoldIgnoresOrder(s.born, s.born, ordered, RowsOf(s.t.history, Done(s)));
  }

  /**
   Over any run, with pages that are any unprocessed rows in any order, every row is attributed to its latest grant if
   and only if no row is in a later page than the end of its grant; and then the spend limit, status and revoking
   transaction of every grant are those of the rows taken one at a time in history order.
   */
  lemma PagesRightIff(grants: Grants, steps: seq<Step>)
    requires IsRun(grants, steps) && WellFormed(Run(grants, steps).born, Run(grants, steps).t.history)
    ensures var s := Run(grants, steps);
            && (Right(s) <==> Timely(s))
            && (Timely(s) ==> s.t.grants == Reference(s))
  {
    RunGood(grants, steps);
    ReferenceOfPages(Run(grants, steps));
  }

  /** Each row is processed at most once, and is in `processed` exactly when some page held it. */
  lemma ProcessedOnce(grants: Grants, steps: seq<Step>)
    requires IsRun(grants, steps) && WellFormed(Run(grants, steps).born, Run(grants, steps).t.history)
    ensures var s := Run(grants, steps);
            && (forall id :: id in s.t.processed <==> exists p :: 0 <= p < |s.pages| && id in s.pages[p])
            && (forall p, q, id :: 0 <= p < q < |s.pages| && id in s.pages[p] ==> id !in s.pages[q])
  {
    RunGood(grants, steps);
    var s := Run(grants, steps);
    forall id ensures id in Done(s) <==> exists p :: 0 <= p < |s.pages| && id in s.pages[p] {
      FlattenMembers(s.pages, id);
    }
    forall p, q, id | 0 <= p < q < |s.pages| && id in s.pages[p] ensures id !in s.pages[q] {
      PagesDisjoint(s.pages, p, q, id);
    }
  }

  lemma {:induction false} PagesDisjoint(pages: seq<seq<nat>>, p: nat, q: nat, id: nat)
    requires p < q < |pages| && Distinct(Flatten(pages)) && id in pages[p]
    ensures id !in pages[q]
    decreases |pages|
  {
    var first, rest := pages[0], Flatten(pages[1..]);
    assert Flatten(pages) == first + rest;
    if p == 0 {
      var i :| 0 <= i < |first| && first[i] == id;
      forall j | 0 <= j < |rest| ensures rest[j] != id {
        assert Flatten(pages)[i] == id && Flatten(pages)[|first| + j] == rest[j];
      }
      FlattenMembers(pages[1..], id);
      assert pages[1..][q - 1] == pages[q];
    } else {
      forall i, j | 0 <= i < j < |rest| ensures rest[i] != rest[j] {
        assert Flatten(pages)[|first| + i] == rest[i] && Flatten(pages)[|first| + j] == rest[j];
      }
      PagesDisjoint(pages[1..], p - 1, q - 1, id);
    }
  }

  ghost predicate AllProcessed(s: State)
  {
    forall id: nat :: id < |s.t.history| ==> id in s.t.processed
  }

  /** The tables hold exactly what the whole history, taken one row at a time in order, dictates. */
  ghost predicate Final(s: State)
  {
    && s.t.grants == Fold(s.born, s.t.history)
    && (forall id: nat :: id in s.t.processed <==> id < |s.t.history|)
    && (forall id: nat :: id in s.t.processed ==> s.t.processed[id] == Latest(s.born, s.t.history[id]))
  }

  /** Once all rows are processed, timely pages leave exactly that. */
  lemma AllPagesRight(grants: Grants, steps: seq<Step>)
    requires IsRun(grants, steps) && WellFormed(Run(grants, steps).born, Run(grants, steps).t.history)
    requires Timely(Run(grants, steps)) && AllProcessed(Run(grants, steps))
    ensures Final(Run(grants, steps))
  {
    var s := Run(grants, steps);
    PagesRightIff(grants, steps);
    InOrderAll(s.t.history, DoneSet(s));
  }

  lemma FinalUnique(s: State, s': State)
    requires Final(s) && Final(s') && s.born == s'.born && s.t.history == s'.t.history
    ensures s.t == s'.t
  {
    assert s.t.processed == s'.t.processed;
  }

  /** So two timely ways of cutting the same history into pages agree in every table. */
  lemma PagesDoNotMatter(grants: Grants, a: seq<Step>, b: seq<Step>)
    requires IsRun(grants, a) && WellFormed(Run(grants, a).born, Run(grants, a).t.history)
    requires IsRun(grants, b) && Run(grants, b).born == Run(grants, a).born
    requires Run(grants, b).t.history == Run(grants, a).t.history
    requires Timely(Run(grants, a)) && AllProcessed(Run(grants, a))
    requires Timely(Run(grants, b)) && AllProcessed(Run(grants, b))
    ensures Run(grants, a).t == Run(grants, b).t
  {
    AllPagesRight(grants, a);
    AllPagesRight(grants, b);
    FinalUnique(Run(grants, a), Run(grants, b));
  }

  // ----- what a grant ends as -----

  /** The amounts of the uses of grant `g` among the rows `ids`. */
  function TakenBy(born: Grants, history: seq<History>, ids: set<nat>, g: nat): int
  {
    if history == [] then 0
    else
      var n := |history| - 1;
      TakenBy(born, history[..n], ids, g)
      + match history[n].action
        case Create | Revoke => 0
        case Use | UseUp => if n in ids && Latest(born, history[n]) == Some(g) && history[n].amount.Some? then history[n].amount.value else 0
  }

  /** Row `i` is among `ids` and ends grant `g`. */
  predicate EndsAt(born: Grants, history: seq<History>, ids: set<nat>, g: nat, i: nat)
  {
    i < |history| && i in ids && Latest(born, history[i]) == Some(g) && (history[i].action == UseUp || history[i].action == Revoke)
  }

  ghost predicate EndsLastAt(born: Grants, history: seq<History>, ids: set<nat>, g: nat, i: nat)
  {
    EndsAt(born, history, ids, g, i) && forall k: nat :: i < k ==> !EndsAt(born, history, ids, g, k)
  }

  /** `status` and `revokeTx` are those the last ending row leaves, or the first ones. */
  ghost predicate EndTold(born: Grants, history: seq<History>, ids: set<nat>, g: nat, status: Status, revokeTx: Option<int>)
    requires g < |born|
  {
    && (forall i: nat :: EndsLastAt(born, history, ids, g, i) ==>
          status == (if history[i].action == UseUp then UsedUp else Revoked) && revokeTx == Some(history[i].txId))
    && ((forall i: nat :: !EndsAt(born, history, ids, g, i)) ==> status == born[g].status && revokeTx == born[g].revokeTx)
  }

  /** `row` is grant `g` with its limit lowered by the rows `ids` of the history. */
  ghost predicate RowTold(born: Grants, history: seq<History>, ids: set<nat>, g: nat, row: Grant)
    requires g < |born|
  {
    && row.granter == born[g].granter && row.grantee == born[g].grantee && row.initTx == born[g].initTx
    && row.spendLimit == (if born[g].spendLimit.Some? then Some(born[g].spendLimit.value - TakenBy(born, history, ids, g)) else None)
  }

  lemma EndsAtNext(born: Grants, history: seq<History>, ids: set<nat>, g: nat, i: nat)
    requires history != []
    ensures var n := |history| - 1;
            EndsAt(born, history, ids, g, i) <==> if i == n then EndsAt(born, history, ids, g, n) else EndsAt(born, history[..n], ids, g, i)
  {
  }

  lemma EndToldNew(born: Grants, history: seq<History>, ids: set<nat>, g: nat)
    requires history != [] && g < |born| && EndsAt(born, history, ids, g, |history| - 1)
    ensures var e := history[|history| - 1];
            EndTold(born, history, ids, g, if e.action == UseUp then UsedUp else Revoked, Some(e.txId))
  {
  }

  lemma EndToldOld(born: Grants, history: seq<History>, ids: set<nat>, g: nat, status: Status, revokeTx: Option<int>)
    requires history != [] && g < |born| && !EndsAt(born, history, ids, g, |history| - 1)
    requires EndTold(born, history[..|history| - 1], ids, g, status, revokeTx)
    ensures EndTold(born, history, ids, g, status, revokeTx)
  {
    var front := history[..|history| - 1];
    forall i: nat ensures EndsAt(born, history, ids, g, i) <==> EndsAt(born, front, ids, g, i) { EndsAtNext(born, history, ids, g, i); }
    forall i: nat | EndsLastAt(born, history, ids, g, i) ensures EndsLastAt(born, front, ids, g, i) {}
  }

  /** The last row of the history on one grant. */
  function NextRow(born: Grants, history: seq<History>, ids: set<nat>, g: nat, row: Grant): Grant
    requires history != []
  {
    var n := |history| - 1;
    if n in ids && Latest(born, history[n]) == Some(g) then ActOne(row, history[n]) else row
  }

  lemma RowToldNext(born: Grants, history: seq<History>, ids: set<nat>, g: nat, row: Grant)
    requires history != [] && g < |born| && RowTold(born, history[..|history| - 1], ids, g, row)
    ensures RowTold(born, history, ids, g, NextRow(born, history, ids, g, row))
  {
  }

  lemma EndToldNext(born: Grants, history: seq<History>, ids: set<nat>, g: nat, row: Grant)
    requires history != [] && g < |born| && EndTold(born, history[..|history| - 1], ids, g, row.status, row.revokeTx)
    ensures var row1 := NextRow(born, history, ids, g, row);
            EndTold(born, history, ids, g, row1.status, row1.revokeTx)
  {
    var e, row1 := history[|history| - 1], NextRow(born, history, ids, g, row);
    if EndsAt(born, history, ids, g, |history| - 1) {
      EndToldNew(born, history, ids, g);
      assert row1.status == (if e.action == UseUp then UsedUp else Revoked) && row1.revokeTx == Some(e.txId);
    } else {
      EndToldOld(born, history, ids, g, row.status, row.revokeTx);
      assert row1.status == row.status && row1.revokeTx == row.revokeTx;
    }
  }

  /** The rows taken one at a time, read off the history: no well-formedness is needed. */
  lemma {:induction false} ReferenceRow(born: Grants, history: seq<History>, ids: set<nat>, g: nat)
    requires g < |born|
    ensures var row := Fold(born, InOrder(history, ids))[g];
            RowTold(born, history, ids, g, row) && EndTold(born, history, ids, g, row.status, row.revokeTx)
  {
    if history != [] {
      var n := |history| - 1;
      var front := InOrder(history[..n], ids);
      ReferenceRow(born, history[..n], ids, g);
      RowToldNext(born, history, ids, g, Fold(born, front)[g]);
      EndToldNext(born, history, ids, g, Fold(born, front)[g]);
      if n in ids {
        FoldConcat(born, front, [history[n]]);
        FoldKeepsGrants(born, front);
        LatestStable(born, Fold(born, front), history[n]);
        FoldLast(Fold(born, front), history[n]);
      } else {
        assert front + [] == front;
      }
    }
  }

  lemma FoldLast(grants: Grants, e: History)
    ensures Fold(grants, [e]) == FoldOne(grants, e)
  {
    assert [e] == [e] + [];
    FoldCons(grants, e, []);
  }

  /** A processed row of the given action was attributed to grant `g` and came from transaction `tx`. */
  ghost predicate HasRow(s: State, g: nat, action: Action, tx: int)
  {
    exists i: nat :: i < |s.t.history| && i in s.t.processed && s.t.processed[i] == Some(g)
                     && s.t.history[i].action == action && s.t.history[i].txId == tx
  }

  /** The amounts of the processed uses that were attributed to grant `g`. */
  function SpentFrom(history: seq<History>, processed: map<nat, Option<nat>>, g: nat): int
  {
    if history == [] then 0
    else
      var n := |history| - 1;
      SpentFrom(history[..n], processed, g)
      + match history[n].action
        case Create | Revoke => 0
        case Use | UseUp => if n in processed && processed[n] == Some(g) && history[n].amount.Some? then history[n].amount.value else 0
  }

  lemma {:induction false} AttributedIsTaken(born: Grants, history: seq<History>, processed: map<nat, Option<nat>>, g: nat)
    requires forall i: nat :: i < |history| && i in processed ==> processed[i] == Latest(born, history[i])
    ensures SpentFrom(history, processed, g) == TakenBy(born, history, processed.Keys, g)
  {
    if history != [] { AttributedIsTaken(born, history[..|history| - 1], processed, g); }
  }

  /** In a well-formed history only one row ends a grant, and only a grant that was available. */
  lemma EndsOnlyOnce(born: Grants, history: seq<History>, ids: set<nat>, g: nat, i: nat)
    requires WellFormed(born, history) && EndsAt(born, history, ids, g, i)
    ensures EndsLastAt(born, history, ids, g, i) && g < |born| && born[g].status == Available
  {
    forall k: nat | i < k ensures !EndsAt(born, history, ids, g, k) {
      if k < |history| && Latest(born, history[k]).Some? {
        assert Ends(history[i].action);
        assert Latest(born, history[i]) != Latest(born, history[k]);
      }
    }
    assert Latest(born, history[i]).Some?;
  }

  /** What the grant row `g` must be, going by the processed rows that were attributed to it. */
  ghost predicate EndsAs(s: State, g: nat)
    requires g < |s.born| && g < |s.t.grants|
  {
    var first, row := s.born[g], s.t.grants[g];
    && row.granter == first.granter && row.grantee == first.grantee && row.initTx == first.initTx
    && row.spendLimit == (if first.spendLimit.Some?
                          then Some(first.spendLimit.value - SpentFrom(s.t.history, s.t.processed, g)) else None)
    && (forall tx :: row.status == UsedUp && row.revokeTx == Some(tx) <==> HasRow(s, g, UseUp, tx))
    && (forall tx :: row.status == Revoked && row.revokeTx == Some(tx) <==> HasRow(s, g, Revoke, tx))
    && (row.status == Available <==> forall tx :: !HasRow(s, g, UseUp, tx) && !HasRow(s, g, Revoke, tx))
    && (row.status == Available ==> row.revokeTx == first.revokeTx)
  }

  lemma StatusTold(s: State, g: nat)
    requires WellFormed(s.born, s.t.history) && Right(s) && g < |s.born| && s.born[g].status == Available && g < |s.t.grants|
    requires RowTold(s.born, s.t.history, DoneSet(s), g, s.t.grants[g])
    requires EndTold(s.born, s.t.history, DoneSet(s), g, s.t.grants[g].status, s.t.grants[g].revokeTx)
    ensures EndsAs(s, g)
  {
    var ids := DoneSet(s);
    AttributedIsTaken(s.born, s.t.history, s.t.processed, g);
    forall i: nat | EndsAt(s.born, s.t.history, ids, g, i) ensures EndsLastAt(s.born, s.t.history, ids, g, i) {
      EndsOnlyOnce(s.born, s.t.history, ids, g, i);
    }
    forall i: nat | EndsAt(s.born, s.t.history, ids, g, i) ensures HasRow(s, g, s.t.history[i].action, s.t.history[i].txId) {
      assert s.t.processed[i] == Some(g);
    }
    forall action, tx | HasRow(s, g, action, tx) && (action == UseUp || action == Revoke)
      ensures exists i: nat :: EndsAt(s.born, s.t.history, ids, g, i) && s.t.history[i].action == action && s.t.history[i].txId == tx
    {
      var i: nat :| i < |s.t.history| && i in s.t.processed && s.t.processed[i] == Some(g)
                    && s.t.history[i].action == action && s.t.history[i].txId == tx;
      assert EndsAt(s.born, s.t.history, ids, g, i);
    }
  }

  /**
   After timely pages, each grant that was inserted as available is used up by a transaction exactly when that
   transaction's use-up row was attributed to it, revoked by a transaction exactly when that transaction's revoke row
   was, and available otherwise; and its limit is the first limit less the amounts of the uses attributed to it.
   */
  lemma GrantEndsAs(grants: Grants, steps: seq<Step>, g: nat)
    requires IsRun(grants, steps) && WellFormed(Run(grants, steps).born, Run(grants, steps).t.history)
    requires Timely(Run(grants, steps)) && g < |Run(grants, steps).born| && Run(grants, steps).born[g].status == Available
    ensures |Run(grants, steps).t.grants| == |Run(grants, steps).born| && EndsAs(Run(grants, steps), g)
  {
    PagesRightIff(grants, steps);
    var s := Run(grants, steps);
    ReferenceRow(s.born, s.t.history, DoneSet(s), g);
    StatusTold(s, g);
  }

  // ----- a page that comes too late -----

  /** A grant of 10, a use of 4 and then a revocation. */
  const OneGrant: Grants := [Grant("granter", "grantee", 1, Some(10), Available, None)]

  const UseThenRevoke: seq<History> :=
    [History(2, "granter", "grantee", Use, Some(4)), History(3, "granter", "grantee", Revoke, None)]

  lemma LatestOfOne(e: History, status: Status)
    requires e.granter == "granter" && e.grantee == "grantee" && e.txId >= 1
    ensures var grants := [OneGrant[0].(status := status)];
            Latest(grants, e) == Some(0) && Attribute(grants, e) == if status == Available then Some(0) else None
  {
    var grants := [OneGrant[0].(status := status)];
    assert grants[..0] == [];
    assert LatestAmong(grants[..0], e, Any) == None && LatestAmong(grants[..0], e, IsAvailable) == None;
  }

  const RevokedGrant: Grants := [Grant("granter", "grantee", 1, Some(10), Revoked, Some(3))]

  /** The page with the revocation ends the grant. */
  lemma RevokeFirst()
    ensures PageUpdate(OneGrant, [UseThenRevoke[1]]) == Ok(RevokedGrant)
    ensures Attribute(OneGrant, UseThenRevoke[1]) == Some(0)
  {
    var e := UseThenRevoke[1];
    LatestOfOne(e, Available);
    assert OneGrant == [OneGrant[0].(status := Available)];
    var hs := [Attributed(e, 0)];
    assert [e][1..] == [] && hs[..0] == [];
    assert AttributeAll(OneGrant, [e]) == hs;
    assert EndOf(hs, 0) == Some(e) && Spent(hs, 0) == 0;
    assert ActedAll(OneGrant, hs) == RevokedGrant;
  }

  /** The page with the use then finds no grant. */
  lemma UseLater()
    ensures PageUpdate(RevokedGrant, [UseThenRevoke[0]]) == Ok(RevokedGrant)
    ensures Attribute(RevokedGrant, UseThenRevoke[0]) == None
  {
    var e := UseThenRevoke[0];
    var g := RevokedGrant;
    assert g[..0] == [] && LatestAmong(g[..0], e, IsAvailable) == None;
    assert [e][1..] == [] && AttributeAll(g, [e]) == [];
    assert ActedAll(g, []) == g;
  }

  lemma InHistoryOrder()
    ensures Fold(OneGrant, UseThenRevoke)[0].spendLimit == Some(6)
  {
    var u, r := UseThenRevoke[0], UseThenRevoke[1];
    LatestOfOne(u, Available);
    assert OneGrant == [OneGrant[0].(status := Available)];
    var g1 := [OneGrant[0].(spendLimit := Some(6))];
    assert FoldOne(OneGrant, u) == g1;
    assert UseThenRevoke == [u] + [r] && [r] == [r] + [];
    FoldCons(OneGrant, u, [r]);
    LatestOfOne(r, Available);
    LatestStable(OneGrant, g1, r);
    FoldCons(g1, r, []);
  }

  const AfterInsert: State := State(Tables(OneGrant, UseThenRevoke, map[]), OneGrant, [])
  const AfterRevoke: State := State(Tables(RevokedGrant, UseThenRevoke, map[1 := Some(0)]), OneGrant, [[1]])
  const AfterUse: State :=
    State(Tables(RevokedGrant, UseThenRevoke, map[0 := None, 1 := Some(0)]), OneGrant, [[1], [0]])

  lemma ExampleInsert()
    ensures Enabled(Start([]), Insert(OneGrant, UseThenRevoke))
    ensures Next(Start([]), Insert(OneGrant, UseThenRevoke)) == AfterInsert
  {
    assert [] + OneGrant == OneGrant && [] + UseThenRevoke == UseThenRevoke;
  }

  lemma ExampleRevoke()
    ensures Enabled(AfterInsert, Page([1])) && Next(AfterInsert, Page([1])) == AfterRevoke
  {
    RevokeFirst();
    assert RowsOf(UseThenRevoke, [1]) == [UseThenRevoke[1]];
    assert Attributions(OneGrant, UseThenRevoke, [1]) == map[1 := Some(0)];
    assert map[] + map[1 := Some(0)] == AfterRevoke.t.processed;
  }

  lemma ExampleUse()
    ensures Enabled(AfterRevoke, Page([0])) && Next(AfterRevoke, Page([0])) == AfterUse
  {
    UseLater();
    assert RowsOf(UseThenRevoke, [0]) == [UseThenRevoke[0]];
    assert Attributions(RevokedGrant, UseThenRevoke, [0]) == map[0 := None];
    assert AfterRevoke.t.processed + map[0 := None] == AfterUse.t.processed;
    assert [[1]] + [[0]] == AfterUse.pages;
  }

  lemma ExampleRun() returns (steps: seq<Step>)
    ensures IsRun([], steps) && Run([], steps) == AfterUse
  {
    ExampleInsert();
    RunSnoc([], [], Insert(OneGrant, UseThenRevoke));
    steps := [] + [Insert(OneGrant, UseThenRevoke)];
    ExampleRevoke();
    RunSnoc([], steps, Page([1]));
    steps := steps + [Page([1])];
    ExampleUse();
    RunSnoc([], steps, Page([0]));
    steps := steps + [Page([0])];
  }

  /**
   A run whose pages take the revocation before the use: the use is attributed to no grant and is never spent, though
   in history order it leaves 6 of 10.
   */
  lemma LatePageExample() returns (steps: seq<Step>)
    ensures IsRun([], steps)
    ensures var s := Run([], steps);
            && s.born == OneGrant && s.t.history == UseThenRevoke && AllProcessed(s)
            && s.t.processed[0] == None && Latest(s.born, s.t.history[0]) == Some(0)
            && s.t.grants == RevokedGrant && RevokedGrant[0].spendLimit == Some(10)
            && Fold(s.born, s.t.history)[0].spendLimit == Some(6)
  {
    steps := ExampleRun();
    AfterUseFacts();
  }

  lemma AfterUseFacts()
    ensures AllProcessed(AfterUse) && Latest(OneGrant, UseThenRevoke[0]) == Some(0)
    ensures Fold(OneGrant, UseThenRevoke)[0].spendLimit == Some(6)
  {
    LatestOfOne(UseThenRevoke[0], Available);
    assert OneGrant == [OneGrant[0].(status := Available)];
    InHistoryOrder();
  }

  lemma RunSnoc(grants: Grants, steps: seq<Step>, step: Step)
    requires IsRun(grants, steps) && Enabled(Run(grants, steps), step)
    ensures IsRun(grants, steps + [step]) && Run(grants, steps + [step]) == Next(Run(grants, steps), step)
  {
    var all := steps + [step];
    assert all[..|all| - 1] == steps && all[|all| - 1] == step;
    assert IsRun(grants, all);
  }
}
