/** How the events of a height range become fee grants and history rows, in two passes over the same events. */
module FeegrantEvents {
  import opened Wrappers
  import opened SortBy
  import opened HeightLog
  import opened Feegrant

  datatype Key = Key(txId: int, granter: Address, grantee: Address)

  /** Any type that is neither basic nor periodic wraps another allowance, or nothing. */
  datatype Allowance =
    | Basic(spendLimit: seq<int>)
    | Periodic(basic: Option<seq<int>>)
    | Wrapped(allowance: Option<Allowance>)

  datatype Content = Content(allowance: Option<Allowance>)

  /** `inMessage` tells a revoke message from the revocation that the chain emits when a grant runs out. */
  datatype Event =
    | UseFeegrant(key: Key, fee: Option<int>)
    | SetFeegrant(key: Key, message: Option<Content>)
    | RevokeFeegrant(key: Key, inMessage: bool)

  datatype Failure = TxFeeNotFound | NoAllowance | NoUseToEnd

  datatype Rows = Rows(histories: seq<History>, grants: seq<Grant>)

  function TxId(h: History): int { h.txId }

  function KeyOf(h: History): Key { Key(h.txId, h.granter, h.grantee) }

  function NewHistory(k: Key, action: Action, amount: Option<int>): History
  {
    History(k.txId, k.granter, k.grantee, action, amount)
  }

  function First(limits: seq<int>): Option<int>
  {
    if limits == [] then None else Some(limits[0])
  }

  /** The spend limit of the allowance inside all wrappers. */
  function SpendLimit(a: Option<Allowance>): Result<Option<int>, Failure>
  {
    match a
    case None => Err(NoAllowance)
    case Some(Basic(limits)) => Ok(First(limits))
    case Some(Periodic(basic)) => Ok(if basic.Some? then First(basic.value) else None)
    case Some(Wrapped(inner)) => SpendLimit(inner)
  }

  function Wrap(a: Option<Allowance>, n: nat): Option<Allowance>
  {
    if n == 0 then a else Some(Wrapped(Wrap(a, n - 1)))
  }

  /** However often an allowance is wrapped, its limit is read the same. */
  lemma {:induction false} WrappersDoNotMatter(a: Option<Allowance>, n: nat)
    ensures SpendLimit(Wrap(a, n)) == SpendLimit(a)
  {
    if n > 0 { WrappersDoNotMatter(a, n - 1); }
  }

  /** Inside any number of wrappers: the first listed amount of a basic or periodic allowance, none if nothing is listed. */
  lemma WrappedLimit(n: nat, limits: seq<int>)
    ensures var first := if |limits| > 0 then Some(limits[0]) else None;
            && SpendLimit(Wrap(Some(Basic(limits)), n)) == Ok(first)
            && SpendLimit(Wrap(Some(Periodic(Some(limits))), n)) == Ok(first)
    ensures SpendLimit(Wrap(Some(Periodic(None)), n)) == Ok(None)
    ensures SpendLimit(Wrap(None, n)) == Err(NoAllowance)
  {
    WrappersDoNotMatter(Some(Basic(limits)), n);
    WrappersDoNotMatter(Some(Periodic(Some(limits))), n);
    WrappersDoNotMatter(Some(Periodic(None)), n);
    WrappersDoNotMatter(None, n);
  }

  function FirstPass(es: seq<Event>): Result<seq<History>, Failure>
  {
    if es == [] then Ok([])
    else
      var n := |es| - 1;
      match FirstPass(es[..n])
      case Err(x) => Err(x)
      case Ok(rows) =>
        if !es[n].UseFeegrant? then Ok(rows)
        else if es[n].fee.None? then Err(TxFeeNotFound)
        else Ok(rows + [NewHistory(es[n].key, Use, es[n].fee)])
  }

  /** The first row of `hs` that is still a plain use with this key. */
  function FindUse(hs: seq<History>, k: Key): (r: Option<nat>)
    ensures r.Some? ==> r.value < |hs| && hs[r.value].action == Use && KeyOf(hs[r.value]) == k
    ensures r.Some? ==> forall i :: 0 <= i < r.value && hs[i].action == Use ==> KeyOf(hs[i]) != k
    ensures r.None? ==> forall i :: 0 <= i < |hs| && hs[i].action == Use ==> KeyOf(hs[i]) != k
  {
    if hs == [] then None
    else
      var n := |hs| - 1;
      match FindUse(hs[..n], k)
      case Some(i) => Some(i)
      case None => if hs[n].action == Use && KeyOf(hs[n]) == k then Some(n) else None
  }

  function SecondStep(r: Rows, e: Event): Result<Rows, Failure>
  {
    match e
    case UseFeegrant(_, _) => Ok(r)
    case SetFeegrant(_, None) => Ok(r)
    case SetFeegrant(k, Some(content)) =>
      (match SpendLimit(content.allowance)
       case Err(x) => Err(x)
       case Ok(limit) =>
         Ok(Rows(r.histories + [NewHistory(k, Create, limit)],
                 r.grants + [Grant(k.granter, k.grantee, k.txId, limit, Available, None)])))
    case RevokeFeegrant(k, true) => Ok(r.(histories := r.histories + [NewHistory(k, Revoke, None)]))
    case RevokeFeegrant(k, false) =>
      match FindUse(r.histories, k)
      case None => Err(NoUseToEnd)
      case Some(i) => Ok(r.(histories := r.histories[i := r.histories[i].(action := UseUp)]))
  }

  function SecondPass(uses: seq<History>, es: seq<Event>): Result<Rows, Failure>
  {
    if es == [] then Ok(Rows(uses, []))
    else
      match SecondPass(uses, es[..|es| - 1])
      case Err(x) => Err(x)
      case Ok(r) => SecondStep(r, es[|es| - 1])
  }

  function TwoPasses(es: seq<Event>): Result<Rows, Failure>
  {
    match FirstPass(es)
    case Err(x) => Err(x)
    case Ok(uses) =>
      match SecondPass(uses, es)
      case Err(x) => Err(x)
      case Ok(r) => Ok(r.(histories := StableSort(r.histories, TxId)))
  }

  method GetCreateFeegrantInfo(message: Content) returns (r: Result<Option<int>, Failure>)
    ensures r == SpendLimit(message.allowance)
  {
    var basicAllowance := message.allowance;
    while basicAllowance.Some? && basicAllowance.value.Wrapped?
      invariant SpendLimit(basicAllowance) == SpendLimit(message.allowance)
      decreases basicAllowance
    {
      basicAllowance := basicAllowance.value.allowance;
    }
    match basicAllowance
    case None => r := Err(NoAllowance);
    case Some(Basic(limits)) => r := Ok(First(limits));
    case Some(Periodic(basic)) => r := Ok(if basic.Some? then First(basic.value) else None);
  }

  method CollectUses(events: seq<Event>) returns (r: Result<seq<History>, Failure>)
    ensures r == FirstPass(events)
  {
    var newHistories := [];
    for i := 0 to |events|
      invariant FirstPass(events[..i]) == Ok(newHistories)
    {
      assert events[..i + 1][..i] == events[..i];
      if events[i].UseFeegrant? {
        if events[i].fee.None? {
          FirstPassFails(events, i + 1);
          return Err(TxFeeNotFound);
        }
        newHistories := newHistories + [NewHistory(events[i].key, Use, events[i].fee)];
      }
    }
    assert events[..|events|] == events;
    return Ok(newHistories);
  }

  lemma {:induction false} FirstPassFails(es: seq<Event>, n: nat)
    requires n <= |es| && FirstPass(es[..n]).Err?
    ensures FirstPass(es) == FirstPass(es[..n])
    decreases |es|
  {
    if n == |es| {
      assert es[..n] == es;
    } else {
      assert es[..|es| - 1][..n] == es[..n];
      FirstPassFails(es[..|es| - 1], n);
    }
  }

  lemma {:induction false} SecondPassFails(uses: seq<History>, es: seq<Event>, n: nat)
    requires n <= |es| && SecondPass(uses, es[..n]).Err?
    ensures SecondPass(uses, es) == SecondPass(uses, es[..n])
    decreases |es|
  {
    if n == |es| {
      assert es[..n] == es;
    } else {
      assert es[..|es| - 1][..n] == es[..n];
      SecondPassFails(uses, es[..|es| - 1], n);
    }
  }

  /** The body of the second loop. */
  method HandleSecond(newHistories: seq<History>, newFeegrants: seq<Grant>, e: Event)
    returns (histories: seq<History>, grants: seq<Grant>, thrown: Option<Failure>)
    ensures SecondStep(Rows(newHistories, newFeegrants), e)
            == (match thrown { case None => Ok(Rows(histories, grants)) case Some(x) => Err(x) })
  {
    histories, grants, thrown := newHistories, newFeegrants, None;
    match e
    case UseFeegrant(_, _) =>
    case SetFeegrant(k, message) =>
      if message.Some? {
        var info := GetCreateFeegrantInfo(message.value);
        match info
        case Err(x) => thrown := Some(x);
        case Ok(limit) =>
          grants := grants + [Grant(k.granter, k.grantee, k.txId, limit, Available, None)];
          histories := histories + [NewHistory(k, Create, limit)];
      }
    case RevokeFeegrant(k, inMessage) =>
      if inMessage {
        histories := histories + [NewHistory(k, Revoke, None)];
      } else {
        var index := FindUse(histories, k);
        match index
        case None => thrown := Some(NoUseToEnd);
        case Some(i) => histories := histories[i := histories[i].(action := UseUp)];
      }
  }

  method GetFeegrantEvents(events: seq<Event>) returns (r: Result<Rows, Failure>)
    ensures r == TwoPasses(events)
  {
    var first := CollectUses(events);
    if first.Err? { return Err(first.error); }
    var newHistories, newFeegrants: seq<Grant> := first.value, [];
    for i := 0 to |events|
      invariant SecondPass(first.value, events[..i]) == Ok(Rows(newHistories, newFeegrants))
    {
      assert events[..i + 1][..i] == events[..i];
      var histories, grants, thrown := HandleSecond(newHistories, newFeegrants, events[i]);
      if thrown.Some? {
        SecondPassFails(first.value, events, i + 1);
        return Err(thrown.value);
      }
      newHistories, newFeegrants := histories, grants;
    }
    assert events[..|events|] == events;
    return Ok(Rows(StableSort(newHistories, TxId), newFeegrants));
  }

  // ----- what the two passes compute -----

  function EndsUseOf(k: Key): Event -> bool
  {
    (e: Event) => e.RevokeFeegrant? && !e.inMessage && e.key == k
  }

  /** How many grants of this key ran out. */
  function EndsOf(es: seq<Event>, k: Key): nat { |Select(es, EndsUseOf(k))| }

  function HasKey(k: Key): History -> bool { (h: History) => KeyOf(h) == k }

  function CountKey(hs: seq<History>, k: Key): nat { |Select(hs, HasKey(k))| }

  /** One row per use event. */
  function UseRow(e: Event): seq<History>
  {
    if e.UseFeegrant? then [History(e.key.txId, e.key.granter, e.key.grantee, Use, e.fee)] else []
  }

  function UseRows(es: seq<Event>): seq<History> { FlatMap(es, UseRow) }

  function Limit(e: Event): Option<int>
  {
    if e.SetFeegrant? && e.message.Some? && SpendLimit(e.message.value.allowance).Ok?
    then SpendLimit(e.message.value.allowance).value else None
  }

  predicate Creates(e: Event) { e.SetFeegrant? && e.message.Some? }

  /** The rows of creations and of revoke messages. */
  function OtherRow(e: Event): seq<History>
  {
    if Creates(e) then [History(e.key.txId, e.key.granter, e.key.grantee, Create, Limit(e))]
    else if e.RevokeFeegrant? && e.inMessage then [History(e.key.txId, e.key.granter, e.key.grantee, Revoke, None)]
    else []
  }

  function OtherRows(es: seq<Event>): seq<History> { FlatMap(es, OtherRow) }

  function GrantRow(e: Event): seq<Grant>
  {
    if Creates(e) then [Grant(e.key.granter, e.key.grantee, e.key.txId, Limit(e), Available, None)] else []
  }

  function GrantRows(es: seq<Event>): seq<Grant> { FlatMap(es, GrantRow) }

  /** The uses of a key, oldest first, are ended as often as the chain ended that key. */
  function MarkedRow(uses: seq<History>, es: seq<Event>, i: nat): History
    requires i < |uses|
  {
    if CountKey(uses[..i], KeyOf(uses[i])) < EndsOf(es, KeyOf(uses[i])) then uses[i].(action := UseUp) else uses[i]
  }

  function Marked(uses: seq<History>, es: seq<Event>): (r: seq<History>)
    ensures |r| == |uses|
  {
    seq(|uses|, i requires 0 <= i < |uses| => MarkedRow(uses, es, i))
  }

  ghost predicate FeesPresent(es: seq<Event>)
  {
    forall e :: e in es && e.UseFeegrant? ==> e.fee.Some?
  }

  ghost predicate AllowancesPresent(es: seq<Event>)
  {
    forall e :: e in es && Creates(e) ==> SpendLimit(e.message.value.allowance).Ok?
  }

  /** No key is ended more often than it was used. */
  ghost predicate EndsHaveUses(uses: seq<History>, es: seq<Event>)
  {
    forall k :: EndsOf(es, k) <= CountKey(uses, k)
  }

  lemma {:induction false} FirstPassIs(es: seq<Event>)
    ensures FirstPass(es).Ok? <==> FeesPresent(es)
    ensures FirstPass(es).Ok? ==> FirstPass(es).value == UseRows(es)
  {
    if es != [] {
      var n := |es| - 1;
      FirstPassIs(es[..n]);
      assert es == es[..n] + [es[n]];
      assert FeesPresent(es) <==> FeesPresent(es[..n]) && (es[n].UseFeegrant? ==> es[n].fee.Some?);
    }
  }

  lemma EndsSnoc(es: seq<Event>, e: Event, k: Key)
    ensures EndsOf(es + [e], k) == EndsOf(es, k) + if e == RevokeFeegrant(k, false) then 1 else 0
  {
    SelectConcat(es, [e], EndsUseOf(k));
    assert [e][1..] == [];
  }

  lemma CountSnoc(hs: seq<History>, h: History, k: Key)
    ensures CountKey(hs + [h], k) == CountKey(hs, k) + if KeyOf(h) == k then 1 else 0
  {
    SelectConcat(hs, [h], HasKey(k));
    assert [h][1..] == [];
  }

  lemma CountPrefix(hs: seq<History>, i: nat, j: nat)
    requires i < j <= |hs|
    ensures CountKey(hs[..i], KeyOf(hs[i])) < CountKey(hs[..j], KeyOf(hs[i]))
  {
    CountSnoc(hs[..i], hs[i], KeyOf(hs[i]));
    assert hs[..i + 1] == hs[..i] + [hs[i]];
    assert hs[..j] == hs[..i + 1] + hs[i + 1..j];
    SelectConcat(hs[..i + 1], hs[i + 1..j], HasKey(KeyOf(hs[i])));
  }

  /** The row of `k` that has `rank` rows of `k` before it. */
  lemma {:induction false} RankedUse(hs: seq<History>, k: Key, rank: nat) returns (i: nat)
    requires rank < CountKey(hs, k)
    ensures i < |hs| && KeyOf(hs[i]) == k && CountKey(hs[..i], k) == rank
    decreases |hs|
  {
    assert hs != [];
    var n := |hs| - 1;
    assert hs == hs[..n] + [hs[n]];
    CountSnoc(hs[..n], hs[n], k);
    if rank < CountKey(hs[..n], k) {
      i := RankedUse(hs[..n], k, rank);
      assert hs[..n][..i] == hs[..i];
    } else {
      i := n;
    }
  }

  lemma {:induction false} OtherRowsAreNotUses(es: seq<Event>)
    ensures forall i :: 0 <= i < |OtherRows(es)| ==> OtherRows(es)[i].action != Use && OtherRows(es)[i].action != UseUp
  {
    if es != [] {
      OtherRowsAreNotUses(es[..|es| - 1]);
      assert OtherRows(es) == OtherRows(es[..|es| - 1]) + OtherRow(es[|es| - 1]);
    }
  }

  ghost predicate AllUses(uses: seq<History>) { forall i :: 0 <= i < |uses| ==> uses[i].action == Use }

  /** The row that the next ended use of `k` turns into a use-up, if there is one. */
  lemma NextToEnd(uses: seq<History>, es: seq<Event>, k: Key)
    requires AllUses(uses)
    ensures var r := FindUse(Marked(uses, es) + OtherRows(es), k);
            && (r.Some? <==> EndsOf(es, k) < CountKey(uses, k))
            && (r.Some? ==> r.value < |uses| && KeyOf(uses[r.value]) == k && CountKey(uses[..r.value], k) == EndsOf(es, k))
  {
    var hs := Marked(uses, es) + OtherRows(es);
    OtherRowsAreNotUses(es);
    if EndsOf(es, k) < CountKey(uses, k) {
      var i := RankedUse(uses, k, EndsOf(es, k));
      assert hs[i] == MarkedRow(uses, es, i) == uses[i];
      forall j | 0 <= j < i && KeyOf(hs[j]) == k ensures hs[j].action == UseUp {
        assert hs[j] == MarkedRow(uses, es, j);
        CountPrefix(uses, j, i);
      }
    } else {
      forall j | 0 <= j < |hs| && KeyOf(hs[j]) == k ensures hs[j].action != Use {
        if j < |uses| {
          assert hs[j] == MarkedRow(uses, es, j);
          CountPrefix(uses, j, |uses|);
          assert uses[..|uses|] == uses;
        } else {
          assert hs[j] == OtherRows(es)[j - |uses|];
        }
      }
    }
  }

  lemma MarkedSame(uses: seq<History>, es: seq<Event>, e: Event)
    requires !(e.RevokeFeegrant? && !e.inMessage)
    ensures Marked(uses, es + [e]) == Marked(uses, es)
  {
    forall i | 0 <= i < |uses| ensures MarkedRow(uses, es + [e], i) == MarkedRow(uses, es, i) {
      EndsSnoc(es, e, KeyOf(uses[i]));
    }
  }

  lemma MarkedMore(uses: seq<History>, es: seq<Event>, k: Key, i: nat)
    requires AllUses(uses) && i < |uses| && KeyOf(uses[i]) == k && CountKey(uses[..i], k) == EndsOf(es, k)
    ensures Marked(uses, es + [RevokeFeegrant(k, false)]) == Marked(uses, es)[i := uses[i].(action := UseUp)]
  {
    var e := RevokeFeegrant(k, false);
    forall j | 0 <= j < |uses|
      ensures MarkedRow(uses, es + [e], j) == Marked(uses, es)[i := uses[i].(action := UseUp)][j]
    {
      EndsSnoc(es, e, KeyOf(uses[j]));
      if j < i { CountPrefix(uses, j, i); }
      if i < j { CountPrefix(uses, i, j); }
    }
  }

  lemma EndsHaveUsesSnoc(uses: seq<History>, es: seq<Event>, e: Event)
    ensures EndsHaveUses(uses, es + [e]) <==>
            EndsHaveUses(uses, es) && (e.RevokeFeegrant? && !e.inMessage ==> EndsOf(es, e.key) < CountKey(uses, e.key))
  {
    forall k ensures EndsOf(es + [e], k) == EndsOf(es, k) + if e == RevokeFeegrant(k, false) then 1 else 0 {
      EndsSnoc(es, e, k);
    }
    if EndsHaveUses(uses, es + [e]) {
      forall k ensures EndsOf(es, k) <= CountKey(uses, k) {
        assert EndsOf(es + [e], k) <= CountKey(uses, k);
      }
    }
  }

  lemma SecondStepIs(uses: seq<History>, es: seq<Event>, e: Event)
    requires AllUses(uses)
    ensures var r := SecondStep(Rows(Marked(uses, es) + OtherRows(es), GrantRows(es)), e);
            && (r.Ok? <==> (Creates(e) ==> SpendLimit(e.message.value.allowance).Ok?)
                           && (e.RevokeFeegrant? && !e.inMessage ==> EndsOf(es, e.key) < CountKey(uses, e.key)))
            && (r.Ok? ==> r.value == Rows(Marked(uses, es + [e]) + OtherRows(es + [e]), GrantRows(es + [e])))
  {
    assert (es + [e])[..|es|] == es;
    if e.RevokeFeegrant? && !e.inMessage {
      NextToEnd(uses, es, e.key);
      var r := FindUse(Marked(uses, es) + OtherRows(es), e.key);
      if r.Some? {
        MarkedMore(uses, es, e.key, r.value);
        assert MarkedRow(uses, es, r.value) == uses[r.value];
      }
    } else {
      MarkedSame(uses, es, e);
    }
  }

  lemma NothingMarked(uses: seq<History>)
    ensures Marked(uses, []) == uses
  {
    forall i | 0 <= i < |uses| ensures MarkedRow(uses, [], i) == uses[i] {}
  }

  /** The second pass ends, for each key, its first uses, and fails exactly when it cannot. */
  lemma {:induction false} SecondPassIs(uses: seq<History>, es: seq<Event>)
    requires AllUses(uses)
    ensures SecondPass(uses, es).Ok? <==> AllowancesPresent(es) && EndsHaveUses(uses, es)
    ensures SecondPass(uses, es).Ok? ==>
              SecondPass(uses, es).value == Rows(Marked(uses, es) + OtherRows(es), GrantRows(es))
    decreases |es|
  {
    if es == [] {
      NothingMarked(uses);
    } else {
      var n := |es| - 1;
      var front, e := es[..n], es[n];
      assert es == front + [e];
      SecondPassIs(uses, front);
      SecondStepIs(uses, front, e);
      EndsHaveUsesSnoc(uses, front, e);
      assert AllowancesPresent(es) <==>
             AllowancesPresent(front) && (Creates(e) ==> SpendLimit(e.message.value.allowance).Ok?);
    }
  }

  lemma {:induction false} UseRowsAreUses(es: seq<Event>)
    ensures AllUses(UseRows(es))
  {
    if es != [] { UseRowsAreUses(es[..|es| - 1]); }
  }

  /** The whole result: it exists exactly when fees, allowances and uses are all there, and is then known row by row. */
  lemma TwoPassesAre(es: seq<Event>)
    ensures TwoPasses(es).Ok? <==> FeesPresent(es) && AllowancesPresent(es) && EndsHaveUses(UseRows(es), es)
    ensures TwoPasses(es).Ok? ==>
              TwoPasses(es).value == Rows(StableSort(Marked(UseRows(es), es) + OtherRows(es), TxId), GrantRows(es))
  {
    FirstPassIs(es);
    UseRowsAreUses(es);
    SecondPassIs(UseRows(es), es);
  }

  // ----- cutting the events into ranges -----

  predicate Mentions(es: seq<Event>, txId: int)
  {
    exists e :: e in es && e.key.txId == txId
  }

  lemma UseCountSnoc(front: seq<Event>, e: Event, k: Key)
    ensures CountKey(UseRows(front + [e]), k)
            == CountKey(UseRows(front), k) + if e.UseFeegrant? && e.key == k then 1 else 0
  {
    FlatMapConcat(front, [e], UseRow);
    FlatMapOne(e, UseRow);
    if e.UseFeegrant? {
      CountSnoc(UseRows(front), NewHistory(e.key, Use, e.fee), k);
    } else {
      assert UseRows(front) + [] == UseRows(front);
    }
  }

  lemma {:induction false} NotMentioned(es: seq<Event>, k: Key)
    requires !Mentions(es, k.txId)
    ensures EndsOf(es, k) == 0 && CountKey(UseRows(es), k) == 0
  {
    if es != [] {
      var n := |es| - 1;
      assert es == es[..n] + [es[n]];
      assert es[n] in es && forall e :: e in es[..n] ==> e in es;
      NotMentioned(es[..n], k);
      EndsSnoc(es[..n], es[n], k);
      UseCountSnoc(es[..n], es[n], k);
      assert es == es[..n] + [es[n]];
    }
  }

  ghost predicate Apart(a: seq<Event>, b: seq<Event>)
  {
    forall x, y :: x in a && y in b ==> x.key.txId < y.key.txId
  }

  /** A key belongs to at most one of two ranges. */
  lemma OneRange(a: seq<Event>, b: seq<Event>, k: Key)
    requires Apart(a, b)
    ensures || (EndsOf(a, k) == 0 && CountKey(UseRows(a), k) == 0)
            || (EndsOf(b, k) == 0 && CountKey(UseRows(b), k) == 0)
  {
    if Mentions(a, k.txId) {
      var x :| x in a && x.key.txId == k.txId;
      assert forall y :: y in b ==> x.key.txId < y.key.txId;
      NotMentioned(b, k);
    } else {
      NotMentioned(a, k);
    }
  }

  lemma CountsJoin(a: seq<Event>, b: seq<Event>, k: Key)
    ensures EndsOf(a + b, k) == EndsOf(a, k) + EndsOf(b, k)
    ensures CountKey(UseRows(a + b), k) == CountKey(UseRows(a), k) + CountKey(UseRows(b), k)
  {
    SelectConcat(a, b, EndsUseOf(k));
    FlatMapConcat(a, b, UseRow);
    SelectConcat(UseRows(a), UseRows(b), HasKey(k));
  }

  lemma EndsHaveUsesJoin(a: seq<Event>, b: seq<Event>)
    requires Apart(a, b)
    ensures EndsHaveUses(UseRows(a + b), a + b) <==> EndsHaveUses(UseRows(a), a) && EndsHaveUses(UseRows(b), b)
  {
    forall k ensures EndsOf(a + b, k) <= CountKey(UseRows(a + b), k)
                     <==> EndsOf(a, k) <= CountKey(UseRows(a), k) && EndsOf(b, k) <= CountKey(UseRows(b), k)
    {
      OneRange(a, b, k);
      CountsJoin(a, b, k);
    }
  }

  lemma CountPositive(hs: seq<History>, i: nat)
    requires i < |hs|
    ensures CountKey(hs, KeyOf(hs[i])) > 0
  {
    CountPrefix(hs, i, |hs|);
    assert hs[..|hs|] == hs;
  }

  lemma MarkedLeft(a: seq<Event>, b: seq<Event>, i: nat)
    requires Apart(a, b) && i < |UseRows(a)|
    ensures MarkedRow(UseRows(a) + UseRows(b), a + b, i) == MarkedRow(UseRows(a), a, i)
  {
    var ua := UseRows(a);
    OneRange(a, b, KeyOf(ua[i]));
    CountsJoin(a, b, KeyOf(ua[i]));
    CountPositive(ua, i);
    assert (ua + UseRows(b))[..i] == ua[..i];
  }

  lemma MarkedRight(a: seq<Event>, b: seq<Event>, i: nat)
    requires Apart(a, b) && i < |UseRows(b)|
    ensures MarkedRow(UseRows(a) + UseRows(b), a + b, |UseRows(a)| + i) == MarkedRow(UseRows(b), b, i)
  {
    var ua, ub := UseRows(a), UseRows(b);
    var k := KeyOf(ub[i]);
    OneRange(a, b, k);
    CountsJoin(a, b, k);
    CountPositive(ub, i);
    assert (ua + ub)[..|ua| + i] == ua + ub[..i];
    SelectConcat(ua, ub[..i], HasKey(k));
  }

  lemma MarkedJoin(a: seq<Event>, b: seq<Event>)
    requires Apart(a, b)
    ensures Marked(UseRows(a + b), a + b) == Marked(UseRows(a), a) + Marked(UseRows(b), b)
  {
    var ua, ub := UseRows(a), UseRows(b);
    FlatMapConcat(a, b, UseRow);
    forall i | 0 <= i < |ua| + |ub|
      ensures Marked(ua + ub, a + b)[i] == (Marked(ua, a) + Marked(ub, b))[i]
    {
      if i < |ua| { MarkedLeft(a, b, i); } else { MarkedRight(a, b, i - |ua|); }
    }
    assert Marked(ua + ub, a + b) == Marked(ua, a) + Marked(ub, b);
  }

  lemma {:induction false} RowTxs(es: seq<Event>, f: Event -> seq<History>)
    requires forall e, h :: h in f(e) ==> h.txId == e.key.txId
    ensures forall h :: h in FlatMap(es, f) ==> Mentions(es, h.txId)
  {
    if es != [] {
      var n := |es| - 1;
      RowTxs(es[..n], f);
      assert es[n] in es && forall e :: e in es[..n] ==> e in es;
    }
  }

  lemma RowsMentioned(es: seq<Event>)
    ensures forall h :: h in Marked(UseRows(es), es) + OtherRows(es) ==> Mentions(es, h.txId)
  {
    RowTxs(es, UseRow);
    RowTxs(es, OtherRow);
    forall i | 0 <= i < |UseRows(es)| ensures Mentions(es, Marked(UseRows(es), es)[i].txId) {
      assert UseRows(es)[i] in UseRows(es) && Marked(UseRows(es), es)[i].txId == UseRows(es)[i].txId;
    }
  }

  function Joined(a: Rows, b: Rows): Rows { Rows(a.histories + b.histories, a.grants + b.grants) }

  /** Two ranges handled one after the other leave the rows of both handled at once, and fail in the same cases. */
  lemma RangesJoin(a: seq<Event>, b: seq<Event>)
    requires Apart(a, b)
    ensures TwoPasses(a + b).Ok? <==> TwoPasses(a).Ok? && TwoPasses(b).Ok?
    ensures TwoPasses(a + b).Ok? ==> TwoPasses(a + b).value == Joined(TwoPasses(a).value, TwoPasses(b).value)
  {
    TwoPassesAre(a);
    TwoPassesAre(b);
    TwoPassesAre(a + b);
    EndsHaveUsesJoin(a, b);
    MarkedJoin(a, b);
    FlatMapConcat(a, b, OtherRow);
    FlatMapConcat(a, b, GrantRow);
    var ma, mb := Marked(UseRows(a), a), Marked(UseRows(b), b);
    forall x, y | x in ma + OtherRows(a) && y in mb + OtherRows(b) ensures TxId(x) < TxId(y) {
      RowsMentioned(a);
      RowsMentioned(b);
    }
    MergeSplits(ma, mb, OtherRows(a), OtherRows(b), TxId);
  }

  function RunRanges(ranges: seq<seq<Event>>): Result<Rows, Failure>
  {
    if ranges == [] then Ok(Rows([], []))
    else
      match TwoPasses(ranges[0])
      case Err(x) => Err(x)
      case Ok(first) =>
        match RunRanges(ranges[1..])
        case Err(x) => Err(x)
        case Ok(rest) => Ok(Joined(first, rest))
  }

  ghost predicate AllApart(ranges: seq<seq<Event>>)
  {
    ranges != [] ==> Apart(ranges[0], Flatten(ranges[1..])) && AllApart(ranges[1..])
  }

  /** However the chain is cut into ranges, the same grants and the same history rows are inserted, in the same order. */
  lemma {:induction false} RangesDoNotMatter(ranges: seq<seq<Event>>)
    requires AllApart(ranges)
    ensures RunRanges(ranges).Ok? <==> TwoPasses(Flatten(ranges)).Ok?
    ensures RunRanges(ranges).Ok? ==> RunRanges(ranges).value == TwoPasses(Flatten(ranges)).value
  {
    if ranges == [] {
      TwoPassesAre([]);
    } else {
      RangesDoNotMatter(ranges[1..]);
      RangesJoin(ranges[0], Flatten(ranges[1..]));
    }
  }

  // ----- the order in which the query returns the events -----

  /** A transaction pays its fee from one grant, once. */
  ghost predicate OneUsePerKey(es: seq<Event>)
  {
    forall k :: CountKey(UseRows(es), k) <= 1
  }

  /** The row an event stands for: a use is a use-up exactly when the chain ended its grant in the same transaction. */
  function Meaning(ends: seq<Event>): Event -> seq<History>
  {
    (e: Event) =>
      if e.UseFeegrant? then
        [History(e.key.txId, e.key.granter, e.key.grantee, if EndsOf(ends, e.key) > 0 then UseUp else Use, e.fee)]
      else OtherRow(e)
  }

  lemma OneUseFront(front: seq<Event>, e: Event)
    requires OneUsePerKey(front + [e])
    ensures OneUsePerKey(front) && (e.UseFeegrant? ==> CountKey(UseRows(front), e.key) == 0)
  {
    forall k ensures CountKey(UseRows(front), k) + (if e.UseFeegrant? && e.key == k then 1 else 0) <= 1 {
      UseCountSnoc(front, e, k);
    }
  }

  lemma MarkedSnoc(uses: seq<History>, h: History, ends: seq<Event>)
    ensures Marked(uses + [h], ends) == Marked(uses, ends) + [MarkedRow(uses + [h], ends, |uses|)]
  {
    forall i | 0 <= i < |uses| ensures MarkedRow(uses + [h], ends, i) == MarkedRow(uses, ends, i) {
      assert (uses + [h])[..i] == uses[..i];
    }
  }

  /** With one use per key, each use is marked by itself. */
  lemma {:induction false} MarkedByMeaning(es: seq<Event>, ends: seq<Event>)
    requires OneUsePerKey(es)
    ensures multiset(Marked(UseRows(es), ends) + OtherRows(es)) == multiset(FlatMap(es, Meaning(ends)))
    decreases |es|
  {
    if es != [] {
      var n := |es| - 1;
      var front, e := es[..n], es[n];
      assert es == front + [e];
      OneUseFront(front, e);
      MarkedByMeaning(front, ends);
      LastByMeaning(front, e, ends);
      FlatMapConcat(front, [e], OtherRow);
      FlatMapOne(e, OtherRow);
      BagOfParts(Marked(UseRows(front), ends), OtherRows(front), if e.UseFeegrant? then Meaning(ends)(e) else [], OtherRow(e));
    }
  }

  lemma BagOfParts<T>(a: seq<T>, b: seq<T>, x: seq<T>, y: seq<T>)
    ensures multiset((a + x) + (b + y)) == multiset(a + b) + multiset(x + y)
  {
  }

  lemma LastByMeaning(front: seq<Event>, e: Event, ends: seq<Event>)
    requires OneUsePerKey(front + [e])
    ensures Marked(UseRows(front + [e]), ends)
            == Marked(UseRows(front), ends) + if e.UseFeegrant? then Meaning(ends)(e) else []
  {
    FlatMapConcat(front, [e], UseRow);
    FlatMapOne(e, UseRow);
    if e.UseFeegrant? {
      var h := NewHistory(e.key, Use, e.fee);
      MarkedSnoc(UseRows(front), h, ends);
      OneUseFront(front, e);
      assert (UseRows(front) + [h])[..|UseRows(front)|] == UseRows(front);
    } else {
      assert UseRows(front) + [] == UseRows(front);
    }
  }

  /** The result said without passes: one row per event that stands for one, ordered by transaction. */
  lemma RowsByMeaning(es: seq<Event>)
    requires OneUsePerKey(es) && TwoPasses(es).Ok?
    ensures multiset(TwoPasses(es).value.histories) == multiset(FlatMap(es, Meaning(es)))
    ensures Sorted(TwoPasses(es).value.histories, TxId)
    ensures TwoPasses(es).value.grants == GrantRows(es)
  {
    TwoPassesAre(es);
    MarkedByMeaning(es, es);
    StableSortCorrect(Marked(UseRows(es), es) + OtherRows(es), TxId);
  }

  lemma CountsIgnoreOrder(es: seq<Event>, es': seq<Event>, k: Key)
    requires multiset(es) == multiset(es')
    ensures EndsOf(es, k) == EndsOf(es', k) && CountKey(UseRows(es), k) == CountKey(UseRows(es'), k)
  {
    SelectSize(es, es', EndsUseOf(k));
    FlatMapBag(es, es', UseRow);
    SelectSize(UseRows(es), UseRows(es'), HasKey(k));
  }

  lemma OkIgnoresOrder(es: seq<Event>, es': seq<Event>)
    requires multiset(es) == multiset(es')
    ensures TwoPasses(es).Ok? <==> TwoPasses(es').Ok?
  {
    TwoPassesAre(es);
    TwoPassesAre(es');
    assert forall e :: e in es <==> e in multiset(es);
    assert forall e :: e in es' <==> e in multiset(es');
    forall k ensures EndsOf(es, k) <= CountKey(UseRows(es), k) <==> EndsOf(es', k) <= CountKey(UseRows(es'), k) {
      CountsIgnoreOrder(es, es', k);
    }
  }

  lemma MeaningIgnoresOrder(es: seq<Event>, es': seq<Event>, e: Event)
    requires multiset(es) == multiset(es')
    ensures Meaning(es)(e) == Meaning(es')(e)
  {
    CountsIgnoreOrder(es, es', e.key);
  }

  lemma {:induction false} FlatMapSame(s: seq<Event>, es: seq<Event>, es': seq<Event>)
    requires multiset(es) == multiset(es')
    ensures FlatMap(s, Meaning(es)) == FlatMap(s, Meaning(es'))
  {
    if s != [] {
      FlatMapSame(s[..|s| - 1], es, es');
      MeaningIgnoresOrder(es, es', s[|s| - 1]);
    }
  }

  /**
   The query does not order the events, and need not: the two passes insert the same rows, or fail, whichever order
   the events come in, also when the end of a grant comes before the use that exhausted it.
   */
  lemma FetchOrderDoesNotMatter(es: seq<Event>, es': seq<Event>)
    requires multiset(es) == multiset(es') && OneUsePerKey(es)
    ensures TwoPasses(es).Ok? <==> TwoPasses(es').Ok?
    ensures TwoPasses(es).Ok? ==>
              && multiset(TwoPasses(es).value.histories) == multiset(TwoPasses(es').value.histories)
              && multiset(TwoPasses(es).value.grants) == multiset(TwoPasses(es').value.grants)
  {
    OkIgnoresOrder(es, es');
    forall k ensures CountKey(UseRows(es'), k) <= 1 {
      CountsIgnoreOrder(es, es', k);
    }
    if TwoPasses(es).Ok? {
      RowsByMeaning(es);
      RowsByMeaning(es');
      FlatMapSame(es', es, es');
      FlatMapBag(es, es', Meaning(es));
      FlatMapBag(es, es', GrantRow);
    }
  }

  lemma {:induction false} UsesHaveFees(es: seq<Event>)
    requires FeesPresent(es)
    ensures forall h :: h in UseRows(es) ==> h.amount.Some?
  {
    if es != [] {
      var n := |es| - 1;
      assert es[n] in es && forall e :: e in es[..n] ==> e in es;
      UsesHaveFees(es[..n]);
    }
  }

  lemma RowHasFee(es: seq<Event>, j: nat)
    requires FeesPresent(es) && j < |Marked(UseRows(es), es) + OtherRows(es)|
    ensures !FeeMissing((Marked(UseRows(es), es) + OtherRows(es))[j])
  {
    if j < |UseRows(es)| {
      UsesHaveFees(es);
      assert UseRows(es)[j] in UseRows(es);
      assert Marked(UseRows(es), es)[j].amount == UseRows(es)[j].amount;
    } else {
      OtherRowsAreNotUses(es);
      assert OtherRows(es)[j - |UseRows(es)|].action != Use;
    }
  }

  lemma SortedMember(s: seq<History>, i: nat) returns (j: nat)
    requires i < |StableSort(s, TxId)|
    ensures j < |s| && s[j] == StableSort(s, TxId)[i]
  {
    StableSortCorrect(s, TxId);
    assert StableSort(s, TxId)[i] in multiset(s);
    j :| j < |s| && s[j] == StableSort(s, TxId)[i];
  }

  /** The update job never meets a use without a fee: what this job inserts always has one. */
  lemma InsertedRowsHaveFees(es: seq<Event>, i: nat)
    requires TwoPasses(es).Ok? && i < |TwoPasses(es).value.histories|
    ensures !FeeMissing(TwoPasses(es).value.histories[i])
  {
    TwoPassesAre(es);
    var j := SortedMember(Marked(UseRows(es), es) + OtherRows(es), i);
    RowHasFee(es, j);
  }
}
