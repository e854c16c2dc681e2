/**
 CW721 ownership: mints, transfers and burns folded into one row per token, and an
 activity list that names the previous owner of each token.
 */
module Cw721 {
  import opened Wrappers
  import opened HeightLog
  import opened SortBy

  type Address = string

  datatype Action = Mint | TransferNft | SendNft | Burn | Other

  /** A contract event; `to` is the owner of a mint or the recipient of a transfer. */
  datatype Msg = Msg(action: Action, contract: Address, tokenId: string, to: Option<Address>, height: int)

  type Key = (Address, string)

  datatype Owned = Owned(owner: Option<Address>, lastUpdated: int, burned: bool)

  type Tokens = map<Key, Owned>

  datatype Activity = Activity(action: Action, key: Key, from: Option<Address>, to: Option<Address>, height: int)

  /** Burning a token that has no row dereferences `undefined`. */
  datatype Error = TokenNotFound

  function KeyOf(m: Msg): Key { (m.contract, m.tokenId) }
  function Height(m: Msg): int { m.height }
  predicate Moves(a: Action) { a == TransferNft || a == SendNft }

  // ----- one message -----

  datatype Book = Book(tokens: Tokens, acts: seq<Activity>)

  function OwnerOf(tokens: Tokens, k: Key): Option<Address>
  {
    if k in tokens then tokens[k].owner else None
  }

  /** The guard of every handler: a row newer than the message is left alone. */
  predicate Fresh(tokens: Tokens, m: Msg)
  {
    KeyOf(m) in tokens ==> tokens[KeyOf(m)].lastUpdated <= m.height
  }

  /** The token table after a message, when the height guard lets it through. */
  function TokensAfter(tokens: Tokens, m: Msg): Tokens
  {
    var k := KeyOf(m);
    if !Fresh(tokens, m) then tokens
    else if m.action == Mint then tokens[k := Owned(m.to, m.height, false)]
    else if k !in tokens then tokens
    else if Moves(m.action) then tokens[k := Owned(m.to, m.height, tokens[k].burned)]
    else if m.action == Burn then tokens[k := Owned(tokens[k].owner, m.height, true)]
    else tokens
  }

  function ActivityOf(tokens: Tokens, m: Msg): Activity
  {
    Activity(m.action, KeyOf(m),
             if Moves(m.action) || m.action == Burn then OwnerOf(tokens, KeyOf(m)) else None,
             if Moves(m.action) || m.action == Mint then m.to else None,
             m.height)
  }

  function Apply(tracked: set<Address>, b: Book, m: Msg): Result<Book, Error>
  {
    if m.contract !in tracked then Ok(b)
    else if m.action == Burn && KeyOf(m) !in b.tokens then Err(TokenNotFound)
    else Ok(Book(TokensAfter(b.tokens, m), b.acts + [ActivityOf(b.tokens, m)]))
  }

  function ApplyAll(tracked: set<Address>, b: Book, ms: seq<Msg>): Result<Book, Error>
    decreases |ms|
  {
    if ms == [] then Ok(b)
    else
      match Apply(tracked, b, ms[0])
      case Err(x) => Err(x)
      case Ok(b1) => ApplyAll(tracked, b1, ms[1..])
  }

  // ----- the handler object -----

  /** A token object: the row's id, or none for a token that has no row yet. */
  datatype Entry = Entry(id: Option<nat>, t: Owned)

  function TokensOf(entries: map<Key, Entry>): Tokens
  {
    map k | k in entries :: entries[k].t
  }

  /** Existing tokens keep their ids, new tokens have none. */
  ghost predicate KeepsIds(before: map<Key, Entry>, after: map<Key, Entry>)
  {
    && (forall k :: k in before ==> k in after && after[k].id == before[k].id)
    && (forall k :: k in after && k !in before ==> after[k].id == None)
  }

  class Cw721Handler {
    var tokensKeyBy: map<Key, Entry>
    var cw721Activities: seq<Activity>
    const tracked: set<Address>
    const orderedMsgs: seq<Msg>

    constructor (tokens: map<Key, Entry>, cw721Activities: seq<Activity>, tracked: set<Address>, orderedMsgs: seq<Msg>)
      ensures this.tokensKeyBy == tokens && this.cw721Activities == cw721Activities
      ensures this.tracked == tracked && this.orderedMsgs == orderedMsgs
    {
      this.tokensKeyBy := tokens;
      this.cw721Activities := cw721Activities;
      this.tracked := tracked;
      this.orderedMsgs := orderedMsgs;
    }

    ghost function State(): Book
      reads this
    {
      Book(TokensOf(tokensKeyBy), cw721Activities)
    }

    method HandlerCw721Transfer(m: Msg)
      requires Moves(m.action)
      modifies this
      ensures Apply(tracked, old(State()), m) == Ok(State())
      ensures KeepsIds(old(tokensKeyBy), tokensKeyBy)
    {
      if m.contract in tracked {
        var k := KeyOf(m);
        var from := if k in tokensKeyBy then tokensKeyBy[k].t.owner else None;
        cw721Activities := cw721Activities + [Activity(m.action, k, from, m.to, m.height)];
        if k in tokensKeyBy && tokensKeyBy[k].t.lastUpdated <= m.height {
          var token := tokensKeyBy[k];
          tokensKeyBy := tokensKeyBy[k := Entry(token.id, token.t.(owner := m.to, lastUpdated := m.height))];
          assert TokensOf(tokensKeyBy) == TokensOf(old(tokensKeyBy))[k := Owned(m.to, m.height, token.t.burned)];
        }
      }
    }

    method HandlerCw721Mint(m: Msg)
      requires m.action == Mint
      modifies this
      ensures Apply(tracked, old(State()), m) == Ok(State())
      ensures KeepsIds(old(tokensKeyBy), tokensKeyBy)
    {
      if m.contract in tracked {
        var k := KeyOf(m);
        cw721Activities := cw721Activities + [Activity(Mint, k, None, m.to, m.height)];
        if k !in tokensKeyBy || tokensKeyBy[k].t.lastUpdated <= m.height {
          var id := if k in tokensKeyBy then tokensKeyBy[k].id else None;
          tokensKeyBy := tokensKeyBy[k := Entry(id, Owned(m.to, m.height, false))];
          assert TokensOf(tokensKeyBy) == TokensOf(old(tokensKeyBy))[k := Owned(m.to, m.height, false)];
        }
      }
    }

    method HandlerCw721Burn(m: Msg) returns (thrown: Option<Error>)
      requires m.action == Burn
      modifies this
      ensures Apply(tracked, old(State()), m) == (match thrown { case None => Ok(State()) case Some(x) => Err(x) })
      ensures KeepsIds(old(tokensKeyBy), tokensKeyBy)
    {
      if m.contract in tracked {
        var k := KeyOf(m);
        if k !in tokensKeyBy {
          return Some(TokenNotFound);
        }
        var token := tokensKeyBy[k];
        cw721Activities := cw721Activities + [Activity(Burn, k, token.t.owner, None, m.height)];
        if token.t.lastUpdated <= m.height {
          tokensKeyBy := tokensKeyBy[k := Entry(token.id, token.t.(burned := true, lastUpdated := m.height))];
          assert TokensOf(tokensKeyBy) == TokensOf(old(tokensKeyBy))[k := Owned(token.t.owner, m.height, true)];
        }
      }
      return None;
    }

    method Process() returns (thrown: Option<Error>)
      modifies this
      ensures ApplyAll(tracked, old(State()), orderedMsgs)
              == (match thrown { case None => Ok(State()) case Some(x) => Err(x) })
      ensures KeepsIds(old(tokensKeyBy), tokensKeyBy)
    {
      var i := 0;
      assert orderedMsgs[0..] == orderedMsgs;
      while i < |orderedMsgs|
        invariant 0 <= i <= |orderedMsgs|
        invariant ApplyAll(tracked, old(State()), orderedMsgs) == ApplyAll(tracked, State(), orderedMsgs[i..])
        invariant KeepsIds(old(tokensKeyBy), tokensKeyBy)
      {
        var m := orderedMsgs[i];
        assert orderedMsgs[i..][0] == m && orderedMsgs[i..][1..] == orderedMsgs[i + 1..];
        if m.action == Mint {
          HandlerCw721Mint(m);
        } else if m.action == TransferNft || m.action == SendNft {
          HandlerCw721Transfer(m);
        } else if m.action == Burn {
          thrown := HandlerCw721Burn(m);
          if thrown.Some? {
            return;
          }
        } else if m.contract in tracked {
          cw721Activities := cw721Activities + [Activity(m.action, KeyOf(m), None, None, m.height)];
        }
        i := i + 1;
      }
      return None;
    }
  }

  // ----- the token table: rows with ids -----

  datatype Row = Row(key: Key, t: Owned)

  /** The table; a row's position is its id. */
  type Rows = seq<Row>

  ghost predicate OneRowPerToken(rows: Rows)
  {
    forall i, j :: 0 <= i < j < |rows| ==> rows[i].key != rows[j].key
  }

  /** The table as a dictionary, with the row ids. */
  function KeyBy(rows: Rows): map<Key, Entry>
  {
    if rows == [] then map[]
    else
      var n := |rows| - 1;
      KeyBy(rows[..n])[rows[n].key := Entry(Some(n), rows[n].t)]
  }

  /** Every row is still there, under its id and for the same token. */
  ghost predicate Extends(before: Rows, after: Rows)
  {
    |before| <= |after| && forall i :: 0 <= i < |before| ==> after[i].key == before[i].key
  }

  /** Entries with an id belong to the row of that id, entries without one have no row. */
  ghost predicate Placed(rows: Rows, entries: map<Key, Entry>, keys: set<Key>)
  {
    forall k :: k in keys && k in entries ==>
      match entries[k].id
      case Some(i) => i < |rows| && rows[i].key == k
      case None => k !in KeyBy(rows)
  }

  predicate Mentioned(ms: seq<Msg>, k: Key)
  {
    exists m :: m in ms && KeyOf(m) == k
  }

  function Slice<V>(tokens: map<Key, V>, ms: seq<Msg>): map<Key, V>
  {
    map k | k in tokens && Mentioned(ms, k) :: tokens[k]
  }

  /** The row id of a token. */
  function IdOf(rows: Rows, k: Key): Option<nat>
  {
    if k in KeyBy(rows) then KeyBy(rows)[k].id else None
  }

  /** The `cw721_token_id` of some activities, for a token table. */
  function LinksTo(rows: Rows, acts: seq<Activity>): (r: seq<Option<nat>>)
    ensures |r| == |acts|
  {
    seq(|acts|, i requires 0 <= i < |acts| => IdOf(rows, acts[i].key))
  }

  /** Every linked activity is linked to the row of its own token. */
  ghost predicate Linked(rows: Rows, acts: seq<Activity>, links: seq<Option<nat>>)
  {
    && |links| == |acts|
    && (forall i :: 0 <= i < |links| && links[i].Some? ==> links[i].value < |rows| && rows[links[i].value].key == acts[i].key)
  }

  class Cw721Store {
    var rows: Rows
    var activities: seq<Activity>
    var tokenIds: seq<Option<nat>>

    ghost function State(): Book
      reads this
    {
      Book(TokensOf(KeyBy(rows)), activities)
    }

    /** `insert(updatedTokens).onConflict('id').merge()`, one token at a time in any order. */
    static method Upsert(rows: Rows, entries: map<Key, Entry>) returns (after: Rows)
      requires OneRowPerToken(rows) && Placed(rows, entries, entries.Keys)
      ensures OneRowPerToken(after) && Extends(rows, after)
      ensures TokensOf(KeyBy(after)) == TokensOf(KeyBy(rows)) + TokensOf(entries)
    {
      after := rows;
      var todo := entries.Keys;
      assert entries - todo == map[];
      while todo != {}
        invariant OneRowPerToken(after) && Extends(rows, after)
        invariant todo <= entries.Keys && Placed(after, entries, todo)
        invariant TokensOf(KeyBy(after)) == TokensOf(KeyBy(rows)) + TokensOf(entries - todo)
        decreases |todo|
      {
        var k :| k in todo;
        UpsertOne(rows, after, entries, todo, k);
        after := Write(after, k, entries[k]);
        todo := todo - {k};
      }
      assert entries - {} == entries;
    }

    /** Looks up each activity's token among the tokens just written. */
    static method LinkActivities(after: Rows, written: map<Key, Entry>, acts: seq<Activity>) returns (ids: seq<Option<nat>>)
      requires forall k :: k in written ==> k in KeyBy(after)
      requires forall i :: 0 <= i < |acts| && acts[i].key in KeyBy(after) ==> acts[i].key in written
      ensures ids == LinksTo(after, acts)
    {
      ids := [];
      for i := 0 to |acts|
        invariant ids == LinksTo(after, acts)[..i]
      {
        var k := acts[i].key;
        ids := ids + [if k in written then KeyBy(after)[k].id else None];
      }
    }

    /** One transaction of the job: load the mentioned tokens, process, write back tokens and activities. */
    method HandleBatch(tracked: set<Address>, ms: seq<Msg>) returns (thrown: Option<Error>)
      requires OneRowPerToken(rows) && Linked(rows, activities, tokenIds)
      modifies this
      ensures OneRowPerToken(rows) && Linked(rows, activities, tokenIds)
      ensures ApplyAll(tracked, old(State()), ms) == (match thrown { case None => Ok(State()) case Some(x) => Err(x) })
      ensures Extends(old(rows), rows)
      ensures thrown.None? ==> old(activities) <= activities
                               && tokenIds == old(tokenIds) + LinksTo(rows, activities[|old(activities)|..])
      ensures thrown.Some? ==> rows == old(rows) && activities == old(activities) && tokenIds == old(tokenIds)
    {
      var loaded := Slice(KeyBy(rows), ms);
      var handler := new Cw721Handler(loaded, [], tracked, ms);
      thrown := handler.Process();
      SliceOfEntries(KeyBy(rows), ms);
      BatchRefinesFold(tracked, State(), ms);
      if thrown.None? {
        MentionedOnly(tracked, Book(TokensOf(loaded), []), ms);
        EntriesPlaced(rows, ms, handler.tokensKeyBy);
        var after := Upsert(rows, handler.tokensKeyBy);
        WrittenTokens(tracked, rows, after, ms, handler.tokensKeyBy, handler.cw721Activities);
        var ids := LinkActivities(after, handler.tokensKeyBy, handler.cw721Activities);
        LinkedMore(rows, after, activities, tokenIds, handler.cw721Activities);
        rows := after;
        activities := activities + handler.cw721Activities;
        tokenIds := tokenIds + ids;
        assert activities[|old(activities)|..] == handler.cw721Activities;
      }
    }
  }

  /** New activities are about mentioned tokens. */
  lemma {:induction false} ActivitiesMentioned(tracked: set<Address>, b: Book, ms: seq<Msg>, i: nat)
    requires ApplyAll(tracked, b, ms).Ok? && |b.acts| <= i < |ApplyAll(tracked, b, ms).value.acts|
    ensures b.acts <= ApplyAll(tracked, b, ms).value.acts && Mentioned(ms, ApplyAll(tracked, b, ms).value.acts[i].key)
    decreases |ms|
  {
    if ms != [] {
      var b1 := Apply(tracked, b, ms[0]).value;
      ActivitiesGrow(tracked, b1, ms[1..]);
      if |b1.acts| <= i {
        ActivitiesMentioned(tracked, b1, ms[1..], i);
        var m :| m in ms[1..] && KeyOf(m) == ApplyAll(tracked, b, ms).value.acts[i].key;
        assert m in ms;
      } else {
        assert ms[0] in ms && ApplyAll(tracked, b, ms).value.acts[i] == b1.acts[i];
      }
    }
  }

  lemma {:induction false} ActivitiesGrow(tracked: set<Address>, b: Book, ms: seq<Msg>)
    requires ApplyAll(tracked, b, ms).Ok?
    ensures b.acts <= ApplyAll(tracked, b, ms).value.acts
    decreases |ms|
  {
    if ms != [] { ActivitiesGrow(tracked, Apply(tracked, b, ms[0]).value, ms[1..]); }
  }

  /** The tokens written back are exactly the mentioned tokens that have a row afterwards. */
  lemma WrittenTokens(
      tracked: set<Address>, rows: Rows, after: Rows, ms: seq<Msg>, entries: map<Key, Entry>, acts: seq<Activity>)
    requires KeepsIds(Slice(KeyBy(rows), ms), entries)
    requires ApplyAll(tracked, Book(TokensOf(Slice(KeyBy(rows), ms)), []), ms) == Ok(Book(TokensOf(entries), acts))
    requires TokensOf(KeyBy(after)) == TokensOf(KeyBy(rows)) + TokensOf(entries)
    ensures forall k :: k in entries ==> k in KeyBy(after)
    ensures forall i :: 0 <= i < |acts| && acts[i].key in KeyBy(after) ==> acts[i].key in entries
  {
    assert TokensOf(KeyBy(after)).Keys == TokensOf(KeyBy(rows)).Keys + TokensOf(entries).Keys;
    assert forall k :: k in KeyBy(after) <==> k in TokensOf(KeyBy(after));
    forall i | 0 <= i < |acts| && acts[i].key in KeyBy(after) ensures acts[i].key in entries {
      ActivitiesMentioned(tracked, Book(TokensOf(Slice(KeyBy(rows), ms)), []), ms, i);
      assert acts[i].key in KeyBy(rows) ==> acts[i].key in Slice(KeyBy(rows), ms);
    }
  }

  /** Old links stay right, because rows keep their ids, and new links are right. */
  lemma LinkedMore(rows: Rows, after: Rows, acts: seq<Activity>, links: seq<Option<nat>>, more: seq<Activity>)
    requires Linked(rows, acts, links) && Extends(rows, after)
    ensures Linked(after, acts + more, links + LinksTo(after, more))
  {
    forall i | 0 <= i < |more| && LinksTo(after, more)[i].Some?
      ensures LinksTo(after, more)[i].value < |after| && after[LinksTo(after, more)[i].value].key == more[i].key
    {
      KeyById(after, more[i].key);
    }
  }

  /** Writing a token: over its row, or as a new row. */
  function Write(rows: Rows, k: Key, e: Entry): Rows
    requires e.id.Some? ==> e.id.value < |rows|
  {
    match e.id
    case Some(i) => rows[i := Row(k, e.t)]
    case None => rows + [Row(k, e.t)]
  }

  lemma {:induction false} KeyByIff(rows: Rows, k: Key)
    ensures k in KeyBy(rows) <==> exists i :: 0 <= i < |rows| && rows[i].key == k
  {
    if rows != [] {
      var n := |rows| - 1;
      KeyByIff(rows[..n], k);
      if exists i :: 0 <= i < n && rows[i].key == k {
        var i :| 0 <= i < n && rows[i].key == k;
        assert rows[..n][i].key == k;
      }
    }
  }

  lemma {:induction false} KeyById(rows: Rows, k: Key)
    requires k in KeyBy(rows)
    ensures KeyBy(rows)[k].id.Some? && KeyBy(rows)[k].id.value < |rows| && rows[KeyBy(rows)[k].id.value].key == k
  {
    var n := |rows| - 1;
    if rows[n].key != k { KeyById(rows[..n], k); }
  }

  /** Overwriting a row is overwriting its dictionary entry. */
  lemma {:induction false} KeyByUpdate(rows: Rows, i: nat, t: Owned)
    requires i < |rows| && OneRowPerToken(rows)
    ensures KeyBy(rows[i := Row(rows[i].key, t)]) == KeyBy(rows)[rows[i].key := Entry(Some(i), t)]
  {
    var n := |rows| - 1;
    var k := rows[i].key;
    if i == n {
      assert rows[i := Row(k, t)][..n] == rows[..n];
    } else {
      KeyByUpdate(rows[..n], i, t);
      assert rows[i := Row(k, t)][..n] == rows[..n][i := Row(k, t)];
      assert rows[n].key != k;
    }
  }

  lemma TokensOfUpdate(entries: map<Key, Entry>, k: Key, e: Entry)
    ensures TokensOf(entries[k := e]) == TokensOf(entries)[k := e.t]
  {
  }

  lemma WriteOver(rows: Rows, k: Key, i: nat, t: Owned)
    requires OneRowPerToken(rows) && i < |rows| && rows[i].key == k
    ensures OneRowPerToken(rows[i := Row(k, t)]) && Extends(rows, rows[i := Row(k, t)])
    ensures KeyBy(rows[i := Row(k, t)]) == KeyBy(rows)[k := Entry(Some(i), t)]
  {
    KeyByUpdate(rows, i, t);
  }

  lemma WriteNew(rows: Rows, k: Key, t: Owned)
    requires OneRowPerToken(rows) && k !in KeyBy(rows)
    ensures OneRowPerToken(rows + [Row(k, t)]) && Extends(rows, rows + [Row(k, t)])
    ensures KeyBy(rows + [Row(k, t)]) == KeyBy(rows)[k := Entry(Some(|rows|), t)]
  {
    var after := rows + [Row(k, t)];
    assert after[..|rows|] == rows && after[|rows|] == Row(k, t);
    NewKeyUnique(rows, k, t);
  }

  lemma NewKeyUnique(rows: Rows, k: Key, t: Owned)
    requires OneRowPerToken(rows) && k !in KeyBy(rows)
    ensures OneRowPerToken(rows + [Row(k, t)])
  {
    KeyByIff(rows, k);
    assert forall i :: 0 <= i < |rows| ==> rows[i].key != k;
  }

  lemma PlacedAfter(rows: Rows, after: Rows, entries: map<Key, Entry>, todo: set<Key>, k: Key)
    requires Placed(rows, entries, todo) && Extends(rows, after)
    requires KeyBy(after).Keys == KeyBy(rows).Keys + {k}
    ensures Placed(after, entries, todo - {k})
  {
    forall x | x in todo - {k} && x in entries
      ensures match entries[x].id { case Some(i) => i < |after| && after[i].key == x case None => x !in KeyBy(after) }
    {
      assert x in todo;
    }
  }

  lemma PlacedWrite(rows: Rows, entries: map<Key, Entry>, todo: set<Key>, k: Key)
    requires OneRowPerToken(rows) && k in todo && todo <= entries.Keys && Placed(rows, entries, todo)
    ensures entries[k].id.Some? ==> entries[k].id.value < |rows|
    ensures var after := Write(rows, k, entries[k]);
            && OneRowPerToken(after) && Extends(rows, after) && Placed(after, entries, todo - {k})
            && TokensOf(KeyBy(after)) == TokensOf(KeyBy(rows))[k := entries[k].t]
  {
    var e := entries[k];
    var after, id;
    if e.id.Some? {
      id := e.id.value;
      after := rows[id := Row(k, e.t)];
      WriteOver(rows, k, id, e.t);
    } else {
      id := |rows|;
      after := rows + [Row(k, e.t)];
      WriteNew(rows, k, e.t);
    }
    assert after == Write(rows, k, e);
    TokensOfUpdate(KeyBy(rows), k, Entry(Some(id), e.t));
    PlacedAfter(rows, after, entries, todo, k);
  }

  lemma ExtendsTransitive(a: Rows, b: Rows, c: Rows)
    requires Extends(a, b) && Extends(b, c)
    ensures Extends(a, c)
  {
  }

  /** One turn of the upsert loop. */
  lemma UpsertOne(rows: Rows, current: Rows, entries: map<Key, Entry>, todo: set<Key>, k: Key)
    requires OneRowPerToken(current) && Extends(rows, current)
    requires k in todo && todo <= entries.Keys && Placed(current, entries, todo)
    requires TokensOf(KeyBy(current)) == TokensOf(KeyBy(rows)) + TokensOf(entries - todo)
    ensures entries[k].id.Some? ==> entries[k].id.value < |current|
    ensures var after := Write(current, k, entries[k]);
            && OneRowPerToken(after) && Extends(rows, after) && Placed(after, entries, todo - {k})
            && TokensOf(KeyBy(after)) == TokensOf(KeyBy(rows)) + TokensOf(entries - (todo - {k}))
  {
    PlacedWrite(current, entries, todo, k);
    MergeOne(TokensOf(KeyBy(rows)), entries, todo, k);
    ExtendsTransitive(rows, current, Write(current, k, entries[k]));
  }

  lemma MergeOne(base: Tokens, entries: map<Key, Entry>, todo: set<Key>, k: Key)
    requires k in todo && todo <= entries.Keys
    ensures (base + TokensOf(entries - todo))[k := entries[k].t] == base + TokensOf(entries - (todo - {k}))
  {
  }

  /** The handler's entries fit the table they were loaded from. */
  lemma EntriesPlaced(rows: Rows, ms: seq<Msg>, entries: map<Key, Entry>)
    requires KeepsIds(Slice(KeyBy(rows), ms), entries)
    requires forall k :: k in entries && k !in Slice(KeyBy(rows), ms) ==> Mentioned(ms, k)
    ensures Placed(rows, entries, entries.Keys)
  {
    forall k | k in entries
      ensures match entries[k].id { case Some(i) => i < |rows| && rows[i].key == k case None => k !in KeyBy(rows) }
    {
      if k in KeyBy(rows) {
        KeyById(rows, k);
        assert k in Slice(KeyBy(rows), ms);
      } else {
        assert k !in Slice(KeyBy(rows), ms);
      }
    }
  }

  lemma SliceOfEntries(entries: map<Key, Entry>, ms: seq<Msg>)
    ensures TokensOf(Slice(entries, ms)) == Slice(TokensOf(entries), ms)
  {
  }

  // ----- a batch refines the fold -----

  ghost predicate Agrees(db: Tokens, before: seq<Activity>, ms: seq<Msg>, all: Book, part: Book)
  {
    && all.tokens == db + part.tokens
    && all.acts == before + part.acts
    && (forall k :: k in all.tokens && Mentioned(ms, k) ==> k in part.tokens)
  }

  lemma TokensAgree(db: Tokens, all: Tokens, part: Tokens, m: Msg)
    requires all == db + part && (KeyOf(m) in all ==> KeyOf(m) in part)
    ensures TokensAfter(all, m) == db + TokensAfter(part, m) && ActivityOf(all, m) == ActivityOf(part, m)
    ensures TokensAfter(all, m).Keys - all.Keys == TokensAfter(part, m).Keys - part.Keys
  {
  }

  lemma ApplyAgrees(tracked: set<Address>, db: Tokens, before: seq<Activity>, ms: seq<Msg>, all: Book, part: Book, m: Msg)
    requires Agrees(db, before, ms, all, part) && m in ms
    ensures match Apply(tracked, all, m)
            case Err(x) => Apply(tracked, part, m) == Err(x)
            case Ok(all1) => Apply(tracked, part, m).Ok? && Agrees(db, before, ms, all1, Apply(tracked, part, m).value)
  {
    assert Mentioned(ms, KeyOf(m));
    TokensAgree(db, all.tokens, part.tokens, m);
    var act := ActivityOf(all.tokens, m);
    assert all.acts + [act] == before + (part.acts + [act]);
    forall k | k in TokensAfter(all.tokens, m) && Mentioned(ms, k) ensures k in TokensAfter(part.tokens, m) {
      assert k in all.tokens || k in TokensAfter(all.tokens, m).Keys - all.tokens.Keys;
    }
  }

  lemma {:induction false} ApplyAllAgrees(
      tracked: set<Address>, db: Tokens, before: seq<Activity>, ms: seq<Msg>, all: Book, part: Book, todo: seq<Msg>)
    requires Agrees(db, before, ms, all, part) && forall m :: m in todo ==> m in ms
    ensures match ApplyAll(tracked, all, todo)
            case Err(x) => ApplyAll(tracked, part, todo) == Err(x)
            case Ok(all1) => ApplyAll(tracked, part, todo).Ok? && Agrees(db, before, ms, all1, ApplyAll(tracked, part, todo).value)
    decreases |todo|
  {
    if todo != [] {
      ApplyAgrees(tracked, db, before, ms, all, part, todo[0]);
      if Apply(tracked, all, todo[0]).Ok? {
        ApplyAllAgrees(tracked, db, before, ms, Apply(tracked, all, todo[0]).value, Apply(tracked, part, todo[0]).value, todo[1..]);
      }
    }
  }

  function Batch(tracked: set<Address>, b: Book, ms: seq<Msg>): Result<Book, Error>
  {
    match ApplyAll(tracked, Book(Slice(b.tokens, ms), []), ms)
    case Err(x) => Err(x)
    case Ok(part) => Ok(Book(b.tokens + part.tokens, b.acts + part.acts))
  }

  /** Loading only the mentioned tokens and merging them back is the fold over the whole table. */
  lemma BatchRefinesFold(tracked: set<Address>, b: Book, ms: seq<Msg>)
    ensures Batch(tracked, b, ms) == ApplyAll(tracked, b, ms)
  {
    assert b.tokens + Slice(b.tokens, ms) == b.tokens;
    assert b.acts + [] == b.acts;
    ApplyAllAgrees(tracked, b.tokens, b.acts, ms, b, Book(Slice(b.tokens, ms), []), ms);
  }

  lemma {:induction false} MentionedOnly(tracked: set<Address>, b: Book, ms: seq<Msg>)
    requires ApplyAll(tracked, b, ms).Ok?
    ensures forall k :: k in ApplyAll(tracked, b, ms).value.tokens && k !in b.tokens ==> Mentioned(ms, k)
    decreases |ms|
  {
    if ms != [] {
      var b1 := Apply(tracked, b, ms[0]).value;
      MentionedOnly(tracked, b1, ms[1..]);
      forall k | k in ApplyAll(tracked, b, ms).value.tokens && k !in b.tokens ensures Mentioned(ms, k) {
        if k in b1.tokens {
          assert KeyOf(ms[0]) == k && ms[0] in ms;
        } else {
          var m :| m in ms[1..] && KeyOf(m) == k;
          assert m in ms;
        }
      }
    }
  }

  lemma {:induction false} ApplyAllConcat(tracked: set<Address>, b: Book, x: seq<Msg>, y: seq<Msg>)
    ensures ApplyAll(tracked, b, x + y) ==
            match ApplyAll(tracked, b, x) { case Err(e) => Err(e) case Ok(b1) => ApplyAll(tracked, b1, y) }
    decreases |x|
  {
    if x == [] {
      assert x + y == y;
    } else {
      assert (x + y)[0] == x[0] && (x + y)[1..] == x[1..] + y;
      if Apply(tracked, b, x[0]).Ok? {
        ApplyAllConcat(tracked, Apply(tracked, b, x[0]).value, x[1..], y);
      }
    }
  }

  function RunBatches(tracked: set<Address>, b: Book, batches: seq<seq<Msg>>): Result<Book, Error>
    decreases |batches|
  {
    if batches == [] then Ok(b)
    else
      match Batch(tracked, b, batches[0])
      case Err(x) => Err(x)
      case Ok(b1) => RunBatches(tracked, b1, batches[1..])
  }

  /** However the log is cut into batches, tokens and activities end as one fold over the whole log. */
  lemma {:induction false} BatchesRefineFold(tracked: set<Address>, b: Book, batches: seq<seq<Msg>>)
    ensures RunBatches(tracked, b, batches) == ApplyAll(tracked, b, Flatten(batches))
    decreases |batches|
  {
    if batches != [] {
      BatchRefinesFold(tracked, b, batches[0]);
      ApplyAllConcat(tracked, b, batches[0], Flatten(batches[1..]));
      if Batch(tracked, b, batches[0]).Ok? {
        BatchesRefineFold(tracked, Batch(tracked, b, batches[0]).value, batches[1..]);
      }
    }
  }

  // ----- chain of custody -----

  predicate GivesOwner(m: Msg) { m.action == Mint || m.action == TransferNft || m.action == SendNft }
  predicate Uses(m: Msg) { m.action == TransferNft || m.action == SendNft || m.action == Burn }

  /** The `to` of the last mint or transfer of a token. */
  function Holder(ms: seq<Msg>, k: Key): Option<Address>
  {
    if ms == [] then None
    else
      var last := ms[|ms| - 1];
      if (last.contract, last.tokenId) == k && GivesOwner(last) then last.to else Holder(ms[..|ms| - 1], k)
  }

  predicate Minted(ms: seq<Msg>, k: Key)
  {
    exists i :: 0 <= i < |ms| && ms[i].action == Mint && KeyOf(ms[i]) == k
  }

  /** Whether the last mint or burn of a token is a burn. */
  predicate Burned(ms: seq<Msg>, k: Key)
  {
    ms != [] &&
    var last := ms[|ms| - 1];
    if (last.contract, last.tokenId) == k && (last.action == Mint || last.action == Burn) then last.action == Burn
    else Burned(ms[..|ms| - 1], k)
  }

  /** The height of the last mint, transfer or burn of a token. */
  function LastHeight(ms: seq<Msg>, k: Key): int
  {
    if ms == [] then 0
    else
      var last := ms[|ms| - 1];
      if (last.contract, last.tokenId) == k && last.action != Other then last.height else LastHeight(ms[..|ms| - 1], k)
  }

  /** The activity that message `i` should leave. */
  function Expected(ms: seq<Msg>, i: nat): Activity
    requires i < |ms|
  {
    var m := ms[i];
    Activity(m.action, (m.contract, m.tokenId),
             if Uses(m) then Holder(ms[..i], (m.contract, m.tokenId)) else None,
             if GivesOwner(m) then m.to else None,
             m.height)
  }

  /** A log of tracked contracts, ordered by height, that mints every token before it uses it. */
  ghost predicate WellFormed(tracked: set<Address>, ms: seq<Msg>)
  {
    && Sorted(ms, Height)
    && (forall i :: 0 <= i < |ms| ==> ms[i].contract in tracked)
    && (forall i :: 0 <= i < |ms| && Uses(ms[i]) ==> Minted(ms[..i], KeyOf(ms[i])))
  }

  ghost predicate Custody(b: Book, ms: seq<Msg>)
  {
    && |b.acts| == |ms|
    && (forall i: nat :: i < |ms| ==> b.acts[i] == Expected(ms, i))
    && (forall k :: k in b.tokens <==> Minted(ms, k))
    && (forall k :: k in b.tokens ==> b.tokens[k] == Owned(Holder(ms, k), LastHeight(ms, k), Burned(ms, k)))
  }

  lemma {:induction false} LastHeightBound(ms: seq<Msg>, k: Key, h: int)
    requires Minted(ms, k) && forall i :: 0 <= i < |ms| ==> ms[i].height <= h
    ensures LastHeight(ms, k) <= h
  {
    var n := |ms| - 1;
    if !(KeyOf(ms[n]) == k && ms[n].action != Other) {
      var i :| 0 <= i < |ms| && ms[i].action == Mint && KeyOf(ms[i]) == k;
      assert ms[..n][i] == ms[i];
      LastHeightBound(ms[..n], k, h);
    }
  }

  lemma MintedSnoc(ms: seq<Msg>, m: Msg, k: Key)
    ensures Minted(ms + [m], k) <==> Minted(ms, k) || (m.action == Mint && KeyOf(m) == k)
  {
    if Minted(ms, k) {
      var i :| 0 <= i < |ms| && ms[i].action == Mint && KeyOf(ms[i]) == k;
      assert (ms + [m])[i] == ms[i];
    }
    if m.action == Mint && KeyOf(m) == k {
      assert (ms + [m])[|ms|] == m;
    }
  }

  lemma ExpectedSnoc(ms: seq<Msg>, m: Msg)
    ensures forall i: nat :: i < |ms| ==> Expected(ms + [m], i) == Expected(ms, i)
  {
    forall i: nat | i < |ms| ensures Expected(ms + [m], i) == Expected(ms, i) {
      assert (ms + [m])[..i] == ms[..i];
    }
  }

  /** The table after one more message, for a message that the height guard lets through. */
  lemma TokenAfter(tracked: set<Address>, b: Book, ms: seq<Msg>, m: Msg, k: Key)
    requires Custody(b, ms) && m.contract in tracked && (Uses(m) ==> KeyOf(m) in b.tokens) && Fresh(b.tokens, m)
    ensures Apply(tracked, b, m).Ok?
    ensures var b1 := Apply(tracked, b, m).value;
            && (k in b1.tokens <==> k in b.tokens || (m.action == Mint && KeyOf(m) == k))
            && (k in b1.tokens ==>
                  b1.tokens[k] == Owned(Holder(ms + [m], k), LastHeight(ms + [m], k), Burned(ms + [m], k)))
  {
    assert (ms + [m])[..|ms|] == ms && (ms + [m])[|ms|] == m;
  }

  lemma CustodyTokens(tracked: set<Address>, b: Book, ms: seq<Msg>, m: Msg)
    requires Custody(b, ms) && m.contract in tracked && (Uses(m) ==> Minted(ms, KeyOf(m)))
    requires forall i :: 0 <= i < |ms| ==> ms[i].height <= m.height
    ensures Apply(tracked, b, m).Ok?
    ensures var b1 := Apply(tracked, b, m).value;
            && (forall k :: k in b1.tokens <==> Minted(ms + [m], k))
            && (forall k :: k in b1.tokens ==>
                  b1.tokens[k] == Owned(Holder(ms + [m], k), LastHeight(ms + [m], k), Burned(ms + [m], k)))
  {
    if KeyOf(m) in b.tokens { LastHeightBound(ms, KeyOf(m), m.height); }
    TokenAfter(tracked, b, ms, m, KeyOf(m));
    var b1 := Apply(tracked, b, m).value;
    forall k
      ensures k in b1.tokens <==> Minted(ms + [m], k)
      ensures k in b1.tokens ==>
                b1.tokens[k] == Owned(Holder(ms + [m], k), LastHeight(ms + [m], k), Burned(ms + [m], k))
    {
      TokenAfter(tracked, b, ms, m, k);
      MintedSnoc(ms, m, k);
    }
  }

  lemma CustodyStep(tracked: set<Address>, b: Book, ms: seq<Msg>, m: Msg)
    requires Custody(b, ms) && m.contract in tracked && (Uses(m) ==> Minted(ms, KeyOf(m)))
    requires forall i :: 0 <= i < |ms| ==> ms[i].height <= m.height
    ensures Apply(tracked, b, m).Ok? && Custody(Apply(tracked, b, m).value, ms + [m])
  {
    CustodyTokens(tracked, b, ms, m);
    ExpectedSnoc(ms, m);
    assert (ms + [m])[..|ms|] == ms;
    var b1 := Apply(tracked, b, m).value;
    assert b1.acts[|ms|] == Expected(ms + [m], |ms|);
  }

  lemma WellFormedFront(tracked: set<Address>, ms: seq<Msg>)
    requires ms != [] && WellFormed(tracked, ms)
    ensures WellFormed(tracked, ms[..|ms| - 1])
    ensures forall m :: m in ms[..|ms| - 1] ==> m.height <= ms[|ms| - 1].height
  {
    var n := |ms| - 1;
    assert forall i :: 0 <= i < n ==> ms[..n][i] == ms[i] && ms[..n][..i] == ms[..i];
    forall m | m in ms[..n] ensures m.height <= ms[n].height {
      var i :| 0 <= i < n && ms[..n][i] == m;
      assert Height(ms[i]) <= Height(ms[n]);
    }
  }

  lemma {:induction false} FoldHasCustody(tracked: set<Address>, ms: seq<Msg>)
    requires WellFormed(tracked, ms)
    ensures ApplyAll(tracked, Book(map[], []), ms).Ok? && Custody(ApplyAll(tracked, Book(map[], []), ms).value, ms)
  {
    if ms != [] {
      var n := |ms| - 1;
      var front, m := ms[..n], ms[n];
      WellFormedFront(tracked, ms);
      FoldHasCustody(tracked, front);
      var b := ApplyAll(tracked, Book(map[], []), front).value;
      assert ms == front + [m];
      CustodyStep(tracked, b, front, m) by {
        assert KeyOf(ms[n]) == KeyOf(m) && ms[..n] == front;
        assert forall i :: 0 <= i < |front| ==> front[i] in front;
      }
      ApplyAllSnoc(tracked, Book(map[], []), front, m);
    }
  }

  lemma ApplyAllSnoc(tracked: set<Address>, b: Book, front: seq<Msg>, m: Msg)
    requires ApplyAll(tracked, b, front).Ok?
    ensures ApplyAll(tracked, b, front + [m]) == Apply(tracked, ApplyAll(tracked, b, front).value, m)
  {
    ApplyAllConcat(tracked, b, front, [m]);
    assert [m][1..] == [];
    var r := Apply(tracked, ApplyAll(tracked, b, front).value, m);
    assert r.Ok? ==> ApplyAll(tracked, r.value, []) == r;
  }

  /**
   Chain of custody: for any cut of a well-formed log into batches, every transfer and burn activity names as `from`
   the `to` of the token's previous mint or transfer, and each minted token is stored with its last holder, the
   height of its last event, and burned exactly when it was burned after its last mint.
   */
  lemma ChainOfCustody(tracked: set<Address>, batches: seq<seq<Msg>>)
    requires WellFormed(tracked, Flatten(batches))
    ensures RunBatches(tracked, Book(map[], []), batches).Ok?
    ensures Custody(RunBatches(tracked, Book(map[], []), batches).value, Flatten(batches))
  {
    BatchesRefineFold(tracked, Book(map[], []), batches);
    FoldHasCustody(tracked, Flatten(batches));
  }

  /** The height stored for a token never goes down. */
  lemma ApplyHeightMonotone(tracked: set<Address>, b: Book, m: Msg, k: Key)
    requires Apply(tracked, b, m).Ok? && k in b.tokens
    ensures k in Apply(tracked, b, m).value.tokens
    ensures b.tokens[k].lastUpdated <= Apply(tracked, b, m).value.tokens[k].lastUpdated
  {
  }

  lemma {:induction false} HeightMonotone(tracked: set<Address>, b: Book, ms: seq<Msg>, k: Key)
    requires ApplyAll(tracked, b, ms).Ok? && k in b.tokens
    ensures k in ApplyAll(tracked, b, ms).value.tokens
    ensures b.tokens[k].lastUpdated <= ApplyAll(tracked, b, ms).value.tokens[k].lastUpdated
    decreases |ms|
  {
    if ms != [] {
      ApplyHeightMonotone(tracked, b, ms[0], k);
      HeightMonotone(tracked, Apply(tracked, b, ms[0]).value, ms[1..], k);
    }
  }

  /** Messages of contracts that are not tracked change nothing. */
  lemma {:induction false} UntrackedIgnored(tracked: set<Address>, b: Book, ms: seq<Msg>)
    ensures ApplyAll(tracked, b, ms) == ApplyAll(tracked, b, Select(ms, (m: Msg) => m.contract in tracked))
    decreases |ms|
  {
    if ms != [] {
      var p := (m: Msg) => m.contract in tracked;
      if p(ms[0]) {
        assert Select(ms, p)[1..] == Select(ms[1..], p);
        if Apply(tracked, b, ms[0]).Ok? {
          UntrackedIgnored(tracked, Apply(tracked, b, ms[0]).value, ms[1..]);
        }
      } else {
        UntrackedIgnored(tracked, b, ms[1..]);
      }
    }
  }

  // ----- when a log goes through -----

  /** Every burn of a tracked contract finds its token, in the table or minted before. */
  ghost predicate BurnsFindTokens(tracked: set<Address>, tokens: Tokens, ms: seq<Msg>)
  {
    forall i :: 0 <= i < |ms| && ms[i].action == Burn && ms[i].contract in tracked ==>
      || (ms[i].contract, ms[i].tokenId) in tokens
      || exists j :: 0 <= j < i && ms[j].action == Mint && ms[j].contract == ms[i].contract && ms[j].tokenId == ms[i].tokenId
  }

  lemma BurnsTail(tracked: set<Address>, b: Book, ms: seq<Msg>)
    requires ms != [] && Apply(tracked, b, ms[0]).Ok?
    requires ms[0].action == Burn && ms[0].contract in tracked ==> (ms[0].contract, ms[0].tokenId) in b.tokens
    ensures BurnsFindTokens(tracked, b.tokens, ms) <==> BurnsFindTokens(tracked, Apply(tracked, b, ms[0]).value.tokens, ms[1..])
  {
    var b1, rest := Apply(tracked, b, ms[0]).value, ms[1..];
    forall k: Key | k.0 in tracked
      ensures k in b1.tokens <==> k in b.tokens || (ms[0].action == Mint && ms[0].contract == k.0 && ms[0].tokenId == k.1) {}
    if BurnsFindTokens(tracked, b.tokens, ms) {
      forall i | 0 <= i < |rest| && rest[i].action == Burn && rest[i].contract in tracked && (rest[i].contract, rest[i].tokenId) !in b1.tokens
        ensures exists j :: 0 <= j < i && rest[j].action == Mint && rest[j].contract == rest[i].contract && rest[j].tokenId == rest[i].tokenId
      {
        assert ms[i + 1] == rest[i];
        var j :| 0 <= j < i + 1 && ms[j].action == Mint && ms[j].contract == rest[i].contract && ms[j].tokenId == rest[i].tokenId;
        assert rest[j - 1] == ms[j];
      }
    }
    if BurnsFindTokens(tracked, b1.tokens, rest) {
      forall i | 0 < i < |ms| && ms[i].action == Burn && ms[i].contract in tracked && (ms[i].contract, ms[i].tokenId) !in b.tokens
        ensures exists j :: 0 <= j < i && ms[j].action == Mint && ms[j].contract == ms[i].contract && ms[j].tokenId == ms[i].tokenId
      {
        assert rest[i - 1] == ms[i];
        if (ms[i].contract, ms[i].tokenId) !in b1.tokens {
          var j :| 0 <= j < i - 1 && rest[j].action == Mint && rest[j].contract == ms[i].contract && rest[j].tokenId == ms[i].tokenId;
          assert ms[j + 1] == rest[j];
        }
      }
    }
  }

  /** A log goes through, in any order of heights, if and only if every burn of a tracked contract finds its token. */
  lemma {:induction false} ProcessSucceedsIff(tracked: set<Address>, b: Book, ms: seq<Msg>)
    ensures ApplyAll(tracked, b, ms).Ok? <==> BurnsFindTokens(tracked, b.tokens, ms)
    ensures ApplyAll(tracked, b, ms).Err? ==> ApplyAll(tracked, b, ms).error == TokenNotFound
    decreases |ms|
  {
    if ms != [] && Apply(tracked, b, ms[0]).Ok? {
      BurnsTail(tracked, b, ms);
      ProcessSucceedsIff(tracked, Apply(tracked, b, ms[0]).value, ms[1..]);
    }
  }

  /** An activity is linked if and only if its token has a row, and then to that row. */
  lemma LinkedIffStored(rows: Rows, acts: seq<Activity>, i: nat)
    requires OneRowPerToken(rows) && i < |acts|
    ensures forall n: nat :: n < |rows| ==> (LinksTo(rows, acts)[i] == Some(n) <==> rows[n].key == acts[i].key)
    ensures LinksTo(rows, acts)[i] == None <==> forall n: nat :: n < |rows| ==> rows[n].key != acts[i].key
  {
    KeyByIff(rows, acts[i].key);
    if acts[i].key in KeyBy(rows) { KeyById(rows, acts[i].key); }
  }
}
