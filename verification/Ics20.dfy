/**
 ICS-20 transfers: send and receive rows, and the status of each send. The messages
 of a batch are applied as sends, receives, acknowledgements, timeouts.
 */
module Ics20 {
  import opened Wrappers
  import opened SortBy
  import opened HeightLog
  import opened Denom

  type Key = string

  datatype Status = Ongoing | AckSuccess | AckError | TimedOut

  /** A row of `ibc_ics20`; `data` stands for sender, receiver, amount and memo. */
  datatype Row = Row(
    isSend: bool, key: Key, channel: string, data: string, denom: string, status: Status,
    startTime: Option<int>, finishTime: Option<int>)

  /** The attributes of a `fungible_token_packet` event. */
  datatype PacketEvent = PacketEvent(data: string, denom: Option<string>, success: bool)

  /**
   `Recv` carries the packet event of its message, if any, and whether no denomination trace was emitted.
   `Ack` carries, for each packet event of its message, whether it has a success attribute.
   */
  datatype Message =
    | Send(key: Key, srcChannel: string, data: string, denom: string, time: int)
    | Recv(key: Key, dstPort: string, dstChannel: string, packet: Option<PacketEvent>, isSource: bool, time: int)
    | Ack(key: Key, hasSuccess: seq<bool>, time: int)
    | Timeout(key: Key, time: int)

  datatype Error = NoPacketEvent | NoDenom | NotEnoughEvents | SendNotFound

  /** The table; a row's position is its id. */
  type Table = seq<Row>

  function NewSend(m: Message): Row
    requires m.Send?
  {
    Row(true, m.key, m.srcChannel, m.data, m.denom, Ongoing, Some(m.time), None)
  }

  function NewRecv(m: Message): Result<Row, Error>
    requires m.Recv?
  {
    if m.packet.None? then Err(NoPacketEvent)
    else if m.packet.value.denom.None? then Err(NoDenom)
    else
      var p := m.packet.value;
      Ok(Row(false, m.key, m.dstChannel, p.data, ParseDenom(p.denom.value, m.isSource, m.dstPort, m.dstChannel),
             if p.success then AckSuccess else AckError, None, Some(m.time)))
  }

  // ----- the four handlers -----

  function NewSends(ms: seq<Message>): seq<Row>
  {
    if ms == [] then [] else (if ms[0].Send? then [NewSend(ms[0])] else []) + NewSends(ms[1..])
  }

  function NewRecvs(ms: seq<Message>): Result<seq<Row>, Error>
  {
    if ms == [] then Ok([])
    else if !ms[0].Recv? then NewRecvs(ms[1..])
    else
      match NewRecv(ms[0])
      case Err(x) => Err(x)
      case Ok(row) =>
        match NewRecvs(ms[1..])
        case Err(x) => Err(x)
        case Ok(rows) => Ok([row] + rows)
  }

  /** The id of the send row of a key; `keyBy` keeps the last one. */
  function FindSend(t: Table, key: Key): (r: Option<nat>)
    ensures r.Some? ==> r.value < |t| && t[r.value].isSend && t[r.value].key == key
    ensures r.None? ==> forall i :: 0 <= i < |t| && t[i].isSend ==> t[i].key != key
  {
    if t == [] then None
    else
      var n := |t| - 1;
      if t[n].isSend && t[n].key == key then Some(n) else FindSend(t[..n], key)
  }

  /** What an acknowledgement or a timeout says about the send with its key. */
  datatype Finish = Finish(key: Key, time: int)

  function Finished(row: Row, f: Finish, status: Status): Row
  {
    row.(status := status, finishTime := Some(f.time))
  }

  function Mark(t: Table, fs: seq<Finish>, status: Status): Result<Table, Error>
    decreases |fs|
  {
    if fs == [] then Ok(t)
    else
      match FindSend(t, fs[0].key)
      case None => Err(SendNotFound)
      case Some(i) => Mark(t[i := Finished(t[i], fs[0], status)], fs[1..], status)
  }

  /** The messages of a batch that set `status`. */
  predicate Sets(m: Message, status: Status)
  {
    match m
    case Ack(_, hasSuccess, _) => |hasSuccess| == 2 && status == (if hasSuccess[1] then AckSuccess else AckError)
    case Timeout(_, _) => status == TimedOut
    case _ => false
  }

  function Finishes(ms: seq<Message>, status: Status): seq<Finish>
  {
    if ms == [] then []
    else (if Sets(ms[0], status) then [Finish(ms[0].key, ms[0].time)] else []) + Finishes(ms[1..], status)
  }

  predicate BadAck(m: Message) { m.Ack? && |m.hasSuccess| != 2 }

  function MarkAcks(t: Table, ms: seq<Message>): Result<Table, Error>
  {
    if exists i :: 0 <= i < |ms| && BadAck(ms[i]) then Err(NotEnoughEvents)
    else
      match Mark(t, Finishes(ms, AckSuccess), AckSuccess)
      case Err(x) => Err(x)
      case Ok(t1) => Mark(t1, Finishes(ms, AckError), AckError)
  }

  function Batch(t: Table, ms: seq<Message>): Result<Table, Error>
  {
    match NewRecvs(ms)
    case Err(x) => Err(x)
    case Ok(recvs) =>
      match MarkAcks(t + NewSends(ms) + recvs, ms)
      case Err(x) => Err(x)
      case Ok(t1) => Mark(t1, Finishes(ms, TimedOut), TimedOut)
  }

  /** The rows of a dictionary written back under their ids. */
  function WriteBack(t: Table, dict: map<Key, (nat, Row)>): (r: Table)
    ensures |r| == |t|
  {
    seq(|t|, i requires 0 <= i < |t| => if t[i].key in dict && dict[t[i].key].0 == i then dict[t[i].key].1 else t[i])
  }

  /** Each entry is the send row of its key, possibly already changed in place. */
  ghost predicate Keyed(t: Table, dict: map<Key, (nat, Row)>)
  {
    forall k :: k in dict ==> FindSend(t, k) == Some(dict[k].0) && dict[k].1.isSend && dict[k].1.key == k
  }

  /** The dictionary has an entry for each listed key that has a send row. */
  ghost predicate Covers(t: Table, dict: map<Key, (nat, Row)>, msgs: seq<Finish>)
  {
    forall f :: f in msgs ==> (f.key in dict <==> FindSend(t, f.key).Some?)
  }

  lemma WriteBackStable(t: Table, dict: map<Key, (nat, Row)>, key: Key)
    requires Keyed(t, dict)
    ensures FindSend(WriteBack(t, dict), key) == FindSend(t, key)
  {
    FindSendStable(t, WriteBack(t, dict), key);
  }

  lemma WriteBackUpdate(t: Table, dict: map<Key, (nat, Row)>, f: Finish, status: Status)
    requires Keyed(t, dict) && f.key in dict
    ensures var (id, row) := dict[f.key];
            var before := WriteBack(t, dict);
            && before[id] == row
            && WriteBack(t, dict[f.key := (id, Finished(row, f, status))]) == before[id := Finished(row, f, status)]
  {
    var (id, row) := dict[f.key];
    var dict1 := dict[f.key := (id, Finished(row, f, status))];
    forall i | 0 <= i < |t| && i != id ensures WriteBack(t, dict1)[i] == WriteBack(t, dict)[i] {
      if t[i].key in dict && dict[t[i].key].0 == i {
        assert t[i].key != f.key;
      }
    }
  }

  /** One turn of the loop over the dictionary is one turn of the fold over the table. */
  lemma MarkStep(t: Table, dict: map<Key, (nat, Row)>, f: Finish, rest: seq<Finish>, status: Status)
    requires Keyed(t, dict) && (f.key in dict <==> FindSend(t, f.key).Some?)
    ensures f.key !in dict ==> Mark(WriteBack(t, dict), [f] + rest, status) == Err(SendNotFound)
    ensures f.key in dict ==>
              var dict1 := dict[f.key := (dict[f.key].0, Finished(dict[f.key].1, f, status))];
              Keyed(t, dict1) && Mark(WriteBack(t, dict), [f] + rest, status) == Mark(WriteBack(t, dict1), rest, status)
  {
    WriteBackStable(t, dict, f.key);
    assert ([f] + rest)[0] == f && ([f] + rest)[1..] == rest;
    if f.key in dict {
      WriteBackUpdate(t, dict, f, status);
    }
  }

  class CrawlIbcIcs20 {
    var table: Table

    /** The send rows of the given keys, keyed by sequence key. */
    static method KeyBySequence(table: Table, msgs: seq<Finish>) returns (dict: map<Key, (nat, Row)>)
      ensures Keyed(table, dict) && WriteBack(table, dict) == table && Covers(table, dict, msgs)
    {
      dict := map[];
      var i := 0;
      while i < |table|
        invariant 0 <= i <= |table|
        invariant forall k :: k in dict ==> FindSend(table[..i], k) == Some(dict[k].0) && dict[k].1 == table[dict[k].0]
        invariant forall k :: k in dict ==> exists f :: f in msgs && f.key == k
        invariant forall f :: f in msgs ==> (f.key in dict <==> FindSend(table[..i], f.key).Some?)
      {
        assert table[..i + 1][..i] == table[..i] && table[..i + 1][i] == table[i];
        if table[i].isSend && exists f :: f in msgs && f.key == table[i].key {
          dict := dict[table[i].key := (i, table[i])];
        }
        i := i + 1;
      }
      assert table[..i] == table;
    }

    /** The loop that changes the dictionary entries in place, and the rows it leaves to write. */
    static method Refresh(table: Table, msgs: seq<Finish>, status: Status) returns (r: Result<Table, Error>)
      ensures r == Mark(table, msgs, status)
    {
      var dict := KeyBySequence(table, msgs);
      var i := 0;
      assert msgs[0..] == msgs;
      while i < |msgs|
        invariant 0 <= i <= |msgs|
        invariant Keyed(table, dict) && Covers(table, dict, msgs)
        invariant Mark(table, msgs, status) == Mark(WriteBack(table, dict), msgs[i..], status)
      {
        var msg := msgs[i];
        assert msg in msgs;
        assert msgs[i..] == [msg] + msgs[i + 1..];
        MarkStep(table, dict, msg, msgs[i + 1..], status);
        if msg.key !in dict {
          return Err(SendNotFound);
        }
        var (id, row) := dict[msg.key];
        dict := dict[msg.key := (id, Finished(row, msg, status))];
        i := i + 1;
      }
      return Ok(WriteBack(table, dict));
    }

    method UpdateOriginSendStatus(msgs: seq<Finish>, status: Status) returns (thrown: Option<Error>)
      modifies this
      ensures Mark(old(table), msgs, status) == (match thrown { case None => Ok(table) case Some(x) => Err(x) })
    {
      var r := Refresh(table, msgs, status);
      if r.Err? {
        return Some(r.error);
      }
      table := r.value;
      return None;
    }

    static method BuildSends(ms: seq<Message>) returns (rows: seq<Row>)
      ensures rows == NewSends(ms)
    {
      rows := [];
      var i := 0;
      while i < |ms|
        invariant 0 <= i <= |ms|
        invariant NewSends(ms) == rows + NewSends(ms[i..])
      {
        assert ms[i..][0] == ms[i] && ms[i..][1..] == ms[i + 1..];
        if ms[i].Send? {
          rows := rows + [NewSend(ms[i])];
        }
        i := i + 1;
      }
    }

    static method BuildRecvs(ms: seq<Message>) returns (r: Result<seq<Row>, Error>)
      ensures r == NewRecvs(ms)
    {
      var rows: seq<Row> := [];
      var i := 0;
      assert forall rest: seq<Row> :: [] + rest == rest;
      assert ms[0..] == ms;
      while i < |ms|
        invariant 0 <= i <= |ms|
        invariant NewRecvs(ms) == match NewRecvs(ms[i..]) { case Err(x) => Err(x) case Ok(rest) => Ok(rows + rest) }
      {
        assert ms[i..][0] == ms[i] && ms[i..][1..] == ms[i + 1..];
        if ms[i].Recv? {
          var row := NewRecv(ms[i]);
          if row.Err? {
            return Err(row.error);
          }
          assert forall rest: seq<Row> :: rows + ([row.value] + rest) == (rows + [row.value]) + rest;
          rows := rows + [row.value];
        }
        i := i + 1;
      }
      assert rows + [] == rows;
      return Ok(rows);
    }

    method HandleIcs20Recv(ms: seq<Message>) returns (thrown: Option<Error>)
      modifies this
      ensures match NewRecvs(ms)
              case Err(x) => thrown == Some(x)
              case Ok(rows) => thrown.None? && table == old(table) + rows
    {
      var rows := BuildRecvs(ms);
      if rows.Err? {
        return Some(rows.error);
      }
      table := table + rows.value;
      return None;
    }

    method HandleIcs20Send(ms: seq<Message>)
      modifies this
      ensures table == old(table) + NewSends(ms)
    {
      var rows := BuildSends(ms);
      table := table + rows;
    }

    method HandleIcs20Ack(ms: seq<Message>) returns (thrown: Option<Error>)
      modifies this
      ensures MarkAcks(old(table), ms) == (match thrown { case None => Ok(table) case Some(x) => Err(x) })
    {
      if exists i :: 0 <= i < |ms| && BadAck(ms[i]) {
        return Some(NotEnoughEvents);
      }
      thrown := UpdateOriginSendStatus(Finishes(ms, AckSuccess), AckSuccess);
      if thrown.None? {
        thrown := UpdateOriginSendStatus(Finishes(ms, AckError), AckError);
      }
    }

    /** One transaction over the messages of a height range; nothing is written when a handler throws. */
    method HandleBatch(ms: seq<Message>) returns (thrown: Option<Error>)
      modifies this
      ensures Batch(old(table), ms) == (match thrown { case None => Ok(table) case Some(x) => Err(x) })
      ensures thrown.Some? ==> table == old(table)
    {
      var saved := table;
      HandleIcs20Send(ms);
      thrown := HandleIcs20Recv(ms);
      if thrown.None? { thrown := HandleIcs20Ack(ms); }
      if thrown.None? { thrown := UpdateOriginSendStatus(Finishes(ms, TimedOut), TimedOut); }
      if thrown.Some? {
        table := saved;
      }
    }
  }

  lemma {:induction false} FindSendStable(a: Table, b: Table, key: Key)
    requires |a| == |b| && forall i :: 0 <= i < |a| ==> a[i].isSend == b[i].isSend && a[i].key == b[i].key
    ensures FindSend(a, key) == FindSend(b, key)
  {
    if a != [] { FindSendStable(a[..|a| - 1], b[..|b| - 1], key); }
  }

  // ----- what the log dictates -----

  predicate IsTerminal(m: Message) { m.Ack? || m.Timeout? }

  /** The acknowledgement or timeout of a key, if the log has one. */
  function Terminal(ms: seq<Message>, key: Key): (r: Option<Message>)
    ensures r.Some? ==> IsTerminal(r.value) && r.value.key == key && r.value in ms
    ensures r.None? ==> forall i :: 0 <= i < |ms| && IsTerminal(ms[i]) ==> ms[i].key != key
  {
    if ms == [] then None
    else if IsTerminal(ms[0]) && ms[0].key == key then Some(ms[0])
    else Terminal(ms[1..], key)
  }

  function StatusOf(m: Message): Status
    requires IsTerminal(m) && !BadAck(m)
  {
    match m
    case Ack(_, hasSuccess, _) => if hasSuccess[1] then AckSuccess else AckError
    case Timeout(_, _) => TimedOut
  }

  /** A send row once the messages `ms` have been seen; receive rows are left alone. */
  function After(row: Row, ms: seq<Message>): Row
  {
    if !row.isSend then row
    else
      match Terminal(ms, row.key)
      case None => row
      case Some(m) => if BadAck(m) then row else Finished(row, Finish(m.key, m.time), StatusOf(m))
  }

  function AfterAll(rows: seq<Row>, ms: seq<Message>): (r: seq<Row>)
    ensures |r| == |rows|
  {
    seq(|rows|, i requires 0 <= i < |rows| => After(rows[i], ms))
  }

  predicate IsSend(r: Row) { r.isSend }
  predicate IsRecv(r: Row) { !r.isSend }

  predicate Sent(ms: seq<Message>, key: Key)
  {
    exists i :: 0 <= i < |ms| && ms[i].Send? && ms[i].key == key
  }

  ghost predicate OneTerminalEach(ms: seq<Message>)
  {
    forall i, j :: 0 <= i < j < |ms| && IsTerminal(ms[i]) && IsTerminal(ms[j]) ==> ms[i].key != ms[j].key
  }

  ghost predicate AcksComplete(ms: seq<Message>)
  {
    forall i :: 0 <= i < |ms| ==> !BadAck(ms[i])
  }

  /**
   A well-formed packet log: one send per key, at most one acknowledgement or timeout per key and only after its
   send, and messages that carry the events the handlers look for.
   */
  ghost predicate WellFormed(ms: seq<Message>)
  {
    && (forall i, j :: 0 <= i < j < |ms| && ms[i].Send? && ms[j].Send? ==> ms[i].key != ms[j].key)
    && OneTerminalEach(ms)
    && (forall j :: 0 <= j < |ms| && IsTerminal(ms[j]) ==> Sent(ms[..j], ms[j].key))
    && AcksComplete(ms)
    && (forall i :: 0 <= i < |ms| && ms[i].Recv? ==> ms[i].packet.Some? && ms[i].packet.value.denom.Some?)
  }

  /** The table holds, for the log so far, every send with the status the log dictates, and every receive as it came. */
  ghost predicate Reflects(t: Table, log: seq<Message>)
  {
    && UniqueSends(t)
    && (forall k :: FindSend(t, k).Some? <==> Sent(log, k))
    && Select(t, IsSend) == AfterAll(NewSends(log), log)
    && NewRecvs(log) == Ok(Select(t, IsRecv))
  }

  // ----- one pass of marking, row by row -----

  ghost predicate UniqueSends(t: Table)
  {
    forall i, j :: 0 <= i < j < |t| && t[i].isSend && t[j].isSend ==> t[i].key != t[j].key
  }

  ghost predicate DistinctKeys(fs: seq<Finish>)
  {
    forall i, j :: 0 <= i < j < |fs| ==> fs[i].key != fs[j].key
  }

  function FinishOf(fs: seq<Finish>, key: Key): (r: Option<Finish>)
    ensures r.Some? ==> r.value in fs && r.value.key == key
    ensures r.None? ==> forall f :: f in fs ==> f.key != key
  {
    if fs == [] then None
    else if fs[0].key == key then Some(fs[0])
    else FinishOf(fs[1..], key)
  }

  function MarkedRow(row: Row, fs: seq<Finish>, status: Status): Row
  {
    if !row.isSend then row
    else match FinishOf(fs, row.key) { case None => row case Some(f) => Finished(row, f, status) }
  }

  /** With one send per key, marking touches exactly the send rows of the listed keys. */
  lemma {:induction false} MarkRowByRow(t: Table, fs: seq<Finish>, status: Status)
    requires UniqueSends(t) && DistinctKeys(fs) && forall f :: f in fs ==> FindSend(t, f.key).Some?
    ensures Mark(t, fs, status).Ok? && |Mark(t, fs, status).value| == |t|
    ensures forall i :: 0 <= i < |t| ==> Mark(t, fs, status).value[i] == MarkedRow(t[i], fs, status)
    decreases |fs|
  {
    if fs != [] {
      assert fs[0] in fs;
      var id := FindSend(t, fs[0].key).value;
      var t1 := t[id := Finished(t[id], fs[0], status)];
      forall f | f in fs[1..] ensures FindSend(t1, f.key).Some? { FindSendStable(t, t1, f.key); }
      MarkRowByRow(t1, fs[1..], status);
      forall f | f in fs[1..] ensures f.key != fs[0].key {
        var j :| 0 <= j < |fs[1..]| && fs[1..][j] == f;
        assert fs[j + 1] == f;
      }
    }
  }

  lemma {:induction false} FinishesIndex(ms: seq<Message>, status: Status, i: nat) returns (j: nat)
    requires i < |Finishes(ms, status)|
    ensures j < |ms| && Sets(ms[j], status) && Finishes(ms, status)[i] == Finish(ms[j].key, ms[j].time) && i <= j
  {
    var head := if Sets(ms[0], status) then 1 else 0;
    if i < head {
      j := 0;
    } else {
      j := FinishesIndex(ms[1..], status, i - head);
      j := j + 1;
    }
  }

  lemma {:induction false} FinishesDistinct(ms: seq<Message>, status: Status)
    requires OneTerminalEach(ms)
    ensures DistinctKeys(Finishes(ms, status))
  {
    if ms != [] {
      assert forall i :: 0 <= i < |ms[1..]| ==> ms[1..][i] == ms[i + 1];
      FinishesDistinct(ms[1..], status);
      var rest := Finishes(ms[1..], status);
      if Sets(ms[0], status) {
        forall i | 0 <= i < |rest| ensures rest[i].key != ms[0].key {
          var j := FinishesIndex(ms[1..], status, i);
        }
      }
    }
  }

  lemma NoOtherTerminal(ms: seq<Message>)
    requires ms != [] && OneTerminalEach(ms) && IsTerminal(ms[0])
    ensures Terminal(ms[1..], ms[0].key).None?
  {
    forall i | 0 <= i < |ms[1..]| && IsTerminal(ms[1..][i]) ensures ms[1..][i].key != ms[0].key {
      assert ms[1..][i] == ms[i + 1];
    }
  }

  /** A pass finishes exactly the keys whose terminal message sets its status. */
  lemma {:induction false} FinishOfTerminal(ms: seq<Message>, status: Status, key: Key)
    requires OneTerminalEach(ms) && AcksComplete(ms)
    ensures FinishOf(Finishes(ms, status), key) ==
            match Terminal(ms, key)
            case None => None
            case Some(m) => if Sets(m, status) then Some(Finish(m.key, m.time)) else None
  {
    if ms != [] {
      var rest := ms[1..];
      assert OneTerminalEach(rest) && AcksComplete(rest) by {
        assert forall i :: 0 <= i < |rest| ==> rest[i] == ms[i + 1];
      }
      FinishOfTerminal(rest, status, key);
      if IsTerminal(ms[0]) { NoOtherTerminal(ms); }
      if Sets(ms[0], status) {
        assert Finishes(ms, status) == [Finish(ms[0].key, ms[0].time)] + Finishes(rest, status);
        assert Finishes(ms, status)[1..] == Finishes(rest, status);
      } else {
        assert Finishes(ms, status) == Finishes(rest, status);
      }
    }
  }

  lemma PassRowByRow(t: Table, ms: seq<Message>, status: Status)
    requires UniqueSends(t)
    requires OneTerminalEach(ms)
    requires forall i :: 0 <= i < |ms| && IsTerminal(ms[i]) ==> FindSend(t, ms[i].key).Some?
    ensures var r := Mark(t, Finishes(ms, status), status);
            && r.Ok? && |r.value| == |t|
            && (forall i :: 0 <= i < |t| ==> r.value[i] == MarkedRow(t[i], Finishes(ms, status), status))
            && UniqueSends(r.value)
            && (forall i :: 0 <= i < |ms| && IsTerminal(ms[i]) ==> FindSend(r.value, ms[i].key).Some?)
  {
    FinishesDistinct(ms, status);
    var fs := Finishes(ms, status);
    forall f | f in fs ensures FindSend(t, f.key).Some? {
      var i :| 0 <= i < |fs| && fs[i] == f;
      var j := FinishesIndex(ms, status, i);
    }
    MarkRowByRow(t, fs, status);
    var t1 := Mark(t, fs, status).value;
    assert forall i :: 0 <= i < |t| ==> t1[i].isSend == t[i].isSend && t1[i].key == t[i].key;
    forall i | 0 <= i < |ms| && IsTerminal(ms[i]) ensures FindSend(t1, ms[i].key).Some? { FindSendStable(t, t1, ms[i].key); }
  }

  /** A row that goes through the three passes is finished by its own terminal message and by nothing else. */
  lemma PassesRow(row: Row, ms: seq<Message>)
    requires OneTerminalEach(ms) && AcksComplete(ms)
    ensures MarkedRow(MarkedRow(MarkedRow(row, Finishes(ms, AckSuccess), AckSuccess), Finishes(ms, AckError), AckError),
                      Finishes(ms, TimedOut), TimedOut) == After(row, ms)
  {
    FinishOfTerminal(ms, AckSuccess, row.key);
    FinishOfTerminal(ms, AckError, row.key);
    FinishOfTerminal(ms, TimedOut, row.key);
    if Terminal(ms, row.key).Some? {
      var m := Terminal(ms, row.key).value;
      assert !BadAck(m);
      assert forall st :: Sets(m, st) <==> st == StatusOf(m);
    }
  }

  /** The three passes together give each row what the messages dictate, and the lookups never miss. */
  lemma PassesAreAfter(t: Table, ms: seq<Message>)
    requires UniqueSends(t)
    requires OneTerminalEach(ms)
    requires forall i :: 0 <= i < |ms| && IsTerminal(ms[i]) ==> FindSend(t, ms[i].key).Some?
    requires AcksComplete(ms)
    ensures MarkAcks(t, ms).Ok?
    ensures Mark(MarkAcks(t, ms).value, Finishes(ms, TimedOut), TimedOut) == Ok(AfterAll(t, ms))
  {
    PassRowByRow(t, ms, AckSuccess);
    var t1 := Mark(t, Finishes(ms, AckSuccess), AckSuccess).value;
    PassRowByRow(t1, ms, AckError);
    var t2 := Mark(t1, Finishes(ms, AckError), AckError).value;
    PassRowByRow(t2, ms, TimedOut);
    var t3 := Mark(t2, Finishes(ms, TimedOut), TimedOut).value;
    forall i | 0 <= i < |t| ensures t3[i] == After(t[i], ms) {
      PassesRow(t[i], ms);
    }
    assert t3 == AfterAll(t, ms);
  }

  // ----- logs that grow -----

  lemma {:induction false} NewSendsConcat(a: seq<Message>, b: seq<Message>)
    ensures NewSends(a + b) == NewSends(a) + NewSends(b)
  {
    if a == [] {
      assert a + b == b;
    } else {
      assert (a + b)[0] == a[0] && (a + b)[1..] == a[1..] + b;
      NewSendsConcat(a[1..], b);
    }
  }

  lemma {:induction false} NewRecvsConcat(a: seq<Message>, b: seq<Message>)
    requires NewRecvs(a).Ok? && NewRecvs(b).Ok?
    ensures NewRecvs(a + b) == Ok(NewRecvs(a).value + NewRecvs(b).value)
  {
    if a == [] {
      assert a + b == b;
      assert [] + NewRecvs(b).value == NewRecvs(b).value;
    } else {
      assert (a + b)[0] == a[0] && (a + b)[1..] == a[1..] + b;
      NewRecvsConcat(a[1..], b);
      if a[0].Recv? {
        var row, rest := NewRecv(a[0]).value, NewRecvs(a[1..]).value;
        assert ([row] + rest) + NewRecvs(b).value == [row] + (rest + NewRecvs(b).value);
      }
    }
  }

  lemma {:induction false} NewRecvsOk(ms: seq<Message>)
    requires forall i :: 0 <= i < |ms| && ms[i].Recv? ==> NewRecv(ms[i]).Ok?
    ensures NewRecvs(ms).Ok?
    ensures forall i :: 0 <= i < |NewRecvs(ms).value| ==> IsRecv(NewRecvs(ms).value[i])
  {
    if ms != [] {
      assert forall i :: 0 <= i < |ms[1..]| ==> ms[1..][i] == ms[i + 1];
      NewRecvsOk(ms[1..]);
    }
  }

  lemma {:induction false} NewSendsAt(ms: seq<Message>, i: nat) returns (j: nat)
    requires i < |NewSends(ms)|
    ensures j < |ms| && ms[j].Send? && NewSends(ms)[i] == NewSend(ms[j]) && i <= j
  {
    var head := if ms[0].Send? then 1 else 0;
    if i < head {
      j := 0;
    } else {
      j := NewSendsAt(ms[1..], i - head);
      j := j + 1;
    }
  }

  lemma {:induction false} NewSendsOf(ms: seq<Message>, j: nat) returns (i: nat)
    requires j < |ms| && ms[j].Send?
    ensures i < |NewSends(ms)| && NewSends(ms)[i] == NewSend(ms[j])
  {
    if j == 0 {
      i := 0;
    } else {
      i := NewSendsOf(ms[1..], j - 1);
      i := i + if ms[0].Send? then 1 else 0;
    }
  }

  lemma {:induction false} NewSendsUnique(ms: seq<Message>)
    requires forall i, j :: 0 <= i < j < |ms| && ms[i].Send? && ms[j].Send? ==> ms[i].key != ms[j].key
    ensures forall i, j :: 0 <= i < j < |NewSends(ms)| ==> NewSends(ms)[i].key != NewSends(ms)[j].key
  {
    if ms != [] {
      assert forall i :: 0 <= i < |ms[1..]| ==> ms[1..][i] == ms[i + 1];
      NewSendsUnique(ms[1..]);
      if ms[0].Send? {
        forall i | 0 <= i < |NewSends(ms[1..])| ensures NewSends(ms[1..])[i].key != ms[0].key {
          var j := NewSendsAt(ms[1..], i);
        }
      }
    }
  }

  lemma {:induction false} TerminalConcat(a: seq<Message>, b: seq<Message>, key: Key)
    ensures Terminal(a + b, key) == if Terminal(a, key).Some? then Terminal(a, key) else Terminal(b, key)
  {
    if a == [] {
      assert a + b == b;
    } else {
      assert (a + b)[0] == a[0] && (a + b)[1..] == a[1..] + b;
      TerminalConcat(a[1..], b, key);
    }
  }

  lemma OneTerminal(a: seq<Message>, b: seq<Message>, key: Key)
    requires WellFormed(a + b) && Terminal(a, key).Some?
    ensures Terminal(b, key).None?
  {
    var i :| 0 <= i < |a| && a[i] == Terminal(a, key).value;
    forall j | 0 <= j < |b| && IsTerminal(b[j]) ensures b[j].key != key {
      assert (a + b)[i] == a[i] && (a + b)[|a| + j] == b[j];
    }
  }

  /** Seeing two stretches of a well-formed log one after the other is seeing them together. */
  lemma AfterTwice(row: Row, a: seq<Message>, b: seq<Message>)
    requires WellFormed(a + b)
    ensures After(After(row, a), b) == After(row, a + b)
  {
    TerminalConcat(a, b, row.key);
    if Terminal(a, row.key).Some? {
      OneTerminal(a, b, row.key);
      var m := Terminal(a, row.key).value;
      var i :| 0 <= i < |a| && a[i] == m;
      assert (a + b)[i] == m;
    }
  }

  /** A key that is first sent in the second stretch has no terminal message in the first. */
  lemma NoTerminalBeforeSend(a: seq<Message>, b: seq<Message>, j: nat)
    requires WellFormed(a + b) && j < |b| && b[j].Send?
    ensures Terminal(a, b[j].key).None? && !Sent(a, b[j].key)
  {
    assert (a + b)[|a| + j] == b[j];
    forall i | 0 <= i < |a| && a[i].Send? ensures a[i].key != b[j].key {
      assert (a + b)[i] == a[i];
    }
    forall i | 0 <= i < |a| && IsTerminal(a[i]) ensures a[i].key != b[j].key {
      assert (a + b)[i] == a[i];
      assert Sent((a + b)[..i], a[i].key);
      var k :| 0 <= k < i && (a + b)[..i][k].Send? && (a + b)[..i][k].key == a[i].key;
      assert a[k].Send? && a[k].key == a[i].key;
    }
  }

  lemma {:induction false} SelectAfterAll(rows: seq<Row>, ms: seq<Message>)
    ensures Select(AfterAll(rows, ms), IsSend) == AfterAll(Select(rows, IsSend), ms)
    ensures Select(AfterAll(rows, ms), IsRecv) == Select(rows, IsRecv)
  {
    if rows != [] {
      SelectAfterAll(rows[1..], ms);
      assert AfterAll(rows, ms)[1..] == AfterAll(rows[1..], ms);
    }
  }

  lemma {:induction false} SelectAll(rows: seq<Row>, p: Row -> bool)
    ensures (forall i :: 0 <= i < |rows| ==> p(rows[i])) ==> Select(rows, p) == rows
    ensures (forall i :: 0 <= i < |rows| ==> !p(rows[i])) ==> Select(rows, p) == []
  {
    if rows != [] { SelectAll(rows[1..], p); }
  }

  // ----- one batch -----

  predicate HasSend(t: Table, k: Key)
  {
    exists i :: 0 <= i < |t| && t[i].isSend && t[i].key == k
  }

  lemma FindSendIff(t: Table, k: Key)
    ensures FindSend(t, k).Some? <==> HasSend(t, k)
  {
  }

  lemma HasSendConcat(a: Table, b: Table, k: Key)
    ensures HasSend(a + b, k) <==> HasSend(a, k) || HasSend(b, k)
  {
    if HasSend(a, k) {
      var i :| 0 <= i < |a| && a[i].isSend && a[i].key == k;
      assert (a + b)[i] == a[i];
    }
    if HasSend(b, k) {
      var i :| 0 <= i < |b| && b[i].isSend && b[i].key == k;
      assert (a + b)[|a| + i] == b[i];
    }
  }

  lemma SentConcat(a: seq<Message>, b: seq<Message>, k: Key)
    ensures Sent(a + b, k) <==> Sent(a, k) || Sent(b, k)
  {
    if Sent(a, k) {
      var i :| 0 <= i < |a| && a[i].Send? && a[i].key == k;
      assert (a + b)[i] == a[i];
    }
    if Sent(b, k) {
      var i :| 0 <= i < |b| && b[i].Send? && b[i].key == k;
      assert (a + b)[|a| + i] == b[i];
    }
  }

  lemma HasSendOfSent(ms: seq<Message>, k: Key)
    ensures HasSend(NewSends(ms), k) <==> Sent(ms, k)
  {
    if HasSend(NewSends(ms), k) {
      var i :| 0 <= i < |NewSends(ms)| && NewSends(ms)[i].isSend && NewSends(ms)[i].key == k;
      var j := NewSendsAt(ms, i);
    }
    if Sent(ms, k) {
      var j :| 0 <= j < |ms| && ms[j].Send? && ms[j].key == k;
      var i := NewSendsOf(ms, j);
    }
  }

  /** After the inserts of a batch, a send row can be found exactly for the keys that were sent. */
  lemma InsertedFinds(t: Table, log: seq<Message>, ms: seq<Message>, recvs: seq<Row>, k: Key)
    requires Reflects(t, log) && forall i :: 0 <= i < |recvs| ==> IsRecv(recvs[i])
    ensures FindSend(t + NewSends(ms) + recvs, k).Some? <==> Sent(log + ms, k)
  {
    FindSendIff(t + NewSends(ms) + recvs, k);
    FindSendIff(t, k);
    HasSendConcat(t + NewSends(ms), recvs, k);
    HasSendConcat(t, NewSends(ms), k);
    HasSendOfSent(ms, k);
    SentConcat(log, ms, k);
  }

  lemma UniqueSendsConcat(a: Table, b: Table)
    requires UniqueSends(a) && UniqueSends(b) && forall i :: 0 <= i < |b| && b[i].isSend ==> !HasSend(a, b[i].key)
    ensures UniqueSends(a + b)
  {
    var all := a + b;
    forall i, j | 0 <= i < j < |all| && all[i].isSend && all[j].isSend ensures all[i].key != all[j].key {
      if j < |a| {
        assert all[i] == a[i] && all[j] == a[j];
      } else if i < |a| {
        assert all[i] == a[i] && all[j] == b[j - |a|];
      } else {
        assert all[i] == b[i - |a|] && all[j] == b[j - |a|];
      }
    }
  }

  /** After the inserts of a batch, there is still one send row per key. */
  lemma InsertedUnique(t: Table, log: seq<Message>, ms: seq<Message>, recvs: seq<Row>)
    requires WellFormed(log + ms) && Reflects(t, log)
    requires forall i :: 0 <= i < |recvs| ==> IsRecv(recvs[i])
    ensures UniqueSends(t + NewSends(ms) + recvs)
  {
    var sends := NewSends(ms);
    assert forall i :: 0 <= i < |ms| ==> (log + ms)[|log| + i] == ms[i];
    NewSendsUnique(ms);
    forall i | 0 <= i < |sends| ensures !HasSend(t, sends[i].key) {
      var j := NewSendsAt(ms, i);
      NoTerminalBeforeSend(log, ms, j);
      FindSendIff(t, sends[i].key);
    }
    UniqueSendsConcat(t, sends);
    UniqueSendsConcat(t + sends, recvs);
  }

  lemma NewSendGrow(log: seq<Message>, ms: seq<Message>, i: nat)
    requires WellFormed(log + ms) && i < |NewSends(ms)|
    ensures After(NewSends(ms)[i], ms) == After(NewSends(ms)[i], log + ms)
  {
    var j := NewSendsAt(ms, i);
    NoTerminalBeforeSend(log, ms, j);
    TerminalConcat(log, ms, NewSends(ms)[i].key);
  }

  lemma SendsGrow(log: seq<Message>, ms: seq<Message>)
    requires WellFormed(log + ms)
    ensures AfterAll(AfterAll(NewSends(log), log) + NewSends(ms), ms) == AfterAll(NewSends(log + ms), log + ms)
  {
    NewSendsConcat(log, ms);
    var a, b := NewSends(log), NewSends(ms);
    var left, right := AfterAll(AfterAll(a, log) + b, ms), AfterAll(a + b, log + ms);
    forall i | 0 <= i < |left| ensures left[i] == right[i] {
      if i < |a| {
        AfterTwice(a[i], log, ms);
      } else {
        NewSendGrow(log, ms, i - |a|);
      }
    }
  }

  lemma SuffixFacts(log: seq<Message>, ms: seq<Message>)
    requires WellFormed(log + ms)
    ensures OneTerminalEach(ms)
    ensures AcksComplete(ms)
    ensures forall i :: 0 <= i < |ms| && ms[i].Recv? ==> NewRecv(ms[i]).Ok?
    ensures forall i :: 0 <= i < |ms| && IsTerminal(ms[i]) ==> Sent(log + ms, ms[i].key)
  {
    assert forall i :: 0 <= i < |ms| ==> (log + ms)[|log| + i] == ms[i];
    forall i | 0 <= i < |ms| && IsTerminal(ms[i]) ensures Sent(log + ms, ms[i].key) {
      assert Sent((log + ms)[..|log| + i], ms[i].key);
      var k :| 0 <= k < |log| + i && (log + ms)[..|log| + i][k].Send? && (log + ms)[..|log| + i][k].key == ms[i].key;
      assert (log + ms)[k].Send?;
    }
  }

  lemma BatchKeepsReflects(t: Table, log: seq<Message>, ms: seq<Message>)
    requires WellFormed(log + ms) && Reflects(t, log)
    ensures Batch(t, ms).Ok? && Reflects(Batch(t, ms).value, log + ms)
  {
    SuffixFacts(log, ms);
    NewRecvsOk(ms);
    var sends, recvs := NewSends(ms), NewRecvs(ms).value;
    var all := t + sends + recvs;
    InsertedUnique(t, log, ms, recvs);
    forall k ensures FindSend(all, k).Some? <==> Sent(log + ms, k) { InsertedFinds(t, log, ms, recvs, k); }
    PassesAreAfter(all, ms);
    var t1 := Batch(t, ms).value;
    assert t1 == AfterAll(all, ms);
    forall k ensures FindSend(t1, k) == FindSend(all, k) { FindSendStable(all, t1, k); }
    BatchSelects(t, sends, recvs, ms);
    SendsGrow(log, ms);
    NewRecvsConcat(log, ms);
  }

  lemma SelectsSends(t: Table, sends: seq<Row>, recvs: seq<Row>)
    requires (forall i :: 0 <= i < |sends| ==> IsSend(sends[i])) && (forall i :: 0 <= i < |recvs| ==> IsRecv(recvs[i]))
    ensures Select(t + sends + recvs, IsSend) == Select(t, IsSend) + sends
  {
    SelectParts(t, sends, recvs, IsSend);
    SelectAll(sends, IsSend);
    SelectAll(recvs, IsSend);
    assert Select(t, IsSend) + sends + [] == Select(t, IsSend) + sends;
  }

  lemma SelectsRecvs(t: Table, sends: seq<Row>, recvs: seq<Row>)
    requires (forall i :: 0 <= i < |sends| ==> IsSend(sends[i])) && (forall i :: 0 <= i < |recvs| ==> IsRecv(recvs[i]))
    ensures Select(t + sends + recvs, IsRecv) == Select(t, IsRecv) + recvs
  {
    SelectParts(t, sends, recvs, IsRecv);
    SelectAll(sends, IsRecv);
    SelectAll(recvs, IsRecv);
    assert Select(t, IsRecv) + [] == Select(t, IsRecv);
  }

  lemma BatchSelects(t: Table, sends: seq<Row>, recvs: seq<Row>, ms: seq<Message>)
    requires sends == NewSends(ms) && forall i :: 0 <= i < |recvs| ==> IsRecv(recvs[i])
    ensures Select(AfterAll(t + sends + recvs, ms), IsSend) == AfterAll(Select(t, IsSend) + sends, ms)
    ensures Select(AfterAll(t + sends + recvs, ms), IsRecv) == Select(t, IsRecv) + recvs
  {
    forall i | 0 <= i < |sends| ensures IsSend(sends[i]) { var j := NewSendsAt(ms, i); }
    SelectAfterAll(t + sends + recvs, ms);
    SelectsSends(t, sends, recvs);
    SelectsRecvs(t, sends, recvs);
  }

  lemma SelectParts(a: Table, b: Table, c: Table, p: Row -> bool)
    ensures Select(a + b + c, p) == Select(a, p) + Select(b, p) + Select(c, p)
  {
    SelectConcat(a + b, c, p);
    SelectConcat(a, b, p);
  }

  // ----- any batching -----

  function RunBatches(t: Table, batches: seq<seq<Message>>): Result<Table, Error>
    decreases |batches|
  {
    if batches == [] then Ok(t)
    else
      match Batch(t, batches[0])
      case Err(x) => Err(x)
      case Ok(t1) => RunBatches(t1, batches[1..])
  }

  lemma WellFormedPrefix(a: seq<Message>, b: seq<Message>)
    requires WellFormed(a + b)
    ensures WellFormed(a)
  {
    assert forall i :: 0 <= i < |a| ==> (a + b)[i] == a[i] && (a + b)[..i] == a[..i];
  }

  lemma {:induction false} BatchesKeepReflects(t: Table, log: seq<Message>, batches: seq<seq<Message>>)
    requires WellFormed(log + Flatten(batches)) && Reflects(t, log)
    ensures RunBatches(t, batches).Ok? && Reflects(RunBatches(t, batches).value, log + Flatten(batches))
    decreases |batches|
  {
    if batches == [] {
      assert log + Flatten(batches) == log;
    } else {
      var rest := Flatten(batches[1..]);
      assert log + Flatten(batches) == (log + batches[0]) + rest;
      WellFormedPrefix(log + batches[0], rest);
      BatchKeepsReflects(t, log, batches[0]);
      BatchesKeepReflects(Batch(t, batches[0]).value, log + batches[0], batches[1..]);
    }
  }

  /**
   For every well-formed packet log and every cut into batches no lookup misses, each send row ends with the status
   and finish time of its acknowledgement or timeout (and stays ongoing without one), and the receive rows are the
   receives of the log, untouched even when they share a key with a send.
   */
  lemma BatchesReflectLog(batches: seq<seq<Message>>)
    requires WellFormed(Flatten(batches))
    ensures RunBatches([], batches).Ok?
    ensures var t := RunBatches([], batches).value;
            && Select(t, IsSend) == AfterAll(NewSends(Flatten(batches)), Flatten(batches))
            && NewRecvs(Flatten(batches)) == Ok(Select(t, IsRecv))
  {
    var log := Flatten(batches);
    assert [] + log == log;
    assert Reflects([], []) by { EmptyReflects(); }
    BatchesKeepReflects([], [], batches);
    assert Reflects(RunBatches([], batches).value, log);
  }

  lemma EmptyReflects()
    ensures Reflects([], [])
  {
    assert AfterAll(NewSends([]), []) == [];
  }

  // ----- the rows, field by field -----

  /** One turn of marking writes the status and the finish time of one row. */
  lemma MarkOne(t: Table, f: Finish, status: Status, i: nat)
    requires FindSend(t, f.key) == Some(i)
    ensures Mark(t, [f], status)
            == Ok(t[i := Row(true, f.key, t[i].channel, t[i].data, t[i].denom, status, t[i].startTime, Some(f.time))])
  {
    assert Mark(t[i := Finished(t[i], f, status)], [], status) == Ok(t[i := Finished(t[i], f, status)]);
    assert [f][1..] == [];
  }

  lemma {:induction false} MarkOkIff(t: Table, fs: seq<Finish>, status: Status)
    ensures Mark(t, fs, status).Ok? <==> forall n :: 0 <= n < |fs| ==> exists i :: 0 <= i < |t| && t[i].isSend && t[i].key == fs[n].key
    ensures Mark(t, fs, status).Err? ==> Mark(t, fs, status).error == SendNotFound
    ensures Mark(t, fs, status).Ok? ==> |Mark(t, fs, status).value| == |t|
    decreases |fs|
  {
    if fs != [] && FindSend(t, fs[0].key).Some? {
      var id := FindSend(t, fs[0].key).value;
      var t1 := t[id := Finished(t[id], fs[0], status)];
      MarkOkIff(t1, fs[1..], status);
      if Mark(t1, fs[1..], status).Ok? {
        forall n | 0 <= n < |fs| ensures HasSend(t, fs[n].key) {
          if n > 0 {
            assert fs[1..][n - 1] == fs[n];
            var i :| 0 <= i < |t1| && t1[i].isSend && t1[i].key == fs[n].key;
            assert t[i].isSend && t[i].key == fs[n].key;
          }
        }
      } else {
        var n :| 0 <= n < |fs[1..]| && forall i :: 0 <= i < |t1| && t1[i].isSend ==> t1[i].key != fs[1..][n].key;
        assert fs[n + 1] == fs[1..][n];
        forall i | 0 <= i < |t| && t[i].isSend ensures t[i].key != fs[n + 1].key { assert t1[i].isSend && t1[i].key == t[i].key; }
      }
    }
  }

  /** A row that no message finds stays as it is. */
  lemma {:induction false} MarkOthers(t: Table, fs: seq<Finish>, status: Status, i: nat)
    requires Mark(t, fs, status).Ok? && i < |t| && forall n :: 0 <= n < |fs| ==> FindSend(t, fs[n].key) != Some(i)
    ensures i < |Mark(t, fs, status).value| && Mark(t, fs, status).value[i] == t[i]
    decreases |fs|
  {
    if fs != [] {
      var id := FindSend(t, fs[0].key).value;
      var t1 := t[id := Finished(t[id], fs[0], status)];
      forall n | 0 <= n < |fs[1..]| ensures FindSend(t1, fs[1..][n].key) != Some(i) {
        FindSendStable(t, t1, fs[n + 1].key);
      }
      MarkOthers(t1, fs[1..], status, i);
    }
  }

  /** A row that is found keeps its send, gets the status, and the time of the last message that finds it. */
  lemma {:induction false} MarkedFields(t: Table, fs: seq<Finish>, status: Status, i: nat, n: nat)
    requires Mark(t, fs, status).Ok? && n < |fs| && FindSend(t, fs[n].key) == Some(i)
    requires forall m :: n < m < |fs| ==> fs[m].key != fs[n].key
    ensures i < |Mark(t, fs, status).value|
    ensures Mark(t, fs, status).value[i]
            == Row(true, fs[n].key, t[i].channel, t[i].data, t[i].denom, status, t[i].startTime, Some(fs[n].time))
    decreases |fs|
  {
    var id := FindSend(t, fs[0].key).value;
    var t1 := t[id := Finished(t[id], fs[0], status)];
    FindSendStable(t, t1, fs[n].key);
    if n > 0 {
      assert fs[1..][n - 1] == fs[n];
      MarkedFields(t1, fs[1..], status, i, n - 1);
    } else {
      forall m | 0 <= m < |fs[1..]| ensures FindSend(t1, fs[1..][m].key) != Some(i) {
        assert fs[m + 1] == fs[1..][m];
      }
      MarkOthers(t1, fs[1..], status, i);
    }
  }

  function SendsIn(ms: seq<Message>): nat
  {
    if ms == [] then 0 else (if ms[0].Send? then 1 else 0) + SendsIn(ms[1..])
  }

  function RecvsIn(ms: seq<Message>): nat
  {
    if ms == [] then 0 else (if ms[0].Recv? then 1 else 0) + RecvsIn(ms[1..])
  }

  lemma {:induction false} SendsPosition(ms: seq<Message>, j: nat)
    requires j <= |ms|
    ensures |NewSends(ms)| == SendsIn(ms)
    ensures j < |ms| && ms[j].Send? ==> SendsIn(ms[..j]) < SendsIn(ms) && NewSends(ms)[SendsIn(ms[..j])] == NewSend(ms[j])
  {
    if ms != [] {
      SendsPosition(ms[1..], if j == 0 then 0 else j - 1);
      if 0 < j < |ms| { assert ms[..j][0] == ms[0] && ms[..j][1..] == ms[1..][..j - 1]; }
    }
  }

  lemma {:induction false} RecvsPosition(ms: seq<Message>, j: nat)
    requires j <= |ms| && NewRecvs(ms).Ok?
    ensures |NewRecvs(ms).value| == RecvsIn(ms)
    ensures j < |ms| && ms[j].Recv? ==>
              RecvsIn(ms[..j]) < RecvsIn(ms) && Ok(NewRecvs(ms).value[RecvsIn(ms[..j])]) == NewRecv(ms[j])
  {
    if ms != [] {
      RecvsPosition(ms[1..], if j == 0 then 0 else j - 1);
      if 0 < j < |ms| { assert ms[..j][0] == ms[0] && ms[..j][1..] == ms[1..][..j - 1]; }
    }
  }

  /** `row` is the row of the send `m` in a table that has seen all of `log`. */
  ghost predicate SendRow(row: Row, m: Message, log: seq<Message>)
    requires m.Send?
  {
    && row.isSend && row.key == m.key && row.channel == m.srcChannel && row.data == m.data && row.denom == m.denom
    && row.startTime == Some(m.time)
    && (row.status == AckSuccess <==> exists n :: 0 <= n < |log| && log[n].Ack? && log[n].key == m.key
                                                  && |log[n].hasSuccess| == 2 && log[n].hasSuccess[1])
    && (row.status == AckError <==> exists n :: 0 <= n < |log| && log[n].Ack? && log[n].key == m.key
                                                && |log[n].hasSuccess| == 2 && !log[n].hasSuccess[1])
    && (row.status == TimedOut <==> exists n :: 0 <= n < |log| && log[n].Timeout? && log[n].key == m.key)
    && (forall n :: 0 <= n < |log| && (log[n].Ack? || log[n].Timeout?) && log[n].key == m.key ==>
          row.finishTime == Some(log[n].time))
    && (row.finishTime == None <==> row.status == Ongoing)
  }

  /** `row` is the row of the receive `m`. */
  predicate RecvRow(row: Row, m: Message)
    requires m.Recv?
  {
    && m.packet.Some? && m.packet.value.denom.Some?
    && !row.isSend && row.key == m.key && row.channel == m.dstChannel && row.data == m.packet.value.data
    && row.denom == ParseDenom(m.packet.value.denom.value, m.isSource, m.dstPort, m.dstChannel)
    && (!m.isSource ==> row.denom == m.dstPort + "/" + m.dstChannel + "/" + m.packet.value.denom.value)
    && row.status == (if m.packet.value.success then AckSuccess else AckError)
    && row.startTime == None && row.finishTime == Some(m.time)
  }

  lemma SendAfter(log: seq<Message>, j: nat)
    requires WellFormed(log) && j < |log| && log[j].Send?
    ensures SendRow(After(NewSend(log[j]), log), log[j], log)
  {
    var k := log[j].key;
    var end := Terminal(log, k);
    if end.Some? {
      var x :| 0 <= x < |log| && log[x] == end.value;
      assert !BadAck(log[x]);
      forall n | 0 <= n < |log| && IsTerminal(log[n]) && log[n].key == k ensures n == x {
      }
    } else {
      assert forall n :: 0 <= n < |log| && (log[n].Ack? || log[n].Timeout?) ==> IsTerminal(log[n]);
    }
  }

  /**
   For every well-formed log in any batches: the n-th send row is that of the n-th send, with the status and the time
   of the one acknowledgement or timeout of its key, and the n-th receive row is that of the n-th receive. There are no
   other rows.
   */
  lemma RowsByFields(batches: seq<seq<Message>>, j: nat)
    requires WellFormed(Flatten(batches)) && j <= |Flatten(batches)|
    ensures RunBatches([], batches).Ok?
    ensures var log, t := Flatten(batches), RunBatches([], batches).value;
            && |Select(t, IsSend)| == SendsIn(log) && |Select(t, IsRecv)| == RecvsIn(log)
            && (j < |log| && log[j].Send? ==>
                  SendsIn(log[..j]) < SendsIn(log) && SendRow(Select(t, IsSend)[SendsIn(log[..j])], log[j], log))
            && (j < |log| && log[j].Recv? ==>
                  RecvsIn(log[..j]) < RecvsIn(log) && RecvRow(Select(t, IsRecv)[RecvsIn(log[..j])], log[j]))
  {
    var log := Flatten(batches);
    BatchesReflectLog(batches);
    SendsPosition(log, j);
    RecvsPosition(log, j);
    if j < |log| && log[j].Send? { SendAfter(log, j); }
  }

  // ----- when a batch goes through -----

  /** Every acknowledgement and timeout finds a send row, in the table or sent in the batch, and nothing is malformed. */
  ghost predicate Handleable(t: Table, ms: seq<Message>)
  {
    && (forall i :: 0 <= i < |ms| && ms[i].Recv? ==> ms[i].packet.Some? && ms[i].packet.value.denom.Some?)
    && (forall i :: 0 <= i < |ms| && ms[i].Ack? ==> |ms[i].hasSuccess| == 2)
    && (forall i :: 0 <= i < |ms| && (ms[i].Ack? || ms[i].Timeout?) ==> HasSend(t, ms[i].key) || Sent(ms, ms[i].key))
  }

  lemma {:induction false} RecvsOkIff(ms: seq<Message>)
    ensures NewRecvs(ms).Ok? <==> forall i :: 0 <= i < |ms| && ms[i].Recv? ==> ms[i].packet.Some? && ms[i].packet.value.denom.Some?
  {
    if ms != [] {
      RecvsOkIff(ms[1..]);
      assert forall i :: 0 <= i < |ms[1..]| ==> ms[1..][i] == ms[i + 1];
      assert forall i :: 0 < i < |ms| ==> ms[i] == ms[1..][i - 1];
    }
  }

  /** Marking moves no row. */
  lemma {:induction false} MarkKeepsSends(t: Table, fs: seq<Finish>, status: Status, key: Key)
    requires Mark(t, fs, status).Ok?
    ensures HasSend(Mark(t, fs, status).value, key) <==> HasSend(t, key)
    decreases |fs|
  {
    if fs != [] {
      var id := FindSend(t, fs[0].key).value;
      var t1 := t[id := Finished(t[id], fs[0], status)];
      MarkKeepsSends(t1, fs[1..], status, key);
      FindSendStable(t, t1, key);
      FindSendIff(t, key);
      FindSendIff(t1, key);
    }
  }

  lemma {:induction false} FinishesOf(ms: seq<Message>, status: Status, j: nat) returns (i: nat)
    requires j < |ms| && Sets(ms[j], status)
    ensures i < |Finishes(ms, status)| && Finishes(ms, status)[i] == Finish(ms[j].key, ms[j].time)
  {
    if j == 0 {
      i := 0;
    } else {
      i := FinishesOf(ms[1..], status, j - 1);
      i := i + if Sets(ms[0], status) then 1 else 0;
    }
  }

  /** A pass goes through if and only if each message that sets its status has a send row. */
  lemma PassOkIff(t: Table, ms: seq<Message>, status: Status)
    ensures Mark(t, Finishes(ms, status), status).Ok? <==> forall i :: 0 <= i < |ms| && Sets(ms[i], status) ==> HasSend(t, ms[i].key)
  {
    var fs := Finishes(ms, status);
    MarkOkIff(t, fs, status);
    if forall n :: 0 <= n < |fs| ==> HasSend(t, fs[n].key) {
      forall i | 0 <= i < |ms| && Sets(ms[i], status) ensures HasSend(t, ms[i].key) { var n := FinishesOf(ms, status, i); }
    }
    if forall i :: 0 <= i < |ms| && Sets(ms[i], status) ==> HasSend(t, ms[i].key) {
      forall n | 0 <= n < |fs| ensures HasSend(t, fs[n].key) { var i := FinishesIndex(ms, status, n); }
    }
  }

  lemma PassesOkIff(t: Table, ms: seq<Message>)
    requires forall i :: 0 <= i < |ms| ==> !BadAck(ms[i])
    ensures MarkAcks(t, ms).Ok? && Mark(MarkAcks(t, ms).value, Finishes(ms, TimedOut), TimedOut).Ok?
            <==> forall i :: 0 <= i < |ms| && (ms[i].Ack? || ms[i].Timeout?) ==> HasSend(t, ms[i].key)
  {
    PassOkIff(t, ms, AckSuccess);
    forall i | 0 <= i < |ms| ensures (ms[i].Ack? || ms[i].Timeout?) <==> Sets(ms[i], AckSuccess) || Sets(ms[i], AckError) || Sets(ms[i], TimedOut) {}
    var r1 := Mark(t, Finishes(ms, AckSuccess), AckSuccess);
    if r1.Ok? {
      forall k ensures HasSend(r1.value, k) <==> HasSend(t, k) { MarkKeepsSends(t, Finishes(ms, AckSuccess), AckSuccess, k); }
      PassOkIff(r1.value, ms, AckError);
      var r2 := Mark(r1.value, Finishes(ms, AckError), AckError);
      if r2.Ok? {
        forall k ensures HasSend(r2.value, k) <==> HasSend(t, k) { MarkKeepsSends(r1.value, Finishes(ms, AckError), AckError, k); }
        PassOkIff(r2.value, ms, TimedOut);
      }
    }
  }

  /** A batch of any messages on any table goes through if and only if it is handleable; keys may be sent or finished many times. */
  lemma BatchOkIff(t: Table, ms: seq<Message>)
    ensures Batch(t, ms).Ok? <==> Handleable(t, ms)
  {
    RecvsOkIff(ms);
    if NewRecvs(ms).Ok? {
      var all := t + NewSends(ms) + NewRecvs(ms).value;
      NewRecvsOk(ms);
      forall k ensures HasSend(all, k) <==> HasSend(t, k) || Sent(ms, k) {
        HasSendConcat(t + NewSends(ms), NewRecvs(ms).value, k);
        HasSendConcat(t, NewSends(ms), k);
        HasSendOfSent(ms, k);
      }
      if forall i :: 0 <= i < |ms| ==> !BadAck(ms[i]) {
        PassesOkIff(all, ms);
      } else {
        var i :| 0 <= i < |ms| && BadAck(ms[i]);
        assert ms[i].Ack? && |ms[i].hasSuccess| != 2;
      }
    }
  }
}
