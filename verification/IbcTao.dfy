/**
 IBC clients, connections and channels: the events of a batch are applied grouped
 by kind (clients, connections, channels, closes), not in the order they happened.
 */
module IbcTao {
  import opened Wrappers
  import opened HeightLog

  /** `info` stands for the attributes that are copied into the row unread. */
  datatype Event =
    | CreateClient(clientId: string, info: string)
    | OpenConnection(connectionId: string, ofClient: string, info: string)
    | OpenChannel(channelId: string, ofConnection: string, info: string)
    | CloseChannel(closedId: Option<string>)

  datatype Client = Client(clientId: string, info: string)
  datatype Connection = Connection(connectionId: string, clientRow: nat, info: string)
  datatype Channel = Channel(channelId: string, connectionRow: nat, info: string, open: bool)

  /** The three tables; a row's position is its id. */
  datatype Tables = Tables(clients: seq<Client>, connections: seq<Connection>, channels: seq<Channel>)

  datatype Error = ParentNotFound | UniqueViolation | ChannelIdNotFound

  function FindClient(rows: seq<Client>, id: string): (r: Option<nat>)
    ensures r.Some? ==> r.value < |rows| && rows[r.value].clientId == id
    ensures r.None? ==> forall i :: 0 <= i < |rows| ==> rows[i].clientId != id
  {
    if rows == [] then None
    else
      match FindClient(rows[..|rows| - 1], id)
      case Some(i) => Some(i)
      case None => if rows[|rows| - 1].clientId == id then Some(|rows| - 1) else None
  }

  function FindConnection(rows: seq<Connection>, id: string): (r: Option<nat>)
    ensures r.Some? ==> r.value < |rows| && rows[r.value].connectionId == id
    ensures r.None? ==> forall i :: 0 <= i < |rows| ==> rows[i].connectionId != id
  {
    if rows == [] then None
    else
      match FindConnection(rows[..|rows| - 1], id)
      case Some(i) => Some(i)
      case None => if rows[|rows| - 1].connectionId == id then Some(|rows| - 1) else None
  }

  predicate HasChannel(rows: seq<Channel>, id: string)
  {
    exists i :: 0 <= i < |rows| && rows[i].channelId == id
  }

  /** Inserting under a unique key. */
  function AddClient(rows: seq<Client>, e: Event): Result<seq<Client>, Error>
    requires e.CreateClient?
  {
    if FindClient(rows, e.clientId).Some? then Err(UniqueViolation) else Ok(rows + [Client(e.clientId, e.info)])
  }

  function AddConnection(rows: seq<Connection>, clients: seq<Client>, e: Event): Result<seq<Connection>, Error>
    requires e.OpenConnection?
  {
    match FindClient(clients, e.ofClient)
    case None => Err(ParentNotFound)
    case Some(c) =>
      if FindConnection(rows, e.connectionId).Some? then Err(UniqueViolation)
      else Ok(rows + [Connection(e.connectionId, c, e.info)])
  }

  function AddChannel(rows: seq<Channel>, connections: seq<Connection>, e: Event): Result<seq<Channel>, Error>
    requires e.OpenChannel?
  {
    match FindConnection(connections, e.ofConnection)
    case None => Err(ParentNotFound)
    case Some(c) =>
      if HasChannel(rows, e.channelId) then Err(UniqueViolation)
      else Ok(rows + [Channel(e.channelId, c, e.info, true)])
  }

  function Closed(rows: seq<Channel>, id: string): (r: seq<Channel>)
    ensures |r| == |rows|
  {
    seq(|rows|, i requires 0 <= i < |rows| => if rows[i].channelId == id then rows[i].(open := false) else rows[i])
  }

  // ----- strict event order -----

  function ApplyOne(t: Tables, e: Event): Result<Tables, Error>
  {
    match e
    case CreateClient(_, _) =>
      (match AddClient(t.clients, e) case Err(x) => Err(x) case Ok(rows) => Ok(t.(clients := rows)))
    case OpenConnection(_, _, _) =>
      (match AddConnection(t.connections, t.clients, e) case Err(x) => Err(x) case Ok(rows) => Ok(t.(connections := rows)))
    case OpenChannel(_, _, _) =>
      (match AddChannel(t.channels, t.connections, e) case Err(x) => Err(x) case Ok(rows) => Ok(t.(channels := rows)))
    case CloseChannel(None) => Err(ChannelIdNotFound)
    case CloseChannel(Some(id)) => Ok(t.(channels := Closed(t.channels, id)))
  }

  function Strict(t: Tables, es: seq<Event>): Result<Tables, Error>
    decreases |es|
  {
    if es == [] then Ok(t)
    else
      match ApplyOne(t, es[0])
      case Err(x) => Err(x)
      case Ok(t1) => Strict(t1, es[1..])
  }

  // ----- grouped by kind -----

  function AddClients(rows: seq<Client>, es: seq<Event>): Result<seq<Client>, Error>
    decreases |es|
  {
    if es == [] then Ok(rows)
    else if !es[0].CreateClient? then AddClients(rows, es[1..])
    else
      match AddClient(rows, es[0])
      case Err(x) => Err(x)
      case Ok(rows1) => AddClients(rows1, es[1..])
  }

  function AddConnections(rows: seq<Connection>, clients: seq<Client>, es: seq<Event>): Result<seq<Connection>, Error>
    decreases |es|
  {
    if es == [] then Ok(rows)
    else if !es[0].OpenConnection? then AddConnections(rows, clients, es[1..])
    else
      match AddConnection(rows, clients, es[0])
      case Err(x) => Err(x)
      case Ok(rows1) => AddConnections(rows1, clients, es[1..])
  }

  function AddChannels(rows: seq<Channel>, connections: seq<Connection>, es: seq<Event>): Result<seq<Channel>, Error>
    decreases |es|
  {
    if es == [] then Ok(rows)
    else if !es[0].OpenChannel? then AddChannels(rows, connections, es[1..])
    else
      match AddChannel(rows, connections, es[0])
      case Err(x) => Err(x)
      case Ok(rows1) => AddChannels(rows1, connections, es[1..])
  }

  function CloseChannels(rows: seq<Channel>, es: seq<Event>): Result<seq<Channel>, Error>
    decreases |es|
  {
    if es == [] then Ok(rows)
    else
      match es[0]
      case CloseChannel(None) => Err(ChannelIdNotFound)
      case CloseChannel(Some(id)) => CloseChannels(Closed(rows, id), es[1..])
      case _ => CloseChannels(rows, es[1..])
  }

  function Grouped(t: Tables, es: seq<Event>): Result<Tables, Error>
  {
    match AddClients(t.clients, es)
    case Err(x) => Err(x)
    case Ok(clients) =>
      match AddConnections(t.connections, clients, es)
      case Err(x) => Err(x)
      case Ok(connections) =>
        match AddChannels(t.channels, connections, es)
        case Err(x) => Err(x)
        case Ok(allOpen) =>
          match CloseChannels(allOpen, es)
          case Err(x) => Err(x)
          case Ok(channels) => Ok(Tables(clients, connections, channels))
  }

  /** The three tables and the job that fills them. */
  class CrawlIbcTao {
    var clients: seq<Client>
    var connections: seq<Connection>
    var channels: seq<Channel>

    ghost function State(): Tables
      reads this
    {
      Tables(clients, connections, channels)
    }

    method HandleNewIbcClient(events: seq<Event>) returns (thrown: Option<Error>)
      modifies this`clients
      ensures AddClients(old(clients), events) == (match thrown { case None => Ok(clients) case Some(x) => Err(x) })
    {
      var i := 0;
      while i < |events|
        invariant 0 <= i <= |events|
        invariant AddClients(old(clients), events) == AddClients(clients, events[i..])
      {
        assert events[i..][0] == events[i] && events[i..][1..] == events[i + 1..];
        if events[i].CreateClient? {
          if FindClient(clients, events[i].clientId).Some? {
            return Some(UniqueViolation);
          }
          clients := clients + [Client(events[i].clientId, events[i].info)];
        }
        i := i + 1;
      }
      return None;
    }

    method HandleNewIbcConnection(events: seq<Event>) returns (thrown: Option<Error>)
      modifies this`connections
      ensures AddConnections(old(connections), clients, events)
              == (match thrown { case None => Ok(connections) case Some(x) => Err(x) })
    {
      var i := 0;
      while i < |events|
        invariant 0 <= i <= |events|
        invariant AddConnections(old(connections), clients, events) == AddConnections(connections, clients, events[i..])
      {
        assert events[i..][0] == events[i] && events[i..][1..] == events[i + 1..];
        if events[i].OpenConnection? {
          var parent := FindClient(clients, events[i].ofClient);
          if parent.None? {
            return Some(ParentNotFound);
          }
          if FindConnection(connections, events[i].connectionId).Some? {
            return Some(UniqueViolation);
          }
          connections := connections + [Connection(events[i].connectionId, parent.value, events[i].info)];
        }
        i := i + 1;
      }
      return None;
    }

    method HandleNewIbcChannel(events: seq<Event>) returns (thrown: Option<Error>)
      modifies this`channels
      ensures AddChannels(old(channels), connections, events)
              == (match thrown { case None => Ok(channels) case Some(x) => Err(x) })
    {
      var i := 0;
      while i < |events|
        invariant 0 <= i <= |events|
        invariant AddChannels(old(channels), connections, events) == AddChannels(channels, connections, events[i..])
      {
        assert events[i..][0] == events[i] && events[i..][1..] == events[i + 1..];
        if events[i].OpenChannel? {
          var parent := FindConnection(connections, events[i].ofConnection);
          if parent.None? {
            return Some(ParentNotFound);
          }
          if HasChannel(channels, events[i].channelId) {
            return Some(UniqueViolation);
          }
          channels := channels + [Channel(events[i].channelId, parent.value, events[i].info, true)];
        }
        i := i + 1;
      }
      return None;
    }

    method HandleCloseIbcChannel(events: seq<Event>) returns (thrown: Option<Error>)
      modifies this`channels
      ensures CloseChannels(old(channels), events) == (match thrown { case None => Ok(channels) case Some(x) => Err(x) })
    {
      var i := 0;
      while i < |events|
        invariant 0 <= i <= |events|
        invariant CloseChannels(old(channels), events) == CloseChannels(channels, events[i..])
      {
        assert events[i..][0] == events[i] && events[i..][1..] == events[i + 1..];
        if events[i].CloseChannel? {
          if events[i].closedId.None? {
            return Some(ChannelIdNotFound);
          }
          channels := Closed(channels, events[i].closedId.value);
        }
        i := i + 1;
      }
      return None;
    }

    /** One transaction over the events of a height range; nothing is written when a handler throws. */
    method HandleBatch(events: seq<Event>) returns (thrown: Option<Error>)
      modifies this
      ensures Grouped(old(State()), events) == (match thrown { case None => Ok(State()) case Some(x) => Err(x) })
      ensures thrown.Some? ==> State() == old(State())
    {
      var c0, n0, h0 := clients, connections, channels;
      thrown := HandleNewIbcClient(events);
      if thrown.None? { thrown := HandleNewIbcConnection(events); }
      if thrown.None? { thrown := HandleNewIbcChannel(events); }
      if thrown.None? { thrown := HandleCloseIbcChannel(events); }
      if thrown.Some? {
        clients, connections, channels := c0, n0, h0;
      }
    }
  }

  // ----- lookups do not change when rows are added -----

  lemma {:induction false} FindClientExtends(rows: seq<Client>, more: seq<Client>, id: string)
    requires FindClient(rows, id).Some?
    ensures FindClient(rows + more, id) == FindClient(rows, id)
    decreases |more|
  {
    if more == [] {
      assert rows + more == rows;
    } else {
      FindClientExtends(rows, more[..|more| - 1], id);
      assert (rows + more)[..|rows + more| - 1] == rows + more[..|more| - 1];
    }
  }

  lemma {:induction false} FindConnectionExtends(rows: seq<Connection>, more: seq<Connection>, id: string)
    requires FindConnection(rows, id).Some?
    ensures FindConnection(rows + more, id) == FindConnection(rows, id)
    decreases |more|
  {
    if more == [] {
      assert rows + more == rows;
    } else {
      FindConnectionExtends(rows, more[..|more| - 1], id);
      assert (rows + more)[..|rows + more| - 1] == rows + more[..|more| - 1];
    }
  }

  lemma {:induction false} StrictGrows(t: Tables, es: seq<Event>)
    requires Strict(t, es).Ok?
    ensures var t1 := Strict(t, es).value;
            t.clients <= t1.clients && t.connections <= t1.connections && |t.channels| <= |t1.channels|
    decreases |es|
  {
    if es != [] {
      StrictGrows(ApplyOne(t, es[0]).value, es[1..]);
    }
  }

  // ----- clients and connections: grouping never matters -----

  lemma {:induction false} ClientsAgree(t: Tables, es: seq<Event>)
    requires Strict(t, es).Ok?
    ensures AddClients(t.clients, es) == Ok(Strict(t, es).value.clients)
    decreases |es|
  {
    if es != [] {
      ClientsAgree(ApplyOne(t, es[0]).value, es[1..]);
    }
  }

  lemma {:induction false} ConnectionsAgree(t: Tables, es: seq<Event>)
    requires Strict(t, es).Ok?
    ensures AddConnections(t.connections, Strict(t, es).value.clients, es) == Ok(Strict(t, es).value.connections)
    decreases |es|
  {
    if es != [] {
      var t1 := ApplyOne(t, es[0]).value;
      var final := Strict(t, es).value;
      ConnectionsAgree(t1, es[1..]);
      if es[0].OpenConnection? {
        StrictGrows(t, es);
        FindClientExtends(t.clients, final.clients[|t.clients|..], es[0].ofClient);
        assert t.clients + final.clients[|t.clients|..] == final.clients;
      }
    }
  }

  // ----- channels: only the open flag can differ -----

  ghost predicate UniqueChannels(rows: seq<Channel>)
  {
    forall i, j :: 0 <= i < j < |rows| ==> rows[i].channelId != rows[j].channelId
  }

  /** Equal rows, apart from the open flag. */
  ghost predicate SameButOpen(a: seq<Channel>, b: seq<Channel>)
  {
    |a| == |b| && forall i :: 0 <= i < |a| ==> a[i].(open := true) == b[i].(open := true)
  }

  predicate HasClose(es: seq<Event>, id: string)
  {
    es != [] && (es[0] == CloseChannel(Some(id)) || HasClose(es[1..], id))
  }

  predicate Opens(es: seq<Event>, id: string)
  {
    es != [] && ((es[0].OpenChannel? && es[0].channelId == id) || Opens(es[1..], id))
  }

  predicate ClosesAfterOpen(es: seq<Event>, id: string)
  {
    es != [] && (if es[0].OpenChannel? && es[0].channelId == id then HasClose(es[1..], id) else ClosesAfterOpen(es[1..], id))
  }

  /** Every channel that a batch both opens and closes is closed at some point after it was opened. */
  ghost predicate CloseFollowsOpen(es: seq<Event>)
  {
    forall id :: Opens(es, id) && HasClose(es, id) ==> ClosesAfterOpen(es, id)
  }

  lemma StrictUnique(t: Tables, e: Event)
    requires UniqueChannels(t.channels) && ApplyOne(t, e).Ok?
    ensures UniqueChannels(ApplyOne(t, e).value.channels)
  {
  }

  /** The channel table in strict order. */
  lemma {:induction false} StrictChannels(t: Tables, es: seq<Event>, i: nat)
    requires UniqueChannels(t.channels) && Strict(t, es).Ok? && i < |Strict(t, es).value.channels|
    ensures var c := Strict(t, es).value.channels[i];
            if i < |t.channels| then c == t.channels[i].(open := t.channels[i].open && !HasClose(es, c.channelId))
            else !HasChannel(t.channels, c.channelId) && Opens(es, c.channelId)
                 && c.open == !ClosesAfterOpen(es, c.channelId)
    decreases |es|
  {
    if es != [] {
      var t1 := ApplyOne(t, es[0]).value;
      StrictUnique(t, es[0]);
      StrictChannels(t1, es[1..], i);
      var c := Strict(t, es).value.channels[i];
      if es[0].OpenChannel? {
        if i >= |t1.channels| {
          assert t1.channels[|t.channels|].channelId == es[0].channelId;
          assert forall k :: 0 <= k < |t.channels| ==> t1.channels[k] == t.channels[k];
        }
      } else if es[0].CloseChannel? {
        assert |t1.channels| == |t.channels|;
        assert forall k :: 0 <= k < |t.channels| ==> t1.channels[k].channelId == t.channels[k].channelId;
      }
    }
  }

  /** Opening all channels of a batch gives the rows of strict order, with every new one open. */
  lemma {:induction false} OpenedChannels(t: Tables, x: seq<Channel>, es: seq<Event>)
    requires Strict(t, es).Ok? && SameButOpen(x, t.channels)
    ensures var r := AddChannels(x, Strict(t, es).value.connections, es);
            && r.Ok? && SameButOpen(r.value, Strict(t, es).value.channels)
            && (forall i :: 0 <= i < |r.value| ==> r.value[i].open == (if i < |x| then x[i].open else true))
    decreases |es|
  {
    if es != [] {
      var t1 := ApplyOne(t, es[0]).value;
      var final := Strict(t, es).value;
      if es[0].OpenChannel? {
        StrictGrows(t, es);
        FindConnectionExtends(t.connections, final.connections[|t.connections|..], es[0].ofConnection);
        assert t.connections + final.connections[|t.connections|..] == final.connections;
        var row := FindConnection(final.connections, es[0].ofConnection).value;
        assert !HasChannel(x, es[0].channelId) by {
          forall i | 0 <= i < |x| ensures x[i].channelId != es[0].channelId {
            assert x[i].(open := true) == t.channels[i].(open := true);
          }
        }
        OpenedChannels(t1, x + [Channel(es[0].channelId, row, es[0].info, true)], es[1..]);
      } else {
        OpenedChannels(t1, x, es[1..]);
      }
    }
  }

  /** Closing marks exactly the channels the batch closes. */
  lemma {:induction false} ClosedChannels(x: seq<Channel>, es: seq<Event>)
    requires forall i :: 0 <= i < |es| && es[i].CloseChannel? ==> es[i].closedId.Some?
    ensures CloseChannels(x, es).Ok? && |CloseChannels(x, es).value| == |x|
    ensures forall i :: 0 <= i < |x| ==>
              CloseChannels(x, es).value[i] == x[i].(open := x[i].open && !HasClose(es, x[i].channelId))
    decreases |es|
  {
    if es != [] {
      assert forall i :: 0 <= i < |es[1..]| ==> es[1..][i] == es[i + 1];
      if es[0].CloseChannel? {
        var y := Closed(x, es[0].closedId.value);
        ClosedChannels(y, es[1..]);
        forall i | 0 <= i < |x|
          ensures CloseChannels(x, es).value[i] == x[i].(open := x[i].open && !HasClose(es, x[i].channelId))
        {
          assert y[i].channelId == x[i].channelId;
        }
      } else {
        ClosedChannels(x, es[1..]);
      }
    }
  }

  lemma {:induction false} ClosesHaveIds(t: Tables, es: seq<Event>)
    requires Strict(t, es).Ok?
    ensures forall i :: 0 <= i < |es| && es[i].CloseChannel? ==> es[i].closedId.Some?
    decreases |es|
  {
    if es != [] {
      ClosesHaveIds(ApplyOne(t, es[0]).value, es[1..]);
      assert forall i :: 1 <= i < |es| ==> es[i] == es[1..][i - 1];
    }
  }

  lemma {:induction false} OpenedIsNew(t: Tables, es: seq<Event>, id: string) returns (i: nat)
    requires Strict(t, es).Ok? && Opens(es, id)
    ensures |t.channels| <= i < |Strict(t, es).value.channels| && Strict(t, es).value.channels[i].channelId == id
    decreases |es|
  {
    var t1 := ApplyOne(t, es[0]).value;
    if es[0].OpenChannel? && es[0].channelId == id {
      i := |t.channels|;
      StrictGrows(t1, es[1..]);
      KeepsIds(t1, es[1..], i);
    } else {
      i := OpenedIsNew(t1, es[1..], id);
    }
  }

  lemma {:induction false} KeepsIds(t: Tables, es: seq<Event>, i: nat)
    requires Strict(t, es).Ok? && i < |t.channels|
    ensures i < |Strict(t, es).value.channels| && Strict(t, es).value.channels[i].channelId == t.channels[i].channelId
    decreases |es|
  {
    if es != [] {
      KeepsIds(ApplyOne(t, es[0]).value, es[1..], i);
    }
  }

  /**
   Whenever strict order succeeds, so does grouping, with the same clients and connections; the channel tables are
   the same if and only if no channel of the batch was closed only before it was opened.
   */
  lemma GroupedIsStrictIff(t: Tables, es: seq<Event>)
    requires UniqueChannels(t.channels) && Strict(t, es).Ok?
    ensures Grouped(t, es).Ok?
    ensures Grouped(t, es).value.clients == Strict(t, es).value.clients
    ensures Grouped(t, es).value.connections == Strict(t, es).value.connections
    ensures SameButOpen(Grouped(t, es).value.channels, Strict(t, es).value.channels)
    ensures Grouped(t, es) == Strict(t, es) <==> CloseFollowsOpen(es)
  {
    var s := Strict(t, es).value;
    ClientsAgree(t, es);
    ConnectionsAgree(t, es);
    OpenedChannels(t, t.channels, es);
    ClosesHaveIds(t, es);
    var allOpen := AddChannels(t.channels, s.connections, es).value;
    ClosedChannels(allOpen, es);
    var g := Grouped(t, es).value;
    forall i | 0 <= i < |s.channels|
      ensures g.channels[i].(open := true) == s.channels[i].(open := true)
      ensures g.channels[i].open == ((if i < |t.channels| then t.channels[i].open else true) && !HasClose(es, s.channels[i].channelId))
    {
      assert allOpen[i].(open := true) == s.channels[i].(open := true);
    }
    if CloseFollowsOpen(es) {
      forall i | 0 <= i < |s.channels| ensures g.channels[i] == s.channels[i] {
        StrictChannels(t, es, i);
        HasCloseIfAfterOpen(es, s.channels[i].channelId);
      }
      assert g.channels == s.channels;
    } else {
      var id :| Opens(es, id) && HasClose(es, id) && !ClosesAfterOpen(es, id);
      var i := OpenedIsNew(t, es, id);
      StrictChannels(t, es, i);
      assert g.channels[i] != s.channels[i];
    }
  }

  lemma {:induction false} HasCloseIfAfterOpen(es: seq<Event>, id: string)
    ensures ClosesAfterOpen(es, id) ==> HasClose(es, id)
  {
    if es != [] { HasCloseIfAfterOpen(es[1..], id); }
  }

  /** A batch that closes a channel id and then opens it: open in strict order, closed when grouped. */
  lemma EarlyCloseExample(id: string, conn: string)
    ensures var t := Tables([Client("client", "")], [Connection(conn, 0, "")], []);
            var es := [CloseChannel(Some(id)), OpenChannel(id, conn, "")];
            && UniqueChannels(t.channels)
            && Strict(t, es) == Ok(t.(channels := [Channel(id, 0, "", true)]))
            && Grouped(t, es) == Ok(t.(channels := [Channel(id, 0, "", false)]))
  {
    var t := Tables([Client("client", "")], [Connection(conn, 0, "")], []);
    var es := [CloseChannel(Some(id)), OpenChannel(id, conn, "")];
    var open := es[1];
    var row := Channel(id, 0, "", true);
    assert es[1..] == [open] && [open][1..] == [];
    assert t.connections[..0] == [] && FindConnection([], conn) == None && FindConnection(t.connections, conn) == Some(0);
    assert Closed([], id) == [] && [] + [row] == [row];
    assert AddChannel([], t.connections, open) == Ok([row]);
    assert Strict(t, [open]) == Ok(t.(channels := [row]));
    assert ApplyOne(t, es[0]) == Ok(t);
    assert AddClients(t.clients, [open]) == Ok(t.clients);
    assert AddConnections(t.connections, t.clients, [open]) == Ok(t.connections);
    assert AddChannels([], t.connections, [open]) == Ok([row]);
    assert Closed([row], id) == [Channel(id, 0, "", false)];
    assert CloseChannels(Closed([row], id), [open]) == Ok(Closed([row], id));
  }

  // ----- any batching -----

  function RunBatches(t: Tables, batches: seq<seq<Event>>): Result<Tables, Error>
    decreases |batches|
  {
    if batches == [] then Ok(t)
    else
      match Grouped(t, batches[0])
      case Err(x) => Err(x)
      case Ok(t1) => RunBatches(t1, batches[1..])
  }

  /** A well-formed log: no channel is closed before it is opened. */
  ghost predicate NoEarlyClose(es: seq<Event>)
  {
    forall i, j :: 0 <= i < j < |es| && es[i].CloseChannel? && es[j].OpenChannel? ==> es[i].closedId != Some(es[j].channelId)
  }

  lemma {:induction false} OpensAt(es: seq<Event>, id: string) returns (j: nat)
    requires Opens(es, id)
    ensures j < |es| && es[j].OpenChannel? && es[j].channelId == id
  {
    if es[0].OpenChannel? && es[0].channelId == id {
      j := 0;
    } else {
      j := OpensAt(es[1..], id);
      j := j + 1;
    }
  }

  lemma {:induction false} NoEarlyCloseSuffices(es: seq<Event>, id: string)
    requires NoEarlyClose(es) && Opens(es, id) && HasClose(es, id)
    ensures ClosesAfterOpen(es, id)
  {
    if es[0].OpenChannel? && es[0].channelId == id {
    } else {
      var j := OpensAt(es, id);
      assert es[0] != CloseChannel(Some(id));
      assert forall i :: 0 <= i < |es[1..]| ==> es[1..][i] == es[i + 1];
      NoEarlyCloseSuffices(es[1..], id);
    }
  }

  lemma {:induction false} StrictConcat(t: Tables, a: seq<Event>, b: seq<Event>)
    ensures Strict(t, a + b) == match Strict(t, a) { case Err(x) => Err(x) case Ok(t1) => Strict(t1, b) }
    decreases |a|
  {
    if a == [] {
      assert a + b == b;
    } else {
      assert (a + b)[0] == a[0] && (a + b)[1..] == a[1..] + b;
      if ApplyOne(t, a[0]).Ok? {
        StrictConcat(ApplyOne(t, a[0]).value, a[1..], b);
      }
    }
  }

  lemma {:induction false} StrictKeepsUnique(t: Tables, es: seq<Event>)
    requires UniqueChannels(t.channels) && Strict(t, es).Ok?
    ensures UniqueChannels(Strict(t, es).value.channels)
    decreases |es|
  {
    if es != [] {
      StrictUnique(t, es[0]);
      StrictKeepsUnique(ApplyOne(t, es[0]).value, es[1..]);
    }
  }

  /**
   For a well-formed handshake log, grouping by kind and any cut into batches give the tables of strict event order;
   in particular the parent lookups of the grouped handlers never miss.
   */
  lemma {:induction false} BatchesAreStrict(t: Tables, batches: seq<seq<Event>>)
    requires UniqueChannels(t.channels) && Strict(t, Flatten(batches)).Ok? && NoEarlyClose(Flatten(batches))
    ensures RunBatches(t, batches) == Strict(t, Flatten(batches))
    decreases |batches|
  {
    if batches != [] {
      var a, b := batches[0], Flatten(batches[1..]);
      StrictConcat(t, a, b);
      assert forall i :: 0 <= i < |a| ==> a[i] == (a + b)[i];
      assert forall i :: 0 <= i < |b| ==> b[i] == (a + b)[i + |a|];
      forall id | Opens(a, id) && HasClose(a, id) ensures ClosesAfterOpen(a, id) {
        NoEarlyCloseSuffices(a, id);
      }
      GroupedIsStrictIff(t, a);
      StrictKeepsUnique(t, a);
      BatchesAreStrict(Strict(t, a).value, batches[1..]);
    }
  }

  // ----- the rows, event by event -----

  function ClientsIn(es: seq<Event>): nat
  {
    if es == [] then 0 else (if es[0].CreateClient? then 1 else 0) + ClientsIn(es[1..])
  }

  function ConnectionsIn(es: seq<Event>): nat
  {
    if es == [] then 0 else (if es[0].OpenConnection? then 1 else 0) + ConnectionsIn(es[1..])
  }

  function ChannelsIn(es: seq<Event>): nat
  {
    if es == [] then 0 else (if es[0].OpenChannel? then 1 else 0) + ChannelsIn(es[1..])
  }

  /** `s` has as many more rows than `t` as the events create. */
  predicate GrownBy(t: Tables, es: seq<Event>, s: Tables)
  {
    && |s.clients| == |t.clients| + ClientsIn(es)
    && |s.connections| == |t.connections| + ConnectionsIn(es)
    && |s.channels| == |t.channels| + ChannelsIn(es)
  }

  /** The row of event `j` in `s`: in its turn, with its attributes, pointing to the row of the parent that the event names. */
  predicate StoredAs(t: Tables, es: seq<Event>, j: nat, s: Tables)
    requires j < |es|
  {
    match es[j]
    case CreateClient(id, info) =>
      var i := |t.clients| + ClientsIn(es[..j]);
      i < |s.clients| && s.clients[i].clientId == id && s.clients[i].info == info
    case OpenConnection(id, ofClient, info) =>
      var i := |t.connections| + ConnectionsIn(es[..j]);
      && i < |s.connections| && s.connections[i].connectionId == id && s.connections[i].info == info
      && s.connections[i].clientRow < |s.clients| && s.clients[s.connections[i].clientRow].clientId == ofClient
    case OpenChannel(id, ofConnection, info) =>
      var i := |t.channels| + ChannelsIn(es[..j]);
      && i < |s.channels| && s.channels[i].channelId == id && s.channels[i].info == info
      && s.channels[i].connectionRow < |s.connections| && s.connections[s.channels[i].connectionRow].connectionId == ofConnection
      && s.channels[i].open == !HasClose(es[j + 1..], id)
    case CloseChannel(id) => id.Some?
  }

  /** The first event of a stretch. */
  lemma StoredFirst(t: Tables, es: seq<Event>)
    requires es != [] && UniqueChannels(t.channels) && Strict(t, es).Ok?
    ensures StoredAs(t, es, 0, Strict(t, es).value)
  {
    var t1, s := ApplyOne(t, es[0]).value, Strict(t, es).value;
    StrictGrows(t1, es[1..]);
    if es[0].OpenChannel? {
      var i := |t.channels|;
      StrictUnique(t, es[0]);
      StrictChannels(t1, es[1..], i);
      KeepsRow(t1, es[1..], i);
    }
  }

  lemma {:induction false} KeepsRow(t: Tables, es: seq<Event>, i: nat)
    requires Strict(t, es).Ok? && i < |t.channels|
    ensures i < |Strict(t, es).value.channels|
    ensures Strict(t, es).value.channels[i].(open := true) == t.channels[i].(open := true)
    decreases |es|
  {
    if es != [] { KeepsRow(ApplyOne(t, es[0]).value, es[1..], i); }
  }

  lemma StoredNext(t: Tables, es: seq<Event>, j: nat, s: Tables)
    requires 0 < j < |es| && ApplyOne(t, es[0]).Ok? && StoredAs(ApplyOne(t, es[0]).value, es[1..], j - 1, s)
    ensures StoredAs(t, es, j, s)
  {
    assert es[..j][0] == es[0] && es[..j][1..] == es[1..][..j - 1];
    assert es[1..][j - 1] == es[j] && es[1..][j..] == es[j + 1..];
  }

  lemma {:induction false} StrictStores(t: Tables, es: seq<Event>, j: nat)
    requires UniqueChannels(t.channels) && Strict(t, es).Ok? && j < |es|
    ensures StoredAs(t, es, j, Strict(t, es).value)
    decreases j
  {
    if j == 0 {
      StoredFirst(t, es);
    } else {
      StrictUnique(t, es[0]);
      StrictStores(ApplyOne(t, es[0]).value, es[1..], j - 1);
      StoredNext(t, es, j, Strict(t, es).value);
    }
  }

  lemma {:induction false} StrictCounts(t: Tables, es: seq<Event>)
    requires Strict(t, es).Ok?
    ensures GrownBy(t, es, Strict(t, es).value)
    decreases |es|
  {
    if es != [] { StrictCounts(ApplyOne(t, es[0]).value, es[1..]); }
  }

  /**
   For a well-formed log in any batches: every event has its row, in the order of the log, which names the row of the
   right client or connection, and there are no other new rows.
   */
  lemma BatchesStore(t: Tables, batches: seq<seq<Event>>, j: nat)
    requires UniqueChannels(t.channels) && Strict(t, Flatten(batches)).Ok? && NoEarlyClose(Flatten(batches))
    ensures RunBatches(t, batches).Ok? && GrownBy(t, Flatten(batches), RunBatches(t, batches).value)
    ensures j < |Flatten(batches)| ==> StoredAs(t, Flatten(batches), j, RunBatches(t, batches).value)
  {
    BatchesAreStrict(t, batches);
    StrictCounts(t, Flatten(batches));
    if j < |Flatten(batches)| { StrictStores(t, Flatten(batches), j); }
  }

  // ----- when a log goes through -----

  /** A client row with this id is in the table, or comes from an event before position `j`. */
  ghost predicate KnownClient(t: Tables, es: seq<Event>, j: nat, id: string)
  {
    || (exists i :: 0 <= i < |t.clients| && t.clients[i].clientId == id)
    || (exists k :: 0 <= k < j && k < |es| && es[k].CreateClient? && es[k].clientId == id)
  }

  /** A connection row with this id is in the table, or comes from an event before position `j`. */
  ghost predicate KnownConnection(t: Tables, es: seq<Event>, j: nat, id: string)
  {
    || (exists i :: 0 <= i < |t.connections| && t.connections[i].connectionId == id)
    || (exists k :: 0 <= k < j && k < |es| && es[k].OpenConnection? && es[k].connectionId == id)
  }

  /** A channel row with this id is in the table, or comes from an event before position `j`. */
  ghost predicate KnownChannel(t: Tables, es: seq<Event>, j: nat, id: string)
  {
    || (exists i :: 0 <= i < |t.channels| && t.channels[i].channelId == id)
    || (exists k :: 0 <= k < j && k < |es| && es[k].OpenChannel? && es[k].channelId == id)
  }

  /** New ids are new, parents are there already, and a close names its channel. */
  ghost predicate AcceptedAt(t: Tables, es: seq<Event>, j: nat)
    requires j < |es|
  {
    match es[j]
    case CreateClient(id, _) => !KnownClient(t, es, j, id)
    case OpenConnection(id, ofClient, _) => KnownClient(t, es, j, ofClient) && !KnownConnection(t, es, j, id)
    case OpenChannel(id, ofConnection, _) => KnownConnection(t, es, j, ofConnection) && !KnownChannel(t, es, j, id)
    case CloseChannel(id) => id.Some?
  }

  lemma KnownClientTail(t: Tables, es: seq<Event>, j: nat, id: string)
    requires 0 < j <= |es| && ApplyOne(t, es[0]).Ok?
    ensures KnownClient(t, es, j, id) <==> KnownClient(ApplyOne(t, es[0]).value, es[1..], j - 1, id)
  {
    var t1, rest := ApplyOne(t, es[0]).value, es[1..];
    assert |t.clients| <= |t1.clients| <= |t.clients| + 1;
    assert forall i :: 0 <= i < |t.clients| ==> t1.clients[i].clientId == t.clients[i].clientId;
    assert |t1.clients| > |t.clients| <==> es[0].CreateClient?;
    if KnownClient(t, es, j, id) {
      if i :| 0 <= i < |t.clients| && t.clients[i].clientId == id {
        assert t1.clients[i].clientId == id;
      } else {
        var k :| 0 <= k < j && es[k].CreateClient? && es[k].clientId == id;
        if k == 0 { assert t1.clients[|t.clients|].clientId == id; } else { assert rest[k - 1] == es[k]; }
      }
    }
    if KnownClient(t1, rest, j - 1, id) {
      if i :| 0 <= i < |t1.clients| && t1.clients[i].clientId == id {
        if i < |t.clients| { assert t.clients[i].clientId == id; } else { assert es[0].CreateClient? && es[0].clientId == id; }
      } else {
        var k :| 0 <= k < j - 1 && rest[k].CreateClient? && rest[k].clientId == id;
        assert es[k + 1] == rest[k];
      }
    }
  }

  lemma KnownConnectionTail(t: Tables, es: seq<Event>, j: nat, id: string)
    requires 0 < j <= |es| && ApplyOne(t, es[0]).Ok?
    ensures KnownConnection(t, es, j, id) <==> KnownConnection(ApplyOne(t, es[0]).value, es[1..], j - 1, id)
  {
    var t1, rest := ApplyOne(t, es[0]).value, es[1..];
    assert |t.connections| <= |t1.connections| <= |t.connections| + 1;
    assert forall i :: 0 <= i < |t.connections| ==> t1.connections[i].connectionId == t.connections[i].connectionId;
    assert |t1.connections| > |t.connections| <==> es[0].OpenConnection?;
    if KnownConnection(t, es, j, id) {
      if i :| 0 <= i < |t.connections| && t.connections[i].connectionId == id {
        assert t1.connections[i].connectionId == id;
      } else {
        var k :| 0 <= k < j && es[k].OpenConnection? && es[k].connectionId == id;
        if k == 0 { assert t1.connections[|t.connections|].connectionId == id; } else { assert rest[k - 1] == es[k]; }
      }
    }
    if KnownConnection(t1, rest, j - 1, id) {
      if i :| 0 <= i < |t1.connections| && t1.connections[i].connectionId == id {
        if i < |t.connections| { assert t.connections[i].connectionId == id; } else { assert es[0].OpenConnection? && es[0].connectionId == id; }
      } else {
        var k :| 0 <= k < j - 1 && rest[k].OpenConnection? && rest[k].connectionId == id;
        assert es[k + 1] == rest[k];
      }
    }
  }

  lemma KnownChannelTail(t: Tables, es: seq<Event>, j: nat, id: string)
    requires 0 < j <= |es| && ApplyOne(t, es[0]).Ok?
    ensures KnownChannel(t, es, j, id) <==> KnownChannel(ApplyOne(t, es[0]).value, es[1..], j - 1, id)
  {
    var t1, rest := ApplyOne(t, es[0]).value, es[1..];
    assert |t.channels| <= |t1.channels| <= |t.channels| + 1;
    assert forall i :: 0 <= i < |t.channels| ==> t1.channels[i].channelId == t.channels[i].channelId;
    assert |t1.channels| > |t.channels| <==> es[0].OpenChannel?;
    if KnownChannel(t, es, j, id) {
      if i :| 0 <= i < |t.channels| && t.channels[i].channelId == id {
        assert t1.channels[i].channelId == id;
      } else {
        var k :| 0 <= k < j && es[k].OpenChannel? && es[k].channelId == id;
        if k == 0 { assert t1.channels[|t.channels|].channelId == id; } else { assert rest[k - 1] == es[k]; }
      }
    }
    if KnownChannel(t1, rest, j - 1, id) {
      if i :| 0 <= i < |t1.channels| && t1.channels[i].channelId == id {
        if i < |t.channels| { assert t.channels[i].channelId == id; } else { assert es[0].OpenChannel? && es[0].channelId == id; }
      } else {
        var k :| 0 <= k < j - 1 && rest[k].OpenChannel? && rest[k].channelId == id;
        assert es[k + 1] == rest[k];
      }
    }
  }

  lemma AcceptedTail(t: Tables, es: seq<Event>, j: nat)
    requires 0 < j < |es| && ApplyOne(t, es[0]).Ok?
    ensures AcceptedAt(t, es, j) <==> AcceptedAt(ApplyOne(t, es[0]).value, es[1..], j - 1)
  {
    assert es[1..][j - 1] == es[j];
    match es[j]
    case CreateClient(id, _) => KnownClientTail(t, es, j, id);
    case OpenConnection(id, ofClient, _) =>
      KnownClientTail(t, es, j, ofClient);
      KnownConnectionTail(t, es, j, id);
    case OpenChannel(id, ofConnection, _) =>
      KnownConnectionTail(t, es, j, ofConnection);
      KnownChannelTail(t, es, j, id);
    case CloseChannel(_) =>
  }

  /** Strict order succeeds if and only if every event is acceptable where it stands. */
  lemma {:induction false} StrictOkIff(t: Tables, es: seq<Event>)
    ensures Strict(t, es).Ok? <==> forall j: nat :: j < |es| ==> AcceptedAt(t, es, j)
    decreases |es|
  {
    if es != [] {
      assert ApplyOne(t, es[0]).Ok? <==> AcceptedAt(t, es, 0);
      if ApplyOne(t, es[0]).Ok? {
        var t1, rest := ApplyOne(t, es[0]).value, es[1..];
        StrictOkIff(t1, rest);
        forall j: nat | 0 < j < |es| ensures AcceptedAt(t, es, j) <==> AcceptedAt(t1, rest, j - 1) { AcceptedTail(t, es, j); }
        if forall j: nat :: j < |es| ==> AcceptedAt(t, es, j) {
          forall j: nat | j < |rest| ensures AcceptedAt(t1, rest, j) { assert AcceptedAt(t, es, j + 1); }
        }
      }
    }
  }
}
