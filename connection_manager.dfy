/**
 * The session registry: the live WebSocket connections, each with the display
 * name it joined under, and the fan-out of outbound frames to all of them.
 *
 * Python dicts keep insertion order, and the broadcasts iterate over a snapshot
 * `list(self.active_connections.keys())`; so the registry keeps the key order
 * (`order`) beside the map itself. Display names need not be unique.
 */
module Connections {
  import opened Wrappers
  import opened ChatProtocol
  import opened Network

  /** `s` with `x` removed, the relative order of the others kept. */
  function Without(s: seq<ConnId>, x: ConnId): (r: seq<ConnId>)
    ensures forall y :: y in r <==> y in s && y != x
    ensures Distinct(s) ==> Distinct(r)
    ensures x !in s ==> r == s
    ensures |r| <= |s|
  {
    if s == [] then []
    else if s[0] == x then Without(s[1..], x)
    else
      var rest := Without(s[1..], x);
      assert Distinct(s) ==> Distinct(s[1..]) && s[0] !in s[1..];
      [s[0]] + rest
  }

  /** The display names of `ts`, one per connection, in the order of `ts`. */
  function NamesInOrder(ts: seq<ConnId>, names: map<ConnId, string>): (r: seq<string>)
    requires forall c :: c in ts ==> c in names
    ensures |r| == |ts|
    ensures forall i :: 0 <= i < |ts| ==> r[i] == names[ts[i]]
  {
    seq(|ts|, i requires 0 <= i < |ts| => names[ts[i]])
  }

  /** The connections registered under name `n`. */
  ghost function HoldersOf(names: map<ConnId, string>, n: string): set<ConnId>
  {
    set c | c in names && names[c] == n
  }

  /** The connections of `ts` registered under name `n`. */
  ghost function HoldersIn(ts: seq<ConnId>, names: map<ConnId, string>, n: string): set<ConnId>
  {
    set c | c in ts && c in names && names[c] == n
  }

  ghost function Elements(s: seq<ConnId>): set<ConnId>
  {
    set c | c in s
  }

  /** A sequence without repetitions has as many elements as its set. */
  lemma {:induction false} DistinctCardinality(s: seq<ConnId>)
    requires Distinct(s)
    ensures |Elements(s)| == |s|
    decreases |s|
  {
    if s != [] {
      var init := s[..|s| - 1];
      var last := s[|s| - 1];
      assert Distinct(init);
      DistinctCardinality(init);
      assert s == init + [last];
      assert Elements(s) == Elements(init) + {last};
      assert last !in Elements(init);
    }
  }

  /**
   * Each connection contributes exactly one occurrence of its name: the number of
   * times `n` occurs in the names of `ts` is the number of connections of `ts`
   * registered under `n`.
   */
  lemma {:induction false} NamesInOrderCount(ts: seq<ConnId>, names: map<ConnId, string>, n: string)
    requires Distinct(ts)
    requires forall c :: c in ts ==> c in names
    ensures multiset(NamesInOrder(ts, names))[n] == |HoldersIn(ts, names, n)|
    decreases |ts|
  {
    if ts == [] {
      assert HoldersIn(ts, names, n) == {};
    } else {
      var init := ts[..|ts| - 1];
      var last := ts[|ts| - 1];
      assert ts == init + [last];
      assert Distinct(init);
      NamesInOrderCount(init, names, n);
      assert NamesInOrder(ts, names) == NamesInOrder(init, names) + [names[last]];
      assert multiset(NamesInOrder(ts, names)) == multiset(NamesInOrder(init, names)) + multiset{names[last]};
      assert last !in init;
      if names[last] == n {
        assert HoldersIn(ts, names, n) == HoldersIn(init, names, n) + {last};
      } else {
        assert HoldersIn(ts, names, n) == HoldersIn(init, names, n);
      }
    }
  }

  class ConnectionManager {
    /** The keys of `active_connections`, in insertion order. */
    var order: seq<ConnId>
    /** `active_connections`: WebSocket -> display name. */
    var activeConnections: map<ConnId, string>

    ghost predicate Valid()
      reads this
    {
      && Distinct(order)
      && (forall c :: c in order <==> c in activeConnections)
    }

    constructor ()
      ensures Valid()
      ensures activeConnections == map[] && order == []
    {
      order := [];
      activeConnections := map[];
    }

    /**
     * Registers `ws` under `clientName`. A handle already present keeps its place
     * in the key order and gets the new name; other entries are untouched, even
     * those with the same name.
     */
    method Connect(ws: ConnId, clientName: string)
      requires Valid()
      modifies this
      ensures Valid()
      ensures activeConnections == old(activeConnections)[ws := clientName]
      ensures order == if ws in old(activeConnections) then old(order) else old(order) + [ws]
    {
      if ws !in activeConnections {
        order := order + [ws];
      }
      activeConnections := activeConnections[ws := clientName];
    }

    /** `active_connections.pop(websocket, None)`: removes `ws` if present, else does nothing. */
    method Disconnect(ws: ConnId)
      requires Valid()
      modifies this
      ensures Valid()
      ensures activeConnections == old(activeConnections) - {ws}
      ensures order == Without(old(order), ws)
      ensures ws !in old(activeConnections) ==> activeConnections == old(activeConnections) && order == old(order)
    {
      order := Without(order, ws);
      activeConnections := activeConnections - {ws};
    }

    /** `list(self.active_connections.values())`: one name per connection, in key order. */
    function GetUserNames(): (names: seq<string>)
      reads this
      requires Valid()
      ensures |names| == |order|
      ensures forall i :: 0 <= i < |order| ==> names[i] == activeConnections[order[i]]
    {
      NamesInOrder(order, activeConnections)
    }

    /** Some live connection is registered under `clientName`. */
    function HasNameActive(clientName: string): (b: bool)
      reads this
      requires Valid()
      ensures b <==> clientName in activeConnections.Values
      ensures b <==> clientName in GetUserNames()
    {
      var names := GetUserNames();
      if clientName in activeConnections.Values then
        var c :| c in activeConnections && activeConnections[c] == clientName;
        var i :| 0 <= i < |order| && order[i] == c;
        assert names[i] == clientName;
        true
      else
        false
    }

    /** Sends `f` once to every connection of the snapshot taken at entry, in snapshot order. */
    method BroadcastFrame(f: Frame, sockets: Sockets)
      requires Valid()
      modifies sockets
      ensures sockets.sent == old(sockets.sent) + Fanout(order, f)
      ensures forall c :: sockets.OutboxOf(c) == old(sockets.OutboxOf(c)) + if c in order then [f] else []
    {
      var snapshot := order;
      var i := 0;
      while i < |snapshot|
        invariant 0 <= i <= |snapshot|
        invariant sockets.sent == old(sockets.sent) + Fanout(snapshot[..i], f)
      {
        sockets.SendText(snapshot[i], f);
        assert Fanout(snapshot[..i + 1], f) == Fanout(snapshot[..i], f) + [Delivery(snapshot[i], f)];
        i := i + 1;
      }
      assert snapshot[..i] == snapshot;
      forall c
        ensures Outbox(sockets.sent, c) == Outbox(old(sockets.sent), c) + if c in order then [f] else []
      {
        OutboxAppend(old(sockets.sent), Fanout(order, f), c);
        FanoutOutbox(order, f, c);
      }
    }

    /** `broadcast(message)`: the raw string to every live connection. */
    method Broadcast(message: string, sockets: Sockets)
      requires Valid()
      modifies sockets
      ensures sockets.sent == old(sockets.sent) + Fanout(order, RawText(message))
    {
      BroadcastFrame(RawText(message), sockets);
    }

    /** `broadcast_json(payload)`: the JSON text of `payload` to every live connection. */
    method BroadcastJson(payload: Payload, sockets: Sockets)
      requires Valid()
      modifies sockets
      ensures sockets.sent == old(sockets.sent) + Fanout(order, JsonText(payload))
    {
      BroadcastFrame(JsonText(payload), sockets);
    }

    /** `broadcast_users(users)`: the roster event for `users` to every live connection. */
    method BroadcastUsers(users: seq<Value>, sockets: Sockets)
      requires Valid()
      modifies sockets
      ensures sockets.sent == old(sockets.sent) + Fanout(order, JsonText(BuildUsersPayload(users)))
    {
      BroadcastJson(BuildUsersPayload(users), sockets);
    }

    /** The argument-less `broadcast_users()`: the roster event listing `get_user_names()`. */
    method BroadcastUserNames(sockets: Sockets)
      requires Valid()
      modifies sockets
      ensures sockets.sent == old(sockets.sent) + Fanout(order, JsonText(BuildUsersPayload(NamesAsJson(GetUserNames()))))
    {
      BroadcastUsers(NamesAsJson(GetUserNames()), sockets);
    }
  }

  /** A list of names as a JSON array's items. */
  function NamesAsJson(names: seq<string>): (items: seq<Value>)
    ensures |items| == |names|
    ensures forall i :: 0 <= i < |names| ==> items[i] == Str(names[i])
  {
    seq(|names|, i requires 0 <= i < |names| => Str(names[i]))
  }

  /**
   * `get_user_names()` lists exactly one name per live connection: as many names as
   * connections, and each name as often as there are connections registered under it.
   */
  lemma UserNamesCount(order: seq<ConnId>, names: map<ConnId, string>, n: string)
    requires Distinct(order)
    requires forall c :: c in order <==> c in names
    ensures |NamesInOrder(order, names)| == |names|
    ensures multiset(NamesInOrder(order, names))[n] == |HoldersOf(names, n)|
  {
    DistinctCardinality(order);
    assert Elements(order) == names.Keys;
    NamesInOrderCount(order, names, n);
    assert HoldersIn(order, names, n) == HoldersOf(names, n);
  }

  /** Disconnecting a handle that was just connected fresh restores the registry it joined. */
  lemma {:induction false} ConnectDisconnectInverse(order: seq<ConnId>, names: map<ConnId, string>, ws: ConnId, name: string)
    requires ws !in order && ws !in names
    ensures Without(order + [ws], ws) == order
    ensures names[ws := name] - {ws} == names
    decreases |order|
  {
    if order != [] {
      assert (order + [ws])[1..] == order[1..] + [ws];
      ConnectDisconnectInverse(order[1..], names, ws, name);
    }
  }

  /** Two disconnects of the same handle leave the registry as one does. */
  lemma DisconnectIdempotent(order: seq<ConnId>, names: map<ConnId, string>, ws: ConnId)
    ensures Without(Without(order, ws), ws) == Without(order, ws)
    ensures (names - {ws}) - {ws} == names - {ws}
  {
  }
}
