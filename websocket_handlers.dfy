/**
 * The per-connection session of the chat relay: display-name resolution, the
 * join sequence (register, mark online, replay history, announce), one step of
 * the message loop (persist, then broadcast) and the leave sequence (unregister,
 * announce, mark offline unless another connection holds the name).
 *
 * Each of join, message and leave is one atomic step. The presence part of the
 * state is also described as a pure transition system (`World`, `Step`), over
 * which the presence invariant is proved for every sequence of steps.
 */
module WebSocketHandlers {
  import opened Wrappers
  import opened ChatProtocol
  import opened Network
  import opened Connections
  import opened MessageStore

  // ---------------------------------------------------------------------
  // Display-name resolution

  /** The characters Python's `str.strip()` removes (`str.isspace()`). */
  predicate IsSpace(c: char)
  {
    var k := c as int;
    || k == 0x20 || 0x09 <= k <= 0x0D || 0x1C <= k <= 0x1F
    || k == 0x85 || k == 0xA0 || k == 0x1680 || 0x2000 <= k <= 0x200A
    || k == 0x2028 || k == 0x2029 || k == 0x202F || k == 0x205F || k == 0x3000
  }

  predicate AllSpace(s: string)
  {
    forall i :: 0 <= i < |s| ==> IsSpace(s[i])
  }

  /** The index of the first non-whitespace character of `s` at or after `i`, or `|s|`. */
  function SkipSpace(s: string, i: nat): (k: nat)
    requires i <= |s|
    ensures i <= k <= |s|
    ensures forall m :: i <= m < k ==> IsSpace(s[m])
    ensures k == |s| || !IsSpace(s[k])
    decreases |s| - i
  {
    if i < |s| && IsSpace(s[i]) then SkipSpace(s, i + 1) else i
  }

  /** Scanning back from `j` to no lower than `lo`: one past the last non-whitespace character. */
  function SkipSpaceBack(s: string, lo: nat, j: nat): (k: nat)
    requires lo <= j <= |s|
    ensures lo <= k <= j
    ensures forall m :: k <= m < j ==> IsSpace(s[m])
    ensures k == lo || !IsSpace(s[k - 1])
    decreases j
  {
    if lo < j && IsSpace(s[j - 1]) then SkipSpaceBack(s, lo, j - 1) else j
  }

  /** `s.strip()`: the leading whitespace is skipped, then the trailing whitespace of the rest. */
  function Strip(s: string): string
  {
    var i := SkipSpace(s, 0);
    s[i..SkipSpaceBack(s, i, |s|)]
  }

  /** The stripped string is a slice of the input with only whitespace cut off each end. */
  lemma StripIsSlice(s: string)
    ensures exists i, j :: 0 <= i <= j <= |s| && Strip(s) == s[i..j] && AllSpace(s[..i]) && AllSpace(s[j..])
  {
    var i := SkipSpace(s, 0);
    var j := SkipSpaceBack(s, i, |s|);
    assert AllSpace(s[..i]) by {
      forall m | 0 <= m < i ensures IsSpace(s[..i][m]) {
        assert s[..i][m] == s[m];
      }
    }
    assert AllSpace(s[j..]) by {
      forall m | 0 <= m < |s| - j ensures IsSpace(s[j..][m]) {
        assert s[j..][m] == s[j + m];
      }
    }
  }

  /** The stripped string neither starts nor ends with whitespace. */
  lemma StripEnds(s: string)
    ensures Strip(s) == [] || (!IsSpace(Strip(s)[0]) && !IsSpace(Strip(s)[|Strip(s)| - 1]))
  {
    var i := SkipSpace(s, 0);
    var j := SkipSpaceBack(s, i, |s|);
    if i < j {
      assert Strip(s)[0] == s[i];
      assert Strip(s)[|Strip(s)| - 1] == s[j - 1];
    }
  }

  /** Stripping yields the empty string exactly for all-whitespace input. */
  lemma StripEmpty(s: string)
    ensures Strip(s) == [] <==> AllSpace(s)
  {
    var i := SkipSpace(s, 0);
    var j := SkipSpaceBack(s, i, |s|);
    if AllSpace(s) {
      assert i == |s|;
    }
    if Strip(s) == [] {
      assert j == i;
      assert i == |s|;
    }
  }

  /** Stripping twice strips nothing more. */
  lemma StripIdempotent(s: string)
    ensures Strip(Strip(s)) == Strip(s)
  {
    var r := Strip(s);
    StripEnds(s);
    if r != [] {
      StripUntrimmed(r);
    }
  }

  /** `str(uuid.uuid4())[:8]`: eight lower-case hexadecimal digits. */
  predicate IsFallbackId(id: string)
  {
    |id| == 8 && forall i :: 0 <= i < 8 ==> ('0' <= id[i] <= '9' || 'a' <= id[i] <= 'f')
  }

  /**
   * The display name of a session: the requested `name` query parameter stripped,
   * or `anon-` followed by the fallback id when nothing but whitespace was requested.
   */
  function ResolveName(requested: Option<string>, fallbackId: string): (name: string)
    ensures name != ""
    ensures requested.Some? && !AllSpace(requested.value) ==> name == Strip(requested.value)
    ensures requested.None? || AllSpace(requested.value) ==> name == "anon-" + fallbackId
  {
    StripEmpty(OrDefault(requested, ""));
    var requestedName := Strip(OrDefault(requested, ""));
    if requestedName != "" then requestedName else "anon-" + fallbackId
  }

  /** A string that neither starts nor ends with whitespace is its own `strip()`. */
  lemma StripUntrimmed(s: string)
    requires s != [] && !IsSpace(s[0]) && !IsSpace(s[|s| - 1])
    ensures Strip(s) == s
  {
    assert SkipSpace(s, 0) == 0;
    assert SkipSpaceBack(s, 0, |s|) == |s|;
  }

  /** A generated name `anon-<id>` has no surrounding whitespace. */
  lemma AnonNameIsTrimmed(fallbackId: string)
    requires IsFallbackId(fallbackId)
    ensures Strip("anon-" + fallbackId) == "anon-" + fallbackId
  {
    var name := "anon-" + fallbackId;
    assert name[0] == 'a';
    assert name[|name| - 1] == fallbackId[7];
    StripUntrimmed(name);
  }

  /** A resolved name never starts or ends with whitespace. */
  lemma ResolvedNameIsTrimmed(requested: Option<string>, fallbackId: string)
    requires IsFallbackId(fallbackId)
    ensures Strip(ResolveName(requested, fallbackId)) == ResolveName(requested, fallbackId)
  {
    if requested.Some? && !AllSpace(requested.value) {
      StripIdempotent(requested.value);
    } else {
      AnonNameIsTrimmed(fallbackId);
    }
  }

  // ---------------------------------------------------------------------
  // Presence as a transition system

  /** The registry (connection -> name) and the presence table (name -> online). */
  datatype World = World(registry: map<ConnId, string>, online: map<string, bool>)

  predicate NameOnline(online: map<string, bool>, n: string)
  {
    n in online && online[n]
  }

  predicate NameActive(registry: map<ConnId, string>, n: string)
  {
    n in registry.Values
  }

  /** A name is marked online exactly when some registered connection holds it. */
  ghost predicate PresenceConsistent(w: World)
  {
    forall n :: NameOnline(w.online, n) <==> NameActive(w.registry, n)
  }

  /** An atomic session step: a fresh connection joins under a name, or a registered one leaves. */
  datatype Step = Join(ws: ConnId, name: string) | Leave(ws: ConnId)

  predicate Enabled(w: World, s: Step)
  {
    match s
    case Join(ws, _) => ws !in w.registry
    case Leave(ws) => ws in w.registry
  }

  /** `connect`, `upsert_user`, `set_user_online(name, True)`. */
  function JoinWorld(w: World, ws: ConnId, name: string): World
  {
    World(w.registry[ws := name], OnlineSet(Upserted(w.online, name), name, true))
  }

  /** `disconnect`, then `set_user_online(name, False)` unless the name is still held. */
  function LeaveWorld(w: World, ws: ConnId): World
    requires ws in w.registry
  {
    var name := w.registry[ws];
    var registry := w.registry - {ws};
    World(registry, if NameActive(registry, name) then w.online else OnlineSet(w.online, name, false))
  }

  function Apply(w: World, s: Step): World
    requires Enabled(w, s)
  {
    match s
    case Join(ws, name) => JoinWorld(w, ws, name)
    case Leave(ws) => LeaveWorld(w, ws)
  }

  /** Every step of `steps` is enabled in the world it is applied to. */
  predicate Admissible(w: World, steps: seq<Step>)
    decreases |steps|
  {
    steps == [] || (Enabled(w, steps[0]) && Admissible(Apply(w, steps[0]), steps[1..]))
  }

  function Run(w: World, steps: seq<Step>): World
    requires Admissible(w, steps)
    decreases |steps|
  {
    if steps == [] then w else Run(Apply(w, steps[0]), steps[1..])
  }

  /** A join makes its name online and changes no other name's presence or holders. */
  lemma JoinPreservesPresence(w: World, ws: ConnId, name: string)
    requires PresenceConsistent(w) && ws !in w.registry
    ensures PresenceConsistent(JoinWorld(w, ws, name))
    ensures NameOnline(JoinWorld(w, ws, name).online, name)
  {
    var w' := JoinWorld(w, ws, name);
    forall n
      ensures NameOnline(w'.online, n) <==> NameActive(w'.registry, n)
    {
      if n == name {
        assert w'.registry[ws] == name;
      } else {
        if NameActive(w.registry, n) {
          var c :| c in w.registry && w.registry[c] == n;
          assert c != ws && w'.registry[c] == n;
        }
        if NameActive(w'.registry, n) {
          var c :| c in w'.registry && w'.registry[c] == n;
          assert c != ws && w.registry[c] == n;
        }
      }
    }
  }

  /** A leave keeps a name online while another connection holds it, and only then. */
  lemma LeavePreservesPresence(w: World, ws: ConnId)
    requires PresenceConsistent(w) && ws in w.registry
    ensures PresenceConsistent(LeaveWorld(w, ws))
    ensures NameOnline(LeaveWorld(w, ws).online, w.registry[ws]) <==> NameActive(w.registry - {ws}, w.registry[ws])
  {
    var name := w.registry[ws];
    var w' := LeaveWorld(w, ws);
    assert NameActive(w.registry, name);
    forall n
      ensures NameOnline(w'.online, n) <==> NameActive(w'.registry, n)
    {
      if n != name {
        if NameActive(w.registry, n) {
          var c :| c in w.registry && w.registry[c] == n;
          assert c != ws && w'.registry[c] == n;
        }
        if NameActive(w'.registry, n) {
          var c :| c in w'.registry && w'.registry[c] == n;
          assert w.registry[c] == n;
        }
      }
    }
  }

  lemma StepPreservesPresence(w: World, s: Step)
    requires PresenceConsistent(w) && Enabled(w, s)
    ensures PresenceConsistent(Apply(w, s))
  {
    match s
    case Join(ws, name) => JoinPreservesPresence(w, ws, name);
    case Leave(ws) => LeavePreservesPresence(w, ws);
  }

  /**
   * The presence invariant: over any sequence of atomic joins and leaves, a name is
   * online exactly when at least one registered connection holds it.
   */
  lemma {:induction false} PresenceInvariant(w: World, steps: seq<Step>)
    requires PresenceConsistent(w) && Admissible(w, steps)
    ensures PresenceConsistent(Run(w, steps))
    decreases |steps|
  {
    if steps != [] {
      StepPreservesPresence(w, steps[0]);
      PresenceInvariant(Apply(w, steps[0]), steps[1..]);
    }
  }

  /** Two tabs named "alice": the first to leave keeps alice online, the second turns her offline. */
  lemma TwoTabsSameName()
    ensures var w0 := World(map[], map[]);
            var w2 := Run(w0, [Join(1, "alice"), Join(2, "alice")]);
            var w3 := Run(w2, [Leave(1)]);
            var w4 := Run(w3, [Leave(2)]);
            && NameOnline(w2.online, "alice")
            && NameOnline(w3.online, "alice")
            && !NameOnline(w4.online, "alice")
  {
    var w0 := World(map[], map[]);
    var w1 := JoinWorld(w0, 1, "alice");
    var w2 := JoinWorld(w1, 2, "alice");
    assert Run(w0, [Join(1, "alice"), Join(2, "alice")]) == w2 by {
      assert [Join(1, "alice"), Join(2, "alice")][1..] == [Join(2, "alice")];
    }
    assert w2.registry == map[1 := "alice", 2 := "alice"];
    var w3 := LeaveWorld(w2, 1);
    assert w3.registry == map[2 := "alice"];
    assert w3.registry[2] == "alice";
    assert w3 == Run(w2, [Leave(1)]);
    var w4 := LeaveWorld(w3, 2);
    assert w4.registry == map[];
    assert w4 == Run(w3, [Leave(2)]);
  }

  // ---------------------------------------------------------------------
  // What the session sends

  /** The system notice broadcast when `name` joins: `f"{name} entrou no chat"`. */
  function JoinNotice(name: string): Payload
  {
    BuildMessagePayload("system", name + " entrou no chat", None)
  }

  /** The system notice broadcast when `name` leaves: `f"{name} saiu do chat"`. */
  function LeaveNotice(name: string): Payload
  {
    BuildMessagePayload("system", name + " saiu do chat", None)
  }

  /** A stored row replayed to a joining connection. */
  function HistoryPayload(row: Row): Payload
  {
    BuildMessagePayload(RowMessageType(row), row.content, Some(row.clientId), Some(row.createdAt), true)
  }

  /** A stored row as it was broadcast live, right after it was persisted. */
  function LivePayload(row: Row): Payload
  {
    BuildMessagePayload(RowMessageType(row), row.content, Some(row.clientId))
  }

  /** Replay and live broadcast of a row agree on everything but the timestamp and the history flag. */
  lemma ReplayMatchesLive(row: Row)
    ensures ReadMessagePayload(HistoryPayload(row))
         == Some(MessageEvent(RowMessageType(row), Some(row.clientId), row.content, Some(row.createdAt), true))
    ensures ReadMessagePayload(LivePayload(row))
         == Some(MessageEvent(RowMessageType(row), Some(row.clientId), row.content, None, false))
  {
  }

  function HistoryFrames(rows: seq<Row>): (frames: seq<Frame>)
    ensures |frames| == |rows|
  {
    seq(|rows|, i requires 0 <= i < |rows| => JsonText(HistoryPayload(rows[i])))
  }

  /** Everything the join sequence sends: private replay, then the notice and roster to all. */
  function JoinTrace(ws: ConnId, history: seq<Row>, order: seq<ConnId>, name: string, roster: seq<Value>): seq<Delivery>
  {
    SendAll(ws, HistoryFrames(history)) + Announcement(order, JoinNotice(name), roster)
  }

  /** Everything the leave sequence sends: the notice and the roster to those still connected. */
  function LeaveTrace(order: seq<ConnId>, name: string, roster: seq<Value>): seq<Delivery>
  {
    Announcement(order, LeaveNotice(name), roster)
  }

  /** A system notice to every registered connection, followed by the roster. */
  function Announcement(order: seq<ConnId>, notice: Payload, roster: seq<Value>): seq<Delivery>
  {
    Fanout(order, JsonText(notice)) + Fanout(order, JsonText(BuildUsersPayload(roster)))
  }

  /**
   * What each connection receives from a join: the joining connection alone gets the
   * replay, and every registered connection, the joiner included, gets the notice and
   * then the roster.
   */
  lemma JoinOutboxes(ws: ConnId, history: seq<Row>, order: seq<ConnId>, name: string, roster: seq<Value>, c: ConnId)
    requires Distinct(order)
    ensures Outbox(JoinTrace(ws, history, order, name, roster), c)
         == (if c == ws then HistoryFrames(history) else [])
          + (if c in order then [JsonText(JoinNotice(name)), JsonText(BuildUsersPayload(roster))] else [])
  {
    var replay := HistoryFrames(history);
    var notice := JsonText(JoinNotice(name));
    var users := JsonText(BuildUsersPayload(roster));
    OutboxAppend(SendAll(ws, replay), Fanout(order, notice) + Fanout(order, users), c);
    SendAllOutbox(ws, replay, c);
    FanoutTwiceOutbox(order, notice, users, c);
  }

  /** What each connection receives from a leave; the leaving one, no longer registered, gets nothing. */
  lemma LeaveOutboxes(order: seq<ConnId>, name: string, roster: seq<Value>, c: ConnId)
    requires Distinct(order)
    ensures Outbox(LeaveTrace(order, name, roster), c)
         == if c in order then [JsonText(LeaveNotice(name)), JsonText(BuildUsersPayload(roster))] else []
  {
    FanoutTwiceOutbox(order, JsonText(LeaveNotice(name)), JsonText(BuildUsersPayload(roster)), c);
  }

  /** The row persisted for one inbound frame of `clientName`, under store id `id`. */
  function LoggedRow(id: nat, clientName: string, raw: string, loads: string -> JsonDecode, createdAt: string): Row
  {
    var m := ParseIncomingMessage(raw, loads);
    Row(id, clientName, m.content, createdAt, Some(m.messageType))
  }

  /** The rows persisted for consecutive inbound frames, with consecutive ids from `firstId`. */
  function LoggedRows(firstId: nat, clientName: string, raws: seq<string>, loads: string -> JsonDecode, stamps: seq<string>): (rows: seq<Row>)
    requires |stamps| == |raws|
    ensures |rows| == |raws|
  {
    seq(|raws|, i requires 0 <= i < |raws| => LoggedRow(firstId + i, clientName, raws[i], loads, stamps[i]))
  }

  /** One more frame logs one more row, after the others. */
  lemma LoggedRowsSnoc(firstId: nat, clientName: string, raws: seq<string>, loads: string -> JsonDecode, stamps: seq<string>, i: nat)
    requires |stamps| == |raws| && i < |raws|
    ensures LoggedRows(firstId, clientName, raws[..i + 1], loads, stamps[..i + 1])
         == LoggedRows(firstId, clientName, raws[..i], loads, stamps[..i]) + [LoggedRow(firstId + i, clientName, raws[i], loads, stamps[i])]
  {
  }

  /** The live events of `rows`, in log order. */
  function LiveFrames(rows: seq<Row>): (frames: seq<Frame>)
    ensures |frames| == |rows|
  {
    seq(|rows|, i requires 0 <= i < |rows| => JsonText(LivePayload(rows[i])))
  }

  /** One more logged row adds its live event at the end. */
  lemma LiveFramesSnoc(rows: seq<Row>, row: Row)
    ensures LiveFrames(rows + [row]) == LiveFrames(rows) + [JsonText(LivePayload(row))]
  {
  }

  /** One received frame extends the log by its row and the trace by that row's live broadcast. */
  lemma LoopStep(rows0: seq<Row>, sent0: seq<Delivery>, order: seq<ConnId>, firstId: nat, clientName: string,
                 raws: seq<string>, loads: string -> JsonDecode, stamps: seq<string>, i: nat, row: Row)
    requires |stamps| == |raws| && i < |raws|
    requires row == LoggedRow(firstId + i, clientName, raws[i], loads, stamps[i])
    ensures var done := LoggedRows(firstId, clientName, raws[..i], loads, stamps[..i]);
            var next := LoggedRows(firstId, clientName, raws[..i + 1], loads, stamps[..i + 1]);
            && rows0 + done + [row] == rows0 + next
            && sent0 + Broadcasts(order, LiveFrames(done)) + Fanout(order, JsonText(LivePayload(row)))
               == sent0 + Broadcasts(order, LiveFrames(next))
  {
    var done := LoggedRows(firstId, clientName, raws[..i], loads, stamps[..i]);
    var f := JsonText(LivePayload(row));
    LoggedRowsSnoc(firstId, clientName, raws, loads, stamps, i);
    LiveFramesSnoc(done, row);
    BroadcastsSnoc(order, LiveFrames(done), f);
    AppendAssociative(rows0, done, [row]);
    AppendAssociative(sent0, Broadcasts(order, LiveFrames(done)), Fanout(order, f));
  }

  // ---------------------------------------------------------------------
  // The session handler

  /** The registry, the two tables and the sockets one `websocket_endpoint` session drives. */
  class ChatServer {
    const manager: ConnectionManager
    const messages: MessageLog
    const users: UserTable
    const sockets: Sockets

    ghost predicate Valid()
      reads this, manager, messages, users
    {
      && manager.Valid()
      && messages.Valid()
      && PresenceConsistent(State())
    }

    /** The presence-relevant state. */
    ghost function State(): World
      reads this, manager, users
    {
      World(manager.activeConnections, users.online)
    }

    /** The router over a registry and tables that agree on presence. */
    constructor (manager: ConnectionManager, messages: MessageLog, users: UserTable, sockets: Sockets)
      requires manager.Valid() && messages.Valid()
      requires PresenceConsistent(World(manager.activeConnections, users.online))
      ensures Valid()
      ensures this.manager == manager && this.messages == messages && this.users == users && this.sockets == sockets
    {
      this.manager := manager;
      this.messages := messages;
      this.users := users;
      this.sockets := sockets;
    }

    /** `broadcast_chat_message(...)`: a chat event to every registered connection. */
    method BroadcastChatMessage(
      messageType: string, content: string, sender: Option<string>,
      createdAt: Option<string> := None, isHistory: bool := false)
      requires manager.Valid()
      modifies sockets
      ensures sockets.sent == old(sockets.sent)
                + Fanout(manager.order, JsonText(BuildMessagePayload(messageType, content, sender, createdAt, isHistory)))
    {
      manager.BroadcastJson(BuildMessagePayload(messageType, content, sender, createdAt, isHistory), sockets);
    }

    /** `manager.connect`, `upsert_user`, `set_user_online(name, True)`. */
    method Register(ws: ConnId, clientName: string)
      requires Valid() && ws !in manager.activeConnections
      modifies manager, users
      ensures Valid()
      ensures State() == JoinWorld(old(State()), ws, clientName)
      ensures NameOnline(users.online, clientName)
      ensures manager.order == old(manager.order) + [ws]
    {
      ghost var before := State();
      manager.Connect(ws, clientName);
      users.UpsertUser(clientName);
      users.SetUserOnline(clientName, true);
      JoinPreservesPresence(before, ws, clientName);
    }

    /** A system notice to every registered connection, then the roster `get_all_users()`. */
    method Announce(content: string)
      requires manager.Valid()
      modifies sockets
      ensures sockets.sent == old(sockets.sent)
                + Announcement(manager.order, BuildMessagePayload("system", content, None), users.GetAllUsers())
    {
      BroadcastChatMessage("system", content, None);
      var roster := users.GetAllUsers();
      manager.BroadcastUsers(roster, sockets);
      AppendAssociative(old(sockets.sent), Fanout(manager.order, JsonText(BuildMessagePayload("system", content, None))),
                        Fanout(manager.order, JsonText(BuildUsersPayload(roster))));
    }

    /**
     * The join sequence of a new connection `ws`: resolve the name, register it,
     * mark it online, replay the last 20 messages to `ws` alone, then broadcast the
     * "joined" notice and the roster.
     */
    method Join(ws: ConnId, requestedName: Option<string>, fallbackId: string) returns (clientName: string)
      requires Valid() && ws !in manager.activeConnections
      modifies manager, users, sockets
      ensures Valid()
      ensures clientName == ResolveName(requestedName, fallbackId)
      ensures State() == JoinWorld(old(State()), ws, clientName)
      ensures NameOnline(users.online, clientName)
      ensures manager.order == old(manager.order) + [ws]
      ensures sockets.sent == old(sockets.sent)
                + JoinTrace(ws, messages.GetRecentMessages(20), manager.order, clientName, users.GetAllUsers())
    {
      clientName := ResolveName(requestedName, fallbackId);
      Register(ws, clientName);
      Welcome(ws, clientName);
    }

    /** The sends of a join once `ws` is registered: the replay to `ws`, then the notice and roster to all. */
    method Welcome(ws: ConnId, clientName: string)
      requires Valid()
      modifies sockets
      ensures Valid() && State() == old(State())
      ensures sockets.sent == old(sockets.sent)
                + JoinTrace(ws, messages.GetRecentMessages(20), manager.order, clientName, users.GetAllUsers())
    {
      var history := messages.GetRecentMessages(20);
      ReplayHistory(ws, history);
      Announce(clientName + " entrou no chat");
      AppendAssociative(old(sockets.sent), SendAll(ws, HistoryFrames(history)),
                        Announcement(manager.order, JoinNotice(clientName), users.GetAllUsers()));
    }

    /** Sends each stored row, in order, to `ws` alone, flagged as history. */
    method ReplayHistory(ws: ConnId, history: seq<Row>)
      modifies sockets
      ensures sockets.sent == old(sockets.sent) + SendAll(ws, HistoryFrames(history))
    {
      ghost var frames := HistoryFrames(history);
      for i := 0 to |history|
        invariant sockets.sent == old(sockets.sent) + SendAll(ws, frames[..i])
      {
        sockets.SendText(ws, JsonText(HistoryPayload(history[i])));
        SendAllSnoc(ws, frames, i);
      }
      assert frames[..|history|] == frames;
    }

    /** One turn of the message loop: decode the frame, persist it, then broadcast it live. */
    method ReceiveFrame(clientName: string, raw: string, loads: string -> JsonDecode, createdAt: string) returns (row: Row)
      requires Valid()
      modifies messages, sockets
      ensures Valid()
      ensures row == LoggedRow(old(messages.nextId), clientName, raw, loads, createdAt)
      ensures messages.rows == old(messages.rows) + [row]
      ensures messages.nextId == old(messages.nextId) + 1
      ensures sockets.sent == old(sockets.sent) + Fanout(manager.order, JsonText(LivePayload(row)))
    {
      var incoming := ParseIncomingMessage(raw, loads);
      messages.InsertMessage(clientName, incoming.content, createdAt, Some(incoming.messageType));
      row := messages.rows[|messages.rows| - 1];
      BroadcastChatMessage(incoming.messageType, incoming.content, Some(clientName));
    }

    /**
     * The message loop over the frames `raws` the client sends, `stamps[i]` being the
     * creation time the store gives the i-th row: each frame is persisted, then
     * broadcast, before the next one is read.
     */
    method MessageLoop(clientName: string, raws: seq<string>, loads: string -> JsonDecode, stamps: seq<string>)
      requires Valid() && |stamps| == |raws|
      modifies messages, sockets
      ensures Valid()
      ensures messages.rows == old(messages.rows) + LoggedRows(old(messages.nextId), clientName, raws, loads, stamps)
      ensures sockets.sent == old(sockets.sent)
                + Broadcasts(manager.order, LiveFrames(LoggedRows(old(messages.nextId), clientName, raws, loads, stamps)))
    {
      ghost var firstId := messages.nextId;
      for i := 0 to |raws|
        invariant Valid()
        invariant messages.nextId == firstId + i
        invariant messages.rows == old(messages.rows) + LoggedRows(firstId, clientName, raws[..i], loads, stamps[..i])
        invariant sockets.sent == old(sockets.sent) + Broadcasts(manager.order, LiveFrames(LoggedRows(firstId, clientName, raws[..i], loads, stamps[..i])))
      {
        var row := ReceiveFrame(clientName, raws[i], loads, stamps[i]);
        LoopStep(old(messages.rows), old(sockets.sent), manager.order, firstId, clientName, raws, loads, stamps, i, row);
      }
      assert raws[..|raws|] == raws && stamps[..|raws|] == stamps;
    }

    /**
     * The leave sequence of `ws` after the client disconnected: unregister it, broadcast
     * the "left" notice, mark the name offline unless another connection still holds
     * it, and broadcast the roster.
     */
    method Leave(ws: ConnId, clientName: string)
      requires Valid() && ws in manager.activeConnections && manager.activeConnections[ws] == clientName
      modifies manager, users, sockets
      ensures Valid()
      ensures State() == LeaveWorld(old(State()), ws)
      ensures NameOnline(users.online, clientName) <==> manager.HasNameActive(clientName)
      ensures manager.order == Without(old(manager.order), ws)
      ensures sockets.sent == old(sockets.sent) + LeaveTrace(manager.order, clientName, users.GetAllUsers())
    {
      ghost var before := State();
      manager.Disconnect(ws);
      BroadcastChatMessage("system", clientName + " saiu do chat", None);
      MarkOfflineUnlessHeld(clientName);
      LeavePreservesPresence(before, ws);
      var roster := users.GetAllUsers();
      manager.BroadcastUsers(roster, sockets);
      AppendAssociative(old(sockets.sent), Fanout(manager.order, JsonText(LeaveNotice(clientName))),
                        Fanout(manager.order, JsonText(BuildUsersPayload(roster))));
    }

    /** `if not manager.has_name_active(name): set_user_online(name, False)`. */
    method MarkOfflineUnlessHeld(clientName: string)
      requires manager.Valid()
      modifies users
      ensures users.online == if NameActive(manager.activeConnections, clientName) then old(users.online)
                              else OnlineSet(old(users.online), clientName, false)
    {
      if !manager.HasNameActive(clientName) {
        users.SetUserOnline(clientName, false);
      }
    }

  }
}
