# Chat relay core — a Dafny model

The backend is a small WebSocket chat relay. A client connects to `/ws` and
may ask for a display name with the `name` query parameter. The session then:

1. picks a name: the stripped request, or `anon-` plus eight hex digits;
2. registers the connection under that name and marks the name online;
3. replays the last 20 stored messages to the new connection only;
4. broadcasts a "joined" system notice and the user roster.

After that, each text frame the client sends is decoded (JSON chat object or
plain text), stored in the message log, and broadcast live to every connected
client. When the client disconnects, the session:

1. unregisters the connection;
2. broadcasts a "left" notice;
3. marks the name offline, unless another connection still holds it;
4. broadcasts the roster again.

The model has six modules, one per concern:

- `Wrappers` (`wrappers.dfy`): `Option` and `Distinct`.
- `ChatProtocol` (`chat_protocol.dfy`): the pure wire codec. JSON values are a
  datatype. An outbound event is a map from key to value. `json.loads` is a
  function parameter that returns an abstract `JsonDecode`. Client-side readers
  of the two event kinds are the partners of the builders.
- `Network` (`network.dfy`): the sending side. Every `send_text` appends one
  delivery to a single ordered trace, held in class `Sockets`. The outbox of a
  connection is the part of that trace addressed to it.
- `Connections` (`connection_manager.dfy`): class `ConnectionManager`. It holds
  the map `activeConnections` from connection to name, plus `order`, the key
  insertion order of the Python dict. Broadcasts iterate over a snapshot of
  `order`.
- `MessageStore` (`db.dfy`): class `MessageLog` (the `messages` table) and class
  `UserTable` (presence, a map from display name to online flag). Queries are
  modelled as functions.
- `WebSocketHandlers` (`websocket_handlers.dfy`):
  - name resolution, as pure functions;
  - class `ChatServer`, whose `Join`, `ReceiveFrame`/`MessageLoop` and `Leave`
    methods change the registry, the tables and the socket trace step by step;
  - a pure transition system (`World`, `Step`, `Run`). Over it, the presence
    invariant is proved for every sequence of joins and leaves.

`ChatServer.Valid()` includes that invariant. `Register`, `Join`, `Welcome`,
`ReceiveFrame`, `MessageLoop` and `Leave` require and ensure `Valid()`, so each
of them keeps it.

## Where the drafts disagree, and what the model does

`backend/websocket_handlers.py` calls helpers that `backend/connection_manager.py`
and `backend/db.py` do not define, or defines with another signature. The model
follows the handler's use of each one:

- `manager.broadcast_json(payload)` (`backend/websocket_handlers.py:27`):
  `backend/connection_manager.py` defines no `broadcast_json`. It is modelled as
  `BroadcastJson`, the JSON text of the payload to every registered connection,
  sent in the way `broadcast` (`backend/connection_manager.py:18-20`) sends.
- `manager.has_name_active(name)` (`backend/websocket_handlers.py:83`):
  `backend/connection_manager.py` defines no `has_name_active`. It is modelled as `HasNameActive`, "some value of the registry equals the name".
- `manager.broadcast_users(users)` (`backend/websocket_handlers.py:63,85`):
  `backend/connection_manager.py:25-28` defines `broadcast_users` without an
  argument, listing `get_user_names()`; that version is `BroadcastUserNames`.
  The call with the roster as its argument is `BroadcastUsers`.
- `insert_message(..., message_type=...)` (`backend/websocket_handlers.py:71-75`):
  `insert_message` at `backend/db.py:46` has no `message_type` parameter. Log rows carry an optional message type. Rows written by the handler always
  carry one.
- `upsert_user`, `set_user_online` and `get_all_users`
  (`backend/websocket_handlers.py:8-14`): `backend/db.py` defines none of them.
  Presence is a map from name to bool.
  - `upsert_user` creates an offline record for a new name and leaves an
    existing record alone.
  - `set_user_online` changes an existing record only.
  - `get_all_users` lists one `{"name", "is_online"}` entry per record, online
    users first, then by name (code-point order) within each group. This order
    is the model's assumption.
- The `SELECT` at `backend/db.py:55-58` does not read `message_type`, so
  replayed history would fall back to type "text". The model keeps the type on
  the row and replays it with the default `msg.get("message_type", "text")`.
- Live broadcasts (`backend/websocket_handlers.py:78`) carry `created_at = None`.
  Only the replayed history carries the stored timestamp. The model follows the
  code.
- The code catches no exception in its send loops, so the model has no failure
  path for a send.

## Model

| member | source | states |
|---|---|---|
| ChatProtocol.BuildMessagePayload | backend/chat_protocol.py:7-21 | a client reading the event gets back exactly the message type, sender, content, timestamp and history flag it was built from (tag "message"; `from`/`created_at` are null exactly when absent) |
| ChatProtocol.MessagePayloadDefaults | backend/chat_protocol.py:11-12 | built without the optional arguments, the event has no timestamp and is not history |
| ChatProtocol.ReadMessagePayloadComplete | backend/chat_protocol.py:14-21 | conversely, any payload a client accepts as a chat event is the built payload of the fields read from it: the six keys and nothing else |
| ChatProtocol.BuildUsersPayload | backend/chat_protocol.py:24-25 | reading the roster event gives back exactly the list it was built from (tag "users") |
| ChatProtocol.EventKindsDisjoint | backend/chat_protocol.py:14-25 | no payload reads both as a chat event and as a roster event |
| ChatProtocol.OrDefault | backend/chat_protocol.py:37-38 | `x or default`: the member is returned when it is present and non-empty, and otherwise the default |
| ChatProtocol.ParseIncomingMessage | backend/chat_protocol.py:28-42 | a frame not starting with `{`, one `loads` rejects, or an object whose type is not "message" decodes to ("text", raw frame); a chat object gives its `message_type` (default "text") and `content` (default ""); the type is never empty |
| ChatProtocol.ParseFallback | backend/chat_protocol.py:30-40 | every non-chat frame falls back to the raw text; a decoded result other than the fallback comes from a chat object, with its content or "" |
| ChatProtocol.HelloWorldIsText | backend/chat_protocol.py:30-33 | `hello world` decodes to ("text", "hello world"), whatever the JSON decoder would say |
| ChatProtocol.ChatFrameDecodes | backend/chat_protocol.py:33-38 | `{"type":"message","message_type":"text","content":"hi"}` decodes to ("text", "hi") |
| Network.Sockets.SendText | backend/connection_manager.py:20 | one send appends one delivery: the target's outbox grows by the frame and every other outbox is unchanged |
| Network.FanoutOutbox | backend/connection_manager.py:19-20 | a send over distinct targets delivers exactly one copy to each target and nothing to anyone else |
| Network.FanoutTwiceOutbox | backend/websocket_handlers.py:62-63 | two broadcasts in a row reach every target as the two frames in order |
| Network.SendAllOutbox | backend/websocket_handlers.py:48-59 | frames sent to one connection reach it in order, and reach no other connection |
| Network.BroadcastsOutbox | backend/websocket_handlers.py:66-78 | after a run of broadcasts, each registered connection has received every frame in order, and no other connection has received any |
| Connections.ConnectionManager.constructor | backend/connection_manager.py:8-9 | the registry starts empty |
| Connections.ConnectionManager.Connect | backend/connection_manager.py:11-13 | the handle gets the new name and a re-connect overwrites it; every other entry is unchanged, even one with the same name; a new handle goes last in key order and a present one keeps its place |
| Connections.ConnectionManager.Disconnect | backend/connection_manager.py:15-16 | the handle is removed; every other entry stays, with the rest of the key order; popping an absent handle changes nothing |
| Connections.DisconnectIdempotent | backend/connection_manager.py:15-16 | a second disconnect of the same handle changes nothing more |
| Connections.ConnectDisconnectInverse | backend/connection_manager.py:11-16 | disconnecting a freshly connected handle restores both the registry and its key order |
| Connections.ConnectionManager.GetUserNames | backend/connection_manager.py:22-23 | one name per connection, in key order: position i holds the name of the i-th key |
| Connections.UserNamesCount | backend/connection_manager.py:22-23 | the list has as many names as there are connections, and each name occurs as often as the number of connections registered under it (the multiset of the map's values) |
| Connections.ConnectionManager.HasNameActive | backend/websocket_handlers.py:83 | inferred: true exactly when some registered connection holds the name, which is also exactly when the name is in `get_user_names()` |
| Connections.ConnectionManager.BroadcastFrame | backend/connection_manager.py:18-20 | the frame goes once to each key of the snapshot, in snapshot order; a connection's outbox gains the frame exactly when it is registered |
| Connections.ConnectionManager.Broadcast | backend/connection_manager.py:18-20 | the raw string goes to every registered connection, in key order |
| Connections.ConnectionManager.BroadcastJson | backend/websocket_handlers.py:27-35 | inferred: the JSON text of the payload goes to every registered connection, in key order |
| Connections.ConnectionManager.BroadcastUsers | backend/websocket_handlers.py:63 | the roster event built from the given list goes to every registered connection |
| Connections.ConnectionManager.BroadcastUserNames | backend/connection_manager.py:25-28 | `{"type": "users", "items": get_user_names()}` goes to every key of the snapshot |
| MessageStore.MessageLog.constructor | backend/db.py:19-28 | the table starts empty, with the first id still to be assigned |
| MessageStore.MessageLog.InsertMessage | backend/db.py:34-47 | exactly one row is appended, carrying the given client id, content and message type and the next id; earlier rows are unchanged; the new id exceeds every earlier one and ids stay strictly increasing |
| MessageStore.LimitCount | backend/db.py:58 | `LIMIT` keeps `min(limit, n)` rows, or all of them when the limit is negative |
| MessageStore.OrderByIdDesc | backend/db.py:57 | over a log of increasing ids, the result has strictly decreasing ids and the same rows |
| MessageStore.RecentMessagesIsTail | backend/db.py:50-66 | the recent messages are the last `min(limit, n)` rows of the log, oldest first, and they have larger ids than every row left out |
| MessageStore.RecentMessagesNewest | backend/db.py:57-63 | with limit 1 the result is the newest row alone |
| MessageStore.RecentMessagesAfterInsert | backend/db.py:34-66 | right after an insert, the recent messages end with the inserted row |
| MessageStore.MessageLog.GetRecentMessages | backend/db.py:50-70 | returns at most `limit` rows and exactly `min(limit, n)` of them; they are the tail of the log, in ascending id order; the log is only read |
| MessageStore.RowMessageType | backend/websocket_handlers.py:52 | a replayed row has its stored message type, or "text" when it has none |
| MessageStore.Upserted | backend/websocket_handlers.py:43 | inferred: the name gets a record, offline when new; every existing record keeps its flag |
| MessageStore.OnlineSet | backend/websocket_handlers.py:44 | inferred: only an existing record of the name changes, and to the given flag |
| MessageStore.UserTable.UpsertUser | backend/websocket_handlers.py:43 | the table becomes `Upserted` of the old one |
| MessageStore.UserTable.SetUserOnline | backend/websocket_handlers.py:84 | the table becomes `OnlineSet` of the old one |
| MessageStore.OrderedNames | backend/websocket_handlers.py:63 | the roster lists every name of the table once, online names before offline ones, ordered by code point within each group (the assumed order of `get_all_users`) |
| MessageStore.RosterDistinct | backend/websocket_handlers.py:63 | no name is listed twice |
| MessageStore.RosterUnique | backend/websocket_handlers.py:63 | the roster order is determined: any listing of the table in that order is the roster |
| MessageStore.RosterEntriesAreRecords | backend/websocket_handlers.py:63 | every roster entry is a stored record with its current flag |
| MessageStore.RosterListsEveryRecord | backend/websocket_handlers.py:85 | every stored record appears in the roster with its current flag |
| MessageStore.RosterOnlineFirst | backend/websocket_handlers.py:85 | no offline entry comes before an online one |
| WebSocketHandlers.StripIsSlice | backend/websocket_handlers.py:40 | `strip()` returns a slice of its input with only whitespace cut from each end |
| WebSocketHandlers.StripEnds | backend/websocket_handlers.py:40 | the stripped string neither starts nor ends with whitespace |
| WebSocketHandlers.StripEmpty | backend/websocket_handlers.py:40-41 | the stripped string is empty exactly when the input is all whitespace |
| WebSocketHandlers.StripUntrimmed | backend/websocket_handlers.py:40 | a string with no whitespace at either end is left as it is |
| WebSocketHandlers.StripIdempotent | backend/websocket_handlers.py:40 | stripping twice strips nothing more |
| WebSocketHandlers.ResolveName | backend/websocket_handlers.py:39-41 | the name is the stripped request when that is not empty, and otherwise `anon-` followed by the fallback id; it is never empty |
| WebSocketHandlers.AnonNameIsTrimmed | backend/websocket_handlers.py:39-41 | a generated `anon-` name has no surrounding whitespace |
| WebSocketHandlers.ResolvedNameIsTrimmed | backend/websocket_handlers.py:39-41 | every resolved name is its own `strip()` |
| WebSocketHandlers.JoinPreservesPresence | backend/websocket_handlers.py:42-44 | a join keeps the presence invariant and leaves its name online |
| WebSocketHandlers.LeavePreservesPresence | backend/websocket_handlers.py:81-84 | a leave keeps the presence invariant; the name stays online exactly when another connection still holds it |
| WebSocketHandlers.StepPreservesPresence | backend/websocket_handlers.py:42-84 | every enabled join or leave keeps the presence invariant |
| WebSocketHandlers.PresenceInvariant | backend/websocket_handlers.py:42-84 | over any sequence of atomic joins and leaves from a consistent start, a name is online exactly when at least one registered connection holds it |
| WebSocketHandlers.TwoTabsSameName | backend/websocket_handlers.py:81-84 | with two "alice" connections, the first leave keeps alice online and the second takes her offline |
| WebSocketHandlers.ReplayMatchesLive | backend/websocket_handlers.py:47-78 | a replayed row reads as its stored type, author, content and timestamp with history set; the live event of the same row has the same type, author and content, no timestamp and history unset |
| WebSocketHandlers.JoinOutboxes | backend/websocket_handlers.py:47-63 | from a join, the joining connection alone gets the replay, first; then every registered connection, the joiner included, gets the "joined" notice and then the roster |
| WebSocketHandlers.LeaveOutboxes | backend/websocket_handlers.py:82-85 | from a leave, every connection still registered gets the "left" notice and then the roster; the leaving connection gets nothing |
| WebSocketHandlers.ChatServer.BroadcastChatMessage | backend/websocket_handlers.py:20-35 | the built chat event goes to every registered connection |
| WebSocketHandlers.ChatServer.Register | backend/websocket_handlers.py:42-44 | the connection is registered last in key order under its name; the name is online; presence moves by one join step and the invariant holds |
| WebSocketHandlers.ChatServer.Announce | backend/websocket_handlers.py:62-63 | a "system" notice with no sender goes to every connection, followed by the roster `get_all_users()` |
| WebSocketHandlers.ChatServer.ReplayHistory | backend/websocket_handlers.py:47-59 | the rows go privately to the joining connection, in store order, each flagged as history and carrying its author, timestamp and type |
| WebSocketHandlers.ChatServer.Welcome | backend/websocket_handlers.py:47-63 | at most the 20 most recent rows are replayed to the new connection, then the notice and the roster are broadcast; presence is untouched |
| WebSocketHandlers.ChatServer.Join | backend/websocket_handlers.py:38-63 | the connection is registered under the resolved name, which is online; the invariant holds; the trace grows by the private replay followed by the notice and the roster |
| WebSocketHandlers.ChatServer.ReceiveFrame | backend/websocket_handlers.py:67-78 | the decoded frame is stored as one new row under the client's name, then that row's live event (decoded type and content, sender = client, no timestamp, not history) is broadcast |
| WebSocketHandlers.ChatServer.MessageLoop | backend/websocket_handlers.py:65-78 | for a run of frames, the log grows by one row per frame with consecutive ids, and the trace grows by their live events, each broadcast before the next frame is read |
| WebSocketHandlers.ChatServer.MarkOfflineUnlessHeld | backend/websocket_handlers.py:83-84 | the name is marked offline only when no registered connection holds it; otherwise the table is unchanged |
| WebSocketHandlers.ChatServer.Leave | backend/websocket_handlers.py:80-85 | the connection is unregistered; the name stays online exactly when another connection holds it; the invariant holds; the remaining connections get the "left" notice and then the roster |

## Left out

- SQLite mechanics (`_get_conn`, WAL mode, `init_db`, commit and close): each table is an in-memory value and each query a function.
- `created_at` default `datetime('now')`: the clock is not modelled. The timestamp a row receives is a parameter (`createdAt`, or `stamps` in `MessageLoop`).
- `asyncio.to_thread` and the interleaving of concurrent sessions. Each join, each received frame and each leave is one atomic step, so no other session changes the registry during `MessageLoop`.
- FastAPI plumbing:
  - `accept()` is not modelled;
  - the `name` query parameter is the `requestedName` argument;
  - `receive_text()` is the sequence `raws` of inbound frames;
  - the `WebSocketDisconnect` that ends the loop is the caller's following call to `Leave`.
- `uuid.uuid4()`: the eight-character fallback id is a parameter; `IsFallbackId` describes its form.
- `json.loads` and `json.dumps`: the encoding is not modelled.
  - Decoding is a function parameter returning an abstract result.
  - `JsonText(payload)` stands for the encoded payload.
  - The `str(...)` coercion of non-string `content` values is left out, because members are restricted to strings or absent.
- Send failures and exceptions other than the disconnect: the code handles none, and the model has no failure path.
- ChatServer.Join: requires a connection that is not yet registered, because each session owns a fresh WebSocket. `Connections.ConnectionManager.Connect` itself handles a re-connect.
- PresenceInvariant: proved from a start state where presence already matches the registry. A stale "online" flag left in the database from an earlier process is outside it.
- `backend/http_handlers.py`, `backend/main.py` and `backend/dev.py` are not part of this model: app wiring, an HTTP listing whose `get_messages` query `backend/db.py` does not define, and developer tooling.
- The `last_seen` field of a roster entry: presence timestamps are not modelled, and an entry carries only `name` and `is_online`.
