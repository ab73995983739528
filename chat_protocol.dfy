/**
 * The wire codec of the chat relay: the decoder for inbound text frames and
 * the builders for the two outbound event objects ("message" and "users").
 *
 * JSON documents are represented by `Value`; an outbound payload is a JSON
 * object, i.e. a map from keys to values, exactly like the Python dicts the
 * builders return. `json.loads` is not modelled: the decoder receives it as a
 * function parameter yielding an abstract `JsonDecode`.
 */
module ChatProtocol {
  import opened Wrappers

  /** A JSON value. */
  datatype Value =
    | Null
    | Bool(b: bool)
    | Str(s: string)
    | Array(items: seq<Value>)
    | Object(fields: map<string, Value>)

  /** A JSON object sent to a client. */
  type Payload = map<string, Value>

  /** `str | None` as JSON: a string or `null`. */
  function FromOptional(o: Option<string>): Value
  {
    match o
    case Some(s) => Str(s)
    case None => Null
  }

  /** The inverse of `FromOptional` on strings and `null`. */
  function ToOptional(v: Value): Option<string>
  {
    if v.Str? then Some(v.s) else None
  }

  const MessageKeys: set<string> := {"type", "message_type", "from", "content", "created_at", "history"}
  const UsersKeys: set<string> := {"type", "items"}

  /** The outbound chat event `{"type": "message", ...}`. */
  function BuildMessagePayload(
    messageType: string,
    content: string,
    sender: Option<string>,
    createdAt: Option<string> := None,
    isHistory: bool := false
  ): (p: Payload)
    ensures ReadMessagePayload(p) == Some(MessageEvent(messageType, sender, content, createdAt, isHistory))
  {
    map[
      "type" := Str("message"),
      "message_type" := Str(messageType),
      "from" := FromOptional(sender),
      "content" := Str(content),
      "created_at" := FromOptional(createdAt),
      "history" := Bool(isHistory)
    ]
  }

  /** The outbound roster event `{"type": "users", "items": users}`. */
  function BuildUsersPayload(users: seq<Value>): (p: Payload)
    ensures ReadUsersPayload(p) == Some(users)
  {
    map["type" := Str("users"), "items" := Array(users)]
  }

  /** What a client reads out of a chat event. */
  datatype MessageEvent = MessageEvent(
    messageType: string,
    sender: Option<string>,
    content: string,
    createdAt: Option<string>,
    history: bool)

  predicate IsStrOrNull(v: Value)
  {
    v.Str? || v.Null?
  }

  /** A client-side reading of a chat event: the partner of `BuildMessagePayload`, which it inverts. */
  function ReadMessagePayload(p: Payload): Option<MessageEvent>
  {
    if && p.Keys == MessageKeys
       && p["type"] == Str("message")
       && p["message_type"].Str?
       && IsStrOrNull(p["from"])
       && p["content"].Str?
       && IsStrOrNull(p["created_at"])
       && p["history"].Bool?
    then
      Some(MessageEvent(p["message_type"].s, ToOptional(p["from"]), p["content"].s,
                        ToOptional(p["created_at"]), p["history"].b))
    else
      None
  }

  /** A client-side reading of a roster event: the partner of `BuildUsersPayload`. */
  function ReadUsersPayload(p: Payload): Option<seq<Value>>
  {
    if p.Keys == UsersKeys && p["type"] == Str("users") && p["items"].Array?
    then Some(p["items"].items)
    else None
  }

  /** The defaults of the builder: no timestamp and a live (non-history) event. */
  lemma MessagePayloadDefaults(messageType: string, content: string, sender: Option<string>)
    ensures ReadMessagePayload(BuildMessagePayload(messageType, content, sender))
         == Some(MessageEvent(messageType, sender, content, None, false))
  {
  }

  /** Conversely, every payload a client accepts as a chat event is a built one. */
  lemma ReadMessagePayloadComplete(p: Payload, e: MessageEvent)
    requires ReadMessagePayload(p) == Some(e)
    ensures p == BuildMessagePayload(e.messageType, e.content, e.sender, e.createdAt, e.history)
  {
    var q := BuildMessagePayload(e.messageType, e.content, e.sender, e.createdAt, e.history);
    forall k | k in MessageKeys
      ensures p[k] == q[k]
    {
      if k == "from" {
        assert IsStrOrNull(p["from"]);
      } else if k == "created_at" {
        assert IsStrOrNull(p["created_at"]);
      }
    }
  }

  /** The two event kinds are told apart by their tag alone. */
  lemma EventKindsDisjoint(p: Payload)
    ensures ReadMessagePayload(p).Some? ==> ReadUsersPayload(p).None?
    ensures ReadUsersPayload(p).Some? ==> ReadMessagePayload(p).None?
  {
  }

  // ---------------------------------------------------------------------
  // Inbound frames

  /**
   * What `json.loads` makes of a frame that starts with `{`: an object whose
   * `type`, `message_type` and `content` members are each present or absent
   * (`message_type` and `content` restricted to strings), or a decode error.
   */
  datatype JsonDecode =
    | ParsedObject(ty: Option<Value>, messageType: Option<string>, content: Option<string>)
    | JsonError

  /** The decoded inbound frame: `(message_type, content)`. */
  datatype Incoming = Incoming(messageType: string, content: string)

  /** `raw.startswith("{")` */
  predicate StartsWithBrace(raw: string)
  {
    |raw| > 0 && raw[0] == '{'
  }

  /** Python's `x or default` for a member that is a string or missing: "" is falsy. */
  function OrDefault(o: Option<string>, default: string): (r: string)
    ensures o.Some? && o.value != "" ==> r == o.value
    ensures o.None? || o.value == "" ==> r == default
  {
    if o.Some? && o.value != "" then o.value else default
  }

  /** The frame decodes to an object with `"type": "message"`. */
  predicate IsChatObject(d: JsonDecode)
  {
    d.ParsedObject? && d.ty == Some(Str("message"))
  }

  /** The fallback result: the whole frame as plain text. */
  function PlainText(raw: string): Incoming
  {
    Incoming("text", raw)
  }

  /**
   * Decodes one inbound text frame, falling back to the raw text: a frame that does
   * not start with `{`, that `loads` rejects, or whose object is not of type
   * "message" is plain text; a chat object gives its `message_type` (default "text")
   * and its `content` (default "").
   */
  function ParseIncomingMessage(raw: string, loads: string -> JsonDecode): (r: Incoming)
    ensures !StartsWithBrace(raw) ==> r == PlainText(raw)
    ensures StartsWithBrace(raw) && loads(raw).JsonError? ==> r == PlainText(raw)
    ensures StartsWithBrace(raw) && loads(raw).ParsedObject? && !IsChatObject(loads(raw)) ==> r == PlainText(raw)
    ensures StartsWithBrace(raw) && IsChatObject(loads(raw)) ==>
              r.messageType == OrDefault(loads(raw).messageType, "text")
              && r.content == OrDefault(loads(raw).content, "")
    ensures r.messageType != ""
  {
    if StartsWithBrace(raw) then
      match loads(raw)
      case JsonError => PlainText(raw)
      case ParsedObject(ty, messageType, content) =>
        if ty == Some(Str("message")) then Incoming(OrDefault(messageType, "text"), OrDefault(content, ""))
        else PlainText(raw)
    else
      PlainText(raw)
  }

  /**
   * The fallback is taken exactly when the frame is not a chat object, unless the
   * chat object itself carries type "text" and the raw frame as its content.
   */
  lemma ParseFallback(raw: string, loads: string -> JsonDecode)
    ensures !(StartsWithBrace(raw) && IsChatObject(loads(raw))) ==> ParseIncomingMessage(raw, loads) == PlainText(raw)
    ensures ParseIncomingMessage(raw, loads) != PlainText(raw) ==>
              StartsWithBrace(raw) && IsChatObject(loads(raw))
              && (ParseIncomingMessage(raw, loads).content == "" || ParseIncomingMessage(raw, loads).content == loads(raw).content.value)
  {
  }

  /** A plain-text frame such as `hello world` is relayed as text, whatever `loads` would say. */
  lemma HelloWorldIsText(loads: string -> JsonDecode)
    ensures ParseIncomingMessage("hello world", loads) == Incoming("text", "hello world")
  {
  }

  /** `{"type":"message","message_type":"text","content":"hi"}` decodes to ("text", "hi"). */
  lemma ChatFrameDecodes(raw: string, loads: string -> JsonDecode)
    requires raw == "{" + "\"type\":\"message\",\"message_type\":\"text\",\"content\":\"hi\"}"
    requires loads(raw) == ParsedObject(Some(Str("message")), Some("text"), Some("hi"))
    ensures ParseIncomingMessage(raw, loads) == Incoming("text", "hi")
  {
  }
}
