/**
 * The sending side of the WebSocket connections. Every `send_text` is recorded,
 * in the order it happens, in one trace of deliveries; the outbox of a single
 * connection is the part of that trace addressed to it.
 */
module Network {
  import opened Wrappers
  import opened ChatProtocol

  /** An opaque handle to one live WebSocket; only its identity matters. */
  type ConnId = nat

  /**
   * One text frame sent to a client: either a raw string, or the JSON text of
   * `payload` (what `json.dumps(payload)` produces; the encoding itself is not modelled).
   */
  datatype Frame = RawText(text: string) | JsonText(payload: Payload)

  datatype Delivery = Delivery(to: ConnId, frame: Frame)

  /** The frames of `trace` sent to `c`, in sending order. */
  function Outbox(trace: seq<Delivery>, c: ConnId): (out: seq<Frame>)
    ensures |out| <= |trace|
  {
    if trace == [] then []
    else
      var last := trace[|trace| - 1];
      Outbox(trace[..|trace| - 1], c) + (if last.to == c then [last.frame] else [])
  }

  /** One frame to each target, in the order of `targets`. */
  function Fanout(targets: seq<ConnId>, f: Frame): (trace: seq<Delivery>)
    ensures |trace| == |targets|
  {
    seq(|targets|, i requires 0 <= i < |targets| => Delivery(targets[i], f))
  }

  /** A hint for the verifier at call sites that regroup a trace; not a result about the model. */
  lemma AppendAssociative<T>(a: seq<T>, b: seq<T>, c: seq<T>)
    ensures a + (b + c) == (a + b) + c
  {
  }

  /** Outboxes of a concatenated trace are the concatenated outboxes. */
  lemma {:induction false} OutboxAppend(t1: seq<Delivery>, t2: seq<Delivery>, c: ConnId)
    ensures Outbox(t1 + t2, c) == Outbox(t1, c) + Outbox(t2, c)
    decreases |t2|
  {
    if t2 == [] {
      assert t1 + t2 == t1;
    } else {
      var init := t2[..|t2| - 1];
      var last := t2[|t2| - 1];
      assert (t1 + t2)[..|t1 + t2| - 1] == t1 + init;
      OutboxAppend(t1, init, c);
    }
  }

  /** A connection outside `ts` receives nothing from the trace. */
  lemma {:induction false} OutboxNotAddressed(ts: seq<ConnId>, f: Frame, c: ConnId)
    requires c !in ts
    ensures Outbox(Fanout(ts, f), c) == []
    decreases |ts|
  {
    if ts != [] {
      var init := ts[..|ts| - 1];
      assert Fanout(ts, f)[..|ts| - 1] == Fanout(init, f);
      OutboxNotAddressed(init, f, c);
    }
  }

  /** A fan-out over distinct targets gives each target exactly one copy of the frame. */
  lemma {:induction false} FanoutOutbox(ts: seq<ConnId>, f: Frame, c: ConnId)
    requires Distinct(ts)
    ensures Outbox(Fanout(ts, f), c) == if c in ts then [f] else []
    decreases |ts|
  {
    if ts != [] {
      var init := ts[..|ts| - 1];
      assert Fanout(ts, f)[..|ts| - 1] == Fanout(init, f);
      assert Distinct(init);
      if c == ts[|ts| - 1] {
        assert c !in init;
        OutboxNotAddressed(init, f, c);
      } else {
        FanoutOutbox(init, f, c);
        assert c in ts <==> c in init;
      }
    }
  }

  /** Two fan-outs over the same distinct targets: each target gets both frames, in order. */
  lemma FanoutTwiceOutbox(ts: seq<ConnId>, f: Frame, g: Frame, c: ConnId)
    requires Distinct(ts)
    ensures Outbox(Fanout(ts, f) + Fanout(ts, g), c) == if c in ts then [f, g] else []
  {
    OutboxAppend(Fanout(ts, f), Fanout(ts, g), c);
    FanoutOutbox(ts, f, c);
    FanoutOutbox(ts, g, c);
  }

  /** Frames one after the other, each fanned out to every target of `targets`. */
  function Broadcasts(targets: seq<ConnId>, frames: seq<Frame>): seq<Delivery>
    decreases |frames|
  {
    if frames == [] then []
    else Broadcasts(targets, frames[..|frames| - 1]) + Fanout(targets, frames[|frames| - 1])
  }

  /** Broadcasting one more frame appends its fan-out. */
  lemma BroadcastsSnoc(targets: seq<ConnId>, frames: seq<Frame>, f: Frame)
    ensures Broadcasts(targets, frames + [f]) == Broadcasts(targets, frames) + Fanout(targets, f)
  {
    assert (frames + [f])[..|frames|] == frames;
  }

  /** Every target receives all broadcast frames, in order; nobody else receives any. */
  lemma {:induction false} BroadcastsOutbox(targets: seq<ConnId>, frames: seq<Frame>, c: ConnId)
    requires Distinct(targets)
    ensures Outbox(Broadcasts(targets, frames), c) == if c in targets then frames else []
    decreases |frames|
  {
    if frames != [] {
      var init := frames[..|frames| - 1];
      var f := frames[|frames| - 1];
      BroadcastsOutbox(targets, init, c);
      OutboxAppend(Broadcasts(targets, init), Fanout(targets, f), c);
      FanoutOutbox(targets, f, c);
      assert init + [f] == frames;
    }
  }

  /** Frames to one connection, in order. */
  function SendAll(c: ConnId, frames: seq<Frame>): (trace: seq<Delivery>)
    ensures |trace| == |frames|
  {
    seq(|frames|, i requires 0 <= i < |frames| => Delivery(c, frames[i]))
  }

  /** Sending one more frame extends the private trace by one delivery. */
  lemma SendAllSnoc(c: ConnId, frames: seq<Frame>, i: nat)
    requires i < |frames|
    ensures SendAll(c, frames[..i + 1]) == SendAll(c, frames[..i]) + [Delivery(c, frames[i])]
  {
  }

  /** Private frames reach their connection in order and nobody else. */
  lemma {:induction false} SendAllOutbox(c: ConnId, frames: seq<Frame>, d: ConnId)
    ensures Outbox(SendAll(c, frames), d) == if d == c then frames else []
    decreases |frames|
  {
    if frames != [] {
      var init := frames[..|frames| - 1];
      assert SendAll(c, frames)[..|frames| - 1] == SendAll(c, init);
      SendAllOutbox(c, init, d);
      assert init + [frames[|frames| - 1]] == frames;
    }
  }

  /** The sending side of all WebSockets: the trace of every frame sent so far. */
  class Sockets {
    var sent: seq<Delivery>

    constructor ()
      ensures sent == []
    {
      sent := [];
    }

    /** The frames sent so far to `c`. */
    function OutboxOf(c: ConnId): seq<Frame>
      reads this
    {
      Outbox(sent, c)
    }

    /** `websocket.send_text(...)` on connection `c`. */
    method SendText(c: ConnId, f: Frame)
      modifies this
      ensures sent == old(sent) + [Delivery(c, f)]
      ensures OutboxOf(c) == old(OutboxOf(c)) + [f]
      ensures forall d :: d != c ==> OutboxOf(d) == old(OutboxOf(d))
    {
      sent := sent + [Delivery(c, f)];
      assert sent[..|sent| - 1] == old(sent);
    }
  }
}
