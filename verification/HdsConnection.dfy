/**
 A data-stream connection as the accessory runs it, and what its two halves
 together deliver: the messages that were sent.
 */
module HdsConnection {
  import opened Bytes
  import opened HdsValues
  import HdsCodec
  import opened Framing
  import opened FramingProofs
  import opened Envelopes

  /** The framing's view of messages is that of the envelopes. */
  ghost predicate Speaks(w: World, py: Python) {
    forall p :: (w.isMessage(p) <==> DecodeMessage(py, p).Ok?) && (w.isHello(p) <==> Greets(py, p))
  }

  // ---------------------------------------------------------------- delivery

  /** A message the transport sends and a reader can give back. */
  predicate Sendable(o: Outgoing) {
    Payload(o).Ok? && o.protocol != [] && NoNan(Dict(o.message)) && Faithful(Dict(o.message))
  }

  predicate AllSendable(os: seq<Outgoing>) {
    forall i | 0 <= i < |os| :: Sendable(os[i])
  }

  function Payloads(os: seq<Outgoing>): (ps: seq<seq<byte>>)
    requires AllSendable(os)
    ensures |ps| == |os| && AllFit(ps)
  {
    if os == [] then [] else [Payload(os[0]).value] + Payloads(os[1..])
  }

  function Erased(o: Outgoing): Envelope {
    Envelope(o.kind, o.protocol, o.topic, EraseEntries(o.message))
  }

  lemma {:induction false} PayloadAt(py: Python, os: seq<Outgoing>, i: nat)
    requires Faithfully(py) && AllSendable(os) && i < |os|
    ensures Payloads(os)[i] == Payload(os[i]).value
    ensures DecodeMessage(py, Payloads(os)[i]) == Ok(Erased(os[i]))
  {
    if i > 0 {
      PayloadAt(py, os[1..], i - 1);
    } else {
      EnvelopeRoundTrip(py, os[0]);
    }
  }

  /** The connection goes on after each of these messages. */
  predicate AllGoOn(w: World, counter: nat, payloads: seq<seq<byte>>)
    decreases |payloads|
  {
    payloads == [] || (w.goesOn(counter, payloads[0]) && AllGoOn(w, counter + 1, payloads[1..]))
  }

  lemma {:induction false} AllAreWelcome(w: World, counter: nat, payloads: seq<seq<byte>>)
    requires AllGoOn(w, counter, payloads) && forall i | 0 <= i < |payloads| :: w.isMessage(payloads[i])
    ensures AllWelcome(w, counter, payloads)
    decreases |payloads|
  {
    if payloads == [] {
    } else {
      AllAreWelcome(w, counter + 1, payloads[1..]);
    }
  }

  /** A greeting that can be answered. */
  predicate Greeting(o: Outgoing) {
    o.kind.Request? && o.protocol == CONTROL && o.topic == HELLO && Payload(HelloReply(o.kind.id)).Ok?
  }

  /**
   End to end: a greeting and any further messages, framed by a peer under
   counters 0, 1, 2, ... and cut anywhere, arrive as those messages, in order, with
   their kinds, identifiers, protocols, topics and erased contents, as long as their
   handlers let the connection go on.
   */
  lemma {:induction false} MessagesArrive(
    w: World, py: Python, pending: seq<Key>, k: nat, os: seq<Outgoing>, chunks: seq<seq<byte>>)
    requires Sane(w) && Faithfully(py) && Speaks(w, py) && k < |pending|
    requires os != [] && AllSendable(os) && |os| <= NONCES && Greeting(os[0])
    requires FirstToOpen(w, pending, k, Payloads(os)[0])
    requires AllGoOn(w, 1, Payloads(os)[1..])
    requires Flatten(chunks) == Frames(w, pending[k], 0, Payloads(os))
    ensures var line := ArriveAll(w, pending, Arriving([]), chunks);
            && line == Identified(k, Payloads(os)[0], Inbox(|os|, [], Payloads(os)[1..], false))
            && DecodeMessage(py, line.first) == Ok(Erased(os[0]))
            && forall i | 0 <= i < |line.inbox.received| ::
                 DecodeMessage(py, line.inbox.received[i]) == Ok(Erased(os[i + 1]))
  {
    var ps := Payloads(os);
    forall i | 0 <= i < |os| ensures DecodeMessage(py, ps[i]) == Ok(Erased(os[i])) {
      PayloadAt(py, os, i);
    }
    forall i | 0 <= i < |ps[1..]| ensures w.isMessage(ps[1..][i]) && ps[1..][i] == ps[i + 1] {
    }
    AllAreWelcome(w, 1, ps[1..]);
    Lockstep(w, pending, k, ps, chunks);
  }

  /** What a new connection writes: the answer to a greeting, or nothing any more. */
  function Answered(w: World, py: Python, key: Key, first: seq<byte>): Outbox {
    var o := Outbox(0, [], [], false);
    if Greets(py, first) then
      Send(w, key, o, Some(Payload(HelloReply(DecodeMessage(py, first).value.kind.id)).value))
    else o.(closed := true)
  }

  // ---------------------------------------------------------------- the object

  class Connection {
    const w: World
    const py: Python
    const outKey: Key
    const inKey: Key
    var outNonce: nat
    var inNonce: nat
    var buffer: seq<byte>
    var wire: seq<byte>
    var closed: bool
    ghost var sent: seq<seq<byte>>
    ghost var received: seq<seq<byte>>

    ghost function Out(): Outbox
      reads this
    {
      Outbox(outNonce, wire, sent, closed)
    }

    ghost function In(): Inbox
      reads this
    {
      Inbox(inNonce, buffer, received, closed)
    }

    /** The connection as accepted, before its own loop runs: what follows the first frame is unread. */
    constructor (w: World, py: Python, outKey: Key, inKey: Key, rest: seq<byte>)
      ensures this.w == w && this.py == py && this.outKey == outKey && this.inKey == inKey
      ensures In() == Inbox(1, rest, [], false) && Out() == Outbox(0, [], [], false)
    {
      this.w, this.py, this.outKey, this.inKey := w, py, outKey, inKey;
      outNonce, inNonce, buffer, wire, closed := 0, 1, rest, [], false;
      sent, received := [], [];
    }

    method Close()
      modifies this
      ensures In() == Shut(old(In())) && Out() == old(Out()).(closed := true)
    {
      closed := true;
      buffer := [];
    }

    /** `_send`: build, check and seal, or refuse with nothing changed. */
    method SendMessage(o: Outgoing) returns (ok: bool)
      modifies `outNonce, `wire, `sent
      ensures Out() == Send(w, outKey, old(Out()), match Payload(o) case Ok(p) => Some(p) case Err(_) => None)
      ensures ok <==> Payload(o).Ok? && Admits(old(Out()), Payload(o).value)
    {
      if closed {
        return false;
      }
      var header := HdsCodec.Encode(Dict(HeaderEntries(o)));
      if header.Err? || |header.value| > MAX_HEADER_LENGTH {
        return false;
      }
      var message := HdsCodec.Encode(Dict(o.message));
      if message.Err? {
        return false;
      }
      var payload := [|header.value|] + header.value + message.value;
      if |payload| > MAX_PAYLOAD_LENGTH || outNonce >= NONCES {
        return false;
      }
      var frameHeader := FrameHeader(|payload|);
      var encrypted := w.seal(outKey, Nonce(outNonce), frameHeader, payload);
      outNonce := outNonce + 1;
      wire := wire + (frameHeader + encrypted);
      sent := sent + [payload];
      ok := true;
    }

    /** The start of `_run`: the first message must be a greeting, and is answered under counter 0. */
    method Start(first: seq<byte>)
      requires Speaks(w, py) && In() == Inbox(1, buffer, [], false) && Out() == Outbox(0, [], [], false)
      modifies this
      ensures In() == Opening(w, first, old(buffer))
      ensures Out() == Answered(w, py, outKey, first)
    {
      var m := DecodeMessage(py, first);
      if m.Err? || !m.value.kind.Request? || m.value.protocol != CONTROL || m.value.topic != HELLO {
        Close();
        return;
      }
      var ok := SendMessage(HelloReply(m.value.kind.id));
      if !ok {
        Close();
      }
    }

    /** The accepted message is dispatched; a handler that says so ends the connection. */
    method Dispatch(payload: seq<byte>, rest: seq<byte>)
      requires !closed
      modifies `buffer, `inNonce, `closed, `received
      ensures In() == Accepted(w, old(In()), payload, rest)
    {
      var on := w.goesOn(inNonce, payload);
      inNonce := inNonce + 1;
      received := received + [payload];
      if on {
        buffer := rest;
      } else {
        closed, buffer := true, [];
      }
    }

    /** Whether a payload decodes as a message. */
    method Understands(payload: seq<byte>) returns (ok: bool)
      requires Speaks(w, py)
      ensures ok <==> w.isMessage(payload)
    {
      var m := DecodeMessage(py, payload);
      ok := m.Ok?;
    }

    /**
     A box is opened, its message decoded and dispatched; what fails, or a handler that says
     so, ends the connection.
     */
    method HandleFrame(header: seq<byte>, box: seq<byte>, rest: seq<byte>)
      requires Speaks(w, py) && !closed
      modifies `buffer, `inNonce, `closed, `received
      ensures In() == Handle(w, inKey, old(In()), header, box, rest)
    {
      var payload := OpenBox(w, inKey, inNonce, header, box);
      if payload.None? {
        closed, buffer := true, [];
        return;
      }
      var understood := Understands(payload.value);
      if understood {
        Dispatch(payload.value, rest);
      } else {
        inNonce := inNonce + 1;
        closed, buffer := true, [];
      }
    }

    /** One frame off the stream, if a whole one is there: its header, its box, its message. */
    method ReadFrame() returns (more: bool)
      requires Speaks(w, py) && !closed
      modifies `buffer, `inNonce, `closed, `received
      ensures match ReadHead(old(buffer))
              case NeedMore => !more && In() == old(In())
              case Malformed => !more && In() == Shut(old(In()))
              case Boxed(header, box, rest) => more && In() == Handle(w, inKey, old(In()), header, box, rest)
    {
      if |buffer| < 4 {
        return false;
      }
      var header := buffer[..4];
      if header[0] != 1 || LengthOf(header) > MAX_PAYLOAD_LENGTH {
        closed, buffer := true, [];
        return false;
      }
      var end := 4 + LengthOf(header) + TAG_LENGTH;
      if |buffer| < end {
        return false;
      }
      more := true;
      HandleFrame(header, buffer[4..end], buffer[end..]);
    }

    /** The loop of `_run`, woken by a chunk and running until the next frame is not complete yet. */
    method Receive(chunk: seq<byte>)
      requires Speaks(w, py)
      modifies `buffer, `inNonce, `closed, `received
      ensures In() == Feed(w, inKey, old(In()), chunk)
      ensures Out() == old(Out()).(closed := In().closed)
    {
      if closed {
        return;
      }
      buffer := buffer + chunk;
      ghost var start := In();
      var more := true;
      while more && !closed
        invariant Same(Drain(w, inKey, start), Drain(w, inKey, In()))
        invariant !more ==> closed || ReadHead(buffer).NeedMore?
        invariant Out() == old(Out()).(closed := closed)
        decreases more, |buffer|
      {
        more := ReadFrame();
      }
    }
  }
}
