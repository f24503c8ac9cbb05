/**
 The frames of a HomeKit Data Stream connection: length-prefixed boxes under a
 counted nonce, the two places that read them, and the writer.
 */
module Framing {
  import opened Bytes

  const MAX_PAYLOAD_LENGTH: nat := 0xFFFFF
  const TAG_LENGTH: nat := 16
  const NONCES: nat := 0x1_0000_0000_0000_0000

  type Key = seq<byte>

  /**
   What the framing is handed: an authenticated cipher (key, nonce, associated
   data, and plaintext or box), a key derivation (secret, salt, info), which payloads decode to a message, which greet a
   connection, and whether a connection goes on after handling the message under a
   counter (its handlers may raise, or close it).
   */
  datatype World = World(
    seal: (Key, seq<byte>, seq<byte>, seq<byte>) -> seq<byte>,
    open: (Key, seq<byte>, seq<byte>, seq<byte>) -> Option<seq<byte>>,
    derive: (seq<byte>, seq<byte>, seq<byte>) -> Key,
    isMessage: seq<byte> -> bool,
    isHello: seq<byte> -> bool,
    goesOn: (nat, seq<byte>) -> bool)

  /** A box opens to what was sealed, and is one tag longer. */
  ghost predicate Sane(w: World) {
    forall k, n, a, p :: w.open(k, n, a, w.seal(k, n, a, p)) == Some(p) && |w.seal(k, n, a, p)| == |p| + TAG_LENGTH
  }

  // ---------------------------------------------------------------- frames

  /** `_nonce`: four zero bytes and the counter. */
  function Nonce(counter: nat): (n: seq<byte>)
    requires counter < NONCES
    ensures |n| == 12
  {
    [0, 0, 0, 0] + LittleEndian(counter, 8)
  }

  /** `to_bytes(width, "big")`. */
  function BigEndian(n: nat, width: nat): (bs: seq<byte>)
    ensures |bs| == width
  {
    if width == 0 then [] else BigEndian(n / 256, width - 1) + [n % 256]
  }

  /** `int.from_bytes(bs, "big")`. */
  function FromBigEndian(bs: seq<byte>): nat {
    if bs == [] then 0 else 256 * FromBigEndian(bs[..|bs| - 1]) + bs[|bs| - 1]
  }

  /** Type 1 and a 24-bit length. */
  function FrameHeader(length: nat): (h: seq<byte>)
    requires length <= MAX_PAYLOAD_LENGTH
    ensures |h| == 4
  {
    [1] + BigEndian(length, 3)
  }

  function LengthOf(header: seq<byte>): nat
    requires |header| == 4
  {
    FromBigEndian(header[1..])
  }

  function Frame(w: World, key: Key, counter: nat, payload: seq<byte>): seq<byte>
    requires counter < NONCES && |payload| <= MAX_PAYLOAD_LENGTH
  {
    FrameHeader(|payload|) + w.seal(key, Nonce(counter), FrameHeader(|payload|), payload)
  }

  /** What the start of a byte stream holds: too little, a frame's header and box, or something that is no frame. */
  datatype Head = NeedMore | Malformed | Boxed(header: seq<byte>, box: seq<byte>, rest: seq<byte>)

  function ReadHead(data: seq<byte>): Head {
    if |data| < 4 then NeedMore
    else if data[0] != 1 then Malformed
    else
      var length := LengthOf(data[..4]);
      if length > MAX_PAYLOAD_LENGTH then Malformed
      else if |data| < 4 + length + TAG_LENGTH then NeedMore
      else Boxed(data[..4], data[4..4 + length + TAG_LENGTH], data[4 + length + TAG_LENGTH..])
  }

  /** The opened payload of a box under a counter. */
  function OpenBox(w: World, key: Key, counter: nat, header: seq<byte>, box: seq<byte>): Option<seq<byte>> {
    if counter >= NONCES then None else w.open(key, Nonce(counter), header, box)
  }

  // ---------------------------------------------------------------- the receiving half

  /** The reader of a connection: counter, bytes not yet read, payloads accepted, and whether it gave up. */
  datatype Inbox = Inbox(counter: nat, buffer: seq<byte>, received: seq<seq<byte>>, closed: bool)

  function Shut(i: Inbox): Inbox {
    i.(buffer := [], closed := true)
  }

  /** The reader after accepting a message, which its handlers may make the last. */
  function Accepted(w: World, i: Inbox, payload: seq<byte>, rest: seq<byte>): Inbox {
    var on := w.goesOn(i.counter, payload);
    Inbox(i.counter + 1, if on then rest else [], i.received + [payload], !on)
  }

  /** One turn of the loop of `_run`: a box that does not open, or a message that does not decode, ends it. */
  function Handle(w: World, key: Key, i: Inbox, header: seq<byte>, box: seq<byte>, rest: seq<byte>): Inbox {
    var payload := OpenBox(w, key, i.counter, header, box);
    if payload.None? then Shut(i)
    else if !w.isMessage(payload.value) then Shut(i.(counter := i.counter + 1))
    else Accepted(w, i, payload.value, rest)
  }

  /** The loop of `_run`, as far as the buffered bytes reach. */
  function Drain(w: World, key: Key, i: Inbox): Inbox
    decreases |i.buffer|
  {
    if i.closed then i
    else
      match ReadHead(i.buffer)
      case NeedMore => i
      case Malformed => Shut(i)
      case Boxed(header, box, rest) => Drain(w, key, Handle(w, key, i, header, box, rest))
  }

  function Extended(i: Inbox, more: seq<byte>): Inbox {
    i.(buffer := i.buffer + more)
  }

  /** Bytes arrive. */
  function Feed(w: World, key: Key, i: Inbox, chunk: seq<byte>): Inbox {
    if i.closed then i else Drain(w, key, Extended(i, chunk))
  }

  function FeedAll(w: World, key: Key, i: Inbox, chunks: seq<seq<byte>>): Inbox
    decreases |chunks|
  {
    if chunks == [] then i else FeedAll(w, key, Feed(w, key, i, chunks[0]), chunks[1..])
  }

  // ---------------------------------------------------------------- accepting

  /** The first pending key under which the box opens with counter 0. */
  function Match(w: World, pending: seq<Key>, header: seq<byte>, box: seq<byte>): Option<(nat, seq<byte>)> {
    if pending == [] then None
    else
      var payload := OpenBox(w, pending[0], 0, header, box);
      if payload.Some? then Some((0, payload.value))
      else
        match Match(w, pending[1..], header, box)
        case None => None
        case Some(found) => Some((found.0 + 1, found.1))
  }

  /** A connection from its first byte: identified by its first frame, then read by its own loop. */
  datatype Line =
    | Arriving(buffer: seq<byte>)
    | Refused
    | Identified(index: nat, first: seq<byte>, inbox: Inbox)

  /** Where the loop of `_run` starts: counter 1, unless the greeting fails. */
  function Opening(w: World, first: seq<byte>, rest: seq<byte>): Inbox {
    if w.isHello(first) then Inbox(1, rest, [], false) else Inbox(1, [], [], true)
  }

  /** `_accept`, then `_run`, on what has arrived so far. */
  function Arrive(w: World, pending: seq<Key>, buffer: seq<byte>): (line: Line)
    ensures line.Identified? ==> line.index < |pending|
  {
    match ReadHead(buffer)
    case NeedMore => Arriving(buffer)
    case Malformed => Refused
    case Boxed(header, box, rest) =>
      match Match(w, pending, header, box)
      case None => Refused
      case Some(found) =>
        MatchInRange(w, pending, header, box);
        Identified(found.0, found.1, Drain(w, pending[found.0], Opening(w, found.1, rest)))
  }

  lemma {:induction false} MatchInRange(w: World, pending: seq<Key>, header: seq<byte>, box: seq<byte>)
    ensures var m := Match(w, pending, header, box);
            m.Some? ==> m.value.0 < |pending| && OpenBox(w, pending[m.value.0], 0, header, box) == Some(m.value.1)
  {
    if pending == [] || OpenBox(w, pending[0], 0, header, box).Some? {
    } else {
      MatchInRange(w, pending[1..], header, box);
    }
  }

  function ArriveMore(w: World, pending: seq<Key>, line: Line, chunk: seq<byte>): (after: Line)
    requires line.Identified? ==> line.index < |pending|
    ensures after.Identified? ==> after.index < |pending|
  {
    match line
    case Arriving(buffer) => Arrive(w, pending, buffer + chunk)
    case Refused => Refused
    case Identified(index, first, inbox) => Identified(index, first, Feed(w, pending[index], inbox, chunk))
  }

  function ArriveAll(w: World, pending: seq<Key>, line: Line, chunks: seq<seq<byte>>): Line
    requires line.Identified? ==> line.index < |pending|
    decreases |chunks|
  {
    if chunks == [] then line else ArriveAll(w, pending, ArriveMore(w, pending, line, chunks[0]), chunks[1..])
  }

  // ---------------------------------------------------------------- the sending half

  /** The writer of a connection; `sent` is the history of payloads it sealed. */
  datatype Outbox = Outbox(counter: nat, wire: seq<byte>, sent: seq<seq<byte>>, closed: bool)

  /** Whether `_send` gets as far as sealing. */
  predicate Admits(o: Outbox, payload: seq<byte>) {
    !o.closed && |payload| <= MAX_PAYLOAD_LENGTH && o.counter < NONCES
  }

  /** `_send`, from taking the lock to writing the frame; None is a message that could not be built. */
  function Send(w: World, key: Key, o: Outbox, payload: Option<seq<byte>>): Outbox {
    if payload.None? || !Admits(o, payload.value) then o
    else
      Outbox(
        o.counter + 1,
        o.wire + Frame(w, key, o.counter, payload.value),
        o.sent + [payload.value],
        false)
  }

  datatype SendStep = Attempt(payload: Option<seq<byte>>) | CloseNow

  function SendRun(w: World, key: Key, o: Outbox, steps: seq<SendStep>): Outbox
    decreases |steps|
  {
    if steps == [] then o
    else
      var next := if steps[0].CloseNow? then o.(closed := true) else Send(w, key, o, steps[0].payload);
      SendRun(w, key, next, steps[1..])
  }

  predicate AllFit(payloads: seq<seq<byte>>) {
    forall i | 0 <= i < |payloads| :: |payloads[i]| <= MAX_PAYLOAD_LENGTH
  }

  /** Frames of payloads under consecutive counters. */
  function Frames(w: World, key: Key, counter: nat, payloads: seq<seq<byte>>): seq<byte>
    requires AllFit(payloads) && counter + |payloads| <= NONCES
    decreases |payloads|
  {
    if payloads == [] then [] else Frame(w, key, counter, payloads[0]) + Frames(w, key, counter + 1, payloads[1..])
  }
}
