/**
 An utterance can be sent: every data event of ordinary size is a payload the
 connection admits, so that what `SiriDelivery` assumes of a run can be had.
 */
module SiriSending {
  import opened Bytes
  import opened HdsValues
  import opened HdsAcceptance
  import HdsCodec
  import opened Framing
  import opened Envelopes
  import opened SiriMessages
  import SiriDelivery
  import Audio = SiriAudio

  function EncodedLength(v: Value): nat
    requires Acceptable(v, 0)
  {
    EncodeAccepts(v);
    |HdsCodec.Encode(v).value|
  }

  /** Exactly when `_send` gets as far as a payload. */
  lemma {:induction false} PayloadAccepts(o: Outgoing)
    ensures Payload(o).Ok? <==>
              && Acceptable(Dict(HeaderEntries(o)), 0) && Acceptable(Dict(o.message), 0)
              && EncodedLength(Dict(HeaderEntries(o))) <= 255
              && 1 + EncodedLength(Dict(HeaderEntries(o))) + EncodedLength(Dict(o.message)) <= 0xFFFFF
  {
    EncodeAccepts(Dict(HeaderEntries(o)));
    EncodeAccepts(Dict(o.message));
  }

  /** It does when both dictionaries can be written and are not too long. */
  lemma {:induction false} ShortPayload(o: Outgoing)
    requires Acceptable(Dict(HeaderEntries(o)), 0) && Length(Dict(HeaderEntries(o))) <= 255
    requires Acceptable(Dict(o.message), 0) && Length(Dict(o.message)) <= 0xFFE00
    ensures Payload(o).Ok?
  {
    EncodingLength(Dict(HeaderEntries(o)));
    EncodingLength(Dict(o.message));
    PayloadAccepts(o);
  }

  // ---------------------------------------------------------------- dictionaries under short keys

  lemma {:induction false} AsciiIsText(s: seq<byte>)
    requires forall i | 0 <= i < |s| :: s[i] < 0x80
    ensures ValidUtf8(s)
  {
    if s == [] {
    } else {
      AsciiIsText(s[1..]);
    }
  }

  /** A short ASCII key. */
  predicate IsKey(s: seq<byte>) {
    |s| <= 32 && forall i | 0 <= i < |s| :: s[i] < 0x80
  }

  /** An entry under a short key, and how long it is. */
  lemma {:induction false} EntryFits(key: seq<byte>, v: Value, depth: nat)
    requires IsKey(key) && Acceptable(v, depth)
    ensures AcceptableEntry(Entry(Str(key), v), depth)
    ensures EntryLength(Entry(Str(key), v)) == 1 + |key| + Length(v)
  {
    AsciiIsText(key);
  }

  lemma {:induction false} EntryFirst(e: Entry, more: seq<Entry>, depth: nat)
    requires AcceptableEntry(e, depth) && AcceptableEntries(more, depth)
    ensures AcceptableEntries([e] + more, depth) && EntriesLength([e] + more) == EntryLength(e) + EntriesLength(more)
  {
    assert ([e] + more)[1..] == more;
  }

  lemma {:induction false} TwoFit(a: Entry, b: Entry, depth: nat)
    requires AcceptableEntry(a, depth) && AcceptableEntry(b, depth) && depth > 0
    ensures Acceptable(Dict([a, b]), depth - 1) <==> depth <= 64
    ensures Length(Dict([a, b])) == 1 + EntryLength(a) + EntryLength(b)
  {
    var none: seq<Entry> := [];
    EntryFirst(b, none, depth);
    EntryFirst(a, [b], depth);
    assert [b] + none == [b] && [a] + [b] == [a, b];
  }

  lemma {:induction false} ThreeFit(a: Entry, b: Entry, c: Entry, depth: nat)
    requires AcceptableEntry(a, depth) && AcceptableEntry(b, depth) && AcceptableEntry(c, depth) && depth > 0
    ensures Acceptable(Dict([a, b, c]), depth - 1) <==> depth <= 64
    ensures Length(Dict([a, b, c])) == 1 + EntryLength(a) + EntryLength(b) + EntryLength(c)
  {
    var none: seq<Entry> := [];
    EntryFirst(c, none, depth);
    EntryFirst(b, [c], depth);
    EntryFirst(a, [b, c], depth);
    assert [c] + none == [c] && [b] + [c] == [b, c] && [a] + [b, c] == [a, b, c];
  }

  lemma {:induction false} FourFit(a: Entry, b: Entry, c: Entry, d: Entry, depth: nat)
    requires AcceptableEntry(a, depth) && AcceptableEntry(b, depth) && depth > 0
    requires AcceptableEntry(c, depth) && AcceptableEntry(d, depth)
    ensures Acceptable(Dict([a, b, c, d]), depth - 1) <==> depth <= 64
    ensures Length(Dict([a, b, c, d])) == 1 + EntryLength(a) + EntryLength(b) + EntryLength(c) + EntryLength(d)
  {
    ThreeFit(b, c, d, depth);
    EntryFirst(a, [b, c, d], depth);
    assert [a] + [b, c, d] == [a, b, c, d];
  }

  // ---------------------------------------------------------------- the keys in use

  lemma PacketKeys()
    ensures IsKey(DATA) && |DATA| == 4 && IsKey(METADATA) && |METADATA| == 8
  {
  }

  lemma MetadataKeys()
    ensures IsKey(RMS) && |RMS| == 3 && IsKey(SEQUENCE_NUMBER) && |SEQUENCE_NUMBER| == 14
  {
  }

  lemma EventKeys()
    ensures IsKey(PACKETS) && |PACKETS| == 7 && IsKey(STREAM_ID) && |STREAM_ID| == 8
    ensures IsKey(END_OF_STREAM) && |END_OF_STREAM| == 11
  {
  }

  lemma HeaderKeys()
    ensures IsKey(PROTOCOL) && |PROTOCOL| == 8 && IsKey(EVENT) && |EVENT| == 5
    ensures IsKey(DATA_SEND) && |DATA_SEND| == 8
  {
  }

  // ---------------------------------------------------------------- one event

  const LONGEST_PACKET: nat := 200_000

  /** A packet whose loudness packs, whose number is an int64 and whose data is not absurdly long. */
  predicate PacketFits(opus: Opus, p: Audio.Packet) {
    && |opus.data(p.data)| <= LONGEST_PACKET
    && opus.rms(p.data).single.Some?
    && p.sequenceNumber <= 0x7FFF_FFFF_FFFF_FFFF
  }

  lemma {:induction false} MetadataFits(rms: Value, n: nat, depth: nat)
    requires rms.Float32? && rms.single.Some? && n <= 0x7FFF_FFFF_FFFF_FFFF && depth < 64
    ensures var metadata := Dict([Entry(Str(RMS), rms), NumberEntry(SEQUENCE_NUMBER, n)]);
            Acceptable(metadata, depth) && Length(metadata) == 34
  {
    MetadataKeys();
    EntryFits(RMS, rms, depth + 1);
    EntryFits(SEQUENCE_NUMBER, Fixed(W64, n), depth + 1);
    TwoFit(Entry(Str(RMS), rms), NumberEntry(SEQUENCE_NUMBER, n), depth + 1);
  }

  lemma {:induction false} DataLength(data: seq<byte>)
    requires |data| <= LONGEST_PACKET
    ensures Acceptable(Data(data), 3) && Length(Data(data)) <= |data| + 5
  {
  }

  lemma {:induction false} PacketIsFitting(opus: Opus, p: Audio.Packet)
    requires PacketFits(opus, p)
    ensures Acceptable(PacketValue(opus, p), 2) && Length(PacketValue(opus, p)) <= LONGEST_PACKET + 60
  {
    var metadata := Dict([Entry(Str(RMS), opus.rms(p.data)), NumberEntry(SEQUENCE_NUMBER, p.sequenceNumber)]);
    PacketKeys();
    MetadataFits(opus.rms(p.data), p.sequenceNumber, 3);
    DataLength(opus.data(p.data));
    EntryFits(DATA, Data(opus.data(p.data)), 3);
    EntryFits(METADATA, metadata, 3);
    TwoFit(Entry(Str(DATA), Data(opus.data(p.data))), Entry(Str(METADATA), metadata), 3);
  }

  predicate PacketsFit(opus: Opus, packets: seq<Audio.Packet>) {
    forall k | 0 <= k < |packets| :: PacketFits(opus, packets[k])
  }

  lemma {:induction false} PacketsAreFitting(opus: Opus, packets: seq<Audio.Packet>)
    requires PacketsFit(opus, packets)
    ensures AcceptableItems(PacketValues(opus, packets), 2) && |PacketValues(opus, packets)| == |packets|
    ensures ItemsLength(PacketValues(opus, packets)) <= (LONGEST_PACKET + 60) * |packets|
  {
    if packets == [] {
    } else {
      PacketIsFitting(opus, packets[0]);
      PacketsAreFitting(opus, packets[1..]);
      assert PacketValues(opus, packets)[1..] == PacketValues(opus, packets[1..]);
      assert (LONGEST_PACKET + 60) * |packets| == LONGEST_PACKET + 60 + (LONGEST_PACKET + 60) * (|packets| - 1);
    }
  }

  /** At most five packets of ordinary size, on a stream with an int64 number. */
  predicate EventFits(opus: Opus, streamId: nat, event: Audio.DataEvent) {
    |event.packets| <= Audio.FRAMES_PER_EVENT && PacketsFit(opus, event.packets) && streamId <= 0x7FFF_FFFF_FFFF_FFFF
  }

  lemma {:induction false} PacketListFits(opus: Opus, packets: seq<Audio.Packet>)
    requires |packets| <= 5 && PacketsFit(opus, packets)
    ensures var list := Value.Array(PacketValues(opus, packets));
            Acceptable(list, 1) && Length(list) <= 1_000_301
  {
    PacketsAreFitting(opus, packets);
  }

  /** The body of a data event around a list of packets. */
  lemma {:induction false} BodyFits(list: Value, streamId: nat, endOfStream: bool)
    requires Acceptable(list, 1) && Length(list) <= 1_000_301 && streamId <= 0x7FFF_FFFF_FFFF_FFFF
    ensures var message := Dict([Entry(Str(PACKETS), list), NumberEntry(STREAM_ID, streamId),
                                 Entry(Str(END_OF_STREAM), Value.Bool(endOfStream))]);
            Acceptable(message, 0) && Length(message) <= 0xFFE00
  {
    EventKeys();
    EntryFits(PACKETS, list, 1);
    EntryFits(STREAM_ID, Fixed(W64, streamId), 1);
    EntryFits(END_OF_STREAM, Value.Bool(endOfStream), 1);
    ThreeFit(Entry(Str(PACKETS), list), NumberEntry(STREAM_ID, streamId),
             Entry(Str(END_OF_STREAM), Value.Bool(endOfStream)), 1);
  }

  lemma {:induction false} MessageFits(opus: Opus, streamId: nat, event: Audio.DataEvent)
    requires EventFits(opus, streamId, event)
    ensures var message := Dict(DataMessage(opus, streamId, event).message);
            Acceptable(message, 0) && Length(message) <= 0xFFE00
  {
    PacketListFits(opus, event.packets);
    BodyFits(Value.Array(PacketValues(opus, event.packets)), streamId, event.endOfStream);
  }

  lemma {:induction false} TextPairFits(a: seq<byte>, x: seq<byte>, b: seq<byte>, y: seq<byte>)
    requires IsKey(a) && IsKey(b) && IsKey(x) && IsKey(y)
    ensures var header := Dict([TextEntry(a, x), TextEntry(b, y)]);
            Acceptable(header, 0) && Length(header) == 5 + |a| + |x| + |b| + |y|
  {
    AsciiIsText(x);
    AsciiIsText(y);
    EntryFits(a, Str(x), 1);
    EntryFits(b, Str(y), 1);
    TwoFit(TextEntry(a, x), TextEntry(b, y), 1);
  }

  lemma {:induction false} DataHeaderFits(message: seq<Entry>)
    ensures var header := Dict(HeaderEntries(Outgoing(Event, DATA_SEND, DATA, message)));
            Acceptable(header, 0) && Length(header) == 30
  {
    HeaderKeys();
    PacketKeys();
    TextPairFits(PROTOCOL, DATA_SEND, EVENT, DATA);
  }

  /** Such an event is a payload. */
  lemma {:induction false} EventIsSent(opus: Opus, streamId: nat, event: Audio.DataEvent)
    requires EventFits(opus, streamId, event)
    ensures Payload(DataMessage(opus, streamId, event)).Ok?
  {
    MessageFits(opus, streamId, event);
    DataHeaderFits(DataMessage(opus, streamId, event).message);
    ShortPayload(DataMessage(opus, streamId, event));
  }

  // ---------------------------------------------------------------- a whole utterance

  predicate AllFitting(opus: Opus, streamId: nat, events: seq<Audio.DataEvent>) {
    forall k | 0 <= k < |events| :: EventFits(opus, streamId, events[k])
  }

  /** The sends of a session, one after the other. */
  function Sends(opus: Opus, streamId: nat, events: seq<Audio.DataEvent>): seq<SendStep> {
    if events == [] then []
    else
      var payload := match Payload(DataMessage(opus, streamId, events[0])) case Ok(p) => Some(p) case Err(_) => None;
      [Attempt(payload)] + Sends(opus, streamId, events[1..])
  }

  /** The payloads of the data events. */
  function Payloads(opus: Opus, streamId: nat, events: seq<Audio.DataEvent>): (ps: seq<seq<byte>>)
    requires AllFitting(opus, streamId, events)
    ensures |ps| == |events|
  {
    if events == [] then []
    else
      EventIsSent(opus, streamId, events[0]);
      [Payload(DataMessage(opus, streamId, events[0])).value] + Payloads(opus, streamId, events[1..])
  }

  lemma {:induction false} PayloadsAreSpoken(py: Python, opus: Opus, streamId: nat, events: seq<Audio.DataEvent>)
    requires AllFitting(opus, streamId, events)
    ensures SiriDelivery.Spoken(py, opus, streamId, events, Payloads(opus, streamId, events))
  {
    if events == [] {
    } else {
      var ps := Payloads(opus, streamId, events);
      EventIsSent(opus, streamId, events[0]);
      PayloadsAreSpoken(py, opus, streamId, events[1..]);
      assert ps[1..] == Payloads(opus, streamId, events[1..]);
    }
  }

  lemma {:induction false} PayloadIsShort(o: Outgoing)
    requires Payload(o).Ok?
    ensures |Payload(o).value| <= MAX_PAYLOAD_LENGTH
  {
  }

  lemma {:induction false} FirstIsAdmitted(w: World, key: Key, o: Outbox, payload: seq<byte>, more: seq<SendStep>)
    requires !o.closed && o.counter < NONCES && |payload| <= MAX_PAYLOAD_LENGTH
    ensures var next := Send(w, key, o, Some(payload));
            && SendRun(w, key, o, [Attempt(Some(payload))] + more) == SendRun(w, key, next, more)
            && !next.closed && next.counter == o.counter + 1 && next.sent == o.sent + [payload]
  {
    assert ([Attempt(Some(payload))] + more)[1..] == more;
  }

  /**
   An open connection takes all of them, if its counter reaches that far: what it then has
   sealed is what it had before, and behind that the data events and nothing else.
   */
  lemma {:induction false} UtteranceIsSent(
    w: World, opus: Opus, key: Key, streamId: nat, events: seq<Audio.DataEvent>, o: Outbox)
    requires AllFitting(opus, streamId, events) && !o.closed && o.counter + |events| <= NONCES
    ensures var r := SendRun(w, key, o, Sends(opus, streamId, events));
            && !r.closed && r.counter == o.counter + |events|
            && r.sent == o.sent + Payloads(opus, streamId, events)
    decreases |events|
  {
    if events == [] {
      assert o.sent + [] == o.sent;
    } else {
      EventIsSent(opus, streamId, events[0]);
      PayloadIsShort(DataMessage(opus, streamId, events[0]));
      var payload := Payload(DataMessage(opus, streamId, events[0])).value;
      FirstIsAdmitted(w, key, o, payload, Sends(opus, streamId, events[1..]));
      UtteranceIsSent(w, opus, key, streamId, events[1..], Send(w, key, o, Some(payload)));
      Associative(o.sent, [payload], Payloads(opus, streamId, events[1..]));
    }
  }
}
