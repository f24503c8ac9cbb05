/**
 The data-stream messages of a Siri session, and that the codec carries each of
 them: what the audio session hands to its connection is what a reader gets.
 */
module SiriMessages {
  import opened Bytes
  import opened HdsValues
  import opened Envelopes
  import Audio = SiriAudio

  const DATA_SEND: seq<byte> := [0x64, 0x61, 0x74, 0x61, 0x53, 0x65, 0x6E, 0x64]
  const OPEN: seq<byte> := [0x6F, 0x70, 0x65, 0x6E]
  const DATA: seq<byte> := [0x64, 0x61, 0x74, 0x61]
  const CLOSE: seq<byte> := [0x63, 0x6C, 0x6F, 0x73, 0x65]
  const METADATA: seq<byte> := [0x6D, 0x65, 0x74, 0x61, 0x64, 0x61, 0x74, 0x61]
  const RMS: seq<byte> := [0x72, 0x6D, 0x73]
  const SEQUENCE_NUMBER: seq<byte> :=
    [0x73, 0x65, 0x71, 0x75, 0x65, 0x6E, 0x63, 0x65, 0x4E, 0x75, 0x6D, 0x62, 0x65, 0x72]
  const PACKETS: seq<byte> := [0x70, 0x61, 0x63, 0x6B, 0x65, 0x74, 0x73]
  const STREAM_ID: seq<byte> := [0x73, 0x74, 0x72, 0x65, 0x61, 0x6D, 0x49, 0x64]
  const END_OF_STREAM: seq<byte> :=
    [0x65, 0x6E, 0x64, 0x4F, 0x66, 0x53, 0x74, 0x72, 0x65, 0x61, 0x6D]
  const REASON: seq<byte> := [0x72, 0x65, 0x61, 0x73, 0x6F, 0x6E]
  const TARGET: seq<byte> := [0x74, 0x61, 0x72, 0x67, 0x65, 0x74]
  const CONTROLLER: seq<byte> := [0x63, 0x6F, 0x6E, 0x74, 0x72, 0x6F, 0x6C, 0x6C, 0x65, 0x72]
  const TYPE: seq<byte> := [0x74, 0x79, 0x70, 0x65]
  const AUDIO_SIRI: seq<byte> := [0x61, 0x75, 0x64, 0x69, 0x6F, 0x2E, 0x73, 0x69, 0x72, 0x69]

  /** The loudness of a frame, a root of a mean square and so a number, as a 32-bit float wrapper. */
  type Loudness = v: Value | v.Float32? && !IsNan(v.bits) witness Float32([0, 0, 0, 0, 0, 0, 0, 0], None)

  /** What the Opus encoder makes of a frame: its bytes and its loudness. */
  datatype Opus = Opus(data: Audio.AudioFrame -> seq<byte>, rms: Audio.AudioFrame -> Loudness)

  function PacketValue(opus: Opus, p: Audio.Packet): Value {
    Dict([
      Entry(Str(DATA), Data(opus.data(p.data))),
      Entry(Str(METADATA), Dict([Entry(Str(RMS), opus.rms(p.data)), NumberEntry(SEQUENCE_NUMBER, p.sequenceNumber)]))])
  }

  function PacketValues(opus: Opus, packets: seq<Audio.Packet>): seq<Value> {
    if packets == [] then [] else [PacketValue(opus, packets[0])] + PacketValues(opus, packets[1..])
  }

  /** dataSend/data. */
  function DataMessage(opus: Opus, streamId: nat, event: Audio.DataEvent): Outgoing {
    Outgoing(Event, DATA_SEND, DATA, [
      Entry(Str(PACKETS), Array(PacketValues(opus, event.packets))),
      NumberEntry(STREAM_ID, streamId),
      Entry(Str(END_OF_STREAM), Bool(event.endOfStream))])
  }

  /** dataSend/close. */
  function CloseMessage(streamId: nat, reason: int): Outgoing {
    Outgoing(Event, DATA_SEND, CLOSE, [NumberEntry(STREAM_ID, streamId), NumberEntry(REASON, reason)])
  }

  /** dataSend/open. */
  function OpenMessage(id: int): Outgoing {
    Outgoing(Request(id), DATA_SEND, OPEN, [TextEntry(TARGET, CONTROLLER), TextEntry(TYPE, AUDIO_SIRI)])
  }

  /** A value the codec carries. */
  predicate Carried(v: Value) {
    Faithful(v) && NoNan(v)
  }

  lemma {:induction false} DictIsCarried(entries: seq<Entry>)
    requires DistinctTexts(entries) && forall i | 0 <= i < |entries| :: Carried(entries[i].val)
    ensures Carried(Dict(entries))
  {
    DistinctTextsAreFaithful([], entries);
    TextKeysHaveNoNan(entries);
  }

  lemma {:induction false} PacketIsCarried(opus: Opus, p: Audio.Packet)
    ensures Carried(PacketValue(opus, p))
  {
    var metadata := [Entry(Str(RMS), opus.rms(p.data)), NumberEntry(SEQUENCE_NUMBER, p.sequenceNumber)];
    assert |RMS| == 3 && |SEQUENCE_NUMBER| == 14 && |DATA| == 4 && |METADATA| == 8;
    assert Carried(metadata[0].val) && Carried(metadata[1].val);
    DictIsCarried(metadata);
    DictIsCarried([Entry(Str(DATA), Data(opus.data(p.data))), Entry(Str(METADATA), Dict(metadata))]);
  }

  lemma {:induction false} PacketsAreCarried(opus: Opus, packets: seq<Audio.Packet>)
    ensures FaithfulItems(PacketValues(opus, packets)) && NoNanItems(PacketValues(opus, packets))
  {
    if packets == [] {
    } else {
      PacketIsCarried(opus, packets[0]);
      PacketsAreCarried(opus, packets[1..]);
    }
  }

  lemma {:induction false} DataIsCarried(opus: Opus, streamId: nat, event: Audio.DataEvent)
    ensures Carried(Dict(DataMessage(opus, streamId, event).message))
  {
    var entries := DataMessage(opus, streamId, event).message;
    PacketsAreCarried(opus, event.packets);
    assert |PACKETS| == 7 && |STREAM_ID| == 8 && |END_OF_STREAM| == 11;
    assert Carried(entries[0].val) && Carried(entries[1].val) && Carried(entries[2].val);
    DictIsCarried(entries);
  }

  /** Any data event the audio session sends is read back with its packets, their numbers and its end mark. */
  lemma {:induction false} DataEventArrives(py: Python, opus: Opus, streamId: nat, event: Audio.DataEvent)
    requires Faithfully(py) && Payload(DataMessage(opus, streamId, event)).Ok?
    ensures var o := DataMessage(opus, streamId, event);
            DecodeMessage(py, Payload(o).value) == Ok(Envelope(Event, DATA_SEND, DATA, EraseEntries(o.message)))
  {
    DataIsCarried(opus, streamId, event);
    EnvelopeRoundTrip(py, DataMessage(opus, streamId, event));
  }

  /** And so is the request that opens a stream, ... */
  lemma {:induction false} OpenArrives(py: Python, id: int)
    requires Faithfully(py) && Payload(OpenMessage(id)).Ok?
    ensures DecodeMessage(py, Payload(OpenMessage(id)).value)
         == Ok(Envelope(Request(id), DATA_SEND, OPEN, EraseEntries(OpenMessage(id).message)))
  {
    assert |TARGET| == 6 && |TYPE| == 4 && Carried(Str(CONTROLLER)) && Carried(Str(AUDIO_SIRI));
    DictIsCarried(OpenMessage(id).message);
    EnvelopeRoundTrip(py, OpenMessage(id));
  }

  /** ... and the event that closes it. */
  lemma {:induction false} CloseArrives(py: Python, streamId: nat, reason: int)
    requires Faithfully(py) && Payload(CloseMessage(streamId, reason)).Ok?
    ensures DecodeMessage(py, Payload(CloseMessage(streamId, reason)).value)
         == Ok(Envelope(Event, DATA_SEND, CLOSE, EraseEntries(CloseMessage(streamId, reason).message)))
  {
    assert |STREAM_ID| == 8 && |REASON| == 6 && Carried(Fixed(W64, streamId)) && Carried(Fixed(W64, reason));
    DictIsCarried(CloseMessage(streamId, reason).message);
    EnvelopeRoundTrip(py, CloseMessage(streamId, reason));
  }
}
