/**
 From the PCM to the other end of the wire: what a reader hears of an utterance
 that was finished, framed among whatever else the connection sent and cut anywhere.
 */
module SiriDelivery {
  import opened Bytes
  import opened HdsValues
  import opened Framing
  import FramingProofs
  import opened Envelopes
  import opened SiriMessages
  import Audio = SiriAudio
  import AudioProofs = SiriAudioProofs

  // ---------------------------------------------------------------- what a reader hears

  /** A packet as it arrives: the encoder's bytes, the loudness and the number. */
  datatype Sound = Sound(data: seq<byte>, rms: Plain, number: int)

  /** A data event as it arrives. */
  datatype Heard = Heard(sounds: seq<Sound>, endOfStream: bool)

  function ReadSound(p: Plain): Option<Sound> {
    if !p.PyDict? then None
    else
      match (Lookup(p.entries, DATA), Lookup(p.entries, METADATA))
      case (Some(PyBytes(data)), Some(PyDict(metadata))) =>
        (match (Lookup(metadata, RMS), Lookup(metadata, SEQUENCE_NUMBER))
         case (Some(rms), Some(PyInt(number))) => Some(Sound(data, rms, number))
         case _ => None)
      case _ => None
  }

  function ReadSounds(items: seq<Plain>): Option<seq<Sound>> {
    if items == [] then Some([])
    else
      match (ReadSound(items[0]), ReadSounds(items[1..]))
      case (Some(sound), Some(more)) => Some([sound] + more)
      case _ => None
  }

  /** The body of a data event of this stream. */
  function ReadData(message: seq<Pair>, streamId: int): Option<Heard> {
    match (Lookup(message, PACKETS), Lookup(message, STREAM_ID), Lookup(message, END_OF_STREAM))
    case (Some(PyList(items)), Some(PyInt(id)), Some(PyBool(endOfStream))) =>
      if id != streamId then None
      else (match ReadSounds(items) case Some(sounds) => Some(Heard(sounds, endOfStream)) case None => None)
    case _ => None
  }

  /** A payload, if it is a data event of this stream. */
  function Hear(py: Python, streamId: int, payload: seq<byte>): Option<Heard> {
    match DecodeMessage(py, payload)
    case Ok(Envelope(Event, protocol, topic, message)) =>
      if protocol == DATA_SEND && topic == DATA then ReadData(message, streamId) else None
    case _ => None
  }

  /** The data events of a stream among all payloads of a connection. */
  function HearAll(py: Python, streamId: int, payloads: seq<seq<byte>>): seq<Heard> {
    if payloads == [] then []
    else
      var more := HearAll(py, streamId, payloads[1..]);
      match Hear(py, streamId, payloads[0]) case Some(heard) => [heard] + more case None => more
  }

  // ---------------------------------------------------------------- what was said

  function SoundOf(opus: Opus, p: Audio.Packet): Sound {
    Sound(opus.data(p.data), Erase(opus.rms(p.data)), p.sequenceNumber)
  }

  function SoundsOf(opus: Opus, packets: seq<Audio.Packet>): (sounds: seq<Sound>)
    ensures |sounds| == |packets|
    ensures forall k | 0 <= k < |packets| :: sounds[k] == SoundOf(opus, packets[k])
  {
    if packets == [] then [] else [SoundOf(opus, packets[0])] + SoundsOf(opus, packets[1..])
  }

  function HeardOf(opus: Opus, event: Audio.DataEvent): Heard {
    Heard(SoundsOf(opus, event.packets), event.endOfStream)
  }

  function AllHeard(opus: Opus, events: seq<Audio.DataEvent>): (heard: seq<Heard>)
    ensures |heard| == |events|
    ensures forall k | 0 <= k < |events| :: heard[k] == HeardOf(opus, events[k])
  {
    if events == [] then [] else [HeardOf(opus, events[0])] + AllHeard(opus, events[1..])
  }

  /**
   The payloads of a connection with the data events of one stream among them, in
   order; what stands between them is nothing that stream's reader hears.
   */
  predicate Spoken(py: Python, opus: Opus, streamId: nat, events: seq<Audio.DataEvent>, payloads: seq<seq<byte>>)
    decreases |payloads|
  {
    if payloads == [] then events == []
    else
      || (Hear(py, streamId, payloads[0]).None? && Spoken(py, opus, streamId, events, payloads[1..]))
      || (events != [] && Payload(DataMessage(opus, streamId, events[0])) == Ok(payloads[0])
          && Spoken(py, opus, streamId, events[1..], payloads[1..]))
  }

  // ---------------------------------------------------------------- one event

  lemma {:induction false} LookupErased(entries: seq<Entry>, i: nat, key: seq<byte>)
    requires i < |entries| && entries[i].key == Str(key)
    requires forall j | 0 <= j < i :: entries[j].key.Str? && entries[j].key != Str(key)
    ensures Lookup(EraseEntries(entries), key) == Some(Erase(entries[i].val))
  {
    var d := EraseEntries(entries);
    ErasedAt(entries, i);
    forall j | 0 <= j < i ensures d[j].key != PyStr(key) {
      ErasedAt(entries, j);
      assert Erase(entries[j].key) == PyStr(entries[j].key.utf8);
    }
    assert Erase(Str(key)) == PyStr(key);
    LookupAt(d, i);
  }

  lemma {:induction false} MetadataReads(opus: Opus, p: Audio.Packet)
    ensures var metadata := [Entry(Str(RMS), opus.rms(p.data)), NumberEntry(SEQUENCE_NUMBER, p.sequenceNumber)];
            && Lookup(EraseEntries(metadata), RMS) == Some(Erase(opus.rms(p.data)))
            && Lookup(EraseEntries(metadata), SEQUENCE_NUMBER) == Some(PyInt(p.sequenceNumber))
  {
    var metadata := [Entry(Str(RMS), opus.rms(p.data)), NumberEntry(SEQUENCE_NUMBER, p.sequenceNumber)];
    assert |RMS| == 3 && |SEQUENCE_NUMBER| == 14;
    LookupErased(metadata, 0, RMS);
    LookupErased(metadata, 1, SEQUENCE_NUMBER);
  }

  lemma SoundReads(entries: seq<Pair>, data: seq<byte>, metadata: seq<Pair>, rms: Plain, number: int)
    requires Lookup(entries, DATA) == Some(PyBytes(data)) && Lookup(entries, METADATA) == Some(PyDict(metadata))
    requires Lookup(metadata, RMS) == Some(rms) && Lookup(metadata, SEQUENCE_NUMBER) == Some(PyInt(number))
    ensures ReadSound(PyDict(entries)) == Some(Sound(data, rms, number))
  {
  }

  lemma {:induction false} PacketFields(data: seq<byte>, metadata: seq<Entry>)
    ensures var entries := [Entry(Str(DATA), Data(data)), Entry(Str(METADATA), Dict(metadata))];
            && Lookup(EraseEntries(entries), DATA) == Some(PyBytes(data))
            && Lookup(EraseEntries(entries), METADATA) == Some(PyDict(EraseEntries(metadata)))
  {
    var entries := [Entry(Str(DATA), Data(data)), Entry(Str(METADATA), Dict(metadata))];
    assert |DATA| == 4 && |METADATA| == 8;
    LookupErased(entries, 0, DATA);
    LookupErased(entries, 1, METADATA);
  }

  lemma {:induction false} PacketReads(opus: Opus, p: Audio.Packet)
    ensures ReadSound(Erase(PacketValue(opus, p))) == Some(SoundOf(opus, p))
  {
    var data := opus.data(p.data);
    var metadata := [Entry(Str(RMS), opus.rms(p.data)), NumberEntry(SEQUENCE_NUMBER, p.sequenceNumber)];
    var entries := [Entry(Str(DATA), Data(data)), Entry(Str(METADATA), Dict(metadata))];
    MetadataReads(opus, p);
    PacketFields(data, metadata);
    SoundReads(EraseEntries(entries), data, EraseEntries(metadata), Erase(opus.rms(p.data)), p.sequenceNumber);
  }

  lemma {:induction false} PacketsRead(opus: Opus, packets: seq<Audio.Packet>)
    ensures ReadSounds(EraseItems(PacketValues(opus, packets))) == Some(SoundsOf(opus, packets))
  {
    if packets == [] {
    } else {
      var items := EraseItems(PacketValues(opus, packets));
      PacketReads(opus, packets[0]);
      PacketsRead(opus, packets[1..]);
      assert PacketValues(opus, packets)[1..] == PacketValues(opus, packets[1..]);
      assert items[0] == Erase(PacketValue(opus, packets[0]));
      assert items[1..] == EraseItems(PacketValues(opus, packets[1..]));
    }
  }

  lemma MessageReads(message: seq<Pair>, items: seq<Plain>, sounds: seq<Sound>, streamId: int, endOfStream: bool)
    requires Lookup(message, PACKETS) == Some(PyList(items)) && ReadSounds(items) == Some(sounds)
    requires Lookup(message, STREAM_ID) == Some(PyInt(streamId))
    requires Lookup(message, END_OF_STREAM) == Some(PyBool(endOfStream))
    ensures ReadData(message, streamId) == Some(Heard(sounds, endOfStream))
  {
  }

  lemma {:induction false} DataFields(values: seq<Value>, streamId: nat, endOfStream: bool)
    ensures var entries := [Entry(Str(PACKETS), Value.Array(values)), NumberEntry(STREAM_ID, streamId),
                            Entry(Str(END_OF_STREAM), Value.Bool(endOfStream))];
            && Lookup(EraseEntries(entries), PACKETS) == Some(PyList(EraseItems(values)))
            && Lookup(EraseEntries(entries), STREAM_ID) == Some(PyInt(streamId))
            && Lookup(EraseEntries(entries), END_OF_STREAM) == Some(PyBool(endOfStream))
  {
    var entries := [Entry(Str(PACKETS), Value.Array(values)), NumberEntry(STREAM_ID, streamId),
                    Entry(Str(END_OF_STREAM), Value.Bool(endOfStream))];
    assert |PACKETS| == 7 && |STREAM_ID| == 8 && |END_OF_STREAM| == 11;
    LookupErased(entries, 0, PACKETS);
    LookupErased(entries, 1, STREAM_ID);
    LookupErased(entries, 2, END_OF_STREAM);
  }

  lemma {:induction false} DataReads(opus: Opus, streamId: nat, event: Audio.DataEvent)
    ensures ReadData(EraseEntries(DataMessage(opus, streamId, event).message), streamId) == Some(HeardOf(opus, event))
  {
    var message := EraseEntries(DataMessage(opus, streamId, event).message);
    var values, sounds := PacketValues(opus, event.packets), SoundsOf(opus, event.packets);
    DataFields(values, streamId, event.endOfStream);
    PacketsRead(opus, event.packets);
    MessageReads(message, EraseItems(values), sounds, streamId, event.endOfStream);
  }

  /** A data event that was sent is heard. */
  lemma {:induction false} EventIsHeard(py: Python, opus: Opus, streamId: nat, event: Audio.DataEvent)
    requires Faithfully(py) && Payload(DataMessage(opus, streamId, event)).Ok?
    ensures Hear(py, streamId, Payload(DataMessage(opus, streamId, event)).value) == Some(HeardOf(opus, event))
  {
    DataEventArrives(py, opus, streamId, event);
    DataReads(opus, streamId, event);
  }

  // ---------------------------------------------------------------- all of them

  lemma {:induction false} AllAreHeard(
    py: Python, opus: Opus, streamId: nat, events: seq<Audio.DataEvent>, payloads: seq<seq<byte>>)
    requires Faithfully(py) && Spoken(py, opus, streamId, events, payloads)
    ensures HearAll(py, streamId, payloads) == AllHeard(opus, events)
    decreases |payloads|
  {
    if payloads == [] {
    } else if Hear(py, streamId, payloads[0]).None? && Spoken(py, opus, streamId, events, payloads[1..]) {
      AllAreHeard(py, opus, streamId, events, payloads[1..]);
    } else {
      EventIsHeard(py, opus, streamId, events[0]);
      AllAreHeard(py, opus, streamId, events[1..], payloads[1..]);
    }
  }

  /** The sounds of all events, joined. */
  function Sounds(heard: seq<Heard>): seq<Sound> {
    if heard == [] then [] else Sounds(heard[..|heard| - 1]) + heard[|heard| - 1].sounds
  }

  lemma {:induction false} SoundsJoin(opus: Opus, a: seq<Audio.Packet>, b: seq<Audio.Packet>)
    ensures SoundsOf(opus, a + b) == SoundsOf(opus, a) + SoundsOf(opus, b)
  {
  }

  lemma {:induction false} SoundsArePackets(opus: Opus, events: seq<Audio.DataEvent>)
    ensures Sounds(AllHeard(opus, events)) == SoundsOf(opus, Audio.Packets(events))
  {
    if events == [] {
    } else {
      var n := |events| - 1;
      SoundsArePackets(opus, events[..n]);
      SoundsJoin(opus, Audio.Packets(events[..n]), events[n].packets);
      assert AllHeard(opus, events)[..n] == AllHeard(opus, events[..n]);
    }
  }

  /** Whatever a sender's run put on the wire, a reader fed it in any pieces has received it. */
  lemma {:induction false} WireIsReceived(w: World, key: Key, sends: seq<SendStep>, chunks: seq<seq<byte>>)
    requires Sane(w)
    requires var o := SendRun(w, key, Outbox(0, [], [], false), sends);
             FramingProofs.AllWelcome(w, 0, o.sent) && Flatten(chunks) == o.wire
    ensures var o := SendRun(w, key, Outbox(0, [], [], false), sends);
            FeedAll(w, key, Inbox(0, [], [], false), chunks).received == o.sent
  {
    var start := Inbox(0, [], [], false);
    var o := SendRun(w, key, Outbox(0, [], [], false), sends);
    FramingProofs.RunExplained(w, key, Outbox(0, [], [], false), sends);
    FramingProofs.CutDoesNotMatter(w, key, start, [], chunks);
    assert Feed(w, key, start, []) == start;
    assert [] + Flatten(chunks) == o.wire;
    var full := Extended(start, o.wire);
    FramingProofs.FramesRead(w, key, full, o.sent);
    FramingProofs.ReadAllAccepts(w, full, o.sent);
  }

  /**
   End to end: an utterance fed in any pieces and finished with padding, whose `finish`
   returned normally on an undisturbed session; the connection sent its data events, in
   order, among whatever else it sent; its bytes were cut anywhere. Then what a reader
   hears of the stream is one sound for each frame of the PCM, in order and numbered from
   0, made of the encoder's output for exactly that frame, and one end of stream, on the
   last event.
   */
  lemma {:induction false} UtteranceIsHeard(
    w: World, py: Python, opus: Opus, key: Key, streamId: nat,
    feeding: seq<Audio.Step>, ending: seq<Audio.Step>, s: Audio.State, sends: seq<SendStep>, chunks: seq<seq<byte>>)
    requires Sane(w) && Faithfully(py)
    requires Audio.Exec(Audio.Init(), feeding + [Audio.Finish(true)] + ending) == Some(s)
    requires AudioProofs.AllKeepOpen(feeding) && AudioProofs.AllUndisturbed(ending)
    requires AudioProofs.AcksFollowEnd(Audio.Init(), feeding + [Audio.Finish(true)] + ending)
    requires s.closed && !s.error
    requires var o := SendRun(w, key, Outbox(0, [], [], false), sends);
             && Spoken(py, opus, streamId, s.sent, o.sent)
             && FramingProofs.AllWelcome(w, 0, o.sent) && Flatten(chunks) == o.wire
    ensures var frames := Audio.Framing(Audio.Whole(AudioProofs.Fed(feeding), Audio.Padded));
            var heard := HearAll(py, streamId, FeedAll(w, key, Inbox(0, [], [], false), chunks).received);
            && |Sounds(heard)| == |frames| == (|AudioProofs.Fed(feeding)| + Audio.FRAME_BYTES - 1) / Audio.FRAME_BYTES
            && (forall k | 0 <= k < |frames| ::
                  Sounds(heard)[k] == SoundOf(opus, Audio.Packet(Audio.Encoding(frames, k), k)))
            && heard != [] && (forall j | 0 <= j < |heard| :: heard[j].endOfStream <==> j == |heard| - 1)
  {
    var steps := feeding + [Audio.Finish(true)] + ending;
    var frames := Audio.Framing(Audio.Whole(AudioProofs.Fed(feeding), Audio.Padded));
    var o := SendRun(w, key, Outbox(0, [], [], false), sends);
    WireIsReceived(w, key, sends, chunks);
    AllAreHeard(py, opus, streamId, s.sent, o.sent);
    SoundsArePackets(opus, s.sent);
    AudioProofs.FinishedMeansDelivered(feeding, ending, s);
    AudioProofs.PacketsAre(frames, |frames|);
    EndsOnce(opus, steps, s);
  }

  lemma {:induction false} EndsOnce(opus: Opus, steps: seq<Audio.Step>, s: Audio.State)
    requires Audio.Exec(Audio.Init(), steps) == Some(s) && Audio.EndIssued(s)
    ensures var heard := AllHeard(opus, s.sent);
            heard != [] && forall j | 0 <= j < |heard| :: heard[j].endOfStream <==> j == |heard| - 1
  {
    var heard := AllHeard(opus, s.sent);
    forall j | 0 <= j < |heard| ensures heard[j].endOfStream <==> j == |heard| - 1 {
      AudioProofs.EventsAreBatched(steps, s, j);
    }
  }
}
