/**
 The messages of a data stream by the words they use: which dictionary holds what under
 which name, as the peer reads it.
 */
module MessageTexts {
  import opened Bytes
  import opened HdsValues
  import HdsCodec
  import HdsRoundTrip
  import opened Envelopes
  import opened SiriDelivery
  import opened SiriMessages
  import Audio = SiriAudio

  // ---------------------------------------------------------------- the words

  lemma HeaderWords()
    ensures PROTOCOL == Ascii("protocol") && EVENT == Ascii("event") && REQUEST == Ascii("request")
    ensures RESPONSE == Ascii("response") && ID == Ascii("id") && STATUS == Ascii("status")
  {
  }

  lemma DataSendWords()
    ensures DATA_SEND == Ascii("dataSend") && OPEN == Ascii("open") && DATA == Ascii("data") && CLOSE == Ascii("close")
  {
  }

  lemma EventWords()
    ensures PACKETS == Ascii("packets") && STREAM_ID == Ascii("streamId") && END_OF_STREAM == Ascii("endOfStream")
    ensures REASON == Ascii("reason")
  {
  }

  lemma PacketWords()
    ensures METADATA == Ascii("metadata") && RMS == Ascii("rms") && SEQUENCE_NUMBER == Ascii("sequenceNumber")
  {
  }

  lemma OpenWords()
    ensures TARGET == Ascii("target") && CONTROLLER == Ascii("controller")
    ensures TYPE == Ascii("type") && AUDIO_SIRI == Ascii("audio.siri")
  {
  }

  /** A dictionary holds a value under a word. */
  predicate Says(d: seq<Pair>, word: string, p: Plain)
    requires forall i | 0 <= i < |word| :: word[i] < 128 as char
  {
    Lookup(d, Ascii(word)) == Some(p)
  }

  // ---------------------------------------------------------------- headers

  /** The header of a sent message, as it reads. */
  predicate HeaderSays(h: seq<Pair>, o: Outgoing) {
    && Says(h, "protocol", PyStr(o.protocol))
    && match o.kind
       case Event => |h| == 2 && Says(h, "event", PyStr(o.topic))
       case Request(id) => |h| == 3 && Says(h, "request", PyStr(o.topic)) && Says(h, "id", PyInt(id))
       case Response(id, status) =>
         && |h| == 4 && Says(h, "response", PyStr(o.topic)) && Says(h, "id", PyInt(id))
         && Says(h, "status", PyInt(status))
  }

  lemma {:induction false} HeaderPairsSay(o: Outgoing)
    ensures HeaderSays(HeaderPairs(o), o)
  {
    var h := HeaderPairs(o);
    KeysDiffer();
    HeaderWords();
    LookupAt(h, 0);
    LookupAt(h, 1);
    if !o.kind.Event? {
      LookupAt(h, 2);
    }
    if o.kind.Response? {
      LookupAt(h, 3);
    }
  }

  /** A payload is one byte with the length of the header, the header, and the message. */
  lemma {:induction false} PayloadSays(o: Outgoing) returns (h: seq<Pair>)
    requires Payload(o).Ok? && NoNan(Dict(o.message)) && Faithful(Dict(o.message))
    ensures var p := Payload(o).value;
            && p != [] && 1 + p[0] <= |p| && HdsCodec.Decode(p[1..1 + p[0]]) == Ok(PyDict(h)) && HeaderSays(h, o)
            && HdsCodec.Decode(p[1 + p[0]..]) == Ok(PyDict(EraseEntries(o.message)))
  {
    var header, message := Dict(HeaderEntries(o)), Dict(o.message);
    var hb, mb := HdsCodec.Encode(header).value, HdsCodec.Encode(message).value;
    h := HeaderPairs(o);
    HeaderPairsSay(o);
    HeaderErases(o);
    HeaderIsFaithful(o);
    HeaderHasNoNan(o);
    HdsRoundTrip.RoundTrip(header);
    HdsRoundTrip.RoundTrip(message);
    var p := Payload(o).value;
    assert p == [|hb|] + hb + mb;
    assert p[1..1 + |hb|] == hb && p[1 + |hb|..] == mb;
  }

  // ---------------------------------------------------------------- any payload

  /** What a header says of the kind and the topic: an event before a request, a request before a response. */
  predicate KindSays(py: Python, h: seq<Pair>, kind: Kind, topic: seq<byte>) {
    var event, request := Lookup(h, Ascii("event")), Lookup(h, Ascii("request"));
    var response := Lookup(h, Ascii("response"));
    if event.Some? then kind == Event && topic == py.text(event.value)
    else if request.Some? then
      kind.Request? && NumberSays(py, h, "id", kind.id) && topic == py.text(request.value)
    else
      && response.Some? && kind.Response?
      && NumberSays(py, h, "id", kind.id) && NumberSays(py, h, "status", kind.status)
      && topic == py.text(response.value)
  }

  predicate NumberSays(py: Python, h: seq<Pair>, word: string, n: int)
    requires forall i | 0 <= i < |word| :: word[i] < 128 as char
  {
    var p := Lookup(h, Ascii(word));
    p.Some? && py.number(p.value) == Some(n)
  }

  /** Two dictionaries behind a length byte, of which the first names a protocol and a kind. */
  ghost predicate PayloadIs(py: Python, payload: seq<byte>, e: Envelope) {
    payload != [] && 1 + payload[0] <= |payload| && exists h :: HeaderIs(py, payload, h, e)
  }

  predicate HeaderIs(py: Python, payload: seq<byte>, h: seq<Pair>, e: Envelope)
    requires payload != [] && 1 + payload[0] <= |payload|
  {
    && HdsCodec.Decode(payload[1..1 + payload[0]]) == Ok(PyDict(h))
    && HdsCodec.Decode(payload[1 + payload[0]..]) == Ok(PyDict(e.message))
    && ProtocolSays(py, h, e.protocol) && KindSays(py, h, e.kind, e.topic)
  }

  predicate ProtocolSays(py: Python, h: seq<Pair>, protocol: seq<byte>) {
    var p := Lookup(h, Ascii("protocol"));
    p.Some? && py.text(p.value) == protocol && protocol != []
  }

  lemma {:induction false} NumberReads(py: Python, h: seq<Pair>, key: seq<byte>, missing: Failure, n: int)
    ensures NumberAt(py, h, key, missing) == Ok(n)
            <==> Lookup(h, key).Some? && py.number(Lookup(h, key).value) == Some(n)
  {
  }

  lemma {:induction false} KindReads(py: Python, h: seq<Pair>, kind: Kind, topic: seq<byte>)
    ensures ReadKind(py, h) == Ok((kind, topic)) <==> KindSays(py, h, kind, topic)
  {
    HeaderWords();
    if !kind.Event? {
      NumberReads(py, h, ID, NoId, kind.id);
    }
    if kind.Response? {
      NumberReads(py, h, STATUS, NoStatus, kind.status);
    }
  }

  lemma {:induction false} EnvelopeReads(py: Python, h: seq<Pair>, e: Envelope)
    ensures ReadEnvelope(py, PyDict(h), PyDict(e.message)) == Ok(e)
            <==> ProtocolSays(py, h, e.protocol) && KindSays(py, h, e.kind, e.topic)
  {
    HeaderWords();
    KindReads(py, h, e.kind, e.topic);
  }

  /** Whatever the bytes are, they are received as a message exactly when they are that message. */
  lemma {:induction false} PayloadExactly(py: Python, payload: seq<byte>, e: Envelope)
    ensures DecodeMessage(py, payload) == Ok(e) <==> PayloadIs(py, payload, e)
  {
    if payload != [] && 1 + payload[0] <= |payload| {
      var header, message := HdsCodec.Decode(payload[1..1 + payload[0]]), HdsCodec.Decode(payload[1 + payload[0]..]);
      if header.Ok? && message.Ok? && header.value.PyDict? && message.value == PyDict(e.message) {
        EnvelopeReads(py, header.value.entries, e);
        assert DecodeMessage(py, payload) == Ok(e) <==> HeaderIs(py, payload, header.value.entries, e);
      }
    }
  }

  // ---------------------------------------------------------------- bodies

  /** The close of a stream: which, and why. */
  lemma {:induction false} CloseSays(streamId: nat, reason: int)
    ensures var o := CloseMessage(streamId, reason); var d := EraseEntries(o.message);
            && o.kind == Event && o.protocol == Ascii("dataSend") && o.topic == Ascii("close")
            && |d| == 2 && Says(d, "streamId", PyInt(streamId)) && Says(d, "reason", PyInt(reason))
  {
    DataSendWords();
    EventWords();
    var entries := CloseMessage(streamId, reason).message;
    assert |STREAM_ID| == 8 && |REASON| == 6;
    LookupErased(entries, 0, STREAM_ID);
    LookupErased(entries, 1, REASON);
  }

  /** The request that opens one. */
  lemma {:induction false} OpenSays(id: int)
    ensures var o := OpenMessage(id); var d := EraseEntries(o.message);
            && o.kind == Request(id) && o.protocol == Ascii("dataSend") && o.topic == Ascii("open")
            && |d| == 2 && Says(d, "target", PyStr(Ascii("controller"))) && Says(d, "type", PyStr(Ascii("audio.siri")))
  {
    DataSendWords();
    OpenWords();
    var entries := OpenMessage(id).message;
    assert |TARGET| == 6 && |TYPE| == 4;
    LookupErased(entries, 0, TARGET);
    LookupErased(entries, 1, TYPE);
  }

  /** A data event: its packets, the stream, and whether it is the last. */
  lemma {:induction false} DataSays(opus: Opus, streamId: nat, event: Audio.DataEvent)
    ensures var o := DataMessage(opus, streamId, event); var d := EraseEntries(o.message);
            && o.kind == Event && o.protocol == Ascii("dataSend") && o.topic == Ascii("data")
            && |d| == 3 && Says(d, "streamId", PyInt(streamId)) && Says(d, "endOfStream", PyBool(event.endOfStream))
            && Says(d, "packets", PyList(EraseItems(PacketValues(opus, event.packets))))
  {
    DataSendWords();
    EventWords();
    var entries := DataMessage(opus, streamId, event).message;
    assert |PACKETS| == 7 && |STREAM_ID| == 8 && |END_OF_STREAM| == 11;
    LookupErased(entries, 0, PACKETS);
    LookupErased(entries, 1, STREAM_ID);
    LookupErased(entries, 2, END_OF_STREAM);
  }

  /** The metadata of a packet: its loudness and its number. */
  lemma {:induction false} MetadataSays(rms: Loudness, n: int)
    ensures var d := EraseEntries([Entry(Str(RMS), rms), NumberEntry(SEQUENCE_NUMBER, n)]);
            |d| == 2 && Says(d, "rms", Erase(rms)) && Says(d, "sequenceNumber", PyInt(n))
  {
    PacketWords();
    var entries := [Entry(Str(RMS), rms), NumberEntry(SEQUENCE_NUMBER, n)];
    assert |RMS| == 3 && |SEQUENCE_NUMBER| == 14;
    LookupErased(entries, 0, RMS);
    LookupErased(entries, 1, SEQUENCE_NUMBER);
  }

  lemma {:induction false} PartsSay(data: Value, metadata: seq<Entry>)
    ensures var d := EraseEntries([Entry(Str(DATA), data), Entry(Str(METADATA), Dict(metadata))]);
            && |d| == 2 && Says(d, "data", Erase(data)) && Says(d, "metadata", PyDict(EraseEntries(metadata)))
  {
    DataSendWords();
    PacketWords();
    var entries := [Entry(Str(DATA), data), Entry(Str(METADATA), Dict(metadata))];
    assert |DATA| == 4 && |METADATA| == 8;
    LookupErased(entries, 0, DATA);
    LookupErased(entries, 1, METADATA);
  }

  /** One packet: its data and, under its metadata, its loudness and its number. */
  lemma {:induction false} PacketSays(opus: Opus, p: Audio.Packet) returns (metadata: seq<Pair>)
    ensures var d := Erase(PacketValue(opus, p));
            && d.PyDict? && |d.entries| == 2 && Says(d.entries, "data", PyBytes(opus.data(p.data)))
            && Says(d.entries, "metadata", PyDict(metadata))
    ensures && |metadata| == 2 && Says(metadata, "rms", Erase(opus.rms(p.data)))
            && Says(metadata, "sequenceNumber", PyInt(p.sequenceNumber))
  {
    var inner := [Entry(Str(RMS), opus.rms(p.data)), NumberEntry(SEQUENCE_NUMBER, p.sequenceNumber)];
    metadata := EraseEntries(inner);
    MetadataSays(opus.rms(p.data), p.sequenceNumber);
    PartsSay(Data(opus.data(p.data)), inner);
  }
}
