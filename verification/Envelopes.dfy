/**
 Message envelopes of the HomeKit Data Stream: a header dictionary and a message
 dictionary in one payload, built by `_send` and read by `_decode_message`.
 */
module Envelopes {
  import opened Bytes
  import opened HdsValues
  import HdsCodec
  import HdsRoundTrip
  import opened Framing

  const MAX_HEADER_LENGTH: nat := 255

  /** Python's `str` and `int`, applied to a decoded value; `int` may raise. */
  datatype Python = Python(text: Plain -> seq<byte>, number: Plain -> Option<int>)

  /** Text and integers are themselves. */
  ghost predicate Faithfully(py: Python) {
    && (forall s :: py.text(PyStr(s)) == s)
    && (forall n :: py.number(PyInt(n)) == Some(n))
  }

  // ---------------------------------------------------------------- building

  const PROTOCOL: seq<byte> := [0x70, 0x72, 0x6F, 0x74, 0x6F, 0x63, 0x6F, 0x6C]
  const EVENT: seq<byte> := [0x65, 0x76, 0x65, 0x6E, 0x74]
  const REQUEST: seq<byte> := [0x72, 0x65, 0x71, 0x75, 0x65, 0x73, 0x74]
  const RESPONSE: seq<byte> := [0x72, 0x65, 0x73, 0x70, 0x6F, 0x6E, 0x73, 0x65]
  const ID: seq<byte> := [0x69, 0x64]
  const STATUS: seq<byte> := [0x73, 0x74, 0x61, 0x74, 0x75, 0x73]
  const CONTROL: seq<byte> := [0x63, 0x6F, 0x6E, 0x74, 0x72, 0x6F, 0x6C]
  const HELLO: seq<byte> := [0x68, 0x65, 0x6C, 0x6C, 0x6F]

  datatype Kind = Event | Request(id: int) | Response(id: int, status: int)

  /** A message as its sender names it. */
  datatype Outgoing = Outgoing(kind: Kind, protocol: seq<byte>, topic: seq<byte>, message: seq<Entry>)

  /** A message as it arrives. */
  datatype Envelope = Envelope(kind: Kind, protocol: seq<byte>, topic: seq<byte>, message: seq<Pair>)

  datatype Failure =
    | Unencodable(error: HdsCodec.Error) | HeaderTooLong | PayloadTooLarge
    | EmptyPayload | BadHeaderLength | Undecodable(error: HdsCodec.Error) | NotDictionaries
    | NoProtocol | NoId | NoStatus | NotANumber | UnknownKind

  function TextEntry(key: seq<byte>, val: seq<byte>): Entry {
    Entry(Str(key), Str(val))
  }

  function NumberEntry(key: seq<byte>, n: int): Entry {
    Entry(Str(key), Fixed(W64, n))
  }

  /** The header dictionaries of `send_event`, `send_request` and `send_response`. */
  function HeaderEntries(o: Outgoing): seq<Entry> {
    match o.kind
    case Event => [TextEntry(PROTOCOL, o.protocol), TextEntry(EVENT, o.topic)]
    case Request(id) => [TextEntry(PROTOCOL, o.protocol), TextEntry(REQUEST, o.topic), NumberEntry(ID, id)]
    case Response(id, status) =>
      [TextEntry(PROTOCOL, o.protocol), TextEntry(RESPONSE, o.topic), NumberEntry(ID, id), NumberEntry(STATUS, status)]
  }

  function EncodeOr(v: Value): Result<seq<byte>, Failure> {
    match HdsCodec.Encode(v)
    case Ok(bs) => Ok(bs)
    case Err(e) => Err(Unencodable(e))
  }

  /** The payload `_send` builds, or why it refuses. */
  function Payload(o: Outgoing): Result<seq<byte>, Failure> {
    var header :- EncodeOr(Dict(HeaderEntries(o)));
    if |header| > MAX_HEADER_LENGTH then Err(HeaderTooLong)
    else
      var message :- EncodeOr(Dict(o.message));
      var payload := [|header|] + header + message;
      if |payload| > MAX_PAYLOAD_LENGTH then Err(PayloadTooLarge) else Ok(payload)
  }

  /** `dict.get` with a text key. */
  function Lookup(d: seq<Pair>, key: seq<byte>): Option<Plain> {
    if d == [] then None
    else if d[0].key == PyStr(key) then Some(d[0].val)
    else Lookup(d[1..], key)
  }

  function NumberAt(py: Python, d: seq<Pair>, key: seq<byte>, missing: Failure): Result<int, Failure> {
    match Lookup(d, key)
    case None => Err(missing)
    case Some(p) => match py.number(p) case Some(n) => Ok(n) case None => Err(NotANumber)
  }

  function ReadKind(py: Python, d: seq<Pair>): Result<(Kind, seq<byte>), Failure> {
    var event, request, response := Lookup(d, EVENT), Lookup(d, REQUEST), Lookup(d, RESPONSE);
    if event.Some? then Ok((Event, py.text(event.value)))
    else if request.Some? then
      var id :- NumberAt(py, d, ID, NoId);
      Ok((Request(id), py.text(request.value)))
    else if response.Some? then
      var id :- NumberAt(py, d, ID, NoId);
      var status :- NumberAt(py, d, STATUS, NoStatus);
      Ok((Response(id, status), py.text(response.value)))
    else Err(UnknownKind)
  }

  function ReadEnvelope(py: Python, header: Plain, message: Plain): Result<Envelope, Failure> {
    if !header.PyDict? || !message.PyDict? then Err(NotDictionaries)
    else
      var protocol := Lookup(header.entries, PROTOCOL);
      if protocol.None? || py.text(protocol.value) == [] then Err(NoProtocol)
      else
        var kind :- ReadKind(py, header.entries);
        Ok(Envelope(kind.0, py.text(protocol.value), kind.1, message.entries))
  }

  function DecodeOr(bs: seq<byte>): Result<Plain, Failure> {
    match HdsCodec.Decode(bs)
    case Ok(p) => Ok(p)
    case Err(e) => Err(Undecodable(e))
  }

  /** `_decode_message`. */
  function DecodeMessage(py: Python, payload: seq<byte>): Result<Envelope, Failure> {
    if payload == [] then Err(EmptyPayload)
    else
      var length: nat := payload[0];
      if 1 + length > |payload| then Err(BadHeaderLength)
      else
        var header :- DecodeOr(payload[1..1 + length]);
        var message :- DecodeOr(payload[1 + length..]);
        ReadEnvelope(py, header, message)
  }

  // ---------------------------------------------------------------- the greeting

  /** What the accessory answers a greeting with. */
  function HelloReply(id: int): Outgoing {
    Outgoing(Response(id, 0), CONTROL, HELLO, [])
  }

  /** Whether a first payload is the greeting, and can be answered. */
  predicate Greets(py: Python, payload: seq<byte>) {
    var m := DecodeMessage(py, payload);
    && m.Ok? && m.value.kind.Request? && m.value.protocol == CONTROL && m.value.topic == HELLO
    && Payload(HelloReply(m.value.kind.id)).Ok?
  }

  // ---------------------------------------------------------------- round trip

  /** What a header reads back as. */
  function HeaderPairs(o: Outgoing): seq<Pair> {
    match o.kind
    case Event => [Pair(PyStr(PROTOCOL), PyStr(o.protocol)), Pair(PyStr(EVENT), PyStr(o.topic))]
    case Request(id) =>
      [Pair(PyStr(PROTOCOL), PyStr(o.protocol)), Pair(PyStr(REQUEST), PyStr(o.topic)), Pair(PyStr(ID), PyInt(id))]
    case Response(id, status) =>
      [Pair(PyStr(PROTOCOL), PyStr(o.protocol)), Pair(PyStr(RESPONSE), PyStr(o.topic)), Pair(PyStr(ID), PyInt(id)),
       Pair(PyStr(STATUS), PyInt(status))]
  }

  /** Reading a header that was built gives its kind, protocol and topic, unless the protocol is empty. */
  lemma {:induction false} HeaderReads(py: Python, o: Outgoing, message: seq<Pair>)
    requires Faithfully(py)
    ensures ReadEnvelope(py, PyDict(HeaderPairs(o)), PyDict(message))
         == if o.protocol == [] then Err(NoProtocol) else Ok(Envelope(o.kind, o.protocol, o.topic, message))
  {
    KeysDiffer();
    LookupAt(HeaderPairs(o), 0);
    LookupAt(HeaderPairs(o), 1);
    match o.kind
    case Event =>
    case Request(_) =>
      LookupMissing(HeaderPairs(o), EVENT);
      LookupAt(HeaderPairs(o), 2);
    case Response(_, _) =>
      LookupMissing(HeaderPairs(o), EVENT);
      LookupMissing(HeaderPairs(o), REQUEST);
      LookupAt(HeaderPairs(o), 2);
      LookupAt(HeaderPairs(o), 3);
  }

  lemma KeysDiffer()
    ensures PROTOCOL[1] == 0x72 && EVENT[1] == 0x76 && RESPONSE[1] == 0x65
    ensures |REQUEST| == 7 && |ID| == 2 && |STATUS| == 6
  {
  }

  lemma {:induction false} LookupAt(d: seq<Pair>, i: nat)
    requires i < |d| && d[i].key.PyStr? && forall j | 0 <= j < i :: d[j].key != d[i].key
    ensures Lookup(d, d[i].key.utf8) == Some(d[i].val)
  {
    if i == 0 {
    } else {
      LookupAt(d[1..], i - 1);
    }
  }

  lemma {:induction false} LookupMissing(d: seq<Pair>, key: seq<byte>)
    requires forall j | 0 <= j < |d| :: d[j].key != PyStr(key)
    ensures Lookup(d, key) == None
  {
    if d == [] {
    } else {
      LookupMissing(d[1..], key);
    }
  }

  lemma {:induction false} ErasedAt(entries: seq<Entry>, i: nat)
    requires i < |entries|
    ensures EraseEntries(entries)[i] == EraseEntry(entries[i])
  {
    if i == 0 {
    } else {
      ErasedAt(entries[1..], i - 1);
    }
  }

  lemma {:induction false} EntriesErase(key: seq<byte>, val: seq<byte>, n: int)
    ensures EraseEntry(TextEntry(key, val)) == Pair(PyStr(key), PyStr(val))
    ensures EraseEntry(NumberEntry(key, n)) == Pair(PyStr(key), PyInt(n))
  {
    assert Erase(Str(key)) == PyStr(key) && Erase(Str(val)) == PyStr(val) && Erase(Fixed(W64, n)) == PyInt(n);
  }

  lemma {:induction false} HeaderErasesAt(o: Outgoing, i: nat)
    requires i < |HeaderEntries(o)|
    ensures EraseEntries(HeaderEntries(o))[i] == HeaderPairs(o)[i]
  {
    ErasedAt(HeaderEntries(o), i);
    EntriesErase(PROTOCOL, o.protocol, 0);
    match o.kind
    case Event =>
      EntriesErase(EVENT, o.topic, 0);
    case Request(id) =>
      EntriesErase(REQUEST, o.topic, 0);
      EntriesErase(ID, [], id);
    case Response(id, status) =>
      EntriesErase(RESPONSE, o.topic, 0);
      EntriesErase(ID, [], id);
      EntriesErase(STATUS, [], status);
  }

  lemma {:induction false} HeaderErases(o: Outgoing)
    ensures Erase(Dict(HeaderEntries(o))) == PyDict(HeaderPairs(o))
  {
    var erased := EraseEntries(HeaderEntries(o));
    forall i | 0 <= i < |erased| ensures erased[i] == HeaderPairs(o)[i] {
      HeaderErasesAt(o, i);
    }
    assert erased == HeaderPairs(o);
  }

  /** Text keys, each once, over values the codec carries. */
  predicate DistinctTexts(entries: seq<Entry>) {
    && (forall i | 0 <= i < |entries| :: entries[i].key.Str? && Faithful(entries[i].val))
    && (forall i, j | 0 <= i < j < |entries| :: entries[i].key != entries[j].key)
  }

  lemma {:induction false} DistinctTextsAreFaithful(before: seq<Pair>, entries: seq<Entry>)
    requires DistinctTexts(entries)
    requires forall i, j | 0 <= i < |before| && 0 <= j < |entries| :: !KeyEq(before[i].key, Erase(entries[j].key))
    ensures FaithfulEntries(before, entries)
    decreases entries
  {
    if entries == [] {
    } else {
      var pair := EraseEntry(entries[0]);
      var next, more := before + [pair], entries[1..];
      assert Erase(entries[0].key) == PyStr(entries[0].key.utf8);
      forall i, j | 0 <= i < |next| && 0 <= j < |more| ensures !KeyEq(next[i].key, Erase(more[j].key)) {
        assert more[j] == entries[j + 1];
      }
      assert !HasKey(before, pair.key) && Hashable(pair.key);
      assert Faithful(entries[0].key);
      DistinctTextsAreFaithful(next, more);
    }
  }

  lemma {:induction false} HeaderIsFaithful(o: Outgoing)
    ensures Faithful(Dict(HeaderEntries(o)))
  {
    KeysDiffer();
    var entries := HeaderEntries(o);
    forall i | 0 <= i < |entries| ensures Faithful(entries[i].val) {
      assert entries[i].val.Str? || entries[i].val.Fixed?;
    }
    DistinctTextsAreFaithful([], entries);
  }

  lemma {:induction false} TextKeysHaveNoNan(entries: seq<Entry>)
    requires forall i | 0 <= i < |entries| :: entries[i].key.Str? && NoNan(entries[i].val)
    ensures NoNanEntries(entries)
  {
    if entries == [] {
    } else {
      TextKeysHaveNoNan(entries[1..]);
    }
  }

  lemma {:induction false} HeaderHasNoNan(o: Outgoing)
    ensures NoNan(Dict(HeaderEntries(o)))
  {
    var entries := HeaderEntries(o);
    forall i | 0 <= i < |entries| ensures entries[i].key.Str? && NoNan(entries[i].val) {
      assert entries[i].val.Str? || entries[i].val.Fixed?;
    }
    TextKeysHaveNoNan(entries);
  }

  /**
   For any event, request or response the transport agrees to send, decoding its
   payload gives back its kind, identifiers, protocol, topic and erased message if
   and only if the protocol is not empty and the codec carries the message.
   */
  lemma {:induction false} EnvelopeRoundTrip(py: Python, o: Outgoing)
    requires Faithfully(py) && Payload(o).Ok? && NoNan(Dict(o.message))
    ensures DecodeMessage(py, Payload(o).value) == Ok(Envelope(o.kind, o.protocol, o.topic, EraseEntries(o.message)))
            <==> o.protocol != [] && Faithful(Dict(o.message))
  {
    var header, message := Dict(HeaderEntries(o)), Dict(o.message);
    var hb, mb := HdsCodec.Encode(header).value, HdsCodec.Encode(message).value;
    HeaderErases(o);
    HeaderIsFaithful(o);
    HeaderHasNoNan(o);
    HdsRoundTrip.RoundTrip(header);
    HdsRoundTrip.RoundTrip(message);
    var payload := Payload(o).value;
    assert payload == [|hb|] + hb + mb;
    assert payload[1..1 + |hb|] == hb && payload[1 + |hb|..] == mb;
    if HdsCodec.Decode(mb).Ok? && HdsCodec.Decode(mb).value.PyDict? {
      HeaderReads(py, o, HdsCodec.Decode(mb).value.entries);
    }
  }
}
