/**
 Which key does what: a peer that derives the two keys of a data-stream setup by their
 names and greets is heard under one of them and answered under the other.
 */
module SessionKeys {
  import opened Bytes
  import opened HdsValues
  import opened HdsAcceptance
  import opened FrameReading
  import opened Framing
  import opened FramingProofs
  import opened Envelopes
  import opened HdsConnection
  import opened SessionPool
  import opened SessionPoolProofs
  import SiriSending

  /** The nonce of a first frame. */
  const FIRST_NONCE: seq<byte> := [0, 0, 0, 0, 0, 0, 0, 0, 0, 0, 0, 0]

  lemma {:induction false} FirstNonceIs()
    ensures Nonce(0) == FIRST_NONCE
  {
    NonceBytes(0);
  }

  /** The box of a peer's first frame. */
  function Sealed(w: World, key: Key, first: seq<byte>): seq<byte>
    requires |first| <= 0xFFFFF
  {
    w.seal(key, FIRST_NONCE, FrameStart(|first|), first)
  }

  predicate Opens(w: World, s: Prepared, header: seq<byte>, box: seq<byte>) {
    w.open(s.inKey, FIRST_NONCE, header, box).Some?
  }

  /** No session of another client opens it. */
  predicate OnlyOurs(w: World, p: Pool, client: Client, header: seq<byte>, box: seq<byte>) {
    forall i | 0 <= i < |p.pending| && p.pending[i].client != client :: !Opens(w, p.pending[i], header, box)
  }

  /**
   After a granted request, a first frame sealed under the key derived by the write name is
   accepted, and binds the session of that client; the connection reads under that key and
   writes under the one derived by the read name.
   */
  lemma {:induction false} PeerIsIdentified(w: World, p: Pool, r: Request, first: seq<byte>)
    requires Sane(w) && Apply(w, p, Prepare(r)).1.Ready? && |first| <= 0xFFFFF
    requires OnlyOurs(w, p, r.client, FrameStart(|first|), Sealed(w, WriteKey(w, r), first))
    ensures var q := Apply(w, p, Prepare(r)).0;
            Apply(w, q, Accept(FrameStart(|first|), Sealed(w, WriteKey(w, r), first))).1
              == Bound(Prepared(r.client, WriteKey(w, r), ReadKey(w, r), r.accessorySalt), first)
  {
    var session, stay := Granted(w, r), Without(p.pending, r.client);
    var q := Apply(w, p, Prepare(r)).0;
    var header, box := FrameStart(|first|), Sealed(w, session.inKey, first);
    InfosAreNames();
    FirstNonceIs();
    StartIsHeader(|first|);
    WithoutIsTheRest(p.pending, r.client);
    assert q.pending == stay + [session];
    forall j | 0 <= j < |stay| ensures OpenBox(w, KeysOf(q.pending)[j], 0, header, box).None? {
      assert stay[j] in stay;
      var i :| 0 <= i < |p.pending| && p.pending[i] == stay[j];
      assert !Opens(w, p.pending[i], header, box);
    }
    MatchFinds(w, KeysOf(q.pending), |stay|, header, box, first);
  }

  lemma {:induction false} MissesAll(w: World, keys: seq<Key>, header: seq<byte>, box: seq<byte>, i: nat)
    requires Match(w, keys, header, box).None? && i < |keys|
    ensures OpenBox(w, keys[i], 0, header, box).None?
  {
    if i == 0 {
    } else {
      MissesAll(w, keys[1..], header, box, i - 1);
    }
  }

  /** A first frame is refused exactly when no pending session opens it, and then changes nothing. */
  lemma {:induction false} StrangersAreRefused(w: World, p: Pool, header: seq<byte>, box: seq<byte>)
    ensures var (q, outcome) := Apply(w, p, Accept(header, box));
            && (outcome.Bound? || (outcome == NotFound && q == p))
            && (outcome == NotFound <==> forall i | 0 <= i < |p.pending| :: !Opens(w, p.pending[i], header, box))
  {
    FirstNonceIs();
    var keys := KeysOf(p.pending);
    MatchInRange(w, keys, header, box);
    var found := Match(w, keys, header, box);
    if found.Some? {
      assert Opens(w, p.pending[found.value.0], header, box);
    } else {
      forall i | 0 <= i < |p.pending| ensures !Opens(w, p.pending[i], header, box) {
        MissesAll(w, keys, header, box, i);
      }
    }
  }

  // ---------------------------------------------------------------- the answer

  /** The greeting of a peer: a control/hello request under any number of 64 bits. */
  predicate IsGreeting(o: Outgoing) {
    o.kind.Request? && o.protocol == Ascii("control") && o.topic == Ascii("hello") && Sendable(o)
  }

  lemma ControlIsName()
    ensures CONTROL == Ascii("control") && HELLO == Ascii("hello")
  {
  }

  lemma ReplyTexts()
    ensures SiriSending.IsKey(CONTROL) && |CONTROL| == 7 && SiriSending.IsKey(HELLO) && |HELLO| == 5
  {
  }

  lemma ReplyKeys()
    ensures SiriSending.IsKey(PROTOCOL) && |PROTOCOL| == 8 && SiriSending.IsKey(RESPONSE) && |RESPONSE| == 8
    ensures SiriSending.IsKey(ID) && |ID| == 2 && SiriSending.IsKey(STATUS) && |STATUS| == 6
  {
  }

  lemma {:induction false} AcceptableAt(entries: seq<Entry>, depth: nat, i: nat)
    requires AcceptableEntries(entries, depth) && i < |entries|
    ensures AcceptableEntry(entries[i], depth)
  {
    if i == 0 {
    } else {
      AcceptableAt(entries[1..], depth, i - 1);
    }
  }

  /** A request is sent only under a number of 64 bits. */
  lemma {:induction false} RequestFits(o: Outgoing)
    requires o.kind.Request? && Payload(o).Ok?
    ensures IntegerFits(o.kind.id, 64)
  {
    EncodeAccepts(Dict(HeaderEntries(o)));
    AcceptableAt(HeaderEntries(o), 1, 2);
    NumberFits(ID, o.kind.id);
  }

  lemma {:induction false} WideFits(n: int)
    ensures Acceptable(Fixed(W64, n), 1) ==> IntegerFits(n, 64)
  {
  }

  lemma {:induction false} NumberFits(key: seq<byte>, n: int)
    ensures AcceptableEntry(NumberEntry(key, n), 1) ==> IntegerFits(n, 64)
    ensures SiriSending.IsKey(key) && IntegerFits(n, 64) ==>
              AcceptableEntry(NumberEntry(key, n), 1) && EntryLength(NumberEntry(key, n)) == 10 + |key|
  {
    WideFits(n);
    if SiriSending.IsKey(key) && IntegerFits(n, 64) {
      SiriSending.EntryFits(key, Fixed(W64, n), 1);
    }
  }

  lemma {:induction false} TextFits(key: seq<byte>, text: seq<byte>)
    requires SiriSending.IsKey(key) && SiriSending.IsKey(text)
    ensures AcceptableEntry(TextEntry(key, text), 1) && EntryLength(TextEntry(key, text)) == 2 + |key| + |text|
  {
    SiriSending.AsciiIsText(text);
    SiriSending.EntryFits(key, Str(text), 1);
  }

  lemma {:induction false} ReplyHeaderFits(id: int)
    requires IntegerFits(id, 64)
    ensures var header := Dict(HeaderEntries(HelloReply(id)));
            Acceptable(header, 0) && Length(header) <= 100
  {
    ReplyKeys();
    ReplyTexts();
    TextFits(PROTOCOL, CONTROL);
    TextFits(RESPONSE, HELLO);
    NumberFits(ID, id);
    NumberFits(STATUS, 0);
    SiriSending.FourFit(
      TextEntry(PROTOCOL, CONTROL), TextEntry(RESPONSE, HELLO), NumberEntry(ID, id), NumberEntry(STATUS, 0), 1);
  }

  /** The answer can be sent exactly under a number of 64 bits. */
  lemma {:induction false} ReplyFits(id: int)
    ensures Payload(HelloReply(id)).Ok? <==> IntegerFits(id, 64)
  {
    if Payload(HelloReply(id)).Ok? {
      EncodeAccepts(Dict(HeaderEntries(HelloReply(id))));
      AcceptableAt(HeaderEntries(HelloReply(id)), 1, 2);
      NumberFits(ID, id);
    }
    if IntegerFits(id, 64) {
      ReplyHeaderFits(id);
      SiriSending.ShortPayload(HelloReply(id));
    }
  }

  /** What answers a greeting: the very number, success, and nothing in it. */
  predicate AnswersTo(py: Python, reply: seq<byte>, id: int) {
    DecodeMessage(py, reply) == Ok(Envelope(Response(id, 0), Ascii("control"), Ascii("hello"), []))
  }

  lemma {:induction false} ReplyIsSent(py: Python, id: int)
    requires Faithfully(py) && IntegerFits(id, 64)
    ensures Payload(HelloReply(id)).Ok? && AnswersTo(py, Payload(HelloReply(id)).value, id)
  {
    ReplyFits(id);
    ControlIsName();
    EnvelopeRoundTrip(py, HelloReply(id));
  }

  /** A control/hello request under such a number. */
  predicate IsHello(e: Envelope) {
    && e.kind.Request? && IntegerFits(e.kind.id, 64)
    && e.protocol == Ascii("control") && e.topic == Ascii("hello")
  }

  /** A connection opens exactly on one. */
  lemma {:induction false} GreetsExactly(py: Python, first: seq<byte>)
    ensures Greets(py, first) <==>
              DecodeMessage(py, first).Ok? && IsHello(DecodeMessage(py, first).value)
  {
    ControlIsName();
    var m := DecodeMessage(py, first);
    if m.Ok? && m.value.kind.Request? {
      ReplyFits(m.value.kind.id);
    }
  }

  lemma {:induction false} GreetingGreets(py: Python, hello: Outgoing, first: seq<byte>)
    requires Faithfully(py) && IsGreeting(hello) && Payload(hello) == Ok(first)
    ensures Greets(py, first) && DecodeMessage(py, first).value.kind.id == hello.kind.id
  {
    EnvelopeRoundTrip(py, hello);
    ControlIsName();
    RequestFits(hello);
    ReplyIsSent(py, hello.kind.id);
  }

  lemma {:induction false} FirstFrameIs(w: World, key: Key, payload: seq<byte>)
    requires |payload| <= 0xFFFFF
    ensures Frame(w, key, 0, payload) == FrameStart(|payload|) + Sealed(w, key, payload)
  {
    FirstNonceIs();
    StartIsHeader(|payload|);
  }

  /** A connection that is open and has written one frame, holding `reply`. */
  predicate WroteOnly(w: World, key: Key, o: Outbox, reply: seq<byte>) {
    && |reply| <= 0xFFFFF && !o.closed && o.counter == 1 && o.sent == [reply]
    && o.wire == FrameStart(|reply|) + Sealed(w, key, reply)
  }

  lemma {:induction false} FirstSend(w: World, key: Key, reply: seq<byte>)
    requires |reply| <= 0xFFFFF
    ensures WroteOnly(w, key, Send(w, key, Outbox(0, [], [], false), Some(reply)), reply)
  {
    FirstFrameIs(w, key, reply);
    var frame := Frame(w, key, 0, reply);
    assert [] + [reply] == [reply] && [] + frame == frame;
  }

  /**
   Such a greeting opens the connection, and the one frame it writes at first is sealed under
   the key derived by the read name and answers that greeting.
   */
  lemma {:induction false} GreetingIsAnswered(w: World, py: Python, r: Request, hello: Outgoing, first: seq<byte>)
    returns (reply: seq<byte>)
    requires Faithfully(py) && Speaks(w, py) && IsGreeting(hello) && Payload(hello) == Ok(first)
    ensures w.isHello(first) && AnswersTo(py, reply, hello.kind.id)
    ensures WroteOnly(w, ReadKey(w, r), Answered(w, py, Granted(w, r).outKey, first), reply)
  {
    GreetingGreets(py, hello, first);
    RequestFits(hello);
    ReplyIsSent(py, hello.kind.id);
    SiriSending.PayloadIsShort(HelloReply(hello.kind.id));
    reply := Payload(HelloReply(hello.kind.id)).value;
    FirstSend(w, Granted(w, r).outKey, reply);
  }
}
