/**
 Sender and reader stay in step: however the byte stream is cut, exactly the
 payloads that were sealed come out, each under the counter it was sealed with.
 */
module FramingProofs {
  import opened Bytes
  import HdsValues
  import opened Framing

  // ---------------------------------------------------------------- nonces

  /** Different counters give different nonces. */
  lemma {:induction false} NoncesDiffer(a: nat, b: nat)
    requires a < NONCES && b < NONCES && Nonce(a) == Nonce(b)
    ensures a == b
  {
    HdsValues.Width.W64.Capacity();
    assert Nonce(a)[4..] == LittleEndian(a, 8) && Nonce(b)[4..] == LittleEndian(b, 8);
    LittleEndianRoundTrip(a, 8);
    LittleEndianRoundTrip(b, 8);
  }

  // ---------------------------------------------------------------- sending

  /** The writer's history explains its wire and counter. */
  predicate Explained(w: World, key: Key, o: Outbox) {
    && AllFit(o.sent) && o.counter == |o.sent| <= NONCES
    && o.wire == Frames(w, key, 0, o.sent)
  }

  lemma {:induction false} FramesSnoc(w: World, key: Key, counter: nat, payloads: seq<seq<byte>>, last: seq<byte>)
    requires AllFit(payloads) && |last| <= MAX_PAYLOAD_LENGTH && counter + |payloads| < NONCES
    ensures AllFit(payloads + [last])
    ensures Frames(w, key, counter, payloads + [last])
         == Frames(w, key, counter, payloads) + Frame(w, key, counter + |payloads|, last)
    decreases |payloads|
  {
    var all := payloads + [last];
    if payloads == [] {
      var frame := Frame(w, key, counter, last);
      assert all[1..] == [] && frame + [] == frame == [] + frame;
    } else {
      assert all[1..] == payloads[1..] + [last];
      FramesSnoc(w, key, counter + 1, payloads[1..], last);
      Associative(
        Frame(w, key, counter, payloads[0]), Frames(w, key, counter + 1, payloads[1..]),
        Frame(w, key, counter + |payloads|, last));
    }
  }

  /** A send refused before sealing consumes no counter and writes nothing; one that is not, does both once. */
  lemma {:induction false} SendCounts(w: World, key: Key, o: Outbox, payload: Option<seq<byte>>)
    requires Explained(w, key, o)
    ensures var r := Send(w, key, o, payload);
            if payload.Some? && !o.closed && |payload.value| <= 0xFFFFF && o.counter < 0x1_0000_0000_0000_0000 then
              r.counter == o.counter + 1 && r.sent == o.sent + [payload.value] && !r.closed
            else r == o
    ensures Explained(w, key, Send(w, key, o, payload))
  {
    if payload.Some? && Admits(o, payload.value) {
      FramesSnoc(w, key, 0, o.sent, payload.value);
    }
  }

  /**
   In every run of sends and a close, in whatever order the lock admits them, the k-th frame
   carries the k-th accepted payload under counter k.
   */
  lemma {:induction false} RunExplained(w: World, key: Key, o: Outbox, steps: seq<SendStep>)
    requires Explained(w, key, o)
    ensures Explained(w, key, SendRun(w, key, o, steps))
    decreases |steps|
  {
    if steps == [] {
    } else {
      if steps[0].Attempt? {
        SendCounts(w, key, o, steps[0].payload);
        RunExplained(w, key, Send(w, key, o, steps[0].payload), steps[1..]);
      } else {
        RunExplained(w, key, o.(closed := true), steps[1..]);
      }
    }
  }

  // ---------------------------------------------------------------- reading, however the stream is cut

  lemma {:induction false} HeadMore(data: seq<byte>, more: seq<byte>)
    ensures ReadHead(data).Malformed? ==> ReadHead(data + more) == Malformed
    ensures ReadHead(data).Boxed? ==>
              ReadHead(data + more) == Boxed(ReadHead(data).header, ReadHead(data).box, ReadHead(data).rest + more)
  {
    var all := data + more;
    if |data| >= 4 {
      assert all[..4] == data[..4];
      var end := 4 + LengthOf(data[..4]) + TAG_LENGTH;
      if |data| >= end {
        assert all[4..end] == data[4..end] && all[end..] == data[end..] + more;
      }
    }
  }

  /** One turn of the loop does the same with more bytes behind it. */
  lemma {:induction false} HandleMore(
    w: World, key: Key, i: Inbox, header: seq<byte>, box: seq<byte>, rest: seq<byte>, more: seq<byte>)
    requires !i.closed
    ensures var r := Handle(w, key, i, header, box, rest);
            var s := Handle(w, key, Extended(i, more), header, box, rest + more);
            if r.closed then s == r else s == Extended(r, more)
  {
  }

  /** Reading what is there and then more is reading it all at once. */
  lemma {:induction false} DrainMore(w: World, key: Key, i: Inbox, more: seq<byte>)
    requires !i.closed
    ensures Feed(w, key, Drain(w, key, i), more) == Drain(w, key, Extended(i, more))
    decreases |i.buffer|
  {
    var head := ReadHead(i.buffer);
    HeadMore(i.buffer, more);
    if !head.Boxed? {
    } else {
      HandleMore(w, key, i, head.header, head.box, head.rest, more);
      var r := Handle(w, key, i, head.header, head.box, head.rest);
      if !r.closed {
        DrainMore(w, key, r, more);
      }
    }
  }

  lemma {:induction false} ExtendedTwice(i: Inbox, a: seq<byte>, b: seq<byte>)
    ensures Extended(Extended(i, a), b) == Extended(i, a + b)
  {
    assert (i.buffer + a) + b == i.buffer + (a + b);
  }

  lemma {:induction false} FeedTwice(w: World, key: Key, i: Inbox, a: seq<byte>, b: seq<byte>)
    ensures Feed(w, key, Feed(w, key, i, a), b) == Feed(w, key, i, a + b)
  {
    if !i.closed {
      DrainMore(w, key, Extended(i, a), b);
      ExtendedTwice(i, a, b);
    }
  }

  /** What a reader ends up with depends on the bytes alone, not on how they were cut. */
  lemma {:induction false} CutDoesNotMatter(w: World, key: Key, i: Inbox, chunk: seq<byte>, chunks: seq<seq<byte>>)
    ensures FeedAll(w, key, Feed(w, key, i, chunk), chunks) == Feed(w, key, i, chunk + Flatten(chunks))
    decreases |chunks|
  {
    if chunks == [] {
      assert chunk + [] == chunk;
    } else {
      FeedTwice(w, key, i, chunk, chunks[0]);
      CutDoesNotMatter(w, key, i, chunk + chunks[0], chunks[1..]);
      Associative(chunk, chunks[0], Flatten(chunks[1..]));
    }
  }

  lemma {:induction false} DrainGrows(w: World, key: Key, i: Inbox)
    ensures i.received <= Drain(w, key, i).received
    decreases |i.buffer|
  {
    if i.closed || !ReadHead(i.buffer).Boxed? {
    } else {
      var head := ReadHead(i.buffer);
      DrainGrows(w, key, Handle(w, key, i, head.header, head.box, head.rest));
    }
  }

  /** A reader is never ahead of the stream: what it has accepted after some bytes begins what it accepts after more. */
  lemma {:induction false} NeverAhead(w: World, key: Key, i: Inbox, a: seq<byte>, b: seq<byte>)
    ensures Feed(w, key, i, a).received <= Feed(w, key, i, a + b).received
  {
    FeedTwice(w, key, i, a, b);
    var mid := Feed(w, key, i, a);
    DrainGrows(w, key, Extended(mid, b));
  }

  // ---------------------------------------------------------------- what was sealed comes out

  lemma {:induction false} BigEndianReads(n: nat, width: nat)
    requires n < Pow256(width)
    ensures FromBigEndian(BigEndian(n, width)) == n
  {
    if width == 0 {
    } else {
      BigEndianReads(n / 256, width - 1);
      var bs := BigEndian(n, width);
      assert bs[..|bs| - 1] == BigEndian(n / 256, width - 1);
    }
  }

  lemma {:induction false} LengthReads(n: nat)
    requires n <= MAX_PAYLOAD_LENGTH
    ensures LengthOf(FrameHeader(n)) == n
  {
    assert Pow256(1) == 0x100 && Pow256(2) == 0x1_0000 && Pow256(3) == 0x100_0000;
    BigEndianReads(n, 3);
    assert FrameHeader(n)[1..] == BigEndian(n, 3);
  }

  lemma {:induction false} FrameReads(w: World, key: Key, counter: nat, payload: seq<byte>, rest: seq<byte>)
    requires Sane(w) && counter < NONCES && |payload| <= MAX_PAYLOAD_LENGTH
    ensures var header := FrameHeader(|payload|);
            var box := w.seal(key, Nonce(counter), header, payload);
            && ReadHead(Frame(w, key, counter, payload) + rest) == Boxed(header, box, rest)
            && OpenBox(w, key, counter, header, box) == Some(payload)
  {
    var header := FrameHeader(|payload|);
    var box := w.seal(key, Nonce(counter), header, payload);
    LengthReads(|payload|);
    assert |box| == |payload| + TAG_LENGTH;
    var data := Frame(w, key, counter, payload) + rest;
    assert data == header + (box + rest);
    assert data[..4] == header;
    var end := 4 + |payload| + TAG_LENGTH;
    assert data[4..end] == box && data[end..] == rest;
  }

  /**
   The payloads a reader accepts from `counter` on: up to the first that is no message, or
   after which it does not go on.
   */
  function Readable(w: World, counter: nat, payloads: seq<seq<byte>>): (r: seq<seq<byte>>)
    ensures |r| <= |payloads|
    decreases |payloads|
  {
    if payloads == [] || !w.isMessage(payloads[0]) then []
    else if !w.goesOn(counter, payloads[0]) then [payloads[0]]
    else [payloads[0]] + Readable(w, counter + 1, payloads[1..])
  }

  /** All of them messages, and none of them the last. */
  predicate AllWelcome(w: World, counter: nat, payloads: seq<seq<byte>>)
    decreases |payloads|
  {
    payloads == [] ||
    (w.isMessage(payloads[0]) && w.goesOn(counter, payloads[0]) && AllWelcome(w, counter + 1, payloads[1..]))
  }

  /** One frame: a message is accepted, anything else ends the connection. */
  lemma {:induction false} FrameAccepted(w: World, key: Key, i: Inbox, payload: seq<byte>, rest: seq<byte>)
    requires Sane(w) && !i.closed && |payload| <= MAX_PAYLOAD_LENGTH && i.counter < NONCES
    requires Same(i.buffer, Frame(w, key, i.counter, payload) + rest)
    ensures w.isMessage(payload) ==> Drain(w, key, i) == Drain(w, key, Accepted(w, i, payload, rest))
    ensures !w.isMessage(payload) ==> Drain(w, key, i) == Inbox(i.counter + 1, [], i.received, true)
  {
    FrameReads(w, key, i.counter, payload, rest);
  }

  /** The reader after the frames of some payloads. */
  function ReadAll(w: World, i: Inbox, payloads: seq<seq<byte>>): Inbox
    decreases |payloads|
  {
    if payloads == [] then i.(buffer := [])
    else if !w.isMessage(payloads[0]) then Inbox(i.counter + 1, [], i.received, true)
    else
      var next := Accepted(w, i, payloads[0], []);
      if next.closed then next else ReadAll(w, next, payloads[1..])
  }

  /** It accepted the readable ones in order, and is still open exactly when all were welcome. */
  lemma {:induction false} ReadAllAccepts(w: World, i: Inbox, payloads: seq<seq<byte>>)
    requires !i.closed
    ensures var r := ReadAll(w, i, payloads);
            && r.received == i.received + Readable(w, i.counter, payloads)
            && (!r.closed <==> AllWelcome(w, i.counter, payloads))
            && (!r.closed ==> r == Inbox(i.counter + |payloads|, [], i.received + payloads, false))
    decreases |payloads|
  {
    if payloads == [] {
      assert i.received + [] == i.received;
    } else {
      var p, more := payloads[0], payloads[1..];
      assert i.received + [] == i.received && payloads == [p] + more;
      var next := Accepted(w, i, p, []);
      if w.isMessage(p) && !next.closed {
        ReadAllAccepts(w, next, more);
        Associative(i.received, [p], Readable(w, i.counter + 1, more));
        Associative(i.received, [p], more);
      }
    }
  }

  lemma {:induction false} BufferIsConsumed(w: World, i: Inbox, buffer: seq<byte>, payloads: seq<seq<byte>>)
    requires !i.closed
    ensures ReadAll(w, i.(buffer := buffer), payloads) == ReadAll(w, i, payloads)
  {
  }

  /** Whatever is left in the buffer once the frames are read off it does not matter. */
  lemma {:induction false} AcceptedAlike(w: World, i: Inbox, rest: seq<byte>, payloads: seq<seq<byte>>)
    requires payloads != [] && w.isMessage(payloads[0])
    ensures var next := Accepted(w, i, payloads[0], rest);
            ReadAll(w, i, payloads)
              == if w.goesOn(i.counter, payloads[0]) then ReadAll(w, next, payloads[1..]) else next
  {
    if w.goesOn(i.counter, payloads[0]) {
      BufferIsConsumed(w, Accepted(w, i, payloads[0], rest), [], payloads[1..]);
    }
  }

  lemma {:induction false} FirstOfFrames(w: World, key: Key, counter: nat, payloads: seq<seq<byte>>)
    requires payloads != [] && AllFit(payloads) && counter + |payloads| <= NONCES
    ensures |payloads[0]| <= MAX_PAYLOAD_LENGTH && AllFit(payloads[1..])
    ensures Same(Frames(w, key, counter, payloads),
                 Frame(w, key, counter, payloads[0]) + Frames(w, key, counter + 1, payloads[1..]))
  {
  }

  lemma {:induction false} GoesOnWith(w: World, i: Inbox, p: seq<byte>, rest: seq<byte>)
    requires w.goesOn(i.counter, p)
    ensures var next := Accepted(w, i, p, rest);
            !next.closed && next.counter == i.counter + 1 && Same(next.buffer, rest)
  {
  }

  /** The first frame leaves a reader in front of the rest, unless its payload is the last to be read. */
  lemma {:induction false} OneFrameRead(w: World, key: Key, i: Inbox, rest: seq<byte>, payloads: seq<seq<byte>>)
    returns (next: Inbox)
    requires Sane(w) && !i.closed && payloads != [] && |payloads[0]| <= MAX_PAYLOAD_LENGTH && i.counter < NONCES
    requires Same(i.buffer, Frame(w, key, i.counter, payloads[0]) + rest)
    ensures if w.isMessage(payloads[0]) && w.goesOn(i.counter, payloads[0]) then
              && !next.closed && next.counter == i.counter + 1 && Same(next.buffer, rest)
              && Drain(w, key, i) == Drain(w, key, next) && ReadAll(w, i, payloads) == ReadAll(w, next, payloads[1..])
            else Drain(w, key, i) == ReadAll(w, i, payloads)
  {
    next := Accepted(w, i, payloads[0], rest);
    FrameAccepted(w, key, i, payloads[0], rest);
    if w.isMessage(payloads[0]) {
      AcceptedAlike(w, i, rest, payloads);
    }
    if w.goesOn(i.counter, payloads[0]) {
      GoesOnWith(w, i, payloads[0], rest);
    }
  }

  /** Reading the frames of some payloads accepts them in order, up to the one that ends the connection. */
  lemma {:induction false} FramesRead(w: World, key: Key, i: Inbox, payloads: seq<seq<byte>>)
    requires Sane(w) && !i.closed && AllFit(payloads) && i.counter + |payloads| <= NONCES
    requires Same(i.buffer, Frames(w, key, i.counter, payloads))
    ensures Drain(w, key, i) == ReadAll(w, i, payloads)
    decreases |payloads|
  {
    if payloads == [] {
    } else {
      FirstOfFrames(w, key, i.counter, payloads);
      var next := OneFrameRead(w, key, i, Frames(w, key, i.counter + 1, payloads[1..]), payloads);
      if w.isMessage(payloads[0]) && w.goesOn(i.counter, payloads[0]) {
        FramesRead(w, key, next, payloads[1..]);
      }
    }
  }

  // ---------------------------------------------------------------- from the first byte

  lemma {:induction false} ArriveTwice(w: World, pending: seq<Key>, buffer: seq<byte>, more: seq<byte>)
    ensures ArriveMore(w, pending, Arrive(w, pending, buffer), more) == Arrive(w, pending, buffer + more)
  {
    HeadMore(buffer, more);
    var head := ReadHead(buffer);
    if head.Boxed? {
      var found := Match(w, pending, head.header, head.box);
      MatchInRange(w, pending, head.header, head.box);
      if found.Some? && w.isHello(found.value.1) {
        DrainMore(w, pending[found.value.0], Opening(w, found.value.1, head.rest), more);
      }
    }
  }

  /** Neither does the cut matter from the first byte of a connection on, across the two readers. */
  lemma {:induction false} ArrivalsJoin(w: World, pending: seq<Key>, buffer: seq<byte>, chunks: seq<seq<byte>>)
    ensures ArriveAll(w, pending, Arrive(w, pending, buffer), chunks) == Arrive(w, pending, buffer + Flatten(chunks))
    decreases |chunks|
  {
    if chunks == [] {
      assert buffer + [] == buffer;
    } else {
      ArriveTwice(w, pending, buffer, chunks[0]);
      ArrivalsJoin(w, pending, buffer + chunks[0], chunks[1..]);
      Associative(buffer, chunks[0], Flatten(chunks[1..]));
    }
  }

  /** No key before the right one opens the first frame. */
  predicate FirstToOpen(w: World, pending: seq<Key>, k: nat, first: seq<byte>)
    requires k < |pending| && |first| <= MAX_PAYLOAD_LENGTH
  {
    var header := FrameHeader(|first|);
    forall j | 0 <= j < k :: OpenBox(w, pending[j], 0, header, w.seal(pending[k], Nonce(0), header, first)).None?
  }

  lemma {:induction false} MatchFinds(
    w: World, pending: seq<Key>, k: nat, header: seq<byte>, box: seq<byte>, payload: seq<byte>)
    requires k < |pending| && OpenBox(w, pending[k], 0, header, box) == Some(payload)
    requires forall j | 0 <= j < k :: OpenBox(w, pending[j], 0, header, box).None?
    ensures Match(w, pending, header, box) == Some((k, payload))
  {
    if k == 0 {
    } else {
      forall j | 0 <= j < k - 1 ensures OpenBox(w, pending[1..][j], 0, header, box).None? {
        assert pending[1..][j] == pending[j + 1];
      }
      MatchFinds(w, pending[1..], k - 1, header, box, payload);
    }
  }

  lemma {:induction false} MatchNothing(w: World, pending: seq<Key>, header: seq<byte>, box: seq<byte>)
    requires forall j | 0 <= j < |pending| :: OpenBox(w, pending[j], 0, header, box).None?
    ensures Match(w, pending, header, box) == None
  {
    if pending == [] {
    } else {
      forall j | 0 <= j < |pending[1..]| ensures OpenBox(w, pending[1..][j], 0, header, box).None? {
        assert pending[1..][j] == pending[j + 1];
      }
      MatchNothing(w, pending[1..], header, box);
    }
  }

  /** The first frame names the key and leaves the rest to the connection's own loop. */
  lemma {:induction false} FirstFrame(w: World, pending: seq<Key>, k: nat, first: seq<byte>, rest: seq<byte>)
    requires Sane(w) && k < |pending| && |first| <= MAX_PAYLOAD_LENGTH && FirstToOpen(w, pending, k, first)
    ensures Arrive(w, pending, Frame(w, pending[k], 0, first) + rest)
         == Identified(k, first, Drain(w, pending[k], Opening(w, first, rest)))
  {
    FrameReads(w, pending[k], 0, first, rest);
    var header := FrameHeader(|first|);
    MatchFinds(w, pending, k, header, w.seal(pending[k], Nonce(0), header, first), first);
  }

  lemma {:induction false} RestReads(w: World, key: Key, first: seq<byte>, payloads: seq<seq<byte>>)
    requires Sane(w) && w.isHello(first) && AllFit(payloads) && 1 + |payloads| <= NONCES
    requires AllWelcome(w, 1, payloads)
    ensures Drain(w, key, Opening(w, first, Frames(w, key, 1, payloads))) == Inbox(1 + |payloads|, [], payloads, false)
  {
    var i := Opening(w, first, Frames(w, key, 1, payloads));
    FramesRead(w, key, i, payloads);
    ReadAllAccepts(w, i, payloads);
    assert [] + payloads == payloads;
  }

  lemma {:induction false} NothingYet(w: World, pending: seq<Key>)
    ensures Arrive(w, pending, []) == Arriving([])
  {
  }

  /** The frames of a greeting and what follows it, all there at once. */
  lemma {:induction false} WholeStream(w: World, pending: seq<Key>, k: nat, payloads: seq<seq<byte>>)
    requires Sane(w) && k < |pending| && payloads != [] && AllFit(payloads) && |payloads| <= NONCES
    requires FirstToOpen(w, pending, k, payloads[0])
    requires w.isHello(payloads[0]) && AllWelcome(w, 1, payloads[1..])
    ensures Arrive(w, pending, Frames(w, pending[k], 0, payloads))
         == Identified(k, payloads[0], Inbox(|payloads|, [], payloads[1..], false))
  {
    FirstFrame(w, pending, k, payloads[0], Frames(w, pending[k], 1, payloads[1..]));
    RestReads(w, pending[k], payloads[0], payloads[1..]);
  }

  /**
   The accept handler reads the first frame under counter 0, the connection the
   rest from counter 1 on; together, and however the stream is cut, they recover
   exactly the payloads a peer sealed under counters 0, 1, 2, ...
   */
  lemma {:induction false} Lockstep(
    w: World, pending: seq<Key>, k: nat, payloads: seq<seq<byte>>, chunks: seq<seq<byte>>)
    requires Sane(w) && k < |pending| && payloads != [] && AllFit(payloads) && |payloads| <= NONCES
    requires FirstToOpen(w, pending, k, payloads[0])
    requires w.isHello(payloads[0]) && AllWelcome(w, 1, payloads[1..])
    requires Flatten(chunks) == Frames(w, pending[k], 0, payloads)
    ensures ArriveAll(w, pending, Arriving([]), chunks)
         == Identified(k, payloads[0], Inbox(|payloads|, [], payloads[1..], false))
  {
    WholeStream(w, pending, k, payloads);
    ArrivalsJoin(w, pending, [], chunks);
    assert [] + Flatten(chunks) == Flatten(chunks);
    NothingYet(w, pending);
  }

  /**
   A sender's wire, whatever was refused or attempted in between, read back from any cut:
   the accepted payloads, in order.
   */
  lemma {:induction false} SentIsReceived(
    w: World, pending: seq<Key>, k: nat, steps: seq<SendStep>, chunks: seq<seq<byte>>)
    requires Sane(w) && k < |pending|
    requires var o := SendRun(w, pending[k], Outbox(0, [], [], false), steps);
             && o.sent != [] && AllFit(o.sent) && FirstToOpen(w, pending, k, o.sent[0])
             && w.isHello(o.sent[0]) && AllWelcome(w, 1, o.sent[1..])
             && Flatten(chunks) == o.wire
    ensures var o := SendRun(w, pending[k], Outbox(0, [], [], false), steps);
            ArriveAll(w, pending, Arriving([]), chunks)
              == Identified(k, o.sent[0], Inbox(o.counter, [], o.sent[1..], false))
  {
    RunExplained(w, pending[k], Outbox(0, [], [], false), steps);
    var o := SendRun(w, pending[k], Outbox(0, [], [], false), steps);
    Lockstep(w, pending, k, o.sent, chunks);
  }
}
