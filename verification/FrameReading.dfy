/**
 What a connection makes of any bytes at all, said of the bytes: frame by frame, up to
 the first that is not complete or that ends it.
 */
module FrameReading {
  import opened Bytes
  import opened Framing
  import HdsValues

  // ---------------------------------------------------------------- the bytes of a frame

  /** The four bytes in front of a box of so many bytes. */
  function FrameStart(length: nat): seq<byte>
    requires length <= 0xFFFFF
  {
    [1, length / 0x1_0000, length / 0x100 % 0x100, length % 0x100]
  }

  lemma {:induction false} StartIsHeader(length: nat)
    requires length <= 0xFFFFF
    ensures FrameHeader(length) == FrameStart(length)
  {
    assert BigEndian(length / 0x1_0000, 1) == [] + [length / 0x1_0000 % 256];
    assert BigEndian(length / 256, 2) == BigEndian(length / 256 / 256, 1) + [length / 256 % 256];
  }

  /** A nonce: four zeros, and the eight bytes of the counter with the low one first. */
  lemma {:induction false} NonceBytes(counter: nat)
    requires counter < 0x1_0000_0000_0000_0000
    ensures var n := Nonce(counter);
            && |n| == 12 && n[..4] == [0, 0, 0, 0]
            && counter == Four(n[4..8]) + 0x1_0000_0000 * Four(n[8..12])
  {
    var bs := LittleEndian(counter, 8);
    HdsValues.Width.W64.Capacity();
    LittleEndianRoundTrip(counter, 8);
    FourBytes(bs);
    FourBytes(bs[4..]);
    assert bs[4..][4..] == [];
    assert Nonce(counter)[4..8] == bs[..4] && Nonce(counter)[8..12] == bs[4..];
  }

  // ---------------------------------------------------------------- the head of a stream

  /** How long the payload of the frame in front is. */
  function LengthAt(data: seq<byte>): nat
    requires |data| >= 4
  {
    var high: nat, middle: nat, low: nat := data[1], data[2], data[3];
    0x1_0000 * high + 0x100 * middle + low
  }

  lemma {:induction false} LengthIs(data: seq<byte>)
    requires |data| >= 4
    ensures LengthOf(data[..4]) == LengthAt(data)
  {
    var bs := data[..4][1..];
    var two, one := bs[..2], bs[..1];
    assert |bs| == 3 && bs[..|bs| - 1] == two && two[..|two| - 1] == one && one[..|one| - 1] == [];
    assert FromBigEndian(one) == data[1];
    assert FromBigEndian(two) == 256 * FromBigEndian(one) + data[2];
  }

  /** No frame can begin like this. */
  predicate Hopeless(data: seq<byte>) {
    |data| >= 4 && (data[0] != 1 || LengthAt(data) > 0xFFFFF)
  }

  /** The whole frame in front is there. */
  predicate Whole(data: seq<byte>) {
    |data| >= 4 && !Hopeless(data) && |data| >= 20 + LengthAt(data)
  }

  lemma {:induction false} HeadExactly(data: seq<byte>)
    ensures ReadHead(data).Malformed? <==> Hopeless(data)
    ensures ReadHead(data).Boxed? <==> Whole(data)
    ensures Whole(data) ==>
              ReadHead(data) == Boxed(data[..4], data[4..20 + LengthAt(data)], data[20 + LengthAt(data)..])
  {
    if |data| >= 4 {
      LengthIs(data);
    }
  }

  // ---------------------------------------------------------------- any bytes

  /** What the frame in front opens to under a counter. */
  function Opened(w: World, key: Key, counter: nat, data: seq<byte>): Option<seq<byte>>
    requires Whole(data)
  {
    if counter >= 0x1_0000_0000_0000_0000 then None
    else w.open(key, Nonce(counter), data[..4], data[4..20 + LengthAt(data)])
  }

  /**
   From `data` on, under counters from `counter` on, a reader takes exactly these payloads and
   then waits with `rest` unread, or is over.
   */
  predicate Takes(
    w: World, key: Key, counter: nat, data: seq<byte>, payloads: seq<seq<byte>>, rest: seq<byte>, over: bool)
    decreases |data|
  {
    if Hopeless(data) then payloads == [] && rest == [] && over
    else if !Whole(data) then payloads == [] && rest == data && !over
    else
      var p := Opened(w, key, counter, data);
      if p.None? || !w.isMessage(p.value) then payloads == [] && rest == [] && over
      else
        && payloads != [] && payloads[0] == p.value
        && if w.goesOn(counter, p.value) then
             Takes(w, key, counter + 1, data[20 + LengthAt(data)..], payloads[1..], rest, over)
           else payloads == [p.value] && rest == [] && over
  }

  lemma {:induction false} TakesOnce(
    w: World, key: Key, counter: nat, data: seq<byte>,
    a: seq<seq<byte>>, ra: seq<byte>, oa: bool, b: seq<seq<byte>>, rb: seq<byte>, ob: bool)
    requires Takes(w, key, counter, data, a, ra, oa) && Takes(w, key, counter, data, b, rb, ob)
    ensures a == b && ra == rb && oa == ob
    decreases |data|
  {
    if Whole(data) && !Hopeless(data) {
      var p := Opened(w, key, counter, data);
      if p.Some? && w.isMessage(p.value) && w.goesOn(counter, p.value) {
        TakesOnce(w, key, counter + 1, data[20 + LengthAt(data)..], a[1..], ra, oa, b[1..], rb, ob);
        assert a == [a[0]] + a[1..] && b == [b[0]] + b[1..];
      }
    }
  }

  /** The payloads a reader adds. */
  function Added(i: Inbox, r: Inbox): seq<seq<byte>>
    requires |i.received| <= |r.received|
  {
    r.received[|i.received|..]
  }

  lemma {:induction false} OneTurn(w: World, key: Key, i: Inbox)
    requires !i.closed && Whole(i.buffer)
    ensures var rest := i.buffer[20 + LengthAt(i.buffer)..];
            var p := Opened(w, key, i.counter, i.buffer);
            Drain(w, key, i)
              == if p.None? then Shut(i)
                 else if !w.isMessage(p.value) then Shut(i.(counter := i.counter + 1))
                 else Drain(w, key, Accepted(w, i, p.value, rest))
  {
    HeadExactly(i.buffer);
  }

  lemma {:induction false} Taken(w: World, key: Key, i: Inbox, p: seq<byte>, next: Inbox, r: Inbox)
    requires Whole(i.buffer) && Opened(w, key, i.counter, i.buffer) == Some(p) && w.isMessage(p)
    requires next == Accepted(w, i, p, i.buffer[20 + LengthAt(i.buffer)..]) && next.received <= r.received
    requires if next.closed then r == next
             else Takes(w, key, next.counter, next.buffer, Added(next, r), r.buffer, r.closed)
    ensures i.received <= r.received && Takes(w, key, i.counter, i.buffer, Added(i, r), r.buffer, r.closed)
  {
    assert next.received == i.received + [p];
    assert i.received <= r.received && Added(i, r)[0] == p && Added(i, r)[1..] == Added(next, r);
    if next.closed {
      assert Added(i, r) == [p];
    }
  }

  /** Whatever the bytes are, the loop of a connection takes what `Takes` says, and nothing else. */
  lemma {:induction false} AnyBytes(w: World, key: Key, i: Inbox)
    requires !i.closed
    ensures var r := Drain(w, key, i);
            && i.received <= r.received
            && Takes(w, key, i.counter, i.buffer, Added(i, r), r.buffer, r.closed)
    decreases |i.buffer|
  {
    HeadExactly(i.buffer);
    if Whole(i.buffer) {
      OneTurn(w, key, i);
      var p := Opened(w, key, i.counter, i.buffer);
      if p.Some? && w.isMessage(p.value) {
        var next := Accepted(w, i, p.value, i.buffer[20 + LengthAt(i.buffer)..]);
        if !next.closed {
          AnyBytes(w, key, next);
        }
        Taken(w, key, i, p.value, next, Drain(w, key, next));
      }
    }
  }
}
