/**
 What decoding makes of encoded entries, exactly; when lists split where they
 were joined; and that parsing loses nothing.
 */
module Tlv8Proofs {
  import opened Bytes
  import opened Tlv8

  // ---------------------------------------------------------------- the wire

  lemma {:induction false} SegmentsOfWire(segments: seq<Segment>)
    requires Small(segments)
    ensures Segments(Wire(segments)) == Ok(segments)
  {
    if segments == [] {
    } else {
      var s, rest := segments[0], segments[1..];
      var data := Wire(segments);
      assert data == [s.tag, |s.value|] + (s.value + Wire(rest));
      assert data[2..2 + |s.value|] == s.value && data[2 + |s.value|..] == Wire(rest);
      SegmentsOfWire(rest);
      assert [s] + rest == segments;
    }
  }

  /** Printing the segments of any accepted input reproduces it byte for byte. */
  lemma {:induction false} WireOfSegments(data: seq<byte>)
    requires Segments(data).Ok?
    ensures Wire(Segments(data).value) == data
  {
    if data == [] {
    } else {
      var length: nat := data[1];
      var first, rest := Segment(data[0], data[2..2 + length]), Segments(data[2 + length..]).value;
      WireOfSegments(data[2 + length..]);
      WireOfOne(first, rest);
      HeaderAndValue(data, length);
    }
  }

  lemma {:induction false} WireOfOne(first: Segment, rest: seq<Segment>)
    requires Small([first] + rest)
    ensures Wire([first] + rest) == [first.tag, |first.value|] + first.value + Wire(rest)
  {
    assert ([first] + rest)[1..] == rest;
  }

  lemma {:induction false} HeaderAndValue(data: seq<byte>, length: nat)
    requires 2 + length <= |data| && data[1] == length
    ensures data == [data[0], length] + data[2..2 + length] + data[2 + length..]
  {
  }

  lemma {:induction false} WireAppend(a: seq<Segment>, b: seq<Segment>)
    requires Small(a) && Small(b)
    ensures Small(a + b) && Wire(a + b) == Wire(a) + Wire(b)
  {
    if a == [] {
      assert a + b == b;
    } else {
      assert (a + b)[1..] == a[1..] + b;
      WireAppend(a[1..], b);
      Associative([a[0].tag, |a[0].value|] + a[0].value, Wire(a[1..]), Wire(b));
    }
  }

  lemma {:induction false} FragmentsAppend(a: seq<Item>, b: seq<Item>)
    ensures Fragments(a + b) == Fragments(a) + Fragments(b)
  {
    if a == [] {
      assert a + b == b;
    } else {
      assert (a + b)[1..] == a[1..] + b;
      FragmentsAppend(a[1..], b);
    }
  }

  // ---------------------------------------------------------------- one value

  function LastChunk(tag: byte, value: seq<byte>): Segment {
    var cs := Chunks(tag, value);
    ChunksNotEmpty(tag, value);
    cs[|cs| - 1]
  }

  lemma {:induction false} ChunksNotEmpty(tag: byte, value: seq<byte>)
    ensures Chunks(tag, value) != []
  {
  }

  /** The last segment is full exactly when the length is a nonzero multiple of 255. */
  lemma {:induction false} LastChunkLength(tag: byte, value: seq<byte>)
    ensures LastChunk(tag, value).tag == tag
    ensures |LastChunk(tag, value).value| == MAX_CHUNK <==> value != [] && |value| % MAX_CHUNK == 0
  {
    if |value| <= MAX_CHUNK {
    } else {
      LastChunkLength(tag, value[MAX_CHUNK..]);
      LastChunkOf(tag, value);
    }
  }

  /** A full segment and what continues it merge like the two in one. */
  lemma {:induction false} MergeTwice(
    tag: byte, head: seq<byte>, tail: seq<byte>, result: map<byte, seq<byte>>, previous: Option<Segment>)
    requires |head| == MAX_CHUNK
    ensures var first := Segment(tag, head);
            Merge(Merge(result, first, previous), Segment(tag, tail), Some(first))
              == Merge(result, Segment(tag, head + tail), previous)
  {
    if Continues(Segment(tag, head), previous, result) {
      assert (result[tag] + head) + tail == result[tag] + (head + tail);
    }
  }

  /** Reading all chunks of a value appends it or sets it, as the first chunk would. */
  lemma {:induction false} CollectChunks(
    tag: byte, value: seq<byte>, rest: seq<Segment>, result: map<byte, seq<byte>>, previous: Option<Segment>)
    ensures Collect(Chunks(tag, value) + rest, result, previous)
         == Collect(rest, Merge(result, Segment(tag, value), previous), Some(LastChunk(tag, value)))
    decreases |value|
  {
    if |value| <= MAX_CHUNK {
      assert ([Segment(tag, value)] + rest)[1..] == rest;
    } else {
      var head, tail := value[..MAX_CHUNK], value[MAX_CHUNK..];
      var first := Segment(tag, head);
      var all := Chunks(tag, value) + rest;
      assert all[0] == first && all[1..] == Chunks(tag, tail) + rest;
      assert Collect(all, result, previous) == Collect(all[1..], Merge(result, first, previous), Some(first));
      CollectChunks(tag, tail, rest, Merge(result, first, previous), Some(first));
      LastChunkOf(tag, value);
      assert head + tail == value;
      MergeTwice(tag, head, tail, result, previous);
    }
  }

  lemma {:induction false} LastChunkOf(tag: byte, value: seq<byte>)
    requires |value| > MAX_CHUNK
    ensures LastChunk(tag, value) == LastChunk(tag, value[MAX_CHUNK..])
  {
    ChunksNotEmpty(tag, value[MAX_CHUNK..]);
  }

  // ---------------------------------------------------------------- many values

  /** Whether an item runs into the one before it: the same tag, after full segments only. */
  predicate RunsOn(item: Item, previous: Option<Item>) {
    && previous.Some? && item.tag == previous.value.tag
    && previous.value.value != [] && |previous.value.value| % MAX_CHUNK == 0
  }

  /** The meaning of a list of items: append where one runs on, overwrite otherwise. */
  function Meaning(items: seq<Item>, result: map<byte, seq<byte>>, previous: Option<Item>): map<byte, seq<byte>>
    decreases |items|
  {
    if items == [] then result
    else
      var item := items[0];
      var value := if RunsOn(item, previous) && item.tag in result then result[item.tag] + item.value else item.value;
      Meaning(items[1..], result[item.tag := value], Some(item))
  }

  lemma {:induction false} CollectFragments(items: seq<Item>, result: map<byte, seq<byte>>, previous: Option<Item>)
    ensures Collect(Fragments(items), result, LastSegment(previous)) == Meaning(items, result, previous)
    decreases |items|
  {
    if items == [] {
    } else {
      var item := items[0];
      if previous.Some? {
        LastChunkLength(previous.value.tag, previous.value.value);
      }
      CollectChunks(item.tag, item.value, Fragments(items[1..]), result, LastSegment(previous));
      CollectFragments(items[1..], Merge(result, Segment(item.tag, item.value), LastSegment(previous)), Some(item));
    }
  }

  function LastSegment(previous: Option<Item>): Option<Segment> {
    match previous case None => None case Some(item) => Some(LastChunk(item.tag, item.value))
  }

  /** For any accepted entries, decoding what was encoded gives their meaning. */
  lemma {:induction false} DecodeEncode(entries: seq<Entry>)
    requires EncodeEntries(entries).Ok?
    ensures DecodeMap(EncodeEntries(entries).value) == Ok(Meaning(CheckedAll(entries).value, map[], None))
  {
    DecodeWire(CheckedAll(entries).value);
  }

  lemma {:induction false} DecodeWire(items: seq<Item>)
    ensures DecodeMap(WireOf(items)) == Ok(Meaning(items, map[], None))
  {
    FragmentsAreSmall(items);
    SegmentsOfWire(Fragments(items));
    CollectFragments(items, map[], None);
  }

  predicate DistinctTags(items: seq<Item>) {
    forall i, j | 0 <= i < j < |items| :: items[i].tag != items[j].tag
  }

  /** With distinct tags every value comes back under its tag, and nothing else does. */
  lemma {:induction false} DistinctTagsMeanThemselves(
    items: seq<Item>, result: map<byte, seq<byte>>, previous: Option<Item>)
    requires DistinctTags(items)
    requires forall i | 0 <= i < |items| :: items[i].tag !in result
    ensures var m := Meaning(items, result, previous);
            && (forall i | 0 <= i < |items| :: items[i].tag in m && m[items[i].tag] == items[i].value)
            && (forall t | t in m :: t in result || exists i | 0 <= i < |items| :: items[i].tag == t)
            && (forall t | t in result :: t in m && m[t] == result[t])
    decreases |items|
  {
    if items == [] {
    } else {
      var item, rest := items[0], items[1..];
      var result1 := result[item.tag := item.value];
      forall i | 0 <= i < |rest| ensures rest[i].tag !in result1 {
        assert rest[i] == items[i + 1];
      }
      DistinctTagsMeanThemselves(rest, result1, Some(item));
      var m := Meaning(items, result, previous);
      assert m == Meaning(rest, result1, Some(item));
      forall i | 0 <= i < |items| ensures items[i].tag in m && m[items[i].tag] == items[i].value {
        assert i > 0 ==> rest[i - 1] == items[i];
      }
      forall t | t in m && t !in result ensures exists i | 0 <= i < |items| :: items[i].tag == t {
        if t != item.tag {
          var i :| 0 <= i < |rest| && rest[i].tag == t;
          assert items[i + 1].tag == t;
        } else {
          assert items[0].tag == t;
        }
      }
    }
  }
}
