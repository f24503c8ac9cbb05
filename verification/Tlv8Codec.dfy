/**
 The TLV8 functions with their loops, proved against the specification in `Tlv8`.
 */
module Tlv8Codec {
  import opened Bytes
  import opened Tlv8
  import opened Tlv8Bytes
  import opened Tlv8Proofs

  /** `encode(*items)`: the first bad entry raises; nothing is returned then. */
  method Encode(entries: seq<Entry>) returns (r: Result<seq<byte>, Error>)
    ensures r == EncodeEntries(entries)
  {
    var out: seq<byte> := [];
    var n := 0;
    ghost var done: seq<Item> := [];
    ghost var all := CheckedAll(entries);
    assert entries[0..] == entries && (all.Ok? ==> done + all.value == all.value);
    while n < |entries|
      invariant n <= |entries| && out == WireOf(done)
      invariant match CheckedAll(entries[n..])
                case Ok(items) => CheckedAll(entries) == Ok(done + items)
                case Err(e) => CheckedAll(entries) == Err(e)
    {
      assert entries[n..][1..] == entries[n + 1..];
      var entry := Checked(entries[n]);
      if entry.Err? {
        return Err(entry.error);
      }
      var item := entry.value;
      ghost var rest := CheckedAll(entries[n + 1..]);
      assert rest.Ok? ==> (done + [item]) + rest.value == done + ([item] + rest.value);
      WireOfAppend(done, item);
      out := EncodeOne(item, out);
      done := done + [item];
      n := n + 1;
    }
    assert done + [] == done;
    r := Ok(out);
  }

  lemma {:induction false} WireOfAppend(items: seq<Item>, item: Item)
    ensures Small(Chunks(item.tag, item.value))
    ensures WireOf(items + [item]) == WireOf(items) + Wire(Chunks(item.tag, item.value))
  {
    ChunksAreSmall(item.tag, item.value);
    FragmentsAreSmall(items);
    FragmentsAppend(items, [item]);
    assert Fragments([item]) == Chunks(item.tag, item.value) + [] == Chunks(item.tag, item.value);
    WireAppend(Fragments(items), Chunks(item.tag, item.value));
  }

  /** What is still to be printed of a value once `start` bytes of it are. */
  function Left(tag: byte, value: seq<byte>, start: nat): seq<byte> {
    if start < |value| then Piece(tag, value[start..]) else []
  }

  lemma {:induction false} ChunkStep(tag: byte, value: seq<byte>, start: nat, end: nat)
    requires start < end <= |value|
    requires end == start + MAX_CHUNK || (end == |value| && end <= start + MAX_CHUNK)
    ensures Left(tag, value, start) == ([tag, end - start] + value[start..end]) + Left(tag, value, start + MAX_CHUNK)
  {
    var rest := value[start..];
    assert rest[..end - start] == value[start..end];
    if end < |value| {
      assert rest[MAX_CHUNK..] == value[end..];
    } else {
      assert rest == value[start..end];
    }
  }

  /** The loop over the 255-byte chunks of one value. */
  method EncodeOne(item: Item, before: seq<byte>) returns (out: seq<byte>)
    ensures Small(Chunks(item.tag, item.value)) && out == before + Wire(Chunks(item.tag, item.value))
  {
    var tag, value := item.tag, item.value;
    ChunksArePiece(tag, value);
    out := before;
    if value == [] {
      out := out + [tag, 0];
      return;
    }
    var start := 0;
    assert value[0..] == value;
    while start < |value|
      invariant 0 <= start && Same(before + Piece(tag, value), out + Left(tag, value, start))
    {
      var end := if start + MAX_CHUNK < |value| then start + MAX_CHUNK else |value|;
      var chunk := value[start..end];
      ChunkStep(tag, value, start, end);
      var piece := [tag, |chunk|] + chunk;
      assert out + (piece + Left(tag, value, start + MAX_CHUNK)) == (out + piece) + Left(tag, value, start + MAX_CHUNK);
      out := out + piece;
      start := start + MAX_CHUNK;
    }
    assert out + [] == out;
  }

  /** `Segments`, with what was parsed before carried along. */
  function ParseOn(data: seq<byte>, result: seq<Segment>): Result<seq<Segment>, Error>
    decreases |data|
  {
    if data == [] then Ok(result)
    else if |data| < 2 then Err(TruncatedHeader)
    else if 2 + data[1] > |data| then Err(TruncatedValue)
    else ParseOn(data[2 + data[1]..], result + [Segment(data[0], data[2..2 + data[1]])])
  }

  lemma {:induction false} ParseOnIsSegments(data: seq<byte>, result: seq<Segment>)
    ensures ParseOn(data, result) == (match Segments(data) case Ok(rest) => Ok(result + rest) case Err(e) => Err(e))
    decreases |data|
  {
    if data == [] {
      assert result + [] == result;
    } else if |data| >= 2 && 2 + data[1] <= |data| {
      var segment := Segment(data[0], data[2..2 + data[1]]);
      ParseOnIsSegments(data[2 + data[1]..], result + [segment]);
      var rest := Segments(data[2 + data[1]..]);
      assert rest.Ok? ==> (result + [segment]) + rest.value == result + ([segment] + rest.value);
    }
  }

  lemma {:induction false} ParseAll(data: seq<byte>)
    ensures Same(Segments(data), ParseOn(data, []))
  {
    ParseOnIsSegments(data, []);
    assert Segments(data).Ok? ==> [] + Segments(data).value == Segments(data).value;
  }

  /** One turn of the index loop, on what is left of the input. */
  lemma {:induction false} ParseStep(raw: seq<byte>, index: nat, result: seq<Segment>)
    requires index < |raw|
    ensures index + 2 > |raw| ==> ParseOn(raw[index..], result) == Err(TruncatedHeader)
    ensures index + 2 <= |raw| && index + 2 + raw[index + 1] > |raw| ==>
              ParseOn(raw[index..], result) == Err(TruncatedValue)
    ensures index + 2 <= |raw| && index + 2 + raw[index + 1] <= |raw| ==>
              var end := index + 2 + raw[index + 1];
              ParseOn(raw[index..], result) == ParseOn(raw[end..], result + [Segment(raw[index], raw[index + 2..end])])
  {
    var here := raw[index..];
    if index + 2 <= |raw| {
      var length: nat := raw[index + 1];
      if index + 2 + length <= |raw| {
        assert here[2..2 + length] == raw[index + 2..index + 2 + length];
        assert here[2 + length..] == raw[index + 2 + length..];
      }
    }
  }

  /** `segments(data)`: the index loop. */
  method ParseSegments(raw: seq<byte>) returns (r: Result<seq<Segment>, Error>)
    ensures r == Segments(raw)
  {
    var result: seq<Segment> := [];
    var index := 0;
    ParseAll(raw);
    ghost var all := Segments(raw);
    assert raw[0..] == raw;
    while index < |raw|
      invariant index <= |raw|
      invariant Same(all, ParseOn(raw[index..], result))
    {
      ParseStep(raw, index, result);
      if index + 2 > |raw| {
        return Err(TruncatedHeader);
      }
      var tag, length: nat := raw[index], raw[index + 1];
      index := index + 2;
      var end := index + length;
      if end > |raw| {
        return Err(TruncatedValue);
      }
      result := result + [Segment(tag, raw[index..end])];
      index := end;
    }
    r := Ok(result);
  }

  /** `decode(data)`: the merging loop. */
  method Decode(data: seq<byte>) returns (r: Result<map<byte, seq<byte>>, Error>)
    ensures r == DecodeMap(data)
  {
    var parsed := ParseSegments(data);
    if parsed.Err? {
      return Err(parsed.error);
    }
    var result: map<byte, seq<byte>> := map[];
    var previous: Option<Segment> := None;
    var n := 0;
    while n < |parsed.value|
      invariant n <= |parsed.value|
      invariant Collect(parsed.value, map[], None) == Collect(parsed.value[n..], result, previous)
    {
      var segment := parsed.value[n];
      assert parsed.value[n..][1..] == parsed.value[n + 1..];
      var last := previous.Some? && segment.tag == previous.value.tag && |previous.value.value| == MAX_CHUNK;
      if last && segment.tag in result {
        result := result[segment.tag := result[segment.tag] + segment.value];
      } else {
        result := result[segment.tag := segment.value];
      }
      previous := Some(segment);
      n := n + 1;
    }
    r := Ok(result);
  }

  /** `decode_list(data, separator_tag)`: group the segments, print each group again and decode it. */
  method DecodeList(data: seq<byte>, separator: byte) returns (r: Result<seq<map<byte, seq<byte>>>, Error>)
    ensures r == DecodeItems(data, separator)
  {
    var parsed := ParseSegments(data);
    if parsed.Err? {
      return Err(parsed.error);
    }
    var groups := GroupSegments(parsed.value, separator);
    ghost var all := Groups(parsed.value, [], None, separator);
    GroupsAreSmall(parsed.value, [], None, separator);
    var result: seq<map<byte, seq<byte>>> := [];
    var n := 0;
    assert all[0..] == all && result + CollectAll(all) == CollectAll(all);
    while n < |groups|
      invariant n <= |groups| && groups == all
      invariant CollectAll(all) == result + CollectAll(all[n..])
    {
      assert all[n..][1..] == all[n + 1..];
      var encoded := PrintGroup(groups[n]);
      SegmentsOfWire(groups[n]);
      var one := Decode(encoded);
      ghost var rest := CollectAll(all[n + 1..]);
      assert result + ([one.value] + rest) == (result + [one.value]) + rest;
      result := result + [one.value];
      n := n + 1;
    }
    assert result + [] == result;
    r := Ok(result);
  }

  method GroupSegments(segments: seq<Segment>, separator: byte) returns (groups: seq<seq<Segment>>)
    ensures groups == Groups(segments, [], None, separator)
  {
    groups := [];
    var current: seq<Segment> := [];
    var previous: Option<Segment> := None;
    var n := 0;
    ghost var all := Groups(segments, [], None, separator);
    assert segments[0..] == segments && groups + all == all;
    while n < |segments|
      invariant n <= |segments|
      invariant all == groups + Groups(segments[n..], current, previous, separator)
    {
      var segment := segments[n];
      assert segments[n..][1..] == segments[n + 1..];
      if Starts(segment, current, previous, separator) {
        ghost var rest := Groups(segments[n + 1..], [segment], Some(segment), separator);
        assert groups + ([current] + rest) == (groups + [current]) + rest;
        groups := groups + [current];
        current := [];
        assert current + [segment] == [segment];
      }
      current := current + [segment];
      previous := Some(segment);
      n := n + 1;
    }
    if current != [] {
      groups := groups + [current];
    } else {
      assert groups + [] == groups;
    }
  }

  lemma {:induction false} GroupsAreSmall(
    segments: seq<Segment>, current: seq<Segment>, previous: Option<Segment>, separator: byte)
    requires Small(segments) && Small(current)
    ensures forall i | 0 <= i < |Groups(segments, current, previous, separator)| ::
              Small(Groups(segments, current, previous, separator)[i])
    decreases |segments|
  {
    if segments == [] {
    } else {
      if Starts(segments[0], current, previous, separator) {
        GroupsAreSmall(segments[1..], [segments[0]], Some(segments[0]), separator);
      } else {
        GroupsAreSmall(segments[1..], current + [segments[0]], Some(segments[0]), separator);
      }
    }
  }

  method PrintGroup(group: seq<Segment>) returns (encoded: seq<byte>)
    requires Small(group)
    ensures encoded == Wire(group)
  {
    encoded := [];
    var n := 0;
    while n < |group|
      invariant n <= |group| && encoded == Wire(group[..n])
    {
      var segment := group[n];
      WireAppend(group[..n], [segment]);
      assert group[..n + 1] == group[..n] + [segment];
      assert Wire([segment]) == [segment.tag, |segment.value|] + segment.value + [];
      encoded := encoded + [segment.tag, |segment.value|] + segment.value;
      n := n + 1;
    }
    assert group[..n] == group;
  }
}
