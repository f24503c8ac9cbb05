/**
 TLV8 by its bytes: what is printed for which entries, and what any bytes at all are read
 as, said from the end of the input where the reader goes from its start.
 */
module Tlv8Bytes {
  import opened Bytes
  import opened HdsValues
  import opened Tlv8
  import opened Tlv8Proofs

  // ---------------------------------------------------------------- printing

  /** An entry that can be printed: its tag is a byte, and so is its number; its text is well-formed. */
  predicate Storable(e: Tlv8.Entry) {
    && 0 <= e.tag <= 255
    && match e.raw
       case Text(utf8) => ValidUtf8(utf8)
       case Number(n) => 0 <= n <= 255
       case Octets(_) => true
  }

  /** Its value. */
  function Stored(e: Tlv8.Entry): seq<byte>
    requires Storable(e)
  {
    match e.raw
    case Text(utf8) => utf8
    case Number(n) => [n]
    case Octets(data) => data
  }

  /** A value under a tag: at most 255 bytes at a time, each time behind the tag and how many they are. */
  function Piece(tag: byte, value: seq<byte>): seq<byte> {
    if |value| <= 255 then [tag, |value|] + value
    else [tag, 255] + value[..255] + Piece(tag, value[255..])
  }

  predicate AllStorable(entries: seq<Tlv8.Entry>) {
    forall i | 0 <= i < |entries| :: Storable(entries[i])
  }

  function Printed(entries: seq<Tlv8.Entry>): seq<byte>
    requires AllStorable(entries)
  {
    if entries == [] then [] else Piece(entries[0].tag, Stored(entries[0])) + Printed(entries[1..])
  }

  lemma {:induction false} CheckedExactly(e: Tlv8.Entry)
    ensures Checked(e).Ok? <==> Storable(e)
    ensures Storable(e) ==> Checked(e) == Ok(Item(e.tag, Stored(e)))
  {
  }

  lemma {:induction false} AllCheckedExactly(entries: seq<Tlv8.Entry>)
    ensures CheckedAll(entries).Ok? <==> AllStorable(entries)
    ensures AllStorable(entries) ==> WireOf(CheckedAll(entries).value) == Printed(entries)
  {
    if entries == [] {
    } else {
      var e, more := entries[0], entries[1..];
      CheckedExactly(e);
      AllCheckedExactly(more);
      if AllStorable(entries) {
        var items := CheckedAll(more).value;
        assert CheckedAll(entries).value == [Item(e.tag, Stored(e))] + items;
        FirstItem(Item(e.tag, Stored(e)), items);
      } else if Storable(e) {
        assert !AllStorable(more) by {
          var i :| 0 <= i < |entries| && !Storable(entries[i]);
          assert more[i - 1] == entries[i];
        }
      }
    }
  }

  lemma {:induction false} FirstItem(item: Item, items: seq<Item>)
    ensures WireOf([item] + items) == Piece(item.tag, item.value) + WireOf(items)
  {
    var chunks := Chunks(item.tag, item.value);
    assert ([item] + items)[1..] == items;
    ChunksAreSmall(item.tag, item.value);
    FragmentsAreSmall(items);
    WireAppend(chunks, Fragments(items));
    ChunksArePiece(item.tag, item.value);
  }

  lemma {:induction false} ChunksArePiece(tag: byte, value: seq<byte>)
    ensures Small(Chunks(tag, value)) && Wire(Chunks(tag, value)) == Piece(tag, value)
  {
    ChunksAreSmall(tag, value);
    var none: seq<Segment> := [];
    if |value| <= 255 {
      WireOfOne(Segment(tag, value), none);
      assert [Segment(tag, value)] + none == [Segment(tag, value)];
      assert [tag, |value|] + value + [] == [tag, |value|] + value;
    } else {
      WireOfOne(Segment(tag, value[..255]), Chunks(tag, value[255..]));
      ChunksArePiece(tag, value[255..]);
    }
  }

  /** Encoding works exactly for storable entries, and gives their pieces one after the other. */
  lemma {:induction false} EncodesExactly(entries: seq<Tlv8.Entry>)
    ensures EncodeEntries(entries).Ok? <==> AllStorable(entries)
    ensures AllStorable(entries) ==> EncodeEntries(entries) == Ok(Printed(entries))
  {
    AllCheckedExactly(entries);
  }

  // ---------------------------------------------------------------- any bytes

  /** The segments one after the other, each behind its tag and length. */
  function Laid(segments: seq<Segment>): seq<byte>
    requires Small(segments)
  {
    if segments == [] then []
    else
      var last := segments[|segments| - 1];
      Laid(segments[..|segments| - 1]) + ([last.tag, |last.value|] + last.value)
  }

  lemma {:induction false} LaidIsWire(segments: seq<Segment>)
    requires Small(segments)
    ensures Laid(segments) == Wire(segments)
  {
    if segments == [] {
    } else {
      var k := |segments| - 1;
      var none: seq<Segment> := [];
      LaidIsWire(segments[..k]);
      WireOfOne(segments[k], none);
      WireAppend(segments[..k], [segments[k]]);
      assert segments[..k] + [segments[k]] == segments && [segments[k]] + none == [segments[k]];
      assert [segments[k].tag, |segments[k].value|] + segments[k].value + []
          == [segments[k].tag, |segments[k].value|] + segments[k].value;
    }
  }

  /** Bytes are read as these segments exactly when they are these segments laid out. */
  lemma {:induction false} ReadsExactly(data: seq<byte>, segments: seq<Segment>)
    ensures Segments(data) == Ok(segments) <==> Small(segments) && Laid(segments) == data
  {
    if Segments(data) == Ok(segments) {
      WireOfSegments(data);
      LaidIsWire(segments);
    }
    if Small(segments) {
      SegmentsOfWire(segments);
      LaidIsWire(segments);
    }
  }

  /** Segment `i` goes on with the value of the one before it. */
  predicate GoesOn(segments: seq<Segment>, i: nat)
    requires i < |segments|
  {
    i > 0 && segments[i - 1].tag == segments[i].tag && |segments[i - 1].value| == 255
  }

  /** The last value under a tag. */
  function Latest(segments: seq<Segment>, tag: byte): Option<seq<byte>> {
    if segments == [] then None
    else
      var k := |segments| - 1;
      if segments[k].tag != tag then Latest(segments[..k], tag)
      else if !GoesOn(segments, k) then Some(segments[k].value)
      else
        match Latest(segments[..k], tag)
        case Some(value) => Some(value + segments[k].value)
        case None => None
  }

  function LastOf(segments: seq<Segment>, previous: Option<Segment>): Option<Segment> {
    if segments == [] then previous else Some(segments[|segments| - 1])
  }

  lemma {:induction false} CollectAppend(
    segments: seq<Segment>, x: Segment, result: map<byte, seq<byte>>, previous: Option<Segment>)
    ensures Collect(segments + [x], result, previous)
         == Merge(Collect(segments, result, previous), x, LastOf(segments, previous))
    decreases |segments|
  {
    if segments == [] {
      assert [] + [x] == [x] && [x][1..] == [];
    } else {
      assert (segments + [x])[1..] == segments[1..] + [x];
      CollectAppend(segments[1..], x, Merge(result, segments[0], previous), Some(segments[0]));
    }
  }

  lemma {:induction false} LatestIsThere(segments: seq<Segment>)
    requires segments != []
    ensures Latest(segments, segments[|segments| - 1].tag).Some?
  {
    var k := |segments| - 1;
    if GoesOn(segments, k) {
      LatestIsThere(segments[..k]);
    }
  }

  lemma {:induction false} CollectsLatest(segments: seq<Segment>, tag: byte)
    ensures var m := Collect(segments, map[], None);
            && (tag in m <==> Latest(segments, tag).Some?)
            && (tag in m ==> m[tag] == Latest(segments, tag).value)
  {
    if segments == [] {
    } else {
      var k := |segments| - 1;
      var front, x := segments[..k], segments[k];
      assert front + [x] == segments;
      CollectAppend(front, x, map[], None);
      CollectsLatest(front, tag);
      CollectsLatest(front, x.tag);
      if front != [] {
        LatestIsThere(front);
      }
    }
  }

  /** Whatever the bytes are: under each tag the dictionary holds the last value there is under it, and nothing else. */
  lemma {:induction false} DecodesLatest(data: seq<byte>, segments: seq<Segment>, tag: byte)
    requires Small(segments) && Laid(segments) == data
    ensures DecodeMap(data).Ok?
    ensures var m := DecodeMap(data).value;
            && (tag in m <==> Latest(segments, tag).Some?)
            && (tag in m ==> m[tag] == Latest(segments, tag).value)
  {
    ReadsExactly(data, segments);
    CollectsLatest(segments, tag);
  }

  /** What is no sequence of segments is refused. */
  lemma {:induction false} DecodesExactly(data: seq<byte>)
    ensures DecodeMap(data).Ok? <==> Segments(data).Ok?
    ensures DecodeMap(data).Ok? ==> Small(Segments(data).value) && Laid(Segments(data).value) == data
  {
    if Segments(data).Ok? {
      ReadsExactly(data, Segments(data).value);
    }
  }

  // ---------------------------------------------------------------- lists

  /** Segment `i` opens another item: it has the separator's tag and goes on with nothing. */
  predicate OpensAt(segments: seq<Segment>, separator: byte, i: nat)
    requires i < |segments|
  {
    segments[i].tag == separator && !GoesOn(segments, i)
  }

  /** One segment more opens an item of its own or ends the last one. */
  function Longer(parts: seq<seq<Segment>>, x: Segment, opens: bool): seq<seq<Segment>>
    requires parts != []
  {
    if opens then parts + [[x]] else parts[..|parts| - 1] + [parts[|parts| - 1] + [x]]
  }

  /** The items of a list, each from a segment that opens one up to the next. */
  function Parted(segments: seq<Segment>, separator: byte): (parts: seq<seq<Segment>>)
    ensures parts == [] <==> segments == []
  {
    if segments == [] then []
    else
      var k := |segments| - 1;
      if k == 0 then [segments]
      else Longer(Parted(segments[..k], separator), segments[k], OpensAt(segments, separator, k))
  }

  lemma {:induction false} LongerBehind(first: seq<Segment>, parts: seq<seq<Segment>>, x: Segment, opens: bool)
    requires parts != []
    ensures Longer([first] + parts, x, opens) == [first] + Longer(parts, x, opens)
  {
  }

  lemma {:induction false} GroupsNotEmpty(
    segments: seq<Segment>, current: seq<Segment>, previous: Option<Segment>, separator: byte)
    requires segments != [] || current != []
    ensures Groups(segments, current, previous, separator) != []
    decreases |segments|
  {
    if segments == [] {
    } else {
      GroupsNotEmpty(segments[1..], current + [segments[0]], Some(segments[0]), separator);
    }
  }

  lemma {:induction false} GroupsAppend(
    segments: seq<Segment>, x: Segment, current: seq<Segment>, previous: Option<Segment>, separator: byte)
    requires current != []
    ensures Groups(segments, current, previous, separator) != []
    ensures Groups(segments + [x], current, previous, separator)
         == Longer(Groups(segments, current, previous, separator), x,
                   Starts(x, current, LastOf(segments, previous), separator))
    decreases |segments|
  {
    GroupsNotEmpty(segments, current, previous, separator);
    var none: seq<Segment> := [];
    if segments == [] {
      assert none + [x] == [x] && [x][1..] == none;
    } else {
      var s, more := segments[0], segments[1..];
      assert (segments + [x])[1..] == more + [x] && (segments + [x])[0] == s;
      if Starts(s, current, previous, separator) {
        GroupsAppend(more, x, [s], Some(s), separator);
        LongerBehind(current, Groups(more, [s], Some(s), separator), x,
                     Starts(x, [s], LastOf(more, Some(s)), separator));
      } else {
        GroupsAppend(more, x, current + [s], Some(s), separator);
      }
    }
  }

  /** The first segment always joins the first item. */
  lemma {:induction false} GroupsFirst(segments: seq<Segment>, separator: byte)
    requires segments != []
    ensures Groups(segments, [], None, separator)
         == Groups(segments[1..], [segments[0]], Some(segments[0]), separator)
  {
    assert [] + [segments[0]] == [segments[0]];
  }

  lemma {:induction false} StartsIsOpens(segments: seq<Segment>, separator: byte)
    requires |segments| > 1
    ensures var k := |segments| - 1;
            && LastOf(segments[..k][1..], Some(segments[0])) == Some(segments[k - 1])
            && Starts(segments[k], [segments[0]], Some(segments[k - 1]), separator) == OpensAt(segments, separator, k)
  {
  }

  lemma {:induction false} GroupsLonger(segments: seq<Segment>, separator: byte)
    requires |segments| > 1
    ensures var k := |segments| - 1;
            && Groups(segments[..k], [], None, separator) != []
            && Groups(segments, [], None, separator)
                 == Longer(Groups(segments[..k], [], None, separator), segments[k], OpensAt(segments, separator, k))
  {
    var k := |segments| - 1;
    var front, first := segments[..k], segments[0];
    GroupsFirst(front, separator);
    GroupsFirst(segments, separator);
    assert segments[1..] == front[1..] + [segments[k]];
    GroupsAppend(front[1..], segments[k], [first], Some(first), separator);
    StartsIsOpens(segments, separator);
  }

  lemma {:induction false} GroupsAreParts(segments: seq<Segment>, separator: byte)
    ensures Groups(segments, [], None, separator) == Parted(segments, separator)
  {
    if segments == [] {
    } else if |segments| == 1 {
      GroupsFirst(segments, separator);
      assert [segments[0]] == segments;
    } else {
      GroupsAreParts(segments[..|segments| - 1], separator);
      GroupsLonger(segments, separator);
    }
  }

  lemma {:induction false} AllCollected(groups: seq<seq<Segment>>, k: nat)
    requires k < |groups|
    ensures CollectAll(groups)[k] == Collect(groups[k], map[], None)
  {
    if k == 0 {
    } else {
      AllCollected(groups[1..], k - 1);
    }
  }

  /** A list has one dictionary per item, and each holds the last value its item has under each tag. */
  lemma {:induction false} ListsExactly(data: seq<byte>, segments: seq<Segment>, separator: byte, k: nat, tag: byte)
    requires Small(segments) && Laid(segments) == data && k < |Parted(segments, separator)|
    ensures DecodeItems(data, separator).Ok?
    ensures var ms, part := DecodeItems(data, separator).value, Parted(segments, separator)[k];
            && |ms| == |Parted(segments, separator)|
            && (tag in ms[k] <==> Latest(part, tag).Some?)
            && (tag in ms[k] ==> ms[k][tag] == Latest(part, tag).value)
  {
    ReadsExactly(data, segments);
    GroupsAreParts(segments, separator);
    AllCollected(Parted(segments, separator), k);
    CollectsLatest(Parted(segments, separator)[k], tag);
  }
}
