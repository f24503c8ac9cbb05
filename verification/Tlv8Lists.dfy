/**
 TLV8 lists: records joined end to end, each opening with a separator tag it uses
 nowhere else. They come apart where they were joined, except behind a record
 that is nothing but a separator entry filling its segments exactly.
 */
module Tlv8Lists {
  import opened Bytes
  import opened Tlv8
  import opened Tlv8Proofs

  type Record = seq<Item>

  predicate IsRecord(record: Record, separator: byte) {
    && record != [] && record[0].tag == separator
    && (forall i | 1 <= i < |record| :: record[i].tag != separator)
  }

  predicate AllRecords(records: seq<Record>, separator: byte) {
    forall i | 0 <= i < |records| :: IsRecord(records[i], separator)
  }

  predicate NoneEmpty(records: seq<Record>) {
    forall i | 0 <= i < |records| :: records[i] != []
  }

  /** The next separator would be read as a continuation of this item. */
  predicate Swallows(record: Record, separator: byte)
    requires record != []
  {
    var last := record[|record| - 1];
    last.tag == separator && last.value != [] && |last.value| % MAX_CHUNK == 0
  }

  /** The records as a reader tells them apart, after the items of `open`. */
  function Regrouped(open: Record, records: seq<Record>, separator: byte): seq<Record>
    requires open != []
    decreases |records|
  {
    if records == [] then [open]
    else if Swallows(open, separator) || records[0] == [] then Regrouped(open + records[0], records[1..], separator)
    else [open] + Regrouped(records[0], records[1..], separator)
  }

  function Meanings(records: seq<Record>): (r: seq<map<byte, seq<byte>>>)
    ensures |r| == |records|
  {
    if records == [] then [] else [Meaning(records[0], map[], None)] + Meanings(records[1..])
  }

  function FragmentsOf(records: seq<Record>): seq<seq<Segment>> {
    if records == [] then [] else [Fragments(records[0])] + FragmentsOf(records[1..])
  }

  // ---------------------------------------------------------------- one value, one record

  /** Chunks that do not open an item all join the current one. */
  lemma {:induction false} ChunksJoin(
    tag: byte, value: seq<byte>, rest: seq<Segment>, current: seq<Segment>, previous: Option<Segment>, separator: byte)
    requires !Starts(Segment(tag, []), current, previous, separator)
    ensures Groups(Chunks(tag, value) + rest, current, previous, separator)
         == Groups(rest, current + Chunks(tag, value), Some(LastChunk(tag, value)), separator)
    decreases |value|
  {
    var all := Chunks(tag, value) + rest;
    if |value| <= MAX_CHUNK {
      assert all[1..] == rest;
    } else {
      var first, tail := Segment(tag, value[..MAX_CHUNK]), value[MAX_CHUNK..];
      assert all[0] == first && all[1..] == Chunks(tag, tail) + rest;
      ChunksJoin(tag, tail, rest, current + [first], Some(first), separator);
      LastChunkOf(tag, value);
      assert (current + [first]) + Chunks(tag, tail) == current + Chunks(tag, value);
    }
  }

  /** Chunks whose first opens an item close the current one and are the new one. */
  lemma {:induction false} ChunksStart(
    tag: byte, value: seq<byte>, rest: seq<Segment>, current: seq<Segment>, previous: Option<Segment>, separator: byte)
    requires Starts(Segment(tag, []), current, previous, separator)
    ensures Groups(Chunks(tag, value) + rest, current, previous, separator)
         == [current] + Groups(rest, Chunks(tag, value), Some(LastChunk(tag, value)), separator)
  {
    var all := Chunks(tag, value) + rest;
    if |value| <= MAX_CHUNK {
      assert all[1..] == rest;
    } else {
      var first, tail := Segment(tag, value[..MAX_CHUNK]), value[MAX_CHUNK..];
      assert all[0] == first && all[1..] == Chunks(tag, tail) + rest;
      ChunksJoin(tag, tail, rest, [first], Some(first), separator);
      LastChunkOf(tag, value);
    }
  }

  function LastOf(items: seq<Item>, previous: Option<Segment>): Option<Segment> {
    if items == [] then previous else LastSegment(Some(items[|items| - 1]))
  }

  /** Items under other tags join the current one. */
  lemma {:induction false} OthersJoin(
    items: seq<Item>, rest: seq<Segment>, current: seq<Segment>, previous: Option<Segment>, separator: byte)
    requires forall i | 0 <= i < |items| :: items[i].tag != separator
    ensures Groups(Fragments(items) + rest, current, previous, separator)
         == Groups(rest, current + Fragments(items), LastOf(items, previous), separator)
    decreases |items|
  {
    if items == [] {
      assert [] + rest == rest && current + [] == current;
    } else {
      var item, more := items[0], items[1..];
      var chunks := Chunks(item.tag, item.value);
      assert Fragments(items) + rest == chunks + (Fragments(more) + rest);
      ChunksJoin(item.tag, item.value, Fragments(more) + rest, current, previous, separator);
      OthersJoin(more, rest, current + chunks, Some(LastChunk(item.tag, item.value)), separator);
      assert (current + chunks) + Fragments(more) == current + Fragments(items);
    }
  }

  /** A record behind `open` either joins it or closes it. */
  lemma {:induction false} RecordGroups(open: Record, record: Record, rest: seq<Segment>, separator: byte)
    requires open != [] && IsRecord(record, separator)
    ensures Groups(Fragments(record) + rest, Fragments(open), LastOf(open, None), separator)
         == if Swallows(open, separator) then
              Groups(rest, Fragments(open + record), LastOf(open + record, None), separator)
            else [Fragments(open)] + Groups(rest, Fragments(record), LastOf(record, None), separator)
  {
    var last, head, others := open[|open| - 1], record[0], record[1..];
    var chunks := Chunks(head.tag, head.value);
    LastChunkLength(last.tag, last.value);
    ChunksNotEmpty(open[0].tag, open[0].value);
    assert Fragments(record) + rest == chunks + (Fragments(others) + rest);
    if Swallows(open, separator) {
      ChunksJoin(head.tag, head.value, Fragments(others) + rest, Fragments(open), LastOf(open, None), separator);
      OthersJoin(others, rest, Fragments(open) + chunks, Some(LastChunk(head.tag, head.value)), separator);
      FragmentsAppend(open, record);
      assert (Fragments(open) + chunks) + Fragments(others) == Fragments(open + record);
    } else {
      ChunksStart(head.tag, head.value, Fragments(others) + rest, Fragments(open), LastOf(open, None), separator);
      OthersJoin(others, rest, chunks, Some(LastChunk(head.tag, head.value)), separator);
    }
  }

  // ---------------------------------------------------------------- whole lists

  lemma {:induction false} ListGroups(open: Record, records: seq<Record>, separator: byte)
    requires open != [] && AllRecords(records, separator)
    ensures Groups(Fragments(Flatten(records)), Fragments(open), LastOf(open, None), separator)
         == FragmentsOf(Regrouped(open, records, separator))
    decreases |records|
  {
    if records == [] {
      ChunksNotEmpty(open[0].tag, open[0].value);
    } else {
      var rest := Fragments(Flatten(records[1..]));
      FragmentsAppend(records[0], Flatten(records[1..]));
      RecordGroups(open, records[0], rest, separator);
      if Swallows(open, separator) {
        ListGroups(open + records[0], records[1..], separator);
      } else {
        ListGroups(records[0], records[1..], separator);
        assert FragmentsOf([open] + Regrouped(records[0], records[1..], separator))
            == [Fragments(open)] + FragmentsOf(Regrouped(records[0], records[1..], separator));
      }
    }
  }

  lemma {:induction false} CollectAllOf(records: seq<Record>)
    ensures CollectAll(FragmentsOf(records)) == Meanings(records)
  {
    if records == [] {
    } else {
      CollectFragments(records[0], map[], None);
      CollectAllOf(records[1..]);
    }
  }

  /** What a list decodes to, exactly: the meanings of its records, those behind a swallowing one merged into it. */
  lemma {:induction false} DecodeJoined(records: seq<Record>, separator: byte)
    requires records != [] && AllRecords(records, separator)
    ensures DecodeItems(WireOf(Flatten(records)), separator)
         == Ok(Meanings(Regrouped(records[0], records[1..], separator)))
  {
    var first, more := records[0], records[1..];
    var segments := Fragments(Flatten(records));
    FragmentsAreSmall(Flatten(records));
    SegmentsOfWire(segments);
    FragmentsAppend(first, Flatten(more));
    FirstRecord(first, Fragments(Flatten(more)), separator);
    ListGroups(first, more, separator);
    CollectAllOf(Regrouped(first, more, separator));
  }

  lemma {:induction false} FirstRecord(record: Record, rest: seq<Segment>, separator: byte)
    requires IsRecord(record, separator)
    ensures Groups(Fragments(record) + rest, [], None, separator)
         == Groups(rest, Fragments(record), LastOf(record, None), separator)
  {
    var head, others := record[0], record[1..];
    var chunks := Chunks(head.tag, head.value);
    assert Fragments(record) + rest == chunks + (Fragments(others) + rest);
    ChunksJoin(head.tag, head.value, Fragments(others) + rest, [], None, separator);
    assert [] + chunks == chunks;
    OthersJoin(others, rest, chunks, Some(LastChunk(head.tag, head.value)), separator);
  }

  /** How many records swallow the one behind them. */
  function Swallowing(open: Record, records: seq<Record>, separator: byte): nat
    requires open != [] && NoneEmpty(records)
    decreases |records|
  {
    if records == [] then 0
    else (if Swallows(open, separator) then 1 else 0) + Swallowing(records[0], records[1..], separator)
  }

  /** Only the last item decides whether a record swallows, so joining changes nothing downstream. */
  lemma {:induction false} RegroupedLength(open: Record, records: seq<Record>, separator: byte)
    requires open != [] && NoneEmpty(records)
    ensures |Regrouped(open, records, separator)| == 1 + |records| - Swallowing(open, records, separator)
    decreases |records|
  {
    if records == [] {
    } else if Swallows(open, separator) {
      var both := open + records[0];
      RegroupedLength(both, records[1..], separator);
      SameLast(both, records[0], records[1..], separator);
    } else {
      RegroupedLength(records[0], records[1..], separator);
    }
  }

  lemma {:induction false} RegroupedSame(open: Record, records: seq<Record>, separator: byte)
    requires open != [] && NoneEmpty(records) && Swallowing(open, records, separator) == 0
    ensures Regrouped(open, records, separator) == [open] + records
    decreases |records|
  {
    if records == [] {
    } else {
      RegroupedSame(records[0], records[1..], separator);
      assert [records[0]] + records[1..] == records;
    }
  }

  lemma {:induction false} SameLast(a: Record, b: Record, records: seq<Record>, separator: byte)
    requires a != [] && b != [] && a[|a| - 1] == b[|b| - 1] && NoneEmpty(records)
    ensures Swallowing(a, records, separator) == Swallowing(b, records, separator)
  {
  }

  /** A list splits where it was joined if and only if no record but the last one swallows the next. */
  lemma {:induction false} ListRoundTrip(records: seq<Record>, separator: byte)
    requires records != [] && AllRecords(records, separator)
    ensures var decoded := DecodeItems(WireOf(Flatten(records)), separator);
            var lost := Swallowing(records[0], records[1..], separator);
            && decoded.Ok? && |decoded.value| == |records| - lost
            && (decoded == Ok(Meanings(records)) <==> lost == 0)
  {
    DecodeJoined(records, separator);
    RegroupedLength(records[0], records[1..], separator);
    if Swallowing(records[0], records[1..], separator) == 0 {
      RegroupedSame(records[0], records[1..], separator);
    }
    assert records == [records[0]] + records[1..];
  }
}
