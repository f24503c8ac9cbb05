/**
 HomeKit TLV8: entries of at most 255 bytes, longer values split over repeated
 tags, lists told apart by a separator tag.
 */
module Tlv8 {
  import opened Bytes
  import opened HdsValues

  const MAX_CHUNK: nat := 255

  datatype Error = BadTag | BadNumber | BadText | TruncatedHeader | TruncatedValue

  /** What a caller may pass as a value: text (its UTF-8 form), a small integer, or bytes. */
  datatype Raw = Text(utf8: seq<byte>) | Number(n: int) | Octets(data: seq<byte>)

  datatype Entry = Entry(tag: int, raw: Raw)

  /** An entry after validation. */
  datatype Item = Item(tag: byte, value: seq<byte>)

  /** A piece of the wire form: at most 255 bytes. */
  datatype Segment = Segment(tag: byte, value: seq<byte>)

  // ---------------------------------------------------------------- printing

  function Normalize(raw: Raw): Result<seq<byte>, Error> {
    match raw
    case Text(utf8) => if ValidUtf8(utf8) then Ok(utf8) else Err(BadText)
    case Number(n) => if 0 <= n <= 0xFF then Ok([n]) else Err(BadNumber)
    case Octets(data) => Ok(data)
  }

  function Checked(entry: Entry): Result<Item, Error> {
    if !(0 <= entry.tag <= 0xFF) then Err(BadTag)
    else
      var value :- Normalize(entry.raw);
      Ok(Item(entry.tag, value))
  }

  function CheckedAll(entries: seq<Entry>): (r: Result<seq<Item>, Error>)
    ensures r.Ok? ==> |r.value| == |entries|
  {
    if entries == [] then Ok([])
    else
      var head :- Checked(entries[0]);
      var tail :- CheckedAll(entries[1..]);
      Ok([head] + tail)
  }

  /** The segments of a nonempty value: full chunks and what is left. */
  function Chunks(tag: byte, value: seq<byte>): seq<Segment> {
    if |value| <= MAX_CHUNK then [Segment(tag, value)]
    else [Segment(tag, value[..MAX_CHUNK])] + Chunks(tag, value[MAX_CHUNK..])
  }

  function Fragments(items: seq<Item>): seq<Segment> {
    if items == [] then [] else Chunks(items[0].tag, items[0].value) + Fragments(items[1..])
  }

  predicate Small(segments: seq<Segment>) {
    forall s | s in segments :: |s.value| <= MAX_CHUNK
  }

  function Wire(segments: seq<Segment>): seq<byte>
    requires Small(segments)
  {
    if segments == [] then []
    else [segments[0].tag, |segments[0].value|] + segments[0].value + Wire(segments[1..])
  }

  lemma {:induction false} ChunksAreSmall(tag: byte, value: seq<byte>)
    ensures Small(Chunks(tag, value))
  {
    if |value| <= MAX_CHUNK {
    } else {
      ChunksAreSmall(tag, value[MAX_CHUNK..]);
    }
  }

  lemma {:induction false} FragmentsAreSmall(items: seq<Item>)
    ensures Small(Fragments(items))
  {
    if items == [] {
    } else {
      ChunksAreSmall(items[0].tag, items[0].value);
      FragmentsAreSmall(items[1..]);
    }
  }

  function WireOf(items: seq<Item>): seq<byte> {
    FragmentsAreSmall(items);
    Wire(Fragments(items))
  }

  /** `encode(*entries)`. */
  function EncodeEntries(entries: seq<Entry>): Result<seq<byte>, Error> {
    var items :- CheckedAll(entries);
    Ok(WireOf(items))
  }

  // ---------------------------------------------------------------- parsing

  function Segments(data: seq<byte>): (r: Result<seq<Segment>, Error>)
    ensures r.Ok? ==> Small(r.value)
  {
    if data == [] then Ok([])
    else if |data| < 2 then Err(TruncatedHeader)
    else if 2 + data[1] > |data| then Err(TruncatedValue)
    else
      var rest :- Segments(data[2 + data[1]..]);
      Ok([Segment(data[0], data[2..2 + data[1]])] + rest)
  }

  /** Whether a segment continues the value of the one before it. */
  predicate Continues(segment: Segment, previous: Option<Segment>, result: map<byte, seq<byte>>) {
    && previous.Some? && segment.tag == previous.value.tag
    && |previous.value.value| == MAX_CHUNK && segment.tag in result
  }

  function Merge(result: map<byte, seq<byte>>, segment: Segment, previous: Option<Segment>): map<byte, seq<byte>> {
    if Continues(segment, previous, result) then result[segment.tag := result[segment.tag] + segment.value]
    else result[segment.tag := segment.value]
  }

  function Collect(segments: seq<Segment>, result: map<byte, seq<byte>>, previous: Option<Segment>)
    : map<byte, seq<byte>>
    decreases |segments|
  {
    if segments == [] then result
    else Collect(segments[1..], Merge(result, segments[0], previous), Some(segments[0]))
  }

  /** `decode(data)`. */
  function DecodeMap(data: seq<byte>): Result<map<byte, seq<byte>>, Error> {
    var segments :- Segments(data);
    Ok(Collect(segments, map[], None))
  }

  // ---------------------------------------------------------------- lists

  /** Whether a segment opens a new item of a list. */
  predicate Starts(segment: Segment, current: seq<Segment>, previous: Option<Segment>, separator: byte) {
    && segment.tag == separator && current != []
    && !(previous.Some? && previous.value.tag == separator && |previous.value.value| == MAX_CHUNK)
  }

  function Groups(segments: seq<Segment>, current: seq<Segment>, previous: Option<Segment>, separator: byte)
    : seq<seq<Segment>>
    decreases |segments|
  {
    if segments == [] then if current == [] then [] else [current]
    else if Starts(segments[0], current, previous, separator) then
      [current] + Groups(segments[1..], [segments[0]], Some(segments[0]), separator)
    else Groups(segments[1..], current + [segments[0]], Some(segments[0]), separator)
  }

  function CollectAll(groups: seq<seq<Segment>>): (r: seq<map<byte, seq<byte>>>)
    ensures |r| == |groups|
  {
    if groups == [] then [] else [Collect(groups[0], map[], None)] + CollectAll(groups[1..])
  }

  /** `decode_list(data, separator)`. */
  function DecodeItems(data: seq<byte>, separator: byte): Result<seq<map<byte, seq<byte>>>, Error> {
    var segments :- Segments(data);
    Ok(CollectAll(Groups(segments, [], None, separator)))
  }

  // ---------------------------------------------------------------- fixed-width integers

  function U16(n: nat): seq<byte>
    requires n <= 0xFFFF
  {
    LittleEndian(n, 2)
  }

  function U32(n: nat): seq<byte>
    requires n <= 0xFFFF_FFFF
  {
    LittleEndian(n, 4)
  }

  /** What `u16` and `u32` write, `read_u16` and `read_u32` read back. */
  lemma FixedWidthRoundTrip(n: nat, width: nat)
    requires width == 2 || width == 4
    requires n < Pow256(width)
    ensures FromLittleEndian(LittleEndian(n, width)) == n
    ensures Pow256(2) == 0x1_0000 && Pow256(4) == 0x1_0000_0000
  {
    W16.Capacity();
    W32.Capacity();
    LittleEndianRoundTrip(n, width);
  }
}
