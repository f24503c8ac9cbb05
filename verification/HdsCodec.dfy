/**
 The HomeKit Data Stream codec as a pair of functions: what `Encoder` prints for
 a value given its table, and what `Decoder` reads off a byte string given its
 own. Decoding returns the unread suffix.
 */
module HdsCodec {
  import opened Bytes
  import opened HdsValues

  const MAX_DEPTH: nat := 64
  const MAX_REF: nat := 0xCF - 0xA0

  const TRUE_TAG: byte := 0x01
  const FALSE_TAG: byte := 0x02
  const TERMINATOR: byte := 0x03
  const NULL: byte := 0x04
  const UUID: byte := 0x05
  const DATE: byte := 0x06
  const INTEGER_MINUS_ONE: byte := 0x07
  const INTEGER_0: byte := 0x08
  const INTEGER_39: byte := 0x2E  // as the source defines it: the tag of 38
  const INT8: byte := 0x30
  const INT16: byte := 0x31
  const INT32: byte := 0x32
  const INT64: byte := 0x33
  const FLOAT32: byte := 0x35
  const FLOAT64: byte := 0x36
  const UTF8_SHORT: byte := 0x40
  const UTF8_SHORT_END: byte := 0x60
  const UTF8_8: byte := 0x61
  const UTF8_64: byte := 0x64
  const UTF8_NULL: byte := 0x6F
  const DATA_SHORT: byte := 0x70
  const DATA_SHORT_END: byte := 0x90
  const DATA_8: byte := 0x91
  const DATA_64: byte := 0x94
  const DATA_TERMINATED: byte := 0x9F
  const COMPRESS: byte := 0xA0
  const COMPRESS_END: byte := 0xCF
  const ARRAY: byte := 0xD0
  const ARRAY_END: byte := 0xDE
  const ARRAY_TERMINATED: byte := 0xDF
  const DICT: byte := 0xE0
  const DICT_END: byte := 0xEE
  const DICT_TERMINATED: byte := 0xEF

  datatype Error =
    | DepthExceeded
    | IntegerOverflow
    | LengthOverflow
    | PackFailed
    | BadUtf8
    | Truncated
    | Unterminated
    | InvalidTag
    | UnknownTag
    | BadReference
    | UnhashableKey
    | UnexpectedTerminator
    | TrailingBytes

  // ---------------------------------------------------------------- encoder

  /**
   What a run of the printer appended, and its table afterwards, whose values stand for all
   that Python holds equal to them.
   */
  datatype Printed = Printed(bytes: seq<byte>, seen: seq<Value>)

  /** `seen.index(v)`. */
  function IndexOf(seen: seq<Value>, v: Value): (r: Option<nat>)
    ensures r.None? <==> v !in seen
    ensures r.Some? ==> r.value < |seen| && seen[r.value] == v && v !in seen[..r.value]
  {
    if seen == [] then None
    else if seen[0] == v then Some(0)
    else match IndexOf(seen[1..], v) case None => None case Some(i) => Some(i + 1)
  }

  /** Booleans and the small integers: one byte, tracked but never searched for. */
  predicate Immediate(v: Value) {
    v.Bool? || (v.Int? && -1 <= v.n <= 39)
  }

  function ImmediateTag(v: Value): byte
    requires Immediate(v)
  {
    match v
    case Bool(b) => if b then TRUE_TAG else FALSE_TAG
    case Int(n) => if n == -1 then INTEGER_MINUS_ONE else INTEGER_0 + n
  }

  /** The value a scalar is searched and stored as. */
  function Wrap(v: Value): Result<Value, Error>
    requires Tracked(v) && !Immediate(v)
  {
    match v
    case Int(n) =>
      if W8.Holds(n) then Ok(Fixed(W8, n))
      else if W16.Holds(n) then Ok(Fixed(W16, n))
      else if W32.Holds(n) then Ok(Fixed(W32, n))
      else if W64.Holds(n) then Ok(Fixed(W64, n))
      else Err(IntegerOverflow)
    case Float(bits) => Ok(Float64(bits))
    case _ => Ok(v)
  }

  /** What `==` between wrappers looks at: a wrapped -0.0 equals a wrapped 0.0. */
  function Unsigned(v: Value): Value {
    match v
    case Float32(bits, single) =>
      Float32(UnsignedZero(bits), match single case Some(s) => Some(UnsignedZero(s)) case None => None)
    case Float64(bits) => Float64(UnsignedZero(bits))
    case Date(bits) => Date(UnsignedZero(bits))
    case _ => v
  }

  function WidthTag(w: Width): byte {
    match w case W8 => INT8 case W16 => INT16 case W32 => INT32 case W64 => INT64
  }

  /** `_length`: one of four consecutive tags and a length of 1, 2, 4 or 8 bytes. */
  function LengthPrefix(n: nat, first: byte): (r: Result<seq<byte>, Error>)
    requires first <= 252
  {
    if n <= 0xFF then Ok([first, n])
    else if n <= 0xFFFF then Ok([first + 1] + LittleEndian(n, 2))
    else if n <= 0xFFFF_FFFF then Ok([first + 2] + LittleEndian(n, 4))
    else if n <= 0xFFFF_FFFF_FFFF_FFFF then Ok([first + 3] + LittleEndian(n, 8))
    else Err(LengthOverflow)
  }

  /** The short form up to 32 bytes, a length prefix above. */
  function Sized(data: seq<byte>, short: byte, first: byte): Result<seq<byte>, Error>
    requires short <= 200 && first <= 252
  {
    if |data| <= 32 then Ok([short + |data|] + data)
    else
      var prefix :- LengthPrefix(|data|, first);
      Ok(prefix + data)
  }

  /** The bytes of a wrapped scalar written out in full. */
  function Literal(v: Value): Result<seq<byte>, Error>
    requires Tracked(v) && !v.Int? && !v.Bool? && !v.Float?
  {
    match v
    case Fixed(w, n) => if w.Holds(n) then Ok([WidthTag(w)] + w.Pack(n)) else Err(PackFailed)
    case Float32(_, single) => if single.Some? then Ok([FLOAT32] + single.value) else Err(PackFailed)
    case Float64(bits) => Ok([FLOAT64] + bits)
    case Date(bits) => Ok([DATE] + bits)
    case Uuid(_, raw) => if raw.Some? then Ok([UUID] + raw.value) else Err(PackFailed)
    case Str(utf8) => if ValidUtf8(utf8) then Sized(utf8, UTF8_SHORT, UTF8_8) else Err(BadUtf8)
    case Data(data) => Sized(data, DATA_SHORT, DATA_8)
  }

  function EncScalar(v: Value, seen: seq<Value>): Result<Printed, Error>
    requires Tracked(v)
  {
    if Immediate(v) then Ok(Printed([ImmediateTag(v)], seen + [v]))
    else
      var k :- Wrap(v);
      match IndexOf(seen, Unsigned(k))
      case None =>
        var literal :- Literal(k);
        Ok(Printed(literal, seen + [Unsigned(k)]))
      case Some(index) =>
        if index <= MAX_REF then Ok(Printed([COMPRESS + index], seen))
        else
          var literal :- Literal(k);
          Ok(Printed(literal, seen))
  }

  function EncValue(v: Value, seen: seq<Value>, depth: nat): Result<Printed, Error> {
    if depth > MAX_DEPTH then Err(DepthExceeded)
    else
      match v
      case Null => Ok(Printed([NULL], seen))
      case Array(items) =>
        if depth + 1 > MAX_DEPTH then Err(DepthExceeded)
        else
          var body :- EncItems(items, seen, depth + 1);
          if |items| <= 12 then Ok(Printed([ARRAY + |items|] + body.bytes, body.seen))
          else Ok(Printed([ARRAY_TERMINATED] + body.bytes + [TERMINATOR], body.seen))
      case Dict(entries) =>
        if depth + 1 > MAX_DEPTH then Err(DepthExceeded)
        else
          var body :- EncEntries(entries, seen, depth + 1);
          if |entries| <= 14 then Ok(Printed([DICT + |entries|] + body.bytes, body.seen))
          else Ok(Printed([DICT_TERMINATED] + body.bytes + [TERMINATOR], body.seen))
      case _ => EncScalar(v, seen)
  }

  function EncItems(items: seq<Value>, seen: seq<Value>, depth: nat): Result<Printed, Error> {
    if items == [] then Ok(Printed([], seen))
    else
      var head :- EncValue(items[0], seen, depth);
      var tail :- EncItems(items[1..], head.seen, depth);
      Ok(Printed(head.bytes + tail.bytes, tail.seen))
  }

  function EncEntry(e: Entry, seen: seq<Value>, depth: nat): Result<Printed, Error> {
    var key :- EncValue(e.key, seen, depth);
    var val :- EncValue(e.val, key.seen, depth);
    Ok(Printed(key.bytes + val.bytes, val.seen))
  }

  function EncEntries(entries: seq<Entry>, seen: seq<Value>, depth: nat): Result<Printed, Error> {
    if entries == [] then Ok(Printed([], seen))
    else
      var head :- EncEntry(entries[0], seen, depth);
      var tail :- EncEntries(entries[1..], head.seen, depth);
      Ok(Printed(head.bytes + tail.bytes, tail.seen))
  }

  function Encode(v: Value): Result<seq<byte>, Error> {
    var printed :- EncValue(v, [], 0);
    Ok(printed.bytes)
  }

  // ---------------------------------------------------------------- decoder

  /** What the reader took off the front, what is left, and its table afterwards. */
  datatype Parsed<+T> = Parsed(value: T, rest: seq<byte>, seen: seq<Plain>)

  datatype Taken<+T> = Taken(value: T, rest: seq<byte>)

  function Take(bs: seq<byte>, count: nat): Result<Taken<seq<byte>>, Error> {
    if count > |bs| then Err(Truncated) else Ok(Taken(bs[..count], bs[count..]))
  }

  /** `_read_terminated`: everything up to the first `stop`, which is dropped. */
  function TakeUntil(bs: seq<byte>, stop: byte): (r: Result<Taken<seq<byte>>, Error>)
    ensures r.Ok? ==> |r.value.value| + |r.value.rest| < |bs|
  {
    if bs == [] then Err(Unterminated)
    else if bs[0] == stop then Ok(Taken([], bs[1..]))
    else
      var t :- TakeUntil(bs[1..], stop);
      Ok(Taken([bs[0]] + t.value, t.rest))
  }

  /** A length of `width` bytes and then that many bytes. */
  function TakeSized(bs: seq<byte>, width: nat): Result<Taken<seq<byte>>, Error> {
    var length :- Take(bs, width);
    Take(length.rest, FromLittleEndian(length.value))
  }

  function LengthWidth(tag: byte, first: byte): nat
    requires first <= tag <= first + 3
  {
    if tag == first then 1 else if tag == first + 1 then 2 else if tag == first + 2 then 4 else 8
  }

  /** The tags whose value the decoder adds to its table. */
  predicate LiteralTag(tag: byte) {
    || TRUE_TAG <= tag <= FALSE_TAG || UUID <= tag <= INTEGER_39
    || INT8 <= tag <= INT64 || FLOAT32 <= tag <= FLOAT64
    || UTF8_SHORT <= tag <= UTF8_64 || tag == UTF8_NULL
    || DATA_SHORT <= tag <= DATA_64 || tag == DATA_TERMINATED
  }

  /** How much of the payload a tag claims. */
  datatype Extent = Exactly(count: nat) | Prefixed(width: nat) | UpTo(stop: byte)

  function ExtentOf(tag: byte): Extent
    requires LiteralTag(tag)
  {
    if tag == UUID then Exactly(16)
    else if tag == DATE || tag == FLOAT64 || tag == INT64 then Exactly(8)
    else if tag <= INTEGER_39 then Exactly(0)
    else if tag == INT8 then Exactly(1)
    else if tag == INT16 then Exactly(2)
    else if tag == INT32 || tag == FLOAT32 then Exactly(4)
    else if tag <= UTF8_SHORT_END then Exactly(tag - UTF8_SHORT)
    else if tag <= UTF8_64 then Prefixed(LengthWidth(tag, UTF8_8))
    else if tag == UTF8_NULL then UpTo(0)
    else if tag <= DATA_SHORT_END then Exactly(tag - DATA_SHORT)
    else if tag <= DATA_64 then Prefixed(LengthWidth(tag, DATA_8))
    else UpTo(TERMINATOR)
  }

  function TakeExtent(bs: seq<byte>, extent: Extent): (r: Result<Taken<seq<byte>>, Error>)
    ensures r.Ok? ==> |r.value.rest| + |r.value.value| <= |bs|
    ensures r.Ok? && extent.Exactly? ==> |r.value.value| == extent.count
  {
    match extent
    case Exactly(count) => Take(bs, count)
    case Prefixed(width) => TakeSized(bs, width)
    case UpTo(stop) => TakeUntil(bs, stop)
  }

  /** The scalar that a tag makes of its payload. */
  function ScalarOf(tag: byte, raw: seq<byte>): Result<Plain, Error>
    requires LiteralTag(tag) && (ExtentOf(tag).Exactly? ==> |raw| == ExtentOf(tag).count)
  {
    if tag <= FALSE_TAG then Ok(PyBool(tag == TRUE_TAG))
    else if tag == UUID then Ok(PyStr(UuidText(raw)))
    else if tag == DATE || tag == FLOAT32 || tag == FLOAT64 then Ok(PyFloat(UnsignedZero(raw)))
    else if tag == INTEGER_MINUS_ONE then Ok(PyInt(-1))
    else if tag <= INTEGER_39 then Ok(PyInt(tag - INTEGER_0))
    else if tag == INT8 then Ok(PyInt(W8.Unpack(raw)))
    else if tag == INT16 then Ok(PyInt(W16.Unpack(raw)))
    else if tag == INT32 then Ok(PyInt(W32.Unpack(raw)))
    else if tag == INT64 then Ok(PyInt(W64.Unpack(raw)))
    else if tag >= DATA_SHORT then Ok(PyBytes(raw))
    else if ValidUtf8(raw) then Ok(PyStr(raw))
    else Err(BadUtf8)
  }

  function DecLiteral(tag: byte, bs: seq<byte>): (r: Result<Taken<Plain>, Error>)
    requires LiteralTag(tag)
    ensures r.Ok? ==> |r.value.rest| <= |bs|
  {
    var raw :- TakeExtent(bs, ExtentOf(tag));
    var scalar :- ScalarOf(tag, raw.value);
    Ok(Taken(scalar, raw.rest))
  }

  function DecValue(bs: seq<byte>, seen: seq<Plain>, depth: nat): (r: Result<Parsed<Plain>, Error>)
    ensures r.Ok? ==> |r.value.rest| < |bs|
    decreases |bs|, 0
  {
    if depth > MAX_DEPTH then Err(DepthExceeded)
    else if bs == [] then Err(Truncated)
    else
      var tag, rest := bs[0], bs[1..];
      if tag == 0 then Err(InvalidTag)
      else if tag == TERMINATOR then Ok(Parsed(PyTerminator, rest, seen))
      else if tag == NULL then Ok(Parsed(PyNone, rest, seen))
      else if LiteralTag(tag) then
        var t :- DecLiteral(tag, rest);
        Ok(Parsed(t.value, t.rest, seen + [t.value]))
      else if COMPRESS <= tag <= COMPRESS_END then
        if tag - COMPRESS >= |seen| then Err(BadReference)
        else Ok(Parsed(seen[tag - COMPRESS], rest, seen))
      else if ARRAY <= tag <= ARRAY_TERMINATED then DecArray(tag, rest, seen, depth + 1)
      else if DICT <= tag <= DICT_TERMINATED then DecDict(tag, rest, seen, depth + 1)
      else Err(UnknownTag)
  }

  /** The items after an array tag: a count in the tag, or up to a terminator. */
  function DecArray(tag: byte, bs: seq<byte>, seen: seq<Plain>, depth: nat): (r: Result<Parsed<Plain>, Error>)
    requires ARRAY <= tag <= ARRAY_TERMINATED
    ensures r.Ok? ==> |r.value.rest| <= |bs|
    decreases |bs|, 4
  {
    var p :-
      if tag == ARRAY_TERMINATED then DecItemsOpen(bs, seen, depth, [])
      else DecItems(bs, seen, depth, tag - ARRAY, []);
    Ok(Parsed(PyList(p.value), p.rest, p.seen))
  }

  /** The entries after a dictionary tag. */
  function DecDict(tag: byte, bs: seq<byte>, seen: seq<Plain>, depth: nat): (r: Result<Parsed<Plain>, Error>)
    requires DICT <= tag <= DICT_TERMINATED
    ensures r.Ok? ==> |r.value.rest| <= |bs|
    decreases |bs|, 4
  {
    var p :-
      if tag == DICT_TERMINATED then DecEntriesOpen(bs, seen, depth, [])
      else DecEntries(bs, seen, depth, tag - DICT, []);
    Ok(Parsed(PyDict(p.value), p.rest, p.seen))
  }

  /** The loop over a fixed count of items; `acc` holds those already read. */
  function DecItems(bs: seq<byte>, seen: seq<Plain>, depth: nat, count: nat, acc: seq<Plain>)
    : (r: Result<Parsed<seq<Plain>>, Error>)
    ensures r.Ok? ==> |r.value.rest| <= |bs|
    decreases |bs|, 1, count
  {
    if count == 0 then Ok(Parsed(acc, bs, seen))
    else
      var p :- DecValue(bs, seen, depth);
      DecItems(p.rest, p.seen, depth, count - 1, acc + [p.value])
  }

  function DecItemsOpen(bs: seq<byte>, seen: seq<Plain>, depth: nat, acc: seq<Plain>)
    : (r: Result<Parsed<seq<Plain>>, Error>)
    ensures r.Ok? ==> |r.value.rest| < |bs|
    decreases |bs|, 1
  {
    var p :- DecValue(bs, seen, depth);
    if p.value.PyTerminator? then Ok(Parsed(acc, p.rest, p.seen))
    else DecItemsOpen(p.rest, p.seen, depth, acc + [p.value])
  }

  /** One `result[key] = value`, the key already read. */
  function DecInto(bs: seq<byte>, seen: seq<Plain>, depth: nat, key: Plain, acc: seq<Pair>)
    : (r: Result<Parsed<seq<Pair>>, Error>)
    ensures r.Ok? ==> |r.value.rest| < |bs|
    decreases |bs|, 1
  {
    var p :- DecValue(bs, seen, depth);
    if !Hashable(key) then Err(UnhashableKey)
    else Ok(Parsed(Insert(acc, key, p.value), p.rest, p.seen))
  }

  function DecEntry(bs: seq<byte>, seen: seq<Plain>, depth: nat, acc: seq<Pair>)
    : (r: Result<Parsed<seq<Pair>>, Error>)
    ensures r.Ok? ==> |r.value.rest| < |bs|
    decreases |bs|, 2
  {
    var k :- DecValue(bs, seen, depth);
    DecInto(k.rest, k.seen, depth, k.value, acc)
  }

  function DecEntries(bs: seq<byte>, seen: seq<Plain>, depth: nat, count: nat, acc: seq<Pair>)
    : (r: Result<Parsed<seq<Pair>>, Error>)
    ensures r.Ok? ==> |r.value.rest| <= |bs|
    decreases |bs|, 3, count
  {
    if count == 0 then Ok(Parsed(acc, bs, seen))
    else
      var d :- DecEntry(bs, seen, depth, acc);
      DecEntries(d.rest, d.seen, depth, count - 1, d.value)
  }

  /** An entry, or the terminator where a key should be. */
  function DecEntryOpen(bs: seq<byte>, seen: seq<Plain>, depth: nat, acc: seq<Pair>)
    : (r: Result<Parsed<Option<seq<Pair>>>, Error>)
    ensures r.Ok? ==> |r.value.rest| < |bs|
    decreases |bs|, 2
  {
    var k :- DecValue(bs, seen, depth);
    if k.value.PyTerminator? then Ok(Parsed(None, k.rest, k.seen))
    else
      var d :- DecInto(k.rest, k.seen, depth, k.value, acc);
      Ok(Parsed(Some(d.value), d.rest, d.seen))
  }

  function DecEntriesOpen(bs: seq<byte>, seen: seq<Plain>, depth: nat, acc: seq<Pair>)
    : (r: Result<Parsed<seq<Pair>>, Error>)
    ensures r.Ok? ==> |r.value.rest| < |bs|
    decreases |bs|, 3
  {
    var d :- DecEntryOpen(bs, seen, depth, acc);
    if d.value.None? then Ok(Parsed(acc, d.rest, d.seen))
    else DecEntriesOpen(d.rest, d.seen, depth, d.value.value)
  }

  function Decode(bs: seq<byte>): Result<Plain, Error> {
    var p :- DecValue(bs, [], 0);
    if p.value.PyTerminator? then Err(UnexpectedTerminator)
    else if p.rest != [] then Err(TrailingBytes)
    else Ok(p.value)
  }
}
