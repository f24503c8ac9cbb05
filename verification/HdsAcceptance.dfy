/**
 Which values can be sent, said of the value alone: every number in its range,
 every text well-formed, nothing nested deeper than 64.
 */
module HdsAcceptance {
  import opened Bytes
  import opened HdsValues
  import HdsCodec
  import HdsCompression

  predicate IntegerFits(n: int, bits: nat)
    requires bits == 8 || bits == 16 || bits == 32 || bits == 64
  {
    match bits
    case 8 => -0x80 <= n <= 0x7F
    case 16 => -0x8000 <= n <= 0x7FFF
    case 32 => -0x8000_0000 <= n <= 0x7FFF_FFFF
    case _ => -0x8000_0000_0000_0000 <= n <= 0x7FFF_FFFF_FFFF_FFFF
  }

  predicate LengthFits(s: seq<byte>) {
    |s| <= 0xFFFF_FFFF_FFFF_FFFF
  }

  /** A value that the encoder accepts with `depth` containers around it. */
  predicate Acceptable(v: Value, depth: nat) {
    && depth <= 64
    && match v
       case Int(n) => IntegerFits(n, 64)
       case Fixed(W8, n) => IntegerFits(n, 8)
       case Fixed(W16, n) => IntegerFits(n, 16)
       case Fixed(W32, n) => IntegerFits(n, 32)
       case Fixed(W64, n) => IntegerFits(n, 64)
       case Float32(_, single) => single.Some?
       case Uuid(_, raw) => raw.Some?
       case Str(utf8) => ValidUtf8(utf8) && LengthFits(utf8)
       case Data(data) => LengthFits(data)
       case Array(items) => depth < 64 && AcceptableItems(items, depth + 1)
       case Dict(entries) => depth < 64 && AcceptableEntries(entries, depth + 1)
       case _ => true
  }

  predicate AcceptableItems(items: seq<Value>, depth: nat) {
    items == [] || (Acceptable(items[0], depth) && AcceptableItems(items[1..], depth))
  }

  predicate AcceptableEntries(entries: seq<Entry>, depth: nat) {
    entries == [] || (AcceptableEntry(entries[0], depth) && AcceptableEntries(entries[1..], depth))
  }

  predicate AcceptableEntry(e: Entry, depth: nat) {
    Acceptable(e.key, depth) && Acceptable(e.val, depth)
  }

  lemma {:induction false} ScalarAccepted(v: Value, depth: nat)
    requires Tracked(v) && depth <= 64
    ensures HdsCompression.UnsharedScalar(v).Ok? <==> Acceptable(v, depth)
  {
  }

  lemma {:induction false} ValueAccepted(v: Value, depth: nat)
    ensures HdsCompression.Unshared(v, depth).Ok? <==> Acceptable(v, depth)
  {
    if depth <= 64 {
      match v
      case Null =>
      case Array(items) => ItemsAccepted(items, depth + 1);
      case Dict(entries) => EntriesAccepted(entries, depth + 1);
      case _ => ScalarAccepted(v, depth);
    }
  }

  lemma {:induction false} ItemsAccepted(items: seq<Value>, depth: nat)
    ensures HdsCompression.UnsharedItems(items, depth).Ok? <==> AcceptableItems(items, depth)
  {
    if items == [] {
    } else {
      ValueAccepted(items[0], depth);
      ItemsAccepted(items[1..], depth);
    }
  }

  lemma {:induction false} EntriesAccepted(entries: seq<Entry>, depth: nat)
    ensures HdsCompression.UnsharedEntries(entries, depth).Ok? <==> AcceptableEntries(entries, depth)
  {
    if entries == [] {
    } else {
      EntryAccepted(entries[0], depth);
      EntriesAccepted(entries[1..], depth);
    }
  }

  lemma {:induction false} EntryAccepted(e: Entry, depth: nat)
    ensures HdsCompression.UnsharedEntry(e, depth).Ok? <==> AcceptableEntry(e, depth)
  {
    ValueAccepted(e.key, depth);
    ValueAccepted(e.val, depth);
  }

  /** The encoder accepts exactly the acceptable values, whatever repeats in them. */
  lemma {:induction false} EncodeAccepts(v: Value)
    ensures HdsCodec.Encode(v).Ok? <==> Acceptable(v, 0)
  {
    HdsCompression.CompressionNeverHurts(v);
    ValueAccepted(v, 0);
  }

  // ---------------------------------------------------------------- how long it gets

  /** A text or a blob with the bytes before it. */
  function SizedLength(n: nat): nat {
    n + if n <= 32 then 1 else if n <= 0xFF then 2 else if n <= 0xFFFF then 3 else if n <= 0xFFFF_FFFF then 5 else 9
  }

  function ScalarLength(v: Value): nat
    requires Tracked(v)
  {
    match v
    case Bool(_) => 1
    case Int(n) =>
      if -1 <= n <= 39 then 1
      else if IntegerFits(n, 8) then 2
      else if IntegerFits(n, 16) then 3
      else if IntegerFits(n, 32) then 5
      else 9
    case Fixed(W8, _) => 2
    case Fixed(W16, _) => 3
    case Fixed(W32, _) => 5
    case Fixed(W64, _) => 9
    case Float32(_, _) => 5
    case Uuid(_, _) => 17
    case Str(utf8) => SizedLength(|utf8|)
    case Data(data) => SizedLength(|data|)
    case _ => 9
  }

  /** The length of a value in which nothing repeats. */
  function Length(v: Value): nat {
    match v
    case Null => 1
    case Array(items) => ItemsLength(items) + if |items| <= 12 then 1 else 2
    case Dict(entries) => EntriesLength(entries) + if |entries| <= 14 then 1 else 2
    case _ => ScalarLength(v)
  }

  function ItemsLength(items: seq<Value>): nat {
    if items == [] then 0 else Length(items[0]) + ItemsLength(items[1..])
  }

  function EntriesLength(entries: seq<Entry>): nat {
    if entries == [] then 0 else EntryLength(entries[0]) + EntriesLength(entries[1..])
  }

  function EntryLength(e: Entry): nat {
    Length(e.key) + Length(e.val)
  }

  lemma {:induction false} ScalarIsLong(v: Value)
    requires Tracked(v) && HdsCompression.UnsharedScalar(v).Ok?
    ensures |HdsCompression.UnsharedScalar(v).value| == ScalarLength(v)
  {
  }

  lemma {:induction false} ValueIsLong(v: Value, depth: nat)
    requires HdsCompression.Unshared(v, depth).Ok?
    ensures |HdsCompression.Unshared(v, depth).value| == Length(v)
  {
    match v
    case Null =>
    case Array(items) => ItemsAreLong(items, depth + 1);
    case Dict(entries) => EntriesAreLong(entries, depth + 1);
    case _ => ScalarIsLong(v);
  }

  lemma {:induction false} ItemsAreLong(items: seq<Value>, depth: nat)
    requires HdsCompression.UnsharedItems(items, depth).Ok?
    ensures |HdsCompression.UnsharedItems(items, depth).value| == ItemsLength(items)
  {
    if items == [] {
    } else {
      ValueIsLong(items[0], depth);
      ItemsAreLong(items[1..], depth);
    }
  }

  lemma {:induction false} EntriesAreLong(entries: seq<Entry>, depth: nat)
    requires HdsCompression.UnsharedEntries(entries, depth).Ok?
    ensures |HdsCompression.UnsharedEntries(entries, depth).value| == EntriesLength(entries)
  {
    if entries == [] {
    } else {
      EntryIsLong(entries[0], depth);
      EntriesAreLong(entries[1..], depth);
    }
  }

  lemma {:induction false} EntryIsLong(e: Entry, depth: nat)
    requires HdsCompression.UnsharedEntry(e, depth).Ok?
    ensures |HdsCompression.UnsharedEntry(e, depth).value| == EntryLength(e)
  {
    ValueIsLong(e.key, depth);
    ValueIsLong(e.val, depth);
  }

  /** An encoding has the length of its value, or less where something repeats. */
  lemma {:induction false} EncodingLength(v: Value)
    requires Acceptable(v, 0)
    ensures HdsCodec.Encode(v).Ok? && |HdsCodec.Encode(v).value| <= Length(v)
    ensures HdsCompression.Fresh(HdsCompression.Scalars(v), []) ==> |HdsCodec.Encode(v).value| == Length(v)
  {
    EncodeAccepts(v);
    HdsCompression.CompressionNeverHurts(v);
    ValueIsLong(v, 0);
  }
}
