/**
 The values of a HomeKit Data Stream message: what the encoder is handed, what
 the decoder hands back, and how the one is read as the other.
 */
module HdsValues {
  import opened Bytes

  type Bits32 = s: seq<byte> | |s| == 4 witness [0, 0, 0, 0]
  type Bits64 = s: seq<byte> | |s| == 8 witness [0, 0, 0, 0, 0, 0, 0, 0]
  type Bits128 = s: seq<byte> | |s| == 16 witness [0, 0, 0, 0, 0, 0, 0, 0, 0, 0, 0, 0, 0, 0, 0, 0]

  /** The four fixed-width integer wrappers `Int8` .. `Int64`. */
  datatype Width = W8 | W16 | W32 | W64 {
    function Size(): nat {
      match this case W8 => 1 case W16 => 2 case W32 => 4 case W64 => 8
    }

    /** Half the number of bit patterns: values lie in -Half() .. Half()-1. */
    function Half(): nat {
      match this
      case W8 => 0x80
      case W16 => 0x8000
      case W32 => 0x8000_0000
      case W64 => 0x8000_0000_0000_0000
    }

    predicate Holds(n: int) {
      && -(Half() as int) <= n < Half()
    }

    /** Two's complement, little-endian. */
    function Pack(n: int): (bs: seq<byte>)
      requires Holds(n)
      ensures |bs| == Size()
    {
      LittleEndian(if n < 0 then n + 2 * Half() else n, Size())
    }

    function Unpack(bs: seq<byte>): int {
      var u := FromLittleEndian(bs);
      if u >= Half() then u - 2 * Half() else u
    }

    lemma Capacity()
      ensures 2 * Half() == Pow256(Size())
    {
      assert Pow256(1) == 0x100 && Pow256(2) == 0x1_0000;
      assert Pow256(4) == 0x1_0000 * Pow256(2);
      assert Pow256(8) == 0x1_0000_0000 * Pow256(4);
    }

    lemma PackRoundTrip(n: int)
      requires Holds(n)
      ensures Unpack(Pack(n)) == n
    {
      Capacity();
      LittleEndianRoundTrip(if n < 0 then n + 2 * Half() else n, Size());
    }
  }

  /**
   A value as the caller builds it. A text is its UTF-8 form; one holding lone
   surrogates is the byte string that is not valid UTF-8. A wrapper whose payload
   `struct.pack` or `uuid.UUID` may reject carries the packed form beside the
   Python value that decides equality.
   */
  datatype Value =
    | Null
    | Bool(b: bool)
    | Int(n: int)
    | Float(bits: Bits64)
    | Fixed(width: Width, n: int)
    | Float32(bits: Bits64, single: Option<Bits32>)
    | Float64(bits: Bits64)
    | Date(bits: Bits64)
    | Uuid(text: seq<byte>, raw: Option<Bits128>)
    | Str(utf8: seq<byte>)
    | Data(data: seq<byte>)
    | Array(items: seq<Value>)
    | Dict(entries: seq<Entry>)
  datatype Entry = Entry(key: Value, val: Value)

  /**
   A value as the decoder returns it: wrappers are gone, and so is the sign of a zero, which
   Python's `==` ignores.
   */
  datatype Plain =
    | PyNone
    | PyBool(b: bool)
    | PyInt(n: int)
    | PyFloat(bits: seq<byte>)
    | PyStr(utf8: seq<byte>)
    | PyBytes(data: seq<byte>)
    | PyList(items: seq<Plain>)
    | PyDict(entries: seq<Pair>)
    | PyTerminator
  datatype Pair = Pair(key: Plain, val: Plain)

  // ---------------------------------------------------------------- floats

  /** The bits of a float, those of 0.0 for -0.0. */
  function UnsignedZero(bits: seq<byte>): (r: seq<byte>)
    ensures |r| == |bits|
  {
    if bits == [0, 0, 0, 0x80] then [0, 0, 0, 0]
    else if bits == [0, 0, 0, 0, 0, 0, 0, 0x80] then [0, 0, 0, 0, 0, 0, 0, 0]
    else bits
  }

  predicate IsNan(bits: Bits64) {
    FromLittleEndian(bits) % 0x8000_0000_0000_0000 > 0x7FF0_0000_0000_0000
  }

  /** No NaN anywhere: Python tells NaNs apart by the object they are. */
  predicate NoNan(v: Value) {
    match v
    case Float(bits) => !IsNan(bits)
    case Float32(bits, _) => !IsNan(bits)
    case Float64(bits) => !IsNan(bits)
    case Date(bits) => !IsNan(bits)
    case Array(items) => NoNanItems(items)
    case Dict(entries) => NoNanEntries(entries)
    case _ => true
  }

  predicate NoNanItems(items: seq<Value>) {
    items == [] || (NoNan(items[0]) && NoNanItems(items[1..]))
  }

  predicate NoNanEntries(entries: seq<Entry>) {
    entries == [] || (NoNanEntry(entries[0]) && NoNanEntries(entries[1..]))
  }

  predicate NoNanEntry(e: Entry) {
    NoNan(e.key) && NoNan(e.val)
  }

  // ---------------------------------------------------------------- text

  predicate Continuation(b: byte) {
    0x80 <= b <= 0xBF
  }

  /** Well-formed UTF-8, section 4 of RFC 3629. */
  predicate ValidUtf8(s: seq<byte>) {
    if s == [] then true
    else if s[0] < 0x80 then ValidUtf8(s[1..])
    else if |s| < 2 then false
    else if 0xC2 <= s[0] <= 0xDF then Continuation(s[1]) && ValidUtf8(s[2..])
    else if |s| < 3 then false
    else if 0xE0 <= s[0] <= 0xEF then
      && (if s[0] == 0xE0 then 0xA0 <= s[1] <= 0xBF
          else if s[0] == 0xED then 0x80 <= s[1] <= 0x9F
          else Continuation(s[1]))
      && Continuation(s[2]) && ValidUtf8(s[3..])
    else if |s| < 4 then false
    else
      && 0xF0 <= s[0] <= 0xF4
      && (if s[0] == 0xF0 then 0x90 <= s[1] <= 0xBF
          else if s[0] == 0xF4 then 0x80 <= s[1] <= 0x8F
          else Continuation(s[1]))
      && Continuation(s[2]) && Continuation(s[3]) && ValidUtf8(s[4..])
  }

  function HexDigit(n: int): byte
    requires 0 <= n < 16
  {
    if n < 10 then 48 + n else 87 + n
  }

  function Hex(bs: seq<byte>): seq<byte> {
    if bs == [] then [] else [HexDigit(bs[0] / 16), HexDigit(bs[0] % 16)] + Hex(bs[1..])
  }

  /** The canonical 8-4-4-4-12 text of a UUID. */
  function UuidText(raw: Bits128): seq<byte> {
    Hex(raw[..4]) + [45] + Hex(raw[4..6]) + [45] + Hex(raw[6..8]) + [45] + Hex(raw[8..10]) + [45] + Hex(raw[10..])
  }

  // ---------------------------------------------------------------- dictionaries

  /** The number `mantissa` times 2 to the `exponent`, in lowest terms. */
  datatype Number = Dyadic(mantissa: int, exponent: int) | Infinite(negative: bool) | NoNumber

  function Lowest(mantissa: int, exponent: int): Number
    decreases if mantissa < 0 then -mantissa else mantissa
  {
    if mantissa == 0 then Dyadic(0, 0)
    else if mantissa % 2 == 0 then Lowest(mantissa / 2, exponent + 1)
    else Dyadic(mantissa, exponent)
  }

  /**
   A binary float: `fraction` patterns below its leading one, `exponents` exponents, its
   smallest unit 2 to the `smallest`.
   */
  function FloatNumber(u: nat, fraction: nat, exponents: nat, smallest: int): Number
    requires fraction > 0 && exponents > 1
  {
    var low, exponent, negative := u % fraction, u / fraction % exponents, u / fraction >= exponents;
    if exponent == exponents - 1 then if low == 0 then Infinite(negative) else NoNumber
    else
      var mantissa := if exponent == 0 then low else fraction + low;
      Lowest(if negative then -mantissa else mantissa, smallest + if exponent == 0 then 0 else exponent - 1)
  }

  function NumberOf(p: Plain): Number {
    match p
    case PyBool(b) => Lowest(if b then 1 else 0, 0)
    case PyInt(n) => Lowest(n, 0)
    case PyFloat(bits) =>
      if |bits| == 8 then FloatNumber(FromLittleEndian(bits), 0x10_0000_0000_0000, 0x800, -1074)
      else if |bits| == 4 then FloatNumber(FromLittleEndian(bits), 0x80_0000, 0x100, -149)
      else NoNumber
    case _ => NoNumber
  }

  predicate SameNumber(a: Plain, b: Plain) {
    a == b || (NumberOf(a) != NoNumber && NumberOf(a) == NumberOf(b))
  }

  /**
   Python's `==` on hashable keys: True, 1 and 1.0 are one key. Of NaNs, which Python tells
   apart by object, the bits decide.
   */
  predicate KeyEq(a: Plain, b: Plain) {
    match (a, b)
    case (PyBool(x), PyInt(n)) => n == (if x then 1 else 0)
    case (PyInt(n), PyBool(x)) => n == (if x then 1 else 0)
    case (PyFloat(_), _) => SameNumber(a, b)
    case (_, PyFloat(_)) => SameNumber(a, b)
    case _ => a == b
  }

  predicate Hashable(p: Plain) {
    !p.PyList? && !p.PyDict?
  }

  /** `d[key] = val`: an equal key keeps its place and its first spelling. */
  function Insert(d: seq<Pair>, key: Plain, val: Plain): seq<Pair> {
    if d == [] then [Pair(key, val)]
    else if KeyEq(d[0].key, key) then [Pair(d[0].key, val)] + d[1..]
    else [d[0]] + Insert(d[1..], key, val)
  }

  predicate HasKey(d: seq<Pair>, key: Plain) {
    exists i | 0 <= i < |d| :: KeyEq(d[i].key, key)
  }

  // ---------------------------------------------------------------- meaning

  /** The scalars both sides put in their table of back references. */
  predicate Tracked(v: Value) {
    !v.Null? && !v.Array? && !v.Dict?
  }

  /** What a tracked scalar reads back as. */
  function EraseScalar(v: Value): Plain
    requires Tracked(v)
  {
    match v
    case Bool(b) => PyBool(b)
    case Int(n) => PyInt(n)
    case Float(bits) => PyFloat(UnsignedZero(bits))
    case Fixed(_, n) => PyInt(n)
    case Float32(_, single) => PyFloat(if single.Some? then UnsignedZero(single.value) else [])
    case Float64(bits) => PyFloat(UnsignedZero(bits))
    case Date(bits) => PyFloat(UnsignedZero(bits))
    case Uuid(text, raw) => PyStr(if raw.Some? then UuidText(raw.value) else text)
    case Str(utf8) => PyStr(utf8)
    case Data(data) => PyBytes(data)
  }

  /** A value with its wrappers dropped and everything else in place. */
  function Erase(v: Value): Plain {
    match v
    case Null => PyNone
    case Array(items) => PyList(EraseItems(items))
    case Dict(entries) => PyDict(EraseEntries(entries))
    case _ => EraseScalar(v)
  }

  function EraseItems(items: seq<Value>): (ps: seq<Plain>)
    ensures |ps| == |items|
  {
    if items == [] then [] else [Erase(items[0])] + EraseItems(items[1..])
  }

  function EraseEntries(entries: seq<Entry>): (ps: seq<Pair>)
    ensures |ps| == |entries|
  {
    if entries == [] then [] else [EraseEntry(entries[0])] + EraseEntries(entries[1..])
  }

  function EraseEntry(e: Entry): Pair {
    Pair(Erase(e.key), Erase(e.val))
  }

  /**
   What a caller must check before encoding: no bare 39 anywhere (its one-byte tag
   is one the decoder does not know), and every dictionary has hashable keys that
   stay apart once their wrappers are dropped.
   */
  predicate Faithful(v: Value) {
    match v
    case Int(n) => n != 39
    case Array(items) => FaithfulItems(items)
    case Dict(entries) => FaithfulEntries([], entries)
    case _ => true
  }

  predicate FaithfulItems(items: seq<Value>) {
    items == [] || (Faithful(items[0]) && FaithfulItems(items[1..]))
  }

  /** `before` holds the entries already read. */
  predicate FaithfulEntries(before: seq<Pair>, entries: seq<Entry>)
    decreases entries
  {
    entries == [] ||
    var pair := EraseEntry(entries[0]);
    && FaithfulEntry(entries[0]) && Hashable(pair.key) && !HasKey(before, pair.key)
    && FaithfulEntries(before + [pair], entries[1..])
  }

  predicate FaithfulEntry(e: Entry) {
    Faithful(e.key) && Faithful(e.val)
  }

  /**
   What reading `v` entry by entry into Python dictionaries gives: a later equal
   key overwrites an earlier one; an unhashable key or a bare 39 makes it fail.
   */
  function Meaning(v: Value): Option<Plain> {
    match v
    case Null => Some(PyNone)
    case Int(n) => if n == 39 then None else Some(PyInt(n))
    case Array(items) =>
      (match MeaningItems(items, []) case None => None case Some(ps) => Some(PyList(ps)))
    case Dict(entries) =>
      (match MeaningEntries(entries, []) case None => None case Some(d) => Some(PyDict(d)))
    case _ => Some(EraseScalar(v))
  }

  function MeaningItems(items: seq<Value>, acc: seq<Plain>): Option<seq<Plain>>
    decreases items
  {
    if items == [] then Some(acc)
    else
      match Meaning(items[0])
      case None => None
      case Some(p) => MeaningItems(items[1..], acc + [p])
  }

  function MeaningEntry(e: Entry): Option<Pair> {
    match (Meaning(e.key), Meaning(e.val))
    case (Some(key), Some(val)) => if Hashable(key) then Some(Pair(key, val)) else None
    case _ => None
  }

  function MeaningEntries(entries: seq<Entry>, acc: seq<Pair>): Option<seq<Pair>>
    decreases entries
  {
    if entries == [] then Some(acc)
    else
      match MeaningEntry(entries[0])
      case None => None
      case Some(pair) => MeaningEntries(entries[1..], Insert(acc, pair.key, pair.val))
  }

  // ---------------------------------------------------------------- when nothing is lost

  lemma {:induction false} InsertAppends(d: seq<Pair>, key: Plain, val: Plain)
    ensures |Insert(d, key, val)| == |d| + (if HasKey(d, key) then 0 else 1)
    ensures !HasKey(d, key) ==> Insert(d, key, val) == d + [Pair(key, val)]
  {
    if d == [] {
    } else {
      InsertAppends(d[1..], key, val);
      if HasKey(d[1..], key) {
        var i :| 0 <= i < |d[1..]| && KeyEq(d[1..][i].key, key);
        assert KeyEq(d[i + 1].key, key);
      } else if HasKey(d, key) {
        var i :| 0 <= i < |d| && KeyEq(d[i].key, key);
        assert i > 0 ==> KeyEq(d[1..][i - 1].key, key);
      }
    }
  }

  lemma {:induction false} MeaningEntriesGrows(entries: seq<Entry>, acc: seq<Pair>)
    requires MeaningEntries(entries, acc).Some?
    ensures |MeaningEntries(entries, acc).value| <= |acc| + |entries|
    ensures |MeaningEntries(entries, acc).value| == |acc| + |entries| ==> acc <= MeaningEntries(entries, acc).value
    decreases entries
  {
    if entries == [] {
    } else {
      var pair := MeaningEntry(entries[0]).value;
      InsertAppends(acc, pair.key, pair.val);
      MeaningEntriesGrows(entries[1..], Insert(acc, pair.key, pair.val));
    }
  }

  function Pow2(n: nat): nat {
    if n == 0 then 1 else 2 * Pow2(n - 1)
  }

  lemma {:induction false} LowestShifts(mantissa: int, exponent: int, n: nat)
    ensures Lowest(mantissa * Pow2(n), exponent) == Lowest(mantissa, exponent + n)
    decreases n
  {
    if n == 0 {
    } else {
      var half := mantissa * Pow2(n - 1);
      assert mantissa * Pow2(n) == 2 * half && (2 * half) % 2 == 0 && 2 * half / 2 == half;
      LowestShifts(mantissa, exponent + 1, n - 1);
    }
  }

  /** Lowest terms are unique for numbers over the same power of two. */
  lemma {:induction false} LowestIsUnique(a: int, b: int, exponent: int)
    requires Lowest(a, exponent) == Lowest(b, exponent)
    ensures a == b
    decreases if a < 0 then -a else a
  {
    LowestKeepsLow(a, exponent);
    LowestKeepsLow(b, exponent);
    if a == 0 || b == 0 {
    } else if a % 2 == 0 && b % 2 == 0 {
      LowestIsUnique(a / 2, b / 2, exponent + 1);
    }
  }

  lemma {:induction false} LowestKeepsLow(a: int, exponent: int)
    ensures a == 0 <==> Lowest(a, exponent) == Dyadic(0, 0)
    ensures Lowest(a, exponent).Dyadic?
    ensures a != 0 ==> Lowest(a, exponent).exponent >= if a % 2 == 0 then exponent + 1 else exponent
    decreases if a < 0 then -a else a
  {
    if a == 0 || a % 2 != 0 {
    } else {
      LowestKeepsLow(a / 2, exponent + 1);
    }
  }

  /** Two dyadic numbers have the same lowest terms exactly when they are equal. */
  lemma {:induction false} LowestIsExact(a: int, e: int, b: int, f: int)
    requires e >= f
    ensures Lowest(a, e) == Lowest(b, f) <==> a * Pow2(e - f) == b
  {
    LowestShifts(a, f, e - f);
    if Lowest(a, e) == Lowest(b, f) {
      LowestIsUnique(a * Pow2(e - f), b, f);
    }
  }

  /** What Python compares as numbers. */
  predicate Numeric(p: Plain) {
    p.PyBool? || p.PyInt? || p.PyFloat?
  }

  /** Among keys that are numbers, truth values among them, equal means the same number. */
  lemma {:induction false} KeysAreNumbers(a: Plain, b: Plain)
    requires Numeric(a) && Numeric(b)
    ensures KeyEq(a, b) <==> a == b || (NumberOf(a) != NoNumber && NumberOf(a) == NumberOf(b))
  {
    if !a.PyFloat? && !b.PyFloat? {
      var m := if a.PyInt? then a.n else if a.b then 1 else 0;
      var n := if b.PyInt? then b.n else if b.b then 1 else 0;
      LowestKeepsLow(m, 0);
      if Lowest(m, 0) == Lowest(n, 0) {
        LowestIsUnique(m, n, 0);
      }
    }
  }

  lemma {:induction false} OthersAreThemselves(a: Plain, b: Plain)
    requires !Numeric(a) || !Numeric(b)
    ensures KeyEq(a, b) <==> a == b
  {
    if a.PyFloat? {
      assert NumberOf(b) == NoNumber;
    } else if b.PyFloat? {
      assert NumberOf(a) == NoNumber;
    }
  }

  /** Python's equality of keys is an equivalence. */
  lemma {:induction false} KeysAreEquivalent(a: Plain, b: Plain, c: Plain)
    ensures KeyEq(a, a) && (KeyEq(a, b) <==> KeyEq(b, a)) && (KeyEq(a, b) && KeyEq(b, c) ==> KeyEq(a, c))
  {
    KeyPair(a, a);
    KeyPair(a, b);
    KeyPair(b, a);
    KeyPair(b, c);
    KeyPair(a, c);
  }

  lemma {:induction false} KeyPair(a: Plain, b: Plain)
    ensures KeyEq(a, b) <==>
              a == b || (Numeric(a) && Numeric(b) && NumberOf(a) != NoNumber && NumberOf(a) == NumberOf(b))
  {
    if Numeric(a) && Numeric(b) {
      KeysAreNumbers(a, b);
    } else {
      OthersAreThemselves(a, b);
    }
  }

  lemma DoubleBits(high: byte, top: byte)
    ensures FromLittleEndian([0, 0, 0, 0, 0, 0, high, top]) == 0x1_0000_0000_0000 * high + 0x100_0000_0000_0000 * top
  {
    var bs: seq<byte> := [0, 0, 0, 0, 0, 0, high, top];
    assert bs[1..] == [0, 0, 0, 0, 0, high, top] && bs[1..][1..] == [0, 0, 0, 0, high, top];
    assert FromLittleEndian([high, top]) == high + 256 * FromLittleEndian([top]) by {
      assert [high, top][1..] == [top];
    }
    assert FromLittleEndian([top]) == top + 256 * FromLittleEndian([]) by {
      assert [top][1..] == [];
    }
    assert FromLittleEndian([0, 0, high, top]) == 0x1_0000 * FromLittleEndian([high, top]) by {
      assert [0, 0, high, top][1..] == [0, high, top] && [0, high, top][1..] == [high, top];
    }
    assert FromLittleEndian([0, 0, 0, 0, high, top]) == 0x1_0000 * FromLittleEndian([0, 0, high, top]) by {
      assert [0, 0, 0, 0, high, top][1..] == [0, 0, 0, high, top] && [0, 0, 0, high, top][1..] == [0, 0, high, top];
    }
  }

  lemma SingleBits()
    ensures FromLittleEndian([0, 0, 0, 0x3F]) == 0x3F00_0000
  {
    var bs: seq<byte> := [0, 0, 0, 0x3F];
    assert bs[1..] == [0, 0, 0x3F] && bs[1..][1..] == [0, 0x3F];
    assert [0, 0x3F][1..] == [0x3F] && [0x3F][1..] == [];
  }

  lemma {:induction false} Pow2Splits(a: nat, b: nat)
    ensures Pow2(a + b) == Pow2(a) * Pow2(b)
  {
    if a == 0 {
    } else {
      Pow2Splits(a - 1, b);
    }
  }

  lemma Powers2()
    ensures Pow2(23) == 0x80_0000 && Pow2(52) == 0x10_0000_0000_0000
  {
    assert Pow2(6) == 64 && Pow2(7) == 128;
    Pow2Splits(6, 7);
    Pow2Splits(13, 13);
    Pow2Splits(26, 26);
    Pow2Splits(7, 3);
    Pow2Splits(13, 10);
  }

  lemma {:induction false} Divides(e: nat, fraction: nat)
    requires fraction > 0
    ensures e * fraction % fraction == 0 && e * fraction / fraction == e
  {
    var q, r := e * fraction / fraction, e * fraction % fraction;
    assert (e - q) * fraction == r;
    if e > q {
      AtLeastOnce(e - q, fraction);
    }
  }

  lemma {:induction false} AtLeastOnce(a: nat, b: nat)
    requires a >= 1
    ensures a * b >= b
  {
    assert a * b == b + (a - 1) * b;
  }

  lemma NormalNumber(u: nat, fraction: nat, exponents: nat, smallest: int, e: nat)
    requires fraction > 0 && 1 <= e < exponents - 1 && u % fraction == 0 && u / fraction == e && e % exponents == e
    ensures FloatNumber(u, fraction, exponents, smallest) == Lowest(fraction, smallest + e - 1)
  {
  }

  /** The floats that are powers of two. */
  lemma {:induction false} PowerOfTwo(u: nat, fraction: nat, exponents: nat, smallest: int, e: nat, k: nat, power: int)
    requires fraction == Pow2(k) && fraction > 0 && 1 <= e < exponents - 1 && u == e * fraction && e % exponents == e
    requires power == smallest + e - 1 + k
    ensures FloatNumber(u, fraction, exponents, smallest) == Lowest(1, power)
  {
    Divides(e, fraction);
    NormalNumber(u, fraction, exponents, smallest, e);
    LowestShifts(1, smallest + e - 1, k);
  }

  lemma SameNumberSameKey(a: Plain, b: Plain, mantissa: int, exponent: int)
    requires b.PyFloat? && NumberOf(a) == NumberOf(b) == Lowest(mantissa, exponent)
    ensures KeyEq(a, b)
  {
    LowestKeepsLow(mantissa, exponent);
  }

  lemma EqualKeysAreUnfaithful(a: Value, b: Value)
    requires Tracked(a) && Tracked(b) && KeyEq(EraseScalar(a), EraseScalar(b))
    ensures !Faithful(Dict([Entry(a, Null), Entry(b, Null)]))
  {
    var entries := [Entry(a, Null), Entry(b, Null)];
    var first, more := EraseEntry(entries[0]), entries[1..];
    assert Erase(a) == EraseScalar(a) && Erase(b) == EraseScalar(b);
    assert more[0] == entries[1] && EraseEntry(more[0]).key == Erase(b);
    assert ([] + [first])[0].key == Erase(a) && HasKey([] + [first], Erase(b));
    assert !FaithfulEntries([] + [first], more);
    assert !FaithfulEntries([], entries);
  }

  /** 1 and 1.0 are one key, and so is 0.5 whichever width it was sent in: dictionaries that hold both lose one. */
  lemma EqualNumbersAreOneKey(one: Bits64, half: Bits64, single: Bits32, e: nat)
    requires one == [0, 0, 0, 0, 0, 0, 0xF0, 0x3F]
    requires half == [0, 0, 0, 0, 0, 0, 0xE0, 0x3F] && single == [0, 0, 0, 0x3F]
    requires e == 1022
    ensures !Faithful(Dict([Entry(Fixed(W8, 1), Null), Entry(Float64(one), Null)]))
    ensures !Faithful(Dict([Entry(Float32(half, Some(single)), Null), Entry(Float64(half), Null)]))
  {
    EqualNumberKeys(one, half, single, e);
    EqualKeysAreUnfaithful(Fixed(W8, 1), Float64(one));
    EqualKeysAreUnfaithful(Float32(half, Some(single)), Float64(half));
  }

  lemma EqualNumberKeys(one: Bits64, half: Bits64, single: Bits32, e: nat)
    requires one == [0, 0, 0, 0, 0, 0, 0xF0, 0x3F]
    requires half == [0, 0, 0, 0, 0, 0, 0xE0, 0x3F] && single == [0, 0, 0, 0x3F]
    requires e == 1022
    ensures KeyEq(PyInt(1), PyFloat(one)) && KeyEq(PyFloat(single), PyFloat(half))
  {
    NumbersOf(one, half, single, e);
    SameNumberSameKey(PyInt(1), PyFloat(one), 1, e - 1022);
    SameNumberSameKey(PyFloat(single), PyFloat(half), 1, e - 1023);
  }

  lemma NumbersOf(one: Bits64, half: Bits64, single: Bits32, e: nat)
    requires one == [0, 0, 0, 0, 0, 0, 0xF0, 0x3F]
    requires half == [0, 0, 0, 0, 0, 0, 0xE0, 0x3F] && single == [0, 0, 0, 0x3F]
    requires e == 1022
    ensures NumberOf(PyInt(1)) == NumberOf(PyFloat(one)) == Lowest(1, e - 1022)
    ensures NumberOf(PyFloat(half)) == NumberOf(PyFloat(single)) == Lowest(1, e - 1023)
  {
    DoubleBits(0xF0, 0x3F);
    DoubleBits(0xE0, 0x3F);
    SingleBits();
    DoublePower(one, e + 1);
    DoublePower(half, e);
    SinglePower(single, e - 896);
  }

  lemma DoublePower(bits: Bits64, e: nat)
    requires 1 <= e < 0x7FF && FromLittleEndian(bits) == e * 0x10_0000_0000_0000
    ensures NumberOf(PyFloat(bits)) == Lowest(1, e - 1023)
  {
    Powers2();
    PowerOfTwo(FromLittleEndian(bits), 0x10_0000_0000_0000, 0x800, -1074, e, 52, e - 1023);
  }

  lemma SingleNumber(bits: Bits32, fraction: nat, exponents: nat, smallest: int)
    requires fraction == 0x80_0000 && exponents == 0x100 && smallest == -149
    ensures NumberOf(PyFloat(bits)) == FloatNumber(FromLittleEndian(bits), fraction, exponents, smallest)
  {
  }

  lemma SinglePower(bits: Bits32, e: nat)
    requires 1 <= e < 0xFF && FromLittleEndian(bits) == e * 0x80_0000
    ensures NumberOf(PyFloat(bits)) == Lowest(1, e - 127)
  {
    Powers2();
    var fraction, exponents, smallest := Pow2(23), 0x100, -149;
    SingleNumber(bits, fraction, exponents, smallest);
    PowerOfTwo(FromLittleEndian(bits), fraction, exponents, smallest, e, 23, e - 127);
  }

  /** A value reads back as itself, wrappers apart, exactly when it is faithful. */
  lemma {:induction false} MeaningIsErasure(v: Value)
    ensures Meaning(v) == Some(Erase(v)) <==> Faithful(v)
  {
    match v
    case Array(items) =>
      ItemsMeaning(items, []);
      assert [] + EraseItems(items) == EraseItems(items);
    case Dict(entries) =>
      EntriesMeaning(entries, []);
      assert [] + EraseEntries(entries) == EraseEntries(entries);
    case _ =>
  }

  lemma {:induction false} ItemsMeaning(items: seq<Value>, acc: seq<Plain>)
    ensures MeaningItems(items, acc) == Some(acc + EraseItems(items)) <==> FaithfulItems(items)
    decreases items
  {
    if items == [] {
      assert acc + [] == acc;
    } else {
      MeaningIsErasure(items[0]);
      if Meaning(items[0]).Some? {
        var p := Meaning(items[0]).value;
        ItemsMeaning(items[1..], acc + [p]);
        ItemsExtend(items[1..], acc + [p]);
        assert acc + EraseItems(items) == (acc + [Erase(items[0])]) + EraseItems(items[1..]);
        if MeaningItems(items, acc) == Some(acc + EraseItems(items)) {
          assert (acc + [p])[|acc|] == (acc + EraseItems(items))[|acc|];
        }
      }
    }
  }

  lemma {:induction false} ItemsExtend(items: seq<Value>, acc: seq<Plain>)
    ensures MeaningItems(items, acc).Some? ==> acc <= MeaningItems(items, acc).value
    decreases items
  {
    if items == [] || Meaning(items[0]).None? {
    } else {
      ItemsExtend(items[1..], acc + [Meaning(items[0]).value]);
    }
  }

  lemma {:induction false} EntriesMeaning(entries: seq<Entry>, acc: seq<Pair>)
    ensures MeaningEntries(entries, acc) == Some(acc + EraseEntries(entries)) <==> FaithfulEntries(acc, entries)
    decreases entries
  {
    if entries == [] {
      assert acc + [] == acc;
    } else {
      var erased := EraseEntry(entries[0]);
      EntryMeaning(entries[0]);
      if MeaningEntry(entries[0]).Some? {
        var pair := MeaningEntry(entries[0]).value;
        var acc1 := Insert(acc, pair.key, pair.val);
        InsertAppends(acc, pair.key, pair.val);
        EntriesMeaning(entries[1..], acc1);
        assert acc + EraseEntries(entries) == (acc + [erased]) + EraseEntries(entries[1..]);
        if MeaningEntries(entries, acc) == Some(acc + EraseEntries(entries)) {
          MeaningEntriesGrows(entries[1..], acc1);
          assert acc1[|acc|] == (acc + EraseEntries(entries))[|acc|];
        }
      }
    }
  }

  lemma {:induction false} EntryMeaning(e: Entry)
    ensures MeaningEntry(e) == Some(EraseEntry(e)) <==> FaithfulEntry(e) && Hashable(Erase(e.key))
  {
    MeaningIsErasure(e.key);
    MeaningIsErasure(e.val);
  }
}
