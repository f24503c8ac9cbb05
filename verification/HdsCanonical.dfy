/**
 The form the encoder picks, as a document of the grammar: the narrowest integer,
 the shortest count, a terminator only for more than 12 items or 14 entries; and
 one byte for a scalar that was there before.
 */
module HdsCanonical {
  import opened Bytes
  import opened HdsValues
  import opened HdsAcceptance
  import opened HdsGrammar
  import HdsCodec
  import HdsCompression

  /** No bare 39 in it, which has no spelling. */
  predicate Spellable(v: Value) {
    match v
    case Int(n) => n != 39
    case Array(items) => AllSpellable(items)
    case Dict(entries) => AllEntriesSpellable(entries)
    case _ => true
  }

  predicate AllSpellable(items: seq<Value>) {
    items == [] || (Spellable(items[0]) && AllSpellable(items[1..]))
  }

  predicate AllEntriesSpellable(entries: seq<Entry>) {
    entries == [] || (EntrySpellable(entries[0]) && AllEntriesSpellable(entries[1..]))
  }

  predicate EntrySpellable(e: Entry) {
    Spellable(e.key) && Spellable(e.val)
  }

  // ---------------------------------------------------------------- the form of a value

  function TwosComplement(n: int, width: nat): (raw: seq<byte>)
    requires IsWidth(width) && IntegerFits(n, 8 * width)
    ensures |raw| == width
  {
    W8.Capacity();
    W16.Capacity();
    W32.Capacity();
    W64.Capacity();
    LittleEndian(if n < 0 then n + Pow256(width) else n, width)
  }

  function NarrowestWidth(n: int): nat
    requires IntegerFits(n, 64)
  {
    if IntegerFits(n, 8) then 1 else if IntegerFits(n, 16) then 2 else if IntegerFits(n, 32) then 4 else 8
  }

  function ShortestForm(n: nat): Form {
    if n <= 32 then Short
    else if n <= 0xFF then Counted(1)
    else if n <= 0xFFFF then Counted(2)
    else if n <= 0xFFFF_FFFF then Counted(4)
    else Counted(8)
  }

  function CanonicalScalar(v: Value): Scalar
    requires Tracked(v) && Acceptable(v, 0) && Spellable(v)
  {
    match v
    case Bool(b) => Truth(b)
    case Int(n) => if -1 <= n <= 38 then Small(n) else Number(TwosComplement(n, NarrowestWidth(n)))
    case Fixed(W8, n) => Number(TwosComplement(n, 1))
    case Fixed(W16, n) => Number(TwosComplement(n, 2))
    case Fixed(W32, n) => Number(TwosComplement(n, 4))
    case Fixed(W64, n) => Number(TwosComplement(n, 8))
    case Float(bits) => Double(bits)
    case Float64(bits) => Double(bits)
    case Float32(_, single) => Single(single.value)
    case Date(bits) => Moment(bits)
    case Uuid(_, raw) => Unique(raw.value)
    case Str(utf8) => Text(utf8, ShortestForm(|utf8|))
    case Data(data) => Blob(data, ShortestForm(|data|))
  }

  function Canonical(v: Value, depth: nat): Doc
    requires Acceptable(v, depth) && Spellable(v)
    decreases v
  {
    match v
    case Null => Nil
    case Array(items) => Listed(CanonicalItems(items, depth + 1), |items| > 12)
    case Dict(entries) => Tabled(CanonicalRows(entries, depth + 1), |entries| > 14)
    case _ => Lit(CanonicalScalar(v))
  }

  function CanonicalItems(items: seq<Value>, depth: nat): (docs: seq<Doc>)
    requires AcceptableItems(items, depth) && AllSpellable(items)
    ensures |docs| == |items|
    decreases items
  {
    if items == [] then [] else [Canonical(items[0], depth)] + CanonicalItems(items[1..], depth)
  }

  function CanonicalRows(entries: seq<Entry>, depth: nat): (rows: seq<Row>)
    requires AcceptableEntries(entries, depth) && AllEntriesSpellable(entries)
    ensures |rows| == |entries|
    decreases entries
  {
    if entries == [] then [] else [CanonicalRow(entries[0], depth)] + CanonicalRows(entries[1..], depth)
  }

  function CanonicalRow(e: Entry, depth: nat): Row
    requires AcceptableEntry(e, depth) && EntrySpellable(e)
  {
    Row(Canonical(e.key, depth), Canonical(e.val, depth))
  }

  // ---------------------------------------------------------------- the encoder writes it

  lemma {:induction false} PrefixIsPicked(n: nat, first: byte)
    requires 32 < n <= 0xFFFF_FFFF_FFFF_FFFF && first <= 252
    ensures var form := ShortestForm(n);
            && form.Counted? && IsWidth(form.width) && n < Pow256(form.width)
            && HdsCodec.LengthPrefix(n, first) == Ok([first + Step(form.width)] + LittleEndian(n, form.width))
  {
    W8.Capacity();
    W16.Capacity();
    W32.Capacity();
    W64.Capacity();
    if n <= 0xFF {
      assert LittleEndian(n, 1) == [n] + LittleEndian(0, 0) == [n];
      assert [first + 0] + [n] == [first, n];
    }
  }

  lemma {:induction false} FormIsPicked(s: seq<byte>, short: byte, stop: byte)
    requires LengthFits(s) && (short == 0x40 || short == 0x70)
    ensures FormFits(s, ShortestForm(|s|), stop)
    ensures HdsCodec.Sized(s, short, short + 0x21) == Ok(SpellForm(s, ShortestForm(|s|), short, stop))
  {
    if |s| > 32 {
      PrefixIsPicked(|s|, short + 0x21);
      var form := ShortestForm(|s|);
      Associative([short + 0x21 + Step(form.width)], LittleEndian(|s|, form.width), s);
    }
  }

  lemma {:induction false} IntegerIsPacked(w: Width, n: int)
    requires IntegerFits(n, 8 * w.Size())
    ensures w.Holds(n) && w.Pack(n) == TwosComplement(n, w.Size())
    ensures HdsCodec.WidthTag(w) == 0x30 + Step(w.Size())
  {
    w.Capacity();
  }

  lemma {:induction false} IntIsCanonical(n: int)
    requires IntegerFits(n, 64) && n != 39
    ensures HdsCompression.UnsharedScalar(Int(n)) == Ok(SpellScalar(CanonicalScalar(Int(n))))
    ensures FormedScalar(CanonicalScalar(Int(n)))
  {
    var width := NarrowestWidth(n);
    IntegerIsPacked(if width == 1 then W8 else if width == 2 then W16 else if width == 4 then W32 else W64, n);
  }

  lemma {:induction false} ScalarIsCanonical(v: Value)
    requires Tracked(v) && Acceptable(v, 0) && Spellable(v)
    ensures FormedScalar(CanonicalScalar(v))
    ensures HdsCompression.UnsharedScalar(v) == Ok(SpellScalar(CanonicalScalar(v)))
  {
    match v
    case Int(n) => IntIsCanonical(n);
    case Fixed(w, n) => IntegerIsPacked(w, n);
    case Str(utf8) => FormIsPicked(utf8, 0x40, 0);
    case Data(data) => FormIsPicked(data, 0x70, 3);
    case _ =>
  }

  lemma {:induction false} ArrayIsCanonical(items: seq<Value>, depth: nat)
    requires Acceptable(Array(items), depth) && AllSpellable(items)
    ensures Formed(Canonical(Array(items), depth))
    ensures HdsCompression.Unshared(Array(items), depth) == Ok(Spell(Canonical(Array(items), depth)))
    decreases items, 1
  {
    ItemsAreCanonical(items, depth + 1);
  }

  lemma {:induction false} DictIsCanonical(entries: seq<Entry>, depth: nat)
    requires Acceptable(Dict(entries), depth) && AllEntriesSpellable(entries)
    ensures Formed(Canonical(Dict(entries), depth))
    ensures HdsCompression.Unshared(Dict(entries), depth) == Ok(Spell(Canonical(Dict(entries), depth)))
    decreases entries, 1
  {
    EntriesAreCanonical(entries, depth + 1);
  }

  lemma {:induction false} LeafIsCanonical(v: Value, depth: nat)
    requires (v.Null? || Tracked(v)) && Acceptable(v, depth) && Spellable(v)
    ensures Formed(Canonical(v, depth))
    ensures HdsCompression.Unshared(v, depth) == Ok(Spell(Canonical(v, depth)))
  {
    if Tracked(v) {
      ScalarIsCanonical(v);
    }
  }

  lemma {:induction false} ValueIsCanonical(v: Value, depth: nat)
    requires Acceptable(v, depth) && Spellable(v)
    ensures Formed(Canonical(v, depth))
    ensures HdsCompression.Unshared(v, depth) == Ok(Spell(Canonical(v, depth)))
    decreases v
  {
    match v
    case Array(items) => ArrayIsCanonical(items, depth);
    case Dict(entries) => DictIsCanonical(entries, depth);
    case _ => LeafIsCanonical(v, depth);
  }

  lemma {:induction false} ItemsAreCanonical(items: seq<Value>, depth: nat)
    requires AcceptableItems(items, depth) && AllSpellable(items)
    ensures AllFormed(CanonicalItems(items, depth))
    ensures HdsCompression.UnsharedItems(items, depth) == Ok(SpellAll(CanonicalItems(items, depth)))
    decreases items, 0
  {
    if items == [] {
    } else {
      ValueIsCanonical(items[0], depth);
      ItemsAreCanonical(items[1..], depth);
      assert CanonicalItems(items, depth)[1..] == CanonicalItems(items[1..], depth);
    }
  }

  lemma {:induction false} EntriesAreCanonical(entries: seq<Entry>, depth: nat)
    requires AcceptableEntries(entries, depth) && AllEntriesSpellable(entries)
    ensures AllRowsFormed(CanonicalRows(entries, depth))
    ensures HdsCompression.UnsharedEntries(entries, depth) == Ok(SpellRows(CanonicalRows(entries, depth)))
    decreases entries, 0
  {
    if entries == [] {
    } else {
      EntryIsCanonical(entries[0], depth);
      EntriesAreCanonical(entries[1..], depth);
      assert CanonicalRows(entries, depth)[1..] == CanonicalRows(entries[1..], depth);
    }
  }

  lemma {:induction false} EntryIsCanonical(e: Entry, depth: nat)
    requires AcceptableEntry(e, depth) && EntrySpellable(e)
    ensures RowFormed(CanonicalRow(e, depth))
    ensures HdsCompression.UnsharedEntry(e, depth) == Ok(SpellRow(CanonicalRow(e, depth)))
    decreases e
  {
    ValueIsCanonical(e.key, depth);
    ValueIsCanonical(e.val, depth);
  }

  /** Where nothing repeats, the encoder writes the canonical document of a value, byte for byte. */
  lemma {:induction false} EncodesCanonically(v: Value)
    requires Acceptable(v, 0) && Spellable(v) && HdsCompression.Fresh(HdsCompression.Scalars(v), [])
    ensures Formed(Canonical(v, 0)) && HdsCodec.Encode(v) == Ok(Spell(Canonical(v, 0)))
  {
    EncodeAccepts(v);
    ValueIsCanonical(v, 0);
    HdsCompression.CompressionNeverHurts(v);
  }

  // ---------------------------------------------------------------- what repeats

  /** A scalar that has a literal of more than one byte. */
  predicate Wide(v: Value) {
    Tracked(v) && Acceptable(v, 0) && !v.Bool? && !(v.Int? && -1 <= v.n <= 39)
  }

  lemma {:induction false} FirstIsLiteral(v: Value)
    requires Wide(v)
    ensures FormedScalar(CanonicalScalar(v)) && HdsCodec.Wrap(v).Ok?
    ensures HdsCodec.EncScalar(v, [])
         == Ok(HdsCodec.Printed(SpellScalar(CanonicalScalar(v)), [HdsCodec.Unsigned(HdsCodec.Wrap(v).value)]))
  {
    ScalarIsCanonical(v);
    var k := HdsCodec.Unsigned(HdsCodec.Wrap(v).value);
    assert [] + [k] == [k];
  }

  /** `k` stands first in slot `i` of the table. */
  predicate StandsAt(seen: seq<Value>, k: Value, i: nat) {
    i < |seen| && seen[i] == k && forall j | 0 <= j < i :: seen[j] != k
  }

  /**
   What becomes of a scalar: a reference if it stands in one of the first 48 slots,
   written out otherwise, and tracked only if it stands nowhere.
   */
  lemma {:induction false} SharedExactly(v: Value, seen: seq<Value>, i: nat)
    requires Wide(v)
    ensures FormedScalar(CanonicalScalar(v)) && HdsCodec.Wrap(v).Ok?
    ensures var k, literal := HdsCodec.Unsigned(HdsCodec.Wrap(v).value), SpellScalar(CanonicalScalar(v));
            && (StandsAt(seen, k, i) ==>
                  HdsCodec.EncScalar(v, seen) == Ok(HdsCodec.Printed(if i < 48 then [0xA0 + i] else literal, seen)))
            && (k !in seen ==> HdsCodec.EncScalar(v, seen) == Ok(HdsCodec.Printed(literal, seen + [k])))
  {
    var k := HdsCodec.Unsigned(HdsCodec.Wrap(v).value);
    ScalarIsCanonical(v);
    if StandsAt(seen, k, i) {
      FirstIndex(seen, k, i);
    }
  }

  lemma {:induction false} FirstIndex(seen: seq<Value>, k: Value, i: nat)
    requires StandsAt(seen, k, i)
    ensures HdsCodec.IndexOf(seen, k) == Some(i)
  {
    if i == 0 {
    } else {
      FirstIndex(seen[1..], k, i - 1);
    }
  }

  /** The wrapper a scalar stands under in the table: the narrowest integer, the wide float, or its own. */
  function WrapperOf(v: Value): Value {
    match v
    case Int(n) =>
      if IntegerFits(n, 8) then Fixed(W8, n)
      else if IntegerFits(n, 16) then Fixed(W16, n)
      else if IntegerFits(n, 32) then Fixed(W32, n)
      else Fixed(W64, n)
    case Float(bits) => Float64(bits)
    case _ => v
  }

  /** Zero, with either sign. */
  predicate IsZero(bits: seq<byte>) {
    bits != [] && (forall i | 0 <= i < |bits| - 1 :: bits[i] == 0) && bits[|bits| - 1] in {0, 0x80}
  }

  predicate SameFloat(a: seq<byte>, b: seq<byte>) {
    a == b || (|a| == |b| && IsZero(a) && IsZero(b))
  }

  /** What Python holds equal in the table: the same wrapper around the same number, whatever its sign if zero. */
  predicate SameWrapper(a: Value, b: Value) {
    match (a, b)
    case (Float64(x), Float64(y)) => SameFloat(x, y)
    case (Date(x), Date(y)) => SameFloat(x, y)
    case (Float32(x, Some(p)), Float32(y, Some(q))) => SameFloat(x, y) && SameFloat(p, q)
    case _ => a == b
  }

  predicate Repeats(v: Value, w: Value) {
    SameWrapper(WrapperOf(v), WrapperOf(w))
  }

  lemma {:induction false} ZerosAreUnsigned(a: seq<byte>, b: seq<byte>)
    requires |a| == |b| && (|a| == 4 || |a| == 8)
    ensures UnsignedZero(a) == UnsignedZero(b) <==> SameFloat(a, b)
  {
  }

  lemma {:induction false} WrapIsWrapper(v: Value)
    requires Wide(v)
    ensures HdsCodec.Wrap(v) == Ok(WrapperOf(v))
  {
  }

  lemma {:induction false} UnsignedAlike(a: Value, b: Value)
    requires Wide(a) && Wide(b) && !a.Float? && !b.Float? && !a.Int? && !b.Int?
    ensures HdsCodec.Unsigned(a) == HdsCodec.Unsigned(b) <==> SameWrapper(a, b)
  {
    match (a, b)
    case (Float64(x), Float64(y)) => ZerosAreUnsigned(x, y);
    case (Date(x), Date(y)) => ZerosAreUnsigned(x, y);
    case (Float32(x, Some(p)), Float32(y, Some(q))) =>
      ZerosAreUnsigned(x, y);
      ZerosAreUnsigned(p, q);
    case _ =>
  }

  lemma {:induction false} WrapperIsWide(v: Value)
    requires Wide(v)
    ensures var k := WrapperOf(v); Wide(k) && !k.Int? && !k.Float?
  {
  }

  /** What a scalar stands under in the table tells exactly those apart that Python does. */
  lemma {:induction false} KeysAlike(v: Value, w: Value)
    requires Wide(v) && Wide(w)
    ensures HdsCodec.Wrap(v).Ok? && HdsCodec.Wrap(w).Ok?
    ensures HdsCodec.Unsigned(HdsCodec.Wrap(v).value) == HdsCodec.Unsigned(HdsCodec.Wrap(w).value) <==> Repeats(v, w)
  {
    WrapIsWrapper(v);
    WrapIsWrapper(w);
    WrapperIsWide(v);
    WrapperIsWide(w);
    UnsignedAlike(WrapperOf(v), WrapperOf(w));
  }

  lemma {:induction false} AfterOne(w: Value, k: Value)
    requires Wide(w)
    ensures FormedScalar(CanonicalScalar(w)) && HdsCodec.Wrap(w).Ok? && HdsCodec.EncScalar(w, [k]).Ok?
    ensures var second := HdsCodec.EncScalar(w, [k]).value.bytes;
            if HdsCodec.Unsigned(HdsCodec.Wrap(w).value) == k then second == [0xA0]
            else second == SpellScalar(CanonicalScalar(w))
  {
    SharedExactly(w, [k], 0);
  }

  /** A second scalar is a reference if it repeats the first, and its own literal otherwise. */
  lemma {:induction false} SecondIsReference(v: Value, w: Value)
    requires Wide(v) && Wide(w)
    ensures FormedScalar(CanonicalScalar(w)) && HdsCodec.Wrap(v).Ok?
    ensures var second := HdsCodec.EncScalar(w, [HdsCodec.Unsigned(HdsCodec.Wrap(v).value)]);
            && second.Ok?
            && if Repeats(v, w) then second.value.bytes == [0xA0]
               else second.value.bytes == SpellScalar(CanonicalScalar(w))
  {
    KeysAlike(v, w);
    AfterOne(w, HdsCodec.Unsigned(HdsCodec.Wrap(v).value));
  }

  lemma {:induction false} TwoItemsPrint(
    v: Value, w: Value, seen: seq<Value>, depth: nat, a: HdsCodec.Printed, b: HdsCodec.Printed)
    requires HdsCodec.EncValue(v, seen, depth) == Ok(a) && HdsCodec.EncValue(w, a.seen, depth) == Ok(b)
    ensures HdsCodec.EncItems([v, w], seen, depth) == Ok(HdsCodec.Printed(a.bytes + b.bytes, b.seen))
  {
    assert [v, w][1..] == [w] && [w][1..] == [];
    assert HdsCodec.EncItems([w], a.seen, depth) == Ok(HdsCodec.Printed(b.bytes + [], b.seen));
    assert b.bytes + [] == b.bytes;
  }

  /** Two scalars in a list, one printed behind the other. */
  lemma {:induction false} PairPrints(v: Value, w: Value, a: HdsCodec.Printed, b: HdsCodec.Printed)
    requires Tracked(v) && HdsCodec.EncScalar(v, []) == Ok(a)
    requires Tracked(w) && HdsCodec.EncScalar(w, a.seen) == Ok(b)
    ensures HdsCodec.Encode(Array([v, w])) == Ok([0xD2] + (a.bytes + b.bytes))
  {
    TwoItemsPrint(v, w, [], 1, a, b);
  }

  /** The second of two equal scalars is one byte, naming the first; of two others it is written out as well. */
  lemma {:induction false} PairIsShared(v: Value, w: Value)
    requires Wide(v) && Wide(w)
    ensures FormedScalar(CanonicalScalar(v)) && FormedScalar(CanonicalScalar(w))
    ensures Repeats(v, w) ==> HdsCodec.Encode(Array([v, w])) == Ok([0xD2] + (SpellScalar(CanonicalScalar(v)) + [0xA0]))
    ensures !Repeats(v, w) ==>
              HdsCodec.Encode(Array([v, w]))
                == Ok([0xD2] + (SpellScalar(CanonicalScalar(v)) + SpellScalar(CanonicalScalar(w))))
  {
    FirstIsLiteral(v);
    SecondIsReference(v, w);
    var a := HdsCodec.EncScalar(v, []).value;
    PairPrints(v, w, a, HdsCodec.EncScalar(w, a.seen).value);
  }
}
