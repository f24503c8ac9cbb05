/**
 Decoding undoes encoding. The two tables of back references do not stay equal:
 a repeat found past slot 47 is written out again, which the decoder tracks and
 the encoder does not. What holds at every corresponding point is `Related`.
 */
module HdsRoundTrip {
  import opened Bytes
  import opened HdsValues
  import opened HdsCodec

  /** The tables agree on every slot a back reference can name, and exactly up to 48 entries. */
  predicate Related(printed: seq<Value>, parsed: seq<Plain>) {
    && (forall i | 0 <= i < |printed| :: Tracked(printed[i]))
    && |printed| <= |parsed|
    && (|printed| <= MAX_REF + 1 ==> |printed| == |parsed|)
    && (forall i | 0 <= i < |printed| && i <= MAX_REF :: parsed[i] == EraseScalar(printed[i]))
  }

  /** The reader recovered `meaning`, stopped at `rest` and left a related table; or, without a meaning, failed. */
  ghost predicate Recovers<T>(r: Result<Parsed<T>, Error>, meaning: Option<T>, rest: seq<byte>, seen: seq<Value>) {
    match meaning
    case None => r.Err?
    case Some(x) => r.Ok? && r.value.value == x && r.value.rest == rest && Related(seen, r.value.seen)
  }

  // ---------------------------------------------------------------- scalars

  lemma TakeFront(a: seq<byte>, rest: seq<byte>)
    ensures Take(a + rest, |a|) == Ok(Taken(a, rest))
  {
    assert (a + rest)[..|a|] == a && (a + rest)[|a|..] == rest;
  }

  lemma SizedReads(data: seq<byte>, short: byte, first: byte, rest: seq<byte>)
    requires short <= 200 && first <= 252
    requires Sized(data, short, first).Ok?
    ensures var bs := Sized(data, short, first).value;
            && bs != []
            && (|data| <= 32 ==> bs[0] == short + |data| && Take(bs[1..] + rest, |data|) == Ok(Taken(data, rest)))
            && (|data| > 32 ==>
                  && first <= bs[0] <= first + 3
                  && TakeSized(bs[1..] + rest, LengthWidth(bs[0], first)) == Ok(Taken(data, rest)))
  {
    var bs := Sized(data, short, first).value;
    TakeFront(data, rest);
    if |data| <= 32 {
      assert bs[1..] == data;
    } else {
      var prefix := LengthPrefix(|data|, first).value;
      var width := LengthWidth(bs[0], first);
      Powers();
      LittleEndianRoundTrip(|data|, width);
      assert prefix[1..] == LittleEndian(|data|, width) by {
        if width == 1 { assert LittleEndian(|data|, 1) == [|data|] + LittleEndian(0, 0); }
      }
      assert bs[1..] + rest == prefix[1..] + (data + rest);
      TakeFront(prefix[1..], data + rest);
    }
  }

  lemma Powers()
    ensures Pow256(1) == 0x100 && Pow256(2) == 0x1_0000
    ensures Pow256(4) == 0x1_0000_0000 && Pow256(8) == 0x1_0000_0000_0000_0000
  {
    W8.Capacity();
    W16.Capacity();
    W32.Capacity();
    W64.Capacity();
  }

  lemma LiteralReads(v: Value, rest: seq<byte>)
    requires Tracked(v) && !v.Int? && !v.Bool? && !v.Float? && Literal(v).Ok?
    ensures var bs := Literal(v).value;
            && bs != [] && LiteralTag(bs[0])
            && DecLiteral(bs[0], bs[1..] + rest) == Ok(Taken(EraseScalar(v), rest))
  {
    var bs := Literal(v).value;
    match v
    case Fixed(w, n) =>
      assert bs[1..] == w.Pack(n);
      TakeFront(w.Pack(n), rest);
      w.PackRoundTrip(n);
    case Float32(_, single) =>
      assert bs[1..] == single.value;
      TakeFront(single.value, rest);
    case Float64(bits) =>
      assert bs[1..] == bits;
      TakeFront(bits, rest);
    case Date(bits) =>
      assert bs[1..] == bits;
      TakeFront(bits, rest);
    case Uuid(_, raw) =>
      assert bs[1..] == raw.value;
      TakeFront(raw.value, rest);
    case Str(utf8) =>
      SizedReads(utf8, UTF8_SHORT, UTF8_8, rest);
    case Data(data) =>
      SizedReads(data, DATA_SHORT, DATA_8, rest);
  }

  lemma RelatedGrows(printed: seq<Value>, parsed: seq<Plain>, v: Value)
    requires Related(printed, parsed) && Tracked(v)
    ensures Related(printed + [v], parsed + [EraseScalar(v)])
    ensures |printed| > MAX_REF + 1 ==> Related(printed, parsed + [EraseScalar(v)])
  {
  }

  lemma LiteralValue(bs: seq<byte>, parsed: seq<Plain>, depth: nat)
    requires depth <= MAX_DEPTH && bs != [] && LiteralTag(bs[0]) && DecLiteral(bs[0], bs[1..]).Ok?
    ensures var t := DecLiteral(bs[0], bs[1..]).value;
            DecValue(bs, parsed, depth) == Ok(Parsed(t.value, t.rest, parsed + [t.value]))
  {
  }

  lemma ReferenceValue(index: nat, parsed: seq<Plain>, depth: nat, rest: seq<byte>)
    requires depth <= MAX_DEPTH && index <= MAX_REF && index < |parsed|
    ensures DecValue([COMPRESS + index] + rest, parsed, depth) == Ok(Parsed(parsed[index], rest, parsed))
  {
    assert ([COMPRESS + index] + rest)[1..] == rest;
  }

  lemma ImmediateReads(v: Value, parsed: seq<Plain>, depth: nat, rest: seq<byte>)
    requires Immediate(v) && depth <= MAX_DEPTH
    ensures var r := DecValue([ImmediateTag(v)] + rest, parsed, depth);
            if v == Int(39) then r.Err? else r == Ok(Parsed(EraseScalar(v), rest, parsed + [EraseScalar(v)]))
  {
    var bs := [ImmediateTag(v)] + rest;
    assert bs[1..] == rest;
    if v != Int(39) {
      LiteralValue(bs, parsed, depth);
    }
  }

  lemma TaggedReads(bs: seq<byte>, p: Plain, parsed: seq<Plain>, depth: nat, rest: seq<byte>)
    requires bs != [] && LiteralTag(bs[0]) && depth <= MAX_DEPTH
    requires DecLiteral(bs[0], bs[1..] + rest) == Ok(Taken(p, rest))
    ensures DecValue(bs + rest, parsed, depth) == Ok(Parsed(p, rest, parsed + [p]))
  {
    assert (bs + rest)[1..] == bs[1..] + rest;
    LiteralValue(bs + rest, parsed, depth);
  }

  lemma LiteralReadsBack(k: Value, parsed: seq<Plain>, depth: nat, rest: seq<byte>)
    requires Tracked(k) && !k.Int? && !k.Bool? && !k.Float? && Literal(k).Ok? && depth <= MAX_DEPTH
    ensures DecValue(Literal(k).value + rest, parsed, depth)
            == Ok(Parsed(EraseScalar(k), rest, parsed + [EraseScalar(k)]))
  {
    LiteralReads(k, rest);
    TaggedReads(Literal(k).value, EraseScalar(k), parsed, depth, rest);
  }

  lemma ScalarReads(v: Value, printed: seq<Value>, parsed: seq<Plain>, depth: nat, rest: seq<byte>)
    requires Tracked(v) && Related(printed, parsed) && depth <= MAX_DEPTH
    requires EncScalar(v, printed).Ok?
    ensures var p := EncScalar(v, printed).value;
            Recovers(DecValue(p.bytes + rest, parsed, depth), Meaning(v), rest, p.seen)
  {
    if Immediate(v) {
      ImmediateReads(v, parsed, depth, rest);
      RelatedGrows(printed, parsed, v);
    } else {
      WrapKeeps(v);
      var k := Wrap(v).value;
      UnsignedReadsAlike(k);
      var found := IndexOf(printed, Unsigned(k));
      if found.Some? && found.value <= MAX_REF {
        ReferenceValue(found.value, parsed, depth, rest);
      } else {
        LiteralReadsBack(k, parsed, depth, rest);
        RelatedGrows(printed, parsed, Unsigned(k));
      }
    }
  }

  lemma UnsignedReadsAlike(k: Value)
    requires Tracked(k)
    ensures Tracked(Unsigned(k)) && EraseScalar(Unsigned(k)) == EraseScalar(k)
  {
  }

  lemma WrapKeeps(v: Value)
    requires Tracked(v) && !Immediate(v) && Wrap(v).Ok?
    ensures var k := Wrap(v).value;
            && Tracked(k) && !k.Int? && !k.Bool? && !k.Float?
            && EraseScalar(k) == EraseScalar(v) && Meaning(v) == Some(EraseScalar(v))
  {
  }

  // ---------------------------------------------------------------- containers

  lemma MeaningIsNoTerminator(v: Value)
    ensures Meaning(v) != Some(PyTerminator)
  {
  }

  lemma TerminatorReads(parsed: seq<Plain>, depth: nat, rest: seq<byte>)
    requires depth <= MAX_DEPTH
    ensures DecValue([TERMINATOR] + rest, parsed, depth) == Ok(Parsed(PyTerminator, rest, parsed))
  {
    assert ([TERMINATOR] + rest)[1..] == rest;
  }

  /** The simulation: any related tables, any trailing bytes, the exact position reached. */
  lemma {:induction false} ValueReads(v: Value, printed: seq<Value>, parsed: seq<Plain>, depth: nat, rest: seq<byte>)
    requires Related(printed, parsed) && EncValue(v, printed, depth).Ok?
    ensures var p := EncValue(v, printed, depth).value;
            Recovers(DecValue(p.bytes + rest, parsed, depth), Meaning(v), rest, p.seen)
    decreases v, 0
  {
    match v
    case Null => assert ([NULL] + rest)[1..] == rest;
    case Array(items) => ArrayReads(items, printed, parsed, depth, rest);
    case Dict(entries) => DictReads(entries, printed, parsed, depth, rest);
    case _ => ScalarReads(v, printed, parsed, depth, rest);
  }

  lemma {:induction false} ArrayReads(
    items: seq<Value>, printed: seq<Value>, parsed: seq<Plain>, depth: nat, rest: seq<byte>)
    requires Related(printed, parsed) && EncValue(Array(items), printed, depth).Ok?
    ensures var p := EncValue(Array(items), printed, depth).value;
            Recovers(DecValue(p.bytes + rest, parsed, depth), Meaning(Array(items)), rest, p.seen)
    decreases items, 2
  {
    var p := EncValue(Array(items), printed, depth).value;
    var body := EncItems(items, printed, depth + 1).value;
    if |items| <= 12 {
      assert (p.bytes + rest)[1..] == body.bytes + rest;
      ItemsRead(items, printed, parsed, depth + 1, [], rest);
    } else {
      assert (p.bytes + rest)[1..] == body.bytes + ([TERMINATOR] + rest);
      ItemsReadOpen(items, printed, parsed, depth + 1, [], rest);
    }
  }

  lemma {:induction false} DictReads(
    entries: seq<Entry>, printed: seq<Value>, parsed: seq<Plain>, depth: nat, rest: seq<byte>)
    requires Related(printed, parsed) && EncValue(Dict(entries), printed, depth).Ok?
    ensures var p := EncValue(Dict(entries), printed, depth).value;
            Recovers(DecValue(p.bytes + rest, parsed, depth), Meaning(Dict(entries)), rest, p.seen)
    decreases entries, 2
  {
    var p := EncValue(Dict(entries), printed, depth).value;
    var body := EncEntries(entries, printed, depth + 1).value;
    if |entries| <= 14 {
      assert (p.bytes + rest)[1..] == body.bytes + rest;
      EntriesRead(entries, printed, parsed, depth + 1, [], rest);
    } else {
      assert (p.bytes + rest)[1..] == body.bytes + ([TERMINATOR] + rest);
      EntriesReadOpen(entries, printed, parsed, depth + 1, [], rest);
    }
  }

  lemma {:induction false} ItemsRead(
    items: seq<Value>, printed: seq<Value>, parsed: seq<Plain>, depth: nat, acc: seq<Plain>, rest: seq<byte>)
    requires Related(printed, parsed) && EncItems(items, printed, depth).Ok?
    ensures var p := EncItems(items, printed, depth).value;
            Recovers(DecItems(p.bytes + rest, parsed, depth, |items|, acc), MeaningItems(items, acc), rest, p.seen)
    decreases items, 1
  {
    var p := EncItems(items, printed, depth).value;
    if items == [] {
      assert p.bytes + rest == rest;
    } else {
      var head := EncValue(items[0], printed, depth).value;
      var tail := EncItems(items[1..], head.seen, depth).value;
      assert p.bytes + rest == head.bytes + (tail.bytes + rest);
      ValueReads(items[0], printed, parsed, depth, tail.bytes + rest);
      if Meaning(items[0]).Some? {
        var d := DecValue(p.bytes + rest, parsed, depth).value;
        ItemsRead(items[1..], head.seen, d.seen, depth, acc + [d.value], rest);
      }
    }
  }

  lemma {:induction false} ItemsReadOpen(
    items: seq<Value>, printed: seq<Value>, parsed: seq<Plain>, depth: nat, acc: seq<Plain>, rest: seq<byte>)
    requires Related(printed, parsed) && EncItems(items, printed, depth).Ok? && depth <= MAX_DEPTH
    ensures var p := EncItems(items, printed, depth).value;
            var got := DecItemsOpen(p.bytes + ([TERMINATOR] + rest), parsed, depth, acc);
            Recovers(got, MeaningItems(items, acc), rest, p.seen)
    decreases items, 1
  {
    var p := EncItems(items, printed, depth).value;
    var after := [TERMINATOR] + rest;
    if items == [] {
      assert p.bytes + after == after;
      TerminatorReads(parsed, depth, rest);
    } else {
      var head := EncValue(items[0], printed, depth).value;
      var tail := EncItems(items[1..], head.seen, depth).value;
      assert p.bytes + after == head.bytes + (tail.bytes + after);
      ValueReads(items[0], printed, parsed, depth, tail.bytes + after);
      MeaningIsNoTerminator(items[0]);
      if Meaning(items[0]).Some? {
        var d := DecValue(p.bytes + after, parsed, depth).value;
        ItemsReadOpen(items[1..], head.seen, d.seen, depth, acc + [d.value], rest);
      }
    }
  }

  /** One key and its value, whichever loop reads them. */
  lemma {:induction false} EntryReads(
    e: Entry, printed: seq<Value>, parsed: seq<Plain>, depth: nat, acc: seq<Pair>, rest: seq<byte>)
    requires Related(printed, parsed) && EncEntry(e, printed, depth).Ok?
    ensures var p := EncEntry(e, printed, depth).value;
            var k := DecValue(p.bytes + rest, parsed, depth);
            && (k.Ok? ==> !k.value.value.PyTerminator?)
            && (k.Err? ==> MeaningEntry(e).None?)
            && (k.Ok? ==>
                  var d := DecInto(k.value.rest, k.value.seen, depth, k.value.value, acc);
                  if MeaningEntry(e).None? then d.Err?
                  else
                    var pair := MeaningEntry(e).value;
                    Recovers(d, Some(Insert(acc, pair.key, pair.val)), rest, p.seen))
    decreases e
  {
    var p := EncEntry(e, printed, depth).value;
    var key := EncValue(e.key, printed, depth).value;
    var val := EncValue(e.val, key.seen, depth).value;
    assert p.bytes + rest == key.bytes + (val.bytes + rest);
    ValueReads(e.key, printed, parsed, depth, val.bytes + rest);
    MeaningIsNoTerminator(e.key);
    if Meaning(e.key).Some? {
      var k := DecValue(p.bytes + rest, parsed, depth).value;
      ValueReads(e.val, key.seen, k.seen, depth, rest);
    }
  }

  lemma {:induction false} EntriesRead(
    entries: seq<Entry>, printed: seq<Value>, parsed: seq<Plain>, depth: nat, acc: seq<Pair>, rest: seq<byte>)
    requires Related(printed, parsed) && EncEntries(entries, printed, depth).Ok?
    ensures var p := EncEntries(entries, printed, depth).value;
            var got := DecEntries(p.bytes + rest, parsed, depth, |entries|, acc);
            Recovers(got, MeaningEntries(entries, acc), rest, p.seen)
    decreases entries, 1
  {
    var p := EncEntries(entries, printed, depth).value;
    if entries == [] {
      assert p.bytes + rest == rest;
    } else {
      var head := EncEntry(entries[0], printed, depth).value;
      var tail := EncEntries(entries[1..], head.seen, depth).value;
      assert p.bytes + rest == head.bytes + (tail.bytes + rest);
      EntryReads(entries[0], printed, parsed, depth, acc, tail.bytes + rest);
      if MeaningEntry(entries[0]).Some? {
        var d := DecEntry(p.bytes + rest, parsed, depth, acc).value;
        EntriesRead(entries[1..], head.seen, d.seen, depth, d.value, rest);
      }
    }
  }

  lemma {:induction false} EntriesReadOpen(
    entries: seq<Entry>, printed: seq<Value>, parsed: seq<Plain>, depth: nat, acc: seq<Pair>, rest: seq<byte>)
    requires Related(printed, parsed) && EncEntries(entries, printed, depth).Ok? && depth <= MAX_DEPTH
    ensures var p := EncEntries(entries, printed, depth).value;
            var got := DecEntriesOpen(p.bytes + ([TERMINATOR] + rest), parsed, depth, acc);
            Recovers(got, MeaningEntries(entries, acc), rest, p.seen)
    decreases entries, 1
  {
    var p := EncEntries(entries, printed, depth).value;
    var after := [TERMINATOR] + rest;
    if entries == [] {
      assert p.bytes + after == after;
      TerminatorReads(parsed, depth, rest);
    } else {
      var head := EncEntry(entries[0], printed, depth).value;
      var tail := EncEntries(entries[1..], head.seen, depth).value;
      assert p.bytes + after == head.bytes + (tail.bytes + after);
      EntryReads(entries[0], printed, parsed, depth, acc, tail.bytes + after);
      if MeaningEntry(entries[0]).Some? {
        var d := DecEntryOpen(p.bytes + after, parsed, depth, acc).value;
        EntriesReadOpen(entries[1..], head.seen, d.seen, depth, d.value.value, rest);
      }
    }
  }

  // ---------------------------------------------------------------- whole messages

  /** For every accepted value, decoding what was encoded gives its meaning, or fails where it has none. */
  lemma DecodeEncode(v: Value)
    requires Encode(v).Ok? && NoNan(v)
    ensures match Meaning(v)
            case Some(p) => Decode(Encode(v).value) == Ok(p)
            case None => Decode(Encode(v).value).Err?
  {
    var bs := EncValue(v, [], 0).value.bytes;
    ValueReads(v, [], [], 0, []);
    MeaningIsNoTerminator(v);
    assert bs + [] == bs;
  }

  /** The round trip holds exactly for the faithful values. */
  lemma RoundTrip(v: Value)
    requires Encode(v).Ok? && NoNan(v)
    ensures Decode(Encode(v).value) == Ok(Erase(v)) <==> Faithful(v)
  {
    DecodeEncode(v);
    MeaningIsErasure(v);
  }

  // ---------------------------------------------------------------- what is lost

  /** A scalar that can be written out. */
  predicate Writable(v: Value) {
    Tracked(v) && (Immediate(v) || (Wrap(v).Ok? && Literal(Wrap(v).value).Ok?))
  }

  lemma EntryEncodes(key: Value, b: bool, seen: seq<Value>, depth: nat)
    requires Writable(key) && depth <= MAX_DEPTH
    ensures EncEntry(Entry(key, Value.Bool(b)), seen, depth).Ok?
  {
    assert EncValue(key, seen, depth).Ok?;
  }

  /** A dictionary of two flags. */
  function Flags(a: Value, x: bool, b: Value, y: bool): Value {
    Dict([Entry(a, Value.Bool(x)), Entry(b, Value.Bool(y))])
  }

  lemma {:induction false} FlagEntriesEncode(entries: seq<Entry>, seen: seq<Value>, depth: nat)
    requires depth <= MAX_DEPTH && forall i | 0 <= i < |entries| :: Writable(entries[i].key) && entries[i].val.Bool?
    ensures EncEntries(entries, seen, depth).Ok?
  {
    if entries == [] {
    } else {
      EntryEncodes(entries[0].key, entries[0].val.b, seen, depth);
      FlagEntriesEncode(entries[1..], EncEntry(entries[0], seen, depth).value.seen, depth);
    }
  }

  lemma FlagsEncode(a: Value, x: bool, b: Value, y: bool, depth: nat)
    requires Writable(a) && Writable(b) && depth == 0
    ensures EncValue(Flags(a, x, b, y), [], depth).Ok?
  {
    FlagEntriesEncode([Entry(a, Value.Bool(x)), Entry(b, Value.Bool(y))], [], depth + 1);
  }

  lemma ScalarMeans(v: Value)
    requires Tracked(v) && v != Int(39)
    ensures Meaning(v) == Some(EraseScalar(v)) && Hashable(EraseScalar(v))
  {
  }

  lemma FlagMeans(key: Value, b: bool)
    requires Tracked(key) && key != Int(39)
    ensures MeaningEntry(Entry(key, Value.Bool(b))) == Some(Pair(EraseScalar(key), PyBool(b)))
  {
    ScalarMeans(key);
  }

  lemma FlagsMean(a: Value, x: bool, b: Value, y: bool)
    requires Tracked(a) && Tracked(b) && a != Int(39) && b != Int(39) && KeyEq(EraseScalar(a), EraseScalar(b))
    ensures Meaning(Flags(a, x, b, y)) == Some(PyDict([Pair(EraseScalar(a), PyBool(y))]))
  {
    var entries := [Entry(a, Value.Bool(x)), Entry(b, Value.Bool(y))];
    var none: seq<Pair> := [];
    var first := [Pair(EraseScalar(a), PyBool(x))];
    var both := [Pair(EraseScalar(a), PyBool(y))];
    FlagMeans(a, x);
    FlagMeans(b, y);
    assert entries[1..][0] == entries[1] && entries[1..][1..] == [];
    assert Insert(none, EraseScalar(a), PyBool(x)) == first;
    assert Insert(first, EraseScalar(b), PyBool(y)) == both + first[1..] && both + first[1..] == both;
    assert MeaningEntries(entries[1..], first) == MeaningEntries(entries[1..][1..], both);
  }

  /** Two entries under equal keys come back as one: the key of the first, the value of the last. */
  lemma EqualKeysCollapse(a: Value, x: bool, b: Value, y: bool)
    requires Writable(a) && Writable(b) && a != Int(39) && b != Int(39) && NoNan(a) && NoNan(b)
    requires KeyEq(EraseScalar(a), EraseScalar(b))
    ensures var v := Flags(a, x, b, y);
            Encode(v).Ok? && Decode(Encode(v).value) == Ok(PyDict([Pair(EraseScalar(a), PyBool(y))]))
  {
    var entries := [Entry(a, Value.Bool(x)), Entry(b, Value.Bool(y))];
    FlagsEncode(a, x, b, y, 0);
    FlagsMean(a, x, b, y);
    assert entries[1..][0] == entries[1] && entries[1..][1..] == [];
    assert NoNanEntry(entries[0]) && NoNanEntry(entries[1]);
    assert NoNanEntries(entries[1..]);
    DecodeEncode(Flags(a, x, b, y));
  }

  lemma OneIsLost(n: int, one: Bits64, x: bool, y: bool)
    requires n == 1 && !IsNan(one) && KeyEq(PyInt(n), PyFloat(UnsignedZero(one)))
    ensures var v := Flags(Fixed(W8, n), x, Float64(one), y);
            Encode(v).Ok? && Decode(Encode(v).value) == Ok(PyDict([Pair(PyInt(n), PyBool(y))]))
  {
    EqualKeysCollapse(Fixed(W8, n), x, Float64(one), y);
  }

  lemma HalfIsLost(half: Bits64, single: Bits32, x: bool, y: bool)
    requires !IsNan(half) && KeyEq(PyFloat(UnsignedZero(single)), PyFloat(UnsignedZero(half)))
    ensures var v := Flags(Value.Float32(half, Some(single)), x, Float64(half), y);
            Encode(v).Ok? && Decode(Encode(v).value) == Ok(PyDict([Pair(PyFloat(UnsignedZero(single)), PyBool(y))]))
  {
    EqualKeysCollapse(Value.Float32(half, Some(single)), x, Float64(half), y);
  }

  lemma NotNan(bits: Bits64, high: byte, top: byte)
    requires bits == [0, 0, 0, 0, 0, 0, high, top] && high < 0xF1 && top < 0x40
    ensures !IsNan(bits)
  {
    DoubleBits(high, top);
  }

  /** What the decoder makes of a dictionary under 1 and 1.0, and of one under 0.5 in both widths: one entry. */
  lemma EqualNumbersAreLost(one: Bits64, half: Bits64, single: Bits32, e: nat, x: bool, y: bool)
    requires one == [0, 0, 0, 0, 0, 0, 0xF0, 0x3F]
    requires half == [0, 0, 0, 0, 0, 0, 0xE0, 0x3F] && single == [0, 0, 0, 0x3F]
    requires e == 1022
    ensures var v := Flags(Fixed(W8, 1), x, Float64(one), y);
            Encode(v).Ok? && Decode(Encode(v).value) == Ok(PyDict([Pair(PyInt(1), PyBool(y))]))
    ensures var v := Flags(Value.Float32(half, Some(single)), x, Float64(half), y);
            Encode(v).Ok? && Decode(Encode(v).value) == Ok(PyDict([Pair(PyFloat(single), PyBool(y))]))
  {
    EqualNumberKeys(one, half, single, e);
    NotNan(one, 0xF0, 0x3F);
    NotNan(half, 0xE0, 0x3F);
    assert single[3] == 0x3F && one[7] == 0x3F && half[7] == 0x3F;
    OneIsLost(1, one, x, y);
    HalfIsLost(half, single, x, y);
  }

  /** The smallest value the codec cannot carry: the encoder accepts 39, the decoder rejects it. */
  lemma ThirtyNineIsLost()
    ensures Encode(Int(39)) == Ok([0x2F])
    ensures Decode([0x2F]) == Err(UnknownTag)
    ensures Decode(Encode(Int(38)).value) == Ok(PyInt(38))
  {
  }
}
