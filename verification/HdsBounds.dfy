/**
 How large a decoded value can be. Back references let a short payload name a
 long text many times, but only scalars are ever tracked, so the expansion is at
 most quadratic; and nesting is bounded by the depth limit.
 */
module HdsBounds {
  import opened Bytes
  import opened HdsValues
  import opened HdsCodec

  predicate Leaf(p: Plain) {
    !p.PyList? && !p.PyDict?
  }

  function Max(a: nat, b: nat): nat {
    if a > b then a else b
  }

  /** What is counted: nodes, the bytes that scalars hold, or the fewest bytes that carry them on the wire. */
  datatype Measure = Nodes | Held | Wire

  ghost predicate IsUuidText(s: seq<byte>) {
    exists raw: Bits128 :: s == UuidText(raw)
  }

  /** The bytes that go with a text or a blob: one up to 32 bytes, above that a tag and a length or a final `stop`. */
  function Overhead(s: seq<byte>, stop: byte): (n: nat)
    ensures n >= 1
  {
    if |s| <= 32 then 1
    else if |s| <= 0xFF || stop !in s then 2
    else if |s| <= 0xFFFF then 3
    else if |s| <= 0xFFFF_FFFF then 5
    else 9
  }

  /** The size of the shortest literal of a scalar: `NoneIsShorter`, `SomeIsAsShort`. */
  ghost function WireSize(p: Plain): (n: nat)
    ensures n >= 1
  {
    match p
    case PyInt(n) =>
      if -1 <= n < 39 then 1 else if W8.Holds(n) then 2 else if W16.Holds(n) then 3 else if W32.Holds(n) then 5 else 9
    case PyFloat(bits) => 1 + |bits|
    case PyStr(s) => if IsUuidText(s) then 17 else |s| + Overhead(s, 0)
    case PyBytes(s) => |s| + Overhead(s, TERMINATOR)
    case _ => 1
  }

  function HeldSize(p: Plain): (n: nat)
    ensures n >= 1
  {
    match p
    case PyStr(s) => Max(1, |s|)
    case PyBytes(s) => Max(1, |s|)
    case PyFloat(s) => Max(1, |s|)
    case _ => 1
  }

  ghost function LeafWeight(p: Plain, unit: Measure): (w: nat)
    ensures w >= 1 && (unit.Nodes? ==> w == 1)
  {
    match unit case Nodes => 1 case Held => HeldSize(p) case Wire => WireSize(p)
  }

  /** The nodes of a value, or the measure of all its leaves counted at every place they occur. */
  ghost function Weight(p: Plain, unit: Measure): nat {
    match p
    case PyList(items) => 1 + ItemsWeight(items, unit)
    case PyDict(entries) => 1 + PairsWeight(entries, unit)
    case _ => LeafWeight(p, unit)
  }

  ghost function ItemsWeight(items: seq<Plain>, unit: Measure): nat {
    if items == [] then 0 else Weight(items[0], unit) + ItemsWeight(items[1..], unit)
  }

  ghost function PairsWeight(pairs: seq<Pair>, unit: Measure): nat {
    if pairs == [] then 0 else PairWeight(pairs[0], unit) + PairsWeight(pairs[1..], unit)
  }

  ghost function PairWeight(pair: Pair, unit: Measure): nat {
    Weight(pair.key, unit) + Weight(pair.val, unit)
  }

  /** At most `limit` containers around any leaf of `p`. */
  predicate Nested(p: Plain, limit: int) {
    match p
    case PyList(items) => limit >= 1 && ItemsNested(items, limit - 1)
    case PyDict(entries) => limit >= 1 && PairsNested(entries, limit - 1)
    case _ => limit >= 0
  }

  predicate ItemsNested(items: seq<Plain>, limit: int) {
    items == [] || (Nested(items[0], limit) && ItemsNested(items[1..], limit))
  }

  predicate PairsNested(pairs: seq<Pair>, limit: int) {
    pairs == [] || (PairNested(pairs[0], limit) && PairsNested(pairs[1..], limit))
  }

  predicate PairNested(pair: Pair, limit: int) {
    Nested(pair.key, limit) && Nested(pair.val, limit)
  }

  /** A table of leaves, none heavier than `m`. */
  ghost predicate Light(seen: seq<Plain>, unit: Measure, m: nat) {
    forall i | 0 <= i < |seen| :: LightLeaf(seen[i], unit, m)
  }

  ghost predicate LightLeaf(p: Plain, unit: Measure, m: nat) {
    Leaf(p) && LeafWeight(p, unit) <= m
  }

  /** `m` is enough for every leaf that reading `n` bytes can make. */
  predicate Enough(m: nat, unit: Measure, n: nat) {
    m >= 1 && (unit.Held? ==> m >= 2 * n + 2) && (unit.Wire? ==> m >= n)
  }

  /** The weight that `n` bytes read may account for. */
  function Allowance(m: nat, n: nat): nat {
    if n == 0 then 0 else m + Allowance(m, n - 1)
  }

  lemma {:induction false} AllowanceIsProduct(m: nat, n: nat)
    ensures Allowance(m, n) == m * n
  {
    if n == 0 {
    } else {
      AllowanceIsProduct(m, n - 1);
    }
  }

  lemma {:induction false} AppendWeight(items: seq<Plain>, p: Plain, unit: Measure)
    ensures ItemsWeight(items + [p], unit) == ItemsWeight(items, unit) + Weight(p, unit)
  {
    if items == [] {
      assert [] + [p] == [p] && [p][1..] == [];
    } else {
      assert (items + [p])[1..] == items[1..] + [p];
      AppendWeight(items[1..], p, unit);
    }
  }

  lemma {:induction false} AppendNested(items: seq<Plain>, p: Plain, limit: int)
    requires ItemsNested(items, limit) && Nested(p, limit)
    ensures ItemsNested(items + [p], limit)
  {
    if items == [] {
      assert [] + [p] == [p] && [p][1..] == [];
    } else {
      assert (items + [p])[1..] == items[1..] + [p];
      AppendNested(items[1..], p, limit);
    }
  }

  lemma {:induction false} InsertWeight(d: seq<Pair>, key: Plain, val: Plain, unit: Measure)
    ensures PairsWeight(Insert(d, key, val), unit) <= PairsWeight(d, unit) + Weight(key, unit) + Weight(val, unit)
  {
    var r := Insert(d, key, val);
    if d == [] {
      assert r[1..] == [];
    } else if KeyEq(d[0].key, key) {
      assert r[1..] == d[1..];
    } else {
      assert r[1..] == Insert(d[1..], key, val);
      InsertWeight(d[1..], key, val, unit);
    }
  }

  lemma {:induction false} InsertNested(d: seq<Pair>, key: Plain, val: Plain, limit: int)
    requires PairsNested(d, limit) && Nested(key, limit) && Nested(val, limit)
    ensures PairsNested(Insert(d, key, val), limit)
  {
    var r := Insert(d, key, val);
    if d == [] {
      assert r[1..] == [];
    } else if KeyEq(d[0].key, key) {
      assert r[1..] == d[1..];
    } else {
      assert r[1..] == Insert(d[1..], key, val);
      InsertNested(d[1..], key, val, limit);
    }
  }

  // ---------------------------------------------------------------- one literal

  lemma {:induction false} HexLength(bs: seq<byte>)
    ensures |Hex(bs)| == 2 * |bs|
  {
    if bs == [] {
    } else {
      HexLength(bs[1..]);
    }
  }

  lemma UuidLength(raw: Bits128)
    ensures |UuidText(raw)| == 36
  {
    HexLength(raw[..4]);
    HexLength(raw[4..6]);
    HexLength(raw[6..8]);
    HexLength(raw[8..10]);
    HexLength(raw[10..]);
  }

  lemma UnpackHolds(w: Width, bs: seq<byte>)
    requires |bs| == w.Size()
    ensures w.Holds(w.Unpack(bs))
  {
    LittleEndianInverse(bs);
    w.Capacity();
  }

  lemma UuidIsShorter(s: seq<byte>)
    ensures WireSize(PyStr(s)) <= |s| + Overhead(s, 0)
  {
    if IsUuidText(s) {
      var raw: Bits128 :| s == UuidText(raw);
      UuidLength(raw);
    }
  }

  /** A length of `width` bytes is enough for what it announces. */
  lemma PrefixHolds(bs: seq<byte>, width: nat, stop: byte)
    requires (width == 1 || width == 2 || width == 4 || width == 8) && TakeSized(bs, width).Ok?
    ensures var t := TakeSized(bs, width).value;
            && |t.value| < Pow256(width) <= 0x1_0000_0000_0000_0000 && |t.value| + width + |t.rest| == |bs|
            && Overhead(t.value, stop) <= 1 + width
  {
    LittleEndianInverse(bs[..width]);
    W8.Capacity();
    W16.Capacity();
    W32.Capacity();
    W64.Capacity();
  }

  lemma {:induction false} StopIsBehind(bs: seq<byte>, stop: byte)
    requires TakeUntil(bs, stop).Ok?
    ensures var t := TakeUntil(bs, stop).value; stop !in t.value && |t.value| + 1 + |t.rest| == |bs|
  {
    if bs[0] == stop {
    } else {
      StopIsBehind(bs[1..], stop);
    }
  }

  /** What a sized or terminated payload costs is at least what `Overhead` says. */
  lemma PayloadIsPaid(bs: seq<byte>, extent: Extent, stop: byte)
    requires extent.Exactly? ==> extent.count <= 32
    requires extent.Prefixed? ==> extent.width == 1 || extent.width == 2 || extent.width == 4 || extent.width == 8
    requires extent.UpTo? ==> extent.stop == stop
    requires TakeExtent(bs, extent).Ok?
    ensures var t := TakeExtent(bs, extent).value;
            && |t.value| + Overhead(t.value, stop) + |t.rest| <= 1 + |bs|
            && (stop !in t.value || |t.value| < 0x1_0000_0000_0000_0000)
  {
    if extent.Prefixed? {
      PrefixHolds(bs, extent.width, stop);
    } else if extent.UpTo? {
      StopIsBehind(bs, stop);
    }
  }

  /** Every literal that reads as a scalar is at least as long as its wire size. */
  lemma NoneIsShorter(tag: byte, bs: seq<byte>)
    requires LiteralTag(tag) && DecLiteral(tag, bs).Ok?
    ensures var t := DecLiteral(tag, bs).value; WireSize(t.value) + |t.rest| <= 1 + |bs|
  {
    var raw := TakeExtent(bs, ExtentOf(tag)).value;
    if tag == UUID {
      assert IsUuidText(UuidText(raw.value));
    } else if INT8 <= tag <= INT64 {
      var w := if tag == INT8 then W8 else if tag == INT16 then W16 else if tag == INT32 then W32 else W64;
      UnpackHolds(w, raw.value);
    } else if tag >= DATA_SHORT {
      PayloadIsPaid(bs, ExtentOf(tag), TERMINATOR);
    } else if tag >= UTF8_SHORT {
      PayloadIsPaid(bs, ExtentOf(tag), 0);
      UuidIsShorter(raw.value);
    }
  }

  lemma LiteralIsLight(tag: byte, bs: seq<byte>, unit: Measure, m: nat)
    requires LiteralTag(tag) && DecLiteral(tag, bs).Ok? && Enough(m, unit, |bs| + 1)
    ensures LightLeaf(DecLiteral(tag, bs).value.value, unit, m)
  {
    if unit.Wire? {
      NoneIsShorter(tag, bs);
    } else if tag == UUID {
      UuidLength(bs[..16]);
    }
  }

  // ---------------------------------------------------------------- every reading function keeps the table light

  /** The table after reading, in any of its forms. */
  ghost predicate LightAfter<T>(r: Result<Parsed<T>, Error>, unit: Measure, m: nat) {
    r.Ok? ==> Light(r.value.seen, unit, m)
  }

  lemma {:induction false} ValueTable(bs: seq<byte>, seen: seq<Plain>, depth: nat, unit: Measure, m: nat)
    requires Light(seen, unit, m) && Enough(m, unit, |bs|)
    ensures LightAfter(DecValue(bs, seen, depth), unit, m)
    decreases |bs|, 0
  {
    if DecValue(bs, seen, depth).Ok? {
      var tag, rest := bs[0], bs[1..];
      if LiteralTag(tag) {
        LiteralIsLight(tag, rest, unit, m);
      } else if tag == ARRAY_TERMINATED {
        ItemsOpenTable(rest, seen, depth + 1, [], unit, m);
      } else if ARRAY <= tag <= ARRAY_TERMINATED {
        ItemsTable(rest, seen, depth + 1, tag - ARRAY, [], unit, m);
      } else if tag == DICT_TERMINATED {
        EntriesOpenTable(rest, seen, depth + 1, [], unit, m);
      } else if DICT <= tag <= DICT_TERMINATED {
        EntriesTable(rest, seen, depth + 1, tag - DICT, [], unit, m);
      }
    }
  }

  lemma {:induction false} ItemsTable(
    bs: seq<byte>, seen: seq<Plain>, depth: nat, count: nat, acc: seq<Plain>, unit: Measure, m: nat)
    requires Light(seen, unit, m) && Enough(m, unit, |bs|)
    ensures LightAfter(DecItems(bs, seen, depth, count, acc), unit, m)
    decreases |bs|, 1, count
  {
    ValueTable(bs, seen, depth, unit, m);
    if count == 0 || DecValue(bs, seen, depth).Err? {
    } else {
      var p := DecValue(bs, seen, depth).value;
      ItemsTable(p.rest, p.seen, depth, count - 1, acc + [p.value], unit, m);
    }
  }

  lemma {:induction false} ItemsOpenTable(
    bs: seq<byte>, seen: seq<Plain>, depth: nat, acc: seq<Plain>, unit: Measure, m: nat)
    requires Light(seen, unit, m) && Enough(m, unit, |bs|)
    ensures LightAfter(DecItemsOpen(bs, seen, depth, acc), unit, m)
    decreases |bs|, 1
  {
    ValueTable(bs, seen, depth, unit, m);
    if DecValue(bs, seen, depth).Err? {
    } else {
      var p := DecValue(bs, seen, depth).value;
      if !p.value.PyTerminator? {
        ItemsOpenTable(p.rest, p.seen, depth, acc + [p.value], unit, m);
      }
    }
  }

  lemma {:induction false} EntryTable(
    bs: seq<byte>, seen: seq<Plain>, depth: nat, acc: seq<Pair>, unit: Measure, m: nat)
    requires Light(seen, unit, m) && Enough(m, unit, |bs|)
    ensures LightAfter(DecEntry(bs, seen, depth, acc), unit, m)
    ensures LightAfter(DecEntryOpen(bs, seen, depth, acc), unit, m)
    decreases |bs|, 2
  {
    ValueTable(bs, seen, depth, unit, m);
    if DecValue(bs, seen, depth).Ok? {
      var k := DecValue(bs, seen, depth).value;
      ValueTable(k.rest, k.seen, depth, unit, m);
    }
  }

  lemma {:induction false} EntriesTable(
    bs: seq<byte>, seen: seq<Plain>, depth: nat, count: nat, acc: seq<Pair>, unit: Measure, m: nat)
    requires Light(seen, unit, m) && Enough(m, unit, |bs|)
    ensures LightAfter(DecEntries(bs, seen, depth, count, acc), unit, m)
    decreases |bs|, 3, count
  {
    EntryTable(bs, seen, depth, acc, unit, m);
    if count == 0 || DecEntry(bs, seen, depth, acc).Err? {
    } else {
      var d := DecEntry(bs, seen, depth, acc).value;
      EntriesTable(d.rest, d.seen, depth, count - 1, d.value, unit, m);
    }
  }

  lemma {:induction false} EntriesOpenTable(
    bs: seq<byte>, seen: seq<Plain>, depth: nat, acc: seq<Pair>, unit: Measure, m: nat)
    requires Light(seen, unit, m) && Enough(m, unit, |bs|)
    ensures LightAfter(DecEntriesOpen(bs, seen, depth, acc), unit, m)
    decreases |bs|, 3
  {
    EntryTable(bs, seen, depth, acc, unit, m);
    if DecEntryOpen(bs, seen, depth, acc).Err? {
    } else {
      var d := DecEntryOpen(bs, seen, depth, acc).value;
      if d.value.Some? {
        EntriesOpenTable(d.rest, d.seen, depth, d.value.value, unit, m);
      }
    }
  }

  // ---------------------------------------------------------------- every reading function keeps the nesting

  /** A table of leaves. */
  ghost predicate Leaves(seen: seq<Plain>) {
    Light(seen, Nodes, 1)
  }

  lemma {:induction false} ValueNested(bs: seq<byte>, seen: seq<Plain>, depth: nat)
    requires Leaves(seen) && DecValue(bs, seen, depth).Ok?
    ensures Nested(DecValue(bs, seen, depth).value.value, MAX_DEPTH + 1 - depth)
    decreases |bs|, 0
  {
    var tag, rest := bs[0], bs[1..];
    if LiteralTag(tag) {
      LiteralIsLight(tag, rest, Nodes, 1);
    } else if ARRAY <= tag <= ARRAY_TERMINATED {
      ListNested(tag, rest, seen, depth + 1);
    } else if DICT <= tag <= DICT_TERMINATED {
      DictNested(tag, rest, seen, depth + 1);
    }
  }

  lemma {:induction false} ListNested(tag: byte, bs: seq<byte>, seen: seq<Plain>, depth: nat)
    requires Leaves(seen) && ARRAY <= tag <= ARRAY_TERMINATED && depth <= MAX_DEPTH + 1
    requires DecArray(tag, bs, seen, depth).Ok?
    ensures Nested(DecArray(tag, bs, seen, depth).value.value, MAX_DEPTH + 2 - depth)
    decreases |bs|, 5
  {
    if tag == ARRAY_TERMINATED {
      ItemsOpenNested(bs, seen, depth, []);
    } else {
      ItemsNest(bs, seen, depth, tag - ARRAY, []);
    }
  }

  lemma {:induction false} DictNested(tag: byte, bs: seq<byte>, seen: seq<Plain>, depth: nat)
    requires Leaves(seen) && DICT <= tag <= DICT_TERMINATED && depth <= MAX_DEPTH + 1
    requires DecDict(tag, bs, seen, depth).Ok?
    ensures Nested(DecDict(tag, bs, seen, depth).value.value, MAX_DEPTH + 2 - depth)
    decreases |bs|, 5
  {
    if tag == DICT_TERMINATED {
      EntriesOpenNested(bs, seen, depth, []);
    } else {
      EntriesNest(bs, seen, depth, tag - DICT, []);
    }
  }

  lemma {:induction false} ItemsNest(bs: seq<byte>, seen: seq<Plain>, depth: nat, count: nat, acc: seq<Plain>)
    requires Leaves(seen) && DecItems(bs, seen, depth, count, acc).Ok? && ItemsNested(acc, MAX_DEPTH + 1 - depth)
    ensures ItemsNested(DecItems(bs, seen, depth, count, acc).value.value, MAX_DEPTH + 1 - depth)
    decreases |bs|, 1, count
  {
    if count == 0 {
    } else {
      var p := DecValue(bs, seen, depth).value;
      ValueNested(bs, seen, depth);
      ValueTable(bs, seen, depth, Nodes, 1);
      AppendNested(acc, p.value, MAX_DEPTH + 1 - depth);
      ItemsNest(p.rest, p.seen, depth, count - 1, acc + [p.value]);
    }
  }

  lemma {:induction false} ItemsOpenNested(bs: seq<byte>, seen: seq<Plain>, depth: nat, acc: seq<Plain>)
    requires Leaves(seen) && DecItemsOpen(bs, seen, depth, acc).Ok? && ItemsNested(acc, MAX_DEPTH + 1 - depth)
    ensures ItemsNested(DecItemsOpen(bs, seen, depth, acc).value.value, MAX_DEPTH + 1 - depth)
    decreases |bs|, 1
  {
    var p := DecValue(bs, seen, depth).value;
    if p.value.PyTerminator? {
    } else {
      ValueNested(bs, seen, depth);
      ValueTable(bs, seen, depth, Nodes, 1);
      AppendNested(acc, p.value, MAX_DEPTH + 1 - depth);
      ItemsOpenNested(p.rest, p.seen, depth, acc + [p.value]);
    }
  }

  lemma {:induction false} EntryNested(bs: seq<byte>, seen: seq<Plain>, depth: nat, acc: seq<Pair>)
    requires Leaves(seen) && DecEntry(bs, seen, depth, acc).Ok? && PairsNested(acc, MAX_DEPTH + 1 - depth)
    ensures PairsNested(DecEntry(bs, seen, depth, acc).value.value, MAX_DEPTH + 1 - depth)
    decreases |bs|, 2
  {
    var k := DecValue(bs, seen, depth).value;
    ValueNested(bs, seen, depth);
    ValueTable(bs, seen, depth, Nodes, 1);
    var v := DecValue(k.rest, k.seen, depth).value;
    ValueNested(k.rest, k.seen, depth);
    InsertNested(acc, k.value, v.value, MAX_DEPTH + 1 - depth);
  }

  lemma {:induction false} EntriesNest(bs: seq<byte>, seen: seq<Plain>, depth: nat, count: nat, acc: seq<Pair>)
    requires Leaves(seen) && DecEntries(bs, seen, depth, count, acc).Ok? && PairsNested(acc, MAX_DEPTH + 1 - depth)
    ensures PairsNested(DecEntries(bs, seen, depth, count, acc).value.value, MAX_DEPTH + 1 - depth)
    decreases |bs|, 3, count
  {
    if count == 0 {
    } else {
      var d := DecEntry(bs, seen, depth, acc).value;
      EntryNested(bs, seen, depth, acc);
      EntryTable(bs, seen, depth, acc, Nodes, 1);
      EntriesNest(d.rest, d.seen, depth, count - 1, d.value);
    }
  }

  /** Where an open dictionary goes on, its entry reads as any other. */
  lemma OpenEntry(bs: seq<byte>, seen: seq<Plain>, depth: nat, acc: seq<Pair>)
    requires DecEntryOpen(bs, seen, depth, acc).Ok? && DecEntryOpen(bs, seen, depth, acc).value.value.Some?
    ensures var d := DecEntryOpen(bs, seen, depth, acc).value;
            DecEntry(bs, seen, depth, acc) == Ok(Parsed(d.value.value, d.rest, d.seen))
  {
  }

  lemma {:induction false} EntriesOpenNested(bs: seq<byte>, seen: seq<Plain>, depth: nat, acc: seq<Pair>)
    requires Leaves(seen) && DecEntriesOpen(bs, seen, depth, acc).Ok? && PairsNested(acc, MAX_DEPTH + 1 - depth)
    ensures PairsNested(DecEntriesOpen(bs, seen, depth, acc).value.value, MAX_DEPTH + 1 - depth)
    decreases |bs|, 3
  {
    var d := DecEntryOpen(bs, seen, depth, acc).value;
    if d.value.None? {
    } else {
      OpenEntry(bs, seen, depth, acc);
      EntryNested(bs, seen, depth, acc);
      EntryTable(bs, seen, depth, acc, Nodes, 1);
      EntriesOpenNested(d.rest, d.seen, depth, d.value.value);
    }
  }

  // ---------------------------------------------------------------- every reading function pays for the weight

  /** The bytes read, from `before` left to `after`, pay for the weight that grew from `base` to `weight`. */
  predicate Paid(base: nat, weight: nat, m: nat, before: nat, after: nat) {
    weight + Allowance(m, after) <= base + Allowance(m, before)
  }

  lemma {:induction false} ValueWeight(bs: seq<byte>, seen: seq<Plain>, depth: nat, unit: Measure, m: nat)
    requires Light(seen, unit, m) && Enough(m, unit, |bs|) && DecValue(bs, seen, depth).Ok?
    ensures var p := DecValue(bs, seen, depth).value; Paid(0, Weight(p.value, unit), m, |bs|, |p.rest|)
    decreases |bs|, 0
  {
    var tag, rest := bs[0], bs[1..];
    if LiteralTag(tag) {
      LiteralIsLight(tag, rest, unit, m);
      Shrinks(m, |rest|, |DecLiteral(tag, rest).value.rest|);
    } else if ARRAY <= tag <= ARRAY_TERMINATED {
      ListWeight(tag, rest, seen, depth + 1, unit, m);
    } else if DICT <= tag <= DICT_TERMINATED {
      DictWeight(tag, rest, seen, depth + 1, unit, m);
    }
  }

  lemma {:induction false} Shrinks(m: nat, a: nat, b: nat)
    requires b <= a
    ensures Allowance(m, b) <= Allowance(m, a)
  {
    if a == b {
    } else {
      Shrinks(m, a - 1, b);
    }
  }

  lemma {:induction false} ListWeight(tag: byte, bs: seq<byte>, seen: seq<Plain>, depth: nat, unit: Measure, m: nat)
    requires Light(seen, unit, m) && Enough(m, unit, |bs|)
    requires ARRAY <= tag <= ARRAY_TERMINATED && DecArray(tag, bs, seen, depth).Ok?
    ensures var p := DecArray(tag, bs, seen, depth).value; Paid(1, Weight(p.value, unit), m, |bs|, |p.rest|)
    decreases |bs|, 5
  {
    if tag == ARRAY_TERMINATED {
      ItemsOpenWeight(bs, seen, depth, [], unit, m);
    } else {
      ItemsWeigh(bs, seen, depth, tag - ARRAY, [], unit, m);
    }
  }

  lemma {:induction false} DictWeight(tag: byte, bs: seq<byte>, seen: seq<Plain>, depth: nat, unit: Measure, m: nat)
    requires Light(seen, unit, m) && Enough(m, unit, |bs|)
    requires DICT <= tag <= DICT_TERMINATED && DecDict(tag, bs, seen, depth).Ok?
    ensures var p := DecDict(tag, bs, seen, depth).value; Paid(1, Weight(p.value, unit), m, |bs|, |p.rest|)
    decreases |bs|, 5
  {
    if tag == DICT_TERMINATED {
      EntriesOpenWeight(bs, seen, depth, [], unit, m);
    } else {
      EntriesWeigh(bs, seen, depth, tag - DICT, [], unit, m);
    }
  }

  lemma {:induction false} ItemsWeigh(
    bs: seq<byte>, seen: seq<Plain>, depth: nat, count: nat, acc: seq<Plain>, unit: Measure, m: nat)
    requires Light(seen, unit, m) && Enough(m, unit, |bs|) && DecItems(bs, seen, depth, count, acc).Ok?
    ensures var p := DecItems(bs, seen, depth, count, acc).value;
            Paid(ItemsWeight(acc, unit), ItemsWeight(p.value, unit), m, |bs|, |p.rest|)
    decreases |bs|, 1, count
  {
    if count == 0 {
    } else {
      var p := DecValue(bs, seen, depth).value;
      ValueWeight(bs, seen, depth, unit, m);
      ValueTable(bs, seen, depth, unit, m);
      AppendWeight(acc, p.value, unit);
      ItemsWeigh(p.rest, p.seen, depth, count - 1, acc + [p.value], unit, m);
    }
  }

  lemma {:induction false} ItemsOpenWeight(
    bs: seq<byte>, seen: seq<Plain>, depth: nat, acc: seq<Plain>, unit: Measure, m: nat)
    requires Light(seen, unit, m) && Enough(m, unit, |bs|) && DecItemsOpen(bs, seen, depth, acc).Ok?
    ensures var p := DecItemsOpen(bs, seen, depth, acc).value;
            Paid(ItemsWeight(acc, unit), ItemsWeight(p.value, unit), m, |bs|, |p.rest|)
    decreases |bs|, 1
  {
    var p := DecValue(bs, seen, depth).value;
    ValueWeight(bs, seen, depth, unit, m);
    if p.value.PyTerminator? {
    } else {
      ValueTable(bs, seen, depth, unit, m);
      AppendWeight(acc, p.value, unit);
      ItemsOpenWeight(p.rest, p.seen, depth, acc + [p.value], unit, m);
    }
  }

  /** An entry is a value, the key, and another value behind it. */
  lemma EntryIsTwoValues(bs: seq<byte>, seen: seq<Plain>, depth: nat, acc: seq<Pair>)
    requires DecEntry(bs, seen, depth, acc).Ok?
    ensures DecValue(bs, seen, depth).Ok?
    ensures var k := DecValue(bs, seen, depth).value;
            && DecValue(k.rest, k.seen, depth).Ok?
            && var v := DecValue(k.rest, k.seen, depth).value;
               DecEntry(bs, seen, depth, acc) == Ok(Parsed(Insert(acc, k.value, v.value), v.rest, v.seen))
  {
  }

  lemma {:induction false} EntryWeight(
    bs: seq<byte>, seen: seq<Plain>, depth: nat, acc: seq<Pair>, unit: Measure, m: nat)
    requires Light(seen, unit, m) && Enough(m, unit, |bs|) && DecEntry(bs, seen, depth, acc).Ok?
    ensures var p := DecEntry(bs, seen, depth, acc).value;
            Paid(PairsWeight(acc, unit), PairsWeight(p.value, unit), m, |bs|, |p.rest|)
    decreases |bs|, 2
  {
    EntryIsTwoValues(bs, seen, depth, acc);
    var k := DecValue(bs, seen, depth).value;
    ValueWeight(bs, seen, depth, unit, m);
    ValueTable(bs, seen, depth, unit, m);
    var v := DecValue(k.rest, k.seen, depth).value;
    ValueWeight(k.rest, k.seen, depth, unit, m);
    InsertWeight(acc, k.value, v.value, unit);
  }

  lemma {:induction false} EntriesWeigh(
    bs: seq<byte>, seen: seq<Plain>, depth: nat, count: nat, acc: seq<Pair>, unit: Measure, m: nat)
    requires Light(seen, unit, m) && Enough(m, unit, |bs|) && DecEntries(bs, seen, depth, count, acc).Ok?
    ensures var p := DecEntries(bs, seen, depth, count, acc).value;
            Paid(PairsWeight(acc, unit), PairsWeight(p.value, unit), m, |bs|, |p.rest|)
    decreases |bs|, 3, count
  {
    if count == 0 {
    } else {
      var d := DecEntry(bs, seen, depth, acc).value;
      EntryWeight(bs, seen, depth, acc, unit, m);
      EntryTable(bs, seen, depth, acc, unit, m);
      EntriesWeigh(d.rest, d.seen, depth, count - 1, d.value, unit, m);
    }
  }

  lemma {:induction false} EntriesOpenWeight(
    bs: seq<byte>, seen: seq<Plain>, depth: nat, acc: seq<Pair>, unit: Measure, m: nat)
    requires Light(seen, unit, m) && Enough(m, unit, |bs|) && DecEntriesOpen(bs, seen, depth, acc).Ok?
    ensures var p := DecEntriesOpen(bs, seen, depth, acc).value;
            Paid(PairsWeight(acc, unit), PairsWeight(p.value, unit), m, |bs|, |p.rest|)
    decreases |bs|, 3
  {
    var d := DecEntryOpen(bs, seen, depth, acc).value;
    if d.value.None? {
      Shrinks(m, |bs|, |d.rest|);
    } else {
      OpenEntry(bs, seen, depth, acc);
      EntryWeight(bs, seen, depth, acc, unit, m);
      EntryTable(bs, seen, depth, acc, unit, m);
      EntriesOpenWeight(d.rest, d.seen, depth, d.value.value, unit, m);
    }
  }

  /**
   Whatever the peer sends in n bytes: at most n nodes; scalars whose wire sizes
   total at most n squared, and which hold at most n(2n + 2) bytes; 65 levels.
   */
  lemma DecodedIsBounded(bs: seq<byte>)
    requires Decode(bs).Ok?
    ensures var p := Decode(bs).value;
            && Weight(p, Nodes) <= |bs|
            && Weight(p, Wire) <= |bs| * |bs|
            && Weight(p, Held) <= (2 * |bs| + 2) * |bs|
            && Nested(p, MAX_DEPTH + 1)
  {
    ValueNested(bs, [], 0);
    WeightIsBounded(bs, Nodes, 1);
    WeightIsBounded(bs, Wire, |bs|);
    WeightIsBounded(bs, Held, 2 * |bs| + 2);
  }

  lemma WeightIsBounded(bs: seq<byte>, unit: Measure, m: nat)
    requires Decode(bs).Ok? && Enough(m, unit, |bs|)
    ensures Weight(Decode(bs).value, unit) <= m * |bs|
  {
    ValueWeight(bs, [], 0, unit, m);
    AllowanceIsProduct(m, |bs|);
  }
}
