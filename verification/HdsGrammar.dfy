/**
 The format itself, as bytes: what may be written, in every form the protocol has,
 and what it means. The decoder accepts exactly this, and the encoder writes it.
 */
module HdsGrammar {
  import opened Bytes
  import opened HdsValues
  import opened HdsCodec
  import opened HdsRoundTrip
  import HdsDecoder

  /** How a text or a blob says where it ends: in its tag, by a count, or by a final byte. */
  datatype Form = Short | Counted(width: nat) | Ended

  datatype Scalar =
    | Truth(b: bool)
    | Small(n: int)
    | Number(raw: seq<byte>)
    | Moment(raw: seq<byte>)
    | Single(raw: seq<byte>)
    | Double(raw: seq<byte>)
    | Unique(raw: seq<byte>)
    | Text(utf8: seq<byte>, form: Form)
    | Blob(data: seq<byte>, form: Form)

  /** A document, down to the choice of every form. */
  datatype Doc =
    | Nil
    | Stop
    | Lit(x: Scalar)
    | Again(index: nat)
    | Listed(items: seq<Doc>, ended: bool)
    | Tabled(rows: seq<Row>, ended: bool)
  datatype Row = Row(key: Doc, val: Doc)

  // ---------------------------------------------------------------- the bytes

  predicate IsWidth(n: nat) {
    n == 1 || n == 2 || n == 4 || n == 8
  }

  /** 0, 1, 2, 3 for 1, 2, 4, 8 bytes. */
  function Step(width: nat): nat
    requires IsWidth(width)
  {
    match width case 1 => 0 case 2 => 1 case 4 => 2 case _ => 3
  }

  predicate FormFits(s: seq<byte>, form: Form, stop: byte) {
    match form
    case Short => |s| <= 32
    case Counted(width) => IsWidth(width) && |s| < Pow256(width)
    case Ended => stop !in s
  }

  function SpellForm(s: seq<byte>, form: Form, short: byte, stop: byte): seq<byte>
    requires FormFits(s, form, stop) && short <= 0x70
  {
    match form
    case Short => [short + |s|] + s
    case Counted(width) => [short + 0x21 + Step(width)] + (LittleEndian(|s|, width) + s)
    case Ended => [short + 0x2F] + (s + [stop])
  }

  predicate FormedScalar(x: Scalar) {
    match x
    case Truth(_) => true
    case Small(n) => -1 <= n <= 38
    case Number(raw) => IsWidth(|raw|)
    case Moment(raw) => |raw| == 8
    case Single(raw) => |raw| == 4
    case Double(raw) => |raw| == 8
    case Unique(raw) => |raw| == 16
    case Text(utf8, form) => ValidUtf8(utf8) && FormFits(utf8, form, 0)
    case Blob(data, form) => FormFits(data, form, 3)
  }

  function SpellScalar(x: Scalar): seq<byte>
    requires FormedScalar(x)
  {
    match x
    case Truth(b) => [if b then 0x01 else 0x02]
    case Small(n) => [0x08 + n]
    case Number(raw) => [0x30 + Step(|raw|)] + raw
    case Moment(raw) => [0x06] + raw
    case Single(raw) => [0x35] + raw
    case Double(raw) => [0x36] + raw
    case Unique(raw) => [0x05] + raw
    case Text(utf8, form) => SpellForm(utf8, form, 0x40, 0)
    case Blob(data, form) => SpellForm(data, form, 0x70, 3)
  }

  predicate Formed(doc: Doc) {
    match doc
    case Nil => true
    case Stop => true
    case Lit(x) => FormedScalar(x)
    case Again(index) => index < 48
    case Listed(items, ended) => (ended || |items| <= 14) && AllFormed(items)
    case Tabled(rows, ended) => (ended || |rows| <= 14) && AllRowsFormed(rows)
  }

  predicate AllFormed(items: seq<Doc>) {
    items == [] || (Formed(items[0]) && AllFormed(items[1..]))
  }

  predicate AllRowsFormed(rows: seq<Row>) {
    rows == [] || (RowFormed(rows[0]) && AllRowsFormed(rows[1..]))
  }

  predicate RowFormed(row: Row) {
    Formed(row.key) && Formed(row.val)
  }

  function Spell(doc: Doc): seq<byte>
    requires Formed(doc)
  {
    match doc
    case Nil => [0x04]
    case Stop => [0x03]
    case Lit(x) => SpellScalar(x)
    case Again(index) => [0xA0 + index]
    case Listed(items, ended) => if ended then [0xDF] + SpellAll(items) + [0x03] else [0xD0 + |items|] + SpellAll(items)
    case Tabled(rows, ended) => if ended then [0xEF] + SpellRows(rows) + [0x03] else [0xE0 + |rows|] + SpellRows(rows)
  }

  function SpellAll(items: seq<Doc>): seq<byte>
    requires AllFormed(items)
  {
    if items == [] then [] else Spell(items[0]) + SpellAll(items[1..])
  }

  function SpellRows(rows: seq<Row>): seq<byte>
    requires AllRowsFormed(rows)
  {
    if rows == [] then [] else SpellRow(rows[0]) + SpellRows(rows[1..])
  }

  function SpellRow(row: Row): seq<byte>
    requires RowFormed(row)
  {
    Spell(row.key) + Spell(row.val)
  }

  // ---------------------------------------------------------------- the meaning

  /** Two's complement of however many bytes there are. */
  function Signed(raw: seq<byte>): int {
    var u := FromLittleEndian(raw);
    if 2 * u >= Pow256(|raw|) then u - Pow256(|raw|) else u
  }

  function ScalarValue(x: Scalar): Plain
    requires FormedScalar(x)
  {
    match x
    case Truth(b) => PyBool(b)
    case Small(n) => PyInt(n)
    case Number(raw) => PyInt(Signed(raw))
    case Moment(raw) => PyFloat(UnsignedZero(raw))
    case Single(raw) => PyFloat(UnsignedZero(raw))
    case Double(raw) => PyFloat(UnsignedZero(raw))
    case Unique(raw) => PyStr(UuidText(raw))
    case Text(utf8, _) => PyStr(utf8)
    case Blob(data, _) => PyBytes(data)
  }

  lemma {:induction false} HexSpells(bs: seq<byte>, k: nat)
    requires k < |bs|
    ensures |Hex(bs)| == 2 * |bs|
    ensures Hex(bs)[2 * k] == "0123456789abcdef"[bs[k] / 16] as int
    ensures Hex(bs)[2 * k + 1] == "0123456789abcdef"[bs[k] % 16] as int
  {
    if k == 0 {
      if |bs| > 1 {
        HexSpells(bs[1..], 0);
      }
    } else {
      HexSpells(bs[1..], k - 1);
    }
  }

  lemma {:induction false} HexLength(bs: seq<byte>)
    ensures |Hex(bs)| == 2 * |bs|
  {
    if bs == [] {
    } else {
      HexLength(bs[1..]);
    }
  }

  lemma {:induction false} HexAppend(a: seq<byte>, b: seq<byte>)
    ensures Hex(a + b) == Hex(a) + Hex(b)
  {
    if a == [] {
      assert a + b == b;
    } else {
      assert (a + b)[1..] == a[1..] + b;
      HexAppend(a[1..], b);
    }
  }

  /** The text of a UUID: its digits two by two, with dashes in four places. */
  lemma {:induction false} UuidIsSpelled(raw: Bits128)
    ensures var text := UuidText(raw);
            && |text| == 36 && text[8] == text[13] == text[18] == text[23] == '-' as int
            && text[..8] + text[9..13] + text[14..18] + text[19..23] + text[24..] == Hex(raw)
  {
    var a, b, c, d, e := raw[..4], raw[4..6], raw[6..8], raw[8..10], raw[10..];
    HexLength(a);
    HexLength(b);
    HexLength(c);
    HexLength(d);
    HexLength(e);
    HexAppend(a, b);
    HexAppend(a + b, c);
    HexAppend(a + b + c, d);
    HexAppend(a + b + c + d, e);
    assert raw == a + b + c + d + e;
    UuidParts(Hex(a), Hex(b), Hex(c), Hex(d), Hex(e));
  }

  lemma {:induction false} UuidParts(a: seq<byte>, b: seq<byte>, c: seq<byte>, d: seq<byte>, e: seq<byte>)
    requires |a| == 8 && |b| == 4 && |c| == 4 && |d| == 4 && |e| == 12
    ensures var text := a + [45] + b + [45] + c + [45] + d + [45] + e;
            && |text| == 36 && text[8] == text[13] == text[18] == text[23] == 45
            && text[..8] == a && text[9..13] == b && text[14..18] == c && text[19..23] == d && text[24..] == e
  {
  }

  /** A value and the table of scalars behind it. */
  datatype Got<+T> = Got(value: T, seen: seq<Plain>)

  /** What a document means, given the scalars before it and the containers around it. */
  function Read(doc: Doc, seen: seq<Plain>, depth: nat): Option<Got<Plain>>
    requires Formed(doc)
  {
    if depth > 64 then None
    else
      match doc
      case Nil => Some(Got(PyNone, seen))
      case Stop => Some(Got(PyTerminator, seen))
      case Lit(x) => Some(Got(ScalarValue(x), seen + [ScalarValue(x)]))
      case Again(index) => if index < |seen| then Some(Got(seen[index], seen)) else None
      case Listed(items, ended) =>
        if ended && depth == 64 then None
        else
          (match ReadAll(items, seen, depth + 1, ended, [])
           case None => None
           case Some(g) => Some(Got(PyList(g.value), g.seen)))
      case Tabled(rows, ended) =>
        if ended && depth == 64 then None
        else
          (match ReadRows(rows, seen, depth + 1, ended, [])
           case None => None
           case Some(g) => Some(Got(PyDict(g.value), g.seen)))
  }

  /** Items one after the other; where a terminator ends them, none of them is one. */
  function ReadAll(items: seq<Doc>, seen: seq<Plain>, depth: nat, ended: bool, acc: seq<Plain>)
    : Option<Got<seq<Plain>>>
    requires AllFormed(items)
    decreases items
  {
    if items == [] then Some(Got(acc, seen))
    else
      match Read(items[0], seen, depth)
      case None => None
      case Some(g) =>
        if ended && g.value.PyTerminator? then None
        else ReadAll(items[1..], g.seen, depth, ended, acc + [g.value])
  }

  function ReadRow(row: Row, seen: seq<Plain>, depth: nat, ended: bool): Option<Got<Pair>>
    requires RowFormed(row)
  {
    match Read(row.key, seen, depth)
    case None => None
    case Some(k) =>
      if ended && k.value.PyTerminator? then None
      else
        match Read(row.val, k.seen, depth)
        case None => None
        case Some(v) => if Hashable(k.value) then Some(Got(Pair(k.value, v.value), v.seen)) else None
  }

  function ReadRows(rows: seq<Row>, seen: seq<Plain>, depth: nat, ended: bool, acc: seq<Pair>)
    : Option<Got<seq<Pair>>>
    requires AllRowsFormed(rows)
    decreases rows
  {
    if rows == [] then Some(Got(acc, seen))
    else
      match ReadRow(rows[0], seen, depth, ended)
      case None => None
      case Some(g) => ReadRows(rows[1..], g.seen, depth, ended, Insert(acc, g.value.key, g.value.val))
  }

  // ---------------------------------------------------------------- scalars, both ways

  lemma {:induction false} CountedReads(s: seq<byte>, width: nat, rest: seq<byte>)
    requires IsWidth(width) && |s| < Pow256(width)
    ensures TakeSized(LittleEndian(|s|, width) + s + rest, width) == Ok(Taken(s, rest))
  {
    var prefix := LittleEndian(|s|, width);
    assert prefix + s + rest == prefix + (s + rest);
    TakeFront(prefix, s + rest);
    LittleEndianRoundTrip(|s|, width);
    TakeFront(s, rest);
  }

  lemma {:induction false} FormReads(s: seq<byte>, form: Form, short: byte, stop: byte, rest: seq<byte>)
    requires FormFits(s, form, stop) && (if short == 0x40 then stop == 0 else short == 0x70 && stop == 3)
    ensures var bs := SpellForm(s, form, short, stop);
            && LiteralTag(bs[0])
            && TakeExtent(bs[1..] + rest, ExtentOf(bs[0])) == Ok(Taken(s, rest))
  {
    var bs := SpellForm(s, form, short, stop);
    match form
    case Short =>
      assert bs[1..] == s;
      TakeFront(s, rest);
    case Counted(width) =>
      assert bs[1..] == LittleEndian(|s|, width) + s;
      CountedReads(s, width, rest);
    case Ended =>
      assert bs[1..] == s + [stop];
      HdsDecoder.TakeUntilFinds(s, stop, rest);
  }

  lemma {:induction false} NumberReads(raw: seq<byte>)
    requires IsWidth(|raw|)
    ensures LiteralTag(0x30 + Step(|raw|)) && ExtentOf(0x30 + Step(|raw|)) == Exactly(|raw|)
    ensures ScalarOf(0x30 + Step(|raw|), raw) == Ok(PyInt(Signed(raw)))
  {
    W8.Capacity();
    W16.Capacity();
    W32.Capacity();
    W64.Capacity();
  }

  lemma {:induction false} ScalarReadsBack(x: Scalar, rest: seq<byte>)
    requires FormedScalar(x)
    ensures var bs := SpellScalar(x);
            bs != [] && LiteralTag(bs[0]) && DecLiteral(bs[0], bs[1..] + rest) == Ok(Taken(ScalarValue(x), rest))
  {
    var bs := SpellScalar(x);
    match x
    case Text(utf8, form) => FormReads(utf8, form, 0x40, 0, rest);
    case Blob(data, form) => FormReads(data, form, 0x70, 3, rest);
    case Truth(_) =>
      assert bs[1..] + rest == rest && rest[..0] == [] && rest[0..] == rest;
    case Small(_) =>
      assert bs[1..] + rest == rest && rest[..0] == [] && rest[0..] == rest;
    case Number(raw) =>
      assert bs[1..] == raw;
      NumberReads(raw);
      TakeFront(raw, rest);
    case _ =>
      assert bs[1..] == x.raw;
      TakeFront(x.raw, rest);
  }

  // ---------------------------------------------------------------- whatever is written is read

  lemma ArrayTagReads(tag: byte, body: seq<byte>, seen: seq<Plain>, depth: nat)
    requires 0xD0 <= tag <= 0xDF && depth <= 64
    ensures DecValue([tag] + body, seen, depth) == DecArray(tag, body, seen, depth + 1)
  {
    assert ([tag] + body)[1..] == body;
  }

  lemma DictTagReads(tag: byte, body: seq<byte>, seen: seq<Plain>, depth: nat)
    requires 0xE0 <= tag <= 0xEF && depth <= 64
    ensures DecValue([tag] + body, seen, depth) == DecDict(tag, body, seen, depth + 1)
  {
    assert ([tag] + body)[1..] == body;
  }

  lemma LiteralTagReads(tag: byte, body: seq<byte>, t: Taken<Plain>, seen: seq<Plain>, depth: nat)
    requires LiteralTag(tag) && depth <= 64 && DecLiteral(tag, body) == Ok(t)
    ensures DecValue([tag] + body, seen, depth) == Ok(Parsed(t.value, t.rest, seen + [t.value]))
  {
    assert ([tag] + body)[1..] == body;
    LiteralValue([tag] + body, seen, depth);
  }

  lemma ArrayIs(tag: byte, bs: seq<byte>, seen: seq<Plain>, depth: nat, p: Parsed<seq<Plain>>)
    requires 0xD0 <= tag <= 0xDF
    requires (if tag == 0xDF then DecItemsOpen(bs, seen, depth, [])
              else DecItems(bs, seen, depth, tag - 0xD0, [])) == Ok(p)
    ensures DecArray(tag, bs, seen, depth) == Ok(Parsed(PyList(p.value), p.rest, p.seen))
  {
  }

  lemma DictIs(tag: byte, bs: seq<byte>, seen: seq<Plain>, depth: nat, p: Parsed<seq<Pair>>)
    requires 0xE0 <= tag <= 0xEF
    requires (if tag == 0xEF then DecEntriesOpen(bs, seen, depth, [])
              else DecEntries(bs, seen, depth, tag - 0xE0, [])) == Ok(p)
    ensures DecDict(tag, bs, seen, depth) == Ok(Parsed(PyDict(p.value), p.rest, p.seen))
  {
  }

  lemma OneByteReads(tag: byte, rest: seq<byte>, seen: seq<Plain>, depth: nat)
    requires depth <= 64
    ensures DecValue([0x03] + rest, seen, depth) == Ok(Parsed(PyTerminator, rest, seen))
    ensures DecValue([0x04] + rest, seen, depth) == Ok(Parsed(PyNone, rest, seen))
    ensures 0xA0 <= tag < 0xD0 && tag - 0xA0 < |seen| ==>
              DecValue([tag] + rest, seen, depth) == Ok(Parsed(seen[tag - 0xA0], rest, seen))
  {
    assert ([0x03] + rest)[1..] == rest && ([0x04] + rest)[1..] == rest && ([tag] + rest)[1..] == rest;
  }

  lemma Framed(tag: byte, body: seq<byte>, stop: byte, rest: seq<byte>)
    ensures [tag] + body + [stop] + rest == [tag] + (body + ([stop] + rest))
    ensures [tag] + body + rest == [tag] + (body + rest)
  {
  }

  lemma {:induction false} DocReads(doc: Doc, seen: seq<Plain>, depth: nat, rest: seq<byte>)
    requires Formed(doc) && Read(doc, seen, depth).Some?
    ensures var g := Read(doc, seen, depth).value;
            DecValue(Spell(doc) + rest, seen, depth) == Ok(Parsed(g.value, rest, g.seen))
    decreases doc, 0
  {
    match doc
    case Lit(x) => LitReads(x, seen, depth, rest);
    case Listed(items, ended) => ListReads(items, ended, seen, depth, rest);
    case Tabled(rows, ended) => TableReads(rows, ended, seen, depth, rest);
    case Again(index) => OneByteReads(0xA0 + index, rest, seen, depth);
    case _ => OneByteReads(0x03, rest, seen, depth);
  }

  lemma {:induction false} LitReads(x: Scalar, seen: seq<Plain>, depth: nat, rest: seq<byte>)
    requires FormedScalar(x) && depth <= 64
    ensures DecValue(SpellScalar(x) + rest, seen, depth)
         == Ok(Parsed(ScalarValue(x), rest, seen + [ScalarValue(x)]))
  {
    var bs := SpellScalar(x);
    ScalarReadsBack(x, rest);
    LiteralTagReads(bs[0], bs[1..] + rest, Taken(ScalarValue(x), rest), seen, depth);
    assert bs == [bs[0]] + bs[1..];
    Associative([bs[0]], bs[1..], rest);
  }

  lemma {:induction false} EndedListReads(
    items: seq<Doc>, tag: byte, seen: seq<Plain>, depth: nat, g: Got<seq<Plain>>, rest: seq<byte>)
    requires AllFormed(items) && tag == 0xDF && depth < 64 && ReadAll(items, seen, depth + 1, true, []) == Some(g)
    ensures DecValue([tag] + SpellAll(items) + [0x03] + rest, seen, depth) == Ok(Parsed(PyList(g.value), rest, g.seen))
    decreases items, 2
  {
    var body := SpellAll(items) + ([0x03] + rest);
    EndedItemsRead(items, seen, depth + 1, [], rest);
    ArrayIs(tag, body, seen, depth + 1, Parsed(g.value, rest, g.seen));
    ArrayTagReads(tag, body, seen, depth);
    Framed(tag, SpellAll(items), 0x03, rest);
  }

  lemma {:induction false} CountedListReads(
    items: seq<Doc>, tag: byte, seen: seq<Plain>, depth: nat, g: Got<seq<Plain>>, rest: seq<byte>)
    requires AllFormed(items) && |items| <= 14 && tag == 0xD0 + |items| && depth <= 64
    requires ReadAll(items, seen, depth + 1, false, []) == Some(g)
    ensures DecValue([tag] + SpellAll(items) + rest, seen, depth) == Ok(Parsed(PyList(g.value), rest, g.seen))
    decreases items, 2
  {
    var body := SpellAll(items) + rest;
    CountedItemsRead(items, seen, depth + 1, [], rest);
    ArrayIs(tag, body, seen, depth + 1, Parsed(g.value, rest, g.seen));
    ArrayTagReads(tag, body, seen, depth);
    Framed(tag, SpellAll(items), 0x03, rest);
  }

  lemma {:induction false} ListReads(
    items: seq<Doc>, ended: bool, seen: seq<Plain>, depth: nat, rest: seq<byte>)
    requires Formed(Listed(items, ended)) && Read(Listed(items, ended), seen, depth).Some?
    ensures var g := Read(Listed(items, ended), seen, depth).value;
            DecValue(Spell(Listed(items, ended)) + rest, seen, depth) == Ok(Parsed(g.value, rest, g.seen))
    decreases items, 3
  {
    var g := ReadAll(items, seen, depth + 1, ended, []).value;
    if ended {
      EndedListReads(items, 0xDF, seen, depth, g, rest);
    } else {
      CountedListReads(items, 0xD0 + |items|, seen, depth, g, rest);
    }
  }

  lemma {:induction false} EndedTableReads(
    rows: seq<Row>, tag: byte, seen: seq<Plain>, depth: nat, g: Got<seq<Pair>>, rest: seq<byte>)
    requires AllRowsFormed(rows) && tag == 0xEF && depth < 64 && ReadRows(rows, seen, depth + 1, true, []) == Some(g)
    ensures DecValue([tag] + SpellRows(rows) + [0x03] + rest, seen, depth) == Ok(Parsed(PyDict(g.value), rest, g.seen))
    decreases rows, 3
  {
    var body := SpellRows(rows) + ([0x03] + rest);
    EndedRowsRead(rows, seen, depth + 1, [], rest);
    DictIs(tag, body, seen, depth + 1, Parsed(g.value, rest, g.seen));
    DictTagReads(tag, body, seen, depth);
    Framed(tag, SpellRows(rows), 0x03, rest);
  }

  lemma {:induction false} CountedTableReads(
    rows: seq<Row>, tag: byte, seen: seq<Plain>, depth: nat, g: Got<seq<Pair>>, rest: seq<byte>)
    requires AllRowsFormed(rows) && |rows| <= 14 && tag == 0xE0 + |rows| && depth <= 64
    requires ReadRows(rows, seen, depth + 1, false, []) == Some(g)
    ensures DecValue([tag] + SpellRows(rows) + rest, seen, depth) == Ok(Parsed(PyDict(g.value), rest, g.seen))
    decreases rows, 3
  {
    var body := SpellRows(rows) + rest;
    CountedRowsRead(rows, seen, depth + 1, [], rest);
    DictIs(tag, body, seen, depth + 1, Parsed(g.value, rest, g.seen));
    DictTagReads(tag, body, seen, depth);
    Framed(tag, SpellRows(rows), 0x03, rest);
  }

  lemma {:induction false} TableReads(
    rows: seq<Row>, ended: bool, seen: seq<Plain>, depth: nat, rest: seq<byte>)
    requires Formed(Tabled(rows, ended)) && Read(Tabled(rows, ended), seen, depth).Some?
    ensures var g := Read(Tabled(rows, ended), seen, depth).value;
            DecValue(Spell(Tabled(rows, ended)) + rest, seen, depth) == Ok(Parsed(g.value, rest, g.seen))
    decreases rows, 4
  {
    var g := ReadRows(rows, seen, depth + 1, ended, []).value;
    if ended {
      EndedTableReads(rows, 0xEF, seen, depth, g, rest);
    } else {
      CountedTableReads(rows, 0xE0 + |rows|, seen, depth, g, rest);
    }
  }

  lemma {:induction false} CountedItemsRead(
    items: seq<Doc>, seen: seq<Plain>, depth: nat, acc: seq<Plain>, rest: seq<byte>)
    requires AllFormed(items) && ReadAll(items, seen, depth, false, acc).Some?
    ensures var g := ReadAll(items, seen, depth, false, acc).value;
            DecItems(SpellAll(items) + rest, seen, depth, |items|, acc) == Ok(Parsed(g.value, rest, g.seen))
    decreases items, 1
  {
    if items == [] {
      assert [] + rest == rest;
    } else {
      var more := SpellAll(items[1..]) + rest;
      var g := Read(items[0], seen, depth).value;
      assert SpellAll(items) + rest == Spell(items[0]) + more;
      DocReads(items[0], seen, depth, more);
      CountedItemsRead(items[1..], g.seen, depth, acc + [g.value], rest);
    }
  }

  lemma {:induction false} EndedItemsRead(
    items: seq<Doc>, seen: seq<Plain>, depth: nat, acc: seq<Plain>, rest: seq<byte>)
    requires AllFormed(items) && depth <= 64 && ReadAll(items, seen, depth, true, acc).Some?
    ensures var g := ReadAll(items, seen, depth, true, acc).value;
            DecItemsOpen(SpellAll(items) + ([0x03] + rest), seen, depth, acc) == Ok(Parsed(g.value, rest, g.seen))
    decreases items, 1
  {
    if items == [] {
      assert [] + ([0x03] + rest) == [0x03] + rest;
      OneByteReads(0x03, rest, seen, depth);
    } else {
      var more := SpellAll(items[1..]) + ([0x03] + rest);
      var g := Read(items[0], seen, depth).value;
      assert SpellAll(items) + ([0x03] + rest) == Spell(items[0]) + more;
      DocReads(items[0], seen, depth, more);
      EndedItemsRead(items[1..], g.seen, depth, acc + [g.value], rest);
    }
  }

  lemma {:induction false} RowReads(
    row: Row, seen: seq<Plain>, depth: nat, ended: bool, acc: seq<Pair>, rest: seq<byte>)
    requires RowFormed(row) && ReadRow(row, seen, depth, ended).Some?
    ensures var g := ReadRow(row, seen, depth, ended).value;
            var d := Insert(acc, g.value.key, g.value.val);
            && DecEntry(SpellRow(row) + rest, seen, depth, acc) == Ok(Parsed(d, rest, g.seen))
            && (ended ==> DecEntryOpen(SpellRow(row) + rest, seen, depth, acc) == Ok(Parsed(Some(d), rest, g.seen)))
    decreases row, 1
  {
    var k := Read(row.key, seen, depth).value;
    var more := Spell(row.val) + rest;
    assert SpellRow(row) + rest == Spell(row.key) + more;
    DocReads(row.key, seen, depth, more);
    DocReads(row.val, k.seen, depth, rest);
  }

  lemma {:induction false} CountedRowsRead(
    rows: seq<Row>, seen: seq<Plain>, depth: nat, acc: seq<Pair>, rest: seq<byte>)
    requires AllRowsFormed(rows) && ReadRows(rows, seen, depth, false, acc).Some?
    ensures var g := ReadRows(rows, seen, depth, false, acc).value;
            DecEntries(SpellRows(rows) + rest, seen, depth, |rows|, acc) == Ok(Parsed(g.value, rest, g.seen))
    decreases rows, 2
  {
    if rows == [] {
      assert [] + rest == rest;
    } else {
      var more := SpellRows(rows[1..]) + rest;
      var g := ReadRow(rows[0], seen, depth, false).value;
      assert SpellRows(rows) + rest == SpellRow(rows[0]) + more;
      RowReads(rows[0], seen, depth, false, acc, more);
      CountedRowsRead(rows[1..], g.seen, depth, Insert(acc, g.value.key, g.value.val), rest);
    }
  }

  lemma {:induction false} EndedRowsRead(
    rows: seq<Row>, seen: seq<Plain>, depth: nat, acc: seq<Pair>, rest: seq<byte>)
    requires AllRowsFormed(rows) && depth <= 64 && ReadRows(rows, seen, depth, true, acc).Some?
    ensures var g := ReadRows(rows, seen, depth, true, acc).value;
            DecEntriesOpen(SpellRows(rows) + ([0x03] + rest), seen, depth, acc) == Ok(Parsed(g.value, rest, g.seen))
    decreases rows, 2
  {
    if rows == [] {
      assert [] + ([0x03] + rest) == [0x03] + rest;
      OneByteReads(0x03, rest, seen, depth);
    } else {
      var more := SpellRows(rows[1..]) + ([0x03] + rest);
      var g := ReadRow(rows[0], seen, depth, true).value;
      assert SpellRows(rows) + ([0x03] + rest) == SpellRow(rows[0]) + more;
      RowReads(rows[0], seen, depth, true, acc, more);
      EndedRowsRead(rows[1..], g.seen, depth, Insert(acc, g.value.key, g.value.val), rest);
    }
  }

  // ---------------------------------------------------------------- no terminator is ever tracked

  predicate NoStops(seen: seq<Plain>) {
    forall i | 0 <= i < |seen| :: !seen[i].PyTerminator?
  }

  lemma {:induction false} DocTracksNoStop(doc: Doc, seen: seq<Plain>, depth: nat)
    requires Formed(doc) && NoStops(seen) && Read(doc, seen, depth).Some?
    ensures NoStops(Read(doc, seen, depth).value.seen)
    decreases doc, 0
  {
    match doc
    case Listed(items, ended) => ItemsTrackNoStop(items, seen, depth + 1, ended, []);
    case Tabled(rows, ended) => RowsTrackNoStop(rows, seen, depth + 1, ended, []);
    case _ =>
  }

  lemma {:induction false} ItemsTrackNoStop(
    items: seq<Doc>, seen: seq<Plain>, depth: nat, ended: bool, acc: seq<Plain>)
    requires AllFormed(items) && NoStops(seen) && ReadAll(items, seen, depth, ended, acc).Some?
    ensures NoStops(ReadAll(items, seen, depth, ended, acc).value.seen)
    decreases items, 1
  {
    if items == [] {
    } else {
      var g := Read(items[0], seen, depth).value;
      DocTracksNoStop(items[0], seen, depth);
      ItemsTrackNoStop(items[1..], g.seen, depth, ended, acc + [g.value]);
    }
  }

  lemma {:induction false} RowTracksNoStop(row: Row, seen: seq<Plain>, depth: nat, ended: bool)
    requires RowFormed(row) && NoStops(seen) && ReadRow(row, seen, depth, ended).Some?
    ensures NoStops(ReadRow(row, seen, depth, ended).value.seen)
    decreases row, 1
  {
    DocTracksNoStop(row.key, seen, depth);
    DocTracksNoStop(row.val, Read(row.key, seen, depth).value.seen, depth);
  }

  lemma {:induction false} RowsTrackNoStop(
    rows: seq<Row>, seen: seq<Plain>, depth: nat, ended: bool, acc: seq<Pair>)
    requires AllRowsFormed(rows) && NoStops(seen) && ReadRows(rows, seen, depth, ended, acc).Some?
    ensures NoStops(ReadRows(rows, seen, depth, ended, acc).value.seen)
    decreases rows, 2
  {
    if rows == [] {
    } else {
      var g := ReadRow(rows[0], seen, depth, ended).value;
      RowTracksNoStop(rows[0], seen, depth, ended);
      RowsTrackNoStop(rows[1..], g.seen, depth, ended, Insert(acc, g.value.key, g.value.val));
    }
  }

  // ---------------------------------------------------------------- whatever is read was written

  /** The document `doc` stands at the front of `bs` and means what was read. */
  ghost predicate Explains<T>(bs: seq<byte>, front: seq<byte>, p: Parsed<T>, g: Option<Got<T>>) {
    bs == front + p.rest && g == Some(Got(p.value, p.seen))
  }

  lemma {:induction false} CountedIsFront(bs: seq<byte>, width: nat)
    requires IsWidth(width) && TakeSized(bs, width).Ok?
    ensures var t := TakeSized(bs, width).value;
            |t.value| < Pow256(width) && bs == (LittleEndian(|t.value|, width) + t.value) + t.rest
  {
    var t := TakeSized(bs, width).value;
    LittleEndianInverse(bs[..width]);
    assert bs == bs[..width] + (t.value + t.rest);
    Associative(bs[..width], t.value, t.rest);
  }

  /** The payload behind a tag of a text or a blob, by the number of the tag. */
  lemma ExtentIs(tag: byte, short: byte, stop: byte)
    requires if short == 0x40 then stop == 0 else short == 0x70 && stop == 3
    requires LiteralTag(tag) && short <= tag <= short + 0x2F
    ensures tag <= short + 0x20 ==> ExtentOf(tag) == Exactly(tag - short)
    ensures short + 0x20 < tag ==> tag <= short + 0x24 || tag == short + 0x2F
    ensures short + 0x20 < tag <= short + 0x24 ==>
              var width := LengthWidth(tag, short + 0x21);
              IsWidth(width) && ExtentOf(tag) == Prefixed(width) && tag == short + 0x21 + Step(width)
    ensures tag == short + 0x2F ==> ExtentOf(tag) == UpTo(stop)
  {
  }

  lemma {:induction false} FormOfExtent(
    tag: byte, extent: Extent, bs: seq<byte>, t: Taken<seq<byte>>, short: byte, stop: byte) returns (form: Form)
    requires short <= 0x70 && TakeExtent(bs, extent) == Ok(t)
    requires match extent
             case Exactly(count) => count <= 32 && tag == short + count
             case Prefixed(width) => IsWidth(width) && tag == short + 0x21 + Step(width)
             case UpTo(end) => end == stop && tag == short + 0x2F
    ensures FormFits(t.value, form, stop) && [tag] + bs == SpellForm(t.value, form, short, stop) + t.rest
  {
    match extent
    case Exactly(_) =>
      form := Short;
      assert bs == t.value + t.rest;
      Associative([tag], t.value, t.rest);
    case Prefixed(width) =>
      form := Counted(width);
      CountedIsFront(bs, width);
      Associative([tag], LittleEndian(|t.value|, width) + t.value, t.rest);
    case UpTo(_) =>
      form := Ended;
      UntilIsFront(bs, stop);
      Associative([tag], t.value + [stop], t.rest);
  }

  lemma {:induction false} FormOf(tag: byte, bs: seq<byte>, short: byte, stop: byte) returns (form: Form)
    requires if short == 0x40 then stop == 0 else short == 0x70 && stop == 3
    requires LiteralTag(tag) && short <= tag <= short + 0x2F && TakeExtent(bs, ExtentOf(tag)).Ok?
    ensures var t := TakeExtent(bs, ExtentOf(tag)).value;
            FormFits(t.value, form, stop) && [tag] + bs == SpellForm(t.value, form, short, stop) + t.rest
  {
    ExtentIs(tag, short, stop);
    form := FormOfExtent(tag, ExtentOf(tag), bs, TakeExtent(bs, ExtentOf(tag)).value, short, stop);
  }

  lemma {:induction false} UntilIsFront(bs: seq<byte>, stop: byte)
    requires TakeUntil(bs, stop).Ok?
    ensures var t := TakeUntil(bs, stop).value; stop !in t.value && bs == (t.value + [stop]) + t.rest
  {
    if bs[0] == stop {
    } else {
      UntilIsFront(bs[1..], stop);
      assert bs == [bs[0]] + bs[1..];
    }
  }

  lemma {:induction false} FixedScalarOf(tag: byte, raw: seq<byte>) returns (x: Scalar)
    requires LiteralTag(tag) && tag < 0x40 && ExtentOf(tag) == Exactly(|raw|) && ScalarOf(tag, raw).Ok?
    ensures FormedScalar(x) && [tag] + raw == SpellScalar(x) && Ok(ScalarValue(x)) == ScalarOf(tag, raw)
  {
    if tag <= 0x02 {
      x := Truth(tag == 0x01);
    } else if tag == 0x05 {
      x := Unique(raw);
    } else if tag == 0x06 {
      x := Moment(raw);
    } else if tag <= 0x2E {
      x := Small(tag - 0x08);
    } else if tag <= 0x33 {
      x := Number(raw);
      NumberReads(raw);
    } else if tag == 0x35 {
      x := Single(raw);
    } else {
      x := Double(raw);
    }
  }

  lemma LiteralParts(tag: byte, bs: seq<byte>)
    requires LiteralTag(tag) && DecLiteral(tag, bs).Ok?
    ensures TakeExtent(bs, ExtentOf(tag)).Ok?
    ensures var t, v := TakeExtent(bs, ExtentOf(tag)).value, DecLiteral(tag, bs).value;
            ScalarOf(tag, t.value) == Ok(v.value) && v.rest == t.rest
  {
  }

  /** What the number of a tag says about the value. */
  lemma KindOfTag(tag: byte, raw: seq<byte>)
    requires LiteralTag(tag) && (ExtentOf(tag).Exactly? ==> |raw| == ExtentOf(tag).count) && ScalarOf(tag, raw).Ok?
    ensures tag >= 0x70 ==> tag <= 0x9F && ScalarOf(tag, raw) == Ok(PyBytes(raw))
    ensures 0x40 <= tag < 0x70 ==> ValidUtf8(raw) && ScalarOf(tag, raw) == Ok(PyStr(raw))
    ensures tag < 0x40 ==> ExtentOf(tag).Exactly?
  {
  }

  lemma {:induction false} TextOfTag(tag: byte, bs: seq<byte>, t: Taken<seq<byte>>, short: byte, stop: byte)
    returns (x: Scalar)
    requires short == 0x40 && stop == 0 && LiteralTag(tag) && short <= tag <= short + 0x2F
    requires TakeExtent(bs, ExtentOf(tag)) == Ok(t) && ValidUtf8(t.value)
    ensures FormedScalar(x) && [tag] + bs == SpellScalar(x) + t.rest && ScalarValue(x) == PyStr(t.value)
  {
    var form := FormOf(tag, bs, short, stop);
    x := Text(t.value, form);
  }

  lemma {:induction false} BlobOfTag(tag: byte, bs: seq<byte>, t: Taken<seq<byte>>, short: byte, stop: byte)
    returns (x: Scalar)
    requires short == 0x70 && stop == 3 && LiteralTag(tag) && short <= tag <= short + 0x2F
    requires TakeExtent(bs, ExtentOf(tag)) == Ok(t)
    ensures FormedScalar(x) && [tag] + bs == SpellScalar(x) + t.rest && ScalarValue(x) == PyBytes(t.value)
  {
    var form := FormOf(tag, bs, short, stop);
    x := Blob(t.value, form);
  }

  lemma {:induction false} FixedOfTag(tag: byte, bs: seq<byte>, t: Taken<seq<byte>>) returns (x: Scalar)
    requires LiteralTag(tag) && tag < 0x40 && ExtentOf(tag).Exactly? && TakeExtent(bs, ExtentOf(tag)) == Ok(t)
    requires ScalarOf(tag, t.value).Ok?
    ensures FormedScalar(x) && [tag] + bs == SpellScalar(x) + t.rest && Ok(ScalarValue(x)) == ScalarOf(tag, t.value)
  {
    x := FixedScalarOf(tag, t.value);
    assert bs == t.value + t.rest;
    Associative([tag], t.value, t.rest);
  }

  lemma {:induction false} ScalarOfTag(tag: byte, bs: seq<byte>) returns (x: Scalar)
    requires LiteralTag(tag) && DecLiteral(tag, bs).Ok?
    ensures var t := DecLiteral(tag, bs).value;
            FormedScalar(x) && [tag] + bs == SpellScalar(x) + t.rest && ScalarValue(x) == t.value
  {
    LiteralParts(tag, bs);
    var t := TakeExtent(bs, ExtentOf(tag)).value;
    KindOfTag(tag, t.value);
    if tag >= 0x70 {
      x := BlobOfTag(tag, bs, t, 0x70, 3);
    } else if tag >= 0x40 {
      x := TextOfTag(tag, bs, t, 0x40, 0);
    } else {
      x := FixedOfTag(tag, bs, t);
    }
  }

  lemma {:induction false} DocOf(bs: seq<byte>, seen: seq<Plain>, depth: nat) returns (doc: Doc)
    requires NoStops(seen) && DecValue(bs, seen, depth).Ok?
    ensures Formed(doc) && Explains(bs, Spell(doc), DecValue(bs, seen, depth).value, Read(doc, seen, depth))
    decreases |bs|, 0
  {
    var tag, rest := bs[0], bs[1..];
    assert bs == [tag] + rest;
    if LiteralTag(tag) {
      var x := ScalarOfTag(tag, rest);
      doc := Lit(x);
    } else if 0xD0 <= tag <= 0xDF {
      doc := ListOf(tag, rest, seen, depth + 1);
    } else if 0xE0 <= tag <= 0xEF {
      doc := TableOf(tag, rest, seen, depth + 1);
    } else {
      doc := if tag == 0x03 then Stop else if tag == 0x04 then Nil else Again(tag - 0xA0);
    }
  }

  lemma {:induction false} ListMeans(items: seq<Doc>, ended: bool, seen: seq<Plain>, depth: nat, g: Got<seq<Plain>>)
    requires Formed(Listed(items, ended)) && 1 <= depth <= (if ended then 64 else 65)
    requires ReadAll(items, seen, depth, ended, []) == Some(g)
    ensures Read(Listed(items, ended), seen, depth - 1) == Some(Got(PyList(g.value), g.seen))
  {
  }

  lemma {:induction false} ListOf(tag: byte, bs: seq<byte>, seen: seq<Plain>, depth: nat) returns (doc: Doc)
    requires NoStops(seen) && 0xD0 <= tag <= 0xDF && 1 <= depth <= 65 && DecArray(tag, bs, seen, depth).Ok?
    ensures Formed(doc)
    ensures Explains([tag] + bs, Spell(doc), DecArray(tag, bs, seen, depth).value, Read(doc, seen, depth - 1))
    decreases |bs|, 5
  {
    var ended := tag == 0xDF;
    var p: Parsed<seq<Plain>>;
    var items: seq<Doc>;
    if ended {
      p := DecItemsOpen(bs, seen, depth, []).value;
      items := EndedItemsOf(bs, seen, depth, []);
      Associative(SpellAll(items), [0x03], p.rest);
    } else {
      p := DecItems(bs, seen, depth, tag - 0xD0, []).value;
      items := CountedItemsOf(bs, seen, depth, tag - 0xD0, []);
    }
    ArrayIs(tag, bs, seen, depth, p);
    ListMeans(items, ended, seen, depth, Got(p.value, p.seen));
    Framed(tag, SpellAll(items), 0x03, p.rest);
    doc := Listed(items, ended);
  }

  lemma {:induction false} TableMeans(rows: seq<Row>, ended: bool, seen: seq<Plain>, depth: nat, g: Got<seq<Pair>>)
    requires Formed(Tabled(rows, ended)) && 1 <= depth <= (if ended then 64 else 65)
    requires ReadRows(rows, seen, depth, ended, []) == Some(g)
    ensures Read(Tabled(rows, ended), seen, depth - 1) == Some(Got(PyDict(g.value), g.seen))
  {
  }

  lemma {:induction false} TableOf(tag: byte, bs: seq<byte>, seen: seq<Plain>, depth: nat) returns (doc: Doc)
    requires NoStops(seen) && 0xE0 <= tag <= 0xEF && 1 <= depth <= 65 && DecDict(tag, bs, seen, depth).Ok?
    ensures Formed(doc)
    ensures Explains([tag] + bs, Spell(doc), DecDict(tag, bs, seen, depth).value, Read(doc, seen, depth - 1))
    decreases |bs|, 5
  {
    var ended := tag == 0xEF;
    var p: Parsed<seq<Pair>>;
    var rows: seq<Row>;
    if ended {
      p := DecEntriesOpen(bs, seen, depth, []).value;
      rows := EndedRowsOf(bs, seen, depth, []);
      Associative(SpellRows(rows), [0x03], p.rest);
    } else {
      p := DecEntries(bs, seen, depth, tag - 0xE0, []).value;
      rows := CountedRowsOf(bs, seen, depth, tag - 0xE0, []);
    }
    DictIs(tag, bs, seen, depth, p);
    TableMeans(rows, ended, seen, depth, Got(p.value, p.seen));
    Framed(tag, SpellRows(rows), 0x03, p.rest);
    doc := Tabled(rows, ended);
  }

  /** A first item in front of others that were found. */
  lemma {:induction false} ItemFirst(
    doc: Doc, more: seq<Doc>, seen: seq<Plain>, depth: nat, ended: bool, acc: seq<Plain>)
    requires Formed(doc) && AllFormed(more) && Read(doc, seen, depth).Some?
    requires ended ==> !Read(doc, seen, depth).value.value.PyTerminator?
    ensures var items, g := [doc] + more, Read(doc, seen, depth).value;
            && AllFormed(items) && SpellAll(items) == Spell(doc) + SpellAll(more)
            && ReadAll(items, seen, depth, ended, acc) == ReadAll(more, g.seen, depth, ended, acc + [g.value])
  {
    assert ([doc] + more)[1..] == more;
  }

  lemma {:induction false} CountedItemsOf(bs: seq<byte>, seen: seq<Plain>, depth: nat, count: nat, acc: seq<Plain>)
    returns (items: seq<Doc>)
    requires NoStops(seen) && DecItems(bs, seen, depth, count, acc).Ok?
    ensures AllFormed(items) && |items| == count
    ensures Explains(bs, SpellAll(items), DecItems(bs, seen, depth, count, acc).value,
                     ReadAll(items, seen, depth, false, acc))
    decreases |bs|, 1, count
  {
    if count == 0 {
      items := [];
      assert bs == [] + bs;
    } else {
      var p := DecValue(bs, seen, depth).value;
      var end := DecItems(p.rest, p.seen, depth, count - 1, acc + [p.value]).value;
      var doc := DocOf(bs, seen, depth);
      DocTracksNoStop(doc, seen, depth);
      var more := CountedItemsOf(p.rest, p.seen, depth, count - 1, acc + [p.value]);
      items := [doc] + more;
      ItemFirst(doc, more, seen, depth, false, acc);
      Associative(Spell(doc), SpellAll(more), end.rest);
    }
  }

  lemma {:induction false} EndedItemsOf(bs: seq<byte>, seen: seq<Plain>, depth: nat, acc: seq<Plain>)
    returns (items: seq<Doc>)
    requires NoStops(seen) && DecItemsOpen(bs, seen, depth, acc).Ok?
    ensures AllFormed(items) && depth <= 64
    ensures Explains(bs, SpellAll(items) + [0x03], DecItemsOpen(bs, seen, depth, acc).value,
                     ReadAll(items, seen, depth, true, acc))
    decreases |bs|, 1
  {
    var p := DecValue(bs, seen, depth).value;
    if p.value.PyTerminator? {
      items := [];
      StopIsFront(bs, seen, depth);
      assert [] + [0x03] == [0x03];
    } else {
      var end := DecItemsOpen(p.rest, p.seen, depth, acc + [p.value]).value;
      var doc := DocOf(bs, seen, depth);
      DocTracksNoStop(doc, seen, depth);
      var more := EndedItemsOf(p.rest, p.seen, depth, acc + [p.value]);
      items := [doc] + more;
      ItemFirst(doc, more, seen, depth, true, acc);
      Associative(Spell(doc), SpellAll(more), [0x03]);
      Associative(Spell(doc), SpellAll(more) + [0x03], end.rest);
    }
  }

  /** An entry is two values. */
  lemma {:induction false} EntryHasValues(bs: seq<byte>, seen: seq<Plain>, depth: nat, acc: seq<Pair>)
    requires DecEntry(bs, seen, depth, acc).Ok?
    ensures DecValue(bs, seen, depth).Ok?
    ensures var k := DecValue(bs, seen, depth).value;
            && Hashable(k.value) && DecValue(k.rest, k.seen, depth).Ok?
            && var v := DecValue(k.rest, k.seen, depth).value;
               DecEntry(bs, seen, depth, acc) == Ok(Parsed(Insert(acc, k.value, v.value), v.rest, v.seen))
  {
  }

  lemma {:induction false} RowMeans(
    key: Doc, val: Doc, seen: seq<Plain>, depth: nat, ended: bool, k: Got<Plain>, v: Got<Plain>)
    requires Formed(key) && Formed(val) && Read(key, seen, depth) == Some(k) && Read(val, k.seen, depth) == Some(v)
    requires Hashable(k.value) && (ended ==> !k.value.PyTerminator?)
    ensures ReadRow(Row(key, val), seen, depth, ended) == Some(Got(Pair(k.value, v.value), v.seen))
  {
  }

  lemma {:induction false} RowOf(bs: seq<byte>, seen: seq<Plain>, depth: nat, acc: seq<Pair>, ended: bool)
    returns (row: Row, pair: Pair)
    requires NoStops(seen) && DecEntry(bs, seen, depth, acc).Ok?
    requires ended && DecValue(bs, seen, depth).Ok? ==> !DecValue(bs, seen, depth).value.value.PyTerminator?
    ensures RowFormed(row)
    ensures var p := DecEntry(bs, seen, depth, acc).value;
            && ReadRow(row, seen, depth, ended) == Some(Got(pair, p.seen))
            && bs == SpellRow(row) + p.rest && p.value == Insert(acc, pair.key, pair.val)
    decreases |bs|, 2
  {
    EntryHasValues(bs, seen, depth, acc);
    var k := DecValue(bs, seen, depth).value;
    var v := DecValue(k.rest, k.seen, depth).value;
    var key := DocOf(bs, seen, depth);
    DocTracksNoStop(key, seen, depth);
    var val := DocOf(k.rest, k.seen, depth);
    row, pair := Row(key, val), Pair(k.value, v.value);
    RowMeans(key, val, seen, depth, ended, Got(k.value, k.seen), Got(v.value, v.seen));
    Associative(Spell(key), Spell(val), v.rest);
  }

  lemma {:induction false} RowFirst(
    row: Row, more: seq<Row>, seen: seq<Plain>, depth: nat, ended: bool, acc: seq<Pair>, g: Got<Pair>)
    requires RowFormed(row) && AllRowsFormed(more) && ReadRow(row, seen, depth, ended) == Some(g)
    ensures var rows := [row] + more;
            && AllRowsFormed(rows) && SpellRows(rows) == SpellRow(row) + SpellRows(more)
            && ReadRows(rows, seen, depth, ended, acc)
               == ReadRows(more, g.seen, depth, ended, Insert(acc, g.value.key, g.value.val))
  {
    assert ([row] + more)[1..] == more;
  }

  lemma {:induction false} CountedRowsOf(bs: seq<byte>, seen: seq<Plain>, depth: nat, count: nat, acc: seq<Pair>)
    returns (rows: seq<Row>)
    requires NoStops(seen) && DecEntries(bs, seen, depth, count, acc).Ok?
    ensures AllRowsFormed(rows) && |rows| == count
    ensures Explains(bs, SpellRows(rows), DecEntries(bs, seen, depth, count, acc).value,
                     ReadRows(rows, seen, depth, false, acc))
    decreases |bs|, 3, count
  {
    if count == 0 {
      rows := [];
      assert bs == [] + bs;
    } else {
      var d := DecEntry(bs, seen, depth, acc).value;
      var end := DecEntries(d.rest, d.seen, depth, count - 1, d.value).value;
      var row, pair := RowOf(bs, seen, depth, acc, false);
      RowTracksNoStop(row, seen, depth, false);
      var more := CountedRowsOf(d.rest, d.seen, depth, count - 1, d.value);
      rows := [row] + more;
      RowFirst(row, more, seen, depth, false, acc, Got(pair, d.seen));
      Associative(SpellRow(row), SpellRows(more), end.rest);
    }
  }

  /** What an open dictionary finds: the terminator, or an entry whose key is none. */
  lemma {:induction false} OpenHasEntry(bs: seq<byte>, seen: seq<Plain>, depth: nat, acc: seq<Pair>)
    requires DecEntryOpen(bs, seen, depth, acc).Ok?
    ensures DecValue(bs, seen, depth).Ok?
    ensures var d, k := DecEntryOpen(bs, seen, depth, acc).value, DecValue(bs, seen, depth).value;
            if d.value.None? then k.value.PyTerminator? && d.rest == k.rest && d.seen == k.seen
            else !k.value.PyTerminator? && DecEntry(bs, seen, depth, acc) == Ok(Parsed(d.value.value, d.rest, d.seen))
  {
  }

  /** The only way to write a terminator. */
  lemma {:induction false} StopIsFront(bs: seq<byte>, seen: seq<Plain>, depth: nat)
    requires DecValue(bs, seen, depth).Ok? && DecValue(bs, seen, depth).value.value.PyTerminator?
    requires NoStops(seen)
    ensures var p := DecValue(bs, seen, depth).value; depth <= 64 && bs == [0x03] + p.rest && p.seen == seen
  {
  }

  lemma {:induction false} EndedRowsOf(bs: seq<byte>, seen: seq<Plain>, depth: nat, acc: seq<Pair>)
    returns (rows: seq<Row>)
    requires NoStops(seen) && DecEntriesOpen(bs, seen, depth, acc).Ok?
    ensures AllRowsFormed(rows) && depth <= 64
    ensures Explains(bs, SpellRows(rows) + [0x03], DecEntriesOpen(bs, seen, depth, acc).value,
                     ReadRows(rows, seen, depth, true, acc))
    decreases |bs|, 3
  {
    var d := DecEntryOpen(bs, seen, depth, acc).value;
    OpenHasEntry(bs, seen, depth, acc);
    if d.value.None? {
      rows := [];
      StopIsFront(bs, seen, depth);
      assert [] + [0x03] == [0x03];
    } else {
      var end := DecEntriesOpen(d.rest, d.seen, depth, d.value.value).value;
      var row, pair := RowOf(bs, seen, depth, acc, true);
      RowTracksNoStop(row, seen, depth, true);
      var more := EndedRowsOf(d.rest, d.seen, depth, d.value.value);
      rows := [row] + more;
      RowFirst(row, more, seen, depth, true, acc, Got(pair, d.seen));
      Associative(SpellRow(row), SpellRows(more), [0x03]);
      Associative(SpellRow(row), SpellRows(more) + [0x03], end.rest);
    }
  }

  // ---------------------------------------------------------------- the decoder is the grammar

  /** `bs` is one document from the first byte to the last, and `p` is what it means. */
  ghost predicate Writes(doc: Doc, bs: seq<byte>, p: Plain) {
    && Formed(doc) && Spell(doc) == bs && doc != Stop
    && Read(doc, [], 0).Some? && Read(doc, [], 0).value.value == p
  }

  /** The decoder accepts exactly the documents of the format, and gives what they mean. */
  lemma {:induction false} DecodesExactly(bs: seq<byte>, p: Plain)
    ensures Decode(bs) == Ok(p) <==> exists doc :: Writes(doc, bs, p)
  {
    if Decode(bs) == Ok(p) {
      var doc := DocOf(bs, [], 0);
      assert bs == Spell(doc) + [] && Spell(doc) + [] == Spell(doc);
      assert Writes(doc, bs, p);
    }
    if doc :| Writes(doc, bs, p) {
      DocReads(doc, [], 0, []);
      assert bs + [] == bs;
      NoStopsBegin(doc);
    }
  }

  /** Only a terminator means one, before anything is tracked. */
  lemma {:induction false} NoStopsBegin(doc: Doc)
    requires Formed(doc) && doc != Stop && Read(doc, [], 0).Some?
    ensures !Read(doc, [], 0).value.value.PyTerminator?
  {
  }

  /** Nothing may follow a message: what is one is no longer one with anything behind it. */
  lemma {:induction false} NothingMayFollow(bs: seq<byte>, more: seq<byte>)
    requires Decode(bs).Ok? && more != []
    ensures Decode(bs + more) == Err(TrailingBytes)
  {
    var doc := DocOf(bs, [], 0);
    assert Spell(doc) + [] == Spell(doc);
    DocReads(doc, [], 0, more);
  }
}
