/**
 A target record by its bytes: which tags hold what, and when a record is no target.
 */
module TargetBytes {
  import opened Bytes
  import opened HdsValues
  import opened Tlv8
  import opened Targets

  type Record = map<byte, seq<byte>>

  /** Two bytes as a number, the low one first. */
  function Two(bs: seq<byte>): nat
    requires |bs| == 2
  {
    var a: nat, b: nat := bs[0], bs[1];
    a + 0x100 * b
  }

  lemma {:induction false} TwoIs(bs: seq<byte>)
    requires |bs| == 2
    ensures FromLittleEndian(bs) == Two(bs)
  {
    FirstByte(bs);
    FirstByte(bs[1..]);
    assert bs[1..][1..] == [];
  }

  // ---------------------------------------------------------------- buttons

  /** A button: one byte of number, two of kind, and a text if it has a name. */
  predicate ButtonReads(e: Record) {
    && 1 in e && |e[1]| == 1 && 2 in e && |e[2]| == 2
    && (3 in e ==> ValidUtf8(e[3]))
  }

  function ButtonOf(e: Record): Button
    requires ButtonReads(e)
  {
    Button(e[1][0], Two(e[2]), if 3 in e then Some(TextName(e[3])) else None)
  }

  predicate ButtonsRead(es: seq<Record>) {
    forall i | 0 <= i < |es| :: ButtonReads(es[i])
  }

  /** The last button of this number. */
  function LastButton(es: seq<Record>, id: int): Option<Button>
    requires ButtonsRead(es)
  {
    if es == [] then None
    else
      var k := |es| - 1;
      if es[k][1][0] == id then Some(ButtonOf(es[k])) else LastButton(es[..k], id)
  }

  /** One button per number, the last one of it. */
  ghost predicate AreButtons(es: seq<Record>, buttons: map<int, Button>)
    requires ButtonsRead(es)
  {
    forall id :: IsButton(es, buttons, id)
  }

  predicate IsButton(es: seq<Record>, buttons: map<int, Button>, id: int)
    requires ButtonsRead(es)
  {
    LastButton(es, id) == if id in buttons then Some(buttons[id]) else None
  }

  lemma {:induction false} ButtonParses(e: Record)
    ensures ParseButton(e).Ok? <==> ButtonReads(e)
    ensures ButtonReads(e) ==> ParseButton(e) == Ok(ButtonOf(e))
  {
    if 2 in e && |e[2]| == 2 {
      TwoIs(e[2]);
    }
  }

  lemma {:induction false} ButtonsAppend(es: seq<Record>, x: Record, buttons: map<int, Button>)
    ensures ParseButtons(es + [x], buttons).Ok? <==> ParseButtons(es, buttons).Ok? && ButtonReads(x)
    ensures ParseButtons(es + [x], buttons).Ok? ==>
              var b := ButtonOf(x);
              ParseButtons(es + [x], buttons) == Ok(ParseButtons(es, buttons).value[b.id := b])
    decreases |es|
  {
    ButtonParses(x);
    if es == [] {
      assert es + [x] == [x] && [x][1..] == [];
    } else {
      assert (es + [x])[1..] == es[1..] + [x];
      var button := ParseButton(es[0]);
      if button.Ok? {
        ButtonsAppend(es[1..], x, buttons[button.value.id := button.value]);
      }
    }
  }

  lemma {:induction false} ButtonsParse(es: seq<Record>)
    ensures ParseButtons(es, map[]).Ok? <==> ButtonsRead(es)
    ensures ButtonsRead(es) ==> AreButtons(es, ParseButtons(es, map[]).value)
  {
    if es == [] {
    } else {
      var k := |es| - 1;
      var front, x := es[..k], es[k];
      assert front + [x] == es;
      ButtonsParse(front);
      ButtonsAppend(front, x, map[]);
      if ButtonsRead(es) {
        forall id ensures IsButton(es, ParseButtons(es, map[]).value, id) {
          assert IsButton(front, ParseButtons(front, map[]).value, id);
        }
      }
    }
  }

  /** There is only one such dictionary. */
  lemma {:induction false} ButtonsAreOne(es: seq<Record>, a: map<int, Button>, b: map<int, Button>)
    requires ButtonsRead(es) && AreButtons(es, a) && AreButtons(es, b)
    ensures a == b
  {
    forall id ensures id in a <==> id in b
              ensures id in a && id in b ==> a[id] == b[id]
    {
      assert IsButton(es, a, id) && IsButton(es, b, id);
    }
  }

  // ---------------------------------------------------------------- the record

  /** A record with four bytes of number, not all of them zero, and with each further field in its form. */
  ghost predicate IsTarget(data: Record, t: Target) {
    && 1 in data && |data[1]| == 4 && t.identifier == Four(data[1]) && t.identifier != 0
    && (if 2 in data then ValidUtf8(data[2]) && 1 <= |data[2]| <= 255 && t.name == Some(TextName(data[2]))
        else t.name.None?)
    && (if 3 in data then |data[3]| == 2 && t.category == Some(Two(data[3])) else t.category.None?)
    && (if 4 in data then HasButtons(data[4], t.buttons) else t.buttons == map[])
  }

  /** A list of buttons, each behind its number. */
  ghost predicate HasButtons(raw: seq<byte>, buttons: map<int, Button>) {
    var es := DecodeItems(raw, 1);
    es.Ok? && ButtonsRead(es.value) && AreButtons(es.value, buttons)
  }

  lemma {:induction false} NameParses(data: Record, name: Option<Name>)
    ensures ParseName(data) == Ok(name) <==>
              if 2 in data then ValidUtf8(data[2]) && 1 <= |data[2]| <= 255 && name == Some(TextName(data[2]))
              else name.None?
  {
  }

  lemma {:induction false} CategoryParses(data: Record, category: Option<int>)
    ensures ParseCategory(data) == Ok(category) <==>
              if 3 in data then |data[3]| == 2 && category == Some(Two(data[3])) else category.None?
  {
    if 3 in data && |data[3]| == 2 {
      TwoIs(data[3]);
    }
  }

  lemma {:induction false} ButtonListParses(data: Record, buttons: map<int, Button>)
    ensures ParseButtonList(data) == Ok(buttons) <==>
              if 4 in data then HasButtons(data[4], buttons) else buttons == map[]
  {
    if 4 in data {
      var es := DecodeItems(data[4], 1);
      if es.Ok? {
        ButtonsParse(es.value);
        if HasButtons(data[4], buttons) {
          ButtonsAreOne(es.value, buttons, ParseButtons(es.value, map[]).value);
        }
      }
    }
  }

  lemma {:induction false} FieldsParse(data: Record, t: Target)
    ensures ParseFields(data) == Ok(t) <==> IsTarget(data, t)
  {
    NameParses(data, t.name);
    CategoryParses(data, t.category);
    ButtonListParses(data, t.buttons);
    if 1 in data && |data[1]| == 4 {
      assert data[1][4..] == [];
      FourBytes(data[1]);
    }
  }

  /** Why a record without a proper number is none. */
  lemma {:induction false} NumberIsRefused(data: Record)
    ensures 1 !in data ==> ParseFields(data) == Err(Missing)
    ensures 1 in data && data[1] == [] ==> ParseFields(data) == Err(Empty)
    ensures 1 in data && data[1] != [] && |data[1]| != 4 ==> ParseFields(data) == Err(WrongSize)
    ensures 1 in data && data[1] == [0, 0, 0, 0] ==> ParseFields(data) == Err(ReservedIdentifier)
  {
    if 1 in data && |data[1]| == 4 {
      FourBytes(data[1]);
      assert data[1][4..] == [];
    }
  }

  /** Bytes are parsed as a target exactly when they are a record that is this target. */
  lemma {:induction false} ParsesExactly(raw: seq<byte>, t: Target)
    ensures ParseTarget(raw) == Ok(t) <==> DecodeMap(raw).Ok? && IsTarget(DecodeMap(raw).value, t)
  {
    if DecodeMap(raw).Ok? {
      FieldsParse(DecodeMap(raw).value, t);
    }
  }

  // ---------------------------------------------------------------- names from the file

  /** The bytes a name is printed as: a text as it is, numbers and truth values as one byte, a list byte by byte. */
  predicate PrintsAs(name: Name, bytes: seq<byte>) {
    match name
    case Text(utf8) => ValidUtf8(utf8) && bytes == utf8
    case Bool(b) => bytes == [if b then 1 else 0]
    case Number(n) => 0 <= n <= 255 && bytes == [n]
    case Array(items) =>
      |bytes| == |items| && forall i | 0 <= i < |items| :: IsOneByte(items[i], bytes[i])
    case Object(fields) => fields == [] && bytes == []
    case _ => false
  }

  predicate IsOneByte(item: Name, b: byte) {
    match item
    case Number(n) => n == b
    case Bool(truth) => b == if truth then 1 else 0
    case _ => false
  }

  lemma {:induction false} ListPrints(items: seq<Name>, bytes: seq<byte>)
    ensures BytesOf(items) == Some(bytes) <==>
              |bytes| == |items| && forall i | 0 <= i < |items| :: IsOneByte(items[i], bytes[i])
  {
    if items == [] {
    } else {
      if bytes != [] {
        ListPrints(items[1..], bytes[1..]);
        assert bytes == [bytes[0]] + bytes[1..];
      }
      if |bytes| == |items| && forall i | 0 <= i < |items| :: IsOneByte(items[i], bytes[i]) {
        forall i | 0 <= i < |items[1..]| ensures IsOneByte(items[1..][i], bytes[1..][i]) {
          assert IsOneByte(items[i + 1], bytes[i + 1]);
        }
      }
      if BytesOf(items) == Some(bytes) {
        forall i | 0 <= i < |items| ensures IsOneByte(items[i], bytes[i]) {
          assert i > 0 ==> IsOneByte(items[1..][i - 1], bytes[1..][i - 1]);
        }
      }
    }
  }

  /** Printing a name raises exactly when no bytes are its. */
  lemma {:induction false} NamePrints(name: Name, bytes: seq<byte>)
    ensures Encodes(name) && NameBytes(name) == bytes <==> PrintsAs(name, bytes)
  {
    if name.Array? {
      ListPrints(name.items, bytes);
    }
  }
}
