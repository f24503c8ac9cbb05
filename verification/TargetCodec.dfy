/**
 Printing and parsing of target records with their loops, proved against the
 specification in `Targets`.
 */
module TargetCodec {
  import opened Bytes
  import opened Tlv8
  import Tlv8Proofs
  import Tlv8Codec
  import opened Targets

  lemma {:induction false} WireOfBoth(a: seq<Item>, b: seq<Item>)
    ensures WireOf(a + b) == WireOf(a) + WireOf(b)
  {
    FragmentsAreSmall(a);
    FragmentsAreSmall(b);
    Tlv8Proofs.FragmentsAppend(a, b);
    Tlv8Proofs.WireAppend(Fragments(a), Fragments(b));
  }

  /** `tlv_encode` of one entry that is known to be valid. */
  method EncodeField(tag: byte, raw: Raw) returns (out: seq<byte>)
    requires Normalize(raw).Ok?
    ensures out == WireOf([Item(tag, Normalize(raw).value)])
  {
    var entries := [Tlv8.Entry(tag, raw)];
    var r := Tlv8Codec.Encode(entries);
    assert entries[1..] == [] && CheckedAll([]) == Ok([]);
    var item := Item(tag, Normalize(raw).value);
    assert CheckedAll(entries) == Ok([item] + []) && [item] + [] == [item];
    out := r.value;
  }

  method PrintButton(button: Button) returns (one: seq<byte>)
    requires GoodButton(button.id, button)
    ensures one == WireOf(ButtonRecord(button))
  {
    one := EncodeField(BUTTON_ID, Number(button.id));
    var kind := EncodeField(BUTTON_TYPE, Octets(U16(button.kind)));
    one := one + kind;
    ghost var id := [Item(BUTTON_ID, [button.id])];
    ghost var items := [Item(BUTTON_ID, [button.id]), Item(BUTTON_TYPE, U16(button.kind))];
    WireOfBoth(id, [Item(BUTTON_TYPE, U16(button.kind))]);
    assert id + [Item(BUTTON_TYPE, U16(button.kind))] == items;
    if Shown(button.name) {
      var name := EncodeField(BUTTON_NAME, NameRaw(button.name.value).value);
      WireOfBoth(items, [Item(BUTTON_NAME, NameBytes(button.name.value))]);
      one := one + name;
    } else {
      assert items + [] == items;
    }
  }

  method PrintButtons(buttons: seq<Button>) returns (data: seq<byte>)
    requires AllGoodButtons(buttons)
    ensures data == WireOf(Flatten(ButtonRecords(buttons)))
  {
    data := [];
    var n := 0;
    ghost var all := WireOf(Flatten(ButtonRecords(buttons)));
    assert buttons[0..] == buttons && data + all == all;
    while n < |buttons|
      invariant n <= |buttons|
      invariant Same(all, data + WireOf(Flatten(ButtonRecords(buttons[n..]))))
    {
      assert buttons[n..][1..] == buttons[n + 1..];
      var one := PrintButton(buttons[n]);
      ButtonsStep(buttons[n..]);
      Associative(data, one, WireOf(Flatten(ButtonRecords(buttons[n + 1..]))));
      data := data + one;
      n := n + 1;
    }
    assert data + [] == data;
  }

  /** The parts of one target: optional ones only when present. */
  method PrintOne(target: Target) returns (data: seq<byte>)
    requires Printable(target)
    ensures data == PrintTarget(target)
  {
    ghost var items := [Item(TARGET_IDENTIFIER, U32(target.identifier))];
    data := EncodeField(TARGET_IDENTIFIER, Octets(U32(target.identifier)));
    WireOfBoth(items, NameItems(target));
    if target.name.Some? {
      var name := EncodeField(TARGET_NAME, NameRaw(target.name.value).value);
      data := data + name;
    }
    assert data == WireOf(items + NameItems(target)) by {
      assert items + [] == items;
    }
    items := items + NameItems(target);
    WireOfBoth(items, CategoryItems(target));
    if target.category.Some? {
      var category := EncodeField(TARGET_CATEGORY, Octets(U16(target.category.value)));
      data := data + category;
    }
    assert data == WireOf(items + CategoryItems(target)) by {
      assert items + [] == items;
    }
    items := items + CategoryItems(target);
    WireOfBoth(items, ButtonItems(target));
    if target.buttons != map[] {
      var buttons := PrintButtons(SortedButtons(target));
      var part := EncodeField(TARGET_BUTTON_CONFIGURATION, Octets(buttons));
      data := data + part;
    }
    assert data == WireOf(items + ButtonItems(target)) by {
      assert items + [] == items;
    }
  }

  lemma {:induction false} PrintListStep(targets: seq<Target>)
    requires AllPrintable(targets) && targets != []
    ensures PrintList(targets)
            == WireOf([Item(LIST_TARGET_CONFIGURATION, PrintTarget(targets[0]))]) + PrintList(targets[1..])
  {
    var first, rest := [Item(LIST_TARGET_CONFIGURATION, PrintTarget(targets[0]))], Flatten(ListRecords(targets[1..]));
    WireOfBoth(first, rest);
    assert ListRecords(targets)[1..] == ListRecords(targets[1..]);
  }

  lemma {:induction false} ButtonsStep(buttons: seq<Button>)
    requires AllGoodButtons(buttons) && buttons != []
    ensures WireOf(Flatten(ButtonRecords(buttons)))
         == WireOf(ButtonRecord(buttons[0])) + WireOf(Flatten(ButtonRecords(buttons[1..])))
  {
    WireOfBoth(ButtonRecord(buttons[0]), Flatten(ButtonRecords(buttons[1..])));
    assert ButtonRecords(buttons)[1..] == ButtonRecords(buttons[1..]);
  }

  /** `target_list_value`: one list entry per target, by identifier. */
  method TargetListValue(targets: map<int, Target>) returns (encoded: seq<byte>)
    requires PrintableTargets(targets)
    ensures encoded == PrintTargets(targets)
  {
    var sorted := SortedTargets(targets);
    encoded := [];
    var n := 0;
    ghost var all := PrintTargets(targets);
    assert sorted[0..] == sorted && encoded + all == all;
    while n < |sorted|
      invariant n <= |sorted|
      invariant Same(all, encoded + PrintList(sorted[n..]))
    {
      assert sorted[n..][1..] == sorted[n + 1..];
      var one := PrintOne(sorted[n]);
      var entry := EncodeField(LIST_TARGET_CONFIGURATION, Octets(one));
      PrintListStep(sorted[n..]);
      Associative(encoded, entry, PrintList(sorted[n + 1..]));
      encoded := encoded + entry;
      n := n + 1;
    }
    assert encoded + [] == encoded;
  }

  /** The loop over the button entries of a record. */
  method ParseButtonEntries(entries: seq<map<byte, seq<byte>>>) returns (r: Result<map<int, Button>, ParseError>)
    ensures r == ParseButtons(entries, map[])
  {
    var buttons: map<int, Button> := map[];
    var n := 0;
    assert entries[0..] == entries;
    while n < |entries|
      invariant n <= |entries|
      invariant Same(ParseButtons(entries, map[]), ParseButtons(entries[n..], buttons))
    {
      assert entries[n..][1..] == entries[n + 1..];
      var parsed := ParseButton(entries[n]);
      if parsed.Err? {
        return Err(parsed.error);
      }
      buttons := buttons[parsed.value.id := parsed.value];
      n := n + 1;
    }
    r := Ok(buttons);
  }

  /** `_parse_target` of a present value. */
  method ParseTargetRecord(raw: seq<byte>) returns (r: Result<Target, ParseError>)
    ensures r == ParseTarget(raw)
  {
    var decoded := Tlv8Codec.Decode(raw);
    if decoded.Err? {
      return Err(BadTlv(decoded.error));
    }
    var data := decoded.value;
    var identifierRaw := Required(data, TARGET_IDENTIFIER);
    if identifierRaw.Err? {
      return Err(identifierRaw.error);
    }
    var identifier := ReadFixed(identifierRaw.value, 4);
    if identifier.Err? {
      return Err(identifier.error);
    }
    if identifier.value == 0 {
      return Err(ReservedIdentifier);
    }
    var name := ParseName(data);
    if name.Err? {
      return Err(name.error);
    }
    var category := ParseCategory(data);
    if category.Err? {
      return Err(category.error);
    }
    var buttons: map<int, Button> := map[];
    if TARGET_BUTTON_CONFIGURATION in data {
      var entries := Tlv8Codec.DecodeList(data[TARGET_BUTTON_CONFIGURATION], BUTTON_ID);
      if entries.Err? {
        return Err(BadTlv(entries.error));
      }
      var parsed := ParseButtonEntries(entries.value);
      if parsed.Err? {
        return Err(parsed.error);
      }
      buttons := parsed.value;
    }
    r := Ok(Target(identifier.value, name.value, category.value, buttons));
  }
}
