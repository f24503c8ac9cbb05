/**
 Apple TV target records: how the TargetControlList characteristic prints and
 parses them, on top of TLV8.
 */
module Targets {
  import opened Bytes
  import opened Dicts
  import opened HdsValues
  import JsonValues
  import opened Tlv8
  import opened Tlv8Lists

  const TARGET_IDENTIFIER: byte := 0x01
  const TARGET_NAME: byte := 0x02
  const TARGET_CATEGORY: byte := 0x03
  const TARGET_BUTTON_CONFIGURATION: byte := 0x04
  const BUTTON_ID: byte := 0x01
  const BUTTON_TYPE: byte := 0x02
  const BUTTON_NAME: byte := 0x03
  const LIST_TARGET_CONFIGURATION: byte := 0x02
  const MAX_NAME_BYTES: nat := 255
  const UINT32: nat := 0x1_0000_0000

  /** A controller sends names as texts, their UTF-8 form; the state file may hold any other value but null. */
  type Name = JsonValues.Json
  datatype Button = Button(id: int, kind: int, name: Option<Name>)
  datatype Target = Target(identifier: int, name: Option<Name>, category: Option<int>, buttons: map<int, Button>)

  function TextName(utf8: seq<byte>): Name {
    JsonValues.Text(utf8)
  }

  predicate FitName(name: Option<Name>) {
    name.Some? ==> !name.value.Null? && JsonValues.Loaded(name.value)
  }

  predicate FitButton(id: int, b: Button) {
    b.id == id && 0 <= id <= 255 && 0 <= b.kind <= 0xFFFF && FitName(b.name)
  }

  /** What every target of the registry is, wherever it came from. */
  predicate Fits(t: Target) {
    1 <= t.identifier < UINT32 && FitName(t.name) && forall id | id in t.buttons :: FitButton(id, t.buttons[id])
  }

  // ---------------------------------------------------------------- names

  predicate IsByte(j: Name) {
    j.Bool? || (j.Number? && 0 <= j.n <= 0xFF)
  }

  function ByteOf(j: Name): byte
    requires IsByte(j)
  {
    if j.Number? then j.n else if j.b then 1 else 0
  }

  /** `bytes` of a list, if all of its items are integers of one byte. */
  function BytesOf(items: seq<Name>): Option<seq<byte>> {
    if items == [] then Some([])
    else if !IsByte(items[0]) then None
    else match BytesOf(items[1..]) case None => None case Some(more) => Some([ByteOf(items[0])] + more)
  }

  /** What `tlv_encode` takes a name for, or None where it raises at once: a fraction, a dictionary with keys, ... */
  function NameRaw(name: Name): Option<Raw> {
    match name
    case Text(utf8) => Some(Raw.Text(utf8))
    case Bool(b) => Some(Raw.Number(if b then 1 else 0))
    case Number(n) => Some(Raw.Number(n))
    case Array(items) => (match BytesOf(items) case None => None case Some(data) => Some(Octets(data)))
    case Object(fields) => if fields == [] then Some(Octets([])) else None
    case _ => None
  }

  /** Encoding the name does not raise. */
  predicate Encodes(name: Name) {
    NameRaw(name).Some? && Normalize(NameRaw(name).value).Ok?
  }

  function NameBytes(name: Name): seq<byte>
    requires Encodes(name)
  {
    Normalize(NameRaw(name).value).value
  }

  /** Python's truth value. */
  predicate Truthy(name: Name) {
    match name
    case Null => false
    case Bool(b) => b
    case Number(n) => n != 0
    case Fraction(_, zero) => !zero
    case Text(utf8) => utf8 != []
    case Array(items) => items != []
    case Object(fields) => fields != []
  }

  /** A button's name is printed only if it is true. */
  predicate Shown(name: Option<Name>) {
    name.Some? && Truthy(name.value)
  }

  predicate GoodButton(id: int, b: Button) {
    FitButton(id, b) && (Shown(b.name) ==> Encodes(b.name.value))
  }

  /** What a controller may have sent. */
  predicate Sendable(b: Button) {
    Shown(b.name) ==> b.name.value.Text?
  }

  /** What printing needs, and no more: it raises for any other. */
  predicate Printable(t: Target) {
    && 1 <= t.identifier < UINT32 && FitName(t.name) && (t.name.Some? ==> Encodes(t.name.value))
    && (t.category.Some? ==> 0 <= t.category.value <= 0xFFFF)
    && (forall id | id in t.buttons :: GoodButton(id, t.buttons[id]))
  }

  /** What parsing accepts: names are texts, and the target's is neither empty nor too long. */
  predicate GoodTarget(t: Target) {
    && Printable(t)
    && (t.name.Some? ==> t.name.value.Text? && 1 <= |t.name.value.utf8| <= MAX_NAME_BYTES)
    && (forall id | id in t.buttons :: Sendable(t.buttons[id]))
  }

  // ---------------------------------------------------------------- printing

  predicate AllGoodButtons(buttons: seq<Button>) {
    forall i | 0 <= i < |buttons| :: GoodButton(buttons[i].id, buttons[i])
  }

  predicate AllPrintable(targets: seq<Target>) {
    forall i | 0 <= i < |targets| :: Printable(targets[i])
  }

  function ButtonRecord(b: Button): Record
    requires GoodButton(b.id, b)
  {
    [Item(BUTTON_ID, [b.id]), Item(BUTTON_TYPE, U16(b.kind))]
    + if Shown(b.name) then [Item(BUTTON_NAME, NameBytes(b.name.value))] else []
  }

  function ButtonRecords(buttons: seq<Button>): seq<Record>
    requires AllGoodButtons(buttons)
  {
    if buttons == [] then [] else [ButtonRecord(buttons[0])] + ButtonRecords(buttons[1..])
  }

  lemma {:induction false} PickedButtonsAreGood(m: map<int, Button>, ids: seq<int>)
    requires AllIn(m, ids) && forall id | id in m :: GoodButton(id, m[id])
    ensures AllGoodButtons(Picked(m, ids))
  {
    if ids == [] {
    } else {
      PickedButtonsAreGood(m, ids[1..]);
      assert ids[0] in m && GoodButton(ids[0], m[ids[0]]);
    }
  }

  /** The buttons of a target in printing order. */
  function SortedButtons(t: Target): (bs: seq<Button>)
    requires Printable(t)
    ensures AllGoodButtons(bs)
  {
    AscendingSorted(t.buttons.Keys);
    PickedButtonsAreGood(t.buttons, Ascending(t.buttons.Keys));
    Sorted(t.buttons)
  }

  function NameItems(t: Target): seq<Item>
    requires Printable(t)
  {
    if t.name.Some? then [Item(TARGET_NAME, NameBytes(t.name.value))] else []
  }

  function CategoryItems(t: Target): seq<Item>
    requires Printable(t)
  {
    if t.category.Some? then [Item(TARGET_CATEGORY, U16(t.category.value))] else []
  }

  function ButtonItems(t: Target): seq<Item>
    requires Printable(t)
  {
    if t.buttons == map[] then []
    else [Item(TARGET_BUTTON_CONFIGURATION, WireOf(Flatten(ButtonRecords(SortedButtons(t)))))]
  }

  function TargetItems(t: Target): seq<Item>
    requires Printable(t)
  {
    [Item(TARGET_IDENTIFIER, U32(t.identifier))] + NameItems(t) + CategoryItems(t) + ButtonItems(t)
  }

  /** One target as `target_list_value` prints it inside its list entry. */
  function PrintTarget(t: Target): seq<byte>
    requires Printable(t)
  {
    WireOf(TargetItems(t))
  }

  function ListRecords(targets: seq<Target>): seq<Record>
    requires AllPrintable(targets)
  {
    if targets == [] then []
    else [[Item(LIST_TARGET_CONFIGURATION, PrintTarget(targets[0]))]] + ListRecords(targets[1..])
  }

  /** Targets printed one after the other. */
  function PrintList(targets: seq<Target>): seq<byte>
    requires AllPrintable(targets)
  {
    WireOf(Flatten(ListRecords(targets)))
  }

  /** A registry of targets, each under its own identifier. */
  predicate FitTargets(targets: map<int, Target>) {
    forall id | id in targets :: FitsUnder(id, targets[id])
  }

  predicate FitsUnder(id: int, t: Target) {
    Fits(t) && t.identifier == id
  }

  predicate PrintableTargets(targets: map<int, Target>) {
    forall id | id in targets :: PrintableAt(targets, id)
  }

  predicate PrintableAt(targets: map<int, Target>, id: int)
    requires id in targets
  {
    Printable(targets[id])
  }

  lemma {:induction false} PickedArePrintable(m: map<int, Target>, ids: seq<int>)
    requires AllIn(m, ids) && PrintableTargets(m)
    ensures AllPrintable(Picked(m, ids))
  {
    if ids == [] {
    } else {
      PickedArePrintable(m, ids[1..]);
      assert PrintableAt(m, ids[0]);
    }
  }

  function SortedTargets(targets: map<int, Target>): (ts: seq<Target>)
    requires PrintableTargets(targets)
    ensures AllPrintable(ts)
  {
    AscendingSorted(targets.Keys);
    PickedArePrintable(targets, Ascending(targets.Keys));
    Sorted(targets)
  }

  /** `target_list_value`, before base64. */
  function PrintTargets(targets: map<int, Target>): seq<byte>
    requires PrintableTargets(targets)
  {
    PrintList(SortedTargets(targets))
  }

  // ---------------------------------------------------------------- parsing

  datatype ParseError = BadTlv(error: Tlv8.Error) | Missing | Empty | WrongSize | ReservedIdentifier | NotUtf8 | BadName

  function Required(data: map<byte, seq<byte>>, tag: byte): Result<seq<byte>, ParseError> {
    if tag !in data then Err(Missing) else if data[tag] == [] then Err(Empty) else Ok(data[tag])
  }

  function ReadFixed(value: seq<byte>, width: nat): Result<nat, ParseError> {
    if |value| != width then Err(WrongSize) else Ok(FromLittleEndian(value))
  }

  function ParseName(data: map<byte, seq<byte>>): Result<Option<Name>, ParseError> {
    if TARGET_NAME !in data then Ok(None)
    else if !ValidUtf8(data[TARGET_NAME]) then Err(NotUtf8)
    else if data[TARGET_NAME] == [] || |data[TARGET_NAME]| > MAX_NAME_BYTES then Err(BadName)
    else Ok(Some(TextName(data[TARGET_NAME])))
  }

  function ParseCategory(data: map<byte, seq<byte>>): Result<Option<int>, ParseError> {
    if TARGET_CATEGORY !in data then Ok(None)
    else
      var category :- ReadFixed(data[TARGET_CATEGORY], 2);
      Ok(Some(category))
  }

  function ParseButton(entry: map<byte, seq<byte>>): Result<Button, ParseError> {
    var id :- Required(entry, BUTTON_ID);
    if |id| != 1 then Err(WrongSize)
    else
      var kindRaw :- Required(entry, BUTTON_TYPE);
      var kind :- ReadFixed(kindRaw, 2);
      if BUTTON_NAME in entry && !ValidUtf8(entry[BUTTON_NAME]) then Err(NotUtf8)
      else Ok(Button(id[0], kind, if BUTTON_NAME in entry then Some(TextName(entry[BUTTON_NAME])) else None))
  }

  function ParseButtons(entries: seq<map<byte, seq<byte>>>, buttons: map<int, Button>)
    : Result<map<int, Button>, ParseError>
    decreases |entries|
  {
    if entries == [] then Ok(buttons)
    else
      var button :- ParseButton(entries[0]);
      ParseButtons(entries[1..], buttons[button.id := button])
  }

  function ParseButtonList(data: map<byte, seq<byte>>): Result<map<int, Button>, ParseError> {
    if TARGET_BUTTON_CONFIGURATION !in data then Ok(map[])
    else
      match DecodeItems(data[TARGET_BUTTON_CONFIGURATION], BUTTON_ID)
      case Err(e) => Err(BadTlv(e))
      case Ok(entries) => ParseButtons(entries, map[])
  }

  function ParseFields(data: map<byte, seq<byte>>): Result<Target, ParseError> {
    var raw :- Required(data, TARGET_IDENTIFIER);
    var identifier :- ReadFixed(raw, 4);
    if identifier == 0 then Err(ReservedIdentifier)
    else
      var name :- ParseName(data);
      var category :- ParseCategory(data);
      var buttons :- ParseButtonList(data);
      Ok(Target(identifier, name, category, buttons))
  }

  /** `_parse_target` of a present value. */
  function ParseTarget(raw: seq<byte>): Result<Target, ParseError> {
    match DecodeMap(raw)
    case Err(e) => Err(BadTlv(e))
    case Ok(data) => ParseFields(data)
  }
}
