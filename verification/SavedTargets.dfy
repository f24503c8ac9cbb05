/**
 The target state file: what `_save_targets` writes and how `_load_targets` reads
 it back, as JSON values.
 */
module SavedTargets {
  import opened Bytes
  import opened Dicts
  import opened JsonValues
  import opened Targets

  const MAX_TARGETS: nat := 10

  datatype Corrupt = Corrupt

  /** What the registry keeps across restarts. */
  datatype Kept = Kept(targets: map<int, Target>, active: int)

  // ---------------------------------------------------------------- decimal keys

  function Digit(n: nat): char
    requires n < 10
  {
    ('0' as int + n) as char
  }

  /** `str(n)` of an identifier. */
  function Decimal(n: nat): string {
    if n < 10 then [Digit(n)] else Decimal(n / 10) + [Digit(n % 10)]
  }

  // ---------------------------------------------------------------- `int` of a text

  predicate IsDigit(c: char) {
    '0' <= c <= '9'
  }

  predicate IsSpace(c: char) {
    9 <= c as int <= 13 || 28 <= c as int <= 32
  }

  function TrimLeft(text: string): string {
    if text != [] && IsSpace(text[0]) then TrimLeft(text[1..]) else text
  }

  function TrimRight(text: string): string {
    if text != [] && IsSpace(text[|text| - 1]) then TrimRight(text[..|text| - 1]) else text
  }

  /** Decimal digits, single underscores between them. */
  function ParseDigits(text: string): Result<nat, Corrupt> {
    if text == [] then Err(Corrupt)
    else
      var front, last := text[..|text| - 1], text[|text| - 1];
      if !IsDigit(last) then Err(Corrupt)
      else if front == [] then Ok(DigitValue(last))
      else
        var more :- ParseDigits(if front[|front| - 1] == '_' then front[..|front| - 1] else front);
        Ok(10 * more + DigitValue(last))
  }

  function DigitValue(c: char): nat
    requires IsDigit(c)
  {
    c as int - '0' as int
  }

  /** Python's `int` of an ASCII text: spaces around, an optional sign, digits. */
  function ParseInt(text: string): Result<int, Corrupt> {
    var t := TrimRight(TrimLeft(text));
    if t != [] && (t[0] == '-' || t[0] == '+') then
      var n: int :- ParseDigits(t[1..]);
      Ok(if t[0] == '-' then -n else n)
    else
      var n :- ParseDigits(t);
      Ok(n)
  }

  lemma {:induction false} DecimalReads(n: nat)
    ensures ParseDigits(Decimal(n)) == Ok(n) && Decimal(n) != []
    ensures forall i | 0 <= i < |Decimal(n)| :: IsDigit(Decimal(n)[i])
    decreases n
  {
    if n < 10 {
    } else {
      DecimalReads(n / 10);
      var text := Decimal(n);
      assert text[..|text| - 1] == Decimal(n / 10);
    }
  }

  /** The key of an identifier reads back as it. */
  lemma {:induction false} KeyReads(id: int)
    requires id >= 0
    ensures ParseInt(KeyText(id)) == Ok(id)
  {
    DecimalReads(id);
  }

  // ---------------------------------------------------------------- saving

  function NameJson(name: Option<Name>): Json {
    match name case None => Null case Some(value) => value
  }

  function CategoryJson(category: Option<int>): Json {
    match category case None => Null case Some(n) => Number(n)
  }

  function ButtonJson(b: Button): Json {
    Object([Field("button_id", Number(b.id)), Field("button_name", NameJson(b.name)),
            Field("button_type", Number(b.kind))])
  }

  /** The key of an entry; identifiers are never negative where this is used. */
  function KeyText(id: int): string {
    if id < 0 then "-" + Decimal(-id) else Decimal(id)
  }

  function ButtonFields(buttons: map<int, Button>, ids: seq<int>): seq<Field>
    requires AllIn(buttons, ids)
  {
    if ids == [] then []
    else [Field(KeyText(ids[0]), ButtonJson(buttons[ids[0]]))] + ButtonFields(buttons, ids[1..])
  }

  function ButtonsJson(buttons: map<int, Button>): Json {
    AscendingSorted(buttons.Keys);
    Object(ButtonFields(buttons, Ascending(buttons.Keys)))
  }

  function TargetJson(t: Target): Json {
    Object([
      Field("buttons", ButtonsJson(t.buttons)),
      Field("target_category", CategoryJson(t.category)),
      Field("target_identifier", Number(t.identifier)),
      Field("target_name", NameJson(t.name))])
  }

  function TargetFields(targets: map<int, Target>, ids: seq<int>): seq<Field>
    requires AllIn(targets, ids)
  {
    if ids == [] then []
    else [Field(KeyText(ids[0]), TargetJson(targets[ids[0]]))] + TargetFields(targets, ids[1..])
  }

  function TargetsJson(targets: map<int, Target>): Json {
    AscendingSorted(targets.Keys);
    Object(TargetFields(targets, Ascending(targets.Keys)))
  }

  /** The payload of `_save_targets`. */
  function ToJson(kept: Kept): Json {
    Object([
      Field("active_identifier", Number(kept.active)),
      Field("targets", TargetsJson(kept.targets)),
      Field("version", Number(1))])
  }

  // ---------------------------------------------------------------- loading

  /** The ASCII characters of a text; others are no digits, signs or spaces here. */
  function Chars(utf8: seq<byte>): string {
    if utf8 == [] then [] else [utf8[0] as char] + Chars(utf8[1..])
  }

  /** `int(value)` of a parsed value. */
  function IntOf(j: Json): Result<int, Corrupt> {
    match j
    case Bool(b) => Ok(if b then 1 else 0)
    case Number(n) => Ok(n)
    case Fraction(Some(whole), _) => Ok(whole)
    case Text(utf8) => ParseInt(Chars(utf8))
    case _ => Err(Corrupt)
  }

  /** `int(fields.get(name, key))`. */
  function IntOr(fields: seq<Field>, name: string, key: string): Result<int, Corrupt> {
    match Get(fields, name)
    case Some(j) => IntOf(j)
    case None => ParseInt(key)
  }

  /** A name is taken over as it is. */
  function NameOf(fields: seq<Field>, name: string): Option<Name> {
    match Get(fields, name)
    case None => None
    case Some(j) => if j.Null? then None else Some(j)
  }

  function CategoryOf(fields: seq<Field>): Result<Option<int>, Corrupt> {
    match Get(fields, "target_category")
    case None => Ok(None)
    case Some(j) =>
      if j.Null? then Ok(None)
      else
        var n :- IntOf(j);
        Ok(Some(n))
  }

  function FieldsOr(fields: seq<Field>, name: string): Result<seq<Field>, Corrupt> {
    match Get(fields, name)
    case None => Ok([])
    case Some(j) => if j.Object? then Ok(j.fields) else Err(Corrupt)
  }

  function LoadButton(key: string, raw: Json): Result<Button, Corrupt> {
    if !raw.Object? then Err(Corrupt)
    else
      var id :- IntOr(raw.fields, "button_id", key);
      var kindRaw := Get(raw.fields, "button_type");
      if kindRaw.None? then Err(Corrupt)
      else
        var kind :- IntOf(kindRaw.value);
        if !(0 <= id <= 255) || !(0 <= kind <= 0xFFFF) then Err(Corrupt)
        else Ok(Button(id, kind, NameOf(raw.fields, "button_name")))
  }

  function LoadButtons(fields: seq<Field>, buttons: map<int, Button>): Result<map<int, Button>, Corrupt>
    decreases |fields|
  {
    if fields == [] then Ok(buttons)
    else
      var button :- LoadButton(fields[0].key, fields[0].val);
      LoadButtons(fields[1..], buttons[button.id := button])
  }

  function LoadTarget(key: string, raw: Json): Result<Target, Corrupt> {
    if !raw.Object? then Err(Corrupt)
    else
      var identifier :- IntOr(raw.fields, "target_identifier", key);
      if !(1 <= identifier < UINT32) then Err(Corrupt)
      else
        var buttonFields :- FieldsOr(raw.fields, "buttons");
        var buttons :- LoadButtons(buttonFields, map[]);
        var category :- CategoryOf(raw.fields);
        Ok(Target(identifier, NameOf(raw.fields, "target_name"), category, buttons))
  }

  function LoadTargets(fields: seq<Field>, loaded: map<int, Target>): Result<map<int, Target>, Corrupt>
    decreases |fields|
  {
    if fields == [] then Ok(loaded)
    else
      var target :- LoadTarget(fields[0].key, fields[0].val);
      LoadTargets(fields[1..], loaded[target.identifier := target])
  }

  /** The smallest registered identifier, or 0: `next(iter(sorted(targets)), 0)`. */
  function Smallest(targets: map<int, Target>): (id: int)
    ensures id == 0 || id in targets
  {
    if targets.Keys == {} then 0 else Least(targets.Keys)
  }

  function LoadPayload(payload: Json): Result<Kept, Corrupt> {
    if !payload.Object? then Err(Corrupt)
    else
      var raw :- FieldsOr(payload.fields, "targets");
      if |raw| > MAX_TARGETS then Err(Corrupt)
      else
        var loaded :- LoadTargets(raw, map[]);
        var active :- (match Get(payload.fields, "active_identifier") case None => Ok(0) case Some(j) => IntOf(j));
        Ok(Kept(loaded, if active != 0 && active !in loaded then Smallest(loaded) else active))
  }

  /** `_load_targets`: a missing or unusable file leaves the registry empty. */
  function Load(file: Option<Json>): Kept {
    match file
    case None => Kept(map[], 0)
    case Some(tree) =>
      match LoadPayload(Loads(tree))
      case Ok(kept) => kept
      case Err(_) => Kept(map[], 0)
  }

  // ---------------------------------------------------------------- the first target

  /** The least of the targets, or 0. */
  predicate IsFirst(targets: map<int, Target>, id: int) {
    if targets == map[] then id == 0 else id in targets && forall k | k in targets :: id <= k
  }

  lemma {:induction false} SmallestIsFirst(targets: map<int, Target>)
    ensures IsFirst(targets, Smallest(targets))
  {
    if targets.Keys != {} {
      LeastIsLeast(targets.Keys);
    }
  }

  lemma {:induction false} LeastIsLeast(keys: set<int>)
    requires keys != {}
    ensures Least(keys) in keys && forall k | k in keys :: Least(keys) <= k
  {
  }

  // ---------------------------------------------------------------- what was saved is what loads

  lemma {:induction false} GetAt(fields: seq<Field>, i: nat, key: string)
    requires i < |fields| && fields[i].key == key && forall j | 0 <= j < i :: fields[j].key != key
    ensures Get(fields, key) == Some(fields[i].val)
  {
    if i == 0 {
    } else {
      GetAt(fields[1..], i - 1, key);
    }
  }

  lemma {:induction false} ButtonLoads(key: string, id: int, b: Button)
    requires FitButton(id, b)
    ensures LoadButton(key, ButtonJson(b)) == Ok(b)
  {
    var fields := ButtonJson(b).fields;
    assert "button_name"[7] != "button_type"[7];
    GetAt(fields, 0, "button_id");
    GetAt(fields, 1, "button_name");
    GetAt(fields, 2, "button_type");
  }

  lemma {:induction false} ButtonsLoad(t: Target, ids: seq<int>, buttons: map<int, Button>)
    requires Fits(t) && AllIn(t.buttons, ids)
    ensures LoadButtons(ButtonFields(t.buttons, ids), buttons) == Ok(Rebuild(t.buttons, ids, buttons))
    decreases |ids|
  {
    if ids == [] {
    } else {
      var b := t.buttons[ids[0]];
      assert FitButton(ids[0], b);
      ButtonLoads(KeyText(ids[0]), ids[0], b);
      ButtonsLoad(t, ids[1..], buttons[ids[0] := b]);
    }
  }

  lemma {:induction false} TargetFieldsRead(t: Target)
    ensures var fields := TargetJson(t).fields;
            && Get(fields, "buttons") == Some(ButtonsJson(t.buttons))
            && Get(fields, "target_category") == Some(CategoryJson(t.category))
            && Get(fields, "target_identifier") == Some(Number(t.identifier))
            && Get(fields, "target_name") == Some(NameJson(t.name))
  {
    var fields := TargetJson(t).fields;
    GetAt(fields, 0, "buttons");
    GetAt(fields, 1, "target_category");
    GetAt(fields, 2, "target_identifier");
    GetAt(fields, 3, "target_name");
  }

  lemma {:induction false} ButtonsLoadBack(t: Target)
    requires Fits(t)
    ensures LoadButtons(ButtonsJson(t.buttons).fields, map[]) == Ok(t.buttons)
  {
    RebuildAll(t.buttons);
    ButtonsLoad(t, Ascending(t.buttons.Keys), map[]);
  }

  /** Loading a target looks at four fields and nothing else. */
  lemma TargetFromFields(key: string, fields: seq<Field>, buttons: seq<Field>, t: Target)
    requires Fits(t) && Get(fields, "target_identifier") == Some(Number(t.identifier))
    requires Get(fields, "buttons") == Some(Object(buttons)) && LoadButtons(buttons, map[]) == Ok(t.buttons)
    requires Get(fields, "target_name") == Some(NameJson(t.name))
    requires Get(fields, "target_category") == Some(CategoryJson(t.category))
    ensures LoadTarget(key, Object(fields)) == Ok(t)
  {
    assert IntOr(fields, "target_identifier", key) == Ok(t.identifier);
    assert FieldsOr(fields, "buttons") == Ok(buttons);
    assert NameOf(fields, "target_name") == t.name;
    assert CategoryOf(fields) == Ok(t.category);
  }

  lemma {:induction false} TargetLoads(key: string, t: Target)
    requires Fits(t)
    ensures LoadTarget(key, TargetJson(t)) == Ok(t)
  {
    TargetFieldsRead(t);
    ButtonsLoadBack(t);
    TargetFromFields(key, TargetJson(t).fields, ButtonsJson(t.buttons).fields, t);
  }

  lemma {:induction false} TargetsLoad(targets: map<int, Target>, ids: seq<int>, loaded: map<int, Target>)
    requires FitTargets(targets) && AllIn(targets, ids)
    ensures LoadTargets(TargetFields(targets, ids), loaded) == Ok(Rebuild(targets, ids, loaded))
    ensures |TargetFields(targets, ids)| == |ids|
    decreases |ids|
  {
    if ids == [] {
    } else {
      var t := targets[ids[0]];
      assert FitsUnder(ids[0], t);
      TargetLoads(KeyText(ids[0]), t);
      TargetsLoad(targets, ids[1..], loaded[ids[0] := t]);
    }
  }

  lemma {:induction false} PayloadFieldsRead(kept: Kept)
    ensures var fields := ToJson(kept).fields;
            && Get(fields, "active_identifier") == Some(Number(kept.active))
            && Get(fields, "targets") == Some(TargetsJson(kept.targets))
  {
    var fields := ToJson(kept).fields;
    assert "targets"[0] != "version"[0];
    GetAt(fields, 0, "active_identifier");
    GetAt(fields, 1, "targets");
  }

  /** What a registry may hold. */
  predicate GoodKept(kept: Kept) {
    FitTargets(kept.targets) && |kept.targets| <= MAX_TARGETS && (kept.active == 0 || kept.active in kept.targets)
  }

  /** What is saved loads, before duplicates are looked for. */
  lemma {:induction false} PayloadLoads(kept: Kept)
    requires GoodKept(kept)
    ensures LoadPayload(ToJson(kept)) == Ok(kept)
  {
    PayloadFieldsRead(kept);
    RebuildAll(kept.targets);
    var ids := Ascending(kept.targets.Keys);
    TargetsLoad(kept.targets, ids, map[]);
    assert |ids| == |kept.targets.Keys| == |kept.targets|;
  }

  // ---------------------------------------------------------------- no key is saved twice

  /** Fields under the decimal texts of these identifiers. */
  predicate Keyed(fields: seq<Field>, ids: seq<int>) {
    |fields| == |ids| && forall i | 0 <= i < |ids| :: fields[i].key == KeyText(ids[i])
  }

  lemma {:induction false} KeyedIsDistinct(fields: seq<Field>, ids: seq<int>)
    requires Keyed(fields, ids) && forall i | 0 <= i < |ids| :: ids[i] >= 0
    requires forall i, j | 0 <= i < j < |ids| :: ids[i] < ids[j]
    ensures DistinctKeys(fields)
  {
    forall i, j | 0 <= i < j < |fields| ensures fields[i].key != fields[j].key {
      DecimalReads(ids[i]);
      DecimalReads(ids[j]);
    }
  }

  lemma {:induction false} ButtonIsValue(b: Button)
    requires FitName(b.name)
    ensures Loaded(ButtonJson(b))
  {
    var fields := ButtonJson(b).fields;
    assert |"button_id"| == 9 && "button_name"[7] != "button_type"[7];
    AllLoaded(fields);
  }

  lemma {:induction false} ButtonFieldsAre(buttons: map<int, Button>, ids: seq<int>)
    requires AllIn(buttons, ids) && forall id | id in buttons :: FitButton(id, buttons[id])
    ensures Keyed(ButtonFields(buttons, ids), ids) && LoadedFields(ButtonFields(buttons, ids))
  {
    if ids == [] {
    } else {
      var fields := ButtonFields(buttons, ids);
      assert FitButton(ids[0], buttons[ids[0]]);
      ButtonIsValue(buttons[ids[0]]);
      ButtonFieldsAre(buttons, ids[1..]);
      assert fields[1..] == ButtonFields(buttons, ids[1..]) && LoadedField(fields[0]);
    }
  }

  lemma {:induction false} ButtonsAreValue(t: Target)
    requires Fits(t)
    ensures Loaded(ButtonsJson(t.buttons))
  {
    AscendingSorted(t.buttons.Keys);
    var ids := Ascending(t.buttons.Keys);
    ButtonFieldsAre(t.buttons, ids);
    forall i | 0 <= i < |ids| ensures ids[i] >= 0 {
      assert FitButton(ids[i], t.buttons[ids[i]]);
    }
    KeyedIsDistinct(ButtonFields(t.buttons, ids), ids);
  }

  lemma {:induction false} TargetIsValue(t: Target)
    requires Fits(t)
    ensures Loaded(TargetJson(t))
  {
    var fields := TargetJson(t).fields;
    ButtonsAreValue(t);
    assert |"buttons"| == 7 && |"target_category"| == 15 && |"target_identifier"| == 17 && |"target_name"| == 11;
    AllLoaded(fields);
  }

  lemma {:induction false} TargetFieldsAre(targets: map<int, Target>, ids: seq<int>)
    requires AllIn(targets, ids) && FitTargets(targets)
    ensures Keyed(TargetFields(targets, ids), ids) && LoadedFields(TargetFields(targets, ids))
  {
    if ids == [] {
    } else {
      var fields := TargetFields(targets, ids);
      assert FitsUnder(ids[0], targets[ids[0]]);
      TargetIsValue(targets[ids[0]]);
      TargetFieldsAre(targets, ids[1..]);
      assert fields[1..] == TargetFields(targets, ids[1..]) && LoadedField(fields[0]);
    }
  }

  /** No two targets share a key in the file, so the JSON object holds them all. */
  lemma {:induction false} SavedKeysAreDistinct(kept: Kept)
    requires GoodKept(kept)
    ensures DistinctKeys(TargetsJson(kept.targets).fields) && |TargetsJson(kept.targets).fields| == |kept.targets|
    ensures Loaded(TargetsJson(kept.targets))
  {
    AscendingSorted(kept.targets.Keys);
    var ids := Ascending(kept.targets.Keys);
    TargetFieldsAre(kept.targets, ids);
    forall i | 0 <= i < |ids| ensures ids[i] >= 0 {
      assert FitsUnder(ids[i], kept.targets[ids[i]]);
    }
    KeyedIsDistinct(TargetFields(kept.targets, ids), ids);
    assert |ids| == |kept.targets.Keys| == |kept.targets|;
  }

  lemma {:induction false} SavedIsValue(kept: Kept)
    requires GoodKept(kept)
    ensures Loaded(ToJson(kept))
  {
    SavedKeysAreDistinct(kept);
    var fields := ToJson(kept).fields;
    assert |"active_identifier"| == 17 && "targets"[0] != "version"[0];
    AllLoaded(fields);
  }

  /** Loading what was saved gives back the same targets, buttons and selection. */
  lemma {:induction false} LoadSaved(kept: Kept)
    requires GoodKept(kept)
    ensures Load(Some(ToJson(kept))) == kept
  {
    SavedIsValue(kept);
    ValueLoads(ToJson(kept));
    PayloadLoads(kept);
  }

  // ---------------------------------------------------------------- any file

  lemma {:induction false} LoadedNameFits(fields: seq<Field>, name: string)
    requires LoadedFields(fields)
    ensures FitName(NameOf(fields, name))
  {
    if Get(fields, name).Some? {
      GetIsLoaded(fields, name);
    }
  }

  lemma {:induction false} LoadedButtonsFit(fields: seq<Field>, buttons: map<int, Button>)
    requires LoadedFields(fields)
    requires LoadButtons(fields, buttons).Ok? && forall id | id in buttons :: FitButton(id, buttons[id])
    ensures var r := LoadButtons(fields, buttons).value; forall id | id in r :: FitButton(id, r[id])
    decreases |fields|
  {
    if fields == [] {
    } else {
      var b := LoadButton(fields[0].key, fields[0].val).value;
      assert LoadedField(fields[0]) && Loaded(fields[0].val);
      LoadedNameFits(fields[0].val.fields, "button_name");
      LoadedButtonsFit(fields[1..], buttons[b.id := b]);
    }
  }

  lemma {:induction false} LoadedFieldsOr(fields: seq<Field>, name: string)
    requires LoadedFields(fields) && FieldsOr(fields, name).Ok?
    ensures LoadedFields(FieldsOr(fields, name).value) && DistinctKeys(FieldsOr(fields, name).value)
  {
    if Get(fields, name).Some? {
      GetIsLoaded(fields, name);
    }
  }

  lemma {:induction false} LoadedTargetFits(key: string, raw: Json)
    requires Loaded(raw) && LoadTarget(key, raw).Ok?
    ensures Fits(LoadTarget(key, raw).value)
  {
    LoadedNameFits(raw.fields, "target_name");
    LoadedFieldsOr(raw.fields, "buttons");
    LoadedButtonsFit(FieldsOr(raw.fields, "buttons").value, map[]);
  }

  lemma {:induction false} LoadedTargetsFit(fields: seq<Field>, loaded: map<int, Target>)
    requires LoadedFields(fields) && LoadTargets(fields, loaded).Ok? && FitTargets(loaded)
    ensures var r := LoadTargets(fields, loaded).value; FitTargets(r) && |r| <= |loaded| + |fields|
    decreases |fields|
  {
    if fields == [] {
    } else {
      var t := LoadTarget(fields[0].key, fields[0].val).value;
      assert LoadedField(fields[0]);
      LoadedTargetFits(fields[0].key, fields[0].val);
      var next := loaded[t.identifier := t];
      forall id | id in next ensures FitsUnder(id, next[id]) {
        assert id in loaded ==> FitsUnder(id, loaded[id]);
      }
      LoadedTargetsFit(fields[1..], next);
    }
  }

  /**
   Whatever the file holds, at most ten targets load, each under its own 32-bit identifier
   and with buttons in range, and the selection is one of them.
   */
  lemma {:induction false} LoadIsSound(file: Option<Json>)
    ensures GoodKept(Load(file))
  {
    if file.Some? && LoadPayload(Loads(file.value)).Ok? {
      var payload := Loads(file.value);
      LoadsGivesValue(file.value);
      LoadedFieldsOr(payload.fields, "targets");
      LoadedTargetsFit(FieldsOr(payload.fields, "targets").value, map[]);
    }
  }
}
