/**
 What a state file is loaded as, field by field, and when it is no state file; with
 Python's reading of a number written as text.
 */
module FileReading {
  import opened Bytes
  import opened Dicts
  import opened JsonValues
  import Registry
  import opened Targets
  import opened SavedTargets

  // ---------------------------------------------------------------- numbers as text

  /** Digits, with single underscores between them. */
  predicate IsNumeral(text: string) {
    && text != [] && IsDigit(text[0]) && IsDigit(text[|text| - 1])
    && (forall i | 0 <= i < |text| :: IsDigit(text[i]) || text[i] == '_')
    && (forall i | 1 <= i < |text| :: text[i] == '_' ==> text[i - 1] != '_')
  }

  /** The number they stand for. */
  function Worth(text: string): nat {
    if text == [] then 0
    else
      var k := |text| - 1;
      if IsDigit(text[k]) then 10 * Worth(text[..k]) + DigitValue(text[k]) else Worth(text[..k])
  }

  lemma {:induction false} FrontIsNumeral(text: string)
    requires IsNumeral(text) && |text| > 1
    ensures var front := text[..|text| - 1];
            IsNumeral(if front[|front| - 1] == '_' then front[..|front| - 1] else front)
  {
  }

  lemma {:induction false} BackIsNumeral(text: string)
    requires |text| > 1 && IsDigit(text[|text| - 1])
    requires var front := text[..|text| - 1];
             IsNumeral(if front[|front| - 1] == '_' then front[..|front| - 1] else front)
    ensures IsNumeral(text)
  {
    var k := |text| - 1;
    var core := if text[k - 1] == '_' then text[..k - 1] else text[..k];
    assert forall i | 0 <= i < |core| :: text[i] == core[i];
  }

  lemma {:induction false} NumeralReads(text: string)
    ensures ParseDigits(text).Ok? <==> IsNumeral(text)
    ensures IsNumeral(text) ==> ParseDigits(text) == Ok(Worth(text))
  {
    if text == [] || !IsDigit(text[|text| - 1]) || |text| == 1 {
    } else {
      var k := |text| - 1;
      var front := text[..k];
      var core := if front[k - 1] == '_' then front[..k - 1] else front;
      NumeralReads(core);
      if IsNumeral(text) {
        FrontIsNumeral(text);
      }
      if IsNumeral(core) {
        BackIsNumeral(text);
      }
    }
  }

  predicate AllSpaces(text: string) {
    forall i | 0 <= i < |text| :: IsSpace(text[i])
  }

  function Signed(sign: string, n: int): int {
    if sign == "-" then -n else n
  }

  /** Spaces, a sign or none, a numeral, spaces. */
  predicate Spells(text: string, before: string, sign: string, numeral: string, after: string, n: int) {
    && text == before + sign + numeral + after
    && AllSpaces(before) && AllSpaces(after) && (sign == "" || sign == "+" || sign == "-") && IsNumeral(numeral)
    && n == Signed(sign, Worth(numeral))
  }

  lemma {:induction false} TrimsLeft(before: string, rest: string)
    requires AllSpaces(before) && rest != [] && !IsSpace(rest[0])
    ensures TrimLeft(before + rest) == rest
  {
    if before == [] {
      assert before + rest == rest;
    } else {
      assert (before + rest)[1..] == before[1..] + rest;
      TrimsLeft(before[1..], rest);
    }
  }

  lemma {:induction false} TrimsRight(rest: string, after: string)
    requires AllSpaces(after) && rest != [] && !IsSpace(rest[|rest| - 1])
    ensures TrimRight(rest + after) == rest
  {
    if after == [] {
      assert rest + after == rest;
    } else {
      assert (rest + after)[..|rest + after| - 1] == rest + after[..|after| - 1];
      TrimsRight(rest, after[..|after| - 1]);
    }
  }

  lemma {:induction false} TrimmedLeft(text: string) returns (before: string)
    ensures text == before + TrimLeft(text) && AllSpaces(before)
  {
    if text != [] && IsSpace(text[0]) {
      var more := TrimmedLeft(text[1..]);
      before := [text[0]] + more;
    } else {
      before := [];
    }
  }

  lemma {:induction false} TrimmedRight(text: string) returns (after: string)
    ensures text == TrimRight(text) + after && AllSpaces(after)
  {
    if text != [] && IsSpace(text[|text| - 1]) {
      var k := |text| - 1;
      var more := TrimmedRight(text[..k]);
      after := more + [text[k]];
    } else {
      after := [];
    }
  }

  /** A text that reads as a number spells it. */
  lemma {:induction false} ReadIsSpelled(text: string, n: int)
    returns (before: string, sign: string, numeral: string, after: string)
    requires ParseInt(text) == Ok(n)
    ensures Spells(text, before, sign, numeral, after, n)
  {
    before := TrimmedLeft(text);
    after := TrimmedRight(TrimLeft(text));
    var t := TrimRight(TrimLeft(text));
    sign := if t != [] && (t[0] == '-' || t[0] == '+') then t[..1] else "";
    numeral := t[|sign|..];
    NumeralReads(numeral);
    assert t == sign + numeral;
    Associative(before, t, after);
    Associative(before, sign, numeral);
  }

  lemma {:induction false} Trims(before: string, t: string, after: string)
    requires AllSpaces(before) && AllSpaces(after) && t != [] && !IsSpace(t[0]) && !IsSpace(t[|t| - 1])
    ensures TrimRight(TrimLeft(before + t + after)) == t
  {
    Associative(before, t, after);
    TrimsLeft(before, t + after);
    TrimsRight(t, after);
  }

  lemma {:induction false} SignedStarts(sign: string, numeral: string)
    requires IsNumeral(numeral) && (sign == "" || sign == "+" || sign == "-")
    ensures var t := sign + numeral;
            && t != [] && !IsSpace(t[0]) && !IsSpace(t[|t| - 1]) && t[|sign|..] == numeral
            && (sign == "" ==> t == numeral && t[0] != '-' && t[0] != '+')
            && (sign == "-" ==> t[0] == '-') && (sign == "+" ==> t[0] == '+')
  {
    var t := sign + numeral;
    assert t[|sign|..] == numeral && t[|t| - 1] == numeral[|numeral| - 1];
  }

  lemma {:induction false} SignedReads(sign: string, numeral: string)
    requires IsNumeral(numeral) && (sign == "" || sign == "+" || sign == "-")
    ensures ReadSigned(sign + numeral) == Ok(Signed(sign, Worth(numeral)))
  {
    SignedStarts(sign, numeral);
    NumeralReads(numeral);
  }

  /** `ParseInt` behind the spaces. */
  function ReadSigned(t: string): Result<int, Corrupt> {
    if t != [] && (t[0] == '-' || t[0] == '+') then
      var n: int :- ParseDigits(t[1..]);
      Ok(if t[0] == '-' then -n else n)
    else
      var n :- ParseDigits(t);
      Ok(n)
  }

  lemma {:induction false} ParseIsSigned(text: string)
    ensures ParseInt(text) == ReadSigned(TrimRight(TrimLeft(text)))
  {
  }

  /** A text that spells a number reads as it. */
  lemma {:induction false} SpelledIsRead(
    text: string, before: string, sign: string, numeral: string, after: string, n: int)
    requires Spells(text, before, sign, numeral, after, n)
    ensures ParseInt(text) == Ok(n)
  {
    var t := sign + numeral;
    Associative(before, sign, numeral);
    SignedStarts(sign, numeral);
    Trims(before, t, after);
    ParseIsSigned(text);
    SignedReads(sign, numeral);
  }

  // ---------------------------------------------------------------- fields

  /** A value that `int` takes, and what it makes of it. */
  ghost predicate IsInt(j: Json, n: int) {
    match j
    case Bool(b) => n == if b then 1 else 0
    case Number(m) => n == m
    case Fraction(whole, _) => whole == Some(n)
    case Text(utf8) => IsIntText(Chars(utf8), n)
    case _ => false
  }

  ghost predicate IsIntText(text: string, n: int) {
    exists before, sign, numeral, after :: Spells(text, before, sign, numeral, after, n)
  }

  lemma {:induction false} TextReads(text: string, n: int)
    ensures ParseInt(text) == Ok(n) <==> IsIntText(text, n)
  {
    if ParseInt(text) == Ok(n) {
      var before, sign, numeral, after := ReadIsSpelled(text, n);
    }
    if IsIntText(text, n) {
      var before, sign, numeral, after :| Spells(text, before, sign, numeral, after, n);
      SpelledIsRead(text, before, sign, numeral, after, n);
    }
  }

  lemma {:induction false} IntReads(j: Json, n: int)
    ensures IntOf(j) == Ok(n) <==> IsInt(j, n)
  {
    if j.Text? {
      TextReads(Chars(j.utf8), n);
    }
  }

  /** The number of an entry: its own, or else its key. */
  ghost predicate NumberIs(fields: seq<Field>, name: string, key: string, n: int) {
    match Get(fields, name)
    case Some(j) => IsInt(j, n)
    case None => IsIntText(key, n)
  }

  lemma {:induction false} NumberReads(fields: seq<Field>, name: string, key: string, n: int)
    ensures IntOr(fields, name, key) == Ok(n) <==> NumberIs(fields, name, key, n)
  {
    TextReads(key, n);
    if Get(fields, name).Some? {
      IntReads(Get(fields, name).value, n);
    }
  }

  /** A field that is there and not null. */
  function Given(fields: seq<Field>, name: string): Option<Json> {
    match Get(fields, name)
    case Some(j) => if j.Null? then None else Some(j)
    case None => None
  }

  // ---------------------------------------------------------------- buttons

  /** A button: an object with a kind, under a number, both in range. */
  ghost predicate ButtonIs(f: Field, b: Button) {
    && f.val.Object? && NumberIs(f.val.fields, "button_id", f.key, b.id) && 0 <= b.id <= 255
    && Get(f.val.fields, "button_type").Some? && IsInt(Get(f.val.fields, "button_type").value, b.kind)
    && 0 <= b.kind <= 65535 && b.name == Given(f.val.fields, "button_name")
  }

  lemma {:induction false} ButtonReads(f: Field, b: Button)
    ensures LoadButton(f.key, f.val) == Ok(b) <==> ButtonIs(f, b)
  {
    if f.val.Object? {
      NumberReads(f.val.fields, "button_id", f.key, b.id);
      var kind := Get(f.val.fields, "button_type");
      if kind.Some? {
        IntReads(kind.value, b.kind);
      }
    }
  }

  /** Buttons put into a dictionary one after the other. */
  function ButtonsIn(bs: seq<Button>): map<int, Button> {
    if bs == [] then map[]
    else
      var last := bs[|bs| - 1];
      ButtonsIn(bs[..|bs| - 1])[last.id := last]
  }

  /** What each of the fields is. */
  ghost predicate AreButtons(fields: seq<Field>, bs: seq<Button>) {
    |bs| == |fields| && forall i | 0 <= i < |fields| :: ButtonIs(fields[i], bs[i])
  }

  ghost predicate ButtonsAre(fields: seq<Field>, buttons: map<int, Button>) {
    exists bs :: AreButtons(fields, bs) && buttons == ButtonsIn(bs)
  }

  lemma {:induction false} ButtonsAppend(fields: seq<Field>, f: Field, buttons: map<int, Button>)
    ensures LoadButtons(fields + [f], buttons)
         == match LoadButtons(fields, buttons)
            case Err(e) => Err(e)
            case Ok(before) =>
              match LoadButton(f.key, f.val) case Err(e) => Err(e) case Ok(b) => Ok(before[b.id := b])
    decreases |fields|
  {
    if fields == [] {
      assert fields + [f] == [f] && [f][1..] == [];
    } else {
      assert (fields + [f])[1..] == fields[1..] + [f];
      var button := LoadButton(fields[0].key, fields[0].val);
      if button.Ok? {
        ButtonsAppend(fields[1..], f, buttons[button.value.id := button.value]);
      }
    }
  }

  lemma {:induction false} ButtonsLoad(fields: seq<Field>, bs: seq<Button>)
    requires AreButtons(fields, bs)
    ensures LoadButtons(fields, map[]) == Ok(ButtonsIn(bs))
  {
    if fields == [] {
    } else {
      var k := |fields| - 1;
      assert fields[..k] + [fields[k]] == fields;
      ButtonsLoad(fields[..k], bs[..k]);
      ButtonsAppend(fields[..k], fields[k], map[]);
      ButtonReads(fields[k], bs[k]);
    }
  }

  lemma {:induction false} LoadedButtons(fields: seq<Field>) returns (bs: seq<Button>)
    requires LoadButtons(fields, map[]).Ok?
    ensures AreButtons(fields, bs)
  {
    if fields == [] {
      bs := [];
    } else {
      var k := |fields| - 1;
      assert fields[..k] + [fields[k]] == fields;
      ButtonsAppend(fields[..k], fields[k], map[]);
      var front := LoadedButtons(fields[..k]);
      var b := LoadButton(fields[k].key, fields[k].val).value;
      ButtonReads(fields[k], b);
      bs := front + [b];
    }
  }

  lemma {:induction false} ButtonsRead(fields: seq<Field>, buttons: map<int, Button>)
    ensures LoadButtons(fields, map[]) == Ok(buttons) <==> ButtonsAre(fields, buttons)
  {
    if LoadButtons(fields, map[]).Ok? {
      var bs := LoadedButtons(fields);
      ButtonsLoad(fields, bs);
    }
    forall bs | AreButtons(fields, bs) ensures LoadButtons(fields, map[]) == Ok(ButtonsIn(bs)) {
      ButtonsLoad(fields, bs);
    }
  }

  // ---------------------------------------------------------------- targets

  /** The object under a name, empty if there is none. */
  ghost predicate ObjectIs(fields: seq<Field>, name: string, inner: seq<Field>) {
    match Get(fields, name)
    case Some(j) => j == Object(inner)
    case None => inner == []
  }

  /** A category, which may be missing or null. */
  ghost predicate CategoryIs(fields: seq<Field>, category: Option<int>) {
    match Given(fields, "target_category")
    case Some(j) => category.Some? && IsInt(j, category.value)
    case None => category.None?
  }

  /** A target: an object under a 32-bit number other than 0. */
  ghost predicate TargetIs(f: Field, t: Target) {
    && f.val.Object? && NumberIs(f.val.fields, "target_identifier", f.key, t.identifier)
    && 1 <= t.identifier <= 0xFFFF_FFFF
    && (exists inner :: ObjectIs(f.val.fields, "buttons", inner) && ButtonsAre(inner, t.buttons))
    && CategoryIs(f.val.fields, t.category) && t.name == Given(f.val.fields, "target_name")
  }

  lemma {:induction false} CategoryReads(fields: seq<Field>, category: Option<int>)
    ensures CategoryOf(fields) == Ok(category) <==> CategoryIs(fields, category)
  {
    var j := Given(fields, "target_category");
    if j.Some? && category.Some? {
      IntReads(j.value, category.value);
    }
  }

  lemma {:induction false} ObjectReads(fields: seq<Field>, name: string, inner: seq<Field>)
    ensures FieldsOr(fields, name) == Ok(inner) <==> ObjectIs(fields, name, inner)
  {
  }

  lemma {:induction false} ButtonsOfTarget(fields: seq<Field>, buttons: map<int, Button>)
    ensures FieldsOr(fields, "buttons").Ok? && LoadButtons(FieldsOr(fields, "buttons").value, map[]) == Ok(buttons)
            <==> exists inner :: ObjectIs(fields, "buttons", inner) && ButtonsAre(inner, buttons)
  {
    var inner := FieldsOr(fields, "buttons");
    if inner.Ok? {
      ObjectReads(fields, "buttons", inner.value);
      ButtonsRead(inner.value, buttons);
    }
    forall i | ObjectIs(fields, "buttons", i) && ButtonsAre(i, buttons) ensures inner == Ok(i) {
      ObjectReads(fields, "buttons", i);
    }
  }

  lemma {:induction false} TargetReads(f: Field, t: Target)
    ensures LoadTarget(f.key, f.val) == Ok(t) <==> TargetIs(f, t)
  {
    if f.val.Object? {
      NumberReads(f.val.fields, "target_identifier", f.key, t.identifier);
      ButtonsOfTarget(f.val.fields, t.buttons);
      CategoryReads(f.val.fields, t.category);
    }
  }

  /** Targets put into a dictionary one after the other. */
  function TargetsIn(ts: seq<Target>): map<int, Target> {
    if ts == [] then map[]
    else
      var last := ts[|ts| - 1];
      TargetsIn(ts[..|ts| - 1])[last.identifier := last]
  }

  /** What each of the fields is. */
  ghost predicate AreTargets(fields: seq<Field>, ts: seq<Target>) {
    |ts| == |fields| && forall i | 0 <= i < |fields| :: TargetIs(fields[i], ts[i])
  }

  ghost predicate TargetsAre(fields: seq<Field>, targets: map<int, Target>) {
    exists ts :: AreTargets(fields, ts) && targets == TargetsIn(ts)
  }

  lemma {:induction false} TargetsAppend(fields: seq<Field>, f: Field, targets: map<int, Target>)
    ensures LoadTargets(fields + [f], targets)
         == match LoadTargets(fields, targets)
            case Err(e) => Err(e)
            case Ok(before) =>
              match LoadTarget(f.key, f.val) case Err(e) => Err(e) case Ok(t) => Ok(before[t.identifier := t])
    decreases |fields|
  {
    if fields == [] {
      assert fields + [f] == [f] && [f][1..] == [];
    } else {
      assert (fields + [f])[1..] == fields[1..] + [f];
      var target := LoadTarget(fields[0].key, fields[0].val);
      if target.Ok? {
        TargetsAppend(fields[1..], f, targets[target.value.identifier := target.value]);
      }
    }
  }

  lemma {:induction false} TargetsLoad(fields: seq<Field>, ts: seq<Target>)
    requires AreTargets(fields, ts)
    ensures LoadTargets(fields, map[]) == Ok(TargetsIn(ts))
  {
    if fields == [] {
    } else {
      var k := |fields| - 1;
      assert fields[..k] + [fields[k]] == fields;
      TargetsLoad(fields[..k], ts[..k]);
      TargetsAppend(fields[..k], fields[k], map[]);
      TargetReads(fields[k], ts[k]);
    }
  }

  lemma {:induction false} LoadedTargets(fields: seq<Field>) returns (ts: seq<Target>)
    requires LoadTargets(fields, map[]).Ok?
    ensures AreTargets(fields, ts)
  {
    if fields == [] {
      ts := [];
    } else {
      var k := |fields| - 1;
      assert fields[..k] + [fields[k]] == fields;
      TargetsAppend(fields[..k], fields[k], map[]);
      var front := LoadedTargets(fields[..k]);
      var t := LoadTarget(fields[k].key, fields[k].val).value;
      TargetReads(fields[k], t);
      ts := front + [t];
    }
  }

  lemma {:induction false} TargetsRead(fields: seq<Field>, targets: map<int, Target>)
    ensures LoadTargets(fields, map[]) == Ok(targets) <==> TargetsAre(fields, targets)
  {
    if LoadTargets(fields, map[]).Ok? {
      var ts := LoadedTargets(fields);
      TargetsLoad(fields, ts);
    }
    forall ts | AreTargets(fields, ts) ensures LoadTargets(fields, map[]) == Ok(TargetsIn(ts)) {
      TargetsLoad(fields, ts);
    }
  }

  // ---------------------------------------------------------------- the file

  /** The selection the file names, 0 if it names none. */
  ghost predicate ActiveIs(fields: seq<Field>, active: int) {
    match Get(fields, "active_identifier")
    case Some(j) => IsInt(j, active)
    case None => active == 0
  }

  /** At most ten targets, and a selection that is 0 or one of them, or else moves to the first. */
  ghost predicate Holds(payload: Json, kept: Kept) {
    && payload.Object?
    && (exists inner :: ObjectIs(payload.fields, "targets", inner) && |inner| <= 10 && TargetsAre(inner, kept.targets))
    && exists active :: ActiveIs(payload.fields, active) && SelectionIs(kept, active)
  }

  predicate SelectionIs(kept: Kept, active: int) {
    if active == 0 || active in kept.targets then kept.active == active else IsFirst(kept.targets, kept.active)
  }

  lemma {:induction false} FirstIsOne(targets: map<int, Target>, a: int, b: int)
    requires IsFirst(targets, a) && IsFirst(targets, b)
    ensures a == b
  {
  }

  function ReadActive(fields: seq<Field>): Result<int, Corrupt> {
    match Get(fields, "active_identifier") case None => Ok(0) case Some(j) => IntOf(j)
  }

  lemma {:induction false} ActiveReads(fields: seq<Field>, active: int)
    ensures ReadActive(fields) == Ok(active) <==> ActiveIs(fields, active)
  {
    if Get(fields, "active_identifier").Some? {
      IntReads(Get(fields, "active_identifier").value, active);
    }
  }

  lemma {:induction false} SelectionReads(fields: seq<Field>, targets: map<int, Target>, selected: int)
    ensures (exists active :: ActiveIs(fields, active) && SelectionIs(Kept(targets, selected), active))
            <==> ReadActive(fields).Ok?
                 && var active := ReadActive(fields).value;
                    selected == if active != 0 && active !in targets then Smallest(targets) else active
  {
    SmallestIsFirst(targets);
    if ReadActive(fields).Ok? {
      ActiveReads(fields, ReadActive(fields).value);
      if IsFirst(targets, selected) {
        FirstIsOne(targets, selected, Smallest(targets));
      }
    }
    forall active | ActiveIs(fields, active) ensures ReadActive(fields) == Ok(active) {
      ActiveReads(fields, active);
    }
  }

  lemma {:induction false} TargetsOfFile(fields: seq<Field>, targets: map<int, Target>)
    ensures (exists inner :: ObjectIs(fields, "targets", inner) && |inner| <= 10 && TargetsAre(inner, targets))
            <==> var inner := FieldsOr(fields, "targets");
                 inner.Ok? && |inner.value| <= 10 && LoadTargets(inner.value, map[]) == Ok(targets)
  {
    var inner := FieldsOr(fields, "targets");
    if inner.Ok? {
      ObjectReads(fields, "targets", inner.value);
      TargetsRead(inner.value, targets);
    }
    forall i | ObjectIs(fields, "targets", i) && |i| <= 10 && TargetsAre(i, targets) ensures inner == Ok(i) {
      ObjectReads(fields, "targets", i);
    }
  }

  lemma {:induction false} PayloadReads(payload: Json, kept: Kept)
    ensures LoadPayload(payload) == Ok(kept) <==> Holds(payload, kept)
  {
    if payload.Object? {
      TargetsOfFile(payload.fields, kept.targets);
      SelectionReads(payload.fields, kept.targets, kept.active);
    }
  }

  lemma {:induction false} TreeIsRead(tree: Json, kept: Kept)
    ensures Holds(Loads(tree), kept) ==> Load(Some(tree)) == kept
    ensures (forall other :: !Holds(Loads(tree), other)) ==> Load(Some(tree)) == Kept(map[], 0)
    ensures Holds(Loads(tree), Load(Some(tree))) || forall other :: !Holds(Loads(tree), other)
  {
    var payload := Loads(tree);
    PayloadReads(payload, kept);
    forall other | Holds(payload, other) ensures LoadPayload(payload) == Ok(other) {
      PayloadReads(payload, other);
    }
    if LoadPayload(payload).Ok? {
      PayloadReads(payload, LoadPayload(payload).value);
    }
  }

  /** A file is loaded as what it holds; one that holds nothing, and a missing one, leave the registry empty. */
  lemma {:induction false} FileIsRead(file: Option<Json>, kept: Kept)
    ensures Load(file) == kept <==>
              || (file.Some? && Holds(Loads(file.value), kept))
              || (kept == Kept(map[], 0) && (file.None? || forall other :: !Holds(Loads(file.value), other)))
  {
    if file.Some? {
      TreeIsRead(file.value, kept);
    }
  }

  /** A tree that holds a registry. */
  ghost predicate Usable(tree: Json) {
    exists kept :: Holds(Loads(tree), kept)
  }

  lemma {:induction false} UsableLoads(tree: Json)
    ensures LoadPayload(Loads(tree)).Ok? <==> Usable(tree)
  {
    var loaded := LoadPayload(Loads(tree));
    if loaded.Ok? {
      PayloadReads(Loads(tree), loaded.value);
    }
    forall kept | Holds(Loads(tree), kept) ensures loaded == Ok(kept) {
      PayloadReads(Loads(tree), kept);
    }
  }

  lemma {:induction false} BootKeeps(file: Option<Json>)
    ensures var s := Registry.Boot(file);
            && s.saved == (if file.Some? && LoadPayload(Loads(file.value)).Ok? then file else None)
            && Kept(s.targets, s.active) == Load(file)
            && s.client.None? && s.links == map[] && s.conns == map[] && s.speech.None?
  {
  }

  /** A new process keeps a file that holds a registry, and moves any other away; nothing else is left from before. */
  lemma {:induction false} UnusableIsMovedAway(file: Option<Json>)
    ensures var s := Registry.Boot(file);
            && s.saved == (if file.Some? && Usable(file.value) then file else None)
            && Kept(s.targets, s.active) == Load(file)
            && s.client.None? && s.links == map[] && s.conns == map[] && s.speech.None?
  {
    BootKeeps(file);
    if file.Some? {
      UsableLoads(file.value);
    }
  }

  // ---------------------------------------------------------------- what is written

  lemma {:induction false} FieldUnder(targets: map<int, Target>, ids: seq<int>, i: nat)
    requires AllIn(targets, ids) && i < |ids|
    ensures |TargetFields(targets, ids)| == |ids|
    ensures TargetFields(targets, ids)[i] == Field(KeyText(ids[i]), TargetJson(targets[ids[i]]))
    decreases |ids|
  {
    if i == 0 {
      if |ids| > 1 {
        FieldUnder(targets, ids[1..], 0);
      }
    } else {
      FieldUnder(targets, ids[1..], i - 1);
    }
  }

  /** A target in the file, under the decimal text of its number. */
  predicate WrittenUnder(fields: seq<Field>, id: int, t: Target) {
    match Get(fields, KeyText(id))
    case Some(Object(own)) =>
      && Get(own, "target_identifier") == Some(Number(t.identifier))
      && Get(own, "target_name") == Some(match t.name case Some(name) => name case None => Null)
      && Get(own, "target_category") == Some(match t.category case Some(n) => Number(n) case None => Null)
      && Get(own, "buttons").Some? && Get(own, "buttons").value.Object?
      && |Get(own, "buttons").value.fields| == |t.buttons|
    case _ => false
  }

  lemma {:induction false} ButtonFieldsCount(buttons: map<int, Button>, ids: seq<int>)
    requires AllIn(buttons, ids)
    ensures |ButtonFields(buttons, ids)| == |ids|
  {
    if ids == [] {
    } else {
      ButtonFieldsCount(buttons, ids[1..]);
    }
  }

  lemma {:induction false} TargetIsWritten(kept: Kept, id: int)
    requires GoodKept(kept) && id in kept.targets
    ensures WrittenUnder(TargetsJson(kept.targets).fields, id, kept.targets[id])
  {
    AscendingSorted(kept.targets.Keys);
    SavedKeysAreDistinct(kept);
    var ids, t := Ascending(kept.targets.Keys), kept.targets[id];
    var fields := TargetFields(kept.targets, ids);
    var i :| 0 <= i < |ids| && ids[i] == id;
    FieldUnder(kept.targets, ids, i);
    GetAt(fields, i, KeyText(id));
    TargetFieldsRead(t);
    AscendingSorted(t.buttons.Keys);
    ButtonFieldsCount(t.buttons, Ascending(t.buttons.Keys));
    assert |Ascending(t.buttons.Keys)| == |t.buttons.Keys| == |t.buttons|;
  }

  /** The file that is written: version 1, the selection, and each target with its fields. */
  lemma {:induction false} SavedSays(kept: Kept) returns (targets: seq<Field>)
    requires GoodKept(kept)
    ensures ToJson(kept).Object? && |ToJson(kept).fields| == 3 && |targets| == |kept.targets|
    ensures var fields := ToJson(kept).fields;
            && Get(fields, "version") == Some(Number(1)) && Get(fields, "targets") == Some(Object(targets))
            && Get(fields, "active_identifier") == Some(Number(kept.active))
    ensures forall id | id in kept.targets :: WrittenUnder(targets, id, kept.targets[id])
  {
    targets := TargetsJson(kept.targets).fields;
    PayloadFieldsRead(kept);
    SavedKeysAreDistinct(kept);
    assert "targets"[0] != "version"[0];
    GetAt(ToJson(kept).fields, 2, "version");
    forall id | id in kept.targets ensures WrittenUnder(targets, id, kept.targets[id]) {
      TargetIsWritten(kept, id);
    }
  }
}
