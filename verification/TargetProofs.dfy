/**
 Target records survive printing and parsing, and exactly when the printed list
 of targets can be taken apart again.
 */
module TargetProofs {
  import opened Bytes
  import opened Dicts
  import HdsValues
  import opened Tlv8
  import opened Tlv8Proofs
  import opened Tlv8Lists
  import opened Targets

  // ---------------------------------------------------------------- what parsing guarantees

  lemma {:induction false} ParsedButtonIsGood(entry: map<byte, seq<byte>>)
    requires ParseButton(entry).Ok?
    ensures var b := ParseButton(entry).value; GoodButton(b.id, b) && Sendable(b)
  {
    LittleEndianInverse(entry[BUTTON_TYPE]);
    HdsValues.Width.W16.Capacity();
  }

  lemma {:induction false} ParsedButtonsAreGood(entries: seq<map<byte, seq<byte>>>, buttons: map<int, Button>)
    requires ParseButtons(entries, buttons).Ok?
    requires forall id | id in buttons :: GoodButton(id, buttons[id]) && Sendable(buttons[id])
    ensures var r := ParseButtons(entries, buttons).value;
            forall id | id in r :: GoodButton(id, r[id]) && Sendable(r[id])
    decreases |entries|
  {
    if entries == [] {
    } else {
      ParsedButtonIsGood(entries[0]);
      var b := ParseButton(entries[0]).value;
      ParsedButtonsAreGood(entries[1..], buttons[b.id := b]);
    }
  }

  /** Whatever bytes arrive, a target that parses is one that can be printed. */
  lemma {:induction false} ParsedTargetIsGood(raw: seq<byte>)
    requires ParseTarget(raw).Ok?
    ensures GoodTarget(ParseTarget(raw).value)
  {
    var data := DecodeMap(raw).value;
    LittleEndianInverse(data[TARGET_IDENTIFIER]);
    HdsValues.Width.W16.Capacity();
    HdsValues.Width.W32.Capacity();
    if TARGET_CATEGORY in data {
      LittleEndianInverse(data[TARGET_CATEGORY]);
    }
    if TARGET_BUTTON_CONFIGURATION in data {
      ParsedButtonsAreGood(DecodeItems(data[TARGET_BUTTON_CONFIGURATION], BUTTON_ID).value, map[]);
    }
  }

  // ---------------------------------------------------------------- one button

  /** A button name that is not true, an empty text above all, is not printed, so it comes back as no name. */
  function NormalButton(b: Button): Button {
    if Shown(b.name) then b else b.(name := None)
  }

  function NormalTarget(t: Target): Target {
    t.(buttons := map id | id in t.buttons :: NormalButton(t.buttons[id]))
  }

  lemma {:induction false} ButtonReads(b: Button)
    requires GoodButton(b.id, b) && Sendable(b)
    ensures ParseButton(Meaning(ButtonRecord(b), map[], None)) == Ok(NormalButton(b))
  {
    var record := ButtonRecord(b);
    DistinctTagsMeanThemselves(record, map[], None);
    var entry := Meaning(record, map[], None);
    assert record[0].tag in entry && record[1].tag in entry;
    FixedWidthRoundTrip(b.kind, 2);
    if Shown(b.name) {
      assert record[2] == Item(BUTTON_NAME, b.name.value.utf8);
    }
  }

  function PutAll(bs: seq<Button>, buttons: map<int, Button>): map<int, Button> {
    if bs == [] then buttons else PutAll(bs[1..], buttons[bs[0].id := NormalButton(bs[0])])
  }

  predicate AllSendable(bs: seq<Button>) {
    forall i | 0 <= i < |bs| :: Sendable(bs[i])
  }

  lemma {:induction false} ButtonsRead(bs: seq<Button>, buttons: map<int, Button>)
    requires AllGoodButtons(bs) && AllSendable(bs)
    ensures ParseButtons(Meanings(ButtonRecords(bs)), buttons) == Ok(PutAll(bs, buttons))
    decreases |bs|
  {
    if bs == [] {
    } else {
      ButtonReads(bs[0]);
      ButtonsRead(bs[1..], buttons[bs[0].id := NormalButton(bs[0])]);
      var entries := Meanings(ButtonRecords(bs));
      assert entries[0] == Meaning(ButtonRecord(bs[0]), map[], None);
      assert entries[1..] == Meanings(ButtonRecords(bs[1..]));
    }
  }

  lemma {:induction false} PutAllRebuilds(t: Target, ids: seq<int>, buttons: map<int, Button>)
    requires Printable(t) && AllIn(t.buttons, ids) && AllIn(NormalTarget(t).buttons, ids)
    ensures PutAll(Picked(t.buttons, ids), buttons) == Rebuild(NormalTarget(t).buttons, ids, buttons)
    decreases |ids|
  {
    if ids == [] {
    } else {
      var b := t.buttons[ids[0]];
      assert GoodButton(ids[0], b);
      PutAllRebuilds(t, ids[1..], buttons[b.id := NormalButton(b)]);
    }
  }

  lemma {:induction false} ButtonRecordsAreRecords(bs: seq<Button>)
    requires AllGoodButtons(bs)
    ensures var rs := ButtonRecords(bs);
            |rs| == |bs| && AllRecords(rs, BUTTON_ID) && forall i | 0 <= i < |rs| :: !Swallows(rs[i], BUTTON_ID)
  {
    if bs == [] {
    } else {
      ButtonRecordsAreRecords(bs[1..]);
    }
  }

  lemma {:induction false} NoneSwallows(open: Record, records: seq<Record>, separator: byte)
    requires open != [] && NoneEmpty(records)
    requires !Swallows(open, separator) && forall i | 0 <= i < |records| :: !Swallows(records[i], separator)
    ensures Swallowing(open, records, separator) == 0
    decreases |records|
  {
    if records == [] {
    } else {
      NoneSwallows(records[0], records[1..], separator);
    }
  }

  lemma {:induction false} ButtonsSplit(bs: seq<Button>)
    requires AllGoodButtons(bs) && bs != []
    ensures DecodeItems(WireOf(Flatten(ButtonRecords(bs))), BUTTON_ID) == Ok(Meanings(ButtonRecords(bs)))
  {
    var records := ButtonRecords(bs);
    ButtonRecordsAreRecords(bs);
    NoneSwallows(records[0], records[1..], BUTTON_ID);
    ListRoundTrip(records, BUTTON_ID);
  }

  lemma {:induction false} SortedButtonsPut(t: Target)
    requires Printable(t)
    ensures PutAll(SortedButtons(t), map[]) == NormalTarget(t).buttons
  {
    var normal := NormalTarget(t).buttons;
    assert normal.Keys == t.buttons.Keys;
    RebuildAll(normal);
    RebuildAll(t.buttons);
    PutAllRebuilds(t, Ascending(t.buttons.Keys), map[]);
  }

  lemma {:induction false} PickedAreSendable(m: map<int, Button>, ids: seq<int>)
    requires AllIn(m, ids) && forall id | id in m :: Sendable(m[id])
    ensures AllSendable(Picked(m, ids))
  {
    if ids == [] {
    } else {
      PickedAreSendable(m, ids[1..]);
      assert Sendable(m[ids[0]]);
    }
  }

  /** The printed buttons of a target parse back to them. */
  lemma {:induction false} ButtonListReads(t: Target)
    requires GoodTarget(t) && t.buttons != map[]
    ensures var entries := DecodeItems(WireOf(Flatten(ButtonRecords(SortedButtons(t)))), BUTTON_ID);
            entries.Ok? && ParseButtons(entries.value, map[]) == Ok(NormalTarget(t).buttons)
  {
    SortedButtonsPut(t);
    assert t.buttons.Keys != {};
    AscendingSorted(t.buttons.Keys);
    PickedAreSendable(t.buttons, Ascending(t.buttons.Keys));
    ButtonsSplit(SortedButtons(t));
    ButtonsRead(SortedButtons(t), map[]);
  }

  // ---------------------------------------------------------------- one target

  /** At most one item, under this tag. */
  predicate AtMostOne(items: seq<Item>, tag: byte) {
    items == [] || (|items| == 1 && items[0].tag == tag)
  }

  /** What it means where nothing else has its tag. */
  predicate MeansPart(data: map<byte, seq<byte>>, tag: byte, items: seq<Item>) {
    if items == [] then tag !in data else tag in data && data[tag] == items[0].value
  }

  function PutPart(data: map<byte, seq<byte>>, part: seq<Item>): map<byte, seq<byte>> {
    if part == [] then data else data[part[0].tag := part[0].value]
  }

  /** Behind an item with a smaller tag, a part is put in and nothing runs on into it. */
  lemma {:induction false} PartMeans(
    part: seq<Item>, tag: byte, rest: seq<Item>, data: map<byte, seq<byte>>, previous: Item) returns (last: Item)
    requires AtMostOne(part, tag) && previous.tag < tag
    ensures last.tag <= tag
    ensures Meaning(part + rest, data, Some(previous)) == Meaning(rest, PutPart(data, part), Some(last))
  {
    last := previous;
    if part == [] {
      assert part + rest == rest;
    } else {
      last := part[0];
      assert (part + rest)[1..] == rest;
    }
  }

  lemma {:induction false} PartsMean(first: Item, name: seq<Item>, category: seq<Item>, buttons: seq<Item>)
    requires first.tag == 1 && AtMostOne(name, 2) && AtMostOne(category, 3) && AtMostOne(buttons, 4)
    ensures Meaning([first] + name + category + buttons, map[], None)
         == PutPart(PutPart(PutPart(map[1 := first.value], name), category), buttons)
  {
    var none: seq<Item> := [];
    var one := map[1 := first.value];
    var two := PutPart(one, name);
    var rest := name + (category + (buttons + none));
    Associative([first], name, category);
    Associative([first], name + category, buttons);
    Associative(name, category, buttons);
    assert buttons + none == buttons;
    assert [first] + name + category + buttons == [first] + rest && ([first] + rest)[1..] == rest;
    var a := PartMeans(name, 2, category + (buttons + none), one, first);
    var b := PartMeans(category, 3, buttons + none, two, a);
    var c := PartMeans(buttons, 4, none, PutPart(two, category), b);
  }

  lemma {:induction false} PartsAreFound(first: Item, name: seq<Item>, category: seq<Item>, buttons: seq<Item>)
    requires first.tag == 1 && AtMostOne(name, 2) && AtMostOne(category, 3) && AtMostOne(buttons, 4)
    ensures var data := Meaning([first] + name + category + buttons, map[], None);
            && MeansPart(data, 1, [first])
            && MeansPart(data, 2, name) && MeansPart(data, 3, category) && MeansPart(data, 4, buttons)
  {
    PartsMean(first, name, category, buttons);
  }

  lemma {:induction false} TargetItemsMean(t: Target)
    requires Printable(t)
    ensures var data := Meaning(TargetItems(t), map[], None);
            && MeansPart(data, TARGET_IDENTIFIER, [Item(TARGET_IDENTIFIER, U32(t.identifier))])
            && MeansPart(data, TARGET_NAME, NameItems(t)) && MeansPart(data, TARGET_CATEGORY, CategoryItems(t))
            && MeansPart(data, TARGET_BUTTON_CONFIGURATION, ButtonItems(t))
  {
    PartsAreFound(Item(TARGET_IDENTIFIER, U32(t.identifier)), NameItems(t), CategoryItems(t), ButtonItems(t));
  }

  /**
   Of a target that can be printed, parsing gives it back, empty button names dropped,
   exactly when its names are ones a controller may send.
   */
  lemma {:induction false} TargetRoundTrip(t: Target)
    requires Printable(t)
    ensures ParseTarget(PrintTarget(t)) == Ok(NormalTarget(t)) <==> GoodTarget(t)
  {
    if GoodTarget(t) {
      GoodTargetReads(t);
    } else if ParseTarget(PrintTarget(t)) == Ok(NormalTarget(t)) {
      ParsedTargetIsGood(PrintTarget(t));
      NormalIsGood(t);
    }
  }

  /** What a target loses by printing does not make it one that may be sent. */
  lemma {:induction false} NormalIsGood(t: Target)
    requires Printable(t) && GoodTarget(NormalTarget(t))
    ensures GoodTarget(t)
  {
    forall id | id in t.buttons ensures Sendable(t.buttons[id]) {
      assert Sendable(NormalTarget(t).buttons[id]);
    }
  }

  lemma {:induction false} GoodTargetReads(t: Target)
    requires GoodTarget(t)
    ensures ParseTarget(PrintTarget(t)) == Ok(NormalTarget(t))
  {
    TargetItemsMean(t);
    DecodeWire(TargetItems(t));
    FixedWidthRoundTrip(t.identifier, 4);
    if t.category.Some? {
      FixedWidthRoundTrip(t.category.value, 2);
    }
    if t.buttons != map[] {
      ButtonListReads(t);
    } else {
      assert NormalTarget(t).buttons == map[];
    }
  }

  /** An empty button name is not there once parsed again: printing settles after one round. */
  lemma {:induction false} NormalPrintsAlike(t: Target)
    requires GoodTarget(t)
    ensures GoodTarget(NormalTarget(t)) && NormalTarget(NormalTarget(t)) == NormalTarget(t)
  {
    var n := NormalTarget(t);
    forall id | id in n.buttons
      ensures GoodButton(id, n.buttons[id]) && Sendable(n.buttons[id])
      ensures NormalButton(n.buttons[id]) == n.buttons[id]
    {
      assert GoodButton(id, t.buttons[id]) && Sendable(t.buttons[id]);
    }
    assert NormalTarget(n).buttons == n.buttons;
  }

  // ---------------------------------------------------------------- the list

  /** Non-last payloads whose length is a multiple of 255. */
  function Aligned(targets: seq<Target>): nat
    requires AllPrintable(targets)
  {
    if |targets| <= 1 then 0
    else (if |PrintTarget(targets[0])| % MAX_CHUNK == 0 then 1 else 0) + Aligned(targets[1..])
  }

  lemma {:induction false} PrintedIsNotEmpty(t: Target)
    requires Printable(t)
    ensures PrintTarget(t) != []
  {
    FragmentsAreSmall(TargetItems(t));
  }

  lemma {:induction false} ListRecordsAreRecords(targets: seq<Target>)
    requires AllPrintable(targets)
    ensures var rs := ListRecords(targets); |rs| == |targets| && AllRecords(rs, LIST_TARGET_CONFIGURATION)
  {
    if targets == [] {
    } else {
      ListRecordsAreRecords(targets[1..]);
    }
  }

  /** An entry swallows the next one exactly when its payload is aligned. */
  lemma {:induction false} AlignedSwallow(targets: seq<Target>)
    requires AllPrintable(targets) && targets != []
    ensures var rs := ListRecords(targets);
            NoneEmpty(rs) && Swallowing(rs[0], rs[1..], LIST_TARGET_CONFIGURATION) == Aligned(targets)
  {
    ListRecordsAreRecords(targets);
    PrintedIsNotEmpty(targets[0]);
    var rs := ListRecords(targets);
    assert rs[1..] == ListRecords(targets[1..]);
    if |targets| <= 1 {
    } else {
      AlignedSwallow(targets[1..]);
    }
  }

  lemma {:induction false} ListRecordMeans(targets: seq<Target>, i: nat)
    requires AllPrintable(targets) && i < |targets|
    ensures |ListRecords(targets)| == |targets|
    ensures Meanings(ListRecords(targets))[i] == map[LIST_TARGET_CONFIGURATION := PrintTarget(targets[i])]
  {
    ListRecordsAreRecords(targets);
    if i > 0 {
      ListRecordMeans(targets[1..], i - 1);
    } else {
      var record := ListRecords(targets)[0];
      assert record == [Item(LIST_TARGET_CONFIGURATION, PrintTarget(targets[0]))] && record[1..] == [];
      assert Meaning(record, map[], None) == map[LIST_TARGET_CONFIGURATION := PrintTarget(targets[0])];
    }
  }

  /**
   The printed list holds one entry per target less one for every aligned payload
   but the last; all come back if and only if there is no such payload, and then
   each parses to its target exactly when a controller could have sent it.
   */
  lemma {:induction false} TargetListRoundTrip(targets: map<int, Target>)
    requires PrintableTargets(targets) && targets != map[]
    ensures var ts := SortedTargets(targets);
            var decoded := DecodeItems(PrintTargets(targets), LIST_TARGET_CONFIGURATION);
            && decoded.Ok? && |decoded.value| == |ts| - Aligned(ts)
            && (Aligned(ts) == 0 ==>
                  forall i | 0 <= i < |ts| ::
                    && LIST_TARGET_CONFIGURATION in decoded.value[i]
                    && (ParseTarget(decoded.value[i][LIST_TARGET_CONFIGURATION]) == Ok(NormalTarget(ts[i])) <==>
                        GoodTarget(ts[i])))
  {
    var ts := SortedTargets(targets);
    AscendingSorted(targets.Keys);
    assert targets.Keys != {} && ts != [];
    AlignedSwallow(ts);
    ListRecordsAreRecords(ts);
    ListRoundTrip(ListRecords(ts), LIST_TARGET_CONFIGURATION);
    var means := Meanings(ListRecords(ts));
    forall i | 0 <= i < |ts|
      ensures LIST_TARGET_CONFIGURATION in means[i]
      ensures ParseTarget(means[i][LIST_TARGET_CONFIGURATION]) == Ok(NormalTarget(ts[i])) <==> GoodTarget(ts[i])
    {
      ListRecordMeans(ts, i);
      TargetRoundTrip(ts[i]);
    }
  }

  // ---------------------------------------------------------------- what does get lost

  /** `n` times the letter a. */
  function Letters(n: nat): seq<byte> {
    if n == 0 then [] else [0x61] + Letters(n - 1)
  }

  lemma {:induction false} LettersAreText(n: nat)
    ensures |Letters(n)| == n && HdsValues.ValidUtf8(Letters(n))
  {
    if n == 0 {
    } else {
      LettersAreText(n - 1);
      assert Letters(n)[1..] == Letters(n - 1);
    }
  }

  /** A target with nothing but a name. */
  function Named(id: int, length: nat): Target {
    Target(id, Some(TextName(Letters(length))), None, map[])
  }

  /** Six bytes of identifier, and the name behind two bytes of its own. */
  lemma {:induction false} NamedLength(id: int, length: nat)
    requires 1 <= id < UINT32 && 1 <= length <= MAX_NAME_BYTES
    ensures GoodTarget(Named(id, length)) && |PrintTarget(Named(id, length))| == 8 + length
  {
    LettersAreText(length);
    var t := Named(id, length);
    var items := TargetItems(t);
    assert items == [Item(TARGET_IDENTIFIER, U32(id)), Item(TARGET_NAME, Letters(length))];
    var segments := Fragments(items);
    var rest := items[1..];
    assert Fragments(rest) == [Segment(TARGET_NAME, Letters(length))] by {
      assert rest[1..] == [] && rest[0] == Item(TARGET_NAME, Letters(length));
    }
    assert segments == [Segment(TARGET_IDENTIFIER, U32(id))] + Fragments(rest);
    FragmentsAreSmall(items);
    FragmentsAreSmall(rest);
    assert segments[1..] == Fragments(rest);
    assert |Wire(segments)| == 6 + |Wire(Fragments(rest))|;
    assert Fragments(rest)[1..] == [];
  }

  lemma AscendingPair()
    ensures Ascending({1, 2}) == [1, 2]
  {
    var none: set<int> := {};
    assert Least({1, 2}) == 1 && {1, 2} - {1} == {2};
    assert Least({2}) == 2 && {2} - {2} == none;
    assert Ascending(none) == [];
    assert Ascending({2}) == [2] + [] && Ascending({1, 2}) == [1] + [2];
  }

  lemma {:induction false} PickedPair(m: map<int, Target>, a: Target, b: Target)
    requires 1 in m && 2 in m && m[1] == a && m[2] == b
    ensures Picked(m, [1, 2]) == [a, b]
  {
    var ids := [1, 2];
    assert ids[1..] == [2] && ids[1..][1..] == [];
    assert Picked(m, ids[1..][1..]) == [];
    assert Picked(m, ids[1..]) == [b] + [];
    assert Picked(m, ids) == [a] + [b];
  }

  lemma {:induction false} SortedPair(a: Target, b: Target, m: map<int, Target>)
    requires m == map[1 := a, 2 := b] && Printable(a) && Printable(b)
    ensures PrintableTargets(m) && SortedTargets(m) == [a, b]
  {
    assert m.Keys == {1, 2};
    AscendingPair();
    PickedPair(m, a, b);
    assert PrintableAt(m, 1) && PrintableAt(m, 2);
  }

  lemma {:induction false} AlignedTwo(a: Target, b: Target)
    requires Printable(a) && Printable(b) && |PrintTarget(a)| == MAX_CHUNK
    ensures AllPrintable([a, b]) && Aligned([a, b]) == 1
  {
    assert [a, b][1..] == [b];
  }

  lemma {:induction false} LossIsAligned(m: map<int, Target>, ts: seq<Target>)
    requires PrintableTargets(m) && m != map[] && SortedTargets(m) == ts
    ensures var decoded := DecodeItems(PrintTargets(m), LIST_TARGET_CONFIGURATION);
            AllPrintable(ts) && decoded.Ok? && |decoded.value| == |ts| - Aligned(ts)
  {
    TargetListRoundTrip(m);
  }

  /** A first payload of 255 bytes swallows the second. */
  lemma {:induction false} AlignedPair(a: Target, b: Target, m: map<int, Target>)
    requires m == map[1 := a, 2 := b] && Printable(a) && Printable(b) && |PrintTarget(a)| == MAX_CHUNK
    ensures PrintableTargets(m) && Aligned(SortedTargets(m)) == 1
    ensures var decoded := DecodeItems(PrintTargets(m), LIST_TARGET_CONFIGURATION);
            decoded.Ok? && |decoded.value| == 1
  {
    SortedPair(a, b, m);
    AlignedTwo(a, b);
    assert 1 in m;
    LossIsAligned(m, [a, b]);
  }

  /** Two targets, each with a 247-byte name and nothing else, both receivable: their list reads as one entry. */
  lemma {:induction false} AlignedTargetsAreLost(a: Target, b: Target, length: nat)
    requires length == 247 && a == Named(1, length) && b == Named(2, length)
    ensures Printable(a) && ParseTarget(PrintTarget(a)) == Ok(NormalTarget(a))
    ensures Printable(b) && ParseTarget(PrintTarget(b)) == Ok(NormalTarget(b))
    ensures var m := map[1 := a, 2 := b];
            && PrintableTargets(m) && Aligned(SortedTargets(m)) == 1
            && var decoded := DecodeItems(PrintTargets(m), LIST_TARGET_CONFIGURATION);
               decoded.Ok? && |decoded.value| == 1
  {
    NamedLength(1, length);
    NamedLength(2, length);
    TargetRoundTrip(a);
    TargetRoundTrip(b);
    AlignedPair(a, b, map[1 := a, 2 := b]);
  }

  /**
   The entries of a button with an empty name, and of a target with that button alone, as a
   controller may send them.
   */
  function EmptyNamedButton(k: byte, kind: nat): Record
    requires kind <= 0xFFFF
  {
    [Item(BUTTON_ID, [k]), Item(BUTTON_TYPE, U16(kind)), Item(BUTTON_NAME, [])]
  }

  function EmptyNamed(id: nat, k: byte, kind: nat): seq<Item>
    requires 1 <= id < UINT32 && kind <= 0xFFFF
  {
    [Item(TARGET_IDENTIFIER, U32(id)), Item(TARGET_BUTTON_CONFIGURATION, WireOf(EmptyNamedButton(k, kind)))]
  }

  /** The target they stand for, and what it is once printed and parsed. */
  function WithButton(id: nat, k: byte, kind: nat, name: Option<Name>): Target {
    Target(id, None, None, map[k as int := Button(k, kind, name)])
  }

  lemma {:induction false} EmptyNameParses(id: nat, k: byte, kind: nat)
    requires 1 <= id < UINT32 && kind <= 0xFFFF
    ensures ParseTarget(WireOf(EmptyNamed(id, k, kind))) == Ok(WithButton(id, k, kind, Some(TextName([]))))
  {
    var items := EmptyNamed(id, k, kind);
    ButtonEntryReads(k, kind);
    DecodeWire(items);
    DistinctTagsMeanThemselves(items, map[], None);
    assert items[0].tag == TARGET_IDENTIFIER && items[1].tag == TARGET_BUTTON_CONFIGURATION;
    FixedWidthRoundTrip(id, 4);
  }

  /** An empty button name parses to an empty text, and comes back from printing as no name. */
  lemma {:induction false} EmptyNameIsDropped(id: nat, k: byte, kind: nat)
    requires 1 <= id < UINT32 && kind <= 0xFFFF
    ensures var t := WithButton(id, k, kind, Some(TextName([])));
            && ParseTarget(WireOf(EmptyNamed(id, k, kind))) == Ok(t) && Printable(t)
            && ParseTarget(PrintTarget(t)) == Ok(WithButton(id, k, kind, None))
  {
    EmptyNameParses(id, k, kind);
    var t := WithButton(id, k, kind, Some(TextName([])));
    TargetRoundTrip(t);
    assert NormalTarget(t).buttons == WithButton(id, k, kind, None).buttons;
  }

  lemma {:induction false} ButtonEntryReads(k: byte, kind: nat)
    requires kind <= 0xFFFF
    ensures var entries := DecodeItems(WireOf(EmptyNamedButton(k, kind)), BUTTON_ID);
            entries.Ok? && ParseButtons(entries.value, map[]) == Ok(WithButton(1, k, kind, Some(TextName([]))).buttons)
  {
    var record := EmptyNamedButton(k, kind);
    assert Flatten([record]) == record + Flatten<Item>([]) && record + [] == record;
    ListRoundTrip([record], BUTTON_ID);
    assert [record][1..] == [];
    var entry := Meaning(record, map[], None);
    assert Meanings([record]) == [entry] + Meanings([]);
    DistinctTagsMeanThemselves(record, map[], None);
    assert record[0].tag in entry && record[1].tag in entry && record[2].tag in entry;
    FixedWidthRoundTrip(kind, 2);
    assert ParseButton(entry) == Ok(Button(k, kind, Some(TextName([]))));
    assert Meanings([record])[1..] == Meanings([]);
  }
}
