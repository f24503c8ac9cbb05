/**
 JSON: the text of a file as a tree, and the Python value `json.loads` makes of it.
 */
module JsonValues {
  import opened Bytes

  /** A fraction carries the whole number `int` makes of it, infinities and NaN none, and whether it is zero. */
  datatype Json =
    | Null
    | Bool(b: bool)
    | Number(n: int)
    | Fraction(whole: Option<int>, zero: bool)
    | Text(utf8: seq<byte>)
    | Array(items: seq<Json>)
    | Object(fields: seq<Field>)
  datatype Field = Field(key: string, val: Json)

  predicate DistinctKeys(fields: seq<Field>) {
    forall i, j | 0 <= i < j < |fields| :: fields[i].key != fields[j].key
  }

  /** A Python value: no object in it has two fields under one key. */
  predicate Loaded(j: Json) {
    match j
    case Array(items) => LoadedItems(items)
    case Object(fields) => DistinctKeys(fields) && LoadedFields(fields)
    case _ => true
  }

  predicate LoadedItems(items: seq<Json>) {
    items == [] || (Loaded(items[0]) && LoadedItems(items[1..]))
  }

  predicate LoadedFields(fields: seq<Field>) {
    fields == [] || (LoadedField(fields[0]) && LoadedFields(fields[1..]))
  }

  predicate LoadedField(f: Field) {
    Loaded(f.val)
  }

  /** `d[key] = val`: a key that is there keeps its place. */
  function Put(d: seq<Field>, f: Field): seq<Field> {
    if d == [] then [f]
    else if d[0].key == f.key then [f] + d[1..]
    else [d[0]] + Put(d[1..], f)
  }

  /** The fields of an object put in one by one behind those of `d`. */
  function PutAll(d: seq<Field>, fields: seq<Field>): seq<Field>
    decreases |fields|
  {
    if fields == [] then d else PutAll(Put(d, fields[0]), fields[1..])
  }

  /** `json.loads`: of the fields under one key the last counts, in the place of the first. */
  function Loads(j: Json): Json {
    match j
    case Array(items) => Array(LoadsItems(items))
    case Object(fields) => Object(PutAll([], LoadsFields(fields)))
    case _ => j
  }

  function LoadsItems(items: seq<Json>): seq<Json> {
    if items == [] then [] else [Loads(items[0])] + LoadsItems(items[1..])
  }

  function LoadsFields(fields: seq<Field>): seq<Field> {
    if fields == [] then [] else [LoadsField(fields[0])] + LoadsFields(fields[1..])
  }

  function LoadsField(f: Field): Field {
    Field(f.key, Loads(f.val))
  }

  /** `dict.get`. */
  function Get(fields: seq<Field>, key: string): Option<Json> {
    if fields == [] then None
    else if fields[0].key == key then Some(fields[0].val)
    else Get(fields[1..], key)
  }

  /** The last field under a key. */
  function LastOf(fields: seq<Field>, key: string): Option<Json> {
    if fields == [] then None
    else
      var last := fields[|fields| - 1];
      if last.key == key then Some(last.val) else LastOf(fields[..|fields| - 1], key)
  }

  lemma {:induction false} PutIsFound(d: seq<Field>, f: Field, key: string)
    ensures Get(Put(d, f), key) == if f.key == key then Some(f.val) else Get(d, key)
  {
    if d == [] || d[0].key == f.key {
    } else {
      PutIsFound(d[1..], f, key);
    }
  }

  lemma {:induction false} LastOfRest(fields: seq<Field>, key: string)
    requires fields != []
    ensures LastOf(fields, key)
         == if LastOf(fields[1..], key).Some? then LastOf(fields[1..], key)
            else if fields[0].key == key then Some(fields[0].val) else None
  {
    var k := |fields| - 1;
    if k == 0 {
    } else {
      assert fields[1..][..k - 1] == fields[..k][1..];
      LastOfRest(fields[..k], key);
    }
  }

  /** Looking a key up in a dictionary filled field by field finds the last one under it. */
  lemma {:induction false} LastCounts(d: seq<Field>, fields: seq<Field>, key: string)
    ensures Get(PutAll(d, fields), key) == if LastOf(fields, key).Some? then LastOf(fields, key) else Get(d, key)
    decreases |fields|
  {
    if fields == [] {
    } else {
      PutIsFound(d, fields[0], key);
      LastCounts(Put(d, fields[0]), fields[1..], key);
      LastOfRest(fields, key);
    }
  }

  // ---------------------------------------------------------------- what is loaded is a value

  lemma {:induction false} PutAddsOne(d: seq<Field>, f: Field)
    ensures forall r | r in Put(d, f) :: r == f || r in d
  {
    if d == [] || d[0].key == f.key {
    } else {
      PutAddsOne(d[1..], f);
    }
  }

  lemma {:induction false} PutKeepsDistinct(d: seq<Field>, f: Field)
    requires DistinctKeys(d)
    ensures DistinctKeys(Put(d, f))
  {
    var r := Put(d, f);
    if d == [] {
    } else if d[0].key == f.key {
      assert r[1..] == d[1..];
    } else {
      var more := Put(d[1..], f);
      PutKeepsDistinct(d[1..], f);
      PutAddsOne(d[1..], f);
      forall j | 0 <= j < |more| ensures more[j].key != d[0].key {
        assert more[j] in more;
      }
    }
  }

  lemma {:induction false} PutKeepsLoaded(d: seq<Field>, f: Field)
    requires LoadedFields(d) && LoadedField(f)
    ensures LoadedFields(Put(d, f))
  {
    var r := Put(d, f);
    if d == [] {
    } else if d[0].key == f.key {
      assert r[1..] == d[1..];
    } else {
      PutKeepsLoaded(d[1..], f);
      assert r[1..] == Put(d[1..], f);
    }
  }

  lemma {:induction false} PutAllKeepsLoaded(d: seq<Field>, fields: seq<Field>)
    requires DistinctKeys(d) && LoadedFields(d) && LoadedFields(fields)
    ensures DistinctKeys(PutAll(d, fields)) && LoadedFields(PutAll(d, fields))
    decreases |fields|
  {
    if fields == [] {
    } else {
      PutKeepsDistinct(d, fields[0]);
      PutKeepsLoaded(d, fields[0]);
      PutAllKeepsLoaded(Put(d, fields[0]), fields[1..]);
    }
  }

  /** Whatever the file holds, no object of the value has a repeated key. */
  lemma {:induction false} LoadsGivesValue(j: Json)
    ensures Loaded(Loads(j))
  {
    match j
    case Array(items) => ItemsGiveValues(items);
    case Object(fields) =>
      FieldsGiveValues(fields);
      PutAllKeepsLoaded([], LoadsFields(fields));
    case _ =>
  }

  lemma {:induction false} ItemsGiveValues(items: seq<Json>)
    ensures LoadedItems(LoadsItems(items))
  {
    if items == [] {
    } else {
      LoadsGivesValue(items[0]);
      ItemsGiveValues(items[1..]);
    }
  }

  lemma {:induction false} FieldsGiveValues(fields: seq<Field>)
    ensures LoadedFields(LoadsFields(fields))
  {
    if fields == [] {
    } else {
      FieldGivesValue(fields[0]);
      FieldsGiveValues(fields[1..]);
    }
  }

  lemma {:induction false} FieldGivesValue(f: Field)
    ensures LoadedField(LoadsField(f))
  {
    LoadsGivesValue(f.val);
  }

  // ---------------------------------------------------------------- a value loads as itself

  lemma {:induction false} PutAppends(d: seq<Field>, f: Field)
    requires forall i | 0 <= i < |d| :: d[i].key != f.key
    ensures Put(d, f) == d + [f]
  {
    if d == [] {
    } else {
      PutAppends(d[1..], f);
    }
  }

  lemma {:induction false} PutAllAppends(d: seq<Field>, fields: seq<Field>)
    requires DistinctKeys(d + fields)
    ensures PutAll(d, fields) == d + fields
    decreases |fields|
  {
    var all := d + fields;
    if fields == [] {
      assert all == d;
    } else {
      forall i | 0 <= i < |d| ensures d[i].key != fields[0].key {
        assert all[i] == d[i] && all[|d|] == fields[0];
      }
      PutAppends(d, fields[0]);
      assert d + [fields[0]] + fields[1..] == all;
      PutAllAppends(d + [fields[0]], fields[1..]);
    }
  }

  /** A value that is written out loads as the same value. */
  lemma {:induction false} ValueLoads(j: Json)
    requires Loaded(j)
    ensures Loads(j) == j
  {
    match j
    case Array(items) => ItemsLoad(items);
    case Object(fields) =>
      FieldsLoad(fields);
      assert [] + fields == fields;
      PutAllAppends([], fields);
    case _ =>
  }

  lemma {:induction false} ItemsLoad(items: seq<Json>)
    requires LoadedItems(items)
    ensures LoadsItems(items) == items
  {
    if items == [] {
    } else {
      ValueLoads(items[0]);
      ItemsLoad(items[1..]);
    }
  }

  lemma {:induction false} FieldsLoad(fields: seq<Field>)
    requires LoadedFields(fields)
    ensures LoadsFields(fields) == fields
  {
    if fields == [] {
    } else {
      FieldLoads(fields[0]);
      FieldsLoad(fields[1..]);
    }
  }

  lemma {:induction false} FieldLoads(f: Field)
    requires LoadedField(f)
    ensures LoadsField(f) == f
  {
    ValueLoads(f.val);
  }

  lemma {:induction false} AllLoaded(fields: seq<Field>)
    requires forall i | 0 <= i < |fields| :: Loaded(fields[i].val)
    ensures LoadedFields(fields)
  {
    if fields == [] {
    } else {
      assert LoadedField(fields[0]);
      AllLoaded(fields[1..]);
    }
  }

  lemma {:induction false} GetIsLoaded(fields: seq<Field>, key: string)
    requires LoadedFields(fields) && Get(fields, key).Some?
    ensures Loaded(Get(fields, key).value)
  {
    if fields[0].key == key {
      assert LoadedField(fields[0]);
    } else {
      GetIsLoaded(fields[1..], key);
    }
  }
}
