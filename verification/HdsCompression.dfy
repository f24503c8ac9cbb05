/**
 Back references against the same printer without them: the same values are
 accepted, no output is longer, and where nothing repeats the bytes are the same.
 */
module HdsCompression {
  import opened Bytes
  import opened HdsValues
  import opened HdsCodec

  function UnsharedScalar(v: Value): Result<seq<byte>, Error>
    requires Tracked(v)
  {
    if Immediate(v) then Ok([ImmediateTag(v)])
    else
      var k :- Wrap(v);
      Literal(k)
  }

  /** The printer with its table switched off. */
  function Unshared(v: Value, depth: nat): Result<seq<byte>, Error> {
    if depth > MAX_DEPTH then Err(DepthExceeded)
    else
      match v
      case Null => Ok([NULL])
      case Array(items) =>
        if depth + 1 > MAX_DEPTH then Err(DepthExceeded)
        else
          var body :- UnsharedItems(items, depth + 1);
          if |items| <= 12 then Ok([ARRAY + |items|] + body) else Ok([ARRAY_TERMINATED] + body + [TERMINATOR])
      case Dict(entries) =>
        if depth + 1 > MAX_DEPTH then Err(DepthExceeded)
        else
          var body :- UnsharedEntries(entries, depth + 1);
          if |entries| <= 14 then Ok([DICT + |entries|] + body) else Ok([DICT_TERMINATED] + body + [TERMINATOR])
      case _ => UnsharedScalar(v)
  }

  function UnsharedItems(items: seq<Value>, depth: nat): Result<seq<byte>, Error> {
    if items == [] then Ok([])
    else
      var head :- Unshared(items[0], depth);
      var tail :- UnsharedItems(items[1..], depth);
      Ok(head + tail)
  }

  function UnsharedEntry(e: Entry, depth: nat): Result<seq<byte>, Error> {
    var key :- Unshared(e.key, depth);
    var val :- Unshared(e.val, depth);
    Ok(key + val)
  }

  function UnsharedEntries(entries: seq<Entry>, depth: nat): Result<seq<byte>, Error> {
    if entries == [] then Ok([])
    else
      var head :- UnsharedEntry(entries[0], depth);
      var tail :- UnsharedEntries(entries[1..], depth);
      Ok(head + tail)
  }

  // ---------------------------------------------------------------- the scalars that can be shared

  /** The searched-for scalars of a value, in the order they are printed. */
  function Scalars(v: Value): seq<Value> {
    match v
    case Null => []
    case Array(items) => ItemsScalars(items)
    case Dict(entries) => EntriesScalars(entries)
    case _ => Searched(v)
  }

  function Searched(v: Value): seq<Value>
    requires Tracked(v)
  {
    if Immediate(v) then [] else match Wrap(v) case Ok(k) => [Unsigned(k)] case Err(_) => []
  }

  function ItemsScalars(items: seq<Value>): seq<Value> {
    if items == [] then [] else Scalars(items[0]) + ItemsScalars(items[1..])
  }

  function EntryScalars(e: Entry): seq<Value> {
    Scalars(e.key) + Scalars(e.val)
  }

  function EntriesScalars(entries: seq<Entry>): seq<Value> {
    if entries == [] then [] else EntryScalars(entries[0]) + EntriesScalars(entries[1..])
  }

  /** Nothing occurs twice, in `ks` or between `ks` and the table. */
  predicate Fresh(ks: seq<Value>, seen: seq<Value>) {
    && (forall i, j | 0 <= i < j < |ks| :: ks[i] != ks[j])
    && (forall i | 0 <= i < |ks| :: ks[i] !in seen && !Immediate(ks[i]))
  }

  /** A table an encoder can have built: everything in it could be printed. */
  predicate Printable(seen: seq<Value>) {
    forall k | k in seen :: Tracked(k) && (Immediate(k) || (!k.Int? && !k.Bool? && !k.Float? && Literal(k).Ok?))
  }

  /** The table grew by scalars of `ks` and by immediates only. */
  predicate GrewBy(seen: seq<Value>, seen': seq<Value>, ks: seq<Value>) {
    forall x | x in seen' :: x in seen || Immediate(x) || x in ks
  }

  /** What sharing does to one printing. */
  ghost predicate Compresses(
    shared: Result<Printed, Error>, plain: Result<seq<byte>, Error>, seen: seq<Value>, ks: seq<Value>)
  {
    && (shared.Ok? <==> plain.Ok?)
    && (shared.Ok? ==>
          && |shared.value.bytes| <= |plain.value|
          && (Fresh(ks, seen) ==> shared.value.bytes == plain.value)
          && Printable(shared.value.seen)
          && GrewBy(seen, shared.value.seen, ks))
  }

  lemma ScalarCompresses(v: Value, seen: seq<Value>)
    requires Tracked(v) && Printable(seen)
    ensures Compresses(EncScalar(v, seen), UnsharedScalar(v), seen, Scalars(v))
  {
    if !Immediate(v) && Wrap(v).Ok? {
      var k := Wrap(v).value;
      assert Scalars(v) == [Unsigned(k)] && [Unsigned(k)][0] == Unsigned(k);
      LiteralIsNotEmpty(k);
    }
  }

  lemma LiteralIsNotEmpty(k: Value)
    requires Tracked(k) && !k.Int? && !k.Bool? && !k.Float?
    ensures Literal(k).Ok? ==> |Literal(k).value| >= 1
    ensures Literal(k).Ok? <==> Literal(Unsigned(k)).Ok?
  {
  }

  lemma FreshSplits(a: seq<Value>, b: seq<Value>, seen: seq<Value>, seen': seq<Value>)
    requires Fresh(a + b, seen) && GrewBy(seen, seen', a)
    ensures Fresh(a, seen) && Fresh(b, seen')
  {
    var ks := a + b;
    forall i, j | 0 <= i < j < |a| ensures a[i] != a[j] {
      assert ks[i] != ks[j];
    }
    forall i | 0 <= i < |a| ensures a[i] !in seen && !Immediate(a[i]) {
      assert ks[i] !in seen;
    }
    forall i, j | 0 <= i < j < |b| ensures b[i] != b[j] {
      assert ks[|a| + i] != ks[|a| + j];
    }
    forall i | 0 <= i < |b| ensures b[i] !in seen' && !Immediate(b[i]) {
      assert ks[|a| + i] == b[i];
      assert forall j | 0 <= j < |a| :: ks[j] == a[j] && a[j] != b[i];
    }
  }

  /** Two printings one after the other. */
  lemma Sequenced(first: Result<Printed, Error>, second: Result<Printed, Error>, a: Result<seq<byte>, Error>,
                  b: Result<seq<byte>, Error>, seen: seq<Value>, ka: seq<Value>, kb: seq<Value>)
    requires Compresses(first, a, seen, ka) && first.Ok?
    requires Compresses(second, b, first.value.seen, kb) && second.Ok?
    ensures Compresses(Ok(Printed(first.value.bytes + second.value.bytes, second.value.seen)),
                       Ok(a.value + b.value), seen, ka + kb)
  {
    if Fresh(ka + kb, seen) {
      FreshSplits(ka, kb, seen, first.value.seen);
    }
  }

  lemma {:induction false} ValueCompresses(v: Value, seen: seq<Value>, depth: nat)
    requires Printable(seen)
    ensures Compresses(EncValue(v, seen, depth), Unshared(v, depth), seen, Scalars(v))
    decreases v
  {
    if depth <= MAX_DEPTH {
      match v
      case Null =>
      case Array(items) => ItemsCompress(items, seen, depth + 1);
      case Dict(entries) => EntriesCompress(entries, seen, depth + 1);
      case _ => ScalarCompresses(v, seen);
    }
  }

  lemma {:induction false} ItemsCompress(items: seq<Value>, seen: seq<Value>, depth: nat)
    requires Printable(seen)
    ensures Compresses(EncItems(items, seen, depth), UnsharedItems(items, depth), seen, ItemsScalars(items))
    decreases items
  {
    if items == [] {
    } else {
      var head := EncValue(items[0], seen, depth);
      ValueCompresses(items[0], seen, depth);
      if head.Ok? {
        var tail := EncItems(items[1..], head.value.seen, depth);
        ItemsCompress(items[1..], head.value.seen, depth);
        if tail.Ok? {
          Sequenced(head, tail, Unshared(items[0], depth), UnsharedItems(items[1..], depth), seen,
                    Scalars(items[0]), ItemsScalars(items[1..]));
        }
      }
    }
  }

  lemma {:induction false} EntryCompresses(e: Entry, seen: seq<Value>, depth: nat)
    requires Printable(seen)
    ensures Compresses(EncEntry(e, seen, depth), UnsharedEntry(e, depth), seen, EntryScalars(e))
    decreases e
  {
    var key := EncValue(e.key, seen, depth);
    ValueCompresses(e.key, seen, depth);
    if key.Ok? {
      var val := EncValue(e.val, key.value.seen, depth);
      ValueCompresses(e.val, key.value.seen, depth);
      if val.Ok? {
        Sequenced(key, val, Unshared(e.key, depth), Unshared(e.val, depth), seen, Scalars(e.key), Scalars(e.val));
      }
    }
  }

  lemma {:induction false} EntriesCompress(entries: seq<Entry>, seen: seq<Value>, depth: nat)
    requires Printable(seen)
    ensures Compresses(EncEntries(entries, seen, depth), UnsharedEntries(entries, depth), seen, EntriesScalars(entries))
    decreases entries
  {
    if entries == [] {
    } else {
      var head := EncEntry(entries[0], seen, depth);
      EntryCompresses(entries[0], seen, depth);
      if head.Ok? {
        var tail := EncEntries(entries[1..], head.value.seen, depth);
        EntriesCompress(entries[1..], head.value.seen, depth);
        if tail.Ok? {
          Sequenced(head, tail, UnsharedEntry(entries[0], depth), UnsharedEntries(entries[1..], depth), seen,
                    EntryScalars(entries[0]), EntriesScalars(entries[1..]));
        }
      }
    }
  }

  /** Back references never make a message longer, and change nothing where nothing repeats. */
  lemma CompressionNeverHurts(v: Value)
    ensures Encode(v).Ok? <==> Unshared(v, 0).Ok?
    ensures Encode(v).Ok? ==> |Encode(v).value| <= |Unshared(v, 0).value|
    ensures Encode(v).Ok? && Fresh(Scalars(v), []) ==> Encode(v) == Unshared(v, 0)
  {
    ValueCompresses(v, [], 0);
  }
}
