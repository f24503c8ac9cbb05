/**
 The printer as the object it is: a growing buffer and a table of back
 references, every method proved against the functions of `HdsCodec`.
 */
module HdsEncoder {
  import opened Bytes
  import opened HdsValues
  import opened HdsCodec
  import HdsAcceptance

  class Encoder {
    var buf: seq<byte>
    var seen: seq<Value>

    constructor ()
      ensures buf == [] && seen == []
    {
      buf, seen := [], [];
    }

    /**
     What a printing method did between two states, as the specification `spec`
     has it. After an error the object is abandoned, so only the error is promised.
     */
    static ghost predicate Did(error: Option<Error>, spec: Result<Printed, Error>,
                               buf0: seq<byte>, buf1: seq<byte>, seen1: seq<Value>)
    {
      match spec
      case Ok(p) => error.None? && buf1 == buf0 + p.bytes && seen1 == p.seen
      case Err(e) => error == Some(e)
    }

    /**
     One reference byte for a value equal to one of the first 48 slots; otherwise the value
     is literal, and tracked if new.
     */
    method Compress(v: Value) returns (hit: bool)
      modifies this
      ensures hit <==> Unsigned(v) in old(seen)[..if |old(seen)| <= MAX_REF then |old(seen)| else MAX_REF + 1]
      ensures hit ==> seen == old(seen) && exists i | 0 <= i < |old(seen)| && i <= MAX_REF ::
                        && old(seen)[i] == Unsigned(v) && Unsigned(v) !in old(seen)[..i]
                        && buf == old(buf) + [COMPRESS + i]
      ensures !hit ==> buf == old(buf)
      ensures !hit ==> seen == if Unsigned(v) in old(seen) then old(seen) else old(seen) + [Unsigned(v)]
    {
      var index := IndexOf(seen, Unsigned(v));
      if index.None? {
        seen := seen + [Unsigned(v)];
        return false;
      }
      if index.value <= MAX_REF {
        buf := buf + [COMPRESS + index.value];
        return true;
      }
      return false;
    }

    /** A scalar that is searched for, then written as `literal` unless found. */
    method Wrapped(k: Value) returns (error: Option<Error>)
      requires Tracked(k) && !k.Int? && !k.Bool? && !k.Float?
      modifies this
      ensures Did(error, EncScalar(k, old(seen)), old(buf), buf, seen)
    {
      var hit := Compress(k);
      if hit {
        return None;
      }
      match Literal(k) {
        case Ok(literal) =>
          buf := buf + literal;
          error := None;
        case Err(e) => error := Some(e);
      }
    }

    method Integer(n: int) returns (error: Option<Error>)
      modifies this
      ensures Did(error, EncScalar(Int(n), old(seen)), old(buf), buf, seen)
    {
      if -1 <= n <= 39 {
        buf := buf + [ImmediateTag(Int(n))];
        seen := seen + [Int(n)];
        error := None;
      } else if W8.Holds(n) {
        error := Wrapped(Fixed(W8, n));
      } else if W16.Holds(n) {
        error := Wrapped(Fixed(W16, n));
      } else if W32.Holds(n) {
        error := Wrapped(Fixed(W32, n));
      } else if W64.Holds(n) {
        error := Wrapped(Fixed(W64, n));
      } else {
        error := Some(IntegerOverflow);
      }
    }

    method Value(v: Value, depth: nat) returns (error: Option<Error>)
      modifies this
      ensures Did(error, EncValue(v, old(seen), depth), old(buf), buf, seen)
      decreases v, 0
    {
      if depth > MAX_DEPTH {
        return Some(DepthExceeded);
      }
      match v {
        case Null =>
          buf := buf + [NULL];
          error := None;
        case Bool(b) =>
          buf := buf + [if b then TRUE_TAG else FALSE_TAG];
          seen := seen + [v];
          error := None;
        case Int(n) => error := Integer(n);
        case Float(bits) => error := Wrapped(Float64(bits));
        case Array(items) => error := PrintArray(items, depth + 1);
        case Dict(entries) => error := PrintDict(entries, depth + 1);
        case _ => error := Wrapped(v);
      }
    }

    method PrintArray(items: seq<Value>, depth: nat) returns (error: Option<Error>)
      requires depth > 0
      modifies this
      ensures depth - 1 <= MAX_DEPTH ==>
                Did(error, EncValue(Array(items), old(seen), depth - 1), old(buf), buf, seen)
      decreases items, 2
    {
      if depth > MAX_DEPTH {
        return Some(DepthExceeded);
      }
      if |items| <= 12 {
        buf := buf + [ARRAY + |items|];
        error := Items(items, depth);
      } else {
        buf := buf + [ARRAY_TERMINATED];
        error := Items(items, depth);
        if error.None? {
          buf := buf + [TERMINATOR];
        }
      }
    }

    method Items(items: seq<Value>, depth: nat) returns (error: Option<Error>)
      modifies this
      ensures Did(error, EncItems(items, old(seen), depth), old(buf), buf, seen)
      decreases items, 1
    {
      var n := 0;
      ghost var out: seq<byte> := [];
      ghost var all := EncItems(items, seen, depth);
      assert items[0..] == items && (all.Ok? ==> out + all.value.bytes == all.value.bytes);
      while n < |items|
        invariant 0 <= n <= |items| && buf == old(buf) + out
        invariant match EncItems(items[n..], seen, depth)
                  case Ok(p) => EncItems(items, old(seen), depth) == Ok(Printed(out + p.bytes, p.seen))
                  case Err(e) => EncItems(items, old(seen), depth) == Err(e)
      {
        label Before:
        assert items[n..][1..] == items[n + 1..];
        error := Value(items[n], depth);
        if error.Some? {
          return;
        }
        ghost var head := EncValue(items[n], old@Before(seen), depth).value;
        ghost var tail := EncItems(items[n + 1..], head.seen, depth);
        assert tail.Ok? ==> (out + head.bytes) + tail.value.bytes == out + (head.bytes + tail.value.bytes);
        out := out + head.bytes;
        n := n + 1;
      }
      error := None;
      assert out + [] == out;
    }

    method PrintDict(entries: seq<Entry>, depth: nat) returns (error: Option<Error>)
      requires depth > 0
      modifies this
      ensures depth - 1 <= MAX_DEPTH ==>
                Did(error, EncValue(Dict(entries), old(seen), depth - 1), old(buf), buf, seen)
      decreases entries, 2
    {
      if depth > MAX_DEPTH {
        return Some(DepthExceeded);
      }
      if |entries| <= 14 {
        buf := buf + [DICT + |entries|];
        error := Entries(entries, depth);
      } else {
        buf := buf + [DICT_TERMINATED];
        error := Entries(entries, depth);
        if error.None? {
          buf := buf + [TERMINATOR];
        }
      }
    }

    method Entries(entries: seq<Entry>, depth: nat) returns (error: Option<Error>)
      modifies this
      ensures Did(error, EncEntries(entries, old(seen), depth), old(buf), buf, seen)
      decreases entries, 1
    {
      var n := 0;
      ghost var out: seq<byte> := [];
      ghost var all := EncEntries(entries, seen, depth);
      assert entries[0..] == entries && (all.Ok? ==> out + all.value.bytes == all.value.bytes);
      while n < |entries|
        invariant 0 <= n <= |entries| && buf == old(buf) + out
        invariant match EncEntries(entries[n..], seen, depth)
                  case Ok(p) => EncEntries(entries, old(seen), depth) == Ok(Printed(out + p.bytes, p.seen))
                  case Err(e) => EncEntries(entries, old(seen), depth) == Err(e)
      {
        label Before:
        assert entries[n..][1..] == entries[n + 1..];
        error := KeyAndValue(entries[n], depth);
        if error.Some? {
          return;
        }
        ghost var head := EncEntry(entries[n], old@Before(seen), depth).value;
        ghost var tail := EncEntries(entries[n + 1..], head.seen, depth);
        assert tail.Ok? ==> (out + head.bytes) + tail.value.bytes == out + (head.bytes + tail.value.bytes);
        out := out + head.bytes;
        n := n + 1;
      }
      error := None;
      assert out + [] == out;
    }

    method KeyAndValue(e: Entry, depth: nat) returns (error: Option<Error>)
      modifies this
      ensures Did(error, EncEntry(e, old(seen), depth), old(buf), buf, seen)
      decreases e, 0
    {
      error := Value(e.key, depth);
      if error.None? {
        error := Value(e.val, depth);
      }
    }
  }

  method Encode(v: Value) returns (r: Result<seq<byte>, Error>)
    ensures r == HdsCodec.Encode(v)
    ensures r.Ok? <==> HdsAcceptance.Acceptable(v, 0)
  {
    HdsAcceptance.EncodeAccepts(v);
    var encoder := new Encoder();
    var error := encoder.Value(v, 0);
    ghost var printed := EncValue(v, [], 0);
    assert printed.Ok? ==> [] + printed.value.bytes == printed.value.bytes;
    r := if error.None? then Ok(encoder.buf) else Err(error.value);
  }
}
