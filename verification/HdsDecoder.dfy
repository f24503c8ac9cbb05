/**
 The reader as the object it is: a position in the payload and a table of the
 scalars read so far, every method proved against the functions of `HdsCodec`.
 */
module HdsDecoder {
  import opened Bytes
  import opened HdsValues
  import opened HdsCodec

  lemma {:induction false} TakeUntilFinds(front: seq<byte>, stop: byte, rest: seq<byte>)
    requires stop !in front
    ensures TakeUntil(front + [stop] + rest, stop) == Ok(Taken(front, rest))
  {
    var bs := front + [stop] + rest;
    if front == [] {
      assert bs[1..] == rest;
    } else {
      assert bs[1..] == front[1..] + [stop] + rest && bs[0] == front[0] != stop;
      TakeUntilFinds(front[1..], stop, rest);
      assert [bs[0]] + front[1..] == front;
    }
  }

  lemma {:induction false} TakeUntilMisses(bs: seq<byte>, stop: byte)
    requires stop !in bs
    ensures TakeUntil(bs, stop) == Err(Unterminated)
  {
    if bs == [] {
    } else {
      TakeUntilMisses(bs[1..], stop);
    }
  }

  class Decoder {
    const data: seq<byte>
    var i: nat
    var seen: seq<Plain>

    constructor (data: seq<byte>)
      ensures this.data == data && i == 0 && seen == []
    {
      this.data, i, seen := data, 0, [];
    }

    /** The position never leaves the payload. */
    ghost predicate Valid()
      reads this
    {
      i <= |data|
    }

    /** The reader stands where `rest` is what is left. */
    ghost predicate At(rest: seq<byte>)
      reads this
    {
      i <= |data| && data[i..] == rest
    }

    method Take(count: nat) returns (r: Result<seq<byte>, Error>)
      requires Valid()
      modifies this`i
      ensures Valid() && old(i) <= i
      ensures match HdsCodec.Take(data[old(i)..], count)
              case Ok(t) => r == Ok(t.value) && At(t.rest)
              case Err(e) => r == Err(e) && i == old(i)
    {
      if i + count > |data| {
        return Err(Truncated);
      }
      assert data[i..][..count] == data[i..i + count];
      r := Ok(data[i..i + count]);
      i := i + count;
    }

    method ReadTerminated(stop: byte) returns (r: Result<seq<byte>, Error>)
      requires Valid()
      modifies this`i
      ensures Valid() && old(i) <= i
      ensures match TakeUntil(data[old(i)..], stop)
              case Ok(t) => r == Ok(t.value) && At(t.rest)
              case Err(e) => r == Err(e)
    {
      var start := i;
      while i < |data|
        invariant start <= i <= |data|
        invariant stop !in data[start..i]
      {
        if data[i] == stop {
          assert data[start..] == data[start..i] + [stop] + data[i + 1..];
          TakeUntilFinds(data[start..i], stop, data[i + 1..]);
          r := Ok(data[start..i]);
          i := i + 1;
          return;
        }
        i := i + 1;
      }
      TakeUntilMisses(data[start..], stop);
      r := Err(Unterminated);
    }

    /** The payload of a tag. */
    method Payload(extent: Extent) returns (r: Result<seq<byte>, Error>)
      requires Valid()
      modifies this`i
      ensures Valid() && old(i) <= i
      ensures match TakeExtent(data[old(i)..], extent)
              case Ok(t) => r == Ok(t.value) && At(t.rest)
              case Err(e) => r == Err(e)
    {
      match extent {
        case Exactly(count) => r := Take(count);
        case Prefixed(width) =>
          r := Take(width);
          if r.Ok? {
            r := Take(FromLittleEndian(r.value));
          }
        case UpTo(stop) => r := ReadTerminated(stop);
      }
    }

    /** A tracked scalar whose tag has been read. */
    method Literal(tag: byte) returns (r: Result<Plain, Error>)
      requires Valid() && LiteralTag(tag)
      modifies this
      ensures Valid() && old(i) <= i
      ensures match DecLiteral(tag, data[old(i)..])
              case Ok(t) => r == Ok(t.value) && At(t.rest) && seen == old(seen) + [t.value]
              case Err(e) => r == Err(e)
    {
      var raw := Payload(ExtentOf(tag));
      if raw.Err? {
        return Err(raw.error);
      }
      r := ScalarOf(tag, raw.value);
      if r.Ok? {
        seen := seen + [r.value];
      }
    }

    /** The reader's state and result after reading what `spec` describes. */
    ghost predicate Reached<T>(r: Result<T, Error>, spec: Result<Parsed<T>, Error>)
      reads this
    {
      match spec
      case Ok(p) => r == Ok(p.value) && At(p.rest) && seen == p.seen
      case Err(e) => r == Err(e)
    }

    method Value(depth: nat) returns (r: Result<Plain, Error>)
      requires Valid()
      modifies this
      ensures Valid() && old(i) <= i && (r.Ok? ==> old(i) < i)
      ensures Reached(r, DecValue(data[old(i)..], old(seen), depth))
      decreases |data| - i, 0
    {
      if depth > MAX_DEPTH {
        return Err(DepthExceeded);
      }
      var head := Take(1);
      if head.Err? {
        return Err(head.error);
      }
      var tag := head.value[0];
      if tag == 0 {
        r := Err(InvalidTag);
      } else if tag == TERMINATOR {
        r := Ok(PyTerminator);
      } else if tag == NULL {
        r := Ok(PyNone);
      } else if LiteralTag(tag) {
        r := Literal(tag);
      } else if COMPRESS <= tag <= COMPRESS_END {
        r := if tag - COMPRESS >= |seen| then Err(BadReference) else Ok(seen[tag - COMPRESS]);
      } else if ARRAY <= tag <= ARRAY_TERMINATED {
        r := List(tag, depth + 1);
      } else if DICT <= tag <= DICT_TERMINATED {
        r := Dictionary(tag, depth + 1);
      } else {
        r := Err(UnknownTag);
      }
    }

    method List(tag: byte, depth: nat) returns (r: Result<Plain, Error>)
      requires Valid() && ARRAY <= tag <= ARRAY_TERMINATED
      modifies this
      ensures Valid() && old(i) <= i
      ensures Reached(r, DecArray(tag, data[old(i)..], old(seen), depth))
      decreases |data| - i, 4
    {
      var items: Result<seq<Plain>, Error>;
      if tag == ARRAY_TERMINATED {
        items := ItemsOpen(depth);
      } else {
        items := Items(tag - ARRAY, depth);
      }
      r := if items.Ok? then Ok(PyList(items.value)) else Err(items.error);
    }

    method Dictionary(tag: byte, depth: nat) returns (r: Result<Plain, Error>)
      requires Valid() && DICT <= tag <= DICT_TERMINATED
      modifies this
      ensures Valid() && old(i) <= i
      ensures Reached(r, DecDict(tag, data[old(i)..], old(seen), depth))
      decreases |data| - i, 4
    {
      var entries: Result<seq<Pair>, Error>;
      if tag == DICT_TERMINATED {
        entries := EntriesOpen(depth);
      } else {
        entries := Entries(tag - DICT, depth);
      }
      r := if entries.Ok? then Ok(PyDict(entries.value)) else Err(entries.error);
    }

    method Items(count: nat, depth: nat) returns (r: Result<seq<Plain>, Error>)
      requires Valid()
      modifies this
      ensures Valid() && old(i) <= i
      ensures Reached(r, DecItems(data[old(i)..], old(seen), depth, count, []))
      decreases |data| - i, 1
    {
      var values: seq<Plain> := [];
      var n := 0;
      while n < count
        invariant Valid() && old(i) <= i && n <= count
        invariant DecItems(data[old(i)..], old(seen), depth, count, [])
                  == DecItems(data[i..], seen, depth, count - n, values)
      {
        var item := Value(depth);
        if item.Err? {
          return Err(item.error);
        }
        values := values + [item.value];
        n := n + 1;
      }
      r := Ok(values);
    }

    method ItemsOpen(depth: nat) returns (r: Result<seq<Plain>, Error>)
      requires Valid()
      modifies this
      ensures Valid() && old(i) <= i
      ensures Reached(r, DecItemsOpen(data[old(i)..], old(seen), depth, []))
      decreases |data| - i, 1
    {
      var values: seq<Plain> := [];
      while true
        invariant Valid() && old(i) <= i
        invariant DecItemsOpen(data[old(i)..], old(seen), depth, []) == DecItemsOpen(data[i..], seen, depth, values)
        decreases |data| - i
      {
        var item := Value(depth);
        if item.Err? {
          return Err(item.error);
        }
        if item.value.PyTerminator? {
          return Ok(values);
        }
        values := values + [item.value];
      }
    }

    /** `result[key] = self._value(...)`. */
    method Into(result: seq<Pair>, key: Plain, depth: nat) returns (r: Result<seq<Pair>, Error>)
      requires Valid()
      modifies this
      ensures Valid() && old(i) <= i && (r.Ok? ==> old(i) < i)
      ensures Reached(r, DecInto(data[old(i)..], old(seen), depth, key, result))
      decreases |data| - i, 1
    {
      var val := Value(depth);
      r := if val.Err? then Err(val.error)
           else if !Hashable(key) then Err(UnhashableKey)
           else Ok(Insert(result, key, val.value));
    }

    method KeyAndValue(result: seq<Pair>, depth: nat) returns (r: Result<seq<Pair>, Error>)
      requires Valid()
      modifies this
      ensures Valid() && old(i) <= i && (r.Ok? ==> old(i) < i)
      ensures Reached(r, DecEntry(data[old(i)..], old(seen), depth, result))
      decreases |data| - i, 2
    {
      var key := Value(depth);
      if key.Err? {
        return Err(key.error);
      }
      r := Into(result, key.value, depth);
    }

    method Entries(count: nat, depth: nat) returns (r: Result<seq<Pair>, Error>)
      requires Valid()
      modifies this
      ensures Valid() && old(i) <= i
      ensures Reached(r, DecEntries(data[old(i)..], old(seen), depth, count, []))
      decreases |data| - i, 3
    {
      var result: seq<Pair> := [];
      var n := 0;
      while n < count
        invariant Valid() && old(i) <= i && n <= count
        invariant DecEntries(data[old(i)..], old(seen), depth, count, [])
                  == DecEntries(data[i..], seen, depth, count - n, result)
      {
        r := KeyAndValue(result, depth);
        if r.Err? {
          return;
        }
        result := r.value;
        n := n + 1;
      }
      r := Ok(result);
    }

    method KeyAndValueOpen(result: seq<Pair>, depth: nat) returns (r: Result<Option<seq<Pair>>, Error>)
      requires Valid()
      modifies this
      ensures Valid() && old(i) <= i && (r.Ok? ==> old(i) < i)
      ensures Reached(r, DecEntryOpen(data[old(i)..], old(seen), depth, result))
      decreases |data| - i, 2
    {
      var key := Value(depth);
      if key.Err? {
        return Err(key.error);
      }
      if key.value.PyTerminator? {
        return Ok(None);
      }
      var entries := Into(result, key.value, depth);
      r := if entries.Ok? then Ok(Some(entries.value)) else Err(entries.error);
    }

    method EntriesOpen(depth: nat) returns (r: Result<seq<Pair>, Error>)
      requires Valid()
      modifies this
      ensures Valid() && old(i) <= i
      ensures Reached(r, DecEntriesOpen(data[old(i)..], old(seen), depth, []))
      decreases |data| - i, 3
    {
      var result: seq<Pair> := [];
      while true
        invariant Valid() && old(i) <= i
        invariant DecEntriesOpen(data[old(i)..], old(seen), depth, []) == DecEntriesOpen(data[i..], seen, depth, result)
        decreases |data| - i
      {
        var entry := KeyAndValueOpen(result, depth);
        if entry.Err? {
          return Err(entry.error);
        }
        if entry.value.None? {
          return Ok(result);
        }
        result := entry.value.value;
      }
    }
  }

  method Decode(data: seq<byte>) returns (r: Result<Plain, Error>)
    ensures r == HdsCodec.Decode(data)
  {
    var decoder := new Decoder(data);
    assert data[0..] == data;
    r := decoder.Value(0);
    if r.Ok? && r.value.PyTerminator? {
      r := Err(UnexpectedTerminator);
    } else if r.Ok? && decoder.i != |data| {
      r := Err(TrailingBytes);
    }
  }
}
