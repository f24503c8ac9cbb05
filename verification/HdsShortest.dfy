/**
 The measure of `HdsBounds` is the real one: a scalar that can be read at all has
 a literal of exactly its wire size.
 */
module HdsShortest {
  import opened Bytes
  import opened HdsValues
  import opened HdsCodec
  import opened HdsBounds
  import HdsRoundTrip
  import HdsDecoder

  /** `bs` is one literal, and all of it, of the scalar `p`. */
  predicate Carries(bs: seq<byte>, p: Plain) {
    bs != [] && LiteralTag(bs[0]) && DecLiteral(bs[0], bs[1..]) == Ok(Taken(p, []))
  }

  lemma PrintedCarries(v: Value)
    requires Tracked(v) && !v.Int? && !v.Bool? && !v.Float? && Literal(v).Ok?
    ensures Carries(Literal(v).value, EraseScalar(v))
  {
    var bs := Literal(v).value;
    HdsRoundTrip.LiteralReads(v, []);
    assert bs[1..] + [] == bs[1..];
  }

  lemma OneByteCarries(tag: byte, p: Plain)
    requires LiteralTag(tag) && ExtentOf(tag) == Exactly(0) && ScalarOf(tag, []) == Ok(p)
    ensures Carries([tag], p)
  {
    assert [tag][1..] == [];
  }

  lemma StoppedCarries(tag: byte, s: seq<byte>, stop: byte, p: Plain)
    requires LiteralTag(tag) && ExtentOf(tag) == UpTo(stop) && stop !in s && ScalarOf(tag, s) == Ok(p)
    ensures Carries([tag] + (s + [stop]), p)
  {
    HdsDecoder.TakeUntilFinds(s, stop, []);
    assert s + [stop] + [] == s + [stop];
    assert ([tag] + (s + [stop]))[1..] == s + [stop];
  }

  lemma ShortestInt(n: int) returns (bs: seq<byte>)
    requires W64.Holds(n)
    ensures Carries(bs, PyInt(n)) && |bs| == WireSize(PyInt(n))
  {
    if -1 <= n < 39 {
      bs := [if n == -1 then INTEGER_MINUS_ONE else INTEGER_0 + n];
      OneByteCarries(bs[0], PyInt(n));
    } else {
      var w := if W8.Holds(n) then W8 else if W16.Holds(n) then W16 else if W32.Holds(n) then W32 else W64;
      PrintedCarries(Fixed(w, n));
      bs := Literal(Fixed(w, n)).value;
    }
  }

  lemma ShortestFloat(bits: seq<byte>) returns (bs: seq<byte>)
    requires (|bits| == 4 || |bits| == 8) && UnsignedZero(bits) == bits
    ensures Carries(bs, PyFloat(bits)) && |bs| == WireSize(PyFloat(bits))
  {
    var double: Bits64 := if |bits| == 8 then bits else bits + bits;
    var v := if |bits| == 8 then Float64(double) else Float32(double, Some(bits));
    PrintedCarries(v);
    bs := Literal(v).value;
  }

  lemma ShortestText(s: seq<byte>) returns (bs: seq<byte>)
    requires IsUuidText(s) || (ValidUtf8(s) && (0 !in s || |s| < 0x1_0000_0000_0000_0000))
    ensures Carries(bs, PyStr(s)) && |bs| == WireSize(PyStr(s))
  {
    if IsUuidText(s) {
      var raw: Bits128 :| s == UuidText(raw);
      PrintedCarries(Value.Uuid(s, Some(raw)));
      bs := [UUID] + raw;
    } else if |s| > 0xFF && 0 !in s {
      StoppedCarries(UTF8_NULL, s, 0, PyStr(s));
      bs := [UTF8_NULL] + (s + [0]);
    } else {
      PrintedCarries(Str(s));
      bs := Literal(Str(s)).value;
    }
  }

  lemma ShortestData(s: seq<byte>) returns (bs: seq<byte>)
    requires TERMINATOR !in s || |s| < 0x1_0000_0000_0000_0000
    ensures Carries(bs, PyBytes(s)) && |bs| == WireSize(PyBytes(s))
  {
    if |s| > 0xFF && TERMINATOR !in s {
      StoppedCarries(DATA_TERMINATED, s, TERMINATOR, PyBytes(s));
      bs := [DATA_TERMINATED] + (s + [TERMINATOR]);
    } else {
      PrintedCarries(Data(s));
      bs := Literal(Data(s)).value;
    }
  }

  /** Whatever a literal reads as, some literal of it is of its wire size; `NoneIsShorter` says none is shorter. */
  lemma SomeIsAsShort(tag: byte, rest: seq<byte>) returns (bs: seq<byte>)
    requires LiteralTag(tag) && DecLiteral(tag, rest).Ok?
    ensures var p := DecLiteral(tag, rest).value.value; Carries(bs, p) && |bs| == WireSize(p)
  {
    var raw := TakeExtent(rest, ExtentOf(tag)).value.value;
    var p := DecLiteral(tag, rest).value.value;
    if tag <= FALSE_TAG {
      OneByteCarries(tag, p);
      bs := [tag];
    } else if p.PyInt? {
      ReadHolds(tag, rest);
      bs := ShortestInt(p.n);
    } else if p.PyFloat? {
      bs := ShortestFloat(p.bits);
    } else if p.PyBytes? {
      PayloadIsPaid(rest, ExtentOf(tag), TERMINATOR);
      bs := ShortestData(p.data);
    } else {
      if tag == UUID {
        assert IsUuidText(UuidText(raw));
      } else {
        PayloadIsPaid(rest, ExtentOf(tag), 0);
      }
      bs := ShortestText(p.utf8);
    }
  }

  lemma ReadHolds(tag: byte, rest: seq<byte>)
    requires LiteralTag(tag) && DecLiteral(tag, rest).Ok? && DecLiteral(tag, rest).value.value.PyInt?
    ensures W64.Holds(DecLiteral(tag, rest).value.value.n)
  {
    var raw := TakeExtent(rest, ExtentOf(tag)).value.value;
    if INT8 <= tag <= INT64 {
      UnpackHolds(if tag == INT8 then W8 else if tag == INT16 then W16 else if tag == INT32 then W32 else W64, raw);
    }
  }
}
