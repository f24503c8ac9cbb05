/**
 Bytes, results and little-endian integers: what every wire format of the
 accessory is built from.
 */
module Bytes {

  type byte = b: int | 0 <= b < 256

  datatype Option<+T> = None | Some(value: T)

  /** A value, or the reason why an operation raised. */
  datatype Result<+T, +E> = Ok(value: T) | Err(error: E) {
    predicate IsFailure() {
      Err?
    }

    function PropagateFailure<U>(): Result<U, E>
      requires Err?
    {
      Err(error)
    }

    function Extract(): T
      requires Ok?
    {
      value
    }
  }

  /** Equality, for use inside invariants about long sequences: it is kept by rewriting alone. */
  ghost predicate Same<T>(a: T, b: T) {
    a == b
  }

  /** Parts joined end to end. */
  function Flatten<T>(parts: seq<seq<T>>): seq<T> {
    if parts == [] then [] else parts[0] + Flatten(parts[1..])
  }

  lemma {:induction false} Associative<T>(a: seq<T>, b: seq<T>, c: seq<T>)
    ensures a + (b + c) == (a + b) + c
  {
  }

  /** The bytes of an ASCII text. */
  function Ascii(text: string): (bs: seq<byte>)
    requires forall i | 0 <= i < |text| :: text[i] < 128 as char
    ensures |bs| == |text| && forall i | 0 <= i < |text| :: bs[i] == text[i] as int
  {
    seq(|text|, i requires 0 <= i < |text| => text[i] as int)
  }

  /** 256 to the power `width`. */
  function Pow256(width: nat): nat {
    if width == 0 then 1 else 256 * Pow256(width - 1)
  }

  function LittleEndian(n: nat, width: nat): (bs: seq<byte>)
    ensures |bs| == width
  {
    if width == 0 then [] else [n % 256] + LittleEndian(n / 256, width - 1)
  }

  function FromLittleEndian(bs: seq<byte>): nat {
    if bs == [] then 0 else bs[0] + 256 * FromLittleEndian(bs[1..])
  }

  lemma {:induction false} LittleEndianRoundTrip(n: nat, width: nat)
    requires n < Pow256(width)
    ensures FromLittleEndian(LittleEndian(n, width)) == n
  {
    if width == 0 {
    } else {
      LittleEndianRoundTrip(n / 256, width - 1);
      assert LittleEndian(n, width)[1..] == LittleEndian(n / 256, width - 1);
    }
  }

  /** Reading an integer and writing it back reproduces the bytes. */
  lemma {:induction false} LittleEndianInverse(bs: seq<byte>)
    ensures FromLittleEndian(bs) < Pow256(|bs|)
    ensures LittleEndian(FromLittleEndian(bs), |bs|) == bs
  {
    if bs == [] {
    } else {
      LittleEndianInverse(bs[1..]);
      var low, high: nat := bs[0], FromLittleEndian(bs[1..]);
      assert (low + 256 * high) % 256 == low && (low + 256 * high) / 256 == high;
      assert bs == [bs[0]] + bs[1..];
    }
  }

  lemma {:induction false} FirstByte(bs: seq<byte>)
    requires bs != []
    ensures var a: nat := bs[0]; FromLittleEndian(bs) == a + 256 * FromLittleEndian(bs[1..])
  {
  }

  /** The number four bytes stand for, the low one first. */
  function Four(bs: seq<byte>): nat
    requires |bs| == 4
  {
    var a: nat, b: nat, c: nat, d: nat := bs[0], bs[1], bs[2], bs[3];
    a + 0x100 * b + 0x1_0000 * c + 0x100_0000 * d
  }

  lemma {:induction false} FourBytes(bs: seq<byte>)
    requires |bs| >= 4
    ensures FromLittleEndian(bs) == Four(bs[..4]) + 0x1_0000_0000 * FromLittleEndian(bs[4..])
  {
    FirstByte(bs);
    FirstByte(bs[1..]);
    FirstByte(bs[2..]);
    FirstByte(bs[3..]);
    assert bs[1..][1..] == bs[2..] && bs[2..][1..] == bs[3..] && bs[3..][1..] == bs[4..];
  }
}
