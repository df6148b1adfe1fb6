/** Integers as bytes: two's complement, the machine's byte order, and the reversal that the
    client applies on big-endian machines. */
module Wire {

  type byte = b: int | 0 <= b < 256

  function Pow256(n: nat): (p: nat)
    ensures p > 0
  {
    if n == 0 then 1 else 256 * Pow256(n - 1)
  }

  /** The `n` low base-256 digits of `value`, least significant first. */
  function Digits(value: nat, n: nat): (r: seq<byte>)
    ensures |r| == n
  {
    if n == 0 then [] else [value % 256] + Digits(value / 256, n - 1)
  }

  function Number(bytes: seq<byte>): nat {
    if bytes == [] then 0 else bytes[0] + 256 * Number(bytes[1..])
  }

  lemma {:induction false} NumberOfDigits(value: nat, n: nat)
    requires value < Pow256(n)
    ensures Number(Digits(value, n)) == value
  {
    if n > 0 {
      NumberOfDigits(value / 256, n - 1);
      assert Digits(value, n)[1..] == Digits(value / 256, n - 1);
    }
  }

  lemma {:induction false} DigitsOfNumber(bytes: seq<byte>)
    ensures Number(bytes) < Pow256(|bytes|)
    ensures Digits(Number(bytes), |bytes|) == bytes
  {
    if bytes != [] {
      DigitsOfNumber(bytes[1..]);
      assert Number(bytes) % 256 == bytes[0] && Number(bytes) / 256 == Number(bytes[1..]);
    }
  }

  // ---- Two's complement in `n` bytes ----

  predicate Signed(value: int, n: nat) {
    -(Pow256(n) as int) <= 2 * value < Pow256(n)
  }

  function ToUnsigned(value: int, n: nat): (u: nat)
    requires Signed(value, n)
    ensures u < Pow256(n)
  {
    if value < 0 then value + Pow256(n) else value
  }

  function ToSigned(u: nat, n: nat): (value: int)
    requires u < Pow256(n)
    ensures Signed(value, n)
  {
    if 2 * u < Pow256(n) then u else u - Pow256(n)
  }

  // ---- Memory and wire ----

  function Reversed(s: seq<byte>): (r: seq<byte>)
    ensures |r| == |s|
    ensures forall i :: 0 <= i < |s| ==> r[i] == s[|s| - 1 - i]
  {
    seq(|s|, i requires 0 <= i < |s| => s[|s| - 1 - i])
  }

  /** What `reverse(&bytes[0], &bytes[size - 1])` does: the end is exclusive, so the last
      byte stays where it is. */
  function PrefixReversed(s: seq<byte>): (r: seq<byte>)
    requires s != []
    ensures |r| == |s|
  {
    Reversed(s[..|s| - 1]) + [s[|s| - 1]]
  }

  lemma PrefixReversalUndone(s: seq<byte>)
    requires s != []
    ensures PrefixReversed(PrefixReversed(s)) == s
  {
  }

  /** A value as it lies in the memory of a machine of the given byte order. */
  function Memory(little: bool, value: int, n: nat): (r: seq<byte>)
    requires Signed(value, n)
    ensures |r| == n
  {
    var digits := Digits(ToUnsigned(value, n), n);
    if little then digits else Reversed(digits)
  }

  function FromMemory(little: bool, bytes: seq<byte>): (value: int)
    ensures Signed(value, |bytes|)
  {
    var digits := if little then bytes else Reversed(bytes);
    DigitsOfNumber(digits);
    ToSigned(Number(digits), |bytes|)
  }

  /** The reversal that both directions apply on a machine that is not little-endian. */
  function Adjust(little: bool, bytes: seq<byte>): seq<byte>
    requires bytes != []
  {
    if little then bytes else PrefixReversed(bytes)
  }

  function Encode(little: bool, value: int, n: nat): (r: seq<byte>)
    requires n > 0 && Signed(value, n)
    ensures |r| == n
  {
    Adjust(little, Memory(little, value, n))
  }

  function Decode(little: bool, bytes: seq<byte>): (value: int)
    requires bytes != []
    ensures Signed(value, |bytes|)
  {
    FromMemory(little, Adjust(little, bytes))
  }

  /** What a machine writes, it reads back, whatever its byte order. */
  lemma DecodeEncode(little: bool, value: int, n: nat)
    requires n > 0 && Signed(value, n)
    ensures Decode(little, Encode(little, value, n)) == value
  {
    var digits := Digits(ToUnsigned(value, n), n);
    var memory := Memory(little, value, n);
    PrefixReversalUndone(memory);
    assert Reversed(Reversed(digits)) == digits;
    NumberOfDigits(ToUnsigned(value, n), n);
  }

  /** ... and every byte string of the right length is what it writes for some value. */
  lemma EncodeDecode(little: bool, bytes: seq<byte>)
    requires bytes != []
    ensures Encode(little, Decode(little, bytes), |bytes|) == bytes
  {
    hide Number, Digits, Pow256;
    var n := |bytes|;
    var memory := Adjust(little, bytes);
    var digits := if little then memory else Reversed(memory);
    DigitsOfNumber(digits);
    assert ToUnsigned(Decode(little, bytes), n) == Number(digits);
    assert Reversed(Reversed(memory)) == memory;
    PrefixReversalUndone(bytes);
  }

  /** On a little-endian machine the wire carries the little-endian digits. On a big-endian one it
      carries them rotated by one byte, since the reversal leaves the last byte out: the wire
      format is respected only for values all of whose bytes are the same. */
  lemma WireFormat(little: bool, value: int, n: nat)
    requires n > 0 && Signed(value, n)
    ensures var digits := Digits(ToUnsigned(value, n), n);
            && (little ==> Encode(little, value, n) == digits)
            && (!little ==> Encode(little, value, n) == digits[1..] + [digits[0]])
            && (Encode(little, value, n) == digits <==>
                little || forall i :: 0 <= i < n ==> digits[i] == digits[0])
  {
    var digits := Digits(ToUnsigned(value, n), n);
    if !little {
      assert Encode(little, value, n) == digits[1..] + [digits[0]];
      Rotated(digits);
    }
  }

  lemma Rotated(s: seq<byte>)
    requires s != []
    ensures s[1..] + [s[0]] == s <==> forall i :: 0 <= i < |s| ==> s[i] == s[0]
  {
    var r := s[1..] + [s[0]];
    if r == s {
      for i := 0 to |s|
        invariant forall k :: 0 <= k < |s| && k <= i ==> s[k] == s[0]
      {
        assert i + 1 < |s| ==> r[i] == s[i + 1];
      }
    }
  }

  lemma IntSizes()
    ensures Pow256(1) == 0x100 && Pow256(4) == 0x1_0000_0000 && Pow256(8) == 0x1_0000_0000_0000_0000
  {
    assert Pow256(2) == 0x1_0000 && Pow256(3) == 0x100_0000;
    assert Pow256(5) == 0x100_0000_0000 && Pow256(6) == 0x1_0000_0000_0000 && Pow256(7) == 0x100_0000_0000_0000;
  }
}
