/**
  Fixed-width big-endian integers (raiden/encoding/encoders.py): `ToBytes` is `int.to_bytes` and
  `FromBytes` is `int.from_bytes`, both with byteorder "big".
 */
module BigEndian {

  type Byte = b: int | 0 <= b < 256

  const UINT64_MAX: nat := 0xFFFF_FFFF_FFFF_FFFF

  const UINT256_MAX: nat :=
    0xFFFF_FFFF_FFFF_FFFF_FFFF_FFFF_FFFF_FFFF_FFFF_FFFF_FFFF_FFFF_FFFF_FFFF_FFFF_FFFF

  function Pow256(n: nat): (p: nat)
    ensures 0 < p
  {
    if n == 0 then 1 else 256 * Pow256(n - 1)
  }

  lemma WidthOfUint256()
    ensures Pow256(1) == 256
    ensures Pow256(8) == UINT64_MAX + 1
    ensures Pow256(32) == UINT256_MAX + 1
  {
    PowAdd(4, 4);
    PowAdd(8, 8);
    PowAdd(16, 16);
    assert Pow256(4) == 0x1_0000_0000;
    assert Pow256(16) == 0x1_0000_0000_0000_0000 * 0x1_0000_0000_0000_0000;
  }

  lemma {:induction false} PowAdd(m: nat, n: nat)
    ensures Pow256(m + n) == Pow256(m) * Pow256(n)
  {
    if m != 0 {
      PowAdd(m - 1, n);
    }
  }

  function ToBytes(value: nat, length: nat): (bytes: seq<Byte>)
    requires value < Pow256(length)
    ensures |bytes| == length
  {
    if length == 0 then [] else ToBytes(value / 256, length - 1) + [value % 256]
  }

  function FromBytes(bytes: seq<Byte>): (value: nat)
    ensures value < Pow256(|bytes|)
  {
    if bytes == [] then 0 else FromBytes(bytes[..|bytes| - 1]) * 256 + bytes[|bytes| - 1]
  }

  /** Decoding an encoded integer gives it back. */
  lemma {:induction false} DecodeEncode(value: nat, length: nat)
    requires value < Pow256(length)
    ensures FromBytes(ToBytes(value, length)) == value
  {
    if length != 0 {
      DecodeEncode(value / 256, length - 1);
      var bytes := ToBytes(value, length);
      assert bytes[..|bytes| - 1] == ToBytes(value / 256, length - 1);
    }
  }

  /** Encoding a decoded byte string, at its own length, gives it back. */
  lemma {:induction false} EncodeDecode(bytes: seq<Byte>)
    ensures ToBytes(FromBytes(bytes), |bytes|) == bytes
  {
    if bytes != [] {
      EncodeDecode(bytes[..|bytes| - 1]);
      assert bytes == bytes[..|bytes| - 1] + [bytes[|bytes| - 1]];
    }
  }

  function Zeros(n: nat): (bytes: seq<Byte>)
    ensures |bytes| == n && forall i :: 0 <= i < n ==> bytes[i] == 0
  {
    seq(n, _ => 0 as Byte)
  }

  /** Leading zero bytes, as added by left padding, do not change the decoded integer. */
  lemma {:induction false} LeadingZeros(pad: nat, bytes: seq<Byte>)
    ensures FromBytes(Zeros(pad) + bytes) == FromBytes(bytes)
  {
    var padded := Zeros(pad) + bytes;
    if bytes != [] {
      LeadingZeros(pad, bytes[..|bytes| - 1]);
      assert padded[..|padded| - 1] == Zeros(pad) + bytes[..|bytes| - 1];
    } else if pad != 0 {
      LeadingZeros(pad - 1, []);
      assert padded[..|padded| - 1] == Zeros(pad - 1) + [];
    }
  }
}
