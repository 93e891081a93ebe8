/** Bytes and the big-endian integer layout of GameCube memory, as used by
    `struct.pack('>I', ...)` and `struct.unpack('>B'|'>H'|'>I', ...)`. */
module Bytes {

  type byte = b: int | 0 <= b < 256

  /** 256 to the power `n`: one more than the largest value `n` bytes hold. */
  function Pow256(n: nat): (r: nat)
    ensures r >= 1
  {
    if n == 0 then 1 else 256 * Pow256(n - 1)
  }

  /** The unsigned integer whose big-endian encoding is `bs` (most significant byte first). */
  function DecodeBE(bs: seq<byte>): (r: nat)
    ensures r < Pow256(|bs|)
  {
    if bs == [] then 0
    else
      var hi := DecodeBE(bs[..|bs| - 1]);
      assert hi + 1 <= Pow256(|bs| - 1);
      assert (hi + 1) * 256 <= Pow256(|bs| - 1) * 256;
      hi * 256 + bs[|bs| - 1]
  }

  /** The `width`-byte big-endian encoding of `v`; only defined where `v` fits. */
  function EncodeBE(v: nat, width: nat): (r: seq<byte>)
    requires v < Pow256(width)
    ensures |r| == width
  {
    if width == 0 then []
    else
      assert v / 256 < Pow256(width - 1);
      EncodeBE(v / 256, width - 1) + [v % 256]
  }

  /** Decoding what was encoded gives the value back. */
  lemma {:induction false} DecodeEncode(v: nat, width: nat)
    requires v < Pow256(width)
    ensures DecodeBE(EncodeBE(v, width)) == v
  {
    if width > 0 {
      var e := EncodeBE(v, width);
      assert v / 256 < Pow256(width - 1);
      assert e[..width - 1] == EncodeBE(v / 256, width - 1);
      DecodeEncode(v / 256, width - 1);
    }
  }

  /** Encoding what was decoded gives the bytes back: the layout loses nothing. */
  lemma {:induction false} EncodeDecode(bs: seq<byte>)
    ensures EncodeBE(DecodeBE(bs), |bs|) == bs
  {
    if bs != [] {
      var n := |bs|;
      var hi := DecodeBE(bs[..n - 1]);
      assert DecodeBE(bs) / 256 == hi;
      assert DecodeBE(bs) % 256 == bs[n - 1];
      EncodeDecode(bs[..n - 1]);
      assert bs == bs[..n - 1] + [bs[n - 1]];
    }
  }

  /** A one-byte decode is the byte itself. */
  lemma DecodeSingle(b: byte)
    ensures DecodeBE([b]) == b
  {
    assert [b][..0] == [];
  }
}
