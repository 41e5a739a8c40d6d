/** Fixed-width big-endian byte encodings. */
module Encoding {
  import opened Basics

  function Pow256(k: nat): (r: nat)
    ensures r > 0
  {
    if k == 0 then 1 else 256 * Pow256(k - 1)
  }

  /** The low `width` bytes of `n`, most significant first (`to_be_bytes`). */
  function BigEndian(n: nat, width: nat): (r: Bytes)
    ensures |r| == width
  {
    if width == 0 then [] else BigEndian(n / 256, width - 1) + [(n % 256) as byte]
  }

  /** `from_be_bytes`. */
  function FromBigEndian(bs: Bytes): nat {
    if bs == [] then 0 else FromBigEndian(bs[..|bs| - 1]) * 256 + bs[|bs| - 1] as nat
  }

  lemma {:induction false} BigEndianRoundTrip(n: nat, width: nat)
    requires n < Pow256(width)
    ensures FromBigEndian(BigEndian(n, width)) == n
  {
    if width > 0 {
      BigEndianRoundTrip(n / 256, width - 1);
      assert BigEndian(n, width)[..width - 1] == BigEndian(n / 256, width - 1);
    }
  }

  lemma {:induction false} Pow256Add(a: nat, b: nat)
    ensures Pow256(a + b) == Pow256(a) * Pow256(b)
  {
    if a > 0 {
      Pow256Add(a - 1, b);
      assert 256 * (Pow256(a - 1) * Pow256(b)) == (256 * Pow256(a - 1)) * Pow256(b);
    }
  }

  lemma WordSizes()
    ensures Pow256(8) == TWO_64 && Pow256(32) == TWO_256
  {
    assert Pow256(2) == 0x1_0000;
    Pow256Add(2, 2);
    Pow256Add(4, 4);
    Pow256Add(8, 8);
    Pow256Add(16, 16);
  }

  /** The first byte is the most significant one. */
  lemma {:induction false} FirstByteWeighs(b: byte, bs: Bytes)
    ensures FromBigEndian([b] + bs) == b as nat * Pow256(|bs|) + FromBigEndian(bs)
  {
    if bs == [] {
      assert [b] + bs == [b] && [b][..0] == [];
    } else {
      var front, last := bs[..|bs| - 1], bs[|bs| - 1];
      FirstByteWeighs(b, front);
      assert ([b] + bs)[..|bs|] == [b] + front;
      assert b as nat * (256 * Pow256(|front|)) == 256 * (b as nat * Pow256(|front|));
    }
  }

  function DigestBytes(h: Hash32): Bytes {
    BigEndian(h, 32)
  }

  lemma DigestBytesInjective(g: Hash32, h: Hash32)
    requires DigestBytes(g) == DigestBytes(h)
    ensures g == h
  {
    WordSizes();
    BigEndianRoundTrip(g, 32);
    BigEndianRoundTrip(h, 32);
  }
}
