/** Octet strings and big-endian integers, shared by every wire format below. */
module Octets {

  type octet = b: int | 0 <= b < 256

  type Octets = seq<octet>

  datatype Option<+T> = None | Some(value: T)

  datatype Result<+T, +E> = Ok(value: T) | Err(error: E)

  /** The 16-bit value of two octets. */
  function Word(high: octet, low: octet): (w: nat)
    ensures w < 0x1_0000
  {
    high as int * 256 + low as int
  }

  /** Number of values that fit in `width` octets. */
  function Pow256(width: nat): (p: nat)
    ensures p >= 1
  {
    if width == 0 then 1 else 256 * Pow256(width - 1)
  }

  /** Value of `s` read most significant octet first. */
  function BigEndian(s: Octets): (v: nat)
    ensures v < Pow256(|s|)
  {
    if s == [] then 0 else BigEndian(s[..|s| - 1]) * 256 + s[|s| - 1]
  }

  /** The low `width` octets of `v`, most significant first. */
  function ToBigEndian(v: nat, width: nat): (s: Octets)
    ensures |s| == width
  {
    if width == 0 then [] else ToBigEndian(v / 256, width - 1) + [v % 256]
  }

  lemma {:induction false} BigEndianOfEncoding(v: nat, width: nat)
    requires v < Pow256(width)
    ensures BigEndian(ToBigEndian(v, width)) == v
  {
    if width > 0 {
      BigEndianOfEncoding(v / 256, width - 1);
      var s := ToBigEndian(v, width);
      assert s[..width - 1] == ToBigEndian(v / 256, width - 1);
    }
  }

  lemma {:induction false} EncodingOfBigEndian(s: Octets)
    ensures ToBigEndian(BigEndian(s), |s|) == s
  {
    if s != [] {
      var (init, last) := (s[..|s| - 1], s[|s| - 1]);
      EncodingOfBigEndian(init);
      LastOctet(BigEndian(init), last);
      assert s == init + [last];
    }
  }

  lemma LastOctet(v: nat, last: octet)
    ensures (v * 256 + last) / 256 == v && (v * 256 + last) % 256 == last
  {
  }

  lemma Widths()
    ensures Pow256(2) == 0x1_0000
    ensures Pow256(4) == 0x1_0000_0000
    ensures Pow256(8) == 0x1_0000_0000_0000_0000
  {
    assert Pow256(3) == 0x100_0000 && Pow256(5) == 0x100_0000_0000;
  }

  lemma Assoc<T>(a: seq<T>, b: seq<T>, c: seq<T>)
    ensures a + (b + c) == (a + b) + c
  {
  }
}
