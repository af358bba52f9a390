/** Byte strings, little-endian integers and the chunking used by every payload loop. */
module Bytes {
  type byte = b: int | 0 <= b < 256
  type Bytes = seq<byte>

  datatype Option<+T> = None | Some(value: T)

  function Pow256(width: nat): (p: nat)
    ensures p > 0
  {
    if width == 0 then 1 else 256 * Pow256(width - 1)
  }

  /** The low `width` bytes of `n`, least significant first; higher bytes are cut off. */
  function LittleEndian(n: nat, width: nat): (s: Bytes)
    ensures |s| == width
  {
    if width == 0 then [] else [n % 256] + LittleEndian(n / 256, width - 1)
  }

  function FromLittleEndian(s: Bytes): (n: nat)
    ensures n < Pow256(|s|)
  {
    if s == [] then 0 else s[0] + 256 * FromLittleEndian(s[1..])
  }

  /** Byte `i` is digit `i` of the number to the base 256. */
  lemma {:induction false} LittleEndianDigits(n: nat, width: nat, i: nat)
    requires i < width
    ensures LittleEndian(n, width)[i] == n / Pow256(i) % 256
  {
    if i > 0 {
      LittleEndianDigits(n / 256, width - 1, i - 1);
      assert LittleEndian(n, width)[i] == LittleEndian(n / 256, width - 1)[i - 1];
      DivideTwice(n, Pow256(i - 1));
    }
  }

  lemma DivideTwice(n: nat, d: nat)
    requires d > 0
    ensures n / 256 / d == n / (256 * d)
  {
    var q, r := n / 256 / d, n / 256 % d;
    var rest := n % 256 + 256 * r;
    assert n == (256 * d) * q + rest by {
      assert n / 256 == d * q + r;
      assert n == 256 * (n / 256) + n % 256;
      Distribute(d, q, r);
    }
    assert rest < 256 * d;
    QuotientIs(n, 256 * d, q, rest);
  }

  lemma Distribute(d: nat, q: nat, r: nat)
    ensures 256 * (d * q + r) == (256 * d) * q + 256 * r
  {
  }

  lemma QuotientIs(n: nat, d: nat, q: nat, r: nat)
    requires r < d && n == d * q + r
    ensures n / d == q
  {
    var k := n / d - q;
    assert d * k == r - n % d by { assert d * (n / d) == d * q + d * k; }
    OnlyZeroIsSmall(d, k);
  }

  lemma OnlyZeroIsSmall(d: nat, k: int)
    requires d * k < d && d * k + d > 0
    ensures k == 0
  {
  }

  /** Reading back gives the number exactly when it fits the width. */
  lemma {:induction false} LittleEndianRoundTrip(n: nat, width: nat)
    ensures FromLittleEndian(LittleEndian(n, width)) == n <==> n < Pow256(width)
  {
    if width > 0 {
      LittleEndianRoundTrip(n / 256, width - 1);
      assert LittleEndian(n, width)[1..] == LittleEndian(n / 256, width - 1);
    }
  }

  /** Every byte string is what is written for the number read from it. */
  lemma {:induction false} ReadWriteBytes(s: Bytes)
    ensures LittleEndian(FromLittleEndian(s), |s|) == s
  {
    if s != [] {
      ReadWriteBytes(s[1..]);
      assert FromLittleEndian(s) == s[0] + 256 * FromLittleEndian(s[1..]);
    }
  }

  function Flatten(cs: seq<Bytes>): (s: Bytes)
  {
    if cs == [] then [] else cs[0] + Flatten(cs[1..])
  }

  /** `slice.chunks(size)`: every piece has `size` bytes except possibly the last. */
  function Chunks(s: Bytes, size: nat): (cs: seq<Bytes>)
    requires size > 0
    ensures forall i | 0 <= i < |cs| :: 0 < |cs[i]| <= size && (i < |cs| - 1 ==> |cs[i]| == size)
    ensures Flatten(cs) == s
    decreases |s|
  {
    if s == [] then []
    else if |s| <= size then [s]
    else [s[..size]] + Chunks(s[size..], size)
  }
}
