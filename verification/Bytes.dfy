/** Byte strings, 32-byte words, addresses, and big-endian numbers. */
module Bytes {

  type byte = b: int | 0 <= b < 256

  type Bytes = seq<byte>

  function Zeros(k: nat): (r: Bytes)
    ensures |r| == k && forall i :: 0 <= i < k ==> r[i] == 0
  {
    seq(k, i => 0)
  }

  type Word = w: Bytes | |w| == 32 witness Zeros(32)

  type Address = a: Bytes | |a| == 20 witness Zeros(20)

  /** 2^256: a word holds the numbers below it. */
  const WORD_LIMIT: nat := 0x1_0000000000000000_0000000000000000_0000000000000000_0000000000000000

  function Pow256(k: nat): (p: nat)
    ensures p > 0
  {
    if k == 0 then 1 else 256 * Pow256(k - 1)
  }

  /** The last k bytes of n, most significant first. */
  function BigEndian(n: nat, k: nat): (r: Bytes)
    ensures |r| == k
  {
    if k == 0 then [] else BigEndian(n / 256, k - 1) + [n % 256]
  }

  function FromBigEndian(b: Bytes): (n: nat)
  {
    if b == [] then 0 else FromBigEndian(b[..|b| - 1]) * 256 + b[|b| - 1]
  }

  lemma {:induction false} FromBigEndianBound(b: Bytes)
    ensures FromBigEndian(b) < Pow256(|b|)
  {
    if b != [] {
      FromBigEndianBound(b[..|b| - 1]);
    }
  }

  /** Reading back k bytes of a number that fits in them gives the number. */
  lemma {:induction false} BigEndianRoundTrip(n: nat, k: nat)
    requires n < Pow256(k)
    ensures FromBigEndian(BigEndian(n, k)) == n
  {
    if k > 0 {
      BigEndianRoundTrip(n / 256, k - 1);
      var b := BigEndian(n, k);
      assert b[..|b| - 1] == BigEndian(n / 256, k - 1);
    }
  }

  /** Writing a number read from bytes gives the bytes back. */
  lemma {:induction false} FromBigEndianRoundTrip(b: Bytes)
    ensures BigEndian(FromBigEndian(b), |b|) == b
  {
    if b != [] {
      var front := b[..|b| - 1];
      FromBigEndianRoundTrip(front);
      var n := FromBigEndian(b);
      assert n / 256 == FromBigEndian(front) && n % 256 == b[|b| - 1];
      assert front + [b[|b| - 1]] == b;
    }
  }

  lemma {:induction false} Pow256Add(j: nat, k: nat)
    ensures Pow256(j + k) == Pow256(j) * Pow256(k)
  {
    if j > 0 {
      Pow256Add(j - 1, k);
      assert Pow256(j + k) == 256 * (Pow256(j - 1) * Pow256(k));
    }
  }

  lemma WordLimit()
    ensures Pow256(32) == WORD_LIMIT
  {
    assert Pow256(4) == 0x1_0000_0000;
    Pow256Add(4, 4);
    Pow256Add(8, 8);
    Pow256Add(16, 16);
  }

  /** The first byte counts most: what the number read is, byte by byte. */
  lemma {:induction false} MostSignificantFirst(first: byte, rest: Bytes)
    ensures FromBigEndian([first] + rest) == first * Pow256(|rest|) + FromBigEndian(rest)
    decreases |rest|
  {
    var b := [first] + rest;
    if rest == [] {
      assert b[..|b| - 1] == [];
    } else {
      var front, last := rest[..|rest| - 1], rest[|rest| - 1];
      MostSignificantFirst(first, front);
      assert b[..|b| - 1] == [first] + front;
      assert FromBigEndian(b) == (first * Pow256(|front|) + FromBigEndian(front)) * 256 + last;
      assert first * Pow256(|rest|) == first * (256 * Pow256(|front|));
    }
  }

  lemma {:induction false} ZeroIsZeros(k: nat)
    ensures BigEndian(0, k) == Zeros(k)
  {
    if k > 0 {
      ZeroIsZeros(k - 1);
    }
  }

  lemma WordRoundTrip(n: nat)
    requires n < WORD_LIMIT
    ensures FromBigEndian(BigEndian(n, 32)) == n
  {
    WordLimit();
    BigEndianRoundTrip(n, 32);
  }
}
