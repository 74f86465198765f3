/** Bytes, machine-width integers and the big-endian encoding shared by the
    disk queue and the Modbus codec. */
module Bytes {
  type byte = b: int | 0 <= b < 256
  type bytes = seq<byte>
  type uint16 = n: int | 0 <= n < 0x1_0000
  type uint32 = n: int | 0 <= n < 0x1_0000_0000
  type int64 = n: int | -0x8000_0000_0000_0000 <= n < 0x8000_0000_0000_0000

  /** 256 to the power k. */
  function Pow256(k: nat): (p: nat)
    ensures p > 0
  {
    if k == 0 then 1 else 256 * Pow256(k - 1)
  }

  /** The k low-order bytes of n, most significant first; higher bytes are
      lost, as in Go's conversions to a narrower unsigned type. */
  function BigEndian(n: nat, k: nat): (bs: bytes)
    ensures |bs| == k
  {
    if k == 0 then [] else BigEndian(n / 256, k - 1) + [n % 256]
  }

  /** The number whose big-endian digits are bs. */
  function Value(bs: bytes): (n: nat)
    ensures n < Pow256(|bs|)
  {
    if bs == [] then 0 else 256 * Value(bs[..|bs| - 1]) + bs[|bs| - 1]
  }

  lemma {:induction false} ValueOfBigEndian(n: nat, k: nat)
    ensures Value(BigEndian(n, k)) == n % Pow256(k)
  {
    if k == 0 {
      assert n % 1 == 0;
    } else {
      var bs := BigEndian(n, k);
      assert bs[..|bs| - 1] == BigEndian(n / 256, k - 1);
      ValueOfBigEndian(n / 256, k - 1);
      ModSplit(n, Pow256(k - 1));
    }
  }

  lemma ModSplit(n: nat, p: nat)
    requires p > 0
    ensures n % (256 * p) == 256 * ((n / 256) % p) + n % 256
  {
    var q := n / 256;
    var r := 256 * (q % p) + n % 256;
    var d := q / p;
    assert q == d * p + q % p;
    assert n == 256 * q + n % 256;
    assert n == (256 * p) * d + r by {
      assert 256 * (d * p) == (256 * p) * d;
    }
    assert 0 <= r < 256 * p by { assert q % p <= p - 1; }
    RemainderUnique(n, 256 * p, d, r);
  }

  lemma RemainderUnique(n: int, m: int, d: int, r: int)
    requires m > 0 && 0 <= r < m && n == m * d + r
    ensures n % m == r && n / m == d
  {
    var e := n / m - d;
    assert n % m - r == -(m * e) by {
      assert n == m * (n / m) + n % m;
      assert m * (n / m) - m * d == m * e;
    }
  }

  lemma {:induction false} BigEndianOfValue(bs: bytes)
    ensures BigEndian(Value(bs), |bs|) == bs
  {
    if bs != [] {
      var init, last := bs[..|bs| - 1], bs[|bs| - 1];
      BigEndianOfValue(init);
      assert Value(bs) / 256 == Value(init) && Value(bs) % 256 == last;
      assert bs == init + [last];
    }
  }

  lemma PowersOf256()
    ensures Pow256(2) == 0x1_0000
    ensures Pow256(4) == 0x1_0000_0000
    ensures Pow256(8) == 0x1_0000_0000_0000_0000
  {
    assert Pow256(1) == 256;
    assert Pow256(2) == 256 * Pow256(1);
    assert Pow256(3) == 256 * Pow256(2);
    assert Pow256(4) == 256 * Pow256(3);
    assert Pow256(5) == 256 * Pow256(4);
    assert Pow256(6) == 256 * Pow256(5);
    assert Pow256(7) == 256 * Pow256(6);
    assert Pow256(8) == 256 * Pow256(7);
  }

  /** Position by position: byte i has the weight of the bytes behind it, so the
      first is the most significant. */
  lemma {:induction false} DigitAt(n: nat, k: nat, i: nat)
    requires i < k
    ensures BigEndian(n, k)[i] == n / Pow256(k - 1 - i) % 256
  {
    if i < k - 1 {
      DigitAt(n / 256, k - 1, i);
      DivTwice(n, Pow256(k - 2 - i));
    } else {
      assert Pow256(0) == 1;
    }
  }

  lemma DivTwice(n: nat, p: nat)
    requires p > 0
    ensures n / 256 / p == n / (256 * p)
  {
    var q := n / 256;
    ModSplit(n, p);
    assert n == 256 * q + n % 256 && q == p * (q / p) + q % p;
    assert n == (256 * p) * (q / p) + n % (256 * p) by {
      assert 256 * (p * (q / p)) == (256 * p) * (q / p);
    }
    RemainderUnique(n, 256 * p, q / p, n % (256 * p));
  }

  /** Four bytes as a number, the first the most significant. */
  function Four(a: byte, b: byte, c: byte, d: byte): nat {
    0x100_0000 * a + 0x1_0000 * b + 0x100 * c + d
  }

  /** Two and four bytes, written out. */
  lemma ValueOfTwo(a: byte, b: byte)
    ensures Value([a, b]) == 256 * a + b
  {
    assert [a, b][..1] == [a] && [a][..0] == [];
    assert Value([]) == 0;
    assert Value([a]) == a;
  }

  lemma ValueOfFour(a: byte, b: byte, c: byte, d: byte)
    ensures Value([a, b, c, d]) == Four(a, b, c, d)
  {
    ValueOfTwo(a, b);
    assert [a, b, c, d][..3] == [a, b, c] && [a, b, c][..2] == [a, b];
  }

  lemma TwoBytes(n: nat)
    ensures BigEndian(n, 2) == [n / 256 % 256, n % 256]
  {
    DigitAt(n, 2, 0);
    DigitAt(n, 2, 1);
    assert Pow256(0) == 1 && Pow256(1) == 256;
  }

  lemma FourBytes(n: nat)
    ensures BigEndian(n, 4) == [n / 0x100_0000 % 256, n / 0x1_0000 % 256, n / 0x100 % 256, n % 256]
  {
    DigitAt(n, 4, 0);
    DigitAt(n, 4, 1);
    DigitAt(n, 4, 2);
    DigitAt(n, 4, 3);
    assert Pow256(0) == 1;
    assert Pow256(1) == 256;
    assert Pow256(2) == 256 * Pow256(1);
    assert Pow256(3) == 256 * Pow256(2);
  }

  /** A number that fits in two bytes survives the trip. */
  lemma ValueOf16(n: nat)
    requires n < 0x1_0000
    ensures Value(BigEndian(n, 2)) == n
  {
    ValueOfBigEndian(n, 2);
    PowersOf256();
  }

  lemma ValueOf32(n: nat)
    requires n < 0x1_0000_0000
    ensures Value(BigEndian(n, 4)) == n
  {
    ValueOfBigEndian(n, 4);
    PowersOf256();
  }
}
