/** Bytes and fixed-width integers, as encoding/binary lays them out.

    Numbers are written least or most significant byte first, and both forms are tied to the digits of the number in
    base 256 and to reading them back. */
module Bytes {
  import opened Arithmetic

  type byte = x: int | 0 <= x < 256

  type Bytes = seq<byte>

  /** The low `n` bytes of `x`, least significant first; negative numbers come out in two's complement. */
  function LittleEndian(n: nat, x: int): (b: Bytes)
    ensures |b| == n
  {
    if n == 0 then [] else [x % 256] + LittleEndian(n - 1, x / 256)
  }

  function LittleEndianValue(b: Bytes): nat {
    if b == [] then 0 else b[0] + 256 * LittleEndianValue(b[1..])
  }

  /** The low `n` bytes of `x`, most significant first. */
  function BigEndian(n: nat, x: int): (b: Bytes)
    ensures |b| == n
  {
    if n == 0 then [] else BigEndian(n - 1, x / 256) + [x % 256]
  }

  function BigEndianValue(b: Bytes): nat {
    if b == [] then 0 else 256 * BigEndianValue(b[..|b| - 1]) + b[|b| - 1]
  }

  lemma {:induction false} LittleEndianBound(b: Bytes)
    ensures LittleEndianValue(b) < Pow(256, |b|)
  {
    if b != [] {
      LittleEndianBound(b[1..]);
      assert b[0] < 256;
    }
  }

  /** Reading back a fixed-width integer loses exactly what does not fit the width. */
  lemma {:induction false} LittleEndianReads(n: nat, x: int)
    ensures LittleEndianValue(LittleEndian(n, x)) == x % Pow(256, n)
  {
    if n > 0 {
      LittleEndianReads(n - 1, x / 256);
      ModSplit(x, Pow(256, n - 1));
    }
  }

  lemma {:induction false} BigEndianReads(n: nat, x: int)
    ensures BigEndianValue(BigEndian(n, x)) == x % Pow(256, n)
  {
    if n > 0 {
      BigEndianReads(n - 1, x / 256);
      ModSplit(x, Pow(256, n - 1));
    }
  }

  /** Byte `k` of the least significant first form is digit `k` of the number in base 256. */
  lemma {:induction false} LittleEndianAt(n: nat, x: int, k: nat)
    requires k < n
    ensures LittleEndian(n, x)[k] == x / Pow(256, k) % 256
    decreases n
  {
    if k > 0 {
      LittleEndianAt(n - 1, x / 256, k - 1);
      DivSplit(x, Pow(256, k - 1));
    }
  }

  /** In the most significant first form it is the digit counted from the other end. */
  lemma {:induction false} BigEndianAt(n: nat, x: int, k: nat)
    requires k < n
    ensures BigEndian(n, x)[k] == x / Pow(256, n - 1 - k) % 256
    decreases n
  {
    if k < n - 1 {
      BigEndianAt(n - 1, x / 256, k);
      DivSplit(x, Pow(256, n - 2 - k));
    }
  }

  lemma DivSplit(x: int, m: nat)
    requires m > 0
    ensures x / (256 * m) == x / 256 / m
  {
    var q := x / 256;
    var k := q / m;
    assert x == (256 * m) * k + (256 * (q % m) + x % 256) by {
      assert q == m * k + q % m;
      assert 256 * q == (256 * m) * k + 256 * (q % m);
    }
    DivIs(x, 256 * m, k, 256 * (q % m) + x % 256);
  }

  lemma DivIs(x: int, d: nat, k: int, r: int)
    requires 0 <= r < d && x == d * k + r
    ensures x / d == k
  {
    MulGrows(d, x / d - k);
    assert d * (x / d - k) == r - x % d;
  }

  lemma ModSplit(x: int, m: nat)
    requires m > 0
    ensures x % (256 * m) == x % 256 + 256 * (x / 256 % m)
  {
    var q, a := x / 256, x % 256;
    var r := a + 256 * (q % m);
    assert x == (256 * m) * (q / m) + r by {
      assert q == m * (q / m) + q % m;
      assert 256 * q == (256 * m) * (q / m) + 256 * (q % m);
    }
    assert 0 <= r < 256 * m;
    ModIs(x, 256 * m, q / m, r);
  }

  lemma ModIs(x: int, d: nat, k: int, r: int)
    requires 0 <= r < d && x == d * k + r
    ensures x % d == r
  {
    MulGrows(d, x / d - k);
    assert d * (x / d - k) == r - x % d;
  }

  lemma MulGrows(d: int, t: int)
    requires d > 0
    ensures t >= 1 ==> d * t >= d
    ensures t <= -1 ==> d * t <= -d
  {
  }

  lemma Limits()
    ensures Pow(256, 2) == 0x1_0000 && Pow(256, 4) == 0x1_0000_0000 && Pow(256, 8) == 0x1_0000_0000_0000_0000
  {
    assert Pow(256, 1) == 256 && Pow(256, 3) == 0x100_0000;
    assert Pow(256, 5) == 0x100_0000_0000 && Pow(256, 6) == 0x1_0000_0000_0000 && Pow(256, 7) == 0x100_0000_0000_0000;
  }
}
