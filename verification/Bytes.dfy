/** Byte-level encodings shared by the segment files, the write-ahead log and
    the memory-mapped index: big-endian integers of any width, and Go's
    two's-complement int64 on top of them. */
module Bytes {

  type byte = b: int | 0 <= b < 256

  datatype Option<+T> = None | Some(value: T)

  const TWO32 := 0x1_0000_0000
  const TWO63 := 0x8000_0000_0000_0000
  const TWO64 := 0x1_0000_0000_0000_0000
  const MAX_INT64 := TWO63 - 1

  predicate IsInt64(v: int) {
    -TWO63 <= v < TWO63
  }

  type int64 = v: int | IsInt64(v)

  /** The value a 64-bit register holds after computing v. */
  function Wrap64(v: int): int {
    (v + TWO63) % TWO64 - TWO63
  }

  function Pow256(k: nat): (p: int)
    ensures p > 0
  {
    if k == 0 then 1 else 256 * Pow256(k - 1)
  }

  /** The low k bytes of v, most significant first. */
  function BeBytes(v: int, k: nat): (b: seq<byte>)
    ensures |b| == k
  {
    seq(k, i requires 0 <= i < k => v / Pow256(k - 1 - i) % 256)
  }

  /** The unsigned number spelled by b, most significant byte first. */
  function BeNat(b: seq<byte>): (n: int)
    ensures n >= 0
  {
    if b == [] then 0 else BeNat(b[..|b| - 1]) * 256 + b[|b| - 1]
  }

  function Take<T>(s: seq<T>, n: nat): (r: seq<T>)
    ensures r <= s
    ensures |r| == if n <= |s| then n else |s|
  {
    if n <= |s| then s[..n] else s
  }

  lemma ModSplit(v: int, m: int)
    requires m > 0
    ensures v % (256 * m) == (v / 256) % m * 256 + v % 256
  {
    var q, r := v / 256, v % 256;
    var t := q / m;
    var x := q % m * 256 + r;
    assert q == t * m + q % m;
    assert v == t * (256 * m) + x by {
      assert v == q * 256 + r;
      assert t * m * 256 == t * (256 * m);
    }
    assert 0 <= x < 256 * m by {
      assert q % m <= m - 1;
    }
    DivModUnique(v, 256 * m, t, x);
  }

  lemma DivModUnique(v: int, m: int, t: int, x: int)
    requires m > 0 && 0 <= x < m && v == t * m + x
    ensures v % m == x && v / m == t
  {
    var q, r := v / m, v % m;
    assert v == q * m + r;
    assert (q - t) * m == x - r;
    assert q - t >= 1 ==> (q - t) * m >= m;
    assert q - t <= -1 ==> (q - t) * m <= -m;
  }

  lemma BeLast(v: int, k: nat)
    requires k > 0
    ensures BeBytes(v, k)[..k - 1] == BeBytes(v / 256, k - 1)
    ensures BeBytes(v, k)[k - 1] == v % 256
  {
    forall i | 0 <= i < k - 1
      ensures BeBytes(v, k)[i] == BeBytes(v / 256, k - 1)[i]
    {
      assert Pow256(k - 1 - i) == 256 * Pow256(k - 2 - i);
      DivDiv(v, Pow256(k - 2 - i));
    }
    assert v / Pow256(0) == v;
  }

  /** Decoding the k-byte encoding of v gives v modulo 256^k. */
  lemma {:induction false} BeRoundTrip(v: int, k: nat)
    ensures BeNat(BeBytes(v, k)) == v % Pow256(k)
    decreases k
  {
    if k > 0 {
      BeRoundTrip(v / 256, k - 1);
      BeLast(v, k);
      ModSplit(v, Pow256(k - 1));
    }
  }

  lemma {:induction false} BeNatBound(b: seq<byte>)
    ensures BeNat(b) < Pow256(|b|)
  {
    if b != [] {
      BeNatBound(b[..|b| - 1]);
    }
  }

  /** Encoding what was decoded restores the bytes. */
  lemma {:induction false} BeInverse(b: seq<byte>)
    ensures BeBytes(BeNat(b), |b|) == b
  {
    if b != [] {
      var n := BeNat(b[..|b| - 1]);
      BeInverse(b[..|b| - 1]);
      BeLast(BeNat(b), |b|);
      assert BeNat(b) / 256 == n;
      assert b == b[..|b| - 1] + [b[|b| - 1]];
    }
  }

  /** A length below 2^32 survives its four-byte prefix. */
  lemma U32RoundTrip(n: int)
    requires 0 <= n < TWO32
    ensures BeNat(BeBytes(n, 4)) == n
  {
    PowValues();
    NarrowRoundTrip(n, 4);
  }

  lemma NarrowRoundTrip(n: int, k: nat)
    requires 0 <= n < Pow256(k)
    ensures BeNat(BeBytes(n, k)) == n
  {
    BeRoundTrip(n, k);
    DivModUnique(n, Pow256(k), 0, n);
  }

  lemma PowValues()
    ensures Pow256(4) == TWO32
    ensures Pow256(8) == TWO64
  {
    assert Pow256(1) == 256;
    assert Pow256(2) == 65536;
    assert Pow256(3) == 0x100_0000;
    assert Pow256(4) == TWO32;
    assert Pow256(5) == 0x100_0000_0000;
    assert Pow256(6) == 0x1_0000_0000_0000;
    assert Pow256(7) == 0x100_0000_0000_0000;
  }

  /** What the decoder computes: shift left in a 64-bit register, or in the next byte. */
  function DecodeInt64(b: seq<byte>): int {
    Wrap64(BeNat(b))
  }

  lemma ModShift(x: int, y: int, k: int)
    requires x % TWO64 == y % TWO64
    ensures (x + k) % TWO64 == (y + k) % TWO64
    ensures (256 * x) % TWO64 == (256 * y) % TWO64
  {
    var d := x / TWO64 - y / TWO64;
    assert x == y + d * TWO64;
    ModAdd(y + k, d);
    ModAdd(256 * y, 256 * d);
  }

  lemma ModAdd(x: int, d: int)
    ensures (x + d * TWO64) % TWO64 == x % TWO64
  {
    DivModUnique(x + d * TWO64, TWO64, x / TWO64 + d, x % TWO64);
  }

  lemma WrapCongruent(x: int)
    ensures Wrap64(x) % TWO64 == x % TWO64
    ensures IsInt64(Wrap64(x))
  {
    var q := (x + TWO63) / TWO64;
    assert Wrap64(x) == x - q * TWO64;
    ModAdd(x, -q);
  }

  lemma WrapCanonical(x: int, y: int)
    requires x % TWO64 == y % TWO64
    ensures Wrap64(x) == Wrap64(y)
  {
    ModShift(x, y, TWO63);
  }

  /** One step of the decoding loop: the shifted register has a clear low byte,
      so or-ing in c adds it, and the whole step is arithmetic modulo 2^64. */
  lemma WrapStep(x: int, c: byte)
    ensures Wrap64(Wrap64(x) * 256) + c == Wrap64(x * 256 + c)
    ensures Wrap64(Wrap64(x) * 256) % 256 == 0
  {
    var w := Wrap64(Wrap64(x) * 256);
    ShiftRegister(Wrap64(x));
    WrapCongruent(x);
    ModShift(Wrap64(x), x, 0);
    WrapCongruent(Wrap64(x) * 256);
    ModShift(w, x * 256, c);
    WrapCanonical(w + c, x * 256 + c);
    WrapFits(w + c);
  }

  lemma ShiftRegister(r: int)
    ensures Wrap64(r * 256) % 256 == 0
    ensures -TWO63 <= Wrap64(r * 256) <= TWO63 - 256
  {
    var s := r * 256;
    var w := Wrap64(s);
    var q := (s + TWO63) / TWO64;
    assert w == s - q * TWO64;
    assert w == 256 * (r - q * 0x100_0000_0000_0000);
  }

  lemma WrapFits(v: int)
    requires IsInt64(v)
    ensures Wrap64(v) == v
  {
  }

  /** Every int64 survives its eight-byte encoding. */
  lemma Int64RoundTrip(v: int)
    requires IsInt64(v)
    ensures DecodeInt64(BeBytes(v, 8)) == v
  {
    PowValues();
    WideRoundTrip(v, 8);
  }

  lemma WideRoundTrip(v: int, k: nat)
    requires IsInt64(v) && Pow256(k) == TWO64
    ensures DecodeInt64(BeBytes(v, k)) == v
  {
    BeRoundTrip(v, k);
    DivModUnique(v % TWO64, TWO64, 0, v % TWO64);
    WrapCanonical(v % TWO64, v);
    DivModUnique(v + TWO63, TWO64, 0, v + TWO63);
  }

  /** Every eight-byte string is the encoding of the int64 it decodes to. */
  lemma BytesRoundTrip(b: seq<byte>)
    requires |b| == 8
    ensures BeBytes(DecodeInt64(b), 8) == b
  {
    PowValues();
    WideInverse(b, 8);
  }

  lemma WideInverse(b: seq<byte>, k: nat)
    requires |b| == k && Pow256(k) == TWO64
    ensures BeBytes(DecodeInt64(b), k) == b
  {
    var n := BeNat(b);
    BeNatBound(b);
    WrapCongruent(n);
    DivModUnique(n, TWO64, 0, n);
    BeRoundTrip(Wrap64(n), k);
    BeInjective(BeBytes(Wrap64(n), k), b);
  }

  lemma BeInjective(a: seq<byte>, b: seq<byte>)
    requires |a| == |b| && BeNat(a) == BeNat(b)
    ensures a == b
  {
    BeInverse(a);
    BeInverse(b);
  }

  lemma DivDiv(v: int, m: int)
    requires m > 0
    ensures v / 256 / m == v / (256 * m)
  {
    ModSplit(v, m);
    var q, r := v / 256, v % 256;
    var x := q % m * 256 + r;
    assert q == q / m * m + q % m;
    assert v == q / m * (256 * m) + x by {
      assert v == q * 256 + r;
      assert q / m * m * 256 == q / m * (256 * m);
    }
    DivModUnique(v, 256 * m, q / m, x);
  }

  /** int64ToBytes: byte i is the value shifted right arithmetically by 8*(7-i), cut to 8 bits. */
  method Int64ToBytes(v: int) returns (b: seq<byte>)
    ensures b == BeBytes(v, 8)
    ensures IsInt64(v) ==> DecodeInt64(b) == v
  {
    var a := new byte[8](_ => 0);
    for i := 0 to 8
      invariant forall j :: 0 <= j < i ==> a[j] == BeBytes(v, 8)[j]
    {
      a[i] := v / Pow256(7 - i) % 256;
    }
    b := a[..];
    assert b == BeBytes(v, 8);
    if IsInt64(v) {
      Int64RoundTrip(v);
    }
  }

  /** bytesToInt64: reads at most eight bytes, fewer when the slice is shorter. */
  method BytesToInt64(b: seq<byte>) returns (v: int)
    ensures v == DecodeInt64(Take(b, 8))
    ensures IsInt64(v)
  {
    v := 0;
    var i := 0;
    while i < 8 && i < |b|
      invariant 0 <= i <= 8 && i <= |b|
      invariant v == DecodeInt64(b[..i])
      decreases 8 - i
    {
      WrapStep(BeNat(b[..i]), b[i]);
      assert b[..i + 1][..i] == b[..i];
      v := Wrap64(v * 256) + b[i];
      i := i + 1;
    }
    assert b[..i] == Take(b, 8);
    WrapCongruent(BeNat(b[..i]));
  }
}
