/**
 * Variable length integers (components/utils/varlen.go): the encoding of the Bitcoin protocol
 * documentation, section "Variable length integer", and the reader that takes it back.
 */
module Varint {
  import opened Words

  type byte = x: int | 0 <= x < 256

  type Bytes = seq<byte>

  function Zeros(n: nat): (r: Bytes)
    ensures |r| == n
  {
    seq(n, _ => 0)
  }

  /** The first k base-256 digits of n, lowest first: binary.LittleEndian.PutUint16/32/64. */
  function LittleEndian(n: nat, k: nat): (r: Bytes)
    ensures |r| == k
  {
    if k == 0 then [] else [n % 256] + LittleEndian(n / 256, k - 1)
  }

  function FromLittleEndian(b: Bytes): nat {
    if b == [] then 0 else b[0] + 256 * FromLittleEndian(b[1..])
  }

  function Pow256(k: nat): (r: nat)
    ensures r >= 1
  {
    if k == 0 then 1 else 256 * Pow256(k - 1)
  }

  lemma Powers()
    ensures Pow256(1) == 0x100 && Pow256(2) == 0x1_0000 && Pow256(4) == TWO_32 && Pow256(8) == TWO_64
    ensures Pow256(3) == 0x100_0000 && Pow256(5) == 0x100_0000_0000
    ensures Pow256(6) == 0x1_0000_0000_0000 && Pow256(7) == 0x100_0000_0000_0000
  {
    assert Pow256(3) == 0x100_0000;
    assert Pow256(4) == 0x1_0000_0000;
    assert Pow256(6) == 0x1_0000_0000_0000;
    assert Pow256(7) == 0x100_0000_0000_0000;
  }

  lemma {:induction false} LittleEndianInverse(n: nat, k: nat)
    requires n < Pow256(k)
    ensures FromLittleEndian(LittleEndian(n, k)) == n
  {
    if k > 0 {
      LittleEndianInverse(n / 256, k - 1);
      assert LittleEndian(n, k)[1..] == LittleEndian(n / 256, k - 1);
    }
  }

  lemma Times(a: nat, b: nat, d: nat)
    requires a <= b
    ensures a * d <= b * d
  {
  }

  lemma Quotient(n: nat, d: nat, q: nat)
    requires d > 0 && q * d <= n < (q + 1) * d
    ensures n / d == q
  {
    var p := n / d;
    assert p * d <= n < (p + 1) * d;
    Times(if p < q then p + 1 else q, q, d);
    Times(if q < p then q + 1 else p, p, d);
  }

  lemma DivideTwice(n: nat, p: nat)
    requires p > 0
    ensures n / 256 / p == n / (256 * p)
  {
    var q := n / 256 / p;
    assert q * p <= n / 256 < (q + 1) * p;
    assert q * (256 * p) == 256 * (q * p) && (q + 1) * (256 * p) == 256 * ((q + 1) * p);
    Quotient(n, 256 * p, q);
  }

  /** The byte at j is the digit of 256^j. */
  lemma {:induction false} LittleEndianDigit(n: nat, k: nat, j: nat)
    requires j < k
    ensures LittleEndian(n, k)[j] == n / Pow256(j) % 256
  {
    if j == 0 {
      assert Pow256(0) == 1;
    } else {
      LittleEndianDigit(n / 256, k - 1, j - 1);
      DivideTwice(n, Pow256(j - 1));
    }
  }

  lemma {:induction false} LittleEndianRest(n: nat, k: nat, j: nat)
    requires j <= k
    ensures LittleEndian(n, k)[j..] == LittleEndian(n / Pow256(j), k - j)
  {
    if j == 0 {
      assert Pow256(0) == 1;
    } else {
      LittleEndianRest(n / 256, k - 1, j - 1);
      DivideTwice(n, Pow256(j - 1));
    }
  }

  lemma {:induction false} LittleEndianBound(b: Bytes)
    ensures FromLittleEndian(b) < Pow256(|b|)
  {
    if b != [] { LittleEndianBound(b[1..]); }
  }

  /** VarInt: one byte below 0xFD, otherwise a tag and 2, 4 or 8 bytes. */
  function VarInt(n: uint64): (r: Bytes)
    ensures |r| in {1, 3, 5, 9}
  {
    if n < 0xFD then [n]
    else if n <= 0xFFFF then [0xFD] + LittleEndian(n, 2)
    else if n <= 0xFFFF_FFFF then [0xFE] + LittleEndian(n, 4)
    else [0xFF] + LittleEndian(n, 8)
  }

  /** The lowest four digits, lowest first. */
  predicate FourDigits(n: nat, b: Bytes) {
    && |b| == 4 && b[0] == n % 256 && b[1] == n / 0x100 % 256 && b[2] == n / 0x1_0000 % 256 && b[3] == n / 0x100_0000 % 256
  }

  /** The bytes of a number, digit by digit: one byte below 0xFD, otherwise a tag and the digits, lowest first. */
  predicate NumberBytes(n: int, out: Bytes) {
    && 0 <= n < TWO_64
    && if n < 0xFD then out == [n]
       else if n < 0x1_0000 then out == [0xFD, n % 256, n / 256]
       else if n < TWO_32 then |out| == 5 && out[0] == 0xFE && FourDigits(n, out[1..])
       else |out| == 9 && out[0] == 0xFF && FourDigits(n, out[1..5]) && FourDigits(n / TWO_32, out[5..])
  }

  lemma FirstFour(n: nat, k: nat)
    requires k >= 4
    ensures FourDigits(n, LittleEndian(n, k)[..4])
  {
    Powers();
    assert Pow256(0) == 1;
    LittleEndianDigit(n, k, 0);
    LittleEndianDigit(n, k, 1);
    LittleEndianDigit(n, k, 2);
    LittleEndianDigit(n, k, 3);
  }

  lemma LastFour(n: nat)
    ensures FourDigits(n / TWO_32, LittleEndian(n, 8)[4..])
  {
    Powers();
    LittleEndianRest(n, 8, 4);
    FirstFour(n / TWO_32, 4);
    assert LittleEndian(n / TWO_32, 4)[..4] == LittleEndian(n / TWO_32, 4);
  }

  lemma VarIntBytes(n: uint64)
    ensures NumberBytes(n, VarInt(n))
  {
    var out := VarInt(n);
    if 0xFD <= n <= 0xFFFF {
      assert LittleEndian(n, 2) == [n % 256, n / 256];
    }
    if 0xFFFF < n <= 0xFFFF_FFFF {
      FirstFour(n, 4);
      assert out[1..] == LittleEndian(n, 4)[..4];
    }
    if 0xFFFF_FFFF < n {
      FirstFour(n, 8);
      LastFour(n);
      assert out[1..5] == LittleEndian(n, 8)[..4] && out[5..] == LittleEndian(n, 8)[4..];
    }
  }

  /** A number that is cut off is always noticed. */
  lemma VarIntCut(n: uint64, k: nat)
    requires k < |VarInt(n)|
    ensures ReadVarInt(VarInt(n)[..k]).err && ReadVarInt(VarInt(n)[..k]).rest == []
  {
  }

  datatype Chunk = Chunk(bytes: Bytes, err: bool, rest: Bytes)

  /** io.ReadFull into a zeroed buffer of n bytes: a short stream is used up and leaves zeros behind. */
  function ReadFull(data: Bytes, n: nat): (r: Chunk)
    ensures |r.bytes| == n
    ensures r.err <==> |data| < n
    ensures !r.err ==> r.bytes + r.rest == data
    ensures r.err ==> r.rest == [] && r.bytes == data + Zeros(n - |data|)
  {
    if n <= |data| then Chunk(data[..n], false, data[n..]) else Chunk(data + Zeros(n - |data|), true, [])
  }

  datatype Read = Read(value: uint64, err: bool, rest: Bytes)

  /** The k bytes after a tag; a short stream still yields the value of what was there. */
  function ReadTail(data: Bytes, k: nat): (r: Read)
    requires k in {2, 4, 8}
  {
    var c := ReadFull(data, k);
    LittleEndianBound(c.bytes); Powers();
    Read(FromLittleEndian(c.bytes), c.err, c.rest)
  }

  /** ReadVarInt: the end of the stream reads as zero with an error. */
  function ReadVarInt(data: Bytes): (r: Read)
    ensures |r.rest| <= |data|
  {
    if data == [] then Read(0, true, [])
    else if data[0] == 0xFD then ReadTail(data[1..], 2)
    else if data[0] == 0xFE then ReadTail(data[1..], 4)
    else if data[0] == 0xFF then ReadTail(data[1..], 8)
    else Read(data[0], false, data[1..])
  }

  lemma TailInverse(n: nat, k: nat, rest: Bytes)
    requires k in {2, 4, 8} && n < Pow256(k)
    ensures ReadTail(LittleEndian(n, k) + rest, k) == Read(n, false, rest)
  {
    LittleEndianInverse(n, k);
    assert (LittleEndian(n, k) + rest)[..k] == LittleEndian(n, k);
    assert (LittleEndian(n, k) + rest)[k..] == rest;
  }

  /** Every 64-bit integer survives, and nothing behind it is touched. */
  lemma VarIntInverse(n: uint64, rest: Bytes)
    ensures ReadVarInt(VarInt(n) + rest) == Read(n, false, rest)
  {
    Powers();
    if n < 0xFD {
      assert ([n] + rest)[1..] == rest;
    } else {
      var k := if n <= 0xFFFF then 2 else if n <= 0xFFFF_FFFF then 4 else 8;
      TailInverse(n, k, rest);
      assert (VarInt(n) + rest)[1..] == LittleEndian(n, k) + rest;
    }
  }

  /** No shorter form exists: of all byte strings that read back as n, VarInt(n) is the shortest. */
  lemma VarIntShortest(n: uint64, data: Bytes)
    requires ReadVarInt(data) == Read(n, false, [])
    ensures |VarInt(n)| <= |data|
    ensures |VarInt(n)| == |data| ==> VarInt(n) == data
  {
    Powers();
    if data[0] >= 0xFD {
      var k := |data| - 1;
      assert k == if data[0] == 0xFD then 2 else if data[0] == 0xFE then 4 else 8;
      LittleEndianBound(data[1..]);
      assert data[1..][..k] == data[1..];
      if |VarInt(n)| == |data| { FromLittleEndianInjective(data[1..], n); }
    }
  }

  lemma {:induction false} FromLittleEndianInjective(b: Bytes, n: nat)
    requires FromLittleEndian(b) == n
    ensures LittleEndian(n, |b|) == b
  {
    if b != [] { FromLittleEndianInjective(b[1..], n / 256); }
  }
}
