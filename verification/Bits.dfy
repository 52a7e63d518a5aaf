/** Bits, bytes and the conversions between them: most significant bit first. */
module Bits {
  type Bit = bv1
  type Byte = bv8

  /** A bit of a byte, counted from the most significant one. */
  type BitIndex = b: nat | b < 8

  // Blocks of a fixed length.
  type Bits9 = s: seq<Bit> | |s| == 9 witness seq(9, _ => 0)
  type Bits11 = s: seq<Bit> | |s| == 11 witness seq(11, _ => 0)
  type Bits15 = s: seq<Bit> | |s| == 15 witness seq(15, _ => 0)
  type Bits16 = s: seq<Bit> | |s| == 16 witness seq(16, _ => 0)
  type Bits48 = s: seq<Bit> | |s| == 48 witness seq(48, _ => 0)
  type Bits49 = s: seq<Bit> | |s| == 49 witness seq(49, _ => 0)
  type Bits72 = s: seq<Bit> | |s| == 72 witness seq(72, _ => 0)
  type Bits77 = s: seq<Bit> | |s| == 77 witness seq(77, _ => 0)
  type Bits100 = s: seq<Bit> | |s| == 100 witness seq(100, _ => 0)
  type Bits128 = s: seq<Bit> | |s| == 128 witness seq(128, _ => 0)
  type Bits136 = s: seq<Bit> | |s| == 136 witness seq(136, _ => 0)
  type Bits196 = s: seq<Bit> | |s| == 196 witness seq(196, _ => 0)
  type Bits264 = s: seq<Bit> | |s| == 264 witness seq(264, _ => 0)
  type Bytes3 = s: seq<Byte> | |s| == 3 witness seq(3, _ => 0)
  type Bytes4 = s: seq<Byte> | |s| == 4 witness seq(4, _ => 0)
  type Bytes7 = s: seq<Byte> | |s| == 7 witness seq(7, _ => 0)
  type Bytes9 = s: seq<Byte> | |s| == 9 witness seq(9, _ => 0)
  type Bytes12 = s: seq<Byte> | |s| == 12 witness seq(12, _ => 0)
  type Bytes20 = s: seq<Byte> | |s| == 20 witness seq(20, _ => 0)
  type Bytes21 = s: seq<Byte> | |s| == 21 witness seq(21, _ => 0)
  type Bytes33 = s: seq<Byte> | |s| == 33 witness seq(33, _ => 0)
  type Bytes53 = s: seq<Byte> | |s| == 53 witness seq(53, _ => 0)
  type Bytes64 = s: seq<Byte> | |s| == 64 witness seq(64, _ => 0)

  /** Bit `b` of `x`, counted from the most significant one: `(x >> (7 - b)) & 1`. */
  function ByteBit(x: Byte, b: BitIndex): Bit
  {
    (match b
     case 0 => (x >> 7) & 1
     case 1 => (x >> 6) & 1
     case 2 => (x >> 5) & 1
     case 3 => (x >> 4) & 1
     case 4 => (x >> 3) & 1
     case 5 => (x >> 2) & 1
     case 6 => (x >> 1) & 1
     case _ => x & 1) as Bit
  }

  /** The byte whose bit `b` is `v` and whose other bits are zero: `(v & 1) << (7 - b)`. */
  function BitByte(v: Bit, b: BitIndex): Byte
  {
    var w := v as Byte;
    match b
    case 0 => w << 7
    case 1 => w << 6
    case 2 => w << 5
    case 3 => w << 4
    case 4 => w << 3
    case 5 => w << 2
    case 6 => w << 1
    case _ => w
  }

  lemma BitByteAt(v: Bit, b: BitIndex, c: BitIndex)
    ensures ByteBit(BitByte(v, b), c) == if b == c then v else 0
  {
  }

  lemma ByteBitOr(x: Byte, y: Byte, c: BitIndex)
    ensures ByteBit(x | y, c) == ByteBit(x, c) | ByteBit(y, c)
  {
    match c {
      case 0 => case 1 => case 2 => case 3 => case 4 => case 5 => case 6 => case _ =>
    }
  }

  /** A byte is determined by its eight bits. */
  lemma ByteExtensional(x: Byte, y: Byte)
    requires forall b :: 0 <= b < 8 ==> ByteBit(x, b) == ByteBit(y, b)
    ensures x == y
  {
    assert ByteBit(x, 0) == ByteBit(y, 0) && ByteBit(x, 1) == ByteBit(y, 1);
    assert ByteBit(x, 2) == ByteBit(y, 2) && ByteBit(x, 3) == ByteBit(y, 3);
    assert ByteBit(x, 4) == ByteBit(y, 4) && ByteBit(x, 5) == ByteBit(y, 5);
    assert ByteBit(x, 6) == ByteBit(y, 6) && ByteBit(x, 7) == ByteBit(y, 7);
  }

  function BytesToBits(bytes: seq<Byte>): (bits: seq<Bit>)
    ensures |bits| == 8 * |bytes|
  {
    seq(8 * |bytes|, i requires 0 <= i < 8 * |bytes| => ByteBit(bytes[i / 8], i % 8))
  }

  lemma BytesToBitsAt(bytes: seq<Byte>, i: nat, b: BitIndex)
    requires i < |bytes|
    ensures BytesToBits(bytes)[8 * i + b] == ByteBit(bytes[i], b)
  {
    assert (8 * i + b) / 8 == i && (8 * i + b) % 8 == b;
  }

  /** Bit `8 i + b` is bit `7 - b` of byte `i`, counted from the least significant one. */
  lemma BitsByShift(bytes: seq<Byte>, i: nat, b: BitIndex)
    requires i < |bytes|
    ensures BytesToBits(bytes)[8 * i + b] == ((bytes[i] >> (7 - b)) & 1) as Bit
  {
    hide BytesToBits;
    BytesToBitsAt(bytes, i, b);
    match b {
      case 0 => case 1 => case 2 => case 3 => case 4 => case 5 => case 6 => case _ =>
    }
  }

  /** The byte that packs the first eight bits of `bits`, absent ones read as zero. */
  function PackByte(bits: seq<Bit>): Byte {
    PackBits(bits, 8)
  }

  /** The byte that packs the first `n` bits of `bits`, absent ones read as zero. */
  function PackBits(bits: seq<Bit>, n: nat): Byte
    requires n <= 8
  {
    if n == 0 then 0
    else if n <= |bits| then PackBits(bits, n - 1) | BitByte(bits[n - 1], n - 1)
    else PackBits(bits, n - 1)
  }

  lemma {:induction false} PackBitsAt(bits: seq<Bit>, n: nat, c: BitIndex)
    requires n <= 8
    ensures ByteBit(PackBits(bits, n), c) == if c < n && c < |bits| then bits[c] else 0
  {
    if n > 0 {
      PackBitsAt(bits, n - 1, c);
      if n <= |bits| {
        ByteBitOr(PackBits(bits, n - 1), BitByte(bits[n - 1], n - 1), c);
        BitByteAt(bits[n - 1], n - 1, c);
      }
    } else {
      match c { case 0 => case 1 => case 2 => case 3 => case 4 => case 5 => case 6 => case _ => }
    }
  }

  /** Byte `i` of the packing of `bits`; bits past the end count as zero. */
  function PackedByte(bits: seq<Bit>, i: nat): Byte
    requires 8 * i <= |bits|
  {
    PackByte(bits[8 * i..])
  }

  function BitsToBytes(bits: seq<Bit>): (bytes: seq<Byte>)
    ensures |bytes| == (|bits| + 7) / 8
  {
    seq((|bits| + 7) / 8, i requires 0 <= i < (|bits| + 7) / 8 => PackedByte(bits, i))
  }

  lemma {:induction false} BitsRoundTrip(bits: seq<Bit>)
    requires |bits| % 8 == 0
    ensures BytesToBits(BitsToBytes(bits)) == bits
  {
    forall i | 0 <= i < |bits| ensures BytesToBits(BitsToBytes(bits))[i] == bits[i] {
      PackBitsAt(bits[8 * (i / 8)..], 8, i % 8);
      assert bits[8 * (i / 8)..][i % 8] == bits[i];
    }
  }

  lemma {:induction false} BytesRoundTrip(bytes: seq<Byte>)
    ensures BitsToBytes(BytesToBits(bytes)) == bytes
  {
    var bits := BytesToBits(bytes);
    forall i | 0 <= i < |bytes| ensures BitsToBytes(bits)[i] == bytes[i] {
      forall b | 0 <= b < 8 ensures ByteBit(PackedByte(bits, i), b) == ByteBit(bytes[i], b) {
        PackBitsAt(bits[8 * i..], 8, b);
        assert bits[8 * i..][b] == bits[8 * i + b];
        BytesToBitsAt(bytes, i, b);
      }
      ByteExtensional(PackedByte(bits, i), bytes[i]);
    }
  }

  /** `s` with `v` written over the elements from `at` on. */
  function Overwrite<T>(s: seq<T>, at: nat, v: seq<T>): seq<T>
    requires at + |v| <= |s|
  {
    s[..at] + v + s[at + |v|..]
  }

  lemma OverwriteNothing<T>(s: seq<T>, at: nat, v: seq<T>)
    requires at + |v| <= |s|
    ensures Overwrite(s, at, v[..0]) == s
  {
  }

  /** Writing one more element extends what has been overwritten. */
  lemma OverwriteNext<T>(s: seq<T>, at: nat, v: seq<T>, k: nat)
    requires at + |v| <= |s| && k < |v|
    ensures Overwrite(s, at, v[..k])[at + k := v[k]] == Overwrite(s, at, v[..k + 1])
  {
  }

  /** A stretch of an array inside a prefix of it. */
  lemma StretchOfPrefix<T>(a: array<T>, len: nat, i: nat, j: nat)
    requires i <= j <= len <= a.Length
    ensures a[..len][i..j] == a[i..j]
  {
  }

  /** `memcpy(dst + at, src, |src|)`. */
  method Copy<T>(dst: array<T>, at: nat, src: seq<T>)
    requires at + |src| <= dst.Length
    modifies dst
    ensures dst[..] == Overwrite(old(dst[..]), at, src)
  {
    for i := 0 to |src|
      invariant dst[..] == Overwrite(old(dst[..]), at, src[..i])
    {
      dst[at + i] := src[i];
    }
    assert src[..|src|] == src;
  }

  /** `memcpy(fb + at, src, n); at += n`. */
  method Append<T>(fb: array<T>, at: nat, src: seq<T>, ghost prefix: seq<T>) returns (next: nat)
    requires at + |src| <= fb.Length && fb[..at] == prefix
    modifies fb
    ensures next == at + |src| && fb[..next] == prefix + src
  {
    Copy(fb, at, src);
    next := at + |src|;
  }

  method BytesToBitsInto(bytes: seq<Byte>, bitsOut: array<Bit>, at: nat)
    requires at + 8 * |bytes| <= bitsOut.Length
    modifies bitsOut
    ensures bitsOut[..] == Overwrite(old(bitsOut[..]), at, BytesToBits(bytes))
  {
    hide BytesToBits, Overwrite;
    ghost var bits := BytesToBits(bytes);
    ghost var s := bitsOut[..];
    OverwriteNothing(s, at, bits);
    for i := 0 to |bytes|
      invariant bitsOut[..] == Overwrite(s, at, bits[..8 * i])
    {
      ByteToBitsInto(bytes, i, bitsOut, s, at);
    }
    assert bits[..8 * |bytes|] == bits;
  }

  method ByteToBitsInto(bytes: seq<Byte>, i: nat, bitsOut: array<Bit>, ghost s: seq<Bit>, at: nat)
    requires i < |bytes| && at + 8 * |bytes| <= |s| == bitsOut.Length
    requires bitsOut[..] == Overwrite(s, at, BytesToBits(bytes)[..8 * i])
    modifies bitsOut
    ensures bitsOut[..] == Overwrite(s, at, BytesToBits(bytes)[..8 * (i + 1)])
  {
    hide ByteBit, BytesToBits, Overwrite;
    ghost var bits := BytesToBits(bytes);
    for b := 0 to 8
      invariant bitsOut[..] == Overwrite(s, at, bits[..8 * i + b])
    {
      var k := i * 8 + b;
      assert ByteBit(bytes[i], b) == bits[k] by { BytesToBitsAt(bytes, i, b); }
      SetNext(bitsOut, s, at, bits, k, ByteBit(bytes[i], b));
    }
  }

  /** `dst[at + k] = x`, the next element of an overwriting by `v`. */
  method SetNext<T>(dst: array<T>, ghost s: seq<T>, at: nat, ghost v: seq<T>, k: nat, x: T)
    requires at + |v| <= |s| == dst.Length && k < |v| && x == v[k]
    requires dst[..] == Overwrite(s, at, v[..k])
    modifies dst
    ensures dst[..] == Overwrite(s, at, v[..k + 1])
  {
    OverwriteNext(s, at, v, k);
    dst[at + k] := x;
  }

  method BitsToBytesOf(bits: seq<Bit>) returns (bytesOut: seq<Byte>)
    ensures bytesOut == BitsToBytes(bits)
  {
    var n := (|bits| + 7) / 8;
    var out := new Byte[n];
    for i := 0 to n
      invariant forall k :: 0 <= k < i ==> out[k] == 0
    {
      out[i] := 0;
    }
    assert out[..] == Packing(bits, 0);
    for i := 0 to |bits|
      invariant out[..] == Packing(bits, i)
    {
      PackingNext(bits, i);
      out[i / 8] := out[i / 8] | BitByte(bits[i], i % 8);
    }
    PackingComplete(bits);
    bytesOut := out[..];
  }

  /** How many of the bits of byte `k` the first `i` bits hold. */
  ghost function Filled(i: nat, k: nat): (f: nat)
    ensures f <= 8
  {
    if i <= 8 * k then 0 else if i - 8 * k < 8 then i - 8 * k else 8
  }

  /** The output bytes when the first `i` bits have been OR-ed in. */
  ghost function Packing(bits: seq<Bit>, i: nat): seq<Byte> {
    seq((|bits| + 7) / 8, k requires 0 <= k < (|bits| + 7) / 8 => PackBits(bits[8 * k..], Filled(i, k)))
  }

  lemma PackingNext(bits: seq<Bit>, i: nat)
    requires i < |bits|
    ensures var p := Packing(bits, i);
            Packing(bits, i + 1) == p[i / 8 := p[i / 8] | BitByte(bits[i], i % 8)]
  {
    hide Filled, PackBits;
    var p, q, k := Packing(bits, i), Packing(bits, i + 1), i / 8;
    forall j | 0 <= j < |q| ensures q[j] == p[k := p[k] | BitByte(bits[i], i % 8)][j] {
      FilledNext(i, j);
      if j == k {
        PackOne(bits[8 * k..], i % 8, bits[i]);
      }
    }
  }

  lemma FilledNext(i: nat, j: nat)
    ensures Filled(i + 1, j) == if j == i / 8 then Filled(i, j) + 1 else Filled(i, j)
    ensures Filled(i, i / 8) == i % 8
  {
  }

  lemma PackOne(bits: seq<Bit>, n: nat, b: Bit)
    requires n < 8 && n < |bits| && bits[n] == b
    ensures PackBits(bits, n + 1) == PackBits(bits, n) | BitByte(b, n)
  {
  }

  lemma PackingComplete(bits: seq<Bit>)
    ensures Packing(bits, |bits|) == BitsToBytes(bits)
  {
    forall k | 0 <= k < (|bits| + 7) / 8 ensures PackBits(bits[8 * k..], Filled(|bits|, k)) == PackedByte(bits, k) {
      PackBitsPadded(bits[8 * k..], Filled(|bits|, k));
    }
  }

  lemma {:induction false} PackBitsPadded(bits: seq<Bit>, n: nat)
    requires n <= 8 && (n == 8 || |bits| <= n)
    ensures PackBits(bits, n) == PackBits(bits, 8)
    decreases 8 - n
  {
    if n < 8 {
      PackBitsPadded(bits, n + 1);
    }
  }
}
