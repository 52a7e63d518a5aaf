/** SHA-1 and HMAC-SHA1 (FIPS 180-4, RFC 2104). */
module Sha1 {
  import opened Bits
  import opened Octets
  import opened Sequences

  type Word = bv32

  // ---------- The block function ----------

  datatype Chain = Chain(a: Word, b: Word, c: Word, d: Word, e: Word)

  const INITIAL := Chain(0x6745_2301, 0xEFCD_AB89, 0x98BA_DCFE, 0x1032_5476, 0xC3D2_E1F0)

  function Rol(x: Word, n: nat): Word
    requires 0 < n < 32
  {
    (x << n) | (x >> (32 - n))
  }

  function BigEndian(x: Byte, y: Byte, z: Byte, w: Byte): Word {
    ((x as Word) << 24) | ((y as Word) << 16) | ((z as Word) << 8) | (w as Word)
  }

  function Mix(x: Word, y: Word, z: Word, w: Word): Word {
    Rol(x ^ y ^ z ^ w, 1)
  }

  /** Word `i` of the message schedule. */
  function Schedule(p: Bytes64, i: nat): Word
    requires i < 80
  {
    if i < 16 then BigEndian(p[4 * i], p[4 * i + 1], p[4 * i + 2], p[4 * i + 3])
    else Mix(Schedule(p, i - 3), Schedule(p, i - 8), Schedule(p, i - 14), Schedule(p, i - 16))
  }

  function Logic(i: nat, b: Word, c: Word, d: Word): Word {
    if i < 20 then (b & c) | (!b & d)
    else if i < 40 then b ^ c ^ d
    else if i < 60 then (b & c) | (b & d) | (c & d)
    else b ^ c ^ d
  }

  function Constant(i: nat): Word {
    if i < 20 then 0x5A82_7999 else if i < 40 then 0x6ED9_EBA1 else if i < 60 then 0x8F1B_BCDC else 0xCA62_C1D6
  }

  function Stirred(s: Chain, w: Word, i: nat): Word {
    Rol(s.a, 5) + Logic(i, s.b, s.c, s.d) + s.e + Constant(i) + w
  }

  function Round(s: Chain, w: Word, i: nat): Chain {
    Chain(Stirred(s, w, i), s.a, Rol(s.b, 30), s.c, s.d)
  }

  function Rounds(s: Chain, p: Bytes64, i: nat): Chain
    requires i <= 80
  {
    if i == 0 then s else Round(Rounds(s, p, i - 1), Schedule(p, i - 1), i - 1)
  }

  function Sum(s: Chain, t: Chain): Chain {
    Chain(s.a + t.a, s.b + t.b, s.c + t.c, s.d + t.d, s.e + t.e)
  }

  function Compress(h: Chain, p: Bytes64): Chain
  {
    Sum(h, Rounds(h, p, 80))
  }

  method Block(h: Chain, p: Bytes64) returns (next: Chain)
    ensures next == Compress(h, p)
  {
    hide BigEndian, Mix, Round, Sum;
    var w := new Word[80];
    for i := 0 to 16
      invariant forall j: nat :: j < i ==> w[j] == Schedule(p, j)
    {
      w[i] := BigEndian(p[i * 4], p[i * 4 + 1], p[i * 4 + 2], p[i * 4 + 3]);
    }
    for i := 16 to 80
      invariant forall j: nat :: j < i ==> w[j] == Schedule(p, j)
    {
      w[i] := Mix(w[i - 3], w[i - 8], w[i - 14], w[i - 16]);
    }
    var s := h;
    for i := 0 to 80
      invariant s == Rounds(h, p, i)
    {
      s := Round(s, w[i], i);
    }
    next := Sum(h, s);
  }

  // ---------- The hash of a whole message ----------

  /** The chaining value after the first `k` blocks. */
  function Chained(m: seq<Byte>, k: nat): Chain
    requires 64 * k <= |m|
  {
    if k == 0 then INITIAL else Compress(Chained(m, k - 1), m[64 * (k - 1)..64 * k])
  }

  /** 64 bits, most significant byte first. */
  function Length64(bits: nat): (bytes: seq<Byte>)
    ensures |bytes| == 8
  {
    [Low8(bits / 0x100_0000_0000_0000), Low8(bits / 0x1_0000_0000_0000), Low8(bits / 0x100_0000_0000),
     Low8(bits / 0x1_0000_0000), Low8(bits / 0x100_0000), Low8(bits / 0x1_0000), Low8(bits / 0x100), Low8(bits)]
  }

  /** How many zeros bring the length and the marker byte to 56 modulo 64. */
  function PadZeros(length: nat): (k: nat)
    ensures k < 64 && (length + 1 + k) % 64 == 56 && (length + 1 + k + 8) % 64 == 0
  {
    (119 - length % 64) % 64
  }

  /** Padding as in section 5.1.1 of FIPS 180-4: to whole blocks, with as little as it can. */
  function Padded(m: seq<Byte>): (p: seq<Byte>)
    ensures |p| == |m| + 1 + PadZeros(|m|) + 8
    ensures |p| % 64 == 0 && |p| < |m| + 9 + 64
  {
    m + [0x80] + Copies(0 as Byte, PadZeros(|m|)) + Length64(8 * |m| % 0x1_0000_0000_0000_0000)
  }

  /** Bytes as a number, the first one most significant. */
  function BigEndianNumber(bytes: seq<Byte>): nat {
    if bytes == [] then 0 else 256 * BigEndianNumber(bytes[..|bytes| - 1]) + bytes[|bytes| - 1] as int
  }

  lemma NumberSnoc(bytes: seq<Byte>, b: Byte)
    ensures BigEndianNumber(bytes + [b]) == 256 * BigEndianNumber(bytes) + b as int
  {
    assert (bytes + [b])[..|bytes|] == bytes;
  }

  lemma NextOctet(v: nat)
    ensures 256 * (v / 256) + Low8(v) as int == v
  {
    Low8Value(v);
  }

  /** Dividing by 256 again and again. */
  lemma Quotients(v: nat)
    ensures v / 0x100 / 256 == v / 0x1_0000 && v / 0x1_0000 / 256 == v / 0x100_0000
    ensures v / 0x100_0000 / 256 == v / 0x1_0000_0000
  {
  }

  lemma HighQuotients(v: nat)
    ensures v / 0x1_0000_0000 / 256 == v / 0x100_0000_0000
    ensures v / 0x100_0000_0000 / 256 == v / 0x1_0000_0000_0000
    ensures v / 0x1_0000_0000_0000 / 256 == v / 0x100_0000_0000_0000
  {
  }

  /** One more byte: the number goes from `v / 256` to `v`. */
  lemma OctetRead(b: seq<Byte>, n: nat, v: nat)
    requires n < |b| && BigEndianNumber(b[..n]) == v / 256 && b[n] == Low8(v)
    ensures BigEndianNumber(b[..n + 1]) == v
  {
    hide Low8, BigEndianNumber;
    NextOctet(v);
    NumberSnoc(b[..n], b[n]);
    assert b[..n] + [b[n]] == b[..n + 1];
  }

  lemma UpperHalf(v: nat)
    requires v < 0x1_0000_0000_0000_0000
    ensures BigEndianNumber(Length64(v)[..4]) == v / 0x1_0000_0000
  {
    hide Low8, BigEndianNumber;
    var b := Length64(v);
    NumberOfNone();
    assert b[..0] == [] && v / 0x100_0000_0000_0000 / 256 == 0;
    HighQuotients(v);
    OctetRead(b, 0, v / 0x100_0000_0000_0000);
    OctetRead(b, 1, v / 0x1_0000_0000_0000);
    OctetRead(b, 2, v / 0x100_0000_0000);
    OctetRead(b, 3, v / 0x1_0000_0000);
  }

  /** The first byte is the most significant one. */
  lemma LengthNumber(v: nat)
    requires v < 0x1_0000_0000_0000_0000
    ensures BigEndianNumber(Length64(v)) == v
  {
    hide Low8, BigEndianNumber;
    var b := Length64(v);
    UpperHalf(v);
    Quotients(v);
    OctetRead(b, 4, v / 0x100_0000);
    OctetRead(b, 5, v / 0x1_0000);
    OctetRead(b, 6, v / 0x100);
    OctetRead(b, 7, v);
    assert b[..8] == b;
  }

  lemma NumberOfNone()
    ensures BigEndianNumber([]) == 0
  {
  }

  /** Padding, in full: the message, the byte 0x80, zeros, and in the last eight bytes the
      number of bits modulo 2^64, most significant byte first; whole blocks, with fewer
      than 64 zeros. */
  lemma PaddedIs(m: seq<Byte>)
    ensures var p := Padded(m);
            && |p| % 64 == 0 && |m| + 9 <= |p| < |m| + 73 && p[..|m|] == m && p[|m|] == 0x80
            && (forall k: nat :: |m| < k < |p| - 8 ==> p[k] == 0)
            && BigEndianNumber(p[|p| - 8..]) == 8 * |m| % 0x1_0000_0000_0000_0000
  {
    hide Length64, Low8;
    var p := Padded(m);
    var bits := 8 * |m| % 0x1_0000_0000_0000_0000;
    assert p[|p| - 8..] == Length64(bits);
    LengthNumber(bits);
  }

  function WordBytes(x: Word): Bytes4 {
    [(x >> 24) as Byte, ((x >> 16) & 0xFF) as Byte, ((x >> 8) & 0xFF) as Byte, (x & 0xFF) as Byte]
  }

  function ChainBytes(h: Chain): Bytes20 {
    WordBytes(h.a) + WordBytes(h.b) + WordBytes(h.c) + WordBytes(h.d) + WordBytes(h.e)
  }

  function Digest(m: seq<Byte>): Bytes20 {
    ChainBytes(Chained(Padded(m), |Padded(m)| / 64))
  }

  /** Appending bytes does not disturb the blocks already there. */
  lemma {:induction false} ChainedPrefix(m: seq<Byte>, t: seq<Byte>, k: nat)
    requires 64 * k <= |m|
    ensures Chained(m + t, k) == Chained(m, k)
  {
    hide Compress;
    if k > 0 {
      ChainedPrefix(m, t, k - 1);
      assert (m + t)[64 * (k - 1)..64 * k] == m[64 * (k - 1)..64 * k];
    }
  }

  lemma ChainedNext(m: seq<Byte>, k: nat)
    requires 64 * (k + 1) <= |m|
    ensures Chained(m, k + 1) == Compress(Chained(m, k), m[64 * k..64 * (k + 1)])
  {
    hide Compress;
  }

  // ---------- Streaming ----------

  class Context {
    var h: Chain
    var len: nat
    const buf: array<Byte>
    var n: nat
    /** The bytes hashed so far. */
    ghost var seen: seq<Byte>

    constructor ()
      ensures Valid() && fresh(buf) && seen == []
    {
      h := INITIAL;
      len := 0;
      buf := new Byte[64];
      n := 0;
      seen := [];
      new;
      hide Holds, Buffered, Chained, Compress, Sum, Rounds, Round, Schedule;
      HoldsNothing(buf[..]);
      assert Holds(seen, h, len, buf[..], n);
    }

    ghost predicate Valid()
      reads this, buf
    {
      buf.Length == 64 && Holds(seen, h, len, buf[..], n)
    }

    method Update(p: seq<Byte>)
      requires Valid()
      modifies this, buf
      ensures Valid() && seen == old(seen) + p
    {
      hide Compress, Chained;
      LengthAfter(|seen|, |p|);
      len := (len + 8 * |p|) % 0x1_0000_0000_0000_0000;
      AbsorbAll(p);
    }

    /** The loop of an update: fill the buffer, compress it when full. */
    method AbsorbAll(p: seq<Byte>)
      requires buf.Length == 64 && Buffered(seen, h, buf[..], n) && n < 64
      modifies this`h, this`n, this`seen, buf
      ensures Buffered(seen, h, buf[..], n) && seen == old(seen) + p
    {
      hide Compress, Chained, Buffered;
      ghost var m := seen;
      var done := 0;
      while done < |p|
        invariant 0 <= done <= |p| && seen == m + p[..done] && n < 64
        invariant Buffered(seen, h, buf[..], n)
      {
        var k := 64 - n;
        if k > |p| - done {
          k := |p| - done;
        }
        NextStretch(m, p, done, done + k);
        Absorb(p[done..done + k]);
        done := done + k;
      }
      assert p[..|p|] == p;
    }

    /** Bytes that fit the rest of the buffer. */
    method Absorb(q: seq<Byte>)
      requires buf.Length == 64 && Buffered(seen, h, buf[..], n) && n + |q| <= 64
      modifies this`h, this`n, this`seen, buf
      ensures Buffered(seen, h, buf[..], n) && n < 64 && seen == old(seen) + q
    {
      hide Compress, Chained;
      ghost var m, was := seen, buf[..];
      Copy(buf, n, q);
      BufferedAppend(m, h, was, n, q, buf[..]);
      n := n + |q|;
      seen := seen + q;
      if n == 64 {
        h := Block(h, buf[..]);
        n := 0;
      }
    }

    method Final() returns (out: seq<Byte>)
      requires Valid()
      modifies this, buf
      ensures out == Digest(old(seen))
    {
      hide Compress, Chained, Length64, ChainBytes, PadZeros;
      ghost var m := seen;
      var bits := len;
      Update([0x80]);
      ghost var zeros := 0;
      assert m + [0x80] + Copies(0 as Byte, 0) == m + [0x80];
      while n != 56
        invariant Valid() && zeros <= PadZeros(|m|) && seen == m + [0x80] + Copies(0 as Byte, zeros)
        decreases PadZeros(|m|) - zeros
      {
        MoreZeros(|m|, zeros);
        Update([0]);
        assert Copies(0 as Byte, zeros + 1) == Copies(0 as Byte, zeros) + [0];
        zeros := zeros + 1;
      }
      EnoughZeros(|m|, zeros);
      Update(Length64(bits));
      assert seen == Padded(m);
      out := ChainBytes(h);
    }
  }

  /** The context after hashing `m`: whole blocks compressed, the rest buffered. */
  ghost predicate Holds(m: seq<Byte>, h: Chain, len: nat, buf: Bytes64, n: nat)
  {
    Buffered(m, h, buf, n) && len == 8 * |m| % 0x1_0000_0000_0000_0000
  }

  lemma NextStretch(m: seq<Byte>, p: seq<Byte>, i: nat, j: nat)
    requires i <= j <= |p|
    ensures (m + p[..i]) + p[i..j] == m + p[..j]
  {
  }

  lemma HoldsNothing(buf: Bytes64)
    ensures Holds([], INITIAL, 0, buf, 0)
  {
    hide Chained;
    var m: seq<Byte> := [];
    ChainedNone(m);
    assert |m| / 64 == 0 && |m| % 64 == 0;
    assert buf[..0] == m && m[0..] == m;
  }

  lemma ChainedNone(m: seq<Byte>)
    ensures Chained(m, 0) == INITIAL
  {
    hide Compress;
  }

  ghost predicate Buffered(m: seq<Byte>, h: Chain, buf: Bytes64, n: nat)
  {
    n == |m| % 64 && buf[..n] == m[64 * (|m| / 64)..] && h == Chained(m, |m| / 64)
  }

  lemma LengthAfter(a: nat, b: nat)
    ensures (8 * a % 0x1_0000_0000_0000_0000 + 8 * b) % 0x1_0000_0000_0000_0000 == 8 * (a + b) % 0x1_0000_0000_0000_0000
  {
  }

  /** The buffer after a copy: a whole block, or still the tail of the message. */
  lemma BufferedAppend(m: seq<Byte>, h: Chain, buf: Bytes64, n: nat, q: seq<Byte>, next: Bytes64)
    requires Buffered(m, h, buf, n) && n + |q| <= 64 && next == Overwrite(buf, n, q)
    ensures n + |q| < 64 ==> Buffered(m + q, h, next, n + |q|)
    ensures n + |q| == 64 ==> Buffered(m + q, Compress(h, next), next, 0)
  {
    hide Compress, Chained;
    var k := |m| / 64;
    var tail := m[64 * k..];
    assert |m| == 64 * k + n;
    assert next[..n + |q|] == tail + q;
    assert (m + q)[64 * k..] == tail + q;
    ChainedPrefix(m, q, k);
    if n + |q| == 64 {
      assert |m + q| / 64 == k + 1 && |m + q| % 64 == 0;
      ChainedNext(m + q, k);
      assert (m + q)[64 * k..64 * (k + 1)] == next;
      assert next[..0] == (m + q)[64 * (k + 1)..];
    } else {
      assert |m + q| / 64 == k && |m + q| % 64 == n + |q|;
    }
  }

  lemma MoreZeros(length: nat, zeros: nat)
    requires zeros <= PadZeros(length) && (length + 1 + zeros) % 64 != 56
    ensures zeros < PadZeros(length)
  {
  }

  lemma EnoughZeros(length: nat, zeros: nat)
    requires zeros <= PadZeros(length) && (length + 1 + zeros) % 64 == 56
    ensures zeros == PadZeros(length)
  {
  }

  /** `sha1`: one update, then final. */
  method Hash(data: seq<Byte>) returns (out: seq<Byte>)
    ensures out == Digest(data)
  {
    var c := new Context();
    c.Update(data);
    assert [] + data == data;
    out := c.Final();
  }

  /** However the message is split across updates, the digest is that of the whole. */
  method HashChunks(chunks: seq<seq<Byte>>) returns (out: seq<Byte>)
    ensures out == Digest(Flatten(chunks))
  {
    hide Digest, Buffered;
    var c := new Context();
    for i := 0 to |chunks|
      invariant c.Valid() && c.seen == Flatten(chunks[..i]) && fresh(c) && fresh(c.buf)
    {
      assert chunks[..i + 1][..i] == chunks[..i];
      c.Update(chunks[i]);
    }
    assert chunks[..|chunks|] == chunks;
    out := c.Final();
  }

  // ---------- HMAC ----------

  /** The key, or the digest of a long one, padded with zeros to a block. */
  function BlockKey(key: seq<Byte>): Bytes64 {
    var short := if |key| > 64 then Digest(key) else key;
    short + Copies(0 as Byte, 64 - |short|)
  }

  function XorAll(k: seq<Byte>, pad: Byte): (x: seq<Byte>)
    ensures |x| == |k|
  {
    seq(|k|, i requires 0 <= i < |k| => k[i] ^ pad)
  }

  /** Section 2 of RFC 2104. */
  function Hmac(key: seq<Byte>, msg: seq<Byte>): Bytes20 {
    Digest(XorAll(BlockKey(key), 0x5c) + Digest(XorAll(BlockKey(key), 0x36) + msg))
  }

  method KeyBlock(key: seq<Byte>) returns (k: seq<Byte>)
    ensures k == BlockKey(key)
  {
    hide Digest;
    var out := new Byte[64](_ => 0);
    if |key| > 64 {
      var d := Hash(key);
      Copy(out, 0, d);
    } else {
      Copy(out, 0, key);
    }
    k := out[..];
  }

  method PadKey(k: Bytes64, pad: Byte) returns (x: seq<Byte>)
    ensures x == XorAll(k, pad)
  {
    var out := new Byte[64];
    for i := 0 to 64
      invariant forall j: nat :: j < i ==> out[j] == k[j] ^ pad
    {
      out[i] := k[i] ^ pad;
    }
    x := out[..];
  }

  /** The digest of a key block and what follows it, in two updates. */
  method HashTwo(a: seq<Byte>, b: seq<Byte>) returns (out: seq<Byte>)
    ensures out == Digest(a + b)
  {
    hide Digest, Buffered;
    var c := new Context();
    c.Update(a);
    assert [] + a == a;
    c.Update(b);
    out := c.Final();
  }

  method HmacSha1(key: seq<Byte>, msg: seq<Byte>) returns (out: seq<Byte>)
    ensures out == Hmac(key, msg)
  {
    hide Digest, XorAll, BlockKey;
    var k := KeyBlock(key);
    var ipad := PadKey(k, 0x36);
    var opad := PadKey(k, 0x5c);
    var inner := HashTwo(ipad, msg);
    out := HashTwo(opad, inner);
  }

  /** A long key stands for its digest, and zero bytes at the end of a short one do
      not count. */
  lemma KeysAlike(key: seq<Byte>, msg: seq<Byte>, zeros: nat)
    ensures |key| > 64 ==> Hmac(key, msg) == Hmac(Digest(key), msg)
    ensures |key| + zeros <= 64 ==> Hmac(key + Copies(0 as Byte, zeros), msg) == Hmac(key, msg)
  {
    hide Digest, XorAll;
    if |key| + zeros <= 64 {
      assert key + Copies(0 as Byte, zeros) + Copies(0 as Byte, 64 - |key| - zeros)
          == key + Copies(0 as Byte, 64 - |key|);
    }
  }

  // ---------- Padding tells messages apart ----------

  /** Index of the last marker byte. */
  function LastMarker(x: seq<Byte>): int {
    if x == [] then -1 else if x[|x| - 1] == 0x80 then |x| - 1 else LastMarker(x[..|x| - 1])
  }

  lemma {:induction false} MarkerIsLast(m: seq<Byte>, j: nat)
    ensures LastMarker(m + [0x80] + Copies(0 as Byte, j)) == |m|
  {
    var x := m + [0x80] + Copies(0 as Byte, j);
    if j > 0 {
      MarkerIsLast(m, j - 1);
      assert x[..|x| - 1] == m + [0x80] + Copies(0 as Byte, j - 1);
    }
  }

  /** Different messages have different paddings, whatever their lengths. */
  lemma PaddingIsInjective(m: seq<Byte>, t: seq<Byte>)
    requires Padded(m) == Padded(t)
    ensures m == t
  {
    hide Length64, PadZeros;
    var p, q := Padded(m), Padded(t);
    assert p[..|p| - 8] == m + [0x80] + Copies(0 as Byte, PadZeros(|m|));
    assert q[..|q| - 8] == t + [0x80] + Copies(0 as Byte, PadZeros(|t|));
    MarkerIsLast(m, PadZeros(|m|));
    MarkerIsLast(t, PadZeros(|t|));
    assert m == p[..|m|] && t == q[..|t|];
  }

  /** The two passes: the digests of a block and what follows it, where the block of the
      inner pass is the key XORed with 0x36 throughout, and that of the outer one with
      0x5c; the key is followed by zeros, and a key of more than 64 bytes is its digest. */
  lemma HmacIsTwoPasses(key: seq<Byte>, msg: seq<Byte>) returns (inner: seq<Byte>, outer: seq<Byte>)
    ensures |inner| == |outer| == 64 && Hmac(key, msg) == Digest(outer + Digest(inner + msg))
    ensures var k := if |key| <= 64 then key else Digest(key);
            forall i: nat :: i < 64 ==>
              && inner[i] == (if i < |k| then k[i] else 0) ^ 0x36
              && outer[i] == (if i < |k| then k[i] else 0) ^ 0x5c
  {
    hide Digest;
    inner, outer := XorAll(BlockKey(key), 0x36), XorAll(BlockKey(key), 0x5c);
  }

  // ---------- Block after block ----------

  /** The blocks taken off the front, one after the other. */
  function Folded(h: Chain, m: seq<Byte>): Chain
    requires |m| % 64 == 0
    decreases |m|
  {
    if m == [] then h else Folded(Compress(h, m[..64]), m[64..])
  }

  lemma {:induction false} FoldedSnoc(h: Chain, m: seq<Byte>, p: Bytes64)
    requires |m| % 64 == 0
    ensures Folded(h, m + p) == Compress(Folded(h, m), p)
    decreases |m|
  {
    hide Compress;
    if m == [] {
      assert m + p == p && p[..64] == p && p[64..] == [];
    } else {
      assert (m + p)[..64] == m[..64] && (m + p)[64..] == m[64..] + p;
      FoldedSnoc(Compress(h, m[..64]), m[64..], p);
    }
  }

  lemma {:induction false} ChainedIsFolded(m: seq<Byte>, k: nat)
    requires 64 * k <= |m|
    ensures Chained(m, k) == Folded(INITIAL, m[..64 * k])
  {
    hide Compress;
    if k > 0 {
      ChainedIsFolded(m, k - 1);
      assert m[..64 * k] == m[..64 * (k - 1)] + m[64 * (k - 1)..64 * k];
      FoldedSnoc(INITIAL, m[..64 * (k - 1)], m[64 * (k - 1)..64 * k]);
    } else {
      assert m[..0] == [];
    }
  }

  /** A digest is what the blocks of the padded message make of the initial value, each
      from what the one before it has made. */
  lemma DigestIsFolded(m: seq<Byte>)
    ensures Digest(m) == ChainBytes(
              Folded(Chain(0x6745_2301, 0xEFCD_AB89, 0x98BA_DCFE, 0x1032_5476, 0xC3D2_E1F0), Padded(m)))
  {
    hide Compress, Padded, ChainBytes, Folded;
    var p := Padded(m);
    ChainedIsFolded(p, |p| / 64);
    assert p[..64 * (|p| / 64)] == p;
  }
}
