/** Conversion between 49 raw AMBE bits and the 72 bits on air. */
module Ambe {
  import opened Bits
  import opened Distance
  import opened Golay

  // ---------- The frame ----------
  //
  // The source keeps a frame in a 4 x 24 matrix: C0 (24 bits), C1 (23), C2 (11)
  // and C3 (14).  Flattened row by row, each row from its highest column down,
  // the 72 cells in use are one word.

  /** A cell of the flat frame, or a bit on air. */
  type Cell = u: nat | u < 72

  /** A pair of bits on air. */
  type Pair = i: nat | i < 36

  type MatrixRow = r: nat | r < 4
  type MatrixColumn = c: nat | c < 24

  function RowOf(u: Cell): MatrixRow {
    if u < 24 then 0 else if u < 47 then 1 else if u < 58 then 2 else 3
  }

  function ColumnOf(u: Cell): MatrixColumn {
    if u < 24 then 23 - u else if u < 47 then 46 - u else if u < 58 then 57 - u else 71 - u
  }

  ghost function Flat(fr: array2<Bit>): Bits72
    requires fr.Length0 == 4 && fr.Length1 == 24
    reads fr
  {
    seq(72, u requires 0 <= u < 72 reads fr => fr[RowOf(u), ColumnOf(u)])
  }

  lemma FlatAt(fr: array2<Bit>, u: Cell)
    requires fr.Length0 == 4 && fr.Length1 == 24
    ensures Flat(fr)[u] == fr[RowOf(u), ColumnOf(u)]
  {
  }

  /** C0 and C1 are Golay words, C2 and C3 are raw. */
  function Frame(d: Bits49): Bits72 {
    LowBits(Extended(WordOf(d[..12]))) + LowBits(Encode(WordOf(d[12..24])))[..23] + d[24..]
  }

  /** The twelve bits that seed the scrambler, first one highest. */
  function Seed(f: seq<Bit>, n: nat): nat
    requires n <= |f|
  {
    if n == 0 then 0 else 2 * Seed(f, n - 1) + f[n - 1] as int
  }

  /** The congruential sequence. */
  function Sequence(seed: nat, n: nat): nat {
    if n == 0 then seed else (173 * Sequence(seed, n - 1) + 13849) % 65536
  }

  function Noise(seed: nat, n: nat): Bit {
    if Sequence(seed, n) / 32768 == 1 then 1 else 0
  }

  /** XOR C1 with the pseudo-random bits that C0 seeds. */
  function Demodulated(f: Bits72): Bits72 {
    seq(72, u requires 0 <= u < 72 =>
      if 24 <= u < 47 then f[u] ^ Noise(16 * Seed(f, 12), u - 23) else f[u])
  }

  // ---------- The interleaver ----------

  // The four tables, six entries a row.
  const R_W: seq<seq<nat>> := [
    [0,1,0,1,0,1], [0,1,0,1,0,1], [0,1,0,1,0,1],
    [0,1,0,1,0,2], [0,2,0,2,0,2], [0,2,0,2,0,2]]
  const R_X: seq<seq<nat>> := [
    [23,10,22,9,21,8], [20,7,19,6,18,5], [17,4,16,3,15,2],
    [14,1,13,0,12,10], [11,9,10,8,9,7], [8,6,7,5,6,4]]
  const R_Y: seq<seq<nat>> := [
    [0,2,0,2,0,2], [0,2,0,3,0,3], [1,3,1,3,1,3],
    [1,3,1,3,1,3], [1,3,1,3,1,3], [1,3,1,3,1,3]]
  const R_Z: seq<seq<nat>> := [
    [5,3,4,2,3,1], [2,0,1,13,0,12], [22,11,21,10,20,9],
    [19,8,18,7,17,6], [16,5,15,4,14,3], [13,2,12,1,11,0]]

  /** Where bit `k` on air sits in the flat frame: a block interleave by four. */
  function Source(k: Cell): Cell {
    18 * (k % 4) + k / 4
  }

  function Target(u: Cell): Cell {
    4 * (u % 18) + u / 18
  }

  lemma SourceTarget(u: Cell)
    ensures Source(Target(u)) == u && Target(Source(u)) == u
  {
    hide Source, Target;
    SourceOfTarget(u);
    TargetOfSource(u);
  }

  lemma SourceOfTarget(u: Cell)
    ensures Source(Target(u)) == u
  {
    var q, r := u / 18, u % 18;
    assert (4 * r + q) % 4 == q && (4 * r + q) / 4 == r;
  }

  lemma TargetOfSource(k: Cell)
    ensures Target(Source(k)) == k
  {
    var q, r := k / 4, k % 4;
    assert (18 * r + q) % 18 == q && (18 * r + q) / 18 == r;
  }

  // Entry `i` of each table.

  function W(i: Pair): MatrixRow {
    R_W[i / 6][i % 6]
  }

  function X(i: Pair): MatrixColumn {
    R_X[i / 6][i % 6]
  }

  function Y(i: Pair): MatrixRow {
    R_Y[i / 6][i % 6]
  }

  function Z(i: Pair): MatrixColumn {
    R_Z[i / 6][i % 6]
  }

  lemma TableW(r: nat, c: nat)
    requires r < 6 && c < 6
    ensures R_W[r][c] == RowOf(Source(12 * r + 2 * c))
  {
  }

  lemma TableX(r: nat, c: nat)
    requires r < 6 && c < 6
    ensures R_X[r][c] == ColumnOf(Source(12 * r + 2 * c))
  {
  }

  lemma TableY(r: nat, c: nat)
    requires r < 6 && c < 6
    ensures R_Y[r][c] == RowOf(Source(12 * r + 2 * c + 1))
  {
  }

  lemma TableZ(r: nat, c: nat)
    requires r < 6 && c < 6
    ensures R_Z[r][c] == ColumnOf(Source(12 * r + 2 * c + 1))
  {
  }

  function Interleaved(f: Bits72): Bits72 {
    seq(72, k requires 0 <= k < 72 => f[Source(k)])
  }

  function Deinterleaved(x: Bits72): Bits72 {
    seq(72, u requires 0 <= u < 72 => x[Target(u)])
  }

  // ---------- The conversions ----------

  function Extracted(f: Bits72): Bits49 {
    f[..12] + f[24..36] + f[47..]
  }

  function To72(d: Bits49): Bits72 {
    Interleaved(Demodulated(Frame(d)))
  }

  function To49(x: Bits72): Bits49 {
    Extracted(Demodulated(Deinterleaved(x)))
  }

  // ---------- Round trips ----------

  lemma InterleaveInverse(f: Bits72)
    ensures Deinterleaved(Interleaved(f)) == f && Interleaved(Deinterleaved(f)) == f
  {
    forall u | 0 <= u < 72
      ensures Deinterleaved(Interleaved(f))[u] == f[u] && Interleaved(Deinterleaved(f))[u] == f[u]
    {
      SourceTarget(u);
    }
  }

  lemma {:induction false} SeedOfPrefix(f: seq<Bit>, g: seq<Bit>, n: nat)
    requires n <= |f| && n <= |g| && forall i :: 0 <= i < n ==> f[i] == g[i]
    ensures Seed(f, n) == Seed(g, n)
  {
    if n > 0 {
      SeedOfPrefix(f, g, n - 1);
    }
  }

  /** The scrambler is its own inverse: it leaves its seed alone. */
  lemma DemodulateInvolution(f: Bits72)
    ensures Demodulated(Demodulated(f)) == f
  {
    hide Noise;
    var g := Demodulated(f);
    SeedOfPrefix(f, g, 12);
    forall u | 0 <= u < 72 ensures Demodulated(g)[u] == f[u] {
    }
  }

  lemma ExtractFrame(d: Bits49)
    ensures Extracted(Frame(d)) == d
  {
    hide Encode, Extended, BitOf;
    var f := Frame(d);
    forall k: nat | k < 12 ensures f[..12][k] == d[k] && f[24..36][k] == d[12..24][k] {
      EncodeKeepsData(d[..12], k);
      EncodeKeepsData(d[12..24], k);
      FrameAt(d, k);
      FrameAt(d, 24 + k);
      assert f[24..36][k] == f[24 + k] && d[12..24][k] == d[12 + k];
    }
    assert f[..12] == d[..12];
    assert f[24..36] == d[12..24];
    assert f[47..] == d[24..];
    assert Extracted(f) == d[..12] + d[12..24] + d[24..] == d;
  }

  /** 49 bits survive the trip to 72 bits and back. */
  lemma AmbeRoundTrip(d: Bits49)
    ensures To49(To72(d)) == d
  {
    hide Frame, Demodulated, Interleaved, Deinterleaved;
    InterleaveInverse(Demodulated(Frame(d)));
    DemodulateInvolution(Frame(d));
    ExtractFrame(d);
  }

  // ---------- The scrambler sequence ----------

  /** The first twelve bits of a frame as a number, the first one highest. */
  function SeedNumber(f: Bits72): nat {
    2048 * (f[0] as int) + 1024 * (f[1] as int) + 512 * (f[2] as int) + 256 * (f[3] as int) + 128 * (f[4] as int)
    + 64 * (f[5] as int) + 32 * (f[6] as int) + 16 * (f[7] as int) + 8 * (f[8] as int) + 4 * (f[9] as int)
    + 2 * (f[10] as int) + f[11] as int
  }

  lemma SeedIsNumber(f: Bits72)
    ensures Seed(f, 12) == SeedNumber(f)
  {
    TwoBits(f, 0);
    TwoBits(f, 2);
    TwoBits(f, 4);
    TwoBits(f, 6);
    TwoBits(f, 8);
    TwoBits(f, 10);
  }

  lemma TwoBits(f: Bits72, n: nat)
    requires n <= 70
    ensures Seed(f, n + 2) == 4 * Seed(f, n) + 2 * (f[n] as int) + f[n + 1] as int
  {
    assert Seed(f, n + 1) == 2 * Seed(f, n) + f[n] as int;
  }

  function Power(b: nat, n: nat): nat {
    if n == 0 then 1 else b * Power(b, n - 1)
  }

  /** `1 + 173 + ... + 173^(n - 1)`. */
  function Geometric(n: nat): nat {
    if n == 0 then 0 else 173 * Geometric(n - 1) + 1
  }

  lemma {:induction false} GeometricSum(n: nat)
    ensures 172 * Geometric(n) == Power(173, n) - 1
  {
    if n > 0 {
      GeometricSum(n - 1);
    }
  }

  lemma StepModulo(x: nat, y: nat)
    requires y == x % 65536
    ensures (173 * y + 13849) % 65536 == (173 * x + 13849) % 65536
  {
    var q := x / 65536;
    assert 173 * x + 13849 == 173 * y + 13849 + 65536 * (173 * q);
    SameRemainder(173 * y + 13849, 173 * q);
  }

  lemma SameRemainder(x: nat, k: nat)
    ensures (x + 65536 * k) % 65536 == x % 65536
  {
  }

  lemma {:induction false} SequenceClosed(seed: nat, n: nat)
    requires seed < 65536
    ensures Sequence(seed, n) == (Power(173, n) * seed + 13849 * Geometric(n)) % 65536
  {
    if n > 0 {
      SequenceClosed(seed, n - 1);
      var p, g := Power(173, n - 1), Geometric(n - 1);
      var x := p * seed + 13849 * g;
      StepModulo(x, Sequence(seed, n - 1));
      Distribute(p, seed, g);
    }
  }

  lemma Distribute(p: nat, seed: nat, g: nat)
    ensures 173 * (p * seed + 13849 * g) + 13849 == (173 * p) * seed + 13849 * (173 * g + 1)
  {
    assert 173 * (p * seed) == (173 * p) * seed;
  }

  /** What the scrambler does, in closed form: with `s` the number in the first twelve
      bits, it flips bit `n` of C1, counted from 1, if and only if the n-th number of the
      congruential sequence from `16 s` is at least 32768, and touches nothing else. */
  lemma ScramblerFlips(f: Bits72, n: nat)
    requires 1 <= n <= 23
    ensures Demodulated(f)[23 + n] != f[23 + n] <==>
            (Power(173, n) * (16 * SeedNumber(f)) + 13849 * ((Power(173, n) - 1) / 172)) % 65536 >= 32768
    ensures Demodulated(f)[..24] == f[..24] && Demodulated(f)[47..] == f[47..]
  {
    hide Seed, Sequence, Power, Geometric, SeedNumber;
    SeedIsNumber(f);
    SeedBelow(f);
    var seed := 16 * SeedNumber(f);
    SequenceClosed(seed, n);
    GeometricSum(n);
    assert (Power(173, n) - 1) / 172 == Geometric(n);
    NoiseIsHighBit(seed, n);
  }

  lemma SeedBelow(f: Bits72)
    ensures SeedNumber(f) < 4096
  {
  }

  lemma NoiseIsHighBit(seed: nat, n: nat)
    requires Sequence(seed, n) < 65536
    ensures Noise(seed, n) == 1 <==> Sequence(seed, n) >= 32768
  {
    hide Sequence;
  }

  // ---------- Re-encoding ----------

  /** C0 holds a Golay codeword with its parity bit. */
  ghost predicate ValidC0(f: Bits72)
  {
    exists w: bv32 :: IsCodeword(w) && f[..24] == LowBits(Extend(w))
  }

  /** C1 holds a Golay codeword. */
  ghost predicate ValidC1(f: Bits72)
  {
    exists w: bv32 :: IsCodeword(w) && f[24..47] == LowBits(w)[..23]
  }

  lemma ValidC0IsEncoding(f: Bits72)
    ensures ValidC0(f) <==> f[..24] == LowBits(Extended(WordOf(f[..12])))
  {
    hide IsCodeword, Encode, BitOf, HasData, Extend;
    var d := f[..12];
    if ValidC0(f) {
      var w: bv32 :| IsCodeword(w) && f[..24] == LowBits(Extend(w));
      forall k: nat | k < 12 ensures d[k] == BitOf(w, k) {
        assert f[..24][k] == BitOf(Extend(w), k);
        CodewordExtension(w, k);
      }
      CodewordOfItsBits(w, d);
    } else {
      EncodeIsCodeword(WordOf(d));
    }
  }

  /** The parity bit does not disturb the codeword. */
  lemma CodewordExtension(w: bv32, k: nat)
    requires IsCodeword(w) && k < 23
    ensures BitOf(Extend(w), k) == BitOf(w, k)
  {
    hide IsCodeword, Encode, BitOf, HasData, Parity;
    CodewordBound(w);
    ExtendBits(w, Parity(w), k);
  }

  lemma CodewordBound(w: bv32)
    requires IsCodeword(w)
    ensures w <= 0x7F_FFFF
  {
    hide IsCodeword, Encode;
    CodewordUnique(w, w);
    EncodeBound(w);
  }

  lemma ValidC1IsEncoding(f: Bits72)
    ensures ValidC1(f) <==> f[24..47] == LowBits(Encode(WordOf(f[24..36])))[..23]
  {
    hide IsCodeword, Encode, BitOf, HasData;
    var d := f[24..36];
    if ValidC1(f) {
      var w: bv32 :| IsCodeword(w) && f[24..47] == LowBits(w)[..23];
      forall k: nat | k < 12 ensures d[k] == BitOf(w, k) {
        assert f[24..47][k] == BitOf(w, k);
      }
      CodewordOfItsBits(w, d);
    } else {
      EncodeIsCodeword(WordOf(d));
    }
  }

  lemma ReframeFixes(f: Bits72)
    ensures Frame(Extracted(f)) == f <==> ValidC0(f) && ValidC1(f)
  {
    hide Encode, LowBits, ValidC0, ValidC1, Extended;
    ValidC0IsEncoding(f);
    ValidC1IsEncoding(f);
    var d, g := Extracted(f), Frame(Extracted(f));
    assert d[..12] == f[..12] && d[12..24] == f[24..36] && d[24..] == f[47..];
    assert f == f[..24] + f[24..47] + f[47..];
    assert g[..24] == LowBits(Extended(WordOf(f[..12]))) && g[24..47] == LowBits(Encode(WordOf(f[24..36])))[..23];
  }

  /** Decoding and encoding again changes nothing exactly when C0 is a Golay
      codeword with correct parity and the descrambled C1 a Golay codeword. */
  lemma ReencodeIsProjection(x: Bits72)
    ensures var f := Demodulated(Deinterleaved(x));
            To72(To49(x)) == x <==> ValidC0(f) && ValidC1(f)
  {
    hide Frame, Demodulated, Interleaved, Deinterleaved, ValidC0, ValidC1, Extracted;
    var g := Deinterleaved(x);
    var f := Demodulated(g);
    ReframeFixes(f);
    InterleaveInverse(x);
    DemodulateInvolution(g);
    InterleaveInverse(Demodulated(Frame(Extracted(f))));
    DemodulateInvolution(Frame(Extracted(f)));
  }

  // ---------- Distance ----------

  ghost function Targets(): (p: seq<nat>)
    ensures |p| == 24
  {
    seq(24, u requires 0 <= u < 24 => Target(u))
  }

  lemma C0Scatters(d: Bits49)
    ensures Scatters(Targets(), LowBits(Extended(WordOf(d[..12]))), To72(d))
  {
    hide LowBits, Extended, Encode, Noise, Source;
    var p := Targets();
    forall u: nat | u < 24 ensures p[u] < 72 && Source(p[u]) == u {
      SourceTarget(u);
    }
    forall u: nat | u < 24 ensures To72(d)[p[u]] == Frame(d)[u] {
      assert To72(d)[p[u]] == Demodulated(Frame(d))[Source(p[u])];
    }
  }

  lemma {:induction false} WordsDiffer(d: seq<Bit>, e: seq<Bit>)
    requires |d| == |e| == 12 && d != e
    ensures (WordOf(d) ^ WordOf(e)) & 0xFFF != 0
  {
    hide BitOf, WordOf;
    var k: nat :| k < 12 && d[k] != e[k];
    WordBits(d, k);
    WordBits(e, k);
    XorNotZero(WordOf(d), WordOf(e), k);
  }

  lemma XorNotZero(a: bv32, b: bv32, k: nat)
    requires k < 12 && BitOf(a, k) != BitOf(b, k)
    ensures (a ^ b) & 0xFFF != 0
  {
    hide BitOf;
    BitOfXor(a, b, k);
    NotZero(a ^ b, k);
  }

  lemma NotZero(w: bv32, k: nat)
    requires k < 12 && BitOf(w, k) == 1
    ensures w & 0xFFF != 0
  {
    match k { case 0 => case 1 => case 2 => case 3 => case 4 => case 5 => case 6 =>
              case 7 => case 8 => case 9 => case 10 => case _ => }
  }

  /** Frames that differ in their first twelve bits are eight bits apart on air. */
  lemma AmbeDistance(d: Bits49, e: Bits49)
    requires d[..12] != e[..12]
    ensures Dist(To72(d), To72(e)) >= 8
  {
    hide To72, LowBits, Extended, WordOf, Dist, Scatters, Targets;
    WordsDiffer(d[..12], e[..12]);
    ExtendedDistance(WordOf(d[..12]), WordOf(e[..12]));
    C0Scatters(d);
    C0Scatters(e);
    ScatterKeepsDistance(Targets(), LowBits(Extended(WordOf(d[..12]))), LowBits(Extended(WordOf(e[..12]))),
                         To72(d), To72(e));
  }

  /** The second Golay word, before scrambling. */
  function C1(d: Bits49): (bits: seq<Bit>)
    ensures |bits| == 23
  {
    LowBits(Encode(WordOf(d[12..24])))[..23]
  }

  function Scrambled(bits: seq<Bit>, seed: nat): (r: seq<Bit>)
    ensures |r| == |bits|
  {
    seq(|bits|, k requires 0 <= k < |bits| => bits[k] ^ Noise(seed, k + 1))
  }

  lemma ScramblingKeepsDistance(a: seq<Bit>, b: seq<Bit>, seed: nat)
    requires |a| == |b|
    ensures Dist(Scrambled(a, seed), Scrambled(b, seed)) == Dist(a, b)
  {
    hide Noise;
    var u, v := Scrambled(a, seed), Scrambled(b, seed);
    forall k: nat | k < |a| ensures u[k] != v[k] <==> a[k] != b[k] {
      assert u[k] == a[k] ^ Noise(seed, k + 1) && v[k] == b[k] ^ Noise(seed, k + 1);
    }
    assert Differing(u, v) == Differing(a, b);
  }

  /** Without its parity bit a Golay word is at least seven bits from any other. */
  lemma GolayWordDistance(x: bv32, y: bv32)
    requires (x ^ y) & 0xFFF != 0
    ensures Dist(LowBits(Encode(x))[..23], LowBits(Encode(y))[..23]) >= 7
  {
    hide Extended, Dist, Encode, BitOf;
    ExtendedDistance(x, y);
    var a, b := LowBits(Extended(x)), LowBits(Extended(y));
    assert a[..23] == LowBits(Encode(x))[..23] && b[..23] == LowBits(Encode(y))[..23] by {
      forall k: nat | k < 23 ensures a[k] == LowBits(Encode(x))[k] && b[k] == LowBits(Encode(y))[k] {
        ExtendedBit(x, k);
        ExtendedBit(y, k);
      }
    }
    DistInit(a, b);
  }

  ghost function C1Targets(): (p: seq<nat>)
    ensures |p| == 23
  {
    seq(23, k requires 0 <= k < 23 => Target(24 + k))
  }

  lemma C1Scatters(d: Bits49)
    ensures Scatters(C1Targets(), Scrambled(C1(d), 16 * Seed(Frame(d), 12)), To72(d))
  {
    hide LowBits, Extended, Encode, Noise, Source, WordOf, Seed;
    var p := C1Targets();
    forall k: nat | k < 23 ensures p[k] < 72 && Source(p[k]) == 24 + k {
      SourceTarget(24 + k);
    }
    forall k: nat | k < 23 ensures To72(d)[p[k]] == Scrambled(C1(d), 16 * Seed(Frame(d), 12))[k] {
      assert To72(d)[p[k]] == Demodulated(Frame(d))[Source(p[k])];
      assert Frame(d)[24 + k] == C1(d)[k];
    }
  }

  lemma SameSeed(d: Bits49, e: Bits49)
    requires d[..12] == e[..12]
    ensures Seed(Frame(d), 12) == Seed(Frame(e), 12)
  {
    hide LowBits, Extended, Encode, WordOf, Seed;
    SeedOfPrefix(Frame(d), Frame(e), 12);
  }

  /** Frames that agree in their first twelve bits share the scrambler sequence; those
      that then differ in the next twelve are seven bits apart on air. */
  lemma AmbeSecondDistance(d: Bits49, e: Bits49)
    requires d[..12] == e[..12] && d[12..24] != e[12..24]
    ensures Dist(To72(d), To72(e)) >= 7
  {
    hide To72, LowBits, Encode, WordOf, Dist, Scatters, C1Targets, Seed, Frame, Scrambled;
    WordsDiffer(d[12..24], e[12..24]);
    GolayWordDistance(WordOf(d[12..24]), WordOf(e[12..24]));
    SameSeed(d, e);
    var seed := 16 * Seed(Frame(d), 12);
    ScramblingKeepsDistance(C1(d), C1(e), seed);
    C1Scatters(d);
    C1Scatters(e);
    ScatterKeepsDistance(C1Targets(), Scrambled(C1(d), seed), Scrambled(C1(e), seed), To72(d), To72(e));
  }

  // ---------- Where the bits are ----------

  /** Bit `u` of the flat frame on air. */
  lemma OnAirAt(d: Bits49, u: Cell)
    ensures To72(d)[4 * (u % 18) + u / 18] == Demodulated(Frame(d))[u]
  {
    hide Frame, Demodulated, Source;
    SourceTarget(u);
    assert Target(u) == 4 * (u % 18) + u / 18;
    assert Interleaved(Demodulated(Frame(d)))[Target(u)] == Demodulated(Frame(d))[Source(Target(u))];
  }

  /** The first twelve bits of the data as a number, the first one highest. */
  function DataNumber(d: Bits49): nat {
    2048 * (d[0] as int) + 1024 * (d[1] as int) + 512 * (d[2] as int) + 256 * (d[3] as int) + 128 * (d[4] as int)
    + 64 * (d[5] as int) + 32 * (d[6] as int) + 16 * (d[7] as int) + 8 * (d[8] as int) + 4 * (d[9] as int)
    + 2 * (d[10] as int) + d[11] as int
  }

  lemma FrameData(d: Bits49, k: nat)
    requires k < 49
    ensures Frame(d)[if k < 12 then k else if k < 24 then 12 + k else 23 + k] == d[k]
  {
    hide Encode, Extended, BitOf;
    FrameAt(d, if k < 12 then k else if k < 24 then 12 + k else 23 + k);
    if k < 12 {
      EncodeKeepsData(d[..12], k);
    } else if k < 24 {
      EncodeKeepsData(d[12..24], k - 12);
    }
  }

  /** Data bit `k` and its place on air.  The first twelve and the last 25 are sent as they
      are; of the twelve between, bit `11 + n` is flipped exactly when the n-th number of
      the congruential sequence of the first twelve says so. */
  ghost predicate SentAs(x: Bits72, d: Bits49, k: nat)
    requires k < 49
  {
    if k < 12 then x[4 * (k % 18) + k / 18] == d[k]
    else if k < 24 then
      x[4 * ((12 + k) % 18) + (12 + k) / 18] != d[k] <==>
      (Power(173, k - 11) * (16 * DataNumber(d)) + 13849 * ((Power(173, k - 11) - 1) / 172)) % 65536 >= 32768
    else
      x[4 * ((23 + k) % 18) + (23 + k) / 18] == d[k]
  }

  /** Where every data bit goes. */
  lemma DataOnAir(d: Bits49, k: nat)
    requires k < 49
    ensures SentAs(To72(d), d, k)
  {
    hide Frame, Demodulated, To72, Power, DataNumber, SeedNumber;
    var f := Frame(d);
    FrameData(d, k);
    OnAirAt(d, if k < 12 then k else if k < 24 then 12 + k else 23 + k);
    if 12 <= k < 24 {
      ScramblerFlips(f, k - 11);
      SameNumber(d);
    } else {
      ScramblerFlips(f, 1);
      assert k < 12 ==> Demodulated(f)[..24][k] == f[..24][k];
      assert k >= 24 ==> Demodulated(f)[47..][k - 24] == f[47..][k - 24];
    }
  }

  /** Where every data bit is read, in valid and damaged frames alike. */
  lemma DataFromAir(x: Bits72, k: nat)
    requires k < 49
    ensures SentAs(x, To49(x), k)
  {
    hide Demodulated, Deinterleaved, To49, Power, DataNumber, SeedNumber;
    var f := Deinterleaved(x);
    var u := if k < 12 then k else if k < 24 then 12 + k else 23 + k;
    ReceivedAt(x, u);
    ReadFrom(x, k);
    if 12 <= k < 24 {
      ScramblerFlips(f, k - 11);
      ReadNumber(x);
    } else {
      ScramblerFlips(f, 1);
      assert k < 12 ==> Demodulated(f)[..24][k] == f[..24][k];
      assert k >= 24 ==> Demodulated(f)[47..][k - 24] == f[47..][k - 24];
    }
  }

  lemma ReceivedAt(x: Bits72, u: Cell)
    ensures Deinterleaved(x)[u] == x[4 * (u % 18) + u / 18]
  {
    assert Target(u) == 4 * (u % 18) + u / 18;
  }

  lemma ReadFrom(x: Bits72, k: nat)
    requires k < 49
    ensures To49(x)[k] == Demodulated(Deinterleaved(x))[if k < 12 then k else if k < 24 then 12 + k else 23 + k]
  {
    hide Demodulated, Deinterleaved;
  }

  lemma ReadNumber(x: Bits72)
    ensures SeedNumber(Deinterleaved(x)) == DataNumber(To49(x))
  {
    hide Demodulated, Deinterleaved, To49;
    var f := Deinterleaved(x);
    ScramblerFlips(f, 1);
    forall k: nat | k < 12 ensures f[k] == To49(x)[k] {
      ReadFrom(x, k);
      assert Demodulated(f)[..24][k] == f[..24][k];
    }
  }

  lemma SameNumber(d: Bits49)
    ensures SeedNumber(Frame(d)) == DataNumber(d)
  {
    hide Frame;
    forall k: nat | k < 12 ensures Frame(d)[k] == d[k] {
      FrameData(d, k);
    }
  }

  // ---------- The conversions as the source computes them ----------

  lemma LowestBit(w: bv32)
    ensures BitOf(w, 0) == (w & 1) as Bit
  {
  }

  /** Collect bits into a word, the first one lowest. */
  method ShiftIn(d: seq<Bit>) returns (tmp: bv32)
    ensures tmp == WordOf(d)
  {
    tmp := 0;
    for i := |d| downto 0
      invariant tmp == WordOf(d[i..])
    {
      assert d[i..][1..] == d[i + 1..];
      tmp := (tmp << 1) | (d[i] as bv32);
    }
    assert d[0..] == d;
  }

  /** `tmp` is `w` shifted right by `n`. */
  ghost predicate Shifted(tmp: bv32, w: bv32, n: nat) {
    forall k: nat :: k + n < 24 ==> BitOf(tmp, k) == BitOf(w, k + n)
  }

  lemma ShiftedNext(tmp: bv32, w: bv32, n: nat)
    requires Shifted(tmp, w, n)
    ensures Shifted(tmp >> 1, w, n + 1)
    ensures n < 24 ==> (tmp & 1) as Bit == BitOf(w, n)
  {
    hide BitOf;
    var next := tmp >> 1;
    forall k: nat | k + (n + 1) < 24 ensures BitOf(next, k) == BitOf(w, k + (n + 1)) {
      BitOfShift(tmp, k);
      assert BitOf(tmp, k + 1) == BitOf(w, (k + 1) + n);
    }
    LowestBit(tmp);
    assert n < 24 ==> BitOf(tmp, 0) == BitOf(w, 0 + n);
  }

  /** Write the low `n` bits of `w` into columns `n - 1` down to 0 of a row. */
  method ShiftOut(fr: array2<Bit>, row: nat, n: nat, w: bv32)
    requires fr.Length0 == 4 && fr.Length1 == 24 && row < 4 && n <= 24
    modifies fr
    ensures forall j: nat :: j < n ==> fr[row, j] == BitOf(w, n - 1 - j)
    ensures forall r: nat, c: nat :: r < 4 && c < 24 && (r != row || c >= n) ==> fr[r, c] == old(fr[r, c])
  {
    hide BitOf;
    var tmp := w;
    assert Shifted(tmp, w, 0);
    hide Shifted;
    for i := n downto 0
      invariant forall j: nat :: i <= j < n ==> fr[row, j] == BitOf(w, n - 1 - j)
      invariant forall r: nat, c: nat :: r < 4 && c < 24 && (r != row || c >= n) ==> fr[r, c] == old(fr[r, c])
      invariant Shifted(tmp, w, n - i)
    {
      ShiftedNext(tmp, w, n - 1 - i);
      fr[row, i] := (tmp & 1) as Bit;
      tmp := tmp >> 1;
    }
  }

  method Clear(fr: array2<Bit>)
    modifies fr
    ensures forall r: nat, c: nat :: r < fr.Length0 && c < fr.Length1 ==> fr[r, c] == 0
  {
    for r := 0 to fr.Length0
      invariant forall r': nat, c: nat :: r' < r && c < fr.Length1 ==> fr[r', c] == 0
    {
      for c := 0 to fr.Length1
        invariant forall r': nat, c': nat :: r' < r && c' < fr.Length1 ==> fr[r', c'] == 0
        invariant forall c': nat :: c' < c ==> fr[r, c'] == 0
      {
        fr[r, c] := 0;
      }
    }
  }

  method FramesFrom49(d: Bits49, fr: array2<Bit>)
    requires fr.Length0 == 4 && fr.Length1 == 24
    modifies fr
    ensures Flat(fr) == Frame(d)
  {
    hide Encode, Parity, BitOf, WordOf;
    Clear(fr);
    var tmp := ShiftIn(d[..12]);
    tmp := Golay2312(tmp);
    tmp := Extend(tmp);
    ghost var c0 := tmp;
    ShiftOut(fr, 0, 24, tmp);
    tmp := ShiftIn(d[12..24]);
    tmp := Golay2312(tmp);
    ghost var c1 := tmp;
    ShiftOut(fr, 1, 23, tmp);
    CopyReversed(fr, 2, 11, d, 34);
    CopyReversed(fr, 3, 14, d, 48);
    forall u | 0 <= u < 72 ensures Flat(fr)[u] == Frame(d)[u] {
      FrameAt(d, u);
      if u < 24 {
      } else if u < 47 {
      } else if u < 58 {
        assert fr[2, 57 - u] == d[u - 23];
      } else {
        assert fr[3, 71 - u] == d[u - 23];
      }
    }
  }

  lemma FrameAt(d: Bits49, u: Cell)
    ensures Frame(d)[u] == if u < 24 then BitOf(Extend(Encode(WordOf(d[..12]))), u)
                           else if u < 47 then BitOf(Encode(WordOf(d[12..24])), u - 24)
                           else d[u - 23]
  {
    hide Encode, Extend, BitOf, WordOf;
  }

  /** Raw bits: column `j` of the row gets `d[top - j]`. */
  method CopyReversed(fr: array2<Bit>, row: nat, n: nat, d: seq<Bit>, top: nat)
    requires fr.Length0 == 4 && fr.Length1 == 24 && row < 4 && n <= 24 && n <= top + 1 && top < |d|
    modifies fr
    ensures forall j: nat :: j < n ==> fr[row, j] == d[top - j]
    ensures forall r: nat, c: nat :: r < 4 && c < 24 && r != row ==> fr[r, c] == old(fr[r, c])
  {
    for j := n downto 0
      invariant forall k: nat :: j <= k < n ==> fr[row, k] == d[top - k]
      invariant forall r: nat, c: nat :: r < 4 && c < 24 && r != row ==> fr[r, c] == old(fr[r, c])
    {
      fr[row, j] := d[top - j];
    }
  }

  lemma SequenceNext(seed: nat, n: nat)
    ensures Sequence(seed, 0) == seed
    ensures var v := 173 * Sequence(seed, n) + 13849;
            Sequence(seed, n + 1) == v - 65536 * (v / 65536)
  {
  }

  /** The pseudo-random bits for a seed: entry 0 is unused. */
  method PseudoRandom(foo: nat) returns (pr: array<int>)
    ensures fresh(pr) && pr.Length == 115
    ensures forall i: nat :: 1 <= i < 24 ==> pr[i] == Sequence(16 * foo, i) / 32768
  {
    hide Sequence;
    pr := new int[115];
    ghost var seed := 16 * foo;
    pr[0] := 16 * foo;
    SequenceNext(seed, 0);
    for i := 1 to 24
      invariant forall j: nat :: j < i ==> pr[j] == Sequence(seed, j)
    {
      SequenceNext(seed, i - 1);
      var v := 173 * pr[i - 1] + 13849;
      pr[i] := v - 65536 * (v / 65536);
    }
    for i := 1 to 24
      invariant forall j: nat :: 1 <= j < i ==> pr[j] == Sequence(seed, j) / 32768
      invariant forall j: nat :: i <= j < 24 ==> pr[j] == Sequence(seed, j)
    {
      pr[i] := pr[i] / 32768;
    }
  }

  /** Cell `u` of the frame when the columns from `j` up have been descrambled. */
  ghost function PartlyDemodulated(f: Bits72, j: nat, u: Cell): Bit {
    if 24 <= u < 47 && j + u < 47 then f[u] ^ Noise(16 * Seed(f, 12), u - 23) else f[u]
  }

  method ReadSeed(fr: array2<Bit>) returns (foo: nat)
    requires fr.Length0 == 4 && fr.Length1 == 24
    ensures foo == Seed(Flat(fr), 12)
  {
    foo := 0;
    for i := 24 downto 12
      invariant foo == Seed(Flat(fr), 24 - i)
    {
      assert Flat(fr)[23 - i] == fr[0, i];
      foo := 2 * foo + fr[0, i] as int;
    }
  }

  method DemodulateInPlace(fr: array2<Bit>)
    requires fr.Length0 == 4 && fr.Length1 == 24
    modifies fr
    ensures Flat(fr) == Demodulated(old(Flat(fr)))
  {
    hide Sequence, Seed;
    ghost var f := Flat(fr);
    var foo := ReadSeed(fr);
    var pr := PseudoRandom(foo);
    var k := 1;
    forall u: nat | u < 72 ensures fr[RowOf(u), ColumnOf(u)] == PartlyDemodulated(f, 23, u) {
      assert f[u] == fr[RowOf(u), ColumnOf(u)];
    }
    for j := 23 downto 0
      invariant k == 24 - j
      invariant forall i: nat :: 1 <= i < 24 ==> pr[i] == Sequence(16 * foo, i) / 32768
      invariant forall u: nat :: u < 72 ==> fr[RowOf(u), ColumnOf(u)] == PartlyDemodulated(f, j, u)
    {
      forall u: nat | u < 72 && u != 46 - j
        ensures (RowOf(u), ColumnOf(u)) != (1, j) && PartlyDemodulated(f, j, u) == PartlyDemodulated(f, j + 1, u)
      {
      }
      assert RowOf(46 - j) == 1 && ColumnOf(46 - j) == j;
      assert fr[1, j] == PartlyDemodulated(f, j + 1, 46 - j) == f[46 - j];
      fr[1, j] := fr[1, j] ^ (if pr[k] == 1 then 1 else 0);
      k := k + 1;
    }
    forall u: nat | u < 72 ensures Flat(fr)[u] == Demodulated(f)[u] {
      assert Flat(fr)[u] == fr[RowOf(u), ColumnOf(u)];
    }
  }

  method EccExtract49(fr: array2<Bit>) returns (d: seq<Bit>)
    requires fr.Length0 == 4 && fr.Length1 == 24
    ensures d == Extracted(Flat(fr))
  {
    ghost var f := Flat(fr);
    d := [];
    for j := 24 downto 12
      invariant d == f[..24 - j]
    {
      assert f[23 - j] == fr[0, j];
      d := d + [fr[0, j]];
    }
    for j := 23 downto 11
      invariant d == f[..12] + f[24..47 - j]
    {
      assert f[46 - j] == fr[1, j];
      d := d + [fr[1, j]];
    }
    for j := 11 downto 0
      invariant d == f[..12] + f[24..36] + f[47..58 - j]
    {
      assert f[57 - j] == fr[2, j];
      d := d + [fr[2, j]];
    }
    for j := 14 downto 0
      invariant d == f[..12] + f[24..36] + f[47..72 - j]
    {
      assert f[71 - j] == fr[3, j];
      d := d + [fr[3, j]];
    }
    assert f[47..72] == f[47..];
  }

  /** The tables address bits `2 * i` and `2 * i + 1` on air. */
  lemma Tables(i: Pair)
    ensures W(i) == RowOf(Source(2 * i)) && X(i) == ColumnOf(Source(2 * i))
    ensures Y(i) == RowOf(Source(2 * i + 1)) && Z(i) == ColumnOf(Source(2 * i + 1))
  {
    hide Source, RowOf, ColumnOf;
    TableW(i / 6, i % 6);
    TableX(i / 6, i % 6);
    TableY(i / 6, i % 6);
    TableZ(i / 6, i % 6);
    assert 12 * (i / 6) + 2 * (i % 6) == 2 * i;
  }

  lemma InterleavedNext(f: Bits72, i: Pair)
    ensures Interleaved(f)[..2 * (i + 1)] == Interleaved(f)[..2 * i] + [f[Source(2 * i)], f[Source(2 * i + 1)]]
  {
    hide Source;
  }

  method AmbeEncode49To72(in49: Bits49) returns (out72: seq<Bit>)
    ensures out72 == To72(in49)
  {
    hide Demodulated, Frame, Source, W, X, Y, Z, RowOf, ColumnOf, Interleaved, Flat;
    var fr := new Bit[4, 24];
    FramesFrom49(in49, fr);
    DemodulateInPlace(fr);
    ghost var f := Flat(fr);
    out72 := [];
    for i := 0 to 36
      invariant f == Flat(fr) && out72 == Interleaved(f)[..2 * i]
    {
      Tables(i);
      InterleavedNext(f, i);
      FlatAt(fr, Source(2 * i));
      FlatAt(fr, Source(2 * i + 1));
      out72 := out72 + [fr[W(i), X(i)], fr[Y(i), Z(i)]];
    }
  }

  lemma CellsDistinct(k: Cell, l: Cell)
    requires k != l
    ensures (RowOf(Source(k)), ColumnOf(Source(k))) != (RowOf(Source(l)), ColumnOf(Source(l)))
  {
    hide Source, Target;
    SourceTarget(k);
    SourceTarget(l);
    assert Source(k) != Source(l);
  }

  method AmbeDecode72To49(in72: Bits72) returns (out49: seq<Bit>)
    ensures out49 == To49(in72)
  {
    hide Demodulated, Source, Target, RowOf, ColumnOf, W, X, Y, Z;
    var fr := new Bit[4, 24];
    Clear(fr);
    for i := 0 to 36
      invariant forall k: nat :: k < 2 * i ==> fr[RowOf(Source(k)), ColumnOf(Source(k))] == in72[k]
    {
      Tables(i);
      forall k: nat | k < 2 * i + 1 ensures
        (RowOf(Source(k)), ColumnOf(Source(k))) != (RowOf(Source(2 * i + 1)), ColumnOf(Source(2 * i + 1))) {
        CellsDistinct(k, 2 * i + 1);
      }
      forall k: nat | k < 2 * i ensures
        (RowOf(Source(k)), ColumnOf(Source(k))) != (RowOf(Source(2 * i)), ColumnOf(Source(2 * i))) {
        CellsDistinct(k, 2 * i);
      }
      fr[W(i), X(i)] := in72[2 * i];
      fr[Y(i), Z(i)] := in72[2 * i + 1];
    }
    forall u: nat | u < 72 ensures Flat(fr)[u] == Deinterleaved(in72)[u] {
      SourceTarget(u);
      assert fr[RowOf(Source(Target(u))), ColumnOf(Source(Target(u)))] == in72[Target(u)];
    }
    assert Flat(fr) == Deinterleaved(in72);
    DemodulateInPlace(fr);
    out49 := EccExtract49(fr);
  }
}
