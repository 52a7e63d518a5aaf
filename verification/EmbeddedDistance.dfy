/** Distances of the embedded link-control words: eight as a matrix, seven on air,
    where one bit of the matrix is sent twice and one never. */
module EmbeddedDistance {
  import opened Bits
  import opened Distance
  import opened ParityCheck
  import opened Hamming
  import opened Bptc
  import opened EmbeddedLc

  // ---------- The matrix as a code ----------

  function Cell(r: nat, c: nat): Cell128
    requires r < 8 && c < 16
  {
    16 * r + c
  }

  function MatrixRow(m: Bits128, r: nat): Bits16
    requires r < 8
  {
    m[16 * r..16 * r + 16]
  }

  /** The XOR of column `c`. */
  function ColumnXor(m: Bits128, c: nat): Bit
    requires c < 16
  {
    m[c] ^ m[c + 16] ^ m[c + 32] ^ m[c + 48] ^ m[c + 64] ^ m[c + 80] ^ m[c + 96] ^ m[c + 112]
  }

  /** Seven Hamming(16,11) rows above a row that makes every column even. */
  ghost predicate IsEmbeddedCodeword(m: seq<Bit>) {
    && |m| == 128
    && (forall r: nat :: r < 7 ==> InCode(H16, MatrixRow(m, r)))
    && (forall c: nat :: c < 16 ==> ColumnXor(m, c) == 0)
  }

  lemma {:induction false} CodeRows16Slice(raw: Bits77, n: nat, r: nat)
    requires r < n <= 7
    ensures CodeRows16(raw, n)[16 * r..16 * r + 16] == CodeRow16(raw, r)
  {
    hide Ham16114;
    if r < n - 1 {
      CodeRows16Slice(raw, n - 1, r);
      assert CodeRows16(raw, n)[16 * r..16 * r + 16] == CodeRows16(raw, n - 1)[16 * r..16 * r + 16];
    }
  }

  lemma MatrixRows(raw: Bits77, r: nat)
    requires r < 7
    ensures MatrixRow(Matrix(raw), r) == CodeRow16(raw, r)
  {
    hide Ham16114, ColumnParity;
    CodeRows16Slice(raw, 7, r);
    var rows := CodeRows16(raw, 7);
    assert Matrix(raw)[16 * r..16 * r + 16] == rows[16 * r..16 * r + 16];
  }

  lemma MatrixIsCodeword(raw: Bits77)
    ensures IsEmbeddedCodeword(Matrix(raw))
  {
    hide Ham16114, InCode, CodeRows16;
    forall r: nat | r < 7 ensures InCode(H16, MatrixRow(Matrix(raw), r)) {
      MatrixRows(raw, r);
      Ham16114InCode(DataRow16(raw, r));
    }
    forall c: nat | c < 16 ensures ColumnXor(Matrix(raw), c) == 0 {
      assert Matrix(raw)[c + 112] == ColumnParity(CodeRows16(raw, 7), c);
    }
  }

  /** In an even column, a difference has company. */
  lemma SecondDifference(m: seq<Bit>, m': seq<Bit>, r: nat, c: nat) returns (s: nat)
    requires IsEmbeddedCodeword(m) && IsEmbeddedCodeword(m') && r < 8 && c < 16
    requires m[Cell(r, c)] != m'[Cell(r, c)]
    ensures s < 8 && s != r && m[Cell(s, c)] != m'[Cell(s, c)]
  {
    hide InCode;
    assert ColumnXor(m, c) == ColumnXor(m', c);
    s := if r != 0 && m[c] != m'[c] then 0
         else if r != 1 && m[c + 16] != m'[c + 16] then 1
         else if r != 2 && m[c + 32] != m'[c + 32] then 2
         else if r != 3 && m[c + 48] != m'[c + 48] then 3
         else if r != 4 && m[c + 64] != m'[c + 64] then 4
         else if r != 5 && m[c + 80] != m'[c + 80] then 5
         else if r != 6 && m[c + 96] != m'[c + 96] then 6
         else 7;
  }

  // ---------- What is sent ----------

  /** The matrix read column by column. */
  function ByColumns(m: Bits128): Bits128 {
    seq(128, k requires 0 <= k < 128 => m[Cell(k % 8, k / 8)])
  }

  /** The 128 embedded bits on air: the fragments of bursts B to E in turn. */
  function OnAir(fragments: seq<seq<Byte>>): Bits128
    requires |fragments| == 4 && forall seg :: 0 <= seg < 4 ==> |fragments[seg]| == 4
  {
    BytesToBits(fragments[0]) + BytesToBits(fragments[1]) + BytesToBits(fragments[2]) + BytesToBits(fragments[3])
  }

  /** The fragments are the matrix by columns, with bit 24 in place of bit 25. */
  lemma OnAirByColumns(lc: Bytes9)
    ensures OnAir(EncodeEmb(lc)) == ByColumns(Buffer(lc))[73 := Buffer(lc)[24]]
  {
    hide EmblcIdx, OnAir, EncodeEmb, Buffer;
    var m := Buffer(lc);
    forall k | 0 <= k < 128 ensures OnAir(EncodeEmb(lc))[k] == ByColumns(m)[73 := m[24]][k] {
      OnAirAt(lc, k);
      EmblcIdxFormula(k);
    }
  }

  lemma OnAirAt(lc: Bytes9, k: Cell128)
    ensures EmblcIdx(k) < 128 && OnAir(EncodeEmb(lc))[k] == Buffer(lc)[EmblcIdx(k)]
  {
    hide Buffer, EmblcIdx, BytesToBits, BitsToBytes;
    EmblcIdxFormula(k);
    BitsRoundTrip(SegmentBits(Buffer(lc), k / 32));
    assert OnAir(EncodeEmb(lc))[k] == BytesToBits(EncodeEmb(lc)[k / 32])[k % 32];
  }

  /** A difference at `i`, counted. */
  ghost function DiffersAt(a: seq<Bit>, b: seq<Bit>, i: nat): nat
    requires i < |a| && i < |b|
  {
    if a[i] != b[i] then 1 else 0
  }

  lemma DistAway(a: seq<Bit>, b: seq<Bit>, i: nat)
    requires |a| == |b| && i < |a|
    ensures Dist(a, b) == |Differing(a, b) - {i}| + DiffersAt(a, b, i)
  {
    if a[i] != b[i] {
      assert Differing(a, b) == (Differing(a, b) - {i}) + {i};
    } else {
      assert Differing(a, b) == Differing(a, b) - {i};
    }
  }

  /** Overwriting one position trades the difference there for another. */
  lemma OneOverwrite(a: seq<Bit>, b: seq<Bit>, i: nat, x: Bit, y: Bit)
    requires |a| == |b| && i < |a|
    ensures Dist(a[i := x], b[i := y]) + DiffersAt(a, b, i) == Dist(a, b) + if x != y then 1 else 0
  {
    hide Dist;
    DistAway(a, b, i);
    DistAway(a[i := x], b[i := y], i);
    assert Differing(a[i := x], b[i := y]) - {i} == Differing(a, b) - {i};
  }

  lemma InsertedInjective<T>(s: seq<T>, t: seq<T>, pos: nat, v: T, v': T)
    requires |s| == |t| && pos <= |s| && Inserted(s, pos, v) == Inserted(t, pos, v')
    ensures s == t
  {
    var a, b := Inserted(s, pos, v), Inserted(t, pos, v');
    assert s == a[..pos] + a[pos + 1..];
    assert t == b[..pos] + b[pos + 1..];
  }

  lemma WithChecksumInjective(s: Bits72, t: Bits72, c: seq<Bit>, c': seq<Bit>)
    requires |c| == |c'| == 5 && WithChecksum(s, c) == WithChecksum(t, c')
    ensures s == t
  {
    hide Inserted;
    var s0, t0 := Inserted(s, 32, c[0]), Inserted(t, 32, c'[0]);
    var s1, t1 := Inserted(s0, 43, c[1]), Inserted(t0, 43, c'[1]);
    var s2, t2 := Inserted(s1, 54, c[2]), Inserted(t1, 54, c'[2]);
    var s3, t3 := Inserted(s2, 65, c[3]), Inserted(t2, 65, c'[3]);
    InsertedInjective(s3, t3, 76, c[4], c'[4]);
    InsertedInjective(s2, t2, 65, c[3], c'[3]);
    InsertedInjective(s1, t1, 54, c[2], c'[2]);
    InsertedInjective(s0, t0, 43, c[1], c'[1]);
    InsertedInjective(s, t, 32, c[0], c'[0]);
  }

  lemma DifferentMatrixRow(lc: Bytes9, lc': Bytes9) returns (r: nat)
    requires lc != lc'
    ensures r < 7 && MatrixRow(Buffer(lc), r) != MatrixRow(Buffer(lc'), r)
  {
    hide Matrix, Ham16114, Csum5, MatrixRow, WithChecksum, CodeRow16;
    var raw := WithChecksum(BytesToBits(lc), CsumBits(Csum5(lc)));
    var raw' := WithChecksum(BytesToBits(lc'), CsumBits(Csum5(lc')));
    assert raw != raw' by {
      if raw == raw' {
        WithChecksumInjective(BytesToBits(lc), BytesToBits(lc'), CsumBits(Csum5(lc)), CsumBits(Csum5(lc')));
        BytesRoundTrip(lc);
        BytesRoundTrip(lc');
      }
    }
    var k: nat :| k < 77 && raw[k] != raw'[k];
    r := k / 11;
    MatrixRows(raw, r);
    MatrixRows(raw', r);
    RowBit(raw, k);
    RowBit(raw', k);
  }

  lemma RowBit(raw: Bits77, k: nat)
    requires k < 77
    ensures CodeRow16(raw, k / 11)[k % 11] == raw[k]
  {
    hide Ham16114;
    var d := DataRow16(raw, k / 11);
    assert k == 11 * (k / 11) + k % 11;
    assert CodeRow16(raw, k / 11)[k % 11] == d[k % 11];
  }

  lemma ColumnPair(m: seq<Bit>, m': seq<Bit>, r: nat, c: nat) returns (w: seq<nat>)
    requires IsEmbeddedCodeword(m) && IsEmbeddedCodeword(m') && r < 7 && c < 16
    requires MatrixRow(m, r)[c] != MatrixRow(m', r)[c]
    ensures |w| == 2 && Witness(ByColumns(m), ByColumns(m'), w) && w[0] / 8 == w[1] / 8 == c
  {
    hide InCode;
    var s := SecondDifference(m, m', r, c);
    w := [8 * c + r, 8 * c + s];
    assert (8 * c + r) / 8 == (8 * c + s) / 8 == c && (8 * c + r) % 8 == r && (8 * c + s) % 8 == s;
  }

  /** Four columns with two differences each. */
  lemma EightWitness(a: Bits128, b: Bits128, w0: seq<nat>, w1: seq<nat>, w2: seq<nat>, w3: seq<nat>, cs: seq<nat>)
    requires |cs| == 4 && Distinct(cs)
    requires |w0| == 2 && Witness(a, b, w0) && w0[0] / 8 == w0[1] / 8 == cs[0]
    requires |w1| == 2 && Witness(a, b, w1) && w1[0] / 8 == w1[1] / 8 == cs[1]
    requires |w2| == 2 && Witness(a, b, w2) && w2[0] / 8 == w2[1] / 8 == cs[2]
    requires |w3| == 2 && Witness(a, b, w3) && w3[0] / 8 == w3[1] / 8 == cs[3]
    ensures Dist(a, b) >= 8
  {
    hide Dist;
    var w := w0 + w1 + w2 + w3;
    forall i | 0 <= i < 8 ensures w[i] < 128 && w[i] / 8 == cs[i / 2] && a[w[i]] != b[w[i]] {
    }
    forall i, j | 0 <= i < j < 8 ensures w[i] != w[j] {
      if i / 2 == j / 2 {
        assert i % 2 == 0 && j == i + 1;
        assert w0[0] != w0[1] && w1[0] != w1[1] && w2[0] != w2[1] && w3[0] != w3[1];
      } else {
        assert cs[i / 2] != cs[j / 2];
      }
    }
    WitnessBound(a, b, w);
  }

  lemma MatrixDistance(m: seq<Bit>, m': seq<Bit>, r: nat)
    requires IsEmbeddedCodeword(m) && IsEmbeddedCodeword(m') && r < 7 && MatrixRow(m, r) != MatrixRow(m', r)
    ensures Dist(ByColumns(m), ByColumns(m')) >= 8
  {
    hide InCode, Dist, ByColumns;
    H16Separates();
    H16OddColumns();
    var cs := DistanceFour(H16, MatrixRow(m, r), MatrixRow(m', r));
    var w0 := ColumnPair(m, m', r, cs[0]);
    var w1 := ColumnPair(m, m', r, cs[1]);
    var w2 := ColumnPair(m, m', r, cs[2]);
    var w3 := ColumnPair(m, m', r, cs[3]);
    EightWitness(ByColumns(m), ByColumns(m'), w0, w1, w2, w3, cs);
  }

  lemma DifferentMatrices(lc: Bytes9, lc': Bytes9)
    requires lc != lc'
    ensures Dist(ByColumns(Buffer(lc)), ByColumns(Buffer(lc'))) >= 8
  {
    hide Buffer, Matrix, Dist, ByColumns, WithChecksum, Csum5;
    var r := DifferentMatrixRow(lc, lc');
    assert IsEmbeddedCodeword(Buffer(lc)) && IsEmbeddedCodeword(Buffer(lc')) by {
      BufferIsCodeword(lc);
      BufferIsCodeword(lc');
    }
    MatrixDistance(Buffer(lc), Buffer(lc'), r);
  }

  lemma BufferIsCodeword(lc: Bytes9)
    ensures IsEmbeddedCodeword(Buffer(lc))
  {
    hide Matrix, WithChecksum, IsEmbeddedCodeword, Csum5;
    MatrixIsCodeword(WithChecksum(BytesToBits(lc), CsumBits(Csum5(lc))));
  }

  // ---------- Where the bits are ----------

  lemma InsertedAt<T>(s: seq<T>, pos: nat, v: T, i: nat)
    requires pos <= |s| && i <= |s|
    ensures Inserted(s, pos, v)[i] == if i < pos then s[i] else if i == pos then v else s[i - 1]
  {
  }

  /** How many checksum bits stand before place `i`. */
  function Before(i: nat): nat {
    if i <= 32 then 0 else (i - 33) / 11 + 1
  }

  /** Every eleventh bit from 32 on is the checksum's. */
  lemma RawAt(bits: Bits72, csum: seq<Bit>, i: nat)
    requires |csum| == 5 && i < 77
    ensures WithChecksum(bits, csum)[i]
         == if i >= 32 && (i - 32) % 11 == 0 then csum[(i - 32) / 11] else bits[i - Before(i)]
  {
    hide Inserted;
    var s0 := Inserted(bits, 32, csum[0]);
    var s1 := Inserted(s0, 43, csum[1]);
    var s2 := Inserted(s1, 54, csum[2]);
    var s3 := Inserted(s2, 65, csum[3]);
    InsertedAt(s3, 76, csum[4], i);
    if i < 76 {
      var i3 := i;
      InsertedAt(s2, 65, csum[3], i3);
      if i3 != 65 {
        var i2 := if i3 < 65 then i3 else i3 - 1;
        InsertedAt(s1, 54, csum[2], i2);
        if i2 != 54 {
          var i1 := if i2 < 54 then i2 else i2 - 1;
          InsertedAt(s0, 43, csum[1], i1);
          if i1 != 43 {
            InsertedAt(bits, 32, csum[0], if i1 < 43 then i1 else i1 - 1);
          }
        }
      }
    }
  }

  /** Row and column of the matrix, for the data and checksum bits. */
  lemma BufferAt(lc: Bytes9, r: nat, c: nat)
    requires r < 7 && c < 11
    ensures Buffer(lc)[16 * r + c] == WithChecksum(BytesToBits(lc), CsumBits(Csum5(lc)))[11 * r + c]
  {
    hide Ham16114, Matrix, WithChecksum, BytesToBits, Csum5;
    var raw := WithChecksum(BytesToBits(lc), CsumBits(Csum5(lc)));
    MatrixRows(raw, r);
    assert CodeRow16(raw, r)[c] == DataRow16(raw, r)[c] == raw[11 * r + c];
    assert Buffer(lc)[16 * r + c] == MatrixRow(Matrix(raw), r)[c];
  }

  /** Rows 0 and 1 hold eleven bits of the link-control word each, rows 2 to 6 ten. */
  lemma EmbeddedCell(lc: Bytes9, k: nat)
    requires k < 72
    ensures Buffer(lc)[if k < 22 then 16 * (k / 11) + k % 11 else 16 * (2 + (k - 22) / 10) + (k - 22) % 10]
         == BytesToBits(lc)[k]
  {
    hide Buffer, WithChecksum, BytesToBits, Csum5;
    var r, c := if k < 22 then k / 11 else 2 + (k - 22) / 10, if k < 22 then k % 11 else (k - 22) % 10;
    BufferAt(lc, r, c);
    RawAt(BytesToBits(lc), CsumBits(Csum5(lc)), 11 * r + c);
    CellOf(k, r, c);
  }

  lemma CellOf(k: nat, r: nat, c: nat)
    requires k < 72 && if k < 22 then r == k / 11 && c == k % 11 else r == 2 + (k - 22) / 10 && c == (k - 22) % 10
    ensures r < 7 && c < 11 && 11 * r + c < 77 && 11 * r + c - Before(11 * r + c) == k
    ensures !(11 * r + c >= 32 && (11 * r + c - 32) % 11 == 0)
  {
    if k < 22 {
    } else {
      var q := (k - 22) / 10;
      assert 11 * r + c == k + q;
    }
  }

  /** The last places of rows 2 to 6 hold the sum of the bytes modulo 31, the most
      significant bit on top. */
  lemma ChecksumCells(lc: Bytes9)
    ensures var m := Buffer(lc);
            16 * (m[42] as int) + 8 * (m[58] as int) + 4 * (m[74] as int) + 2 * (m[90] as int) + m[106] as int
            == SumBytes(lc) % 31
  {
    hide Buffer, WithChecksum, BytesToBits, Csum5, SumBytes;
    var bits, csum := BytesToBits(lc), CsumBits(Csum5(lc));
    BufferAt(lc, 2, 10);
    BufferAt(lc, 3, 10);
    BufferAt(lc, 4, 10);
    BufferAt(lc, 5, 10);
    BufferAt(lc, 6, 10);
    RawAt(bits, csum, 32);
    RawAt(bits, csum, 43);
    RawAt(bits, csum, 54);
    RawAt(bits, csum, 65);
    RawAt(bits, csum, 76);
    ChecksumNumber(lc);
  }

  lemma ChecksumNumber(lc: Bytes9)
    ensures var c := CsumBits(Csum5(lc));
            16 * (c[0] as int) + 8 * (c[1] as int) + 4 * (c[2] as int) + 2 * (c[3] as int) + c[4] as int
            == SumBytes(lc) % 31
  {
    hide SumBytes;
    FiveBits(SumBytes(lc) % 31);
  }

  lemma FiveBits(n: nat)
    requires n < 31
    ensures var c := CsumBits(n as Byte & 0x1F);
            16 * (c[0] as int) + 8 * (c[1] as int) + 4 * (c[2] as int) + 2 * (c[3] as int) + c[4] as int == n
  {
  }

  /** The nine bytes, added up. */
  lemma SumOfNine(lc: Bytes9)
    ensures SumBytes(lc) == (lc[0] as int) + (lc[1] as int) + (lc[2] as int) + (lc[3] as int) + (lc[4] as int)
                            + (lc[5] as int) + (lc[6] as int) + (lc[7] as int) + (lc[8] as int)
  {
    SumSplit(lc, 3);
    SumSplit(lc[3..], 3);
    SumThree(lc[..3]);
    SumThree(lc[3..][..3]);
    SumThree(lc[3..][3..]);
  }

  // ---------- The bit that is never sent ----------

  lemma InsertedPrefix<T>(s: seq<T>, pos: nat, v: T, n: nat)
    requires n <= pos <= |s|
    ensures Inserted(s, pos, v)[..n] == s[..n]
  {
  }

  lemma ChecksumBehind(bits: Bits72, csum: seq<Bit>)
    requires |csum| == 5
    ensures WithChecksum(bits, csum)[..32] == bits[..32]
  {
    hide Inserted;
    var s0 := Inserted(bits, 32, csum[0]);
    var s1 := Inserted(s0, 43, csum[1]);
    var s2 := Inserted(s1, 54, csum[2]);
    var s3 := Inserted(s2, 65, csum[3]);
    InsertedPrefix(bits, 32, csum[0], 32);
    InsertedPrefix(s0, 43, csum[1], 32);
    InsertedPrefix(s1, 54, csum[2], 32);
    InsertedPrefix(s2, 65, csum[3], 32);
    InsertedPrefix(s3, 76, csum[4], 32);
  }

  /** Buffer bits 24 and 25 are bits 19 and 20 of the link-control word. */
  lemma TwiceAndNever(lc: Bytes9)
    ensures Buffer(lc)[24] == BytesToBits(lc)[19] && Buffer(lc)[25] == BytesToBits(lc)[20]
  {
    hide Ham16114, Matrix, WithChecksum, BytesToBits, Csum5;
    var bits := BytesToBits(lc);
    var raw := WithChecksum(bits, CsumBits(Csum5(lc)));
    ChecksumBehind(bits, CsumBits(Csum5(lc)));
    assert raw[19] == raw[..32][19] == bits[..32][19] && raw[20] == raw[..32][20] == bits[..32][20];
    MatrixRows(raw, 1);
    var row := CodeRow16(raw, 1);
    assert row[8] == DataRow16(raw, 1)[8] == raw[19] && row[9] == DataRow16(raw, 1)[9] == raw[20];
    assert Buffer(lc)[24] == MatrixRow(Matrix(raw), 1)[8] && Buffer(lc)[25] == MatrixRow(Matrix(raw), 1)[9];
  }

  lemma Place73(m: Bits128)
    ensures ByColumns(m)[73] == m[25]
  {
  }

  /** The fragments are the whole matrix if and only if those two bits agree. */
  lemma WholeMatrixOnAir(lc: Bytes9)
    ensures OnAir(EncodeEmb(lc)) == ByColumns(Buffer(lc)) <==> BytesToBits(lc)[19] == BytesToBits(lc)[20]
  {
    hide Buffer, ByColumns, OnAir, EncodeEmb, BytesToBits;
    OnAirByColumns(lc);
    TwiceAndNever(lc);
    Place73(Buffer(lc));
  }

  /** On air a difference in bit 20 is lost and one in bit 19 counts twice. */
  lemma OnAirDistance(lc: Bytes9, lc': Bytes9)
    ensures var b, b' := BytesToBits(lc), BytesToBits(lc');
            Dist(OnAir(EncodeEmb(lc)), OnAir(EncodeEmb(lc'))) + DiffersAt(b, b', 20)
            == Dist(ByColumns(Buffer(lc)), ByColumns(Buffer(lc'))) + DiffersAt(b, b', 19)
  {
    hide Buffer, ByColumns, OnAir, EncodeEmb, BytesToBits, Dist;
    OnAirByColumns(lc);
    OnAirByColumns(lc');
    TwiceAndNever(lc);
    TwiceAndNever(lc');
    Place73(Buffer(lc));
    Place73(Buffer(lc'));
    OneOverwrite(ByColumns(Buffer(lc)), ByColumns(Buffer(lc')), 73, Buffer(lc)[24], Buffer(lc')[24]);
  }

  /** Two different link-control words: fragments at least seven bits apart, and
      exactly seven if and only if the matrices are eight apart, bit 20 differs and
      bit 19 does not. */
  lemma EmbeddedLcDistance(lc: Bytes9, lc': Bytes9)
    requires lc != lc'
    ensures var d, b, b' := Dist(OnAir(EncodeEmb(lc)), OnAir(EncodeEmb(lc'))), BytesToBits(lc), BytesToBits(lc');
            && d >= 7
            && (b[20] == b'[20] || b[19] != b'[19] ==> d >= 8)
            && (d == 7 <==>
                  Dist(ByColumns(Buffer(lc)), ByColumns(Buffer(lc'))) == 8 && b[20] != b'[20] && b[19] == b'[19])
  {
    hide Buffer, ByColumns, OnAir, EncodeEmb, BytesToBits, Dist;
    DifferentMatrices(lc, lc');
    OnAirDistance(lc, lc');
  }

  /** Words whose fragments are the whole matrix keep its distance. */
  lemma WholeMatrixDistance(lc: Bytes9, lc': Bytes9)
    requires lc != lc' && BytesToBits(lc)[19] == BytesToBits(lc)[20] && BytesToBits(lc')[19] == BytesToBits(lc')[20]
    ensures Dist(OnAir(EncodeEmb(lc)), OnAir(EncodeEmb(lc'))) >= 8
  {
    hide OnAir, EncodeEmb, BytesToBits, Dist;
    EmbeddedLcDistance(lc, lc');
  }

  // ---------- Seven is attained ----------

  /** The same word with three bits flipped that leave the checksum alone. */
  function Neighbour(lc: Bytes9): Bytes9 {
    lc[1 := 11][2 := 73]
  }

  /** `t` is `s` with bits 11, 12 and 20 flipped. */
  ghost predicate FlipsThree(s: seq<Bit>, t: seq<Bit>) {
    |s| == |t| && forall i: nat :: i < |s| ==> (s[i] != t[i] <==> i in {11, 12, 20})
  }

  lemma NeighbourBits(lc: Bytes9)
    requires lc[1] == 19 && lc[2] == 65
    ensures FlipsThree(BytesToBits(lc), BytesToBits(Neighbour(lc)))
  {
    var lc' := Neighbour(lc);
    forall i: nat | i < 72 ensures BytesToBits(lc)[i] != BytesToBits(lc')[i] <==> i in {11, 12, 20} {
      ByteFlips(i % 8);
      assert i == 8 * (i / 8) + i % 8;
    }
  }

  lemma ByteFlips(b: BitIndex)
    ensures ByteBit(19, b) != ByteBit(11, b) <==> b in {3, 4}
    ensures ByteBit(65, b) != ByteBit(73, b) <==> b == 4
  {
  }

  lemma {:induction false} SumSplit(bytes: seq<Byte>, n: nat)
    requires n <= |bytes|
    ensures SumBytes(bytes) == SumBytes(bytes[..n]) + SumBytes(bytes[n..])
    decreases |bytes|
  {
    if n == |bytes| {
      assert bytes[..n] == bytes;
    } else {
      var init := bytes[..|bytes| - 1];
      SumSplit(init, n);
      assert init[..n] == bytes[..n] && init[n..] == bytes[n..][..|bytes[n..]| - 1];
    }
  }

  lemma NeighbourSum(lc: Bytes9)
    requires lc[1] == 19 && lc[2] == 65
    ensures SumBytes(lc) == SumBytes(Neighbour(lc))
  {
    var lc' := Neighbour(lc);
    SumSplit(lc, 3);
    SumSplit(lc', 3);
    assert lc[3..] == lc'[3..];
    SumThree(lc[..3]);
    SumThree(lc'[..3]);
  }

  lemma SumThree(s: seq<Byte>)
    requires |s| == 3
    ensures SumBytes(s) == (s[0] as int) + (s[1] as int) + s[2] as int
  {
    assert s[..2][..1] == s[..1];
    assert SumBytes(s[..1]) == s[0] as int;
    assert SumBytes(s[..2]) == SumBytes(s[..1]) + s[1] as int;
  }

  lemma InsertedFlips(s: seq<Bit>, t: seq<Bit>, pos: nat, v: Bit)
    requires FlipsThree(s, t) && 20 < pos <= |s|
    ensures FlipsThree(Inserted(s, pos, v), Inserted(t, pos, v))
  {
  }

  lemma ChecksumFlips(s: Bits72, t: Bits72, c: seq<Bit>)
    requires FlipsThree(s, t) && |c| == 5
    ensures FlipsThree(WithChecksum(s, c), WithChecksum(t, c))
  {
    hide Inserted, FlipsThree;
    var s0, t0 := Inserted(s, 32, c[0]), Inserted(t, 32, c[0]);
    var s1, t1 := Inserted(s0, 43, c[1]), Inserted(t0, 43, c[1]);
    var s2, t2 := Inserted(s1, 54, c[2]), Inserted(t1, 54, c[2]);
    var s3, t3 := Inserted(s2, 65, c[3]), Inserted(t2, 65, c[3]);
    InsertedFlips(s, t, 32, c[0]);
    InsertedFlips(s0, t0, 43, c[1]);
    InsertedFlips(s1, t1, 54, c[2]);
    InsertedFlips(s2, t2, 65, c[3]);
    InsertedFlips(s3, t3, 76, c[4]);
  }

  /** Row 1 changes in its bits 0, 1 and 9 and in check 13, the other rows do not. */
  lemma FlippedRow(raw: Bits77, raw': Bits77, r: nat, c: nat)
    requires FlipsThree(raw, raw') && r < 7 && c < 16
    ensures CodeRow16(raw, r)[c] != CodeRow16(raw', r)[c] <==> r == 1 && c in {0, 1, 9, 13}
  {
    hide Ham16114;
    var d, d' := DataRow16(raw, r), DataRow16(raw', r);
    if r == 1 {
      FlippedChecks(d, d');
    } else {
      assert d == d';
    }
  }

  lemma FlippedChecks(d: Bits11, d': Bits11)
    requires forall i: nat :: i < 11 ==> (d[i] != d'[i] <==> i in {0, 1, 9})
    ensures var h, h' := Ham16114(d), Ham16114(d');
            h[0] == h'[0] && h[1] == h'[1] && h[2] != h'[2] && h[3] == h'[3] && h[4] == h'[4]
  {
    assert d[0] != d'[0] && d[1] != d'[1] && d[9] != d'[9];
    assert d[2] == d'[2] && d[3] == d'[3] && d[4] == d'[4] && d[5] == d'[5];
    assert d[6] == d'[6] && d[7] == d'[7] && d[8] == d'[8] && d[10] == d'[10];
  }

  lemma FlippedCell(raw: Bits77, raw': Bits77, k: Cell128)
    requires FlipsThree(raw, raw')
    ensures Matrix(raw)[k] != Matrix(raw')[k] <==> k / 16 in {1, 7} && k % 16 in {0, 1, 9, 13}
  {
    hide CodeRow16, ColumnParity, FlipsThree, Matrix, CodeRows16;
    var r, c := k / 16, k % 16;
    if r < 7 {
      MatrixRows(raw, r);
      MatrixRows(raw', r);
      assert MatrixRow(Matrix(raw), r)[c] == Matrix(raw)[k] && MatrixRow(Matrix(raw'), r)[c] == Matrix(raw')[k];
      FlippedRow(raw, raw', r, c);
    } else {
      FlippedColumn(raw, raw', c);
    }
  }

  lemma FlippedColumn(raw: Bits77, raw': Bits77, c: nat)
    requires FlipsThree(raw, raw') && c < 16
    ensures Matrix(raw)[112 + c] != Matrix(raw')[112 + c] <==> c in {0, 1, 9, 13}
  {
    hide CodeRow16, FlipsThree, InCode, Matrix;
    var m, m' := Matrix(raw), Matrix(raw');
    MatrixIsCodeword(raw);
    MatrixIsCodeword(raw');
    forall r: nat | r < 7 ensures m[16 * r + c] != m'[16 * r + c] <==> r == 1 && c in {0, 1, 9, 13} {
      MatrixRows(raw, r);
      MatrixRows(raw', r);
      assert MatrixRow(m, r)[c] == m[16 * r + c] && MatrixRow(m', r)[c] == m'[16 * r + c];
      FlippedRow(raw, raw', r, c);
    }
    ColumnTail(m, m', c, c in {0, 1, 9, 13});
  }

  lemma ColumnTail(m: Bits128, m': Bits128, c: nat, flips: bool)
    requires c < 16 && ColumnXor(m, c) == ColumnXor(m', c)
    requires forall r: nat :: r < 7 ==> (m[16 * r + c] != m'[16 * r + c] <==> r == 1 && flips)
    ensures m[112 + c] != m'[112 + c] <==> flips
  {
    assert m[16 * 0 + c] == m'[16 * 0 + c] && m[16 * 2 + c] == m'[16 * 2 + c] && m[16 * 3 + c] == m'[16 * 3 + c]
        && m[16 * 4 + c] == m'[16 * 4 + c] && m[16 * 5 + c] == m'[16 * 5 + c] && m[16 * 6 + c] == m'[16 * 6 + c];
    assert m[16 * 1 + c] != m'[16 * 1 + c] <==> flips;
  }

  /** Seven is attained, and by words with anything in the other seven bytes. */
  lemma SevenApart(lc: Bytes9)
    requires lc[1] == 19 && lc[2] == 65
    ensures Dist(OnAir(EncodeEmb(lc)), OnAir(EncodeEmb(Neighbour(lc)))) == 7
  {
    hide OnAir, EncodeEmb, Dist, BytesToBits, Buffer, ByColumns, FlipsThree;
    var lc' := Neighbour(lc);
    NeighbourBits(lc);
    FlippedBits(BytesToBits(lc), BytesToBits(lc'));
    NeighbourMatrix(lc);
    assert lc[1] != lc'[1];
    DifferentMatrices(lc, lc');
    EmbeddedLcDistance(lc, lc');
  }

  lemma FlippedBits(s: Bits72, t: Bits72)
    requires FlipsThree(s, t)
    ensures s[19] == t[19] && s[20] != t[20]
  {
  }

  lemma NeighbourMatrix(lc: Bytes9)
    requires lc[1] == 19 && lc[2] == 65
    ensures Dist(ByColumns(Buffer(lc)), ByColumns(Buffer(Neighbour(lc)))) <= 8
  {
    hide FlipsThree, WithChecksum, BytesToBits, Matrix;
    var lc' := Neighbour(lc);
    NeighbourBits(lc);
    NeighbourSum(lc);
    var cs := CsumBits(Csum5(lc));
    var raw, raw' := WithChecksum(BytesToBits(lc), cs), WithChecksum(BytesToBits(lc'), cs);
    ChecksumFlips(BytesToBits(lc), BytesToBits(lc'), cs);
    assert Buffer(lc) == Matrix(raw) && Buffer(lc') == Matrix(raw');
    EightCells(raw, raw');
  }

  lemma EightCells(raw: Bits77, raw': Bits77)
    requires FlipsThree(raw, raw')
    ensures Dist(ByColumns(Matrix(raw)), ByColumns(Matrix(raw'))) <= 8
  {
    hide FlipsThree, Matrix;
    var a, b := ByColumns(Matrix(raw)), ByColumns(Matrix(raw'));
    var eight: set<nat> := {1, 7, 9, 15, 73, 79, 105, 111};
    forall k: nat | k < 128 && a[k] != b[k] ensures k in eight {
      FlippedCell(raw, raw', Cell(k % 8, k / 8));
      EightPlaces(k);
    }
    SubsetSize(Differing(a, b), eight);
  }

  lemma EightPlaces(k: Cell128)
    requires k % 8 in {1, 7} && k / 8 in {0, 1, 9, 13}
    ensures k in {1, 7, 9, 15, 73, 79, 105, 111}
  {
  }

  /** Hence the fragments determine the link-control word. */
  lemma FragmentsDetermineLc(lc: Bytes9, lc': Bytes9)
    requires EncodeEmb(lc) == EncodeEmb(lc')
    ensures lc == lc'
  {
    hide OnAir, EncodeEmb;
    if lc != lc' {
      EmbeddedLcDistance(lc, lc');
    }
  }
}
