/** The embedded link-control word: a five-bit checksum, seven rows of
    Hamming(16,11), a row of column parities, read out column by column. */
module EmbeddedLc {
  import opened Bits
  import opened Hamming
  import opened Bptc

  // ---------- The checksum ----------

  function SumBytes(bytes: seq<Byte>): nat {
    if bytes == [] then 0 else SumBytes(bytes[..|bytes| - 1]) + (bytes[|bytes| - 1] as int)
  }

  function Csum5(lc: seq<Byte>): Byte {
    (SumBytes(lc) % 31) as Byte & 0x1F
  }

  /** `dmr_csum5`. */
  method DmrCsum5(lc: Bytes9) returns (cs: Byte)
    ensures cs == Csum5(lc)
  {
    var accum := 0;
    for i := 0 to 9
      invariant accum == SumBytes(lc[..i])
    {
      assert lc[..i + 1][..i] == lc[..i];
      accum := accum + lc[i] as int;
    }
    assert lc[..9] == lc;
    cs := (accum % 31) as Byte & 0x1F;
  }

  function CsumBits(cs: Byte): (bits: seq<Bit>)
    ensures |bits| == 5
  {
    [ByteBit(cs, 3), ByteBit(cs, 4), ByteBit(cs, 5), ByteBit(cs, 6), ByteBit(cs, 7)]
  }

  // ---------- The encoder ----------

  /** The 72 data bits with the checksum bits in their places: seven rows of 11. */
  function WithChecksum(bits: Bits72, csum: seq<Bit>): Bits77
    requires |csum| == 5
  {
    Inserted(Inserted(Inserted(Inserted(Inserted(bits, 32, csum[0]), 43, csum[1]), 54, csum[2]), 65, csum[3]), 76,
             csum[4])
  }

  function DataRow16(raw: Bits77, r: nat): Bits11
    requires r < 7
  {
    raw[11 * r..11 * r + 11]
  }

  function CodeRow16(raw: Bits77, r: nat): Bits16
    requires r < 7
  {
    DataRow16(raw, r) + Ham16114(DataRow16(raw, r))
  }

  function CodeRows16(raw: Bits77, n: nat): (rows: seq<Bit>)
    requires n <= 7
    ensures |rows| == 16 * n
  {
    if n == 0 then [] else CodeRows16(raw, n - 1) + CodeRow16(raw, n - 1)
  }

  function ColumnParity(rows: seq<Bit>, c: nat): Bit
    requires |rows| >= 112 && c < 16
  {
    rows[c] ^ rows[c + 16] ^ rows[c + 32] ^ rows[c + 48] ^ rows[c + 64] ^ rows[c + 80] ^ rows[c + 96]
  }

  /** Seven Hamming rows and the parities of their columns. */
  function Matrix(raw: Bits77): Bits128 {
    var rows := CodeRows16(raw, 7);
    rows + seq(16, c requires 0 <= c < 16 => ColumnParity(rows, c))
  }

  function Buffer(lc: Bytes9): Bits128 {
    Matrix(WithChecksum(BytesToBits(lc), CsumBits(Csum5(lc))))
  }

  /** The buffer with the first `n` rows encoded. */
  ghost function Rows16Done(raw: Bits77, n: nat): (s: seq<Bit>)
    requires n <= 7
    ensures |s| == 77 + 5 * n
  {
    CodeRows16(raw, n) + raw[11 * n..]
  }

  lemma Row16InPlace(raw: Bits77, r: nat)
    requires r < 7
    ensures var s, index := Rows16Done(raw, r), 16 * r;
            && s[index..index + 11] == DataRow16(raw, r)
            && Rows16Done(raw, r + 1) == s[..index + 11] + Ham16114(DataRow16(raw, r)) + s[index + 11..]
  {
    hide Ham16114;
    var s := Rows16Done(raw, r);
    assert s[..16 * r + 11] == CodeRows16(raw, r) + DataRow16(raw, r);
    assert s[16 * r + 11..] == raw[11 * r + 11..];
  }

  method EncodeRows16(ghost raw: Bits77, buf: array<Bit>) returns (len: nat)
    requires buf.Length == 160 && buf[..77] == raw
    modifies buf
    ensures len == 112 && buf[..112] == CodeRows16(raw, 7)
  {
    hide Ham16114;
    len := 77;
    var r, index := 0, 0;
    assert Rows16Done(raw, 0) == raw;
    while index < 112
      invariant r <= 7 && index == 16 * r && len == 77 + 5 * r
      invariant buf[..len] == Rows16Done(raw, r)
    {
      len := EncodeRow16(raw, buf, len, index, r);
      r, index := r + 1, index + 16;
    }
    assert Rows16Done(raw, 7) == CodeRows16(raw, 7);
  }

  method EncodeRow16(ghost raw: Bits77, buf: array<Bit>, len: nat, index: nat, ghost r: nat) returns (len': nat)
    requires buf.Length == 160 && r < 7 && index == 16 * r && len == 77 + 5 * r
    requires buf[..len] == Rows16Done(raw, r)
    modifies buf
    ensures len' == len + 5 && buf[..len'] == Rows16Done(raw, r + 1)
  {
    hide Ham16114, Rows16Done;
    ghost var s := buf[..len];
    Row16InPlace(raw, r);
    StretchOfPrefix(buf, len, index, index + 11);
    var h := Ham16114(buf[index..index + 11]);
    len' := BitInsertAll(buf, len, index + 11, h);
  }

  method InsertChecksum(buf: array<Bit>, csum: seq<Bit>)
    requires buf.Length == 160 && |csum| == 5
    modifies buf
    ensures buf[..77] == WithChecksum(old(buf[..72]), csum)
  {
    var len := BitInsert(buf, 72, 32, csum[0]);
    len := BitInsert(buf, len, 43, csum[1]);
    len := BitInsert(buf, len, 54, csum[2]);
    len := BitInsert(buf, len, 65, csum[3]);
    len := BitInsert(buf, len, 76, csum[4]);
  }

  method AppendColumnParity(buf: array<Bit>, ghost rows: seq<Bit>)
    requires buf.Length == 160 && |rows| == 112 && buf[..112] == rows
    modifies buf
    ensures buf[..128] == rows + seq(16, c requires 0 <= c < 16 => ColumnParity(rows, c))
  {
    hide ColumnParity;
    var len := 112;
    ghost var parities := seq(16, c requires 0 <= c < 16 => ColumnParity(rows, c));
    for index := 0 to 16
      invariant len == 112 + index
      invariant buf[..len] == rows + parities[..index]
    {
      var v := ParityAt(buf, rows, index);
      ghost var s := buf[..len];
      len := BitInsert(buf, len, index + 112, v);
      assert Inserted(s, index + 112, v) == s + [v];
    }
  }

  method ParityAt(buf: array<Bit>, ghost rows: seq<Bit>, index: nat) returns (v: Bit)
    requires buf.Length == 160 && |rows| == 112 && index < 16 && forall k :: 0 <= k < 112 ==> buf[k] == rows[k]
    ensures v == ColumnParity(rows, index)
  {
    v := buf[index] ^ buf[index + 16] ^ buf[index + 32] ^ buf[index + 48]
       ^ buf[index + 64] ^ buf[index + 80] ^ buf[index + 96];
  }

  // EMBLC_IDX, eight entries a row and four rows a segment.  Entry 1 of row 9
  // reads bit 24, not bit 25.
  const EMBLC_IDX: seq<seq<nat>> := [
    [0, 16, 32, 48, 64, 80, 96, 112], [1, 17, 33, 49, 65, 81, 97, 113],
    [2, 18, 34, 50, 66, 82, 98, 114], [3, 19, 35, 51, 67, 83, 99, 115],
    [4, 20, 36, 52, 68, 84, 100, 116], [5, 21, 37, 53, 69, 85, 101, 117],
    [6, 22, 38, 54, 70, 86, 102, 118], [7, 23, 39, 55, 71, 87, 103, 119],
    [8, 24, 40, 56, 72, 88, 104, 120], [9, 24, 41, 57, 73, 89, 105, 121],
    [10, 26, 42, 58, 74, 90, 106, 122], [11, 27, 43, 59, 75, 91, 107, 123],
    [12, 28, 44, 60, 76, 92, 108, 124], [13, 29, 45, 61, 77, 93, 109, 125],
    [14, 30, 46, 62, 78, 94, 110, 126], [15, 31, 47, 63, 79, 95, 111, 127]]

  /** A bit of the embedded matrix. */
  type Cell128 = k: nat | k < 128

  function EmblcIdx(k: Cell128): nat {
    EMBLC_IDX[k / 8][k % 8]
  }

  lemma EmblcRowsLow(r: nat, j: nat)
    requires r < 8 && j < 8
    ensures EMBLC_IDX[r][j] == 16 * j + r
  {
  }

  lemma EmblcRowsHigh(r: nat, j: nat)
    requires 8 <= r < 16 && j < 8
    ensures EMBLC_IDX[r][j] == if r == 9 && j == 1 then 24 else 16 * j + r
  {
  }

  /** The segments are the columns of the matrix, but for one bit. */
  lemma EmblcIdxFormula(k: Cell128)
    ensures EmblcIdx(k) == if k == 73 then 24 else 16 * (k % 8) + k / 8
    ensures EmblcIdx(k) < 128
  {
    if k < 64 {
      EmblcRowsLow(k / 8, k % 8);
    } else {
      EmblcRowsHigh(k / 8, k % 8);
    }
  }

  function SegmentBits(m: Bits128, seg: nat): (bits: seq<Bit>)
    requires seg < 4
    ensures |bits| == 32
  {
    seq(32, i requires 0 <= i < 32 => (EmblcIdxFormula(32 * seg + i); m[EmblcIdx(32 * seg + i)]))
  }

  /** The four fragments, for bursts B to E. */
  function EncodeEmb(lc: Bytes9): (out: seq<seq<Byte>>)
    ensures |out| == 4 && forall seg :: 0 <= seg < 4 ==> |out[seg]| == 4
  {
    seq(4, seg requires 0 <= seg < 4 => BitsToBytes(SegmentBits(Buffer(lc), seg)))
  }

  /** `dmr_encode_emblc`. */
  method EncodeEmblc(lc: Bytes9) returns (out: seq<seq<Byte>>)
    ensures out == EncodeEmb(lc)
  {
    hide ColumnParity, Csum5, WithChecksum, CodeRows16, EmblcIdx, BitsToBytes;
    var buf := new Bit[160];
    BytesToBitsInto(lc, buf, 0);
    assert buf[..72] == BytesToBits(lc);
    var cs := DmrCsum5(lc);
    InsertChecksum(buf, CsumBits(cs));
    ghost var raw := WithChecksum(BytesToBits(lc), CsumBits(cs));
    var len := EncodeRows16(buf[..77], buf);
    AppendColumnParity(buf, CodeRows16(raw, 7));
    var m := buf[..128];
    assert m == Buffer(lc);
    out := [];
    for seg := 0 to 4
      invariant out == EncodeEmb(lc)[..seg]
    {
      var segBits := ReadSegment(m, seg);
      var bytes := BitsToBytesOf(segBits);
      out := out + [bytes];
    }
  }

  method ReadSegment(m: Bits128, seg: nat) returns (segBits: seq<Bit>)
    requires seg < 4
    ensures segBits == SegmentBits(m, seg)
  {
    hide EmblcIdx;
    var bits := new Bit[32];
    for i := 0 to 32
      invariant bits[..i] == SegmentBits(m, seg)[..i]
    {
      EmblcIdxFormula(32 * seg + i);
      bits[i] := m[EmblcIdx(32 * seg + i)];
    }
    segBits := bits[..];
  }
}
