/** The full link-control codeword of a voice header or terminator: parity,
    product code and interleaving, and the way back. */
module LinkControl {
  import opened Bits
  import opened Distance
  import opened Hamming
  import opened Bptc
  import opened ProductCode
  import opened ReedSolomon

  // ---------- The interleaver ----------

  // INDEX_181, fourteen entries a row: bit `14 * r + c` goes to `INDEX_181[r][c]`.
  const INDEX_181: seq<seq<nat>> := [
    [0,181,166,151,136,121,106,91,76,61,46,31,16,1],
    [182,167,152,137,122,107,92,77,62,47,32,17,2,183],
    [168,153,138,123,108,93,78,63,48,33,18,3,184,169],
    [154,139,124,109,94,79,64,49,34,19,4,185,170,155],
    [140,125,110,95,80,65,50,35,20,5,186,171,156,141],
    [126,111,96,81,66,51,36,21,6,187,172,157,142,127],
    [112,97,82,67,52,37,22,7,188,173,158,143,128,113],
    [98,83,68,53,38,23,8,189,174,159,144,129,114,99],
    [84,69,54,39,24,9,190,175,160,145,130,115,100,85],
    [70,55,40,25,10,191,176,161,146,131,116,101,86,71],
    [56,41,26,11,192,177,162,147,132,117,102,87,72,57],
    [42,27,12,193,178,163,148,133,118,103,88,73,58,43],
    [28,13,194,179,164,149,134,119,104,89,74,59,44,29],
    [14,195,180,165,150,135,120,105,90,75,60,45,30,15]]

  /** A bit of the codeword, and one of the link-control word. */
  type Cell196 = i: nat | i < 196
  type LcBit = i: nat | i < 72

  function Index181(i: Cell196): nat {
    INDEX_181[i / 14][i % 14]
  }

  lemma Index181Rows0(r: nat, c: nat)
    requires 0 <= r < 2 && c < 14
    ensures INDEX_181[r][c] == 181 * (14 * r + c) % 196
  {
  }

  lemma Index181Rows2(r: nat, c: nat)
    requires 2 <= r < 4 && c < 14
    ensures INDEX_181[r][c] == 181 * (14 * r + c) % 196
  {
  }

  lemma Index181Rows4(r: nat, c: nat)
    requires 4 <= r < 6 && c < 14
    ensures INDEX_181[r][c] == 181 * (14 * r + c) % 196
  {
  }

  lemma Index181Rows6(r: nat, c: nat)
    requires 6 <= r < 8 && c < 14
    ensures INDEX_181[r][c] == 181 * (14 * r + c) % 196
  {
  }

  lemma Index181Rows8(r: nat, c: nat)
    requires 8 <= r < 10 && c < 14
    ensures INDEX_181[r][c] == 181 * (14 * r + c) % 196
  {
  }

  lemma Index181Rows10(r: nat, c: nat)
    requires 10 <= r < 12 && c < 14
    ensures INDEX_181[r][c] == 181 * (14 * r + c) % 196
  {
  }

  lemma Index181Rows12(r: nat, c: nat)
    requires 12 <= r < 14 && c < 14
    ensures INDEX_181[r][c] == 181 * (14 * r + c) % 196
  {
  }

  lemma Index181Formula(i: Cell196)
    ensures Index181(i) == 181 * i % 196
  {
    var r, c := i / 14, i % 14;
    match r / 2 {
      case 0 => Index181Rows0(r, c); case 1 => Index181Rows2(r, c); case 2 => Index181Rows4(r, c);
      case 3 => Index181Rows6(r, c); case 4 => Index181Rows8(r, c); case 5 => Index181Rows10(r, c);
      case _ => Index181Rows12(r, c);
    }
  }

  lemma Inverse(i: Cell196)
    ensures 13 * (181 * i % 196) % 196 == i
    ensures 181 * (13 * i % 196) % 196 == i
  {
    InverseLeft(i, 181 * i / 196, 181 * i % 196);
    InverseRight(i, 13 * i / 196, 13 * i % 196);
  }

  lemma InverseLeft(i: Cell196, q: nat, r: nat)
    requires 181 * i == 196 * q + r
    ensures 13 * r % 196 == i
  {
    RemainderOf(13 * r, 12 * i - 13 * q, i);
  }

  lemma InverseRight(i: Cell196, q: nat, r: nat)
    requires 13 * i == 196 * q + r
    ensures 181 * r % 196 == i
  {
    RemainderOf(181 * r, 12 * i - 181 * q, i);
  }

  lemma RemainderOf(x: nat, k: int, i: Cell196)
    requires x == 196 * k + i
    ensures x % 196 == i
  {
  }

  function Interleave(m: Bits196): Bits196 {
    seq(196, j requires 0 <= j < 196 => m[13 * j % 196])
  }

  lemma InterleaveAt(m: Bits196, i: Cell196)
    ensures Interleave(m)[181 * i % 196] == m[i]
  {
    Inverse(i);
  }

  /** `interleave_19696`. */
  method Interleave19696(in196: Bits196) returns (out196: seq<Bit>)
    ensures out196 == Interleave(in196)
  {
    var out := new Bit[196];
    for index := 0 to 196
      invariant forall j :: 0 <= j < 196 && 13 * j % 196 < index ==> out[j] == in196[13 * j % 196]
    {
      Index181Formula(index);
      Inverse(index);
      out[Index181(index)] := in196[index];
      forall j | 0 <= j < 196 && 13 * j % 196 == index ensures j == Index181(index) {
        Inverse(j);
      }
    }
    out196 := out[..];
  }

  /** Interleaving is one fixed permutation. */
  lemma InterleavePermutes(m: Bits196)
    ensures Scatters(seq(196, i => 181 * i % 196), m, Interleave(m))
  {
    var p := seq(196, i => 181 * i % 196);
    forall i, j | 0 <= i < j < 196 ensures p[i] != p[j] {
      Inverse(i);
      Inverse(j);
    }
    forall i | 0 <= i < 196 ensures p[i] < 196 && Interleave(m)[p[i]] == m[i] {
      InterleaveAt(m, i);
    }
  }

  lemma InterleavePermutesBack(m: Bits196)
    ensures Scatters(seq(196, j => 13 * j % 196), Interleave(m), m)
  {
    var p := seq(196, j => 13 * j % 196);
    forall i, j | 0 <= i < j < 196 ensures p[i] != p[j] {
      Inverse(i);
      Inverse(j);
    }
  }

  /** Interleaving neither adds nor removes differences. */
  lemma InterleaveKeepsDistance(m: Bits196, m': Bits196)
    ensures Dist(Interleave(m), Interleave(m')) == Dist(m, m')
  {
    hide Interleave, Dist, Scatters;
    InterleavePermutes(m);
    InterleavePermutes(m');
    ScatterKeepsDistance(seq(196, i => 181 * i % 196), m, m', Interleave(m), Interleave(m'));
    InterleavePermutesBack(m);
    InterleavePermutesBack(m');
    ScatterKeepsDistance(seq(196, j => 13 * j % 196), Interleave(m), Interleave(m'), m, m');
  }

  // ---------- Encoding and decoding ----------

  function EncodeLc(lc: Bytes9, isTerm: bool): Bits196 {
    Interleave(Encode19696(LcWord(lc, isTerm)))
  }

  /** `dmr_bptc_encode_lc`. */
  method BptcEncodeLc(lc: Bytes9, isTerm: bool) returns (out196: seq<Bit>)
    ensures out196 == EncodeLc(lc, isTerm)
  {
    hide LcParity, Encode19696, Interleave;
    var parity := Rs129LcEncode(lc, isTerm);
    var tmp := BptcEncode19696(lc + parity);
    out196 := Interleave19696(tmp);
  }

  // DECODE_LC_IDX, nine entries a row.
  const DECODE_LC_IDX: seq<seq<nat>> := [
    [136,121,106,91,76,61,46,31,152],
    [137,122,107,92,77,62,47,32,17],
    [2,123,108,93,78,63,48,33,18],
    [3,184,169,94,79,64,49,34,19],
    [4,185,170,155,140,65,50,35,20],
    [5,186,171,156,141,126,111,36,21],
    [6,187,172,157,142,127,112,97,82],
    [7,188,173,158,143,128,113,98,83]]

  function DecodeLcIdx(i: LcBit): nat {
    DECODE_LC_IDX[i / 9][i % 9]
  }

  /** Where BPTC puts bit `i` of the link-control word. */
  function LcCell(i: LcBit): Cell196 {
    1 + 15 * ((i + 3) / 11) + (i + 3) % 11
  }

  lemma DecodeRow0(c: nat)
    requires c < 9
    ensures DECODE_LC_IDX[0][c] == 181 * LcCell(0 + c) % 196
  {
  }

  lemma DecodeRow1(c: nat)
    requires c < 9
    ensures DECODE_LC_IDX[1][c] == 181 * LcCell(9 + c) % 196
  {
  }

  lemma DecodeRow2(c: nat)
    requires c < 9
    ensures DECODE_LC_IDX[2][c] == 181 * LcCell(18 + c) % 196
  {
  }

  lemma DecodeRow3(c: nat)
    requires c < 9
    ensures DECODE_LC_IDX[3][c] == 181 * LcCell(27 + c) % 196
  {
  }

  lemma DecodeRow4(c: nat)
    requires c < 9
    ensures DECODE_LC_IDX[4][c] == 181 * LcCell(36 + c) % 196
  {
  }

  lemma DecodeRow5(c: nat)
    requires c < 9
    ensures DECODE_LC_IDX[5][c] == 181 * LcCell(45 + c) % 196
  {
  }

  lemma DecodeRow6(c: nat)
    requires c < 9
    ensures DECODE_LC_IDX[6][c] == 181 * LcCell(54 + c) % 196
  {
  }

  lemma DecodeRow7(c: nat)
    requires c < 9
    ensures DECODE_LC_IDX[7][c] == 181 * LcCell(63 + c) % 196
  {
  }

  lemma DecodeLcIdxFormula(i: LcBit)
    ensures DecodeLcIdx(i) == 181 * LcCell(i) % 196
  {
    var c := i % 9;
    match i / 9 {
      case 0 => DecodeRow0(c); case 1 => DecodeRow1(c); case 2 => DecodeRow2(c); case 3 => DecodeRow3(c);
      case 4 => DecodeRow4(c); case 5 => DecodeRow5(c); case 6 => DecodeRow6(c); case _ => DecodeRow7(c);
    }
  }

  function DecodeFullLc(in196: Bits196): Bytes9 {
    BitsToBytes(PickedBits(in196))
  }

  function PickedBits(in196: Bits196): Bits72 {
    seq(72, i requires 0 <= i < 72 => (DecodeLcIdxFormula(i); in196[DecodeLcIdx(i)]))
  }

  /** `dmr_bptc_decode_full_lc`. */
  method BptcDecodeFullLc(in196: Bits196) returns (lcOut: seq<Byte>)
    ensures lcOut == DecodeFullLc(in196)
  {
    hide DecodeLcIdx;
    var bits := new Bit[72];
    for i := 0 to 72
      invariant bits[..i] == PickedBits(in196)[..i]
    {
      DecodeLcIdxFormula(i);
      bits[i] := in196[DecodeLcIdx(i)];
    }
    assert bits[..] == PickedBits(in196);
    lcOut := BitsToBytesOf(bits[..]);
  }

  /** The cell of bit `i` of the twelve bytes holds bit `i`. */
  lemma DataCellHolds(data12: Bytes12, i: nat)
    requires i < 96
    ensures Encode19696(data12)[1 + 15 * ((i + 3) / 11) + (i + 3) % 11] == BytesToBits(data12)[i]
  {
    hide Encode19696, Ham15113;
    var r, c := (i + 3) / 11, (i + 3) % 11;
    DataRows(data12, r);
    assert Encode19696(data12)[1 + 15 * r + c] == Row(Encode19696(data12), r)[c];
    assert CodeRow(Raw(data12), r)[c] == Raw(data12)[1 + 11 * r + c];
    assert 1 + 11 * r + c == i + 4;
  }

  lemma LcCellHolds(data12: Bytes12, i: LcBit)
    ensures Encode19696(data12)[LcCell(i)] == BytesToBits(data12)[i]
  {
    hide Encode19696;
    DataCellHolds(data12, i);
  }

  /** The cells without data, R3 to R0, are zero. */
  lemma ReservedCells(data12: Bytes12, k: nat)
    requires k < 4
    ensures Encode19696(data12)[k] == 0
  {
    hide Encode19696, Ham15113;
    if k == 0 {
      FirstCell(data12);
    } else {
      DataRows(data12, 0);
      assert Encode19696(data12)[k] == Row(Encode19696(data12), 0)[k - 1];
      assert CodeRow(Raw(data12), 0)[k - 1] == Raw(data12)[k];
    }
  }

  lemma FirstCell(data12: Bytes12)
    ensures Encode19696(data12)[0] == 0
  {
    hide CodeRows, Raw, Ham1393;
  }

  /** Where on air bit `i` of link-control word and parity is found. */
  lemma BitOnAir(lc: Bytes9, isTerm: bool, i: nat)
    requires i < 96
    ensures EncodeLc(lc, isTerm)[181 * (1 + 15 * ((i + 3) / 11) + (i + 3) % 11) % 196]
         == BytesToBits(LcWord(lc, isTerm))[i]
  {
    hide Encode19696, LcParity, Interleave, BytesToBits;
    var m := Encode19696(LcWord(lc, isTerm));
    DataCellHolds(LcWord(lc, isTerm), i);
    InterleaveAt(m, 1 + 15 * ((i + 3) / 11) + (i + 3) % 11);
  }

  /** Decoding inverts encoding, for both frame kinds. */
  lemma LcRoundTrip(lc: Bytes9, isTerm: bool)
    ensures DecodeFullLc(EncodeLc(lc, isTerm)) == lc
  {
    hide Encode19696, LcParity, Interleave, DecodeLcIdx, LcCell;
    var data12 := LcWord(lc, isTerm);
    var m, bits := Encode19696(data12), PickedBits(EncodeLc(lc, isTerm));
    forall i | 0 <= i < 72 ensures bits[i] == BytesToBits(lc)[i] {
      DecodeLcIdxFormula(i);
      InterleaveAt(m, LcCell(i));
      LcCellHolds(data12, i);
      assert data12[i / 8] == lc[i / 8];
    }
    assert bits == BytesToBits(lc);
    BytesRoundTrip(lc);
  }

  /** Two different link-control words are at least nine bits apart on air. */
  lemma EncodeLcDistance(lc: Bytes9, lc': Bytes9, isTerm: bool)
    requires lc != lc'
    ensures Dist(EncodeLc(lc, isTerm), EncodeLc(lc', isTerm)) >= 9
  {
    hide Encode19696, LcParity, Interleave, Dist;
    var w, w' := LcWord(lc, isTerm), LcWord(lc', isTerm);
    assert w[..9] == lc && w'[..9] == lc';
    EncodeDistance(w, w');
    InterleaveKeepsDistance(Encode19696(w), Encode19696(w'));
  }
}
