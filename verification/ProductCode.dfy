/** What BPTC(196,96) encoding achieves: a product of two Hamming codes, with
    minimum distance nine. */
module ProductCode {
  import opened Bits
  import opened Distance
  import opened ParityCheck
  import opened Hamming
  import opened Bptc

  function At(r: nat, c: nat): (k: nat)
    requires r < 13 && c < 15
    ensures 1 <= k < 196
  {
    1 + 15 * r + c
  }

  function Row(m: Bits196, r: nat): Bits15
    requires r < 13
  {
    seq(15, c requires 0 <= c < 15 => m[At(r, c)])
  }

  function Column(m: Bits196, c: nat): (column: seq<Bit>)
    requires c < 15
    ensures |column| == 13
  {
    seq(13, r requires 0 <= r < 13 => m[At(r, c)])
  }

  /** All thirteen rows and all fifteen columns are Hamming words. */
  ghost predicate IsProductCodeword(m: seq<Bit>) {
    && |m| == 196 && m[0] == 0
    && (forall r: nat :: r < 13 ==> InCode(H15, Row(m, r)))
    && (forall c: nat :: c < 15 ==> InCode(H13, Column(m, c)))
  }

  lemma {:induction false} CodeRowsSlice(raw: Bits100, n: nat, r: nat)
    requires r < n <= 9
    ensures CodeRows(raw, n)[15 * r..15 * r + 15] == CodeRow(raw, r)
  {
    hide Ham15113;
    if r < n - 1 {
      CodeRowsSlice(raw, n - 1, r);
      assert CodeRows(raw, n)[15 * r..15 * r + 15] == CodeRows(raw, n - 1)[15 * r..15 * r + 15];
    }
  }

  /** The first nine rows are the data rows with their parity bits. */
  lemma DataRows(data12: Bytes12, r: nat)
    requires r < 9
    ensures Row(Encode19696(data12), r) == CodeRow(Raw(data12), r)
  {
    hide Ham15113, Ham1393;
    var m, rows := Encode19696(data12), CodeRows(Raw(data12), 9);
    CodeRowsSlice(Raw(data12), 9, r);
    forall c | 0 <= c < 15 ensures Row(m, r)[c] == CodeRow(Raw(data12), r)[c] {
      assert m[At(r, c)] == rows[15 * r + c] == rows[15 * r..15 * r + 15][c];
    }
  }

  /** Every column is its nine data bits with their parity bits. */
  lemma AllColumns(data12: Bytes12, c: nat)
    requires c < 15
    ensures var d := ColumnData([0] + CodeRows(Raw(data12), 9), c);
            Column(Encode19696(data12), c) == d + Ham1393(d)
  {
    hide Ham15113, Ham1393;
    var m, top := Encode19696(data12), [0] + CodeRows(Raw(data12), 9);
    var d := ColumnData(top, c);
    forall r | 0 <= r < 13 ensures Column(m, c)[r] == (d + Ham1393(d))[r] {
      if r >= 9 {
        var k := 15 * (r - 9) + c;
        assert k / 15 == r - 9 && k % 15 == c && At(r, c) == 136 + k;
      }
    }
  }

  /** In every column, the parity cells sum the same data cells. */
  lemma ParityCells(data12: Bytes12, c: nat)
    requires c < 15
    ensures var d := Column(Encode19696(data12), c);
            && d[9] == d[0]^d[1]^d[3]^d[5]^d[6]
            && d[10] == d[0]^d[1]^d[2]^d[4]^d[6]^d[7]
            && d[11] == d[0]^d[1]^d[2]^d[3]^d[5]^d[7]^d[8]
            && d[12] == d[0]^d[2]^d[4]^d[5]^d[8]
  {
    hide Encode19696, ColumnData, CodeRows, Raw;
    AllColumns(data12, c);
  }

  lemma CellOfRow(m: Bits196, r: nat, c: nat)
    requires r < 13 && c < 15
    ensures Row(m, r)[c] == Column(m, c)[r]
  {
  }

  /** Check row 9 is the XOR of the data rows that the column check sums. */
  lemma ParityRow9(data12: Bytes12)
    ensures var m := Encode19696(data12);
            Row(m, 9) == Xor5(Row(m, 0), Row(m, 1), Row(m, 3), Row(m, 5), Row(m, 6))
  {
    hide Encode19696, Row, Column;
    var m := Encode19696(data12);
    forall c | 0 <= c < 15
      ensures Row(m, 9)[c] == Row(m, 0)[c] ^ Row(m, 1)[c] ^ Row(m, 3)[c] ^ Row(m, 5)[c] ^ Row(m, 6)[c]
    {
      ParityCells(data12, c);
      CellOfRow(m, 0, c); CellOfRow(m, 1, c); CellOfRow(m, 3, c);
      CellOfRow(m, 5, c); CellOfRow(m, 6, c); CellOfRow(m, 9, c);
    }
  }

  lemma ParityRow10(data12: Bytes12)
    ensures var m := Encode19696(data12);
            Row(m, 10) == XorWord(Xor5(Row(m, 0), Row(m, 1), Row(m, 2), Row(m, 4), Row(m, 6)), Row(m, 7))
  {
    hide Encode19696, Row, Column;
    var m := Encode19696(data12);
    forall c | 0 <= c < 15
      ensures Row(m, 10)[c] == Row(m, 0)[c] ^ Row(m, 1)[c] ^ Row(m, 2)[c] ^ Row(m, 4)[c] ^ Row(m, 6)[c] ^ Row(m, 7)[c]
    {
      ParityCells(data12, c);
      CellOfRow(m, 0, c); CellOfRow(m, 1, c); CellOfRow(m, 2, c); CellOfRow(m, 4, c); CellOfRow(m, 6, c);
      CellOfRow(m, 7, c); CellOfRow(m, 10, c);
    }
  }

  lemma ParityRow11(data12: Bytes12)
    ensures var m := Encode19696(data12);
            Row(m, 11) == XorWord(XorWord(Xor5(Row(m, 0), Row(m, 1), Row(m, 2), Row(m, 3), Row(m, 5)), Row(m, 7)),
                                  Row(m, 8))
  {
    hide Encode19696, Row, Column;
    var m := Encode19696(data12);
    forall c | 0 <= c < 15
      ensures Row(m, 11)[c] == Row(m, 0)[c] ^ Row(m, 1)[c] ^ Row(m, 2)[c] ^ Row(m, 3)[c] ^ Row(m, 5)[c] ^ Row(m, 7)[c]
              ^ Row(m, 8)[c]
    {
      ParityCells(data12, c);
      CellOfRow(m, 0, c); CellOfRow(m, 1, c); CellOfRow(m, 2, c); CellOfRow(m, 3, c); CellOfRow(m, 5, c);
      CellOfRow(m, 7, c); CellOfRow(m, 8, c); CellOfRow(m, 11, c);
    }
  }

  lemma ParityRow12(data12: Bytes12)
    ensures var m := Encode19696(data12);
            Row(m, 12) == Xor5(Row(m, 0), Row(m, 2), Row(m, 4), Row(m, 5), Row(m, 8))
  {
    hide Encode19696, Row, Column;
    var m := Encode19696(data12);
    forall c | 0 <= c < 15
      ensures Row(m, 12)[c] == Row(m, 0)[c] ^ Row(m, 2)[c] ^ Row(m, 4)[c] ^ Row(m, 5)[c] ^ Row(m, 8)[c]
    {
      ParityCells(data12, c);
      CellOfRow(m, 0, c); CellOfRow(m, 2, c); CellOfRow(m, 4, c);
      CellOfRow(m, 5, c); CellOfRow(m, 8, c); CellOfRow(m, 12, c);
    }
  }

  function Xor5(a: seq<Bit>, b: seq<Bit>, c: seq<Bit>, d: seq<Bit>, e: seq<Bit>): seq<Bit>
    requires |a| == |b| == |c| == |d| == |e|
  {
    XorWord(XorWord(XorWord(XorWord(a, b), c), d), e)
  }

  lemma Xor5InCode(h: seq<Check>, a: seq<Bit>, b: seq<Bit>, c: seq<Bit>, d: seq<Bit>, e: seq<Bit>)
    requires |a| == |b| == |c| == |d| == |e|
    requires InCode(h, a) && InCode(h, b) && InCode(h, c) && InCode(h, d) && InCode(h, e)
    ensures InCode(h, Xor5(a, b, c, d, e))
  {
    InCodeXor(h, a, b);
    InCodeXor(h, XorWord(a, b), c);
    InCodeXor(h, XorWord(XorWord(a, b), c), d);
    InCodeXor(h, XorWord(XorWord(XorWord(a, b), c), d), e);
  }

  /** The checks on checks hold: parity rows are Hamming words as well. */
  lemma ParityRowsInCode(data12: Bytes12, r: nat)
    requires 9 <= r < 13
    requires forall i: nat :: i < 9 ==> InCode(H15, Row(Encode19696(data12), i))
    ensures InCode(H15, Row(Encode19696(data12), r))
  {
    hide Encode19696, Row, InCode, XorWord;
    var m := Encode19696(data12);
    match r {
      case 9 =>
        ParityRow9(data12);
        Xor5InCode(H15, Row(m, 0), Row(m, 1), Row(m, 3), Row(m, 5), Row(m, 6));
      case 10 =>
        ParityRow10(data12);
        Xor5InCode(H15, Row(m, 0), Row(m, 1), Row(m, 2), Row(m, 4), Row(m, 6));
        InCodeXor(H15, Xor5(Row(m, 0), Row(m, 1), Row(m, 2), Row(m, 4), Row(m, 6)), Row(m, 7));
      case 11 =>
        ParityRow11(data12);
        var x := Xor5(Row(m, 0), Row(m, 1), Row(m, 2), Row(m, 3), Row(m, 5));
        Xor5InCode(H15, Row(m, 0), Row(m, 1), Row(m, 2), Row(m, 3), Row(m, 5));
        InCodeXor(H15, x, Row(m, 7));
        InCodeXor(H15, XorWord(x, Row(m, 7)), Row(m, 8));
      case _ =>
        ParityRow12(data12);
        Xor5InCode(H15, Row(m, 0), Row(m, 2), Row(m, 4), Row(m, 5), Row(m, 8));
    }
  }

  /** BPTC(196,96) encoding yields a codeword of the product code. */
  lemma EncodeIsProductCodeword(data12: Bytes12)
    ensures IsProductCodeword(Encode19696(data12))
  {
    hide Encode19696, InCode, Ham15113, Ham1393, Row, Column;
    var m := Encode19696(data12);
    assert m[0] == 0 by { FirstBit(data12); }
    forall r: nat | r < 9 ensures InCode(H15, Row(m, r)) {
      DataRows(data12, r);
      Ham15113InCode(DataRow(Raw(data12), r));
    }
    forall r: nat | 9 <= r < 13 ensures InCode(H15, Row(m, r)) {
      ParityRowsInCode(data12, r);
    }
    forall c: nat | c < 15 ensures InCode(H13, Column(m, c)) {
      AllColumns(data12, c);
      Ham1393InCode(ColumnData([0] + CodeRows(Raw(data12), 9), c));
    }
  }

  lemma FirstBit(data12: Bytes12)
    ensures Encode19696(data12)[0] == 0
  {
    hide Ham1393, CodeRows;
  }

  /** Different data words have different first rows. */
  lemma DifferentRow(data12: Bytes12, data12': Bytes12) returns (r: nat)
    requires data12 != data12'
    ensures r < 9 && Row(Encode19696(data12), r) != Row(Encode19696(data12'), r)
  {
    hide Encode19696, Ham15113, Row;
    var raw, raw' := Raw(data12), Raw(data12');
    if BytesToBits(data12) == BytesToBits(data12') {
      BytesRoundTrip(data12);
      BytesRoundTrip(data12');
      assert false;
    }
    var k: nat :| k < 96 && BytesToBits(data12)[k] != BytesToBits(data12')[k];
    r := (k + 3) / 11;
    DataRows(data12, r);
    DataRows(data12', r);
    var c := (k + 3) % 11;
    assert raw[k + 4] != raw'[k + 4] && k + 4 == 1 + 11 * r + c;
    assert CodeRow(raw, r)[c] == raw[k + 4] && CodeRow(raw', r)[c] == raw'[k + 4];
  }

  /** Two product codewords that differ in a row differ in nine positions:
      in three columns of that row, and in three rows of each of those. */
  lemma ProductDistance(m: seq<Bit>, m': seq<Bit>, r: nat)
    requires IsProductCodeword(m) && IsProductCodeword(m') && r < 13 && Row(m, r) != Row(m', r)
    ensures Dist(m, m') >= 9
  {
    hide InCode;
    H15Separates();
    var cs := DistanceThree(H15, Row(m, r), Row(m', r));
    var w0 := ColumnWitness(m, m', cs[0], r);
    var w1 := ColumnWitness(m, m', cs[1], r);
    var w2 := ColumnWitness(m, m', cs[2], r);
    NineWitness(m, m', w0, w1, w2, cs);
    WitnessBound(m, m', w0 + w1 + w2);
  }

  /** `w` lists three cells of column `c` at which `m` and `m'` differ. */
  ghost predicate InColumn(m: Bits196, m': Bits196, w: seq<nat>, c: nat)
  {
    |w| == 3 && Witness(m, m', w) && forall i :: 0 <= i < 3 ==> 1 <= w[i] < 196 && (w[i] - 1) % 15 == c
  }

  lemma ColumnWitness(m: seq<Bit>, m': seq<Bit>, c: nat, r: nat) returns (w: seq<nat>)
    requires IsProductCodeword(m) && IsProductCodeword(m') && r < 13 && c < 15 && Row(m, r)[c] != Row(m', r)[c]
    ensures InColumn(m, m', w, c)
  {
    hide InCode;
    H13Separates();
    assert Column(m, c)[r] != Column(m', c)[r];
    var rs := DistanceThree(H13, Column(m, c), Column(m', c));
    w := [At(rs[0], c), At(rs[1], c), At(rs[2], c)];
    assert Column(m, c)[rs[0]] != Column(m', c)[rs[0]] && Column(m, c)[rs[1]] != Column(m', c)[rs[1]];
    assert Column(m, c)[rs[2]] != Column(m', c)[rs[2]];
  }

  lemma NineWitness(m: Bits196, m': Bits196, w0: seq<nat>, w1: seq<nat>, w2: seq<nat>, cs: seq<nat>)
    requires |cs| == 3 && Distinct(cs)
    requires InColumn(m, m', w0, cs[0]) && InColumn(m, m', w1, cs[1]) && InColumn(m, m', w2, cs[2])
    ensures Witness(m, m', w0 + w1 + w2)
  {
    var w := w0 + w1 + w2;
    forall i | 0 <= i < 9 ensures 1 <= w[i] < 196 && (w[i] - 1) % 15 == cs[i / 3] && m[w[i]] != m'[w[i]] {
    }
    forall i, j | 0 <= i < j < 9 ensures w[i] != w[j] {
      if i / 3 == j / 3 {
        var v := if i < 3 then w0 else if i < 6 then w1 else w2;
        assert w[i] == v[i % 3] && w[j] == v[j % 3];
      } else {
        assert cs[i / 3] != cs[j / 3];
      }
    }
  }

  /** Two different 12-byte words are encoded at least nine bits apart. */
  lemma EncodeDistance(data12: Bytes12, data12': Bytes12)
    requires data12 != data12'
    ensures Dist(Encode19696(data12), Encode19696(data12')) >= 9
  {
    hide Encode19696;
    EncodeIsProductCodeword(data12);
    EncodeIsProductCodeword(data12');
    var r := DifferentRow(data12, data12');
    ProductDistance(Encode19696(data12), Encode19696(data12'), r);
  }
}
