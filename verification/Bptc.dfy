/** BPTC(196,96): nine rows of Hamming(15,11) and fifteen columns of
    Hamming(13,9), built by inserting parity bits into the data in place. */
module Bptc {
  import opened Bits
  import opened Hamming

  // ---------- In-place insertion ----------

  function Inserted<T>(s: seq<T>, pos: nat, v: T): (r: seq<T>)
    requires pos <= |s|
    ensures |r| == |s| + 1
  {
    s[..pos] + [v] + s[pos..]
  }

  /** One more element at `pos`; what stood there and behind it moves up a place. */
  method BitInsert(buf: array<Bit>, len: nat, pos: nat, v: Bit) returns (len': nat)
    requires pos <= len < buf.Length
    modifies buf
    ensures len' == len + 1
    ensures buf[..len'] == Inserted(old(buf[..len]), pos, v)
    ensures forall k :: len' <= k < buf.Length ==> buf[k] == old(buf[k])
  {
    var i := len;
    while i > pos
      invariant pos <= i <= len
      invariant forall k :: 0 <= k < i ==> buf[k] == old(buf[k])
      invariant forall k :: i < k <= len ==> buf[k] == old(buf[k - 1])
      invariant forall k :: len < k < buf.Length ==> buf[k] == old(buf[k])
    {
      buf[i] := buf[i - 1];
      i := i - 1;
    }
    buf[pos] := v;
    len' := len + 1;
  }

  /** Inserting the elements of `v` one after the other from `pos` on. */
  method BitInsertAll(buf: array<Bit>, len: nat, pos: nat, v: seq<Bit>) returns (len': nat)
    requires pos <= len && len + |v| <= buf.Length
    modifies buf
    ensures len' == len + |v|
    ensures buf[..len'] == old(buf[..len])[..pos] + v + old(buf[..len])[pos..]
    ensures forall k :: len' <= k < buf.Length ==> buf[k] == old(buf[k])
  {
    ghost var s := buf[..len];
    len' := len;
    for p := 0 to |v|
      invariant len' == len + p
      invariant buf[..len'] == s[..pos] + v[..p] + s[pos..]
      invariant forall k :: len + |v| <= k < buf.Length ==> buf[k] == old(buf[k])
    {
      InsertedNext(s, pos, v, p);
      len' := BitInsert(buf, len', pos + p, v[p]);
    }
    assert v[..|v|] == v;
  }

  lemma InsertedNext(s: seq<Bit>, pos: nat, v: seq<Bit>, p: nat)
    requires pos <= |s| && p < |v|
    ensures Inserted(s[..pos] + v[..p] + s[pos..], pos + p, v[p]) == s[..pos] + v[..p + 1] + s[pos..]
  {
  }

  // ---------- The encoder ----------

  /** The 96 data bits behind the four zero bits R3..R0; bit 0 is in no row. */
  function Raw(data12: Bytes12): Bits100 {
    [0, 0, 0, 0] + BytesToBits(data12)
  }

  function DataRow(raw: Bits100, r: nat): Bits11
    requires r < 9
  {
    raw[1 + 11 * r..12 + 11 * r]
  }

  function CodeRow(raw: Bits100, r: nat): Bits15
    requires r < 9
  {
    DataRow(raw, r) + Ham15113(DataRow(raw, r))
  }

  function CodeRows(raw: Bits100, n: nat): (rows: seq<Bit>)
    requires n <= 9
    ensures |rows| == 15 * n
  {
    if n == 0 then [] else CodeRows(raw, n - 1) + CodeRow(raw, n - 1)
  }

  /** The nine data bits of column `c`. */
  function ColumnData(top: seq<Bit>, c: nat): Bits9
    requires |top| >= 136 && c < 15
  {
    seq(9, i requires 0 <= i < 9 => top[1 + c + 15 * i])
  }

  function Encode19696(data12: Bytes12): Bits196 {
    WithColumns([0] + CodeRows(Raw(data12), 9))
  }

  function WithColumns(top: Bits136): Bits196 {
    top + seq(60, k requires 0 <= k < 60 => Ham1393(ColumnData(top, k % 15))[k / 15])
  }

  method EncodeRows(ghost raw: Bits100, buf: array<Bit>) returns (len: nat)
    requires buf.Length == 210 && buf[..100] == raw
    modifies buf
    ensures len == 136 && buf[..136] == RowsDone(raw, 9)
  {
    hide Ham15113;
    len := 100;
    assert RowsDone(raw, 0) == raw;
    for index := 0 to 9
      invariant len == 100 + 4 * index
      invariant buf[..len] == RowsDone(raw, index)
    {
      var spos := index * 15 + 1;
      var epos := spos + 11;
      ghost var s := buf[..len];
      RowInPlace(raw, index);
      StretchOfPrefix(buf, len, spos, epos);
      var csum := Ham15113(buf[spos..epos]);
      len := BitInsertAll(buf, len, epos, csum);
    }
  }

  /** The buffer with the first `n` rows encoded. */
  ghost function RowsDone(raw: Bits100, n: nat): (s: seq<Bit>)
    requires n <= 9
    ensures |s| == 100 + 4 * n
  {
    raw[..1] + CodeRows(raw, n) + raw[1 + 11 * n..]
  }

  /** Inserting its parity bits behind row `r` encodes it. */
  lemma RowInPlace(raw: Bits100, r: nat)
    requires r < 9
    ensures var s, spos, epos := RowsDone(raw, r), 15 * r + 1, 15 * r + 12;
            && s[spos..epos] == DataRow(raw, r)
            && RowsDone(raw, r + 1) == s[..epos] + Ham15113(DataRow(raw, r)) + s[epos..]
  {
    hide Ham15113, CodeRows;
    CodeRowsNext(raw, r);
    var s, done := RowsDone(raw, r), raw[..1] + CodeRows(raw, r);
    assert s[..15 * r + 12] == done + DataRow(raw, r);
    assert s[15 * r + 12..] == raw[12 + 11 * r..];
  }

  lemma CodeRowsNext(raw: Bits100, r: nat)
    requires r < 9
    ensures CodeRows(raw, r + 1) == CodeRows(raw, r) + (DataRow(raw, r) + Ham15113(DataRow(raw, r)))
  {
    hide Ham15113, DataRow;
  }

  /** `dmr_bptc_encode_19696`. */
  method BptcEncode19696(data12: Bytes12) returns (out196: seq<Bit>)
    ensures out196 == Encode19696(data12)
  {
    hide Ham15113, Ham1393, CodeRows, WithColumns, RowsDone;
    var buf := new Bit[210];
    BytesToBitsInto(data12, buf, 0);
    var len := 96;
    len := InsertReserved(buf, len);
    assert buf[..100] == Raw(data12);
    len := EncodeRows(Raw(data12), buf);
    len := PadZeros(buf, len, RowsDone(Raw(data12), 9));
    ghost var top := [0] + CodeRows(Raw(data12), 9);
    AllRowsDone(data12);
    EncodeColumns(buf, top);
    out196 := buf[..196];
  }

  lemma AllRowsDone(data12: Bytes12)
    ensures RowsDone(Raw(data12), 9) == [0] + CodeRows(Raw(data12), 9)
  {
    hide CodeRows;
  }

  method PadZeros(buf: array<Bit>, len: nat, ghost done: seq<Bit>) returns (len': nat)
    requires len == 136 && buf.Length == 210 && buf[..136] == done
    modifies buf
    ensures len' == 196 && buf[..136] == done
  {
    len' := len;
    while len' < 196
      invariant 136 <= len' <= 196 && buf[..136] == done
    {
      buf[len'] := 0;
      len' := len' + 1;
    }
  }

  /** The four zero bits at the front. */
  method InsertReserved(buf: array<Bit>, len: nat) returns (len': nat)
    requires len + 4 <= buf.Length
    modifies buf
    ensures len' == len + 4 && buf[..len'] == [0, 0, 0, 0] + old(buf[..len])
  {
    ghost var s := buf[..len];
    var zeros: seq<Bit> := [0, 0, 0, 0];
    len' := len;
    for i := 0 to 4
      invariant len' == len + i && buf[..len'] == zeros[..i] + s
    {
      ReservedNext(s, i);
      len' := BitInsert(buf, len', 0, 0);
    }
  }

  lemma ReservedNext(s: seq<Bit>, i: nat)
    requires i < 4
    ensures var zeros: seq<Bit> := [0, 0, 0, 0]; Inserted(zeros[..i] + s, 0, 0) == zeros[..i + 1] + s
  {
  }

  /** Column parity, written in place below the nine rows. */
  method EncodeColumns(buf: array<Bit>, ghost top: Bits136)
    requires buf.Length >= 196 && buf[..136] == top
    modifies buf
    ensures buf[..196] == WithColumns(top)
  {
    hide Ham1393;
    for col := 0 to 15
      invariant buf[..136] == top
      invariant forall k :: 0 <= k < 60 && k % 15 < col ==> buf[136 + k] == Ham1393(ColumnData(top, k % 15))[k / 15]
    {
      var column := new Bit[9];
      var spos := col + 1;
      for index := 0 to 9
        invariant spos == col + 1 + 15 * index && buf[..136] == top
        invariant column[..index] == ColumnData(top, col)[..index]
        invariant forall k :: 0 <= k < 60 && k % 15 < col ==> buf[136 + k] == Ham1393(ColumnData(top, k % 15))[k / 15]
      {
        assert buf[spos] == top[spos];
        column[index] := buf[spos];
        spos := spos + 15;
      }
      assert column[..] == ColumnData(top, col);
      var csum := Ham1393(column[..]);
      WriteColumn(buf, top, col, csum);
    }
  }

  method WriteColumn(buf: array<Bit>, ghost top: Bits136, col: nat, csum: seq<Bit>)
    requires buf.Length >= 196 && buf[..136] == top && col < 15
    requires csum == Ham1393(ColumnData(top, col))
    modifies buf
    ensures buf[..136] == top
    ensures forall k :: 0 <= k < 60 && k % 15 == col ==> buf[136 + k] == csum[k / 15]
    ensures forall k :: 0 <= k < 60 && k % 15 != col ==> buf[136 + k] == old(buf[136 + k])
  {
    hide Ham1393;
    var cpar := 136 + col;
    for p := 0 to 4
      invariant cpar == 136 + col + 15 * p && buf[..136] == top
      invariant forall k :: 0 <= k < 60 && k % 15 == col && k / 15 < p ==> buf[136 + k] == csum[k / 15]
      invariant forall k :: 0 <= k < 60 && k % 15 != col ==> buf[136 + k] == old(buf[136 + k])
    {
      buf[cpar] := csum[p];
      cpar := cpar + 15;
    }
  }
}
