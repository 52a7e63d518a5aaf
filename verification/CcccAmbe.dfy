/** Three 49-bit AMBE frames in a 21-byte CC-CC voice payload. */
module CcccAmbe {
  import opened Bits

  // ---------- The lane permutation ----------

  const CCCC_AMBE_PERM: seq<seq<nat>> := [
    [ 0, 18, 36,  1, 19, 37,  2], [20, 38,  3, 21, 39,  4, 22], [40,  5, 23, 41,  6, 24, 42],
    [ 7, 25, 43,  8, 26, 44,  9], [27, 45, 10, 28, 46, 11, 29], [47, 12, 30, 48, 13, 31, 14],
    [32, 15, 33, 16, 34, 17, 35]]

  /** A bit of a frame, or a wire position. */
  type Place49 = j: nat | j < 49

  /** Entry `j` of the table: the bit of the frame carried in wire position `j`. */
  function Perm(j: Place49): Place49 {
    CCCC_AMBE_PERM[j / 7][j % 7]
  }

  /** Write the frame in rows of 18, 18 and 13 bits and read down the columns. */
  function Lane(j: Place49): Place49 {
    if j < 39 then 18 * (j % 3) + j / 3 else 18 * ((j - 39) % 2) + 13 + (j - 39) / 2
  }

  /** The wire position of bit `i` of the frame. */
  function Slot(i: Place49): Place49 {
    if i % 18 < 13 then 3 * (i % 18) + i / 18 else 39 + 2 * (i % 18 - 13) + i / 18
  }

  lemma TablePerm(r: nat, c: nat)
    requires r < 7 && c < 7
    ensures CCCC_AMBE_PERM[r][c] == Lane(7 * r + c)
  {
    if r < 4 {
      TableTop(r, c);
    } else {
      TableBottom(r, c);
    }
  }

  lemma TableTop(r: nat, c: nat)
    requires r < 4 && c < 7
    ensures CCCC_AMBE_PERM[r][c] == Lane(7 * r + c)
  {
  }

  lemma TableBottom(r: nat, c: nat)
    requires 4 <= r < 7 && c < 7
    ensures CCCC_AMBE_PERM[r][c] == Lane(7 * r + c)
  {
  }

  lemma PermAt(j: Place49)
    ensures Perm(j) == Lane(j)
  {
    hide Lane;
    TablePerm(j / 7, j % 7);
    assert 7 * (j / 7) + j % 7 == j;
  }

  /** The permutation is a column read of the 18/18/13 grid, and `Slot` inverts it. */
  lemma PermIsLane(j: Place49)
    ensures Perm(j) == Lane(j) && Slot(Perm(j)) == j && Perm(Slot(j)) == j
  {
    hide Lane, Slot, Perm;
    PermAt(j);
    SlotLane(j);
    PermAt(Slot(j));
    LaneSlot(j);
  }

  lemma SlotLane(j: Place49)
    ensures Slot(Lane(j)) == j
  {
    if j < 39 {
      assert Lane(j) / 18 == j % 3 && Lane(j) % 18 == j / 3;
    } else {
      assert Lane(j) / 18 == (j - 39) % 2 && Lane(j) % 18 == 13 + (j - 39) / 2;
    }
  }

  lemma LaneSlot(i: Place49)
    ensures Lane(Slot(i)) == i
  {
    var r, c := i / 18, i % 18;
    if c < 13 {
      assert Slot(i) % 3 == r && Slot(i) / 3 == c;
    } else {
      assert (Slot(i) - 39) % 2 == r && (Slot(i) - 39) / 2 == c - 13;
    }
  }

  // ---------- One frame in seven bytes ----------

  function ToWire(frame: Bits49): Bits49 {
    seq(49, j requires 0 <= j < 49 => frame[Perm(j)])
  }

  function FromWire(wire: Bits49): Bits49 {
    seq(49, i requires 0 <= i < 49 => wire[Slot(i)])
  }

  lemma WireInverse(bits: Bits49)
    ensures FromWire(ToWire(bits)) == bits && ToWire(FromWire(bits)) == bits
  {
    hide Perm, Slot;
    forall j: nat | j < 49 ensures FromWire(ToWire(bits))[j] == bits[j] && ToWire(FromWire(bits))[j] == bits[j] {
      PermIsLane(j);
    }
  }

  /** Bits 0 to 47 fill six bytes; bit 48 is the top of the seventh. */
  function Unit(frame: Bits49): Bytes7 {
    BitsToBytes(ToWire(frame)[..48]) + [LastByte(ToWire(frame)[48])]
  }

  function LastByte(b: Bit): Byte {
    if b == 1 then 0x80 else 0x00
  }

  function LastBit(x: Byte): Bit {
    if x & 0x80 != 0 then 1 else 0
  }

  function FrameOf(unit: Bytes7): Bits49 {
    FromWire(BytesToBits(unit[..6]) + [LastBit(unit[6])])
  }

  lemma FrameRoundTrip(frame: Bits49)
    ensures FrameOf(Unit(frame)) == frame
  {
    hide ToWire, FromWire, BitsToBytes, BytesToBits;
    var wire, unit := ToWire(frame), Unit(frame);
    BitsRoundTrip(wire[..48]);
    assert unit[..6] == BitsToBytes(wire[..48]);
    assert wire == wire[..48] + [wire[48]];
    WireInverse(frame);
  }

  lemma LastByteOf(x: Byte)
    ensures LastByte(LastBit(x)) == x & 0x80
  {
  }

  lemma UnitRoundTrip(unit: Bytes7)
    ensures Unit(FrameOf(unit)) == unit[..6] + [unit[6] & 0x80]
  {
    hide ToWire, FromWire, BitsToBytes, BytesToBits, LastByte, LastBit;
    var wire := BytesToBits(unit[..6]) + [LastBit(unit[6])];
    WireInverse(wire);
    assert wire[..48] == BytesToBits(unit[..6]);
    BytesRoundTrip(unit[..6]);
    LastByteOf(unit[6]);
  }

  // ---------- Three frames in 21 bytes ----------

  /** The three frames of a voice payload. */
  type Frames = f: seq<seq<Bit>> | IsFrames(f) witness seq(3, _ => seq(49, _ => 0))

  predicate IsFrames(ambe49: seq<seq<Bit>>) {
    |ambe49| == 3 && forall i :: 0 <= i < 3 ==> |ambe49[i]| == 49
  }

  function Packed(ambe49: Frames): Bytes21 {
    Unit(ambe49[0]) + Unit(ambe49[1]) + Unit(ambe49[2])
  }

  function Unpacked(bytes: Bytes21): (ambe49: Frames)
  {
    [FrameOf(bytes[..7]), FrameOf(bytes[7..14]), FrameOf(bytes[14..])]
  }

  /** Bytes 6, 13 and 20 carry one bit each; the rest of them is padding. */
  function PadCleared(bytes: Bytes21): Bytes21 {
    seq(21, k requires 0 <= k < 21 => if k % 7 == 6 then bytes[k] & 0x80 else bytes[k])
  }

  lemma UnpackPack(ambe49: Frames)
    ensures Unpacked(Packed(ambe49)) == ambe49
  {
    hide Unit, FrameOf;
    var p := Packed(ambe49);
    assert p[..7] == Unit(ambe49[0]) && p[7..14] == Unit(ambe49[1]) && p[14..] == Unit(ambe49[2]);
    FrameRoundTrip(ambe49[0]);
    FrameRoundTrip(ambe49[1]);
    FrameRoundTrip(ambe49[2]);
  }

  /** Unpacking and packing again clears the pad bits and changes nothing else. */
  lemma PackUnpack(bytes: Bytes21)
    ensures Packed(Unpacked(bytes)) == PadCleared(bytes)
  {
    hide Unit, FrameOf;
    UnitRoundTrip(bytes[..7]);
    UnitRoundTrip(bytes[7..14]);
    UnitRoundTrip(bytes[14..]);
    PadClearedUnits(bytes);
  }

  /** Where a payload holds bit `b` of frame `i`, the most significant bit of a byte first. */
  lemma FrameBitAt(ambe49: Frames, i: nat, b: nat)
    requires i < 3 && b < 49
    ensures var place := if b % 18 < 13 then 3 * (b % 18) + b / 18 else 39 + 2 * (b % 18 - 13) + b / 18;
            place < 49 && ByteBit(Packed(ambe49)[7 * i + place / 8], place % 8) == ambe49[i][b]
  {
    hide Perm, BitsToBytes, BytesToBits, ByteBit, LastByte, ToWire, Unit;
    var wire, place := ToWire(ambe49[i]), Slot(b);
    PermIsLane(b);
    UnitBitAt(ambe49[i], place);
    WireAt(ambe49[i], place);
    assert Packed(ambe49)[7 * i..7 * i + 7] == Unit(ambe49[i]);
    assert Packed(ambe49)[7 * i..7 * i + 7][place / 8] == Packed(ambe49)[7 * i + place / 8];
  }

  lemma WireAt(frame: Bits49, j: Place49)
    ensures ToWire(frame)[j] == frame[Perm(j)]
  {
    hide Perm;
  }

  lemma UnitBitAt(frame: Bits49, j: Place49)
    ensures ByteBit(Unit(frame)[j / 8], j % 8) == ToWire(frame)[j]
  {
    hide ToWire, BitsToBytes, BytesToBits, ByteBit, LastByte;
    var wire := ToWire(frame);
    if j < 48 {
      var bytes := BitsToBytes(wire[..48]);
      BitsRoundTrip(wire[..48]);
      BytesToBitsAt(bytes, j / 8, j % 8);
      assert BytesToBits(bytes)[j] == wire[..48][j] == wire[j];
    } else {
      TopBit(wire[48]);
    }
  }

  lemma TopBit(b: Bit)
    ensures ByteBit(LastByte(b), 0) == b
  {
  }

  lemma PadClearedUnits(bytes: Bytes21)
    ensures PadCleared(bytes) == bytes[..7][..6] + [bytes[6] & 0x80] + (bytes[7..14][..6] + [bytes[13] & 0x80])
                                 + (bytes[14..][..6] + [bytes[20] & 0x80])
  {
  }

  // ---------- As the source computes them ----------

  method Pack21(ambe49: Frames, out21: array<Byte>)
    requires out21.Length == 21
    modifies out21
    ensures out21[..] == Packed(ambe49)
  {
    hide Unit, Perm;
    for i := 0 to 3
      invariant out21[..7 * i] == Packed(ambe49)[..7 * i]
    {
      var wire := new Bit[49];
      for j := 0 to 49
        invariant wire[..j] == ToWire(ambe49[i])[..j]
        invariant out21[..7 * i] == Packed(ambe49)[..7 * i]
      {
        wire[j] := ambe49[i][Perm(j)];
      }
      assert wire[..] == ToWire(ambe49[i]);
      var packed := BitsToBytesOf(wire[..48]);
      UnitBytes(ambe49, i);
      StoreUnit(out21, i, packed, if wire[48] == 1 then 0x80 else 0x00);
    }
  }

  lemma UnitBytes(ambe49: Frames, i: nat)
    requires i < 3
    ensures Packed(ambe49)[..7 * (i + 1)]
         == Packed(ambe49)[..7 * i] + BitsToBytes(ToWire(ambe49[i])[..48]) + [LastByte(ToWire(ambe49[i])[48])]
  {
    hide ToWire, BitsToBytes;
    var p := Packed(ambe49);
    assert p[7 * i..7 * (i + 1)] == Unit(ambe49[i]);
    assert p[..7 * (i + 1)] == p[..7 * i] + p[7 * i..7 * (i + 1)];
  }

  method StoreUnit(out21: array<Byte>, i: nat, packed: seq<Byte>, last: Byte)
    requires out21.Length == 21 && i < 3 && |packed| == 6
    modifies out21
    ensures out21[..7 * (i + 1)] == old(out21[..7 * i]) + packed + [last]
  {
    Copy(out21, 7 * i, packed);
    out21[7 * i + 6] := last;
  }

  lemma LastBits()
    ensures forall x: Byte :: LastBit(x) == if x & 0x80 != 0 then 1 else 0
  {
  }

  lemma UnpackedAt(in21: Bytes21, i: nat)
    requires i < 3
    ensures Unpacked(in21)[i] == FrameOf(in21[i * 7..i * 7 + 7])
  {
    hide FrameOf;
    assert in21[0..7] == in21[..7] && in21[14..21] == in21[14..];
  }

  lemma FrameOfUnit(unit: Bytes7)
    ensures FrameOf(unit) == FromWire(BytesToBits(unit[..6]) + [LastBit(unit[6])])
  {
  }

  method Unpack21(in21: Bytes21) returns (ambe49: array2<Bit>)
    ensures fresh(ambe49) && ambe49.Length0 == 3 && ambe49.Length1 == 49
    ensures forall i: nat, j: nat :: i < 3 && j < 49 ==> ambe49[i, j] == Unpacked(in21)[i][j]
  {
    hide Perm, Slot, BytesToBits, FrameOf, Unpacked, LastBit;
    LastBits();
    ambe49 := new Bit[3, 49];
    for i := 0 to 3
      invariant forall k: nat, j: nat :: k < i && j < 49 ==> ambe49[k, j] == Unpacked(in21)[k][j]
    {
      var unit := in21[i * 7..i * 7 + 7];
      var wire := new Bit[49];
      BytesToBitsInto(unit[..6], wire, 0);
      wire[48] := if unit[6] & 0x80 != 0 then 1 else 0;
      ghost var w := BytesToBits(unit[..6]) + [LastBit(unit[6])];
      assert wire[..] == w;
      UnpackedAt(in21, i);
      FrameOfUnit(unit);
      for j := 0 to 49
        invariant wire[..] == w
        invariant forall k: nat, l: nat :: k < i && l < 49 ==> ambe49[k, l] == Unpacked(in21)[k][l]
        invariant forall l: nat :: l < j ==> ambe49[i, Perm(l)] == w[l]
      {
        forall l: nat | l < j ensures Perm(l) != Perm(j) {
          PermIsLane(l);
          PermIsLane(j);
        }
        ambe49[i, Perm(j)] := wire[j];
      }
      forall l: nat | l < 49 ensures ambe49[i, l] == FromWire(w)[l] {
        PermIsLane(l);
        assert ambe49[i, Perm(Slot(l))] == w[Slot(l)];
      }
    }
  }
}
