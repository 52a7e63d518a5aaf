/** What stands where in a burst: sync patterns, EMB headers, slot types and the three
    speech frames, told by value. */
module BurstLayout {
  import opened Ambe
  import opened Bits
  import opened Burst
  import opened CcccAmbe
  import opened LinkControl

  // ---------- Words ----------

  function Nibble(a: Bit, b: Bit, c: Bit, d: Bit): bv32 {
    ((a as bv32) << 3) | ((b as bv32) << 2) | ((c as bv32) << 1) | (d as bv32)
  }

  function NibbleAt(bits: seq<Bit>, i: nat): bv32
    requires i + 4 <= |bits|
  {
    Nibble(bits[i], bits[i + 1], bits[i + 2], bits[i + 3])
  }

  /** Sixteen bits as a number, the first one highest. */
  function Word16(bits: Bits16): bv32 {
    (NibbleAt(bits, 0) << 12) | (NibbleAt(bits, 4) << 8) | (NibbleAt(bits, 8) << 4) | NibbleAt(bits, 12)
  }

  /** Twenty bits as a number. */
  function Word20(bits: seq<Bit>): bv32
    requires |bits| == 20
  {
    (Word16(bits[..16]) << 4) | NibbleAt(bits, 16)
  }

  /** The product over GF(2) with a factor of at most five bits. */
  function Times(a: bv32, q: bv32): bv32 {
    (if q & 1 != 0 then a else 0) ^ (if q & 2 != 0 then a << 1 else 0) ^ (if q & 4 != 0 then a << 2 else 0)
    ^ (if q & 8 != 0 then a << 3 else 0) ^ (if q & 16 != 0 then a << 4 else 0)
  }

  predicate EvenWeight(n: bv32) {
    var a := n ^ (n >> 16);
    var b := a ^ (a >> 8);
    var c := b ^ (b >> 4);
    var d := c ^ (c >> 2);
    (d ^ (d >> 1)) & 1 == 0
  }

  // ---------- EMB headers ----------

  /** A quadratic-residue codeword of sixteen bits: fifteen that are a multiple of
      x^8 + x^5 + x^4 + x^3 + 1, and one that makes the weight even. */
  ghost predicate IsEmbWord(n: bv32) {
    EvenWeight(n) && exists q: bv32 :: n >> 1 == Times(0x139, q)
  }

  /** Whether a fragment is the first, a middle, the last or none. */
  function Lcss(pos: Place): bv32 {
    match pos case 1 => 1 case 2 => 3 case 3 => 3 case 4 => 2 case _ => 0
  }

  lemma EmbNumbers()
    ensures Word16(EMB[0]) == 0x1391 && Word16(EMB[1]) == 0x1774 && Word16(EMB[2]) == 0x1774
    ensures Word16(EMB[3]) == 0x1507 && Word16(EMB[4]) == 0x11E2
  {
  }

  lemma EmbProducts()
    ensures (0x1391 as bv32) >> 1 == Times(0x139, 0x8) && (0x1774 as bv32) >> 1 == Times(0x139, 0xA)
    ensures (0x1507 as bv32) >> 1 == Times(0x139, 0xB) && (0x11E2 as bv32) >> 1 == Times(0x139, 0x9)
    ensures EvenWeight(0x1391) && EvenWeight(0x1774) && EvenWeight(0x1507) && EvenWeight(0x11E2)
  {
  }

  lemma EmbLength(e: nat)
    requires e < 5
    ensures |EMB[e]| == 16
  {
  }

  lemma HeaderIsWord(emb: Fragments, pos: Place)
    requires 0 < pos
    ensures Embed(emb, pos)[..8] + Embed(emb, pos)[40..] == EMB[pos - 1]
  {
    hide BytesToBits;
    var e := EMB[pos - 1];
    EmbLength(pos - 1);
    assert Embed(emb, pos)[..8] == e[..8] && Embed(emb, pos)[40..] == e[8..16];
    assert e == e[..8] + e[8..16];
  }

  /** Bursts at positions 1 to 5 carry an EMB header around 32 bits: colour code 1, no
      privacy, and which fragment it is, protected by a quadratic-residue code. */
  lemma EmbHeaders(emb: Fragments, pos: Place)
    requires 0 < pos
    ensures var n := Word16(Embed(emb, pos)[..8] + Embed(emb, pos)[40..]);
            n >> 12 == 1 && (n >> 11) & 1 == 0 && (n >> 9) & 3 == Lcss(pos) && IsEmbWord(n)
  {
    hide Embed, Times, EvenWeight, Word16;
    HeaderIsWord(emb, pos);
    EmbNumbers();
    EmbProducts();
  }

  /** Between the halves stands the fragment, and at position 5 zeros. */
  lemma EmbedCentre(emb: Fragments, pos: Place)
    requires 0 < pos
    ensures pos <= 4 ==> Embed(emb, pos)[8..40] == BytesToBits(emb[pos - 1])
    ensures pos == 5 ==> forall k: nat :: 8 <= k < 40 ==> Embed(emb, pos)[k] == 0
  {
    hide BytesToBits, EmbHeader;
  }

  // ---------- Sync patterns ----------

  /** The burst at position 0 carries the voice sync of a base station. */
  lemma VoiceSyncWords(emb: Fragments)
    ensures var s := Embed(emb, 0);
            Word16(s[..16]) == 0x755F && Word16(s[16..32]) == 0xD7DF && Word16(s[32..]) == 0x75F7
  {
    hide Word16;
    var s := Embed(emb, 0);
    assert s[..16] == BS_VOICE_SYNC[0] && s[16..32] == BS_VOICE_SYNC[1] && s[32..] == BS_VOICE_SYNC[2];
    VoiceNumbers();
  }

  lemma VoiceNumbers()
    ensures Word16(BS_VOICE_SYNC[0]) == 0x755F && Word16(BS_VOICE_SYNC[1]) == 0xD7DF
            && Word16(BS_VOICE_SYNC[2]) == 0x75F7
  {
  }

  lemma DataNumbers()
    ensures Word16(BS_DATA_SYNC[0]) == 0xDFF5 && Word16(BS_DATA_SYNC[1]) == 0x7D75 && Word16(BS_DATA_SYNC[2]) == 0xDF5D
  {
  }

  // ---------- Headers and terminators ----------

  /** A Golay codeword of twenty bits: nineteen that are a multiple of 0xC75, and one that
      makes the weight even; it begins with colour code and data type. */
  ghost predicate IsSlotWord(n: bv32, colour: bv32, dataType: bv32) {
    && n >> 16 == colour && (n >> 12) & 0xF == dataType
    && EvenWeight(n) && exists q: bv32 :: n >> 1 == Times(0xC75, q)
  }

  lemma SlotNumbers()
    ensures Word20(SlotType(false, 0) + SlotType(false, 1)) == 0x1_1B8C
    ensures Word20(SlotType(true, 0) + SlotType(true, 1)) == 0x1_2A59
  {
  }

  lemma SlotProducts()
    ensures (0x1_1B8C as bv32) >> 1 == Times(0xC75, 0x1E) && (0x1_2A59 as bv32) >> 1 == Times(0xC75, 0x1C)
    ensures EvenWeight(0x1_1B8C) && EvenWeight(0x1_2A59)
  {
  }

  /** The two information halves of a burst. */
  function InfoBits(payload: Bytes33): Bits196 {
    var b := BytesToBits(payload);
    b[..98] + b[166..]
  }

  /** The slot type, whose halves stand around the sync. */
  function SlotBits(payload: Bytes33): (s: seq<Bit>)
    ensures |s| == 20
  {
    var b := BytesToBits(payload);
    b[98..108] + b[156..166]
  }

  lemma HeadTermParts(lc: Bytes9, isTerm: bool)
    ensures InfoBits(HeadTermPayload(lc, isTerm)) == EncodeLc(lc, isTerm)
    ensures SlotBits(HeadTermPayload(lc, isTerm)) == SlotType(isTerm, 0) + SlotType(isTerm, 1)
    ensures CentreBits(HeadTermPayload(lc, isTerm)) == DataSync()
  {
    hide EncodeLc, BitsToBytes, BytesToBits, SlotType, DataSync;
    var f, b := EncodeLc(lc, isTerm), HeadTermBits(lc, isTerm);
    BitsRoundTrip(b);
    assert b[..98] == f[..98] && b[166..] == f[98..] && f == f[..98] + f[98..];
    assert b[98..108] == SlotType(isTerm, 0) && b[156..166] == SlotType(isTerm, 1);
    assert b[108..156] == DataSync();
  }

  /** The data sync of a base station. */
  predicate IsDataSync(s: Bits48) {
    Word16(s[..16]) == 0xDFF5 && Word16(s[16..32]) == 0x7D75 && Word16(s[32..]) == 0xDF5D
  }

  lemma DataSyncWords()
    ensures IsDataSync(DataSync())
  {
    hide Word16;
    var s := DataSync();
    assert s[..16] == BS_DATA_SYNC[0] && s[16..32] == BS_DATA_SYNC[1] && s[32..] == BS_DATA_SYNC[2];
    DataNumbers();
  }

  /** A header or terminator burst: the codeword in its outer halves, and in the centre
      the data sync of a base station. */
  lemma HeadTermLayout(lc: Bytes9, isTerm: bool)
    ensures InfoBits(HeadTermPayload(lc, isTerm)) == EncodeLc(lc, isTerm)
    ensures IsDataSync(CentreBits(HeadTermPayload(lc, isTerm)))
  {
    hide EncodeLc, InfoBits, SlotBits, CentreBits, HeadTermPayload, DataSync, SlotType, IsDataSync;
    HeadTermParts(lc, isTerm);
    DataSyncWords();
  }

  lemma SlotTypeWord(isTerm: bool)
    ensures IsSlotWord(Word20(SlotType(isTerm, 0) + SlotType(isTerm, 1)), 1, if isTerm then 2 else 1)
  {
    hide SlotType, Word20, Times, EvenWeight;
    SlotNumbers();
    SlotProducts();
  }

  /** Around the centre stands the slot type: colour code 1, and data type 1 for a header,
      2 for a terminator, protected by a Golay code. */
  lemma HeadTermSlotType(lc: Bytes9, isTerm: bool)
    ensures IsSlotWord(Word20(SlotBits(HeadTermPayload(lc, isTerm))), 1, if isTerm then 2 else 1)
  {
    hide EncodeLc, InfoBits, SlotBits, CentreBits, HeadTermPayload, DataSync, SlotType, Word20, IsSlotWord;
    HeadTermParts(lc, isTerm);
    SlotTypeWord(isTerm);
  }

  // ---------- Voice ----------

  /** A voice burst: the first frame, half of the second, the centre, the other half and
      the third frame. */
  lemma VoiceLayout(emb: Fragments, pos: Place, ambe21: Bytes21)
    ensures var b, a := BytesToBits(VoicePayload(emb, pos, ambe21)), Unpacked(ambe21);
            && b[..72] == To72(a[0]) && b[72..108] == To72(a[1])[..36] && b[108..156] == Embed(emb, pos)
            && b[156..192] == To72(a[1])[36..] && b[192..] == To72(a[2])
  {
    hide BytesToBits, BitsToBytes, Embed, To72, Unpacked;
    var a := Unpacked(ambe21);
    var v := VoiceBits(To72(a[0]), To72(a[1]), To72(a[2]), Embed(emb, pos));
    BitsRoundTrip(v);
    assert v[..72] == To72(a[0]) && v[72..108] == To72(a[1])[..36] && v[108..156] == Embed(emb, pos);
    assert v[156..192] == To72(a[1])[36..] && v[192..] == To72(a[2]);
  }

  // ---------- The link-control word ----------

  /** Three zero bytes, then talkgroup and source, most significant byte first. */
  lemma CallLcLayout(tgid: int, src: int)
    ensures var lc := CallLc(tgid, src);
            && lc[0] == 0 && lc[1] == 0 && lc[2] == 0
            && 65536 * (lc[3] as int) + 256 * (lc[4] as int) + lc[5] as int == tgid % 0x100_0000
            && 65536 * (lc[6] as int) + 256 * (lc[7] as int) + lc[8] as int == src % 0x100_0000
  {
    hide Wr24;
    var lc := CallLc(tgid, src);
    ReadWritten24(tgid);
    ReadWritten24(src);
    assert lc[3..6] == Wr24(tgid) && lc[6..9] == Wr24(src);
    assert lc[3..6] == [lc[3], lc[4], lc[5]] && lc[6..9] == [lc[6], lc[7], lc[8]];
  }
}
