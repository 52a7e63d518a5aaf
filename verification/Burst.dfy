/** DMR burst payloads: 33 bytes, 264 bits. */
module Burst {
  import opened Ambe
  import opened Bits
  import opened CcccAmbe
  import opened Distance
  import opened EmbeddedDistance
  import opened EmbeddedLc
  import opened LinkControl
  import opened Octets
  import opened Sequences

  // ---------- DMR constants ----------

  const BS_VOICE_SYNC: seq<seq<Bit>> := [
    [0,1,1,1,0,1,0,1, 0,1,0,1,1,1,1,1], [1,1,0,1,0,1,1,1, 1,1,0,1,1,1,1,1],
    [0,1,1,1,0,1,0,1, 1,1,1,1,0,1,1,1]]
  const BS_DATA_SYNC: seq<seq<Bit>> := [
    [1,1,0,1,1,1,1,1, 1,1,1,1,0,1,0,1], [0,1,1,1,1,1,0,1, 0,1,1,1,0,1,0,1],
    [1,1,0,1,1,1,1,1, 0,1,0,1,1,1,0,1]]
  const EMB: seq<seq<Bit>> := [
    [0,0,0,1,0,0,1,1, 1,0,0,1,0,0,0,1], [0,0,0,1,0,1,1,1, 0,1,1,1,0,1,0,0],
    [0,0,0,1,0,1,1,1, 0,1,1,1,0,1,0,0], [0,0,0,1,0,1,0,1, 0,0,0,0,0,1,1,1],
    [0,0,0,1,0,0,0,1, 1,1,1,0,0,0,1,0]]
  const SLOT_TYPE_VHEAD: seq<seq<Bit>> := [[0,0,0,1,0,0,0,1,1,0], [1,1,1,0,0,0,1,1,0,0]]
  const SLOT_TYPE_VTERM: seq<seq<Bit>> := [[0,0,0,1,0,0,1,0,1,0], [1,0,0,1,0,1,1,0,0,1]]

  function VoiceSync(): Bits48 {
    BS_VOICE_SYNC[0] + BS_VOICE_SYNC[1] + BS_VOICE_SYNC[2]
  }

  function DataSync(): Bits48 {
    BS_DATA_SYNC[0] + BS_DATA_SYNC[1] + BS_DATA_SYNC[2]
  }

  /** Half `h` of the slot type word, ten bits. */
  function SlotType(isTerm: bool, h: nat): (s: seq<Bit>)
    requires h < 2
    ensures |s| == 10
  {
    if isTerm then SLOT_TYPE_VTERM[h] else SLOT_TYPE_VHEAD[h]
  }

  /** Half `h` of the EMB header at index `e`, eight bits. */
  function EmbHeader(e: nat, h: nat): (s: seq<Bit>)
    requires e < 5 && h < 2
    ensures |s| == 8
  {
    EMB[e][8 * h..8 * h + 8]
  }

  // ---------- The link control word ----------

  /** The low 24 bits of `v`, most significant byte first. */
  function Wr24(v: int): Bytes3 {
    [Low8(v / 65536), Low8(v / 256), Low8(v)]
  }

  function Rd24(bytes: Bytes3): (v: nat)
  {
    65536 * (bytes[0] as int) + 256 * (bytes[1] as int) + bytes[2] as int
  }

  lemma ReadWritten24(v: int)
    ensures Rd24(Wr24(v)) == v % 0x100_0000
  {
    Low8Value(v / 65536);
    Low8Value(v / 256);
    Low8Value(v);
    Digits24(v);
  }

  lemma Digits24(v: int)
    ensures 65536 * (v / 65536 % 256) + 256 * (v / 256 % 256) + v % 256 == v % 0x100_0000
  {
    var low, high := v / 256, v / 65536;
    assert v == 256 * low + v % 256;
    assert low == 256 * high + low % 256;
    assert high == 256 * (high / 256) + high % 256;
    assert v == 0x100_0000 * (high / 256) + (65536 * (high % 256) + 256 * (low % 256) + v % 256);
  }

  /** Group call options (all zero), talkgroup and source. */
  function CallLc(tgid: int, src: int): Bytes9 {
    [0, 0, 0] + Wr24(tgid) + Wr24(src)
  }

  lemma CallLcTruncates(tgid: int, src: int)
    ensures CallLc(tgid % 0x100_0000, src % 0x100_0000) == CallLc(tgid, src)
  {
    Wr24Truncates(tgid);
    Wr24Truncates(src);
  }

  lemma Wr24Truncates(v: int)
    ensures Wr24(v % 0x100_0000) == Wr24(v)
  {
    DigitsTruncate(v, v / 0x100_0000);
  }

  lemma DigitsTruncate(v: int, q: int)
    requires q == v / 0x100_0000
    ensures v % 0x100_0000 / 65536 % 256 == v / 65536 % 256
    ensures v % 0x100_0000 / 256 % 256 == v / 256 % 256
    ensures v % 0x100_0000 % 256 == v % 256
  {
    var w := v % 0x100_0000;
    assert v == w + 256 * (65536 * q);
    Period(w / 65536, q, v / 65536);
    Period(w / 256, 256 * q, v / 256);
    Period(w, 65536 * q, v);
  }

  lemma Period(w: int, k: int, v: int)
    requires v == w + 256 * k
    ensures v % 256 == w % 256
  {
  }

  // ---------- Header and terminator bursts ----------

  function HeadTermBits(lc: Bytes9, isTerm: bool): Bits264 {
    var f := EncodeLc(lc, isTerm);
    f[..98] + SlotType(isTerm, 0) + DataSync() + SlotType(isTerm, 1) + f[98..]
  }

  function HeadTermPayload(lc: Bytes9, isTerm: bool): Bytes33 {
    BitsToBytes(HeadTermBits(lc, isTerm))
  }

  /** What a receiver decodes from the two information halves of a burst. */
  function ReceivedLc(payload: Bytes33): Bytes9 {
    var b := BytesToBits(payload);
    DecodeFullLc(b[..98] + b[166..])
  }

  lemma HeadTermRoundTrip(lc: Bytes9, isTerm: bool)
    ensures ReceivedLc(HeadTermPayload(lc, isTerm)) == lc
  {
    hide EncodeLc, DecodeFullLc, BitsToBytes, BytesToBits, SlotType, DataSync;
    var f, b := EncodeLc(lc, isTerm), HeadTermBits(lc, isTerm);
    BitsRoundTrip(b);
    assert b[..98] == f[..98] && b[166..] == f[98..];
    assert f == f[..98] + f[98..];
    LcRoundTrip(lc, isTerm);
  }

  /** A receiver reads zero options, talkgroup `tgid` and source `src`. */
  predicate DecodesTo(payload: Bytes33, tgid: nat, src: nat)
  {
    var lc := ReceivedLc(payload);
    lc[..3] == [0, 0, 0] && Rd24(lc[3..6]) == tgid && Rd24(lc[6..]) == src
  }

  /** Header and terminator of a call decode to zero options and the low 24
      bits of its talkgroup and source. */
  lemma HeadAndTermCarryTheCall(tgid: int, src: int, isTerm: bool)
    ensures DecodesTo(HeadTermPayload(CallLc(tgid, src), isTerm), tgid % 0x100_0000, src % 0x100_0000)
  {
    hide Wr24, Rd24, HeadTermPayload, ReceivedLc;
    var lc := CallLc(tgid, src);
    HeadTermRoundTrip(lc, isTerm);
    assert lc[3..6] == Wr24(tgid) && lc[6..] == Wr24(src);
    ReadWritten24(tgid);
    ReadWritten24(src);
  }

  /** The centre of the burst is the data sync between the halves of the slot type. */
  lemma HeadTermCentre(lc: Bytes9, isTerm: bool)
    ensures var b := BytesToBits(HeadTermPayload(lc, isTerm));
            b[98..108] == SlotType(isTerm, 0) && b[108..156] == DataSync() && b[156..166] == SlotType(isTerm, 1)
  {
    hide EncodeLc, BitsToBytes, BytesToBits, SlotType, DataSync;
    var b := HeadTermBits(lc, isTerm);
    BitsRoundTrip(b);
    assert b[98..108] == SlotType(isTerm, 0);
    assert b[108..156] == DataSync();
    assert b[156..166] == SlotType(isTerm, 1);
  }

  // ---------- Voice bursts ----------

  /** The embedded LC of a call, one fragment for each of positions 1 to 4. */
  type Fragments = e: seq<seq<Byte>> | IsFragments(e) witness NO_FRAGMENTS

  const NO_FRAGMENTS: seq<seq<Byte>> := [[0, 0, 0, 0], [0, 0, 0, 0], [0, 0, 0, 0], [0, 0, 0, 0]]

  /** A place in the six-burst superframe. */
  type Place = n: nat | n < 6

  predicate IsFragments(emb: seq<seq<Byte>>) {
    |emb| == 4 && forall k :: 0 <= k < 4 ==> |emb[k]| == 4
  }

  /** The 48 centre bits: sync, an embedded fragment, or a null fragment. */
  function Embed(emb: Fragments, pos: Place): Bits48 {
    if pos == 0 then VoiceSync()
    else EmbHeader(pos - 1, 0) + (if pos <= 4 then BytesToBits(emb[pos - 1]) else Copies(0, 32)) + EmbHeader(pos - 1, 1)
  }

  function VoiceBits(a1: Bits72, a2: Bits72, a3: Bits72, embed: seq<Bit>): Bits264
    requires |embed| == 48
  {
    a1 + a2[..36] + embed + a2[36..] + a3
  }

  function VoicePayload(emb: Fragments, pos: Place, ambe21: Bytes21): Bytes33 {
    var a := Unpacked(ambe21);
    BitsToBytes(VoiceBits(To72(a[0]), To72(a[1]), To72(a[2]), Embed(emb, pos)))
  }

  function ExtractedAmbe(payload: Bytes33): (ambe49: Frames)
  {
    var b := BytesToBits(payload);
    [To49(b[..72]), To49(b[72..108] + b[156..192]), To49(b[192..])]
  }

  /** The 48 centre bits of a received burst. */
  function CentreBits(payload: Bytes33): Bits48 {
    BytesToBits(payload)[108..156]
  }

  lemma VoiceParts(a1: Bits72, a2: Bits72, a3: Bits72, embed: seq<Bit>)
    requires |embed| == 48
    ensures var b := BytesToBits(BitsToBytes(VoiceBits(a1, a2, a3, embed)));
            b[..72] == a1 && b[72..108] + b[156..192] == a2 && b[192..] == a3 && b[108..156] == embed
  {
    hide BytesToBits, BitsToBytes;
    var b := VoiceBits(a1, a2, a3, embed);
    BitsRoundTrip(b);
    assert b[..72] == a1;
    assert b[72..108] == a2[..36];
    assert b[108..156] == embed;
    assert b[156..192] == a2[36..];
    assert a2 == a2[..36] + a2[36..];
  }

  /** Voice survives the trip to OpenBridge and back at every burst position:
      only the pad bits of the payload are cleared. */
  lemma VoiceTransparency(emb: Fragments, pos: Place, ambe21: Bytes21)
    ensures Packed(ExtractedAmbe(VoicePayload(emb, pos, ambe21))) == PadCleared(ambe21)
  {
    hide BytesToBits, BitsToBytes, VoiceBits, Embed, To72, To49, Unpacked, Packed, PadCleared;
    var a := Unpacked(ambe21);
    VoiceParts(To72(a[0]), To72(a[1]), To72(a[2]), Embed(emb, pos));
    AmbeRoundTrip(a[0]);
    AmbeRoundTrip(a[1]);
    AmbeRoundTrip(a[2]);
    assert ExtractedAmbe(VoicePayload(emb, pos, ambe21)) == a;
    PackUnpack(ambe21);
  }

  /** Whatever the audio, the centre of the burst carries the embed bits. */
  lemma CentreCarriesEmbed(emb: Fragments, pos: Place, ambe21: Bytes21)
    ensures CentreBits(VoicePayload(emb, pos, ambe21)) == Embed(emb, pos)
  {
    hide BytesToBits, BitsToBytes, VoiceBits, Embed, To72, Unpacked;
    var a := Unpacked(ambe21);
    VoiceParts(To72(a[0]), To72(a[1]), To72(a[2]), Embed(emb, pos));
  }

  lemma NoOptions(tgid: int, src: int)
    ensures BytesToBits(CallLc(tgid, src))[19] == 0 && BytesToBits(CallLc(tgid, src))[20] == 0
  {
    hide Wr24, BytesToBits;
    var lc := CallLc(tgid, src);
    assert lc[2] == 0;
    BytesToBitsAt(lc, 2, 3);
    BytesToBitsAt(lc, 2, 4);
  }

  /** A call's options are zero, so its fragments lose nothing: those of two calls are
      eight bits apart. */
  lemma CallFragmentsDistance(tgid: int, src: int, tgid': int, src': int)
    requires CallLc(tgid, src) != CallLc(tgid', src')
    ensures OnAir(EncodeEmb(CallLc(tgid, src))) == ByColumns(Buffer(CallLc(tgid, src)))
    ensures Dist(OnAir(EncodeEmb(CallLc(tgid, src))), OnAir(EncodeEmb(CallLc(tgid', src')))) >= 8
  {
    hide CallLc, BytesToBits, OnAir, EncodeEmb, ByColumns, Buffer, Dist;
    NoOptions(tgid, src);
    NoOptions(tgid', src');
    WholeMatrixOnAir(CallLc(tgid, src));
    WholeMatrixDistance(CallLc(tgid, src), CallLc(tgid', src'));
  }

  /** The fragments four consecutive bursts carry in their centres. */
  function ReceivedFragments(payloads: seq<seq<Byte>>): (emb: Fragments)
    requires |payloads| == 4 && forall k :: 0 <= k < 4 ==> |payloads[k]| == 33
  {
    seq(4, k requires 0 <= k < 4 => BitsToBytes(CentreBits(payloads[k])[8..40]))
  }

  /** Bursts at positions 1 to 4 of a superframe, whatever their audio. */
  ghost predicate Superframe(payloads: seq<seq<Byte>>, lc: seq<Byte>) {
    |lc| == 9 && |payloads| == 4 && forall k :: 0 <= k < 4 ==> CarriesFragment(payloads[k], lc, k)
  }

  /** A burst with fragment `k` of the embedded LC in its centre. */
  ghost predicate CarriesFragment(payload: seq<Byte>, lc: Bytes9, k: nat)
    requires k < 4
  {
    exists ambe21: seq<Byte> :: |ambe21| == 21 && payload == VoicePayload(EncodeEmb(lc), k + 1, ambe21)
  }

  lemma SuperframeFragments(payloads: seq<seq<Byte>>, lc: seq<Byte>)
    requires Superframe(payloads, lc)
    ensures forall k :: 0 <= k < 4 ==> |payloads[k]| == 33
    ensures ReceivedFragments(payloads) == EncodeEmb(lc)
  {
    hide BytesToBits, BitsToBytes, EncodeEmb, VoicePayload, CentreBits, EmbHeader;
    var emb := EncodeEmb(lc);
    forall k | 0 <= k < 4 ensures |payloads[k]| == 33 && BitsToBytes(CentreBits(payloads[k])[8..40]) == emb[k] {
      assert CarriesFragment(payloads[k], lc, k);
      var ambe21: seq<Byte> :| |ambe21| == 21 && payloads[k] == VoicePayload(emb, k + 1, ambe21);
      CentreCarriesEmbed(emb, k + 1, ambe21);
      assert Embed(emb, k + 1)[8..40] == BytesToBits(emb[k]);
      BytesRoundTrip(emb[k]);
    }
  }

  /** One superframe on air tells which call it belongs to. */
  lemma SuperframeDeterminesLc(payloads: seq<seq<Byte>>, lc: seq<Byte>, lc': seq<Byte>)
    requires Superframe(payloads, lc) && Superframe(payloads, lc')
    ensures lc == lc'
  {
    hide EncodeEmb, ReceivedFragments;
    SuperframeFragments(payloads, lc);
    SuperframeFragments(payloads, lc');
    FragmentsDetermineLc(lc, lc');
  }

  // ---------- As the source assembles them ----------

  method BuildHeadTermPayload(lc: Bytes9, isTerm: bool) returns (out33: seq<Byte>)
    ensures out33 == HeadTermPayload(lc, isTerm)
  {
    hide EncodeLc, SlotType, DataSync;
    var fullLc := BptcEncodeLc(lc, isTerm);
    var fb := new Bit[264];
    var at := Append(fb, 0, fullLc[..98], []);
    at := Append(fb, at, SlotType(isTerm, 0), fb[..at]);
    at := Append(fb, at, DataSync(), fb[..at]);
    at := Append(fb, at, SlotType(isTerm, 1), fb[..at]);
    at := Append(fb, at, fullLc[98..], fb[..at]);
    assert fb[..] == fb[..264] == HeadTermBits(lc, isTerm);
    out33 := BitsToBytesOf(fb[..]);
  }

  method BuildEmbed(emb: Fragments, pos: Place) returns (embed: seq<Bit>)
    ensures embed == Embed(emb, pos)
  {
    if pos == 0 {
      return VoiceSync();
    }
    EmbedParts(emb, pos);
    hide EmbHeader, BytesToBits, Embed;
    var e := pos - 1;
    var out := new Bit[48];
    var at := Append(out, 0, EmbHeader(e, 0), []);
    assert [] + EmbHeader(e, 0) == EmbHeader(e, 0);
    ghost var centre := if pos <= 4 then BytesToBits(emb[pos - 1]) else Copies(0, 32);
    if pos <= 4 {
      BytesToBitsInto(emb[pos - 1], out, 8);
    } else {
      Copy(out, 8, Copies(0, 32));
    }
    assert out[..40] == EmbHeader(e, 0) + centre;
    at := Append(out, 40, EmbHeader(e, 1), EmbHeader(e, 0) + centre);
    assert out[..] == out[..48];
    embed := out[..];
  }

  lemma EmbedParts(emb: Fragments, pos: Place)
    requires 0 < pos
    ensures Embed(emb, pos) == EmbHeader(pos - 1, 0) + (if pos <= 4 then BytesToBits(emb[pos - 1]) else Copies(0, 32))
                               + EmbHeader(pos - 1, 1)
  {
    hide EmbHeader, BytesToBits;
  }

  method BuildVoicePayload(emb: Fragments, pos: Place, ambe21: Bytes21) returns (payload33: seq<Byte>)
    ensures payload33 == VoicePayload(emb, pos, ambe21)
  {
    hide Embed, To72, Unpacked, BitsToBytes;
    var ambe49 := Unpack21(ambe21);
    ghost var a := Unpacked(ambe21);
    var f1 := Row49(ambe49, 0, a[0]);
    var f2 := Row49(ambe49, 1, a[1]);
    var f3 := Row49(ambe49, 2, a[2]);
    var a1 := AmbeEncode49To72(f1);
    var a2 := AmbeEncode49To72(f2);
    var a3 := AmbeEncode49To72(f3);
    var embed := BuildEmbed(emb, pos);
    var fb := new Bit[264];
    var at := Append(fb, 0, a1, []);
    at := Append(fb, at, a2[..36], fb[..at]);
    at := Append(fb, at, embed, fb[..at]);
    at := Append(fb, at, a2[36..], fb[..at]);
    at := Append(fb, at, a3, fb[..at]);
    assert fb[..] == fb[..264] == VoiceBits(a1, a2, a3, embed);
    payload33 := BitsToBytesOf(fb[..]);
  }

  /** Row `i` of a matrix of frames. */
  method Row49(ambe49: array2<Bit>, i: nat, ghost frame: seq<Bit>) returns (row: seq<Bit>)
    requires i < ambe49.Length0 == 3 && ambe49.Length1 == 49 == |frame|
    requires forall j: nat :: j < 49 ==> ambe49[i, j] == frame[j]
    ensures row == frame
  {
    row := seq(49, j requires 0 <= j < 49 reads ambe49 => ambe49[i, j]);
  }

  method ExtractAmbe(payload33: Bytes33) returns (ambe49: Frames)
    ensures ambe49 == ExtractedAmbe(payload33)
  {
    hide To49, BytesToBits;
    var burst := new Bit[264];
    BytesToBitsInto(payload33, burst, 0);
    assert burst[..] == BytesToBits(payload33);
    var a1 := AmbeDecode72To49(burst[..72]);
    var a2 := AmbeDecode72To49(burst[72..108] + burst[156..192]);
    var a3 := AmbeDecode72To49(burst[192..]);
    ambe49 := [a1, a2, a3];
  }
}
