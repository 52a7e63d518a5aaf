/** The 53-byte DMRD body. */
module DmrdBody {
  import opened Bits
  import opened Burst
  import opened CallModel
  import opened Octets

  function Wr32(v: int): Bytes4 {
    [Low8(v / 16777216), Low8(v / 65536), Low8(v / 256), Low8(v)]
  }

  function Rd32(bytes: seq<Byte>): (v: nat)
    requires |bytes| == 4
  {
    16777216 * (bytes[0] as int) + 65536 * (bytes[1] as int) + 256 * (bytes[2] as int) + bytes[3] as int
  }

  lemma ReadWritten32(v: int)
    ensures Rd32(Wr32(v)) == v % 0x1_0000_0000
  {
    hide Low8;
    Low8Value(v / 16777216);
    Low8Value(v / 65536);
    Low8Value(v / 256);
    Low8Value(v);
    Digits32(v);
  }

  lemma Digits32(v: int)
    ensures 16777216 * (v / 16777216 % 256) + 65536 * (v / 65536 % 256) + 256 * (v / 256 % 256) + v % 256
            == v % 0x1_0000_0000
  {
    Digits24(v);
    var q := v / 16777216;
    assert v == 16777216 * q + v % 0x100_0000;
    assert q == 256 * (q / 256) + q % 256;
  }

  const TAG: seq<Byte> := [0x44, 0x4D, 0x52, 0x44]

  function BodyOf(seqNo: int, src: int, dst: int, repeater: int, flags: Byte, stream: Stream,
                  payload: Payload33): Bytes53 {
    TAG + [Low8(seqNo)] + Wr24(src) + Wr24(dst) + Wr32(repeater) + [flags] + stream + payload
  }

  function Body(d: Dmrd): Bytes53 {
    BodyOf(d.seqNo, d.src, d.dst, d.repeater, d.flags, d.stream, d.payload)
  }

  /** Read the fields at their fixed offsets. */
  function Parse(body: seq<Byte>): Dmrd
    requires |body| == 53
  {
    Dmrd(body[4] as int, Rd24(body[5..8]), Rd24(body[8..11]), Rd32(body[11..15]), body[15], body[16..20], body[20..53])
  }

  lemma BodyParts(d: Dmrd)
    ensures var b := Body(d);
            b[4] == Low8(d.seqNo) && b[5..8] == Wr24(d.src) && b[8..11] == Wr24(d.dst) && b[11..15] == Wr32(d.repeater)
            && b[15] == d.flags && b[16..20] == d.stream && b[20..53] == d.payload
  {
    hide Wr24, Wr32, Low8;
    var b := Body(d);
    assert b[5..8] == Wr24(d.src);
    assert b[8..11] == Wr24(d.dst);
    assert b[11..15] == Wr32(d.repeater);
    assert b[16..20] == d.stream;
    var head := TAG + [Low8(d.seqNo)] + Wr24(d.src) + Wr24(d.dst) + Wr32(d.repeater) + [d.flags] + d.stream;
    assert |head| == 20 && b == head + d.payload;
    assert b[20..53] == b[20..] == d.payload;
    assert b[4] == head[4] == Low8(d.seqNo);
    assert b[15] == head[15] == d.flags;
  }

  /** The receiver reads every field the sender wrote, cut to its width. */
  lemma ParseBody(d: Dmrd)
    ensures Parse(Body(d)) == Dmrd(d.seqNo % 256, d.src % 0x100_0000, d.dst % 0x100_0000, d.repeater % 0x1_0000_0000,
                                   d.flags, d.stream, d.payload)
  {
    hide Body, Wr24, Wr32, Low8, Rd24, Rd32;
    BodyParts(d);
    Low8Value(d.seqNo);
    ReadWritten24(d.src);
    ReadWritten24(d.dst);
    ReadWritten32(d.repeater);
  }

  /** The body, byte by byte: the letters DMRD, then every field, numbers with their most
      significant byte first. */
  lemma BodyLayout(d: Dmrd)
    ensures var b := Body(d);
            && b[..4] == [0x44, 0x4D, 0x52, 0x44] && b[4] as int == d.seqNo % 256
            && 65536 * (b[5] as int) + 256 * (b[6] as int) + b[7] as int == d.src % 0x100_0000
            && 65536 * (b[8] as int) + 256 * (b[9] as int) + b[10] as int == d.dst % 0x100_0000
            && 16777216 * (b[11] as int) + 65536 * (b[12] as int) + 256 * (b[13] as int) + b[14] as int
               == d.repeater % 0x1_0000_0000
            && b[15] == d.flags && b[16..20] == d.stream && b[20..] == d.payload
  {
    hide Body, Wr24, Wr32, Low8;
    var b := Body(d);
    BodyParts(d);
    BodyTag(d);
    Low8Value(d.seqNo);
    ReadWritten24(d.src);
    ReadWritten24(d.dst);
    ReadWritten32(d.repeater);
    assert b[5..8] == [b[5], b[6], b[7]] && b[8..11] == [b[8], b[9], b[10]];
    assert b[11..15] == [b[11], b[12], b[13], b[14]];
  }

  lemma BodyTag(d: Dmrd)
    ensures Body(d)[..4] == TAG
  {
    hide Wr24, Wr32, Low8;
  }

  method BuildBody(seqNo: int, src: int, dst: int, repeater: int, flags: Byte, stream: Stream, payload33: Payload33)
    returns (body: seq<Byte>)
    ensures body == BodyOf(seqNo, src, dst, repeater, flags, stream, payload33)
  {
    hide Low8, Wr24, Wr32;
    var out := new Byte[53];
    var at := Append(out, 0, TAG, []);
    at := Append(out, at, [Low8(seqNo)], out[..at]);
    at := Append(out, at, Wr24(src), out[..at]);
    at := Append(out, at, Wr24(dst), out[..at]);
    at := Append(out, at, Wr32(repeater), out[..at]);
    AppendTail(out, at, flags, stream, payload33);
    body := out[..];
  }

  method AppendTail(out: array<Byte>, start: nat, flags: Byte, stream: Stream, payload33: Payload33)
    requires out.Length == 53 && start == 15
    modifies out
    ensures out[..] == old(out[..15]) + [flags] + stream + payload33
  {
    var at := Append(out, start, [flags], out[..start]);
    at := Append(out, at, stream, out[..at]);
    at := Append(out, at, payload33, out[..at]);
    assert out[..] == out[..53];
  }

  /** Only the low bytes of a field are written. */
  lemma BodyTruncates(seqNo: int, src: int, dst: int, repeater: int, flags: Byte, stream: Stream, payload: Payload33)
    ensures BodyOf(seqNo, src, dst, repeater, flags, stream, payload)
         == Body(Dmrd(seqNo % 256, src % 0x100_0000, dst % 0x100_0000, repeater % 0x1_0000_0000, flags, stream,
                      payload))
  {
    hide Wr24, Wr32;
    assert Low8(seqNo % 256) == Low8(seqNo);
    Wr24Truncates(src);
    Wr24Truncates(dst);
    Wr32Truncates(repeater);
  }

  lemma Wr32Truncates(v: int)
    ensures Wr32(v % 0x1_0000_0000) == Wr32(v)
  {
    var q, w := v / 0x1_0000_0000, v % 0x1_0000_0000;
    assert v == w + 256 * (16777216 * q);
    Period(w / 16777216, q, v / 16777216);
    Period(w / 65536, 256 * q, v / 65536);
    Period(w / 256, 65536 * q, v / 256);
    Period(w, 16777216 * q, v);
  }
}
