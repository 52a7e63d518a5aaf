/** The OpenBridge link: stamping and signing a DMRD body, and the checks on what comes in. */
module ObpLink {
  import opened Bits
  import opened CallModel
  import opened CallTheorems
  import opened DmrdBody
  import opened Sha1

  const DMRD_PKT_LEN: nat := 73
  const SLOT2: Byte := 0x80

  /** A configured OpenBridge system, as far as its packets go. */
  datatype System = System(networkId: nat, preserveSourcePeer: bool, passphrase: seq<Byte>)

  // ---------- Packets ----------

  /** The network id takes the place of the source peer, unless that is preserved. */
  function Stamped(body: Bytes53, sys: System): Bytes53 {
    if sys.preserveSourcePeer then body else body[..11] + Wr32(sys.networkId) + body[15..]
  }

  function Signed(body: Bytes53, key: seq<Byte>): (pkt: seq<Byte>)
    ensures |pkt| == DMRD_PKT_LEN
  {
    body + Hmac(key, body)
  }

  datatype Verdict = Dropped | Passed(body: Bytes53)

  /** What is made of a datagram; `expected` says whether it comes from the peer's address. */
  function Checked(pkt: seq<Byte>, expected: bool, key: seq<Byte>): Verdict {
    if |pkt| != DMRD_PKT_LEN || pkt[..4] != TAG || !expected then Dropped
    else if Hmac(key, pkt[..53]) != pkt[53..] || pkt[15] & SLOT2 != 0 then Dropped
    else Passed(pkt[..53])
  }

  /** A datagram passes if and only if it comes from the peer, and is a body tagged DMRD
      for slot 1 followed by the digest of that body. */
  lemma PassesIff(pkt: seq<Byte>, expected: bool, key: seq<Byte>, body: Bytes53)
    ensures Checked(pkt, expected, key) == Passed(body) <==>
            && expected && pkt == body + Hmac(key, body)
            && body[..4] == [0x44, 0x4D, 0x52, 0x44] && (body[15] >> 7) & 1 == 0
  {
    hide Hmac;
    if |pkt| == 73 {
      TopBitClear(pkt[15]);
      assert pkt == pkt[..53] + pkt[53..];
    }
    if pkt == body + Hmac(key, body) {
      assert pkt[..53] == body && pkt[53..] == Hmac(key, body);
    }
  }

  lemma TopBitClear(x: Byte)
    ensures x & SLOT2 != 0 <==> (x >> 7) & 1 == 1
  {
  }

  /** The stamp: the network id in bytes 11 to 14, most significant first, and the rest of
      the body as it was. */
  lemma StampLayout(body: Bytes53, sys: System)
    requires !sys.preserveSourcePeer
    ensures var b := Stamped(body, sys);
            && b[..11] == body[..11] && b[15..] == body[15..]
            && 16777216 * (b[11] as int) + 65536 * (b[12] as int) + 256 * (b[13] as int) + b[14] as int
               == sys.networkId % 0x1_0000_0000
  {
    hide Wr32;
    var b := Stamped(body, sys);
    ReadWritten32(sys.networkId);
    assert b[11..15] == Wr32(sys.networkId) && b[11..15] == [b[11], b[12], b[13], b[14]];
  }

  // ---------- From one end to the other ----------

  /** The frame as the far end reads it. */
  function AtFarEnd(f: Dmrd, sys: System): Dmrd {
    Parse(Stamped(Body(f), sys))
  }

  /** Stamping changes the repeater field and no other. */
  lemma StampedFields(f: Dmrd, sys: System)
    ensures AtFarEnd(f, sys) == Parse(Body(f)).(repeater := if sys.preserveSourcePeer then f.repeater % 0x1_0000_0000
                                                            else sys.networkId % 0x1_0000_0000)
  {
    hide Body, Wr32, Rd32;
    var body := Body(f);
    var sent := Stamped(body, sys);
    if sys.preserveSourcePeer {
      ParseBody(f);
    } else {
      assert sent[11..15] == Wr32(sys.networkId);
      ReadWritten32(sys.networkId);
      assert sent[4] == body[4] && sent[15] == body[15];
      assert sent[5..8] == body[5..8] && sent[8..11] == body[8..11];
      assert sent[16..20] == body[16..20] && sent[20..53] == body[20..53];
    }
  }

  lemma BodyIsTagged(f: Dmrd)
    ensures Body(f)[..4] == TAG && Body(f)[15] == f.flags
  {
    hide Wr32;
    BodyParts(f);
  }

  /** A frame signed at one end passes the other end, which holds the same passphrase, if
      and only if it is not on slot 2, and is read there as it was sent but for the stamp. */
  lemma PacketArrives(f: Dmrd, sys: System)
    ensures var v := Checked(Signed(Stamped(Body(f), sys), sys.passphrase), true, sys.passphrase);
            if f.flags & SLOT2 != 0 then v == Dropped else v.Passed? && Parse(v.body) == AtFarEnd(f, sys)
  {
    hide Body, Hmac, Wr32, Parse;
    var sent := Stamped(Body(f), sys);
    var pkt := Signed(sent, sys.passphrase);
    BodyIsTagged(f);
    assert pkt[..53] == sent && pkt[53..] == Hmac(sys.passphrase, sent);
    assert pkt[..4] == sent[..4] == Body(f)[..4];
    assert pkt[15] == sent[15] == Body(f)[15];
  }

  /** No frame of a bracketed trace is on slot 2: every one of them passes. */
  lemma FramesAreOnSlotOne(l: LinkConfig, t: seq<Out>, k: nat)
    requires Bracketed(l, t) && k < |t| && t[k].Obp?
    ensures t[k].frame.flags & SLOT2 == 0
  {
    hide CarriesLc, CarriesVoice, SameCall;
    assert MayFollow(l, Before(t, k), t[k]);
  }

  // ---------- As the source does it ----------

  /** `obp_send_dmrd`: stamp the body in place, then append its digest. */
  method ObpSendDmrd(body: array<Byte>, sys: System) returns (pkt: seq<Byte>)
    requires body.Length == 53
    modifies body
    ensures body[..] == Stamped(old(body[..]), sys)
    ensures pkt == Signed(Stamped(old(body[..]), sys), sys.passphrase)
  {
    hide Hmac, Wr32;
    ghost var was := body[..];
    if !sys.preserveSourcePeer {
      var id := Wr32(sys.networkId);
      body[11], body[12], body[13], body[14] := id[0], id[1], id[2], id[3];
      assert body[..] == was[..11] + id + was[15..];
    }
    var digest := HmacSha1(sys.passphrase, body[..]);
    pkt := body[..] + digest;
  }

  /** `ct_eq`: the differences of all bytes, OR-ed. */
  method CtEq(a: seq<Byte>, b: seq<Byte>) returns (equal: bool)
    requires |a| == |b|
    ensures equal <==> a == b
  {
    var diff: Byte := 0;
    for i := 0 to |a|
      invariant diff == 0 <==> a[..i] == b[..i]
    {
      OrXor(diff, a[i], b[i]);
      assert a[..i + 1] == a[..i] + [a[i]] && b[..i + 1] == b[..i] + [b[i]];
      diff := diff | (a[i] ^ b[i]);
    }
    assert a[..|a|] == a && b[..|b|] == b;
    equal := diff == 0;
  }

  lemma OrXor(diff: Byte, x: Byte, y: Byte)
    ensures diff | (x ^ y) == 0 <==> diff == 0 && x == y
  {
  }

  /** The checks of `on_obp_readable`, in its order. */
  method OnObpReadable(pkt: seq<Byte>, expected: bool, key: seq<Byte>) returns (v: Verdict)
    ensures v == Checked(pkt, expected, key)
  {
    hide Hmac;
    if |pkt| < 4 || pkt[..4] != TAG || |pkt| != DMRD_PKT_LEN || !expected {
      return Dropped;
    }
    var digest := HmacSha1(key, pkt[..53]);
    var equal := CtEq(digest, pkt[53..]);
    if !equal || pkt[15] & SLOT2 != 0 {
      return Dropped;
    }
    v := Passed(pkt[..53]);
  }
}
