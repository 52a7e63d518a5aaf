/** What every run of the translator sends, link by link and peer by peer. */
module CallTheorems {
  import opened Bits
  import opened Burst
  import opened CallModel
  import opened CcccAmbe
  import opened EmbeddedLc

  // ---------- Traces ----------

  /** What was sent for link `i`. */
  function LinkTrace(trace: seq<Sent>, i: nat): seq<Out> {
    if trace == [] then []
    else LinkTrace(trace[..|trace| - 1], i) + (if trace[|trace| - 1].link == i then [trace[|trace| - 1].out] else [])
  }

  /** The frames handed to peer `p`, whichever link they came from. */
  function PeerTrace(trace: seq<Sent>, p: nat): seq<Dmrd> {
    if trace == [] then []
    else
      var o := trace[|trace| - 1].out;
      PeerTrace(trace[..|trace| - 1], p) + (if o.Obp? && o.peer == p then [o.frame] else [])
  }

  predicate IsHead(o: Out) {
    o.Obp? && o.frame.flags == 0x21
  }

  predicate IsTerm(o: Out) {
    o.Obp? && o.frame.flags == 0x22
  }

  predicate IsBurst(o: Out) {
    o.Obp? && o.frame.flags != 0x21 && o.frame.flags != 0x22
  }

  /** No call of either direction is open after `o`. */
  predicate Quiet(o: Out) {
    IsTerm(o) || o.Boff? || o.Down?
  }

  function Position(flags: Byte): nat {
    if flags == 0x10 then 0 else if flags == 0x01 then 1 else if flags == 0x02 then 2
    else if flags == 0x03 then 3 else if flags == 0x04 then 4 else 5
  }

  /** The burst position due after `o`. */
  function NextPosition(o: Out): (pos: nat)
    requires o.Obp?
    ensures pos < 6
  {
    if IsHead(o) then 0 else (Position(o.frame.flags) + 1) % 6
  }

  predicate SameCall(f: Dmrd, g: Dmrd) {
    f.src == g.src && f.dst == g.dst && f.repeater == g.repeater && f.stream == g.stream
  }

  function FrameLc(f: Dmrd): Lc {
    CallLc(f.dst, f.src)
  }

  predicate CarriesLc(f: Dmrd, isTerm: bool) {
    f.payload == HeadTermPayload(FrameLc(f), isTerm)
  }

  ghost predicate CarriesVoice(f: Dmrd, pos: Place)
  {
    exists ambe21: Ambe21 :: f.payload == VoicePayload(EncodeEmb(FrameLc(f)), pos, ambe21)
  }

  /** What may come right after `prev` in the trace of a link. */
  ghost predicate MayFollow(l: LinkConfig, prev: Out, o: Out) {
    match o
    case Obp(p, f) => p == l.peer && f.dst == l.tgid % 0x100_0000 && FrameFollows(prev, o)
    case Bon(_, _, lid, tgid) => Quiet(prev) && lid == l.lid && tgid == l.tgid
    case Voice(slot, s, ts, marker, _) =>
      s == RtpSeq(slot) && ts == RtpTimestamp(slot) && (if marker then prev.Bon? else prev.Voice?)
    case Boff(lost, total) =>
      lost == 0 && ((prev.Bon? && total == 0) || (prev.Voice? && total == prev.slot + 1))
    case Down => !prev.Obp? || IsTerm(prev)
  }

  ghost predicate FrameFollows(prev: Out, o: Out)
    requires o.Obp?
  {
    var f := o.frame;
    if IsHead(o) then Quiet(prev) && CarriesLc(f, false)
    else
      prev.Obp? && !IsTerm(prev) && SameCall(prev.frame, f) &&
      if IsTerm(o) then CarriesLc(f, true)
      else f.flags == VoiceFlags(NextPosition(prev)) && CarriesVoice(f, NextPosition(prev))
  }

  /** The element before position `k`; a trace starts as after link loss. */
  function Before(t: seq<Out>, k: nat): Out
    requires k <= |t|
  {
    if k == 0 then Down else t[k - 1]
  }

  /** The trace of a link is a prefix of a sequence of whole calls:
      HEAD burst* TERM, or B-on voice* (B-off or link loss). */
  ghost predicate Bracketed(l: LinkConfig, t: seq<Out>) {
    forall k: nat :: k < |t| ==> MayFollow(l, Before(t, k), t[k])
  }

  // ---------- One link ----------

  /** The call record agrees with the last thing sent. */
  ghost predicate Agrees(l: LinkConfig, rt: LinkRuntime, last: Out) {
    if InCall(rt, CcOrigin) then
      && l.peer >= 0 && last.Obp? && !IsTerm(last) && FromCall(l, rt.call, last.frame)
      && NextPosition(last) == rt.call.pos % 6
      && rt.call.lc == CallLc(l.tgid, rt.call.src) && rt.call.emb == EncodeEmb(rt.call.lc)
    else if InCall(rt, ObpOrigin) then
      if rt.call.sentFirst then last.Voice? && last.slot == rt.call.slot else last.Bon?
    else
      !rt.hasCall && Quiet(last)
  }

  predicate FromCall(l: LinkConfig, call: Call, f: Dmrd) {
    && f.src == call.src % 0x100_0000 && f.dst == l.tgid % 0x100_0000
    && f.repeater == call.ccPeerId % 0x1_0000_0000 && f.stream == call.stream
  }

  function Last(prev: Out, outs: seq<Out>): Out {
    if outs == [] then prev else outs[|outs| - 1]
  }

  function Prior(prev: Out, outs: seq<Out>, k: nat): Out
    requires k <= |outs|
  {
    if k == 0 then prev else outs[k - 1]
  }

  /** `outs` may be sent after `prev`. */
  ghost predicate Chain(l: LinkConfig, prev: Out, outs: seq<Out>) {
    forall k: nat :: k < |outs| ==> MayFollow(l, Prior(prev, outs, k), outs[k])
  }

  ghost predicate Keeps(l: LinkConfig, prev: Out, r: Result) {
    Chain(l, prev, r.outs) && Agrees(l, r.rt, Last(prev, r.outs))
  }

  lemma KeepsNothing(l: LinkConfig, prev: Out, rt: LinkRuntime)
    requires Agrees(l, rt, prev)
    ensures Keeps(l, prev, Result(rt, []))
  {
    hide Agrees, MayFollow;
  }

  lemma KeepsOne(l: LinkConfig, prev: Out, rt: LinkRuntime, o: Out)
    requires MayFollow(l, prev, o) && Agrees(l, rt, o)
    ensures Keeps(l, prev, Result(rt, [o]))
  {
    hide Agrees, MayFollow;
  }

  lemma KeepsTwo(l: LinkConfig, prev: Out, rt: LinkRuntime, o: Out, o2: Out)
    requires MayFollow(l, prev, o) && MayFollow(l, o, o2) && Agrees(l, rt, o2)
    ensures Keeps(l, prev, Result(rt, [o, o2]))
  {
    hide Agrees, MayFollow;
  }

  lemma HeadKeeps(l: LinkConfig, prev: Out, call: Call, n: nat)
    requires l.peer >= 0 && Quiet(prev) && call.pos == 0
    requires call.lc == CallLc(l.tgid, call.src) && call.emb == EncodeEmb(call.lc) && call.origin == CcOrigin
    ensures Keeps(l, prev, Result(LinkRuntime(true, call, false), SendHead(l, call, n)))
  {
    hide CallLc, HeadTermPayload, EncodeEmb, VoicePayload, Keeps;
    CallLcTruncates(l.tgid, call.src);
    var o := Obp(l.peer, DmrdFrame(l, call, n, DMRD_VHEAD, HeadTermPayload(call.lc, false)));
    assert MayFollow(l, prev, o);
    KeepsOne(l, prev, LinkRuntime(true, call, false), o);
  }

  lemma EndCcKeeps(l: LinkConfig, prev: Out, rt: LinkRuntime, n: nat)
    requires Agrees(l, rt, prev)
    ensures Keeps(l, prev, EndCcCall(l, rt, n))
    ensures InCall(rt, CcOrigin) ==> |EndCcCall(l, rt, n).outs| == 1 && IsTerm(EndCcCall(l, rt, n).outs[0])
  {
    hide CallLc, HeadTermPayload, EncodeEmb, VoicePayload, Keeps;
    CallLcTruncates(l.tgid, rt.call.src);
    if InCall(rt, CcOrigin) {
      var o := Obp(l.peer, DmrdFrame(l, rt.call, n, DMRD_VTERM, HeadTermPayload(rt.call.lc, true)));
      assert MayFollow(l, prev, o);
      KeepsOne(l, prev, rt.(hasCall := false), o);
    } else {
      KeepsNothing(l, prev, rt);
    }
  }

  lemma CcBonKeeps(l: LinkConfig, open: bool, prev: Out, rt: LinkRuntime, n: nat, radio: nat, peerId: nat,
                   stream: Stream, now: real)
    requires Agrees(l, rt, prev) && (open ==> l.peer >= 0)
    ensures Keeps(l, prev, CcBon(l, open, rt, n, radio, peerId, stream, now))
  {
    hide CallLc, HeadTermPayload, EncodeEmb, VoicePayload, SendHead, Keeps;
    if l.enabled && open && !rt.hasCall {
      HeadKeeps(l, prev, CcCall(l, radio, peerId, stream, now), n);
    } else {
      KeepsNothing(l, prev, rt);
      KeepsNothing(l, prev, rt.(dropLogged := true));
      KeepsNothing(l, prev, rt.(dropLogged := false));
    }
  }

  lemma FlagsPosition(pos: Place)
    ensures Position(VoiceFlags(pos)) == pos && VoiceFlags(pos) != 0x21 && VoiceFlags(pos) != 0x22
    ensures KindOf(VoiceFlags(pos)) == BurstKind
  {
  }

  lemma CcVoiceKeeps(l: LinkConfig, prev: Out, rt: LinkRuntime, n: nat, ambe21: Ambe21, now: real)
    requires Agrees(l, rt, prev)
    ensures Keeps(l, prev, CcVoice(l, rt, n, ambe21, now))
  {
    hide CallLc, HeadTermPayload, EncodeEmb, VoicePayload, VoiceFlags, Position, Keeps;
    if InCall(rt, CcOrigin) && l.crossConnect {
      var pos := rt.call.pos % 6;
      FlagsPosition(pos);
      CallLcTruncates(l.tgid, rt.call.src);
      var f := DmrdFrame(l, rt.call, n, VoiceFlags(pos), VoicePayload(rt.call.emb, pos, ambe21));
      assert f.payload == VoicePayload(EncodeEmb(FrameLc(f)), pos, ambe21);
      assert CarriesVoice(f, pos);
      assert (pos + 1) % 6 == (rt.call.pos + 1) % 6;
      KeepsOne(l, prev, rt.(call := rt.call.(last := now, pos := rt.call.pos + 1)), Obp(l.peer, f));
    } else {
      KeepsNothing(l, prev, rt);
    }
  }

  lemma LinkDownKeeps(l: LinkConfig, prev: Out, rt: LinkRuntime, n: nat)
    requires Agrees(l, rt, prev)
    ensures Keeps(l, prev, LinkDown(l, rt, n))
  {
    hide CallLc, HeadTermPayload, EncodeEmb, VoicePayload, FrameFollows, SendTerm;
    EndCcKeeps(l, prev, rt, n);
    var end := LinkRuntime(false, rt.call, false);
    if InCall(rt, CcOrigin) {
      var outs := EndCcCall(l, rt, n).outs;
      var o := outs[0];
      assert Chain(l, prev, outs) && outs == [o];
      assert MayFollow(l, Prior(prev, outs, 0), outs[0]);
      KeepsTwo(l, prev, end, o, Down);
    } else {
      assert EndCcCall(l, rt, n).outs + [Down] == [Down];
      KeepsOne(l, prev, end, Down);
    }
  }

  lemma ObpHeadKeeps(l: LinkConfig, prev: Out, rt: LinkRuntime, d: Dmrd, now: real)
    requires Agrees(l, rt, prev)
    ensures Keeps(l, prev, ObpHead(l, rt, d, now))
  {
    hide CallLc, EncodeEmb, FrameFollows, Keeps;
    var r := ObpHead(l, rt, d, now);
    var bon := Bon(d.src, d.repeater, l.lid, l.tgid);
    if r == Result(rt, []) {
      KeepsNothing(l, prev, rt);
    } else if InCall(rt, ObpOrigin) {
      var off := EndObpCall(rt).outs[0];
      assert r.outs == [off, bon];
      KeepsTwo(l, prev, r.rt, off, bon);
    } else {
      assert r.outs == [bon];
      KeepsOne(l, prev, r.rt, bon);
    }
  }

  lemma ObpEndKeeps(l: LinkConfig, prev: Out, rt: LinkRuntime)
    requires Agrees(l, rt, prev)
    ensures Keeps(l, prev, EndObpCall(rt))
  {
    hide CallLc, EncodeEmb, FrameFollows, Keeps;
    if InCall(rt, ObpOrigin) {
      KeepsOne(l, prev, rt.(hasCall := false), EndObpCall(rt).outs[0]);
    } else {
      KeepsNothing(l, prev, rt);
    }
  }

  lemma ObpBurstKeeps(l: LinkConfig, prev: Out, rt: LinkRuntime, d: Dmrd, now: real, now2: real)
    requires Agrees(l, rt, prev)
    ensures Keeps(l, prev, ObpBurst(rt, d, now, now2))
  {
    hide CallLc, EncodeEmb, FrameFollows, Keeps, SlotIndex, Packed, ExtractedAmbe, RtpSeq, RtpTimestamp;
    var r := ObpBurst(rt, d, now, now2);
    if r == Result(rt, []) {
      KeepsNothing(l, prev, rt);
    } else {
      KeepsOne(l, prev, r.rt, r.outs[0]);
    }
  }

  lemma ObpReceivedKeeps(l: LinkConfig, open: bool, prev: Out, rt: LinkRuntime, d: Dmrd, now: real, now2: real)
    requires Agrees(l, rt, prev)
    ensures Keeps(l, prev, ObpReceived(l, open, rt, d, now, now2))
  {
    hide CallLc, EncodeEmb, KindOf, ObpHead, ObpBurst, MayFollow;
    var rt' := if KindOf(d.flags) == HeadKind then rt.(dropLogged := false) else rt;
    ObpHeadKeeps(l, prev, rt', d, now);
    ObpEndKeeps(l, prev, rt');
    ObpBurstKeeps(l, prev, rt', d, now, now2);
    KeepsNothing(l, prev, rt);
    KeepsNothing(l, prev, rt'.(dropLogged := true));
    KeepsNothing(l, prev, rt');
  }

  lemma IdleKeeps(l: LinkConfig, prev: Out, rt: LinkRuntime, n: nat, now: real)
    requires Agrees(l, rt, prev)
    ensures Keeps(l, prev, Idle(l, rt, n, now))
  {
    hide Agrees, Keeps, EndCcCall, EndObpCall;
    EndCcKeeps(l, prev, rt, n);
    ObpEndKeeps(l, prev, rt);
    KeepsNothing(l, prev, rt);
  }

  lemma DropLogKeeps(l: LinkConfig, prev: Out, rt: LinkRuntime)
    requires Agrees(l, rt, prev)
    ensures Keeps(l, prev, Result(rt.(dropLogged := false), [])) && Keeps(l, prev, Result(rt, []))
  {
    hide CallLc, EncodeEmb, MayFollow;
  }

  /** Every event keeps one link's trace bracketed and its record in agreement. */
  lemma LinkStepKeeps(st: State, i: nat, e: Event, prev: Out)
    requires WellFormed(st) && i < |st.links| && Agrees(st.cfg.links[i], st.links[i], prev)
    ensures Keeps(st.cfg.links[i], prev, LinkStep(st, i, e))
  {
    hide CcBon, CcVoice, EndCcCall, LinkDown, ObpReceived, Idle, Agrees, Keeps;
    var l, rt, n := st.cfg.links[i], st.links[i], Count(st, i);
    var open := GateOpen(st.cfg, l);
    match e
    case CcBonEvent(_, radio, peerId, stream, now) => CcBonKeeps(l, open, prev, rt, n, radio, peerId, stream, now);
    case CcVoiceEvent(_, ambe21, now) => CcVoiceKeeps(l, prev, rt, n, ambe21, now);
    case CcBoffEvent(_) => EndCcKeeps(l, prev, rt, n);
    case LinkUpEvent(_) => DropLogKeeps(l, prev, rt);
    case LinkDownEvent(_) => LinkDownKeeps(l, prev, rt, n);
    case DmrdEvent(_, frame, now, now2) => ObpReceivedKeeps(l, open, prev, rt, frame, now, now2);
    case TickEvent(now) => IdleKeeps(l, prev, rt, n, now);
    case ReloadEvent(_) => DropLogKeeps(l, prev, rt);
  }

  // ---------- Contention ----------

  /** While an obp-origin call is up, frames of another stream change nothing, save
      a HEAD, which ends the call and opens the next one. */
  lemma ObpCallOwnsTheLink(l: LinkConfig, open: bool, rt: LinkRuntime, d: Dmrd, now: real, now2: real)
    requires InCall(rt, ObpOrigin) && d.stream != rt.call.stream
    ensures var r := ObpReceived(l, open, rt, d, now, now2);
            if l.enabled && open && KindOf(d.flags) == HeadKind then
              r.outs == EndObpCall(rt).outs + [Bon(d.src, d.repeater, l.lid, l.tgid)] && |r.outs| == 2
              && r.outs[0].Boff? && r.rt.hasCall && r.rt.call.stream == d.stream
            else
              r.outs == [] && r.rt.hasCall && r.rt.call == rt.call
  {
    hide KindOf, SlotIndex, Packed, ExtractedAmbe;
  }

  /** While a cc-origin call is up, no frame from OpenBridge changes it or is relayed. */
  lemma CcCallOwnsTheLink(l: LinkConfig, open: bool, rt: LinkRuntime, d: Dmrd, now: real, now2: real)
    requires InCall(rt, CcOrigin)
    ensures var r := ObpReceived(l, open, rt, d, now, now2); r.outs == [] && r.rt.hasCall && r.rt.call == rt.call
  {
    hide KindOf, SlotIndex, Packed, ExtractedAmbe;
  }

  /** While a call of either origin is up, a B-on changes nothing. */
  lemma CallBlocksBon(l: LinkConfig, open: bool, rt: LinkRuntime, n: nat, radio: nat, peerId: nat, stream: Stream,
                      now: real)
    requires rt.hasCall && rt.call.origin != NoOrigin
    ensures var r := CcBon(l, open, rt, n, radio, peerId, stream, now);
            r.outs == [] && r.rt.hasCall && r.rt.call == rt.call
  {
  }
}
