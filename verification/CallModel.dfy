/** What the call translator does, one link at a time: the reference for its
    methods and the object of its theorems. */
module CallModel {
  import opened Bits
  import opened Burst
  import opened CcccAmbe
  import opened EmbeddedLc

  // ---------- Configuration ----------

  /** One conduit.  `peer` is the resolved index of its OpenBridge system, negative
      when there is none; a reload only ever changes the two toggles. */
  datatype LinkConfig = LinkConfig(peer: int, tgid: int, lid: int, enabled: bool, crossConnect: bool)

  datatype Config = Config(links: seq<LinkConfig>, peerEnabled: seq<bool>)

  ghost predicate Resolved(cfg: Config) {
    forall i :: 0 <= i < |cfg.links| ==> cfg.links[i].peer < |cfg.peerEnabled|
  }

  predicate SameButToggles(l: LinkConfig, m: LinkConfig) {
    l.peer == m.peer && l.tgid == m.tgid && l.lid == m.lid
  }

  ghost predicate Reloads(cfg: Config, next: Config) {
    && |next.links| == |cfg.links| && |next.peerEnabled| == |cfg.peerEnabled|
    && forall i :: 0 <= i < |cfg.links| ==> SameButToggles(cfg.links[i], next.links[i])
  }

  // ---------- Calls ----------

  type Stream = Bytes4
  type Lc = Bytes9
  type Ambe21 = Bytes21
  type Payload33 = Bytes33

  datatype Origin = NoOrigin | CcOrigin | ObpOrigin

  datatype Call = Call(origin: Origin, src: nat, peerId: nat, ccPeerId: nat, stream: Stream, lc: Lc, emb: Fragments,
                       start: real, last: real, sentFirst: bool, slot: int, pos: nat)

  /** `memset(&call, 0, sizeof call)`. */
  const NO_CALL := Call(NoOrigin, 0, 0, 0, [0, 0, 0, 0], [0, 0, 0, 0, 0, 0, 0, 0, 0], NO_FRAGMENTS,
                        0.0, 0.0, false, 0, 0)

  datatype LinkRuntime = LinkRuntime(hasCall: bool, call: Call, dropLogged: bool)

  predicate InCall(rt: LinkRuntime, origin: Origin) {
    rt.hasCall && rt.call.origin == origin
  }

  // ---------- Frames and requests ----------

  const DMRD_VHEAD: Byte := 0x21
  const DMRD_VTERM: Byte := 0x22

  /** The fields of a 53-byte DMRD body. */
  datatype Dmrd = Dmrd(seqNo: nat, src: nat, dst: nat, repeater: nat, flags: Byte, stream: Stream, payload: Payload33)

  function VoiceFlags(pos: Place): Byte
  {
    match pos case 0 => 0x10 case 1 => 0x01 case 2 => 0x02 case 3 => 0x03 case 4 => 0x04 case _ => 0x05
  }

  /** What the translator asks of the two sides, and link loss.  A voice request
      carries the wall-clock slot its RTP fields come from. */
  datatype Out =
    | Obp(peer: nat, frame: Dmrd)
    | Bon(src: nat, peerId: nat, lid: int, tgid: int)
    | Voice(slot: int, seqNo: nat, timestamp: nat, marker: bool, ambe21: Ambe21)
    | Boff(lost: int, total: int)
    | Down

  datatype Result = Result(rt: LinkRuntime, outs: seq<Out>)

  /** `(int)x`: truncation toward zero. */
  function Truncate(x: real): int {
    if x >= 0.0 then x.Floor else -((-x).Floor)
  }

  const SLOT_S := 0.060
  const CALL_IDLE_TIMEOUT_S := 5.0

  function SlotIndex(start: real, now: real): int {
    Truncate((now - start) / SLOT_S + 0.5)
  }

  function RtpSeq(slot: int): nat {
    slot % 0x1_0000
  }

  function RtpTimestamp(slot: int): nat {
    480 * (slot % 0x1_0000_0000) % 0x1_0000_0000
  }

  // ---------- Toward OpenBridge ----------
  //
  // `n` is how many frames the link's peer has been handed so far.

  function DmrdFrame(l: LinkConfig, call: Call, n: nat, flags: Byte, payload: Payload33): Dmrd {
    Dmrd(n % 256, call.src % 0x100_0000, l.tgid % 0x100_0000, call.ccPeerId % 0x1_0000_0000,
         flags, call.stream, payload)
  }

  function SendDmrd(l: LinkConfig, call: Call, n: nat, flags: Byte, payload: Payload33): seq<Out> {
    if l.peer < 0 then [] else [Obp(l.peer, DmrdFrame(l, call, n, flags, payload))]
  }

  function SendHead(l: LinkConfig, call: Call, n: nat): seq<Out> {
    SendDmrd(l, call, n, DMRD_VHEAD, HeadTermPayload(call.lc, false))
  }

  function SendTerm(l: LinkConfig, call: Call, n: nat): seq<Out> {
    SendDmrd(l, call, n, DMRD_VTERM, HeadTermPayload(call.lc, true))
  }

  function EndCcCall(l: LinkConfig, rt: LinkRuntime, n: nat): Result {
    if !InCall(rt, CcOrigin) then Result(rt, [])
    else Result(rt.(hasCall := false), SendTerm(l, rt.call, n))
  }

  /** The gate, and the once-per-attempt drop log. */
  predicate GateOpen(cfg: Config, l: LinkConfig)
    requires l.peer < |cfg.peerEnabled|
  {
    l.crossConnect && l.peer >= 0 && cfg.peerEnabled[l.peer]
  }

  function CcCall(l: LinkConfig, radio: nat, peerId: nat, stream: Stream, now: real): Call {
    var lc := CallLc(l.tgid, radio);
    NO_CALL.(origin := CcOrigin, src := radio, ccPeerId := peerId, stream := stream, start := now, last := now,
             lc := lc, emb := EncodeEmb(lc))
  }

  function CcBon(l: LinkConfig, open: bool, rt: LinkRuntime, n: nat, radio: nat, peerId: nat, stream: Stream,
                 now: real): Result {
    if !l.enabled then Result(rt, [])
    else if !open then Result(rt.(dropLogged := true), [])
    else if rt.hasCall && rt.call.origin != NoOrigin then Result(rt.(dropLogged := false), [])
    else
      var call := CcCall(l, radio, peerId, stream, now);
      Result(LinkRuntime(true, call, false), SendHead(l, call, n))
  }

  function CcVoice(l: LinkConfig, rt: LinkRuntime, n: nat, ambe21: Ambe21, now: real): Result {
    if !InCall(rt, CcOrigin) || !l.crossConnect then Result(rt, [])
    else
      var pos := rt.call.pos % 6;
      Result(rt.(call := rt.call.(last := now, pos := rt.call.pos + 1)),
             SendDmrd(l, rt.call, n, VoiceFlags(pos), VoicePayload(rt.call.emb, pos, ambe21)))
  }

  function LinkDown(l: LinkConfig, rt: LinkRuntime, n: nat): Result {
    Result(LinkRuntime(false, rt.call, false), EndCcCall(l, rt, n).outs + [Down])
  }

  // ---------- Toward CC-CC ----------

  function EndObpCall(rt: LinkRuntime): Result {
    if !InCall(rt, ObpOrigin) then Result(rt, [])
    else Result(rt.(hasCall := false), [Boff(0, if rt.call.sentFirst then rt.call.slot + 1 else 0)])
  }

  function ObpCall(src: nat, peerId: nat, stream: Stream, now: real): Call {
    NO_CALL.(origin := ObpOrigin, src := src, peerId := peerId, stream := stream, start := now, last := now)
  }

  function ObpHead(l: LinkConfig, rt: LinkRuntime, d: Dmrd, now: real): Result {
    if InCall(rt, CcOrigin) || (InCall(rt, ObpOrigin) && d.stream == rt.call.stream) then Result(rt, [])
    else Result(rt.(hasCall := true, call := ObpCall(d.src, d.repeater, d.stream, now)),
                EndObpCall(rt).outs + [Bon(d.src, d.repeater, l.lid, l.tgid)])
  }

  /** The clock is read once for the activity stamp and once for the slot. */
  function ObpBurst(rt: LinkRuntime, d: Dmrd, now: real, now2: real): Result {
    if !InCall(rt, ObpOrigin) || d.stream != rt.call.stream then Result(rt, [])
    else
      var slot := SlotIndex(rt.call.start, now2);
      Result(rt.(call := rt.call.(last := now, sentFirst := true, slot := slot)),
             [Voice(slot, RtpSeq(slot), RtpTimestamp(slot), !rt.call.sentFirst, Packed(ExtractedAmbe(d.payload)))])
  }

  function ObpTerm(rt: LinkRuntime, d: Dmrd): Result {
    if !InCall(rt, ObpOrigin) || d.stream != rt.call.stream then Result(rt, [])
    else EndObpCall(rt)
  }

  datatype Kind = Ignored | HeadKind | TermKind | BurstKind

  /** Unit calls and CSBK or data frames are out of scope. */
  function KindOf(flags: Byte): Kind {
    if flags & 0x40 != 0 then Ignored
    else if flags & 0x23 == 0x23 then Ignored
    else if flags & 0x30 == 0x20 && flags & 0x0F == 0x01 then HeadKind
    else if flags & 0x30 == 0x20 && flags & 0x0F == 0x02 then TermKind
    else BurstKind
  }

  /** A frame for this link, once routed. */
  function ObpReceived(l: LinkConfig, open: bool, rt: LinkRuntime, d: Dmrd, now: real, now2: real): Result {
    var kind := KindOf(d.flags);
    if kind == Ignored || !l.enabled then Result(rt, [])
    else
      var rt' := if kind == HeadKind then rt.(dropLogged := false) else rt;
      if !open then Result(rt'.(dropLogged := true), [])
      else if kind == HeadKind then ObpHead(l, rt', d, now)
      else if kind == TermKind then ObpTerm(rt', d)
      else ObpBurst(rt', d, now, now2)
  }

  function Idle(l: LinkConfig, rt: LinkRuntime, n: nat, now: real): Result {
    if !rt.hasCall || now - rt.call.last <= CALL_IDLE_TIMEOUT_S then Result(rt, [])
    else if rt.call.origin == ObpOrigin then EndObpCall(rt)
    else EndCcCall(l, rt, n)
  }

  // ---------- All links ----------

  datatype State = State(cfg: Config, links: seq<LinkRuntime>, ctr: seq<nat>)

  datatype Sent = Sent(link: nat, out: Out)

  ghost predicate WellFormed(st: State) {
    Resolved(st.cfg) && |st.links| == |st.cfg.links| && |st.ctr| == |st.cfg.peerEnabled|
  }

  datatype Event =
    | CcBonEvent(link: nat, radio: nat, peerId: nat, stream: Stream, now: real)
    | CcVoiceEvent(link: nat, ambe21: Ambe21, now: real)
    | CcBoffEvent(link: nat)
    | LinkUpEvent(link: nat)
    | LinkDownEvent(link: nat)
    | DmrdEvent(peer: nat, frame: Dmrd, now: real, now2: real)
    | TickEvent(now: real)
    | ReloadEvent(cfg: Config)

  /** First configured link for a peer and talkgroup. */
  function Route(links: seq<LinkConfig>, peer: nat, dst: nat, i: nat): (r: int)
    requires i <= |links|
    ensures -1 <= r < |links|
    decreases |links| - i
  {
    if i == |links| then -1
    else if links[i].peer == peer && links[i].tgid % 0x1_0000_0000 == dst then i
    else Route(links, peer, dst, i + 1)
  }

  function Bumped(ctr: seq<nat>, outs: seq<Out>): (c: seq<nat>)
    ensures |c| == |ctr|
    decreases |outs|
  {
    if outs == [] then ctr
    else Bumped(if outs[0].Obp? && outs[0].peer < |ctr| then ctr[outs[0].peer := ctr[outs[0].peer] + 1] else ctr,
                outs[1..])
  }

  function Tagged(link: nat, outs: seq<Out>): (sent: seq<Sent>)
    ensures |sent| == |outs|
  {
    seq(|outs|, k requires 0 <= k < |outs| => Sent(link, outs[k]))
  }

  /** How many frames the peer of link `i` has been handed. */
  function Count(st: State, i: nat): nat
    requires i < |st.cfg.links|
  {
    var p := st.cfg.links[i].peer;
    if 0 <= p < |st.ctr| then st.ctr[p] else 0
  }

  function Update(st: State, i: nat, r: Result): State
    requires i < |st.links|
  {
    st.(links := st.links[i := r.rt], ctr := Bumped(st.ctr, r.outs))
  }

  /** What an event does to link `i`, when it concerns that link alone. */
  function LinkStep(st: State, i: nat, e: Event): Result
    requires WellFormed(st) && i < |st.links|
  {
    var l, rt, n := st.cfg.links[i], st.links[i], Count(st, i);
    match e
    case CcBonEvent(_, radio, peerId, stream, now) => CcBon(l, GateOpen(st.cfg, l), rt, n, radio, peerId, stream, now)
    case CcVoiceEvent(_, ambe21, now) => CcVoice(l, rt, n, ambe21, now)
    case CcBoffEvent(_) => EndCcCall(l, rt, n)
    case LinkUpEvent(_) => Result(rt.(dropLogged := false), [])
    case LinkDownEvent(_) => LinkDown(l, rt, n)
    case DmrdEvent(_, frame, now, now2) => ObpReceived(l, GateOpen(st.cfg, l), rt, frame, now, now2)
    case TickEvent(now) => Idle(l, rt, n, now)
    case ReloadEvent(_) => Result(rt, [])
  }

  datatype Outcome = Outcome(st: State, sent: seq<Sent>)

  function OnLink(st: State, i: nat, e: Event): (o: Outcome)
    requires WellFormed(st) && i < |st.links|
    ensures WellFormed(o.st) && o.st.cfg == st.cfg
  {
    var r := LinkStep(st, i, e);
    Outcome(Update(st, i, r), Tagged(i, r.outs))
  }

  /** The tick visits the links from the first one up. */
  function TickFrom(st: State, i: nat, e: Event): (o: Outcome)
    requires WellFormed(st) && i <= |st.links|
    ensures WellFormed(o.st) && o.st.cfg == st.cfg
    decreases |st.links| - i
  {
    if i == |st.links| then Outcome(st, [])
    else
      var o := OnLink(st, i, e);
      var rest := TickFrom(o.st, i + 1, e);
      Outcome(rest.st, o.sent + rest.sent)
  }

  ghost predicate Possible(st: State, e: Event) {
    match e
    case DmrdEvent(peer, _, _, _) => true
    case TickEvent(_) => true
    case ReloadEvent(cfg) => Reloads(st.cfg, cfg)
    case _ => e.link < |st.links|
  }

  function Step(st: State, e: Event): (o: Outcome)
    requires WellFormed(st) && Possible(st, e)
    ensures WellFormed(o.st) && Reloads(st.cfg, o.st.cfg)
  {
    match e
    case DmrdEvent(peer, frame, _, _) =>
      var i := Route(st.cfg.links, peer, frame.dst, 0);
      if i < 0 then Outcome(st, []) else OnLink(st, i, e)
    case TickEvent(_) => TickFrom(st, 0, e)
    case ReloadEvent(cfg) => Outcome(st.(cfg := cfg), [])
    case _ => OnLink(st, e.link, e)
  }
}
