/** Two bridges back to back: the frames one sends for a call make the other
    repeat that call on its own CC-CC side. */
module CallRelay {
  import opened Burst
  import opened CallCauses
  import opened CallHistory
  import opened CallModel
  import opened CallProvenance
  import opened CallRuns
  import opened CallTheorems
  import opened CallTraces
  import opened CcccAmbe
  import opened DmrdBody
  import opened EmbeddedLc
  import opened ObpLink

  /** Frame `f` as it may be read at the far end: its number and repeater field belong
      to whoever passed it on. */
  predicate Delivered(g: Dmrd, f: Dmrd) {
    g.src == f.src % 0x100_0000 && g.flags == f.flags && g.stream == f.stream && g.payload == f.payload
  }

  /** What a bridge makes of its own frames on the way out is such a reading. */
  lemma PacketIsDelivered(f: Dmrd, sys: System)
    ensures Delivered(AtFarEnd(f, sys), f)
  {
    hide Body, AtFarEnd;
    StampedFields(f, sys);
    ParseBody(f);
  }

  lemma CallFrames(t: seq<Out>, h: nat, k: nat, j: nat)
    requires OneCall(t, h, k) && h <= j <= k
    ensures t[j].Obp? && OneCall(t, h, j)
  {
    hide CarriesVoice, VoiceFlags;
    assert h < j ==> CallFrame(t, h, j);
  }

  /** The audio of a burst, save the pad bits of whatever payload it was built from. */
  ghost predicate Relays(audio: Ambe21, f: Dmrd, pos: Place)
  {
    forall ambe21: Ambe21 {:trigger VoicePayload(EncodeEmb(FrameLc(f)), pos, ambe21)} ::
      f.payload == VoicePayload(EncodeEmb(FrameLc(f)), pos, ambe21) ==> audio == PadCleared(ambe21)
  }

  lemma BurstRelays(f: Dmrd, pos: Place)
    ensures Relays(Packed(ExtractedAmbe(f.payload)), f, pos)
  {
    hide VoicePayload, EncodeEmb, FrameLc, PadCleared, Packed, ExtractedAmbe;
    forall ambe21: Ambe21 | f.payload == VoicePayload(EncodeEmb(FrameLc(f)), pos, ambe21)
      ensures Packed(ExtractedAmbe(f.payload)) == PadCleared(ambe21)
    {
      VoiceTransparency(EncodeEmb(FrameLc(f)), pos, ambe21);
    }
  }

  /** Request `j` of the repeated call answers frame `h + j` of the call; the B-on names
      the repeater `peerId`. */
  ghost predicate Answers(l: LinkConfig, peerId: nat, t: seq<Out>, h: nat, j: nat, o: Out)
    requires h + j < |t| && t[h].Obp? && t[h + j].Obp?
  {
    var f := t[h + j].frame;
    if j == 0 then o == Bon(f.src % 0x100_0000, peerId, l.lid, l.tgid)
    else if IsTerm(t[h + j]) then o.Boff? && o.lost == 0
    else o.Voice? && o.marker == (j == 1) && Relays(o.ambe21, f, (j - 1) % 6)
  }

  ghost predicate Matches(l: LinkConfig, peerId: nat, t: seq<Out>, h: nat, j: nat, outs: seq<Out>) {
    h + j < |t| && j < |outs| && t[h].Obp? && t[h + j].Obp? && Answers(l, peerId, t, h, j, outs[j])
  }

  ghost predicate Repeated(l: LinkConfig, peerId: nat, t: seq<Out>, h: nat, k: nat, r: Result)
    requires OneCall(t, h, k)
  {
    && |r.outs| == k - h + 1
    && (forall j: nat :: j <= k - h ==> Matches(l, peerId, t, h, j, r.outs))
    && (if IsTerm(t[k]) then !r.rt.hasCall
        else InCall(r.rt, ObpOrigin) && r.rt.call.stream == t[h].frame.stream && r.rt.call.sentFirst == (h < k))
  }

  lemma HeadRepeated(l: LinkConfig, rt: LinkRuntime, d: Dmrd, now: real, now2: real)
    requires l.enabled && !rt.hasCall && d.flags == 0x21
    ensures var r := ObpReceived(l, true, rt, d, now, now2);
            r.outs == [Bon(d.src, d.repeater, l.lid, l.tgid)] && InCall(r.rt, ObpOrigin)
            && r.rt.call.stream == d.stream && !r.rt.call.sentFirst
  {
    hide SlotIndex;
  }

  lemma BurstRepeated(l: LinkConfig, rt: LinkRuntime, d: Dmrd, now: real, now2: real, pos: Place)
    requires l.enabled && InCall(rt, ObpOrigin) && rt.call.stream == d.stream && d.flags == VoiceFlags(pos)
    ensures var r := ObpReceived(l, true, rt, d, now, now2);
            |r.outs| == 1 && r.outs[0].Voice? && r.outs[0].marker == !rt.call.sentFirst
            && r.outs[0].ambe21 == Packed(ExtractedAmbe(d.payload))
            && InCall(r.rt, ObpOrigin) && r.rt.call.stream == d.stream && r.rt.call.sentFirst
  {
    hide SlotIndex, KindOf, VoiceFlags, Packed, ExtractedAmbe;
    FlagsPosition(pos);
  }

  lemma TermRepeated(l: LinkConfig, rt: LinkRuntime, d: Dmrd, now: real, now2: real)
    requires l.enabled && InCall(rt, ObpOrigin) && rt.call.stream == d.stream && d.flags == 0x22
    ensures var r := ObpReceived(l, true, rt, d, now, now2);
            |r.outs| == 1 && r.outs[0].Boff? && r.outs[0].lost == 0 && !r.rt.hasCall
  {
    hide SlotIndex;
  }

  lemma AnswerNext(l: LinkConfig, peerId: nat, t: seq<Out>, h: nat, k: nat, r: Result, d: Dmrd, now: real, now2: real)
    requires l.enabled && h < k && OneCall(t, h, k) && OneCall(t, h, k - 1) && Repeated(l, peerId, t, h, k - 1, r)
    requires t[k].Obp? && Delivered(d, t[k].frame)
    ensures var s := ObpReceived(l, true, r.rt, d, now, now2);
            Repeated(l, peerId, t, h, k, Result(s.rt, r.outs + s.outs))
  {
    hide ObpReceived, VoiceFlags, CarriesVoice, Packed, ExtractedAmbe, Relays;
    assert CallFrame(t, h, k);
    assert !IsTerm(t[k - 1]) by {
      assert h < k - 1 ==> IsBurst(t[k - 1]);
    }
    var s := ObpReceived(l, true, r.rt, d, now, now2);
    if IsTerm(t[k]) {
      TermRepeated(l, r.rt, d, now, now2);
    } else {
      BurstRepeated(l, r.rt, d, now, now2, (k - h - 1) % 6);
      BurstRelays(t[k].frame, (k - h - 1) % 6);
    }
    assert Answers(l, peerId, t, h, k - h, s.outs[0]);
    AnswersGrow(l, peerId, t, h, k, r.outs, s.outs);
  }

  lemma AnswersGrow(l: LinkConfig, peerId: nat, t: seq<Out>, h: nat, k: nat, outs: seq<Out>, more: seq<Out>)
    requires h < k < |t| && t[h].Obp? && |outs| == k - h && |more| == 1 && t[k].Obp?
    requires forall j: nat :: j < k - h ==> Matches(l, peerId, t, h, j, outs)
    requires Answers(l, peerId, t, h, k - h, more[0])
    ensures forall j: nat :: j <= k - h ==> Matches(l, peerId, t, h, j, outs + more)
  {
    hide Answers;
    forall j: nat | j <= k - h ensures Matches(l, peerId, t, h, j, outs + more) {
      assert j < k - h ==> Matches(l, peerId, t, h, j, outs);
    }
  }

  lemma FirstAnswer(l: LinkConfig, rt: LinkRuntime, t: seq<Out>, h: nat, d: Dmrd, now: real, now2: real)
    requires l.enabled && !rt.hasCall && OneCall(t, h, h) && t[h].Obp? && Delivered(d, t[h].frame)
    ensures Repeated(l, d.repeater, t, h, h, ObpReceived(l, true, rt, d, now, now2))
  {
    hide ObpReceived, CallFrame, Relays;
    HeadRepeated(l, rt, d, now, now2);
  }

  // ---------- Within a run of the far bridge ----------

  /** The frames of stream `stream` for link `i` among the events. */
  function Arrivals(links: seq<LinkConfig>, i: nat, stream: Stream, events: seq<Event>): seq<Dmrd> {
    if events == [] then []
    else
      var e := events[|events| - 1];
      Arrivals(links, i, stream, events[..|events| - 1]) + if Arrives(links, i, stream, e) then [e.frame] else []
  }

  predicate Arrives(links: seq<LinkConfig>, i: nat, stream: Stream, e: Event) {
    e.DmrdEvent? && e.frame.stream == stream && Concerns(links, i, e)
  }

  /** An event that concerns a link with record `rt` lets a call of stream `stream`
      through: its frames find link and gate open; a HEAD of another stream does not; a
      B-on comes only during a call; ticks come in time; and the link is not lost. */
  predicate LetsThrough(l: LinkConfig, open: bool, rt: LinkRuntime, stream: Stream, e: Event) {
    match e
    case DmrdEvent(_, d, _, _) => if d.stream == stream then Admitted(l, open) else KindOf(d.flags) != HeadKind
    case TickEvent(now) => rt.hasCall ==> now - rt.call.last <= 5.0
    case CcBonEvent(_, _, _, _, _) => InCall(rt, ObpOrigin)
    case LinkDownEvent(_) => false
    case _ => true
  }

  /** Event `m` does not disturb a call of stream `stream` on link `i`. */
  ghost predicate Undisturbed(cfg: Config, events: seq<Event>, i: nat, stream: Stream, m: nat)
    requires Resolved(cfg) && Feasible(Start(cfg), events) && m < |events| && i < |cfg.links|
  {
    var st := StateAt(Start(cfg), events, m);
    Concerns(cfg.links, i, events[m]) ==>
      && i < |st.links|
      && LetsThrough(st.cfg.links[i], GateOpen(st.cfg, st.cfg.links[i]), st.links[i], stream, events[m])
  }

  /** The frames that arrived are the first of the call from `h` on. */
  ghost predicate FramesOf(t: seq<Out>, h: nat, k: nat, frames: seq<Dmrd>) {
    && h <= k < |t| && |frames| <= k - h + 1
    && forall j: nat :: j < |frames| ==> Arrived(t, h, j, frames)
  }

  ghost predicate Arrived(t: seq<Out>, h: nat, j: nat, frames: seq<Dmrd>) {
    h + j < |t| && j < |frames| && t[h + j].Obp? && Delivered(frames[j], t[h + j].frame)
  }

  /** The call has come through as far as its frames have arrived. */
  ghost predicate Through(l: LinkConfig, peerId: nat, t: seq<Out>, h: nat, n: nat, r: Result) {
    if n == 0 then !r.rt.hasCall && r.outs == []
    else OneCall(t, h, h + n - 1) && Repeated(l, peerId, t, h, h + n - 1, r)
  }

  lemma ThroughNext(l: LinkConfig, peerId: nat, t: seq<Out>, h: nat, k: nat, n: nat, r: Result, d: Dmrd,
                    now: real, now2: real)
    requires OneCall(t, h, k) && h + n <= k < |t| && Through(l, peerId, t, h, n, r) && l.enabled
    requires t[h + n].Obp? && Delivered(d, t[h + n].frame) && (n == 0 ==> d.repeater == peerId)
    ensures var s := ObpReceived(l, true, r.rt, d, now, now2);
            Through(l, peerId, t, h, n + 1, Result(s.rt, r.outs + s.outs))
  {
    hide OneCall, Repeated, ObpReceived, Delivered;
    CallFrames(t, h, k, h + n);
    var s := ObpReceived(l, true, r.rt, d, now, now2);
    if n == 0 {
      FirstAnswer(l, r.rt, t, h, d, now, now2);
      assert [] + s.outs == s.outs;
    } else {
      AnswerNext(l, peerId, t, h, h + n, r, d, now, now2);
    }
  }

  /** Only the call record and the fields a reload leaves alone matter. */
  lemma ThroughStays(l: LinkConfig, l': LinkConfig, peerId: nat, t: seq<Out>, h: nat, n: nat, r: Result,
                     rt: LinkRuntime)
    requires SameButToggles(l, l') && Through(l, peerId, t, h, n, r)
    requires rt.hasCall == r.rt.hasCall && rt.call == r.rt.call
    ensures Through(l', peerId, t, h, n, Result(rt, r.outs))
  {
    hide OneCall, Relays;
    if n > 0 {
      forall j: nat | j < n ensures Matches(l', peerId, t, h, j, r.outs) {
        assert Matches(l, peerId, t, h, j, r.outs);
      }
    }
  }

  /** There is a call of this stream, or none. */
  lemma ThroughRecord(l: LinkConfig, peerId: nat, t: seq<Out>, h: nat, n: nat, r: Result)
    requires Through(l, peerId, t, h, n, r) && h < |t| && t[h].Obp?
    ensures !r.rt.hasCall || (InCall(r.rt, ObpOrigin) && r.rt.call.stream == t[h].frame.stream)
  {
    hide OneCall, Matches;
  }

  /** What lets a call through and is none of its frames changes nothing. */
  lemma NothingChanges(st: State, i: nat, e: Event, stream: Stream)
    requires WellFormed(st) && i < |st.links|
    requires !(e.DmrdEvent? && e.frame.stream == stream) && !e.ReloadEvent?
    requires !st.links[i].hasCall || (InCall(st.links[i], ObpOrigin) && st.links[i].call.stream == stream)
    requires LetsThrough(st.cfg.links[i], GateOpen(st.cfg, st.cfg.links[i]), st.links[i], stream, e)
    ensures var r := LinkStep(st, i, e);
            r.outs == [] && r.rt.hasCall == st.links[i].hasCall && r.rt.call == st.links[i].call
  {
    hide KindOf, SlotIndex, Packed, ExtractedAmbe, GateOpen;
  }

  /** One event of the far bridge takes the call a frame further, or leaves it be. */
  lemma EventCrosses(cfg: Config, events: seq<Event>, i: nat, m: nat, peerId: nat, t: seq<Out>, h: nat, k: nat, n: nat,
                     outs: seq<Out>)
    requires Resolved(cfg) && Feasible(Start(cfg), events) && m < |events| && i < |cfg.links|
    requires OneCall(t, h, k) && h <= k < |t| && t[h].Obp? && Undisturbed(cfg, events, i, t[h].frame.stream, m)
    requires i < |StateAt(Start(cfg), events, m).links|
    requires Through(cfg.links[i], peerId, t, h, n, Result(StateAt(Start(cfg), events, m).links[i], outs))
    requires Arrives(cfg.links, i, t[h].frame.stream, events[m]) ==>
               && h + n <= k && t[h + n].Obp? && Delivered(events[m].frame, t[h + n].frame)
               && (n == 0 ==> events[m].frame.repeater == peerId)
    ensures var next, replies := StateAt(Start(cfg), events, m + 1), Replies(Start(cfg), events, i, m);
            var n' := if Arrives(cfg.links, i, t[h].frame.stream, events[m]) then n + 1 else n;
            i < |next.links| && Through(cfg.links[i], peerId, t, h, n', Result(next.links[i], outs + replies))
  {
    hide OneCall, Repeated, ObpReceived, Feasible, Run, Agrees, Log, Concerns, PastOf, StateAt, Replies, Through,
         Recalls, Delivered, LetsThrough, LinkStep;
    var e, st, next := events[m], StateAt(Start(cfg), events, m), StateAt(Start(cfg), events, m + 1);
    var mid := Moment(cfg, events, i, m);
    var l, l0, rt := st.cfg.links[i], cfg.links[i], st.links[i];
    if Arrives(cfg.links, i, t[h].frame.stream, e) {
      FrameCrosses(mid, i, e, l0, peerId, t, h, k, n, outs);
    } else {
      if Concerns(cfg.links, i, e) {
        ThroughRecord(l0, peerId, t, h, n, Result(rt, outs));
        NoReload(cfg, i, e);
        NothingChanges(mid, i, e, t[h].frame.stream);
      }
      assert outs + [] == outs;
      ThroughStays(l0, l0, peerId, t, h, n, Result(rt, outs), next.links[i]);
    }
  }

  lemma NoReload(cfg: Config, i: nat, e: Event)
    requires Concerns(cfg.links, i, e)
    ensures !e.ReloadEvent?
  {
  }

  /** A frame of the call at link `i`. */
  lemma FrameCrosses(st: State, i: nat, e: Event, l0: LinkConfig, peerId: nat, t: seq<Out>, h: nat, k: nat, n: nat,
                     outs: seq<Out>)
    requires WellFormed(st) && i < |st.links| && e.DmrdEvent? && SameButToggles(l0, st.cfg.links[i])
    requires OneCall(t, h, k) && h + n <= k < |t| && t[h].Obp? && t[h + n].Obp? && e.frame.stream == t[h].frame.stream
    requires Delivered(e.frame, t[h + n].frame) && (n == 0 ==> e.frame.repeater == peerId)
    requires LetsThrough(st.cfg.links[i], GateOpen(st.cfg, st.cfg.links[i]), st.links[i], t[h].frame.stream, e)
    requires Through(l0, peerId, t, h, n, Result(st.links[i], outs))
    ensures var r := LinkStep(st, i, e);
            Through(l0, peerId, t, h, n + 1, Result(r.rt, outs + r.outs))
  {
    hide OneCall, Repeated, ObpReceived, Through, Delivered, GateOpen;
    var l, r := st.cfg.links[i], LinkStep(st, i, e);
    ThroughStays(l0, l, peerId, t, h, n, Result(st.links[i], outs), st.links[i]);
    ThroughNext(l, peerId, t, h, k, n, Result(st.links[i], outs), e.frame, e.now, e.now2);
    ThroughStays(l, l0, peerId, t, h, n + 1, Result(r.rt, outs + r.outs), r.rt);
  }

  lemma ArrivalsNext(links: seq<LinkConfig>, i: nat, stream: Stream, events: seq<Event>, a: nat, m: nat)
    requires a <= m < |events|
    ensures Arrivals(links, i, stream, events[a..m + 1])
         == Arrivals(links, i, stream, events[a..m])
            + if Arrives(links, i, stream, events[m]) then [events[m].frame] else []
  {
    hide Concerns;
    var part := events[a..m + 1];
    assert part[..|part| - 1] == events[a..m] && part[|part| - 1] == events[m];
  }

  lemma FewerFrames(t: seq<Out>, h: nat, k: nat, whole: seq<Dmrd>, frames: seq<Dmrd>)
    requires FramesOf(t, h, k, whole) && frames <= whole
    ensures FramesOf(t, h, k, frames)
  {
    hide Delivered;
    forall j: nat | j < |frames| ensures Arrived(t, h, j, frames) {
      assert Arrived(t, h, j, whole);
    }
  }

  /** The repeater field of the first frame. */
  predicate FirstNames(frames: seq<Dmrd>, peerId: nat) {
    frames == [] || frames[0].repeater == peerId
  }

  /** From event `a` up to `b`, frames of the call from `h` to `k` reach the idle link `i`
      of a bridge, in order from the HEAD on, and nothing disturbs it. */
  ghost predicate Crossing(cfg: Config, events: seq<Event>, i: nat, a: nat, b: nat, t: seq<Out>, h: nat, k: nat) {
    && Resolved(cfg) && Feasible(Start(cfg), events) && a <= b <= |events| && i < |cfg.links|
    && OneCall(t, h, k) && h <= k < |t| && t[h].Obp?
    && FramesOf(t, h, k, Arrivals(cfg.links, i, t[h].frame.stream, events[a..b]))
    && (forall m: nat :: a <= m < b ==> Undisturbed(cfg, events, i, t[h].frame.stream, m))
    && i < |StateAt(Start(cfg), events, a).links| && !StateAt(Start(cfg), events, a).links[i].hasCall
  }

  lemma CrossingBefore(cfg: Config, events: seq<Event>, i: nat, a: nat, b: nat, t: seq<Out>, h: nat, k: nat)
    requires a < b && Crossing(cfg, events, i, a, b, t, h, k)
    ensures Crossing(cfg, events, i, a, b - 1, t, h, k)
  {
    hide OneCall, Feasible, StateAt, Undisturbed, FramesOf;
    var stream := t[h].frame.stream;
    ArrivalsNext(cfg.links, i, stream, events, a, b - 1);
    FewerFrames(t, h, k, Arrivals(cfg.links, i, stream, events[a..b]),
                Arrivals(cfg.links, i, stream, events[a..b - 1]));
  }

  lemma {:induction false} CallComesThrough(cfg: Config, events: seq<Event>, i: nat, a: nat, b: nat, peerId: nat,
                                            t: seq<Out>, h: nat, k: nat)
    requires Crossing(cfg, events, i, a, b, t, h, k)
    requires FirstNames(Arrivals(cfg.links, i, t[h].frame.stream, events[a..b]), peerId)
    ensures var st := StateAt(Start(cfg), events, b);
            i < |st.links|
            && Through(cfg.links[i], peerId, t, h, |Arrivals(cfg.links, i, t[h].frame.stream, events[a..b])|,
                       Result(st.links[i], SentSince(Start(cfg), events, i, a, b)))
    decreases b
  {
    hide OneCall, Repeated, Feasible, StateAt, Replies, Undisturbed, Concerns, Delivered;
    if a == b {
      assert events[a..b] == [];
    } else {
      var m, stream := b - 1, t[h].frame.stream;
      var frames, whole := Arrivals(cfg.links, i, stream, events[a..m]), Arrivals(cfg.links, i, stream, events[a..b]);
      ArrivalsNext(cfg.links, i, stream, events, a, m);
      CrossingBefore(cfg, events, i, a, b, t, h, k);
      CallComesThrough(cfg, events, i, a, m, peerId, t, h, k);
      if Arrives(cfg.links, i, stream, events[m]) {
        assert Arrived(t, h, |frames|, whole) && whole[|frames|] == events[m].frame;
      }
      EventCrosses(cfg, events, i, m, peerId, t, h, k, |frames|, SentSince(Start(cfg), events, i, a, m));
    }
  }

  /** A call of one bridge comes out of another as that call.  When its frames, from the
      HEAD up to the one at `h + n`, have reached an idle link there, with whatever number
      and repeater field they were given on the way, that link has sent a B-on with the
      call's source and the repeater of the HEAD that arrived, one voice request a burst
      with the first marked and the audio intact, a B-off for the TERM, and nothing else.
      Meanwhile other links may do anything and reloads may come.  On this link the cc
      side may signal and send voice, though a B-on only during the call, and frames of
      other streams may come, but no HEAD; five idle seconds and link loss are ruled out. */
  lemma CallCrossesTheBridge(cfg: Config, events: seq<Event>, i: nat, a: nat, b: nat, t: seq<Out>, h: nat, k: nat)
    requires Crossing(cfg, events, i, a, b, t, h, k) && Arrivals(cfg.links, i, t[h].frame.stream, events[a..b]) != []
    ensures var st, frames := StateAt(Start(cfg), events, b), Arrivals(cfg.links, i, t[h].frame.stream, events[a..b]);
            var n, sent := |frames| - 1, SentSince(Start(cfg), events, i, a, b);
            && i < |st.links| && OneCall(t, h, h + n)
            && Repeated(cfg.links[i], frames[0].repeater, t, h, h + n, Result(st.links[i], sent))
            && Feasible(Start(cfg), events[..a]) && Feasible(Start(cfg), events[..b])
            && Outs(Log(Start(cfg), events[..b], i)) == Outs(Log(Start(cfg), events[..a], i)) + sent
  {
    hide OneCall, Repeated, Feasible, StateAt, Replies, Undisturbed, Arrivals, SentSince, Log, FramesOf;
    var frames := Arrivals(cfg.links, i, t[h].frame.stream, events[a..b]);
    CallComesThrough(cfg, events, i, a, b, frames[0].repeater, t, h, k);
    SentIsLogged(Start(cfg), events, i, a, b);
  }
}
