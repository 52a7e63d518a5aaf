/** What the cc side does on a link, and the OpenBridge calls that come of it. */
module CallOnAir {
  import opened Burst
  import opened CallCauses
  import opened CallHistory
  import opened CallModel
  import opened CallProvenance
  import opened CallRuns
  import opened CallTheorems
  import opened CcccAmbe
  import opened EmbeddedLc

  // ---------- Deeds and what is to be heard on air ----------

  /** A deed of the cc side on one link. */
  datatype Deed = Begin(radio: nat, peerId: nat) | Say(ambe21: Ambe21) | End

  function DeedOf(e: Event): seq<Deed> {
    match e
    case CcBonEvent(_, radio, peerId, _, _) => [Begin(radio, peerId)]
    case CcVoiceEvent(_, ambe21, _) => [Say(ambe21)]
    case CcBoffEvent(_) => [End]
    case _ => []
  }

  function DeedsAt(e: Event, i: nat): seq<Deed> {
    if !e.DmrdEvent? && !e.TickEvent? && !e.ReloadEvent? && e.link == i then DeedOf(e) else []
  }

  function Deeds(events: seq<Event>, i: nat): seq<Deed> {
    if events == [] then [] else Deeds(events[..|events| - 1], i) + DeedsAt(events[|events| - 1], i)
  }

  lemma {:induction false} DeedsAppend(events: seq<Event>, more: seq<Event>, i: nat)
    ensures Deeds(events + more, i) == Deeds(events, i) + Deeds(more, i)
  {
    hide DeedsAt;
    if more == [] {
      assert events + more == events;
    } else {
      var n, whole := |more| - 1, events + more;
      assert whole[..|whole| - 1] == events + more[..n] && whole[|whole| - 1] == more[n];
      DeedsAppend(events, more[..n], i);
    }
  }

  /** A frame to be sent: which of the call, and its audio. */
  datatype Part = Head | Voiced(n: nat, ambe21: Ambe21) | Term

  datatype Shape = Shape(radio: nat, peerId: nat, part: Part)

  datatype Air = Silent | Talking(radio: nat, peerId: nat, n: nat)

  datatype Aired = Aired(air: Air, shapes: seq<Shape>)

  /** The first B-on opens a call, each packet is its next burst, the B-off ends it, and
      whatever comes out of turn is passed over. */
  function Heed(air: Air, deed: Deed): Aired {
    match deed
    case Begin(radio, peerId) =>
      if air.Silent? then Aired(Talking(radio, peerId, 0), [Shape(radio, peerId, Head)]) else Aired(air, [])
    case Say(ambe21) =>
      if air.Silent? then Aired(air, [])
      else Aired(air.(n := air.n + 1), [Shape(air.radio, air.peerId, Voiced(air.n, ambe21))])
    case End =>
      if air.Silent? then Aired(air, []) else Aired(Silent, [Shape(air.radio, air.peerId, Term)])
  }

  function HeedAll(air: Air, deeds: seq<Deed>): Aired {
    if deeds == [] then Aired(air, [])
    else
      var r := HeedAll(air, deeds[..|deeds| - 1]);
      var s := Heed(r.air, deeds[|deeds| - 1]);
      Aired(s.air, r.shapes + s.shapes)
  }

  /** Frame `f` has this shape on link `l`: its header, its position and its payload. */
  ghost predicate Fits(l: LinkConfig, s: Shape, f: Dmrd) {
    && f.src == s.radio % 0x100_0000 && f.dst == l.tgid % 0x100_0000 && f.repeater == s.peerId % 0x1_0000_0000
    && match s.part
       case Head => f.flags == 0x21 && f.payload == HeadTermPayload(CallLc(l.tgid, s.radio), false)
       case Term => f.flags == 0x22 && f.payload == HeadTermPayload(CallLc(l.tgid, s.radio), true)
       case Voiced(n, ambe21) =>
         f.flags == VoiceFlags(n % 6) && f.payload == VoicePayload(EncodeEmb(CallLc(l.tgid, s.radio)), n % 6, ambe21)
  }

  ghost predicate Sends(l: LinkConfig, o: Out, s: Shape) {
    o.Obp? && o.peer == l.peer && Fits(l, s, o.frame)
  }

  ghost predicate AllSent(l: LinkConfig, outs: seq<Out>, shapes: seq<Shape>) {
    |outs| == |shapes| && forall k: nat :: k < |outs| ==> Sends(l, outs[k], shapes[k])
  }

  // ---------- One event ----------

  /** The call record is that of the call on air. */
  ghost predicate Records(l: LinkConfig, rt: LinkRuntime, air: Air) {
    match air
    case Silent => !rt.hasCall
    case Talking(radio, peerId, n) =>
      && InCall(rt, CcOrigin) && l.peer >= 0 && rt.call.src == radio && rt.call.ccPeerId == peerId && rt.call.pos == n
      && rt.call.lc == CallLc(l.tgid, radio) && rt.call.emb == EncodeEmb(rt.call.lc)
  }

  /** An event that concerns a link with record `rt` lets the cc side be heard: link and
      gate are open to a B-on, the toggle to voice; no HEAD is let in before the B-on;
      ticks come in time; and the link is not lost. */
  predicate LetsOut(l: LinkConfig, open: bool, rt: LinkRuntime, e: Event) {
    match e
    case CcBonEvent(_, _, _, _, _) => Admitted(l, open)
    case CcVoiceEvent(_, _, _) => l.crossConnect
    case DmrdEvent(_, d, _, _) => rt.hasCall || !Admitted(l, open) || KindOf(d.flags) != HeadKind
    case TickEvent(now) => rt.hasCall ==> now - rt.call.last <= 5.0
    case LinkDownEvent(_) => false
    case _ => true
  }

  lemma BonHeeded(l: LinkConfig, rt: LinkRuntime, air: Air, n: nat, e: Event)
    requires e.CcBonEvent? && Records(l, rt, air) && l.enabled && l.peer >= 0
    ensures var r, s := CcBon(l, true, rt, n, e.radio, e.peerId, e.stream, e.now), Heed(air, Begin(e.radio, e.peerId));
            AllSent(l, r.outs, s.shapes) && Records(l, r.rt, s.air)
  {
    hide CallLc, EncodeEmb, HeadTermPayload;
  }

  lemma VoiceHeeded(l: LinkConfig, rt: LinkRuntime, air: Air, n: nat, e: Event)
    requires e.CcVoiceEvent? && Records(l, rt, air) && l.crossConnect
    ensures var r, s := CcVoice(l, rt, n, e.ambe21, e.now), Heed(air, Say(e.ambe21));
            AllSent(l, r.outs, s.shapes) && Records(l, r.rt, s.air)
  {
    hide CallLc, EncodeEmb, VoicePayload, VoiceFlags;
  }

  lemma BoffHeeded(l: LinkConfig, rt: LinkRuntime, air: Air, n: nat)
    requires Records(l, rt, air)
    ensures var r, s := EndCcCall(l, rt, n), Heed(air, End);
            AllSent(l, r.outs, s.shapes) && Records(l, r.rt, s.air)
  {
    hide CallLc, EncodeEmb, HeadTermPayload;
  }

  /** Frames from OpenBridge, ticks and link-up leave the call as it is. */
  lemma NothingHeeded(st: State, i: nat, e: Event, air: Air)
    requires WellFormed(st) && i < |st.links| && Records(st.cfg.links[i], st.links[i], air)
    requires e.DmrdEvent? || e.TickEvent? || e.LinkUpEvent?
    requires LetsOut(st.cfg.links[i], GateOpen(st.cfg, st.cfg.links[i]), st.links[i], e)
    ensures var r := LinkStep(st, i, e);
            r.outs == [] && r.rt.hasCall == st.links[i].hasCall && r.rt.call == st.links[i].call
  {
    hide KindOf, SlotIndex, Packed, ExtractedAmbe, GateOpen, CallLc, EncodeEmb;
  }

  lemma SameRecords(l: LinkConfig, l': LinkConfig, rt: LinkRuntime, rt': LinkRuntime, air: Air)
    requires Records(l, rt, air) && SameButToggles(l, l') && rt'.hasCall == rt.hasCall && rt'.call == rt.call
    ensures Records(l', rt', air)
  {
    hide CallLc, EncodeEmb;
  }

  /** What an event that concerns link `i` makes it send is what is to be heard of it. */
  lemma StepHeeded(st: State, i: nat, e: Event, air: Air)
    requires WellFormed(st) && i < |st.links| && Records(st.cfg.links[i], st.links[i], air) && !e.ReloadEvent?
    requires LetsOut(st.cfg.links[i], GateOpen(st.cfg, st.cfg.links[i]), st.links[i], e)
    ensures var l, r, s := st.cfg.links[i], LinkStep(st, i, e), HeedAll(air, DeedOf(e));
            AllSent(l, r.outs, s.shapes) && Records(l, r.rt, s.air)
  {
    hide CcBon, CcVoice, EndCcCall, ObpReceived, Idle, Records, AllSent, Heed;
    var l, rt, n := st.cfg.links[i], st.links[i], Count(st, i);
    HeedFew(air, DeedOf(e));
    if e.CcBonEvent? {
      BonHeeded(l, rt, air, n, e);
    } else if e.CcVoiceEvent? {
      VoiceHeeded(l, rt, air, n, e);
    } else if e.CcBoffEvent? {
      BoffHeeded(l, rt, air, n);
    } else {
      NothingHeeded(st, i, e, air);
      SameRecords(l, l, rt, LinkStep(st, i, e).rt, air);
      NothingSent(l);
    }
  }

  lemma NothingSent(l: LinkConfig)
    ensures AllSent(l, [], [])
  {
  }

  lemma HeedFew(air: Air, deeds: seq<Deed>)
    ensures deeds == [] ==> HeedAll(air, deeds) == Aired(air, [])
    ensures |deeds| == 1 ==> HeedAll(air, deeds) == Heed(air, deeds[0])
  {
    hide Heed;
    if |deeds| == 1 {
      assert [] + Heed(air, deeds[0]).shapes == Heed(air, deeds[0]).shapes;
    }
  }

  // ---------- Runs ----------

  /** Event `m` lets the cc side of link `i` be heard. */
  ghost predicate Unhindered(cfg: Config, events: seq<Event>, i: nat, m: nat)
    requires Resolved(cfg) && Feasible(Start(cfg), events) && m < |events| && i < |cfg.links|
  {
    var st := StateAt(Start(cfg), events, m);
    Concerns(cfg.links, i, events[m]) ==>
      i < |st.links| && LetsOut(st.cfg.links[i], GateOpen(st.cfg, st.cfg.links[i]), st.links[i], events[m])
  }

  lemma {:induction false} HeedAppend(air: Air, deeds: seq<Deed>, more: seq<Deed>)
    ensures var r := HeedAll(air, deeds); var s := HeedAll(r.air, more);
            HeedAll(air, deeds + more) == Aired(s.air, r.shapes + s.shapes)
  {
    hide Heed;
    var r := HeedAll(air, deeds);
    if more == [] {
      assert deeds + more == deeds;
      assert r.shapes + [] == r.shapes;
    } else {
      var n := |more| - 1;
      assert (deeds + more)[..|deeds + more| - 1] == deeds + more[..n] && (deeds + more)[|deeds + more| - 1] == more[n];
      HeedAppend(air, deeds, more[..n]);
      var s := HeedAll(r.air, more[..n]);
      assert r.shapes + (s.shapes + Heed(s.air, more[n]).shapes) == (r.shapes + s.shapes) + Heed(s.air, more[n]).shapes;
    }
  }

  lemma DeedsNext(events: seq<Event>, i: nat, a: nat, m: nat)
    requires a <= m < |events|
    ensures Deeds(events[a..m + 1], i) == Deeds(events[a..m], i) + DeedsAt(events[m], i)
  {
    hide DeedsAt;
    var part := events[a..m + 1];
    assert part[..|part| - 1] == events[a..m] && part[|part| - 1] == events[m];
  }

  lemma SentAppend(l: LinkConfig, outs: seq<Out>, shapes: seq<Shape>, more: seq<Out>, next: seq<Shape>)
    requires AllSent(l, outs, shapes) && AllSent(l, more, next)
    ensures AllSent(l, outs + more, shapes + next)
  {
    hide Sends;
    forall k: nat | k < |outs + more| ensures Sends(l, (outs + more)[k], (shapes + next)[k]) {
      if k < |outs| {
        assert Sends(l, outs[k], shapes[k]);
      } else {
        assert Sends(l, more[k - |outs|], next[k - |outs|]);
      }
    }
  }

  lemma ToggledSent(l: LinkConfig, l': LinkConfig, outs: seq<Out>, shapes: seq<Shape>)
    requires AllSent(l, outs, shapes) && SameButToggles(l, l')
    ensures AllSent(l', outs, shapes)
  {
    hide CallLc, EncodeEmb, VoicePayload, HeadTermPayload, VoiceFlags;
    forall k: nat | k < |outs| ensures Sends(l', outs[k], shapes[k]) {
      assert Sends(l, outs[k], shapes[k]);
    }
  }

  /** Link `i` at event `m`. */
  lemma EventHeeded(cfg: Config, events: seq<Event>, i: nat, m: nat, air: Air)
    requires Resolved(cfg) && Feasible(Start(cfg), events) && m < |events| && i < |cfg.links|
    requires Unhindered(cfg, events, i, m) && i < |StateAt(Start(cfg), events, m).links|
    requires Records(cfg.links[i], StateAt(Start(cfg), events, m).links[i], air)
    ensures var next, s := StateAt(Start(cfg), events, m + 1), HeedAll(air, DeedsAt(events[m], i));
            && i < |next.links| && Records(cfg.links[i], next.links[i], s.air)
            && AllSent(cfg.links[i], Replies(Start(cfg), events, i, m), s.shapes)
  {
    hide Feasible, Run, Agrees, Log, Concerns, PastOf, StateAt, Replies, Recalls, LinkStep, Records, AllSent, LetsOut,
         DeedOf, HeedAll;
    var e, st, next := events[m], StateAt(Start(cfg), events, m), StateAt(Start(cfg), events, m + 1);
    var mid := Moment(cfg, events, i, m);
    var l, l0, rt := st.cfg.links[i], cfg.links[i], st.links[i];
    ConcernedDeeds(cfg, i, e);
    if Concerns(cfg.links, i, e) {
      SameRecords(l0, l, rt, rt, air);
      StepHeeded(mid, i, e, air);
      SameRecords(l, l0, next.links[i], next.links[i], HeedAll(air, DeedOf(e)).air);
      ToggledSent(l, l0, Replies(Start(cfg), events, i, m), HeedAll(air, DeedOf(e)).shapes);
    } else {
      HeedFew(air, []);
      NothingSent(l0);
    }
  }

  lemma ConcernedDeeds(cfg: Config, i: nat, e: Event)
    ensures if Concerns(cfg.links, i, e) then DeedsAt(e, i) == DeedOf(e) && !e.ReloadEvent? else DeedsAt(e, i) == []
  {
    hide Route;
  }

  /** From event `a` up to `b` nothing hinders the cc side of link `i`, which begins silent. */
  ghost predicate Airing(cfg: Config, events: seq<Event>, i: nat, a: nat, b: nat) {
    && Resolved(cfg) && Feasible(Start(cfg), events) && a <= b <= |events| && i < |cfg.links|
    && (forall m: nat :: a <= m < b ==> Unhindered(cfg, events, i, m))
    && i < |StateAt(Start(cfg), events, a).links| && !StateAt(Start(cfg), events, a).links[i].hasCall
  }

  lemma {:induction false} DeedsAired(cfg: Config, events: seq<Event>, i: nat, a: nat, b: nat)
    requires Airing(cfg, events, i, a, b)
    ensures var st, s := StateAt(Start(cfg), events, b), HeedAll(Silent, Deeds(events[a..b], i));
            && i < |st.links| && Records(cfg.links[i], st.links[i], s.air)
            && AllSent(cfg.links[i], SentSince(Start(cfg), events, i, a, b), s.shapes)
    decreases b
  {
    hide Feasible, StateAt, Replies, Unhindered, Heed, AllSent, DeedsAt;
    if a == b {
      assert events[a..b] == [];
      NothingSent(cfg.links[i]);
    } else {
      var m := b - 1;
      DeedsAired(cfg, events, i, a, m);
      var s := HeedAll(Silent, Deeds(events[a..m], i));
      EventHeeded(cfg, events, i, m, s.air);
      DeedsNext(events, i, a, m);
      HeedAppend(Silent, Deeds(events[a..m], i), DeedsAt(events[m], i));
      SentAppend(cfg.links[i], SentSince(Start(cfg), events, i, a, m), s.shapes, Replies(Start(cfg), events, i, m),
                 HeedAll(s.air, DeedsAt(events[m], i)).shapes);
    }
  }

  /** What the cc side does on a silent link goes out on OpenBridge as the calls it makes:
      every B-on out of a call is a HEAD, every packet in a call its next burst, and
      every B-off in a call a TERM, with the B-on's source and peer, the link's talkgroup
      and the embedded LC of the two.  Nothing else is sent, whatever happens on
      other links, and whatever frames come from OpenBridge but a HEAD before the B-on. */
  lemma CallsGoOnAir(cfg: Config, events: seq<Event>, i: nat, a: nat, b: nat)
    requires Airing(cfg, events, i, a, b)
    ensures var sent := SentSince(Start(cfg), events, i, a, b);
            && AllSent(cfg.links[i], sent, HeedAll(Silent, Deeds(events[a..b], i)).shapes)
            && Feasible(Start(cfg), events[..a]) && Feasible(Start(cfg), events[..b])
            && Outs(Log(Start(cfg), events[..b], i)) == Outs(Log(Start(cfg), events[..a], i)) + sent
  {
    hide Feasible, StateAt, Replies, Unhindered, HeedAll, AllSent, Deeds, Log, SentSince;
    DeedsAired(cfg, events, i, a, b);
    SentIsLogged(Start(cfg), events, i, a, b);
  }
}
