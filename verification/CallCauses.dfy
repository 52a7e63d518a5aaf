/** Why a link makes a request: what one event of the translator may answer with, told
    from the events behind the requests before it. */
module CallCauses {
  import opened Burst
  import opened CallModel
  import opened CallTheorems
  import opened CallTraces
  import opened CcccAmbe
  import opened EmbeddedLc

  // ---------- Requests ----------

  predicate IsOpener(o: Out) {
    o.Bon? || IsHead(o)
  }

  /** A request that carries audio. */
  predicate IsAudio(o: Out) {
    o.Voice? || IsBurst(o)
  }

  predicate IsCloser(o: Out) {
    o.Boff? || IsTerm(o)
  }

  predicate HasAudio(outs: seq<Out>) {
    exists k: nat :: k < |outs| && IsAudio(outs[k])
  }

  predicate HasOpener(outs: seq<Out>) {
    exists k: nat :: k < |outs| && IsOpener(outs[k])
  }

  predicate HasCloser(outs: seq<Out>) {
    exists k: nat :: k < |outs| && IsCloser(outs[k])
  }

  /** An obp-origin call is up after `o`. */
  predicate ObpUp(o: Out) {
    o.Bon? || o.Voice?
  }

  // ---------- Causes ----------

  /** What a link knows of its last call when an event arrives: the last request, the
      request that opened the call, and the events behind the two. */
  datatype Past = Past(prev: Out, last: Event, opener: Out, head: Event)

  /** The reading of the clock that counts as activity. */
  function Stamp(e: Event): real {
    match e
    case CcBonEvent(_, _, _, _, now) => now
    case CcVoiceEvent(_, _, now) => now
    case DmrdEvent(_, _, now, _) => now
    case _ => 0.0
  }

  predicate IsIdle(e: Event, past: Past) {
    e.TickEvent? && e.now - Stamp(past.last) > 5.0
  }

  predicate IsKind(e: Event, kind: Kind) {
    e.DmrdEvent? && KindOf(e.frame.flags) == kind
  }

  /** The frame is of the stream whose HEAD opened the call. */
  predicate SameStream(e: Event, past: Past) {
    past.opener.Bon? && past.head.DmrdEvent? && e.DmrdEvent? && e.frame.stream == past.head.frame.stream
  }

  /** The OpenBridge frame is that of the call a B-on of the cc side opened. */
  predicate OfCcCall(f: Dmrd, past: Past) {
    IsHead(past.opener) && past.head.CcBonEvent? && f.stream == past.head.stream
  }

  /** A burst built from `ambe21`, with the embedded LC of its own header. */
  predicate CarriesAudio(f: Dmrd, ambe21: Ambe21) {
    f.payload == VoicePayload(EncodeEmb(FrameLc(f)), Position(f.flags), ambe21)
  }

  /** Event `e` explains the request `o`. */
  predicate Explains(past: Past, e: Event, o: Out) {
    match o
    case Obp(_, f) =>
      if IsHead(o) then
        e.CcBonEvent? && f.stream == e.stream && f.src == e.radio % 0x100_0000 && f.repeater == e.peerId % 0x1_0000_0000
      else if IsTerm(o) then
        OfCcCall(f, past) && (e.CcBoffEvent? || e.LinkDownEvent? || IsIdle(e, past))
      else
        OfCcCall(f, past) && e.CcVoiceEvent? && CarriesAudio(f, e.ambe21)
    case Bon(src, peerId, _, _) =>
      IsKind(e, HeadKind) && src == e.frame.src && peerId == e.frame.repeater
    case Voice(slot, _, _, _, audio) =>
      && IsKind(e, BurstKind) && SameStream(e, past)
      && audio == Packed(ExtractedAmbe(e.frame.payload)) && slot == SlotIndex(past.head.now, e.now2)
    case Boff(_, _) =>
      && past.opener.Bon?
      && (IsIdle(e, past) || (IsKind(e, TermKind) && SameStream(e, past))
          || (IsKind(e, HeadKind) && !SameStream(e, past)))
    case Down => e.LinkDownEvent?
  }

  // ---------- Decisions ----------
  //
  // `open` says whether the gate of the link is open.

  /** A link is joined to an OpenBridge peer: it is cross-connected and its peer is enabled. */
  predicate Joined(cfg: Config, l: LinkConfig) {
    l.crossConnect && 0 <= l.peer < |cfg.peerEnabled| && cfg.peerEnabled[l.peer]
  }

  lemma GateIsJoint(cfg: Config, l: LinkConfig)
    requires l.peer < |cfg.peerEnabled|
    ensures GateOpen(cfg, l) <==> Joined(cfg, l)
  {
  }

  predicate Admitted(l: LinkConfig, open: bool) {
    l.enabled && open
  }

  /** The audio of `e` is relayed. */
  predicate Relayed(l: LinkConfig, open: bool, past: Past, e: Event) {
    match e
    case DmrdEvent(_, _, _, _) => Admitted(l, open) && IsKind(e, BurstKind) && ObpUp(past.prev) && SameStream(e, past)
    case CcVoiceEvent(_, _, _) => l.crossConnect && IsOpen(past.prev)
    case _ => false
  }

  /** A call begins. */
  predicate Opened(l: LinkConfig, open: bool, past: Past, e: Event) {
    match e
    case DmrdEvent(_, _, _, _) =>
      Admitted(l, open) && IsKind(e, HeadKind) && !IsOpen(past.prev) && !(ObpUp(past.prev) && SameStream(e, past))
    case CcBonEvent(_, _, _, _, _) => Admitted(l, open) && Quiet(past.prev)
    case _ => false
  }

  /** A call ends with a TERM or a B-off. */
  predicate Closed(l: LinkConfig, open: bool, past: Past, e: Event) {
    match e
    case DmrdEvent(_, _, _, _) =>
      Admitted(l, open) && ObpUp(past.prev) && IsKind(e, if SameStream(e, past) then TermKind else HeadKind)
    case CcBoffEvent(_) => IsOpen(past.prev)
    case LinkDownEvent(_) => IsOpen(past.prev)
    case TickEvent(_) => !Quiet(past.prev) && IsIdle(e, past)
    case _ => false
  }

  // ---------- The call record ----------

  /** The record agrees with the past. */
  predicate Recalls(rt: LinkRuntime, past: Past) {
    && (InCall(rt, ObpOrigin) ==>
          past.opener.Bon? && past.head.DmrdEvent? && past.head.frame.stream == rt.call.stream
          && past.head.now == rt.call.start && Stamp(past.last) == rt.call.last)
    && (InCall(rt, CcOrigin) ==>
          IsHead(past.opener) && past.head.CcBonEvent? && past.head.stream == rt.call.stream
          && Stamp(past.last) == rt.call.last)
  }

  predicate Tells(l: LinkConfig, rt: LinkRuntime, prev: Out) {
    && (InCall(rt, CcOrigin) <==> IsOpen(prev)) && (InCall(rt, ObpOrigin) <==> ObpUp(prev))
    && (rt.hasCall <==> !Quiet(prev)) && (rt.hasCall ==> rt.call.origin != NoOrigin)
    && (InCall(rt, CcOrigin) ==> l.peer >= 0)
  }

  /** What the last request tells of the call record. */
  lemma LastRequestTells(l: LinkConfig, rt: LinkRuntime, prev: Out)
    requires Agrees(l, rt, prev)
    ensures Tells(l, rt, prev)
  {
    hide CallLc, EncodeEmb;
  }

  /** The past after a reply to `e`. */
  function Next(past: Past, e: Event, o: Out): Past {
    if IsOpener(o) then Past(o, e, o, e) else past.(prev := o, last := e)
  }

  function NextAll(past: Past, e: Event, outs: seq<Out>): Past {
    if outs == [] then past else Next(NextAll(past, e, outs[..|outs| - 1]), e, outs[|outs| - 1])
  }

  /** At most two replies, the second one a new B-on or a notice of link loss. */
  predicate Batch(outs: seq<Out>) {
    || outs == []
    || |outs| == 1
    || (|outs| == 2 && IsCloser(outs[0]) && (outs[1].Bon? || outs[1].Down?))
  }

  /** The replies `r` to `e` are explained by it, and are all it asks for. */
  ghost predicate Answered(l: LinkConfig, open: bool, past: Past, e: Event, r: Result) {
    && Batch(r.outs)
    && (forall k: nat :: k < |r.outs| ==> Explains(past, e, r.outs[k]))
    && (HasAudio(r.outs) <==> Relayed(l, open, past, e))
    && (HasOpener(r.outs) <==> Opened(l, open, past, e))
    && (HasCloser(r.outs) <==> Closed(l, open, past, e))
    && Recalls(r.rt, NextAll(past, e, r.outs))
  }

  lemma NoReply(l: LinkConfig, open: bool, past: Past, e: Event, r: Result)
    requires r.outs == [] && Recalls(r.rt, past)
    requires !Relayed(l, open, past, e) && !Opened(l, open, past, e) && !Closed(l, open, past, e)
    ensures Answered(l, open, past, e, r)
  {
    hide Recalls, Relayed, Opened, Closed, Explains;
  }

  lemma OneKind(o: Out)
    ensures HasAudio([o]) <==> IsAudio(o)
    ensures HasOpener([o]) <==> IsOpener(o)
    ensures HasCloser([o]) <==> IsCloser(o)
  {
    hide IsAudio, IsOpener, IsCloser;
    assert [o][0] == o;
  }

  lemma NextOne(past: Past, e: Event, o: Out)
    ensures NextAll(past, e, [o]) == Next(past, e, o)
  {
    hide Next;
  }

  lemma OneReply(l: LinkConfig, open: bool, past: Past, e: Event, r: Result, o: Out)
    requires r.outs == [o] && Explains(past, e, o)
    requires IsAudio(o) <==> Relayed(l, open, past, e)
    requires IsOpener(o) <==> Opened(l, open, past, e)
    requires IsCloser(o) <==> Closed(l, open, past, e)
    requires Recalls(r.rt, Next(past, e, o))
    ensures Answered(l, open, past, e, r)
  {
    hide Recalls, Relayed, Opened, Closed, Explains, IsAudio, IsOpener, IsCloser, HasAudio, HasOpener, HasCloser,
         NextAll, Next;
    OneKind(o);
    NextOne(past, e, o);
  }

  lemma TwoKinds(o: Out, p: Out)
    ensures HasAudio([o, p]) <==> IsAudio(o) || IsAudio(p)
    ensures HasOpener([o, p]) <==> IsOpener(o) || IsOpener(p)
    ensures HasCloser([o, p]) <==> IsCloser(o) || IsCloser(p)
  {
    hide IsAudio, IsOpener, IsCloser;
    assert [o, p][0] == o && [o, p][1] == p;
  }

  lemma NextTwo(past: Past, e: Event, o: Out, p: Out)
    ensures NextAll(past, e, [o, p]) == Next(Next(past, e, o), e, p)
  {
    hide Next;
    assert [o, p][..1] == [o];
    NextOne(past, e, o);
  }

  lemma TwoReplies(l: LinkConfig, open: bool, past: Past, e: Event, r: Result, o: Out, p: Out)
    requires r.outs == [o, p] && Explains(past, e, o) && Explains(past, e, p) && IsCloser(o) && (p.Bon? || p.Down?)
    requires !Relayed(l, open, past, e) && Closed(l, open, past, e) && (p.Bon? <==> Opened(l, open, past, e))
    requires Recalls(r.rt, Next(Next(past, e, o), e, p))
    ensures Answered(l, open, past, e, r)
  {
    hide Recalls, Relayed, Opened, Closed, Explains, HasAudio, HasOpener, HasCloser, NextAll, Next;
    TwoKinds(o, p);
    NextTwo(past, e, o, p);
  }

  // ---------- From the cc side ----------

  lemma HeadReply(l: LinkConfig, call: Call, n: nat)
    requires l.peer >= 0
    ensures var outs := SendHead(l, call, n);
            && |outs| == 1 && IsHead(outs[0]) && !IsAudio(outs[0]) && !IsCloser(outs[0])
            && FromCall(l, call, outs[0].frame)
  {
    hide HeadTermPayload;
  }

  lemma TermReply(l: LinkConfig, call: Call, n: nat)
    requires l.peer >= 0
    ensures var outs := SendTerm(l, call, n);
            && |outs| == 1 && IsTerm(outs[0]) && !IsOpener(outs[0]) && !IsAudio(outs[0])
            && FromCall(l, call, outs[0].frame)
  {
    hide HeadTermPayload;
  }

  lemma HeadExplained(l: LinkConfig, past: Past, e: Event, call: Call, o: Out)
    requires e.CcBonEvent? && call == CcCall(l, e.radio, e.peerId, e.stream, e.now) && IsHead(o)
    requires FromCall(l, call, o.frame)
    ensures Explains(past, e, o) && Recalls(LinkRuntime(true, call, false), Next(past, e, o))
  {
    hide CallLc, EncodeEmb, VoicePayload;
  }

  lemma BonDecisions(l: LinkConfig, open: bool, past: Past, e: Event)
    requires e.CcBonEvent?
    ensures !Relayed(l, open, past, e) && !Closed(l, open, past, e)
    ensures Opened(l, open, past, e) <==> Admitted(l, open) && Quiet(past.prev)
  {
    hide Quiet;
  }

  /** Recalling does not look at the drop note. */
  lemma SameRecall(rt: LinkRuntime, rt': LinkRuntime, past: Past)
    requires Recalls(rt, past) && rt'.call == rt.call && (rt'.hasCall ==> rt.hasCall)
    ensures Recalls(rt', past)
  {
  }

  lemma BonAnswered(l: LinkConfig, open: bool, past: Past, e: Event, rt: LinkRuntime, n: nat)
    requires e.CcBonEvent? && Tells(l, rt, past.prev) && Recalls(rt, past) && (open ==> l.peer >= 0)
    ensures Answered(l, open, past, e, CcBon(l, open, rt, n, e.radio, e.peerId, e.stream, e.now))
  {
    hide Answered, CcCall, SendHead, IsOpen, ObpUp, Quiet, Explains, Recalls, Relayed, Opened, Closed, IsHead, IsAudio,
         IsCloser, Next;
    var r := CcBon(l, open, rt, n, e.radio, e.peerId, e.stream, e.now);
    BonDecisions(l, open, past, e);
    if l.enabled && open && !rt.hasCall {
      var call := CcCall(l, e.radio, e.peerId, e.stream, e.now);
      HeadReply(l, call, n);
      HeadExplained(l, past, e, call, r.outs[0]);
      OneReply(l, open, past, e, r, r.outs[0]);
    } else {
      SameRecall(rt, r.rt, past);
      NoReply(l, open, past, e, r);
    }
  }

  /** The burst of a call carries the LC of its own header. */
  lemma VoiceReply(l: LinkConfig, call: Call, f: Dmrd, pos: Place, emb: Fragments, ambe21: Ambe21)
    requires f.src == call.src % 0x100_0000 && f.dst == l.tgid % 0x100_0000
    requires emb == EncodeEmb(CallLc(l.tgid, call.src)) && f.flags == VoiceFlags(pos)
    requires f.payload == VoicePayload(emb, pos, ambe21)
    ensures f.flags != 0x21 && f.flags != 0x22 && CarriesAudio(f, ambe21)
  {
    hide CallLc, EncodeEmb, VoicePayload;
    FlagsPosition(pos);
    CallLcTruncates(l.tgid, call.src);
  }

  lemma RecordedLc(l: LinkConfig, rt: LinkRuntime, prev: Out)
    requires Agrees(l, rt, prev) && InCall(rt, CcOrigin)
    ensures rt.call.emb == EncodeEmb(CallLc(l.tgid, rt.call.src))
  {
    hide CallLc, EncodeEmb;
  }

  lemma BurstExplained(past: Past, e: Event, o: Out, rt: LinkRuntime, rt': LinkRuntime)
    requires e.CcVoiceEvent? && IsBurst(o) && InCall(rt, CcOrigin) && Recalls(rt, past)
    requires o.frame.stream == rt.call.stream
    requires CarriesAudio(o.frame, e.ambe21)
    requires rt' == rt.(call := rt.call.(last := e.now, pos := rt.call.pos + 1))
    ensures Explains(past, e, o) && Recalls(rt', Next(past, e, o)) && IsAudio(o) && !IsOpener(o) && !IsCloser(o)
  {
    hide CarriesAudio;
  }

  lemma VoiceDecisions(l: LinkConfig, open: bool, past: Past, e: Event)
    requires e.CcVoiceEvent?
    ensures !Opened(l, open, past, e) && !Closed(l, open, past, e)
    ensures Relayed(l, open, past, e) <==> l.crossConnect && IsOpen(past.prev)
  {
    hide IsOpen;
  }

  lemma VoiceAnswered(l: LinkConfig, open: bool, past: Past, e: Event, rt: LinkRuntime, n: nat)
    requires e.CcVoiceEvent? && Agrees(l, rt, past.prev) && Tells(l, rt, past.prev) && Recalls(rt, past)
    ensures Answered(l, open, past, e, CcVoice(l, rt, n, e.ambe21, e.now))
  {
    hide Answered, Agrees, IsOpen, ObpUp, Quiet, Explains, Recalls, Relayed, Opened, Closed, IsAudio,
         IsOpener, IsCloser, Next, VoiceFlags, CarriesAudio, EncodeEmb, CallLc, VoicePayload;
    var r := CcVoice(l, rt, n, e.ambe21, e.now);
    VoiceDecisions(l, open, past, e);
    if InCall(rt, CcOrigin) && l.crossConnect {
      RecordedLc(l, rt, past.prev);
      VoiceReply(l, rt.call, r.outs[0].frame, rt.call.pos % 6, rt.call.emb, e.ambe21);
      BurstExplained(past, e, r.outs[0], rt, r.rt);
      OneReply(l, open, past, e, r, r.outs[0]);
    } else {
      NoReply(l, open, past, e, r);
    }
  }

  /** The events that may end a cc-origin call. */
  predicate MayEnd(past: Past, e: Event) {
    e.CcBoffEvent? || e.LinkDownEvent? || IsIdle(e, past)
  }

  lemma TermExplained(l: LinkConfig, past: Past, e: Event, rt: LinkRuntime, o: Out)
    requires MayEnd(past, e) && InCall(rt, CcOrigin) && Recalls(rt, past) && IsTerm(o) && FromCall(l, rt.call, o.frame)
    ensures Explains(past, e, o)
  {
  }

  /** Without a call there is nothing to recall. */
  lemma NoRecall(rt: LinkRuntime, past: Past)
    requires !rt.hasCall
    ensures Recalls(rt, past)
  {
  }

  lemma EndDecisions(l: LinkConfig, open: bool, past: Past, e: Event)
    requires e.CcBoffEvent? || e.LinkDownEvent? || e.TickEvent?
    ensures !Relayed(l, open, past, e) && !Opened(l, open, past, e)
    ensures Closed(l, open, past, e) <==>
            if e.TickEvent? then !Quiet(past.prev) && IsIdle(e, past) else IsOpen(past.prev)
  {
    hide IsOpen, Quiet, IsIdle;
  }

  /** The TERM of a call, alone or before a notice of link loss. */
  lemma TermAnswered(l: LinkConfig, open: bool, past: Past, e: Event, rt: LinkRuntime, n: nat)
    requires InCall(rt, CcOrigin) && Tells(l, rt, past.prev) && Recalls(rt, past) && MayEnd(past, e)
    ensures e.LinkDownEvent? || Answered(l, open, past, e, EndCcCall(l, rt, n))
    ensures e.LinkDownEvent? ==> Answered(l, open, past, e, LinkDown(l, rt, n))
  {
    hide Answered, SendTerm, IsOpen, ObpUp, Quiet, Explains, Recalls, Relayed, Opened, Closed, IsTerm, IsAudio,
         IsOpener, Next;
    var r := EndCcCall(l, rt, n);
    EndDecisions(l, open, past, e);
    TermReply(l, rt.call, n);
    var o := r.outs[0];
    TermExplained(l, past, e, rt, o);
    NoRecall(r.rt, Next(past, e, o));
    if e.LinkDownEvent? {
      var down := LinkDown(l, rt, n);
      assert down.outs == [o, Down];
      NoRecall(down.rt, Next(Next(past, e, o), e, Down));
      DownExplained(past, e);
      TwoReplies(l, open, past, e, down, o, Down);
    } else {
      OneReply(l, open, past, e, r, o);
    }
  }

  lemma DownExplained(past: Past, e: Event)
    requires e.LinkDownEvent?
    ensures Explains(past, e, Down) && !IsAudio(Down) && !IsOpener(Down) && !IsCloser(Down)
  {
  }

  lemma BoffAnswered(l: LinkConfig, open: bool, past: Past, e: Event, rt: LinkRuntime, n: nat)
    requires e.CcBoffEvent? && Tells(l, rt, past.prev) && Recalls(rt, past)
    ensures Answered(l, open, past, e, EndCcCall(l, rt, n))
  {
    hide Answered, IsOpen, ObpUp, Quiet, Recalls, Relayed, Opened, Closed;
    if InCall(rt, CcOrigin) {
      TermAnswered(l, open, past, e, rt, n);
    } else {
      EndDecisions(l, open, past, e);
      NoReply(l, open, past, e, EndCcCall(l, rt, n));
    }
  }

  lemma DownAnswered(l: LinkConfig, open: bool, past: Past, e: Event, rt: LinkRuntime, n: nat)
    requires e.LinkDownEvent? && Tells(l, rt, past.prev) && Recalls(rt, past)
    ensures Answered(l, open, past, e, LinkDown(l, rt, n))
  {
    hide Answered, IsOpen, ObpUp, Quiet, Recalls, Relayed, Opened, Closed, IsAudio, IsOpener, IsCloser, Explains, Next;
    if InCall(rt, CcOrigin) {
      TermAnswered(l, open, past, e, rt, n);
    } else {
      EndDecisions(l, open, past, e);
      var r := LinkDown(l, rt, n);
      assert r.outs == [Down];
      NoRecall(r.rt, Next(past, e, Down));
      DownExplained(past, e);
      OneReply(l, open, past, e, r, Down);
    }
  }

  // ---------- From OpenBridge ----------

  lemma BoffExplained(past: Past, e: Event, rt: LinkRuntime)
    requires InCall(rt, ObpOrigin) && Recalls(rt, past)
    requires IsIdle(e, past) || (IsKind(e, TermKind) && SameStream(e, past))
             || (IsKind(e, HeadKind) && !SameStream(e, past))
    ensures |EndObpCall(rt).outs| == 1
    ensures var o := EndObpCall(rt).outs[0];
            Explains(past, e, o) && o.Boff? && IsCloser(o) && !IsOpener(o) && !IsAudio(o)
  {
    hide IsIdle, IsKind, SameStream;
  }

  lemma IdleAnswered(l: LinkConfig, open: bool, past: Past, e: Event, rt: LinkRuntime, n: nat)
    requires e.TickEvent? && Tells(l, rt, past.prev) && Recalls(rt, past)
    ensures Answered(l, open, past, e, Idle(l, rt, n, e.now))
  {
    hide Answered, IsOpen, ObpUp, Quiet, Relayed, Opened, Closed, IsAudio, IsOpener, IsCloser, Explains, Next,
         EndCcCall;
    var r := Idle(l, rt, n, e.now);
    EndDecisions(l, open, past, e);
    if !rt.hasCall || !IsIdle(e, past) {
      NoReply(l, open, past, e, r);
    } else if rt.call.origin == CcOrigin {
      TermAnswered(l, open, past, e, rt, n);
    } else {
      BoffExplained(past, e, rt);
      NoRecall(r.rt, Next(past, e, r.outs[0]));
      OneReply(l, open, past, e, r, r.outs[0]);
    }
  }

  /** Whether the frame is of the call the record holds. */
  lemma StreamRecalled(rt: LinkRuntime, past: Past, e: Event)
    requires e.DmrdEvent? && InCall(rt, ObpOrigin) && Recalls(rt, past)
    ensures SameStream(e, past) <==> e.frame.stream == rt.call.stream
  {
  }

  lemma FrameDecisions(l: LinkConfig, open: bool, past: Past, e: Event, kind: Kind)
    requires IsKind(e, kind)
    ensures Relayed(l, open, past, e) <==>
            Admitted(l, open) && kind == BurstKind && ObpUp(past.prev) && SameStream(e, past)
    ensures Opened(l, open, past, e) <==>
            Admitted(l, open) && kind == HeadKind && !IsOpen(past.prev) && !(ObpUp(past.prev) && SameStream(e, past))
    ensures Closed(l, open, past, e) <==>
            Admitted(l, open) && ObpUp(past.prev) && kind == if SameStream(e, past) then TermKind else HeadKind
  {
    hide KindOf, IsOpen, ObpUp, SameStream, Admitted;
  }

  lemma BonExplained(l: LinkConfig, past: Past, e: Event, rt: LinkRuntime)
    requires IsKind(e, HeadKind)
    ensures var o, d := Bon(e.frame.src, e.frame.repeater, l.lid, l.tgid), e.frame;
            && Explains(past, e, o) && IsOpener(o) && !IsCloser(o) && !IsAudio(o)
            && Recalls(rt.(hasCall := true, call := ObpCall(d.src, d.repeater, d.stream, e.now)), Next(past, e, o))
  {
    hide KindOf;
  }

  lemma HeadAnswered(l: LinkConfig, open: bool, past: Past, e: Event, rt: LinkRuntime)
    requires e.DmrdEvent? && IsKind(e, HeadKind) && Admitted(l, open) && Tells(l, rt, past.prev) && Recalls(rt, past)
    ensures Answered(l, open, past, e, ObpHead(l, rt, e.frame, e.now))
  {
    hide Answered, IsOpen, ObpUp, Quiet, Relayed, Opened, Closed, IsAudio, IsOpener, IsCloser, Explains, Next, Recalls,
         IsKind, SameStream, ObpCall, EndObpCall;
    var r := ObpHead(l, rt, e.frame, e.now);
    FrameDecisions(l, open, past, e, HeadKind);
    BonExplained(l, past, e, rt);
    var bon := Bon(e.frame.src, e.frame.repeater, l.lid, l.tgid);
    if InCall(rt, CcOrigin) {
      NoReply(l, open, past, e, r);
    } else if InCall(rt, ObpOrigin) {
      StreamRecalled(rt, past, e);
      if e.frame.stream == rt.call.stream {
        NoReply(l, open, past, e, r);
      } else {
        BoffExplained(past, e, rt);
        var off := EndObpCall(rt).outs[0];
        assert r.outs == [off, bon];
        NextBoth(past, e, off, bon);
        TwoReplies(l, open, past, e, r, off, bon);
      }
    } else {
      NoEnd(rt);
      assert r.outs == [bon];
      OneReply(l, open, past, e, r, bon);
    }
  }

  lemma NoEnd(rt: LinkRuntime)
    requires !InCall(rt, ObpOrigin)
    ensures EndObpCall(rt).outs == []
  {
  }

  /** An opener makes the past its own. */
  lemma NextBoth(past: Past, e: Event, o: Out, p: Out)
    requires IsOpener(p)
    ensures Next(Next(past, e, o), e, p) == Next(past, e, p)
  {
  }

  lemma ObpBurstExplained(past: Past, e: Event, rt: LinkRuntime)
    requires IsKind(e, BurstKind) && InCall(rt, ObpOrigin) && Recalls(rt, past) && e.frame.stream == rt.call.stream
    ensures var r := ObpBurst(rt, e.frame, e.now, e.now2);
            && |r.outs| == 1 && Explains(past, e, r.outs[0])
            && IsAudio(r.outs[0]) && !IsOpener(r.outs[0]) && !IsCloser(r.outs[0])
            && Recalls(r.rt, Next(past, e, r.outs[0]))
  {
    hide KindOf, SlotIndex, Packed, ExtractedAmbe, RtpSeq, RtpTimestamp;
  }

  lemma BurstAnswered(l: LinkConfig, open: bool, past: Past, e: Event, rt: LinkRuntime)
    requires e.DmrdEvent? && IsKind(e, BurstKind) && Admitted(l, open) && Tells(l, rt, past.prev) && Recalls(rt, past)
    ensures Answered(l, open, past, e, ObpBurst(rt, e.frame, e.now, e.now2))
  {
    hide Answered, IsOpen, ObpUp, Quiet, Relayed, Opened, Closed, IsAudio, IsOpener, IsCloser, Explains, Next, Recalls,
         IsKind, SameStream, SlotIndex, Packed, ExtractedAmbe, RtpSeq, RtpTimestamp;
    var r := ObpBurst(rt, e.frame, e.now, e.now2);
    FrameDecisions(l, open, past, e, BurstKind);
    if InCall(rt, ObpOrigin) {
      StreamRecalled(rt, past, e);
    }
    if InCall(rt, ObpOrigin) && e.frame.stream == rt.call.stream {
      ObpBurstExplained(past, e, rt);
      OneReply(l, open, past, e, r, r.outs[0]);
    } else {
      NoReply(l, open, past, e, r);
    }
  }

  lemma TermFrameAnswered(l: LinkConfig, open: bool, past: Past, e: Event, rt: LinkRuntime)
    requires e.DmrdEvent? && IsKind(e, TermKind) && Admitted(l, open) && Tells(l, rt, past.prev) && Recalls(rt, past)
    ensures Answered(l, open, past, e, ObpTerm(rt, e.frame))
  {
    hide Answered, IsOpen, ObpUp, Quiet, Relayed, Opened, Closed, IsAudio, IsOpener, IsCloser, Explains, Next, Recalls,
         IsKind, SameStream;
    var r := ObpTerm(rt, e.frame);
    FrameDecisions(l, open, past, e, TermKind);
    if InCall(rt, ObpOrigin) {
      StreamRecalled(rt, past, e);
      if e.frame.stream == rt.call.stream {
        BoffExplained(past, e, rt);
        NoRecall(r.rt, Next(past, e, r.outs[0]));
        OneReply(l, open, past, e, r, r.outs[0]);
        return;
      }
    }
    NoReply(l, open, past, e, r);
  }

  lemma FrameAnswered(l: LinkConfig, open: bool, past: Past, e: Event, rt: LinkRuntime)
    requires e.DmrdEvent? && Tells(l, rt, past.prev) && Recalls(rt, past)
    ensures Answered(l, open, past, e, ObpReceived(l, open, rt, e.frame, e.now, e.now2))
  {
    hide Answered, IsOpen, ObpUp, Quiet, Relayed, Opened, Closed, Recalls, KindOf, ObpHead, ObpBurst, ObpTerm,
         SameStream;
    var kind := KindOf(e.frame.flags);
    FrameDecisions(l, open, past, e, kind);
    if kind == Ignored || !l.enabled || !open {
      var r := ObpReceived(l, open, rt, e.frame, e.now, e.now2);
      SameRecall(rt, r.rt, past);
      NoReply(l, open, past, e, r);
    } else if kind == HeadKind {
      var rt' := rt.(dropLogged := false);
      SameRecall(rt, rt', past);
      HeadAnswered(l, open, past, e, rt');
    } else if kind == TermKind {
      TermFrameAnswered(l, open, past, e, rt);
    } else {
      BurstAnswered(l, open, past, e, rt);
    }
  }

  lemma QuietEvent(l: LinkConfig, open: bool, past: Past, e: Event)
    requires e.LinkUpEvent? || e.ReloadEvent?
    ensures !Relayed(l, open, past, e) && !Opened(l, open, past, e) && !Closed(l, open, past, e)
  {
  }

  /** What a link answers to an event is explained by it, and is all it asks for. */
  lemma LinkStepAnswers(st: State, i: nat, e: Event, past: Past)
    requires WellFormed(st) && i < |st.links| && Agrees(st.cfg.links[i], st.links[i], past.prev)
    requires Recalls(st.links[i], past)
    ensures Answered(st.cfg.links[i], Joined(st.cfg, st.cfg.links[i]), past, e, LinkStep(st, i, e))
  {
    hide CcBon, CcVoice, EndCcCall, LinkDown, ObpReceived, Idle, Agrees, Answered, Recalls, Relayed, Opened, Closed,
         Tells;
    var l, rt, n := st.cfg.links[i], st.links[i], Count(st, i);
    var open := GateOpen(st.cfg, l);
    GateIsJoint(st.cfg, l);
    LastRequestTells(l, rt, past.prev);
    match e
    case CcBonEvent(_, _, _, _, _) => BonAnswered(l, open, past, e, rt, n);
    case CcVoiceEvent(_, _, _) => VoiceAnswered(l, open, past, e, rt, n);
    case CcBoffEvent(_) => BoffAnswered(l, open, past, e, rt, n);
    case LinkDownEvent(_) => DownAnswered(l, open, past, e, rt, n);
    case DmrdEvent(_, _, _, _) => FrameAnswered(l, open, past, e, rt);
    case TickEvent(_) => IdleAnswered(l, open, past, e, rt, n);
    case LinkUpEvent(_) =>
      SameRecall(rt, rt.(dropLogged := false), past);
      QuietEvent(l, open, past, e);
      NoReply(l, open, past, e, LinkStep(st, i, e));
    case ReloadEvent(_) =>
      QuietEvent(l, open, past, e);
      NoReply(l, open, past, e, LinkStep(st, i, e));
  }
}
