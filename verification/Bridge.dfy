/** The multiplexer and the translator together: what comes in on a CC-CC link goes out on
    OpenBridge. */
module Bridge {
  import A = CallOnAir
  import C = CallModel
  import H = CallHistory
  import M = MuxModel
  import CallRuns
  import MuxChannel
  import MuxRuns
  import Signalling

  /** What a bridge lives through.  The multiplexer tells the translator of what it hears,
      in order, before anything else happens; `streams` are the stream ids the
      translator draws meanwhile, one for each thing it is told. */
  datatype Event =
    | FromCc(event: M.Event, streams: seq<C.Stream>)
    | FromObp(peer: nat, frame: C.Dmrd, now: real, now2: real)
    | Tick(now: real)
    | Reload(cfg: C.Config, enabled: seq<bool>, started: seq<bool>, now: real)

  // ---------- What the translator is told ----------

  function Told(s: M.Sent, stream: C.Stream, now: real): seq<C.Event> {
    match s.out
    case Heard(BonMsg(radio, peer, _, _, _)) => [C.CcBonEvent(s.link, radio, peer, stream, now)]
    case Heard(BoffMsg(_, _)) => [C.CcBoffEvent(s.link)]
    case VoicePassed(payload) => [C.CcVoiceEvent(s.link, payload, now)]
    case LinkUp => [C.LinkUpEvent(s.link)]
    case LinkDown => [C.LinkDownEvent(s.link)]
    case _ => []
  }

  function StreamAt(streams: seq<C.Stream>, n: nat): C.Stream {
    if n < |streams| then streams[n] else [0, 0, 0, 0]
  }

  function AllTold(sent: seq<M.Sent>, streams: seq<C.Stream>, now: real): seq<C.Event> {
    if sent == [] then []
    else
      var n := |sent| - 1;
      AllTold(sent[..n], streams, now) + Told(sent[n], StreamAt(streams, n), now)
  }

  /** The part of an event that is the multiplexer's. */
  function MuxPart(e: Event): seq<M.Event> {
    match e
    case FromCc(event, _) => [event]
    case Reload(_, enabled, started, now) => [M.ReloadEvent(enabled, started, now)]
    case _ => []
  }

  /** The part that is the translator's own. */
  function CallPart(e: Event): seq<C.Event> {
    match e
    case FromCc(_, _) => []
    case FromObp(peer, frame, now, now2) => [C.DmrdEvent(peer, frame, now, now2)]
    case Tick(now) => [C.TickEvent(now)]
    case Reload(cfg, _, _, _) => [C.ReloadEvent(cfg)]
  }

  function MuxEvents(events: seq<Event>): seq<M.Event> {
    if events == [] then [] else MuxPart(events[0]) + MuxEvents(events[1..])
  }

  function StreamsOf(e: Event): seq<C.Stream> {
    if e.FromCc? then e.streams else []
  }

  /** What the multiplexer makes of `e`. */
  function MuxStep(st: M.State, e: Event): (o: M.Outcome)
    requires M.WellFormed(st) && (MuxPart(e) != [] ==> M.Possible(st, MuxPart(e)[0]))
    ensures M.WellFormed(o.st)
  {
    if MuxPart(e) == [] then M.Outcome(st, []) else M.Step(st, MuxPart(e)[0])
  }

  function NowOf(e: Event): real {
    if MuxPart(e) == [] then 0.0 else MuxPart(e)[0].now
  }

  lemma MuxUnfold(st: M.State, events: seq<Event>)
    requires M.WellFormed(st) && events != [] && MuxRuns.Feasible(st, MuxEvents(events))
    ensures MuxPart(events[0]) != [] ==> M.Possible(st, MuxPart(events[0])[0])
    ensures MuxRuns.Feasible(MuxStep(st, events[0]).st, MuxEvents(events[1..]))
    ensures var o := MuxStep(st, events[0]);
            var rest := MuxRuns.Run(o.st, MuxEvents(events[1..]));
            MuxRuns.Run(st, MuxEvents(events)) == M.Outcome(rest.st, o.sent + rest.sent)
  {
    hide M.Step, M.Possible;
    var part, rest, whole := MuxPart(events[0]), MuxEvents(events[1..]), MuxEvents(events);
    if part == [] {
      assert whole == rest;
      assert [] + MuxRuns.Run(st, rest).sent == MuxRuns.Run(st, rest).sent;
    } else {
      assert whole[0] == part[0] && whole[1..] == rest;
    }
  }

  /** What the translator lives through when the bridge lives through `events`, with the
      multiplexer in state `st` at first. */
  function CallEvents(st: M.State, events: seq<Event>): seq<C.Event>
    requires M.WellFormed(st) && MuxRuns.Feasible(st, MuxEvents(events))
    decreases |events|
  {
    if events == [] then []
    else
      MuxUnfold(st, events);
      var e, o := events[0], MuxStep(st, events[0]);
      CallPart(e) + AllTold(o.sent, StreamsOf(e), NowOf(e)) + CallEvents(o.st, events[1..])
  }

  /** What the bridge lives through can be cut anywhere. */
  lemma {:induction false} CallEventsAppend(st: M.State, events: seq<Event>, more: seq<Event>)
    requires M.WellFormed(st) && MuxRuns.Feasible(st, MuxEvents(events))
    requires MuxRuns.Feasible(MuxRuns.Run(st, MuxEvents(events)).st, MuxEvents(more))
    ensures MuxRuns.Feasible(st, MuxEvents(events + more))
    ensures CallEvents(st, events + more)
         == CallEvents(st, events) + CallEvents(MuxRuns.Run(st, MuxEvents(events)).st, more)
    decreases |events|
  {
    hide M.Step, AllTold, CallPart, MuxStep, MuxPart;
    if events == [] {
      assert events + more == more;
    } else {
      var whole := events + more;
      assert whole[0] == events[0] && whole[1..] == events[1..] + more;
      MuxUnfold(st, events);
      var e, o := events[0], MuxStep(st, events[0]);
      CallEventsAppend(o.st, events[1..], more);
      FeasibleCons(st, whole);
      MuxUnfold(st, whole);
      var head := CallPart(e) + AllTold(o.sent, StreamsOf(e), NowOf(e));
      var last := MuxRuns.Run(st, MuxEvents(events)).st;
      Regroup(head, CallEvents(o.st, events[1..]), CallEvents(last, more));
    }
  }

  lemma Regroup(a: seq<C.Event>, b: seq<C.Event>, c: seq<C.Event>)
    ensures a + (b + c) == (a + b) + c
  {
  }

  lemma FeasibleCons(st: M.State, events: seq<Event>)
    requires M.WellFormed(st) && events != [] && (MuxPart(events[0]) != [] ==> M.Possible(st, MuxPart(events[0])[0]))
    requires MuxRuns.Feasible(MuxStep(st, events[0]).st, MuxEvents(events[1..]))
    ensures MuxRuns.Feasible(st, MuxEvents(events))
  {
    hide M.Step, M.Possible;
    var part, rest, whole := MuxPart(events[0]), MuxEvents(events[1..]), MuxEvents(events);
    if part == [] {
      assert whole == rest;
    } else {
      assert whole[0] == part[0] && whole[1..] == rest;
    }
  }

  // ---------- Deeds ----------

  /** What the multiplexer's request makes the cc side do on link `i`. */
  function HeedOf(s: M.Sent, i: nat): seq<A.Deed> {
    if s.link != i then []
    else
      match s.out
      case Heard(BonMsg(radio, peer, _, _, _)) => [A.Begin(radio, peer)]
      case Heard(BoffMsg(_, _)) => [A.End]
      case VoicePassed(payload) => [A.Say(payload)]
      case _ => []
  }

  function Heeds(trace: seq<M.Sent>, i: nat): seq<A.Deed> {
    if trace == [] then [] else Heeds(trace[..|trace| - 1], i) + HeedOf(trace[|trace| - 1], i)
  }

  lemma {:induction false} HeedsAppend(a: seq<M.Sent>, b: seq<M.Sent>, i: nat)
    ensures Heeds(a + b, i) == Heeds(a, i) + Heeds(b, i)
  {
    hide HeedOf;
    if b == [] {
      assert a + b == a;
    } else {
      assert (a + b)[..|a + b| - 1] == a + b[..|b| - 1];
      HeedsAppend(a, b[..|b| - 1], i);
    }
  }

  lemma ToldDeeds(s: M.Sent, stream: C.Stream, now: real, i: nat)
    ensures A.Deeds(Told(s, stream, now), i) == HeedOf(s, i)
  {
    var told := Told(s, stream, now);
    if told != [] {
      assert told[..0] == [] && told == [told[0]];
    }
  }

  lemma {:induction false} AllToldDeeds(sent: seq<M.Sent>, streams: seq<C.Stream>, now: real, i: nat)
    ensures A.Deeds(AllTold(sent, streams, now), i) == Heeds(sent, i)
  {
    hide Told, HeedOf;
    if sent != [] {
      var n := |sent| - 1;
      AllToldDeeds(sent[..n], streams, now, i);
      ToldDeeds(sent[n], StreamAt(streams, n), now, i);
      A.DeedsAppend(AllTold(sent[..n], streams, now), Told(sent[n], StreamAt(streams, n), now), i);
    }
  }

  lemma OwnDeeds(e: Event, i: nat)
    ensures A.Deeds(CallPart(e), i) == []
  {
    var part := CallPart(e);
    if part != [] {
      assert part[..0] == [] && part == [part[0]];
    }
  }

  /** The translator's deeds on a link are those the multiplexer heard, in order. */
  lemma {:induction false} DeedsAreHeard(st: M.State, events: seq<Event>, i: nat)
    requires M.WellFormed(st) && MuxRuns.Feasible(st, MuxEvents(events))
    ensures A.Deeds(CallEvents(st, events), i) == Heeds(MuxRuns.Run(st, MuxEvents(events)).sent, i)
    decreases |events|
  {
    hide M.Step, AllTold, CallPart, A.Deeds, Heeds;
    if events == [] {
      NoDeeds(st, i);
    } else {
      MuxUnfold(st, events);
      var e, o := events[0], MuxStep(st, events[0]);
      var told, rest := AllTold(o.sent, StreamsOf(e), NowOf(e)), CallEvents(o.st, events[1..]);
      DeedsAreHeard(o.st, events[1..], i);
      OwnDeeds(e, i);
      AllToldDeeds(o.sent, StreamsOf(e), NowOf(e), i);
      A.DeedsAppend(CallPart(e), told, i);
      A.DeedsAppend(CallPart(e) + told, rest, i);
      HeedsAppend(o.sent, MuxRuns.Run(o.st, MuxEvents(events[1..])).sent, i);
    }
  }

  lemma NoDeeds(st: M.State, i: nat)
    requires M.WellFormed(st)
    ensures A.Deeds([], i) == [] && Heeds([], i) == [] && MuxRuns.Feasible(st, []) && MuxRuns.Run(st, []).sent == []
  {
  }

  /** The B-ons and B-offs among the deeds. */
  function Signals(deeds: seq<A.Deed>): seq<A.Deed> {
    if deeds == [] then []
    else
      var deed := deeds[|deeds| - 1];
      Signals(deeds[..|deeds| - 1]) + if deed.Say? then [] else [deed]
  }

  /** The audio among the deeds. */
  function Says(deeds: seq<A.Deed>): seq<C.Ambe21> {
    if deeds == [] then []
    else
      var deed := deeds[|deeds| - 1];
      Says(deeds[..|deeds| - 1]) + if deed.Say? then [deed.ambe21] else []
  }

  /** The audio passed on for link `i`. */
  function Voices(trace: seq<M.Sent>, i: nat): seq<C.Ambe21> {
    if trace == [] then []
    else
      var s := trace[|trace| - 1];
      Voices(trace[..|trace| - 1], i) + if s.link == i && s.out.VoicePassed? then [s.out.payload] else []
  }

  function MessageDeed(m: Signalling.Message): seq<A.Deed> {
    match m
    case BonMsg(radio, peer, _, _, _) => [A.Begin(radio, peer)]
    case BoffMsg(_, _) => [A.End]
    case _ => []
  }

  function MessageDeeds(messages: seq<Signalling.Message>): seq<A.Deed> {
    if messages == [] then [] else MessageDeeds(messages[..|messages| - 1]) + MessageDeed(messages[|messages| - 1])
  }

  lemma SplitNext(deeds: seq<A.Deed>, more: seq<A.Deed>)
    requires |more| <= 1
    ensures Signals(deeds + more) == Signals(deeds) + Signals(more) && Says(deeds + more) == Says(deeds) + Says(more)
  {
    if more == [] {
      assert deeds + more == deeds;
    } else {
      var whole := deeds + more;
      assert whole[..|whole| - 1] == deeds && whole[|whole| - 1] == more[0] && more[..0] == [];
    }
  }

  lemma HeedSplit(s: M.Sent, i: nat)
    ensures |HeedOf(s, i)| <= 1
    ensures Signals(HeedOf(s, i)) == if s.link == i && s.out.Heard? then MessageDeed(s.out.msg) else []
    ensures Says(HeedOf(s, i)) == if s.link == i && s.out.VoicePassed? then [s.out.payload] else []
  {
    var deeds := HeedOf(s, i);
    if deeds != [] {
      assert deeds[..0] == [];
    }
  }

  /** Signals and audio of the deeds are what was heard and what was passed on. */
  lemma {:induction false} HeedsSplit(trace: seq<M.Sent>, i: nat)
    ensures Signals(Heeds(trace, i)) == MessageDeeds(MuxChannel.Messages(trace, i))
    ensures Says(Heeds(trace, i)) == Voices(trace, i)
  {
    hide HeedOf, Signals, Says, MessageDeed;
    if trace == [] {
      NothingSplit();
    } else {
      var init, last := trace[..|trace| - 1], trace[|trace| - 1];
      HeedsSplit(init, i);
      HeedSplit(last, i);
      SplitNext(Heeds(init, i), HeedOf(last, i));
      MessageNext(MuxChannel.Messages(init, i), if last.link == i && last.out.Heard? then [last.out.msg] else []);
    }
  }

  lemma MessageNext(messages: seq<Signalling.Message>, more: seq<Signalling.Message>)
    requires |more| <= 1
    ensures MessageDeeds(messages + more) == MessageDeeds(messages) + if more == [] then [] else MessageDeed(more[0])
  {
    hide MessageDeed;
    if more == [] {
      assert messages + more == messages;
    } else {
      assert (messages + more)[..|messages|] == messages;
    }
  }

  lemma NothingSplit()
    ensures Signals([]) == [] && Says([]) == []
  {
  }

  /** What signals do to the far end of a link. */
  function SignalDeeds(signals: seq<Signalling.Signal>): (deeds: seq<A.Deed>)
    ensures |deeds| == |signals|
  {
    seq(|signals|, k requires 0 <= k < |signals| =>
      match signals[k]
      case Bon(_, _, radio, peer, _, _, _) => A.Begin(radio, peer)
      case Boff(_, _, _, _) => A.End)
  }

  lemma {:induction false} MeaningDeeds(signals: seq<Signalling.Signal>)
    ensures MessageDeeds(Signalling.Meanings(signals)) == SignalDeeds(signals)
  {
    if signals != [] {
      var n := |signals| - 1;
      MeaningDeeds(signals[..n]);
      assert Signalling.Meanings(signals)[..n] == Signalling.Meanings(signals[..n]);
      assert SignalDeeds(signals)[..n] == SignalDeeds(signals[..n]);
    }
  }

  // ---------- Link loss ----------

  predicate Loses(calls: seq<C.Event>, i: nat) {
    C.LinkDownEvent(i) in calls
  }

  lemma OneLoss(s: M.Sent, stream: C.Stream, now: real, i: nat)
    ensures Loses(Told(s, stream, now), i) <==> s == M.Sent(i, M.LinkDown)
  {
  }

  lemma LossAppend(calls: seq<C.Event>, more: seq<C.Event>, i: nat)
    ensures Loses(calls + more, i) <==> Loses(calls, i) || Loses(more, i)
  {
  }

  lemma {:induction false} LossIsTold(sent: seq<M.Sent>, streams: seq<C.Stream>, now: real, i: nat)
    ensures Loses(AllTold(sent, streams, now), i) <==> MuxChannel.Dropped(sent, i)
  {
    hide Told, Loses;
    if sent == [] {
      NoLoss(i);
    } else {
      var n := |sent| - 1;
      LossIsTold(sent[..n], streams, now, i);
      assert sent == sent[..n] + [sent[n]];
      OneLoss(sent[n], StreamAt(streams, n), now, i);
      LossAppend(AllTold(sent[..n], streams, now), Told(sent[n], StreamAt(streams, n), now), i);
    }
  }

  lemma NoLoss(i: nat)
    ensures !Loses([], i)
  {
  }

  /** The translator is told of the loss of a link exactly when the multiplexer drops it. */
  lemma {:induction false} LossIsHeard(st: M.State, events: seq<Event>, i: nat)
    requires M.WellFormed(st) && MuxRuns.Feasible(st, MuxEvents(events))
    ensures Loses(CallEvents(st, events), i) <==> MuxChannel.Dropped(MuxRuns.Run(st, MuxEvents(events)).sent, i)
    decreases |events|
  {
    hide M.Step, AllTold;
    if events != [] {
      MuxUnfold(st, events);
      var o := MuxStep(st, events[0]);
      LossIsHeard(o.st, events[1..], i);
      LossIsTold(o.sent, StreamsOf(events[0]), NowOf(events[0]), i);
    }
  }

  // ---------- From the socket to the air ----------

  /** A bridge lives through `past` and then `events`; link `i` is up, with nothing half
      received and no call, when `events` begin, and is not dropped while they last;
      they hinder no call of its cc side. */
  ghost predicate Open(mux: M.MuxCfg, cfg: C.Config, past: seq<Event>, events: seq<Event>, i: nat) {
    && MuxRuns.Feasible(MuxRuns.Unstarted(mux), MuxEvents(past))
    && var st := MuxRuns.Run(MuxRuns.Unstarted(mux), MuxEvents(past)).st;
    && MuxRuns.Feasible(st, MuxEvents(events))
    && i < |st.links| && st.links[i].phase == M.Up && st.links[i].rx == ""
    && !MuxChannel.Dropped(MuxRuns.Run(st, MuxEvents(events)).sent, i)
    && var before := CallEvents(MuxRuns.Unstarted(mux), past);
    && var calls := before + CallEvents(st, events);
    && C.Resolved(cfg) && CallRuns.Feasible(CallRuns.Start(cfg), calls) && i < |cfg.links|
    && i < |H.StateAt(CallRuns.Start(cfg), calls, |before|).links|
    && !H.StateAt(CallRuns.Start(cfg), calls, |before|).links[i].hasCall
    && forall m: nat :: |before| <= m < |calls| ==> calls[m] == C.LinkDownEvent(i) || A.Unhindered(cfg, calls, i, m)
  }

  /** The frames link `i` sends on OpenBridge are those to be heard of `deeds`. */
  ghost predicate GoesOut(mux: M.MuxCfg, cfg: C.Config, past: seq<Event>, events: seq<Event>, i: nat,
                          deeds: seq<A.Deed>)
    requires Open(mux, cfg, past, events, i)
  {
    var st := MuxRuns.Run(MuxRuns.Unstarted(mux), MuxEvents(past)).st;
    var before := CallEvents(MuxRuns.Unstarted(mux), past);
    var calls := before + CallEvents(st, events);
    A.AllSent(cfg.links[i], H.SentSince(CallRuns.Start(cfg), calls, i, |before|, |calls|),
              A.HeedAll(A.Silent, deeds).shapes)
  }

  lemma OpenIsAiring(mux: M.MuxCfg, cfg: C.Config, past: seq<Event>, events: seq<Event>, i: nat)
    requires Open(mux, cfg, past, events, i)
    ensures var before := CallEvents(MuxRuns.Unstarted(mux), past);
            var calls := before + CallEvents(MuxRuns.Run(MuxRuns.Unstarted(mux), MuxEvents(past)).st, events);
            A.Airing(cfg, calls, i, |before|, |calls|)
  {
    hide MuxRuns.Feasible, MuxRuns.Run, CallRuns.Feasible, CallEvents, A.Unhindered, H.StateAt, MuxChannel.Dropped;
    var st := MuxRuns.Run(MuxRuns.Unstarted(mux), MuxEvents(past)).st;
    var before := CallEvents(MuxRuns.Unstarted(mux), past);
    var calls := before + CallEvents(st, events);
    LossIsHeard(st, events, i);
    forall m: nat | |before| <= m < |calls| ensures A.Unhindered(cfg, calls, i, m) {
      assert calls[m] == CallEvents(st, events)[m - |before|];
    }
  }

  /** From the CC-CC socket to OpenBridge, in any run of the whole bridge: signals that
      arrive on a link that is up, in whatever pieces, and the voice packets that come
      under its source between them, go out as the calls they make, HEAD, burst by
      burst, TERM, and as nothing else. */
  lemma SocketToAir(mux: M.MuxCfg, cfg: C.Config, past: seq<Event>, events: seq<Event>, i: nat,
                    signals: seq<Signalling.Signal>) returns (deeds: seq<A.Deed>)
    requires Open(mux, cfg, past, events, i)
    requires Signalling.AllSendable(signals) && Signalling.AllReadable(signals)
    requires MuxChannel.BytesFor(MuxEvents(events), i) == Signalling.Stream(signals)
    ensures MuxRuns.Feasible(MuxRuns.Unstarted(mux), MuxEvents(past + events))
    ensures var st := MuxRuns.Run(MuxRuns.Unstarted(mux), MuxEvents(past)).st;
            && CallEvents(MuxRuns.Unstarted(mux), past + events)
               == CallEvents(MuxRuns.Unstarted(mux), past) + CallEvents(st, events)
            && Signals(deeds) == SignalDeeds(signals)
            && Says(deeds) == Voices(MuxRuns.Run(st, MuxEvents(events)).sent, i)
            && GoesOut(mux, cfg, past, events, i, deeds)
  {
    hide MuxRuns.Feasible, MuxRuns.Run, CallRuns.Feasible, CallEvents, H.StateAt, MuxChannel.Messages,
         Signalling.Meanings, MuxChannel.BytesFor, Signalling.Stream, Signals, Says, Heeds, Voices, A.Deeds,
         A.HeedAll, A.AllSent, A.Airing, Signalling.AllReadable, Signalling.AllSendable, SignalDeeds, MuxEvents;
    var st := MuxRuns.Run(MuxRuns.Unstarted(mux), MuxEvents(past)).st;
    var before := CallEvents(MuxRuns.Unstarted(mux), past);
    var more := CallEvents(st, events);
    deeds := A.Deeds(more, i);
    CallEventsAppend(MuxRuns.Unstarted(mux), past, events);
    OpenIsAiring(mux, cfg, past, events, i);
    A.CallsGoOnAir(cfg, before + more, i, |before|, |before + more|);
    assert (before + more)[|before|..|before + more|] == more;
    DeedsAreHeard(st, events, i);
    HeedsSplit(MuxRuns.Run(st, MuxEvents(events)).sent, i);
    MuxChannel.SignalsAreHeard(mux, MuxEvents(past), MuxEvents(events), i, signals);
    MeaningDeeds(signals);
  }
}
