/** Over every run of the translator, each request has its cause among the events, and
    every event that asks for a request gets it, in order. */
module CallProvenance {
  import opened Bits
  import opened Burst
  import opened CallCauses
  import opened CallHistory
  import opened CallModel
  import opened CallRuns
  import opened CallTheorems
  import opened CallTraces
  import opened CcccAmbe
  import opened EmbeddedLc

  // ---------- The past of a log entry ----------

  /** The last opener before entry `k`, or -1. */
  function OpenerBefore(log: seq<Entry>, k: nat): (b: int)
    requires k <= |log|
    ensures -1 <= b < k && (b >= 0 ==> IsOpener(log[b].out))
  {
    if k == 0 then -1 else if IsOpener(log[k - 1].out) then k - 1 else OpenerBefore(log, k - 1)
  }

  const NO_EVENT := LinkUpEvent(0)

  function EventAt(events: seq<Event>, at: nat): Event {
    if at < |events| then events[at] else NO_EVENT
  }

  /** What the first `k` entries tell of the last call. */
  function PastAt(events: seq<Event>, log: seq<Entry>, k: nat): Past
    requires k <= |log|
  {
    var b := OpenerBefore(log, k);
    Past(if k == 0 then Down else log[k - 1].out, if k == 0 then NO_EVENT else EventAt(events, log[k - 1].at),
         if b < 0 then Down else log[b].out, if b < 0 then NO_EVENT else EventAt(events, log[b].at))
  }

  lemma PastNext(events: seq<Event>, log: seq<Entry>, k: nat)
    requires k < |log|
    ensures PastAt(events, log, k + 1) == Next(PastAt(events, log, k), EventAt(events, log[k].at), log[k].out)
  {
    hide IsOpener;
  }

  lemma {:induction false} OpenerStays(log: seq<Entry>, more: seq<Entry>, k: nat)
    requires k <= |log|
    ensures OpenerBefore(log + more, k) == OpenerBefore(log, k)
  {
    hide IsOpener;
    if k > 0 {
      OpenerStays(log, more, k - 1);
    }
  }

  /** Later events and entries leave the past alone. */
  lemma PastStays(events: seq<Event>, n: nat, log: seq<Entry>, more: seq<Entry>, k: nat)
    requires n <= |events| && Dated(log, n) && k <= |log|
    ensures PastAt(events, log + more, k) == PastAt(events[..n], log, k)
  {
    hide IsOpener;
    OpenerStays(log, more, k);
  }

  // ---------- One link in a run ----------

  /** The event is for link `i`; every link gets the tick. */
  predicate Concerns(links: seq<LinkConfig>, i: nat, e: Event) {
    match e
    case DmrdEvent(peer, frame, _, _) => Route(links, peer, frame.dst, 0) == i
    case TickEvent(_) => true
    case ReloadEvent(_) => false
    case _ => e.link == i
  }

  lemma {:induction false} SameRoute(links: seq<LinkConfig>, links': seq<LinkConfig>, peer: nat, dst: nat, i: nat)
    requires |links| == |links'| && i <= |links|
    requires forall j :: 0 <= j < |links| ==> SameButToggles(links[j], links'[j])
    ensures Route(links, peer, dst, i) == Route(links', peer, dst, i)
    decreases |links| - i
  {
    if i < |links| {
      SameRoute(links, links', peer, dst, i + 1);
    }
  }

  lemma SameConcern(cfg: Config, cfg': Config, i: nat, e: Event)
    requires Reloads(cfg, cfg')
    ensures Concerns(cfg.links, i, e) <==> Concerns(cfg'.links, i, e)
  {
    hide Route;
    if e.DmrdEvent? {
      SameRoute(cfg.links, cfg'.links, e.peer, e.frame.dst, 0);
    }
  }

  /** Link `i` answers as if alone: `mid` is the state in which the event reaches it. */
  ghost predicate Reached(st: State, o: Outcome, i: nat, e: Event, mid: State) {
    && WellFormed(st) && WellFormed(mid) && i < |st.links| == |mid.links| == |o.st.links|
    && mid.cfg == st.cfg && mid.links[i] == st.links[i]
    && o.st.links[i] == LinkStep(mid, i, e).rt && LinkTrace(o.sent, i) == LinkStep(mid, i, e).outs
  }

  ghost predicate Untouched(st: State, o: Outcome, i: nat) {
    i < |st.links| == |o.st.links| && o.st.links[i] == st.links[i] && LinkTrace(o.sent, i) == []
  }

  lemma OnLinkReaches(st: State, j: nat, e: Event, i: nat)
    requires WellFormed(st) && j < |st.links| && i < |st.links|
    ensures if i == j then Reached(st, OnLink(st, j, e), i, e, st) else Untouched(st, OnLink(st, j, e), i)
  {
    hide LinkStep, LinkTrace, Tagged, Bumped;
    TaggedLink(j, LinkStep(st, j, e).outs, i);
  }

  lemma {:induction false} TickUntouched(st: State, j: nat, e: Event, i: nat)
    requires WellFormed(st) && i < j <= |st.links|
    ensures Untouched(st, TickFrom(st, j, e), i)
    decreases |st.links| - j
  {
    hide OnLink;
    if j < |st.links| {
      var o := OnLink(st, j, e);
      OnLinkReaches(st, j, e, i);
      TickUntouched(o.st, j + 1, e, i);
      LinkTraceAppend(o.sent, TickFrom(o.st, j + 1, e).sent, i);
    }
  }

  lemma {:induction false} TickReaches(st: State, j: nat, e: Event, i: nat) returns (mid: State)
    requires WellFormed(st) && j <= i < |st.links|
    ensures Reached(st, TickFrom(st, j, e), i, e, mid)
    decreases i - j
  {
    hide OnLink, LinkStep, LinkTrace;
    var o := OnLink(st, j, e);
    var rest := TickFrom(o.st, j + 1, e);
    OnLinkReaches(st, j, e, i);
    LinkTraceAppend(o.sent, rest.sent, i);
    if i == j {
      mid := st;
      TickUntouched(o.st, j + 1, e, i);
      assert LinkTrace(o.sent, i) + [] == LinkTrace(o.sent, i);
    } else {
      mid := TickReaches(o.st, j + 1, e, i);
      assert [] + LinkTrace(rest.sent, i) == LinkTrace(rest.sent, i);
    }
  }

  lemma StepReaches(st: State, e: Event, i: nat) returns (mid: State)
    requires WellFormed(st) && Possible(st, e) && i < |st.links|
    ensures if Concerns(st.cfg.links, i, e) then Reached(st, Step(st, e), i, e, mid) else Untouched(st, Step(st, e), i)
  {
    hide OnLink, TickFrom, Route, LinkStep;
    mid := st;
    match e {
      case DmrdEvent(peer, frame, _, _) =>
        var j := Route(st.cfg.links, peer, frame.dst, 0);
        if j >= 0 {
          OnLinkReaches(st, j, e, i);
        }
      case TickEvent(_) => mid := TickReaches(st, 0, e, i);
      case ReloadEvent(_) =>
      case _ => OnLinkReaches(st, e.link, e, i);
    }
  }

  // ---------- Whole runs ----------

  /** What link `i` knows after all of `events`. */
  function PastOf(cfg: Config, events: seq<Event>, i: nat): Past
    requires Resolved(cfg) && Feasible(Start(cfg), events)
  {
    var log := Log(Start(cfg), events, i);
    PastAt(events, log, |log|)
  }

  lemma {:induction false} PastBatch(events: seq<Event>, log: seq<Entry>, at: nat, outs: seq<Out>)
    requires at < |events|
    ensures PastAt(events, log + Entries(at, outs), |log| + |outs|)
            == NextAll(PastAt(events, log, |log|), events[at], outs)
    decreases |outs|
  {
    hide Next, PastAt;
    if outs == [] {
      assert log + Entries(at, outs) == log;
    } else {
      var n := |outs| - 1;
      var init, whole := log + Entries(at, outs[..n]), log + Entries(at, outs);
      assert whole == init + [Entry(at, outs[n])];
      PastBatch(events, log, at, outs[..n]);
      PastNext(events, whole, |log| + n);
      PastExtends(events, init, [Entry(at, outs[n])], |log| + n);
    }
  }

  lemma PastExtends(events: seq<Event>, log: seq<Entry>, more: seq<Entry>, k: nat)
    requires k <= |log|
    ensures PastAt(events, log + more, k) == PastAt(events, log, k)
  {
    hide IsOpener;
    OpenerStays(log, more, k);
  }

  lemma PastOfPrefix(cfg: Config, events: seq<Event>, i: nat, m: nat)
    requires Resolved(cfg) && Feasible(Start(cfg), events) && m < |events|
    ensures Feasible(Start(cfg), events[..m]) && Feasible(Start(cfg), events[..m + 1])
    ensures PastOf(cfg, events[..m + 1], i)
         == NextAll(PastOf(cfg, events[..m], i), events[m], Replies(Start(cfg), events, i, m))
  {
    hide Replies, Feasible, Run, NextAll, PastAt, Log;
    var st, upto := Start(cfg), events[..m + 1];
    LogAt(st, events, i, m);
    LogIsDated(st, events[..m], i);
    var log, replies := Log(st, events[..m], i), Replies(st, events, i, m);
    PastBatch(upto, log, m, replies);
    assert log + [] == log && upto[..m] == events[..m];
    PastStays(upto, m, log, [], |log|);
  }

  lemma StateNext(st: State, events: seq<Event>, m: nat)
    requires WellFormed(st) && Feasible(st, events) && m < |events|
    ensures StateAt(st, events, m + 1) == Step(StateAt(st, events, m), events[m]).st
  {
    hide Feasible, Run, Step;
    FeasiblePrefix(st, events, m + 1);
    RunSnoc(st, events[..m + 1]);
    assert events[..m + 1][..m] == events[..m];
  }

  /** The record agrees with the last request at every moment of a run. */
  lemma AgreesAt(cfg: Config, events: seq<Event>, i: nat, m: nat)
    requires Resolved(cfg) && Feasible(Start(cfg), events) && m <= |events| && i < |cfg.links|
    ensures Feasible(Start(cfg), events[..m])
    ensures var st := StateAt(Start(cfg), events, m);
            i < |st.links| && Agrees(st.cfg.links[i], st.links[i], PastOf(cfg, events[..m], i).prev)
  {
    hide Feasible, Run, Agrees, Log, LinkTrace, Bracketed;
    FeasiblePrefix(Start(cfg), events, m);
    CallsAreBracketed(cfg, events[..m]);
    var o := Run(Start(cfg), events[..m]);
    assert LinkTraced(o.st.cfg.links[i], o.st.links[i], LinkTrace(o.sent, i));
    LogIsTrace(Start(cfg), events[..m], i);
  }

  /** Event `m` is answered by link `i` as it asks. */
  ghost predicate EventAnswered(cfg: Config, events: seq<Event>, i: nat, m: nat)
    requires Resolved(cfg) && Feasible(Start(cfg), events) && m < |events| && i < |cfg.links|
    requires Feasible(Start(cfg), events[..m])
  {
    var st, replies := StateAt(Start(cfg), events, m), Replies(Start(cfg), events, i, m);
    var next := StateAt(Start(cfg), events, m + 1);
    if Concerns(cfg.links, i, events[m]) then
      && i < |next.links|
      && Answered(st.cfg.links[i], Joined(st.cfg, st.cfg.links[i]), PastOf(cfg, events[..m], i), events[m],
                  Result(next.links[i], replies))
    else
      replies == []
  }

  ghost predicate RecallsAt(cfg: Config, events: seq<Event>, i: nat, m: nat)
    requires Resolved(cfg) && Feasible(Start(cfg), events) && m <= |events| && i < |cfg.links|
  {
    && Feasible(Start(cfg), events[..m]) && i < |StateAt(Start(cfg), events, m).links|
    && Recalls(StateAt(Start(cfg), events, m).links[i], PastOf(cfg, events[..m], i))
  }

  lemma NextRecalled(cfg: Config, events: seq<Event>, i: nat, m: nat)
    requires Resolved(cfg) && Feasible(Start(cfg), events) && m < |events| && i < |cfg.links|
    requires RecallsAt(cfg, events, i, m)
    ensures EventAnswered(cfg, events, i, m) && RecallsAt(cfg, events, i, m + 1)
  {
    hide Feasible, Run, Agrees, Log, LinkTrace, Step, Concerns, PastOf, Recalls, NextAll, LinkStep, StateAt, Answered;
    var st0, e := Start(cfg), events[m];
    var st, past := StateAt(st0, events, m), PastOf(cfg, events[..m], i);
    AgreesAt(cfg, events, i, m);
    StateNext(st0, events, m);
    PastOfPrefix(cfg, events, i, m);
    SameConcern(cfg, st.cfg, i, e);
    var mid := StepReaches(st, e, i);
    if Concerns(cfg.links, i, e) {
      LinkStepAnswers(mid, i, e, past);
      AnsweredRecalls(st.cfg.links[i], Joined(st.cfg, st.cfg.links[i]), past, e, LinkStep(mid, i, e));
    } else {
      NothingNext(past, e);
    }
  }

  lemma NothingNext(past: Past, e: Event)
    ensures NextAll(past, e, []) == past
  {
  }

  lemma AnsweredRecalls(l: LinkConfig, open: bool, past: Past, e: Event, r: Result)
    requires Answered(l, open, past, e, r)
    ensures Recalls(r.rt, NextAll(past, e, r.outs))
  {
    hide Recalls, NextAll, Relayed, Opened, Closed, Explains, HasAudio, HasOpener, HasCloser;
  }

  lemma {:induction false} RecallsThroughout(cfg: Config, events: seq<Event>, i: nat, m: nat)
    requires Resolved(cfg) && Feasible(Start(cfg), events) && m <= |events| && i < |cfg.links|
    ensures RecallsAt(cfg, events, i, m)
  {
    hide Feasible, Run, Agrees, Log, LinkTrace, Step, PastOf, EventAnswered, RecallsAt;
    if m == 0 {
      NothingToRecall(cfg, events, i);
    } else {
      RecallsThroughout(cfg, events, i, m - 1);
      NextRecalled(cfg, events, i, m - 1);
    }
  }

  lemma NothingToRecall(cfg: Config, events: seq<Event>, i: nat)
    requires Resolved(cfg) && Feasible(Start(cfg), events) && i < |cfg.links|
    ensures RecallsAt(cfg, events, i, 0)
  {
    hide PastAt, Log;
    assert events[..0] == [];
    assert !StateAt(Start(cfg), events, 0).links[i].hasCall;
  }

  /** Every event is answered on every link as it asks: with audio, a B-on or HEAD, a
      B-off or TERM exactly when what was sent before and the toggles say so, and links
      it does not concern stay silent. */
  lemma EveryEventIsAnswered(cfg: Config, events: seq<Event>, i: nat, m: nat)
    requires Resolved(cfg) && Feasible(Start(cfg), events) && m < |events| && i < |cfg.links|
    ensures Feasible(Start(cfg), events[..m]) && EventAnswered(cfg, events, i, m)
  {
    hide Feasible, EventAnswered, PastOf, StateAt;
    RecallsThroughout(cfg, events, i, m);
    NextRecalled(cfg, events, i, m);
  }

  /** The second reply to an event is explained whatever the past. */
  lemma SecondReply(l: LinkConfig, open: bool, past: Past, past': Past, e: Event, r: Result, k: nat)
    requires Answered(l, open, past, e, r) && k < |r.outs| && (k == 0 ==> past == past')
    ensures Explains(past', e, r.outs[k])
  {
    hide Recalls, NextAll, Relayed, Opened, Closed, HasAudio, HasOpener, HasCloser, KindOf, CarriesAudio, IsIdle,
         SlotIndex, Packed, ExtractedAmbe;
    assert Explains(past, e, r.outs[k]);
  }

  lemma PastOfLog(cfg: Config, events: seq<Event>, i: nat, m: nat)
    requires Resolved(cfg) && Feasible(Start(cfg), events) && m <= |events| && Feasible(Start(cfg), events[..m])
    ensures var log, n := Log(Start(cfg), events, i), |Log(Start(cfg), events[..m], i)|;
            n <= |log| && PastOf(cfg, events[..m], i) == PastAt(events, log, n)
  {
    hide Feasible, PastAt, Log;
    LogGrows(Start(cfg), events, i, m);
    LogIsDated(Start(cfg), events[..m], i);
    var log, was := Log(Start(cfg), events, i), Log(Start(cfg), events[..m], i);
    assert log == was + log[|was|..];
    PastStays(events, m, was, log[|was|..], |was|);
  }

  /** Entry `k` of the log is a reply to its event. */
  lemma ReplyAt(st: State, events: seq<Event>, i: nat, k: nat) returns (m: nat, n: nat)
    requires WellFormed(st) && Feasible(st, events) && k < |Log(st, events, i)|
    ensures m == Log(st, events, i)[k].at < |events| && Feasible(st, events[..m])
    ensures n == |Log(st, events[..m], i)| <= k < n + |Replies(st, events, i, m)|
    ensures Log(st, events, i)[k].out == Replies(st, events, i, m)[k - n]
  {
    hide Feasible, Log, Replies;
    LogIsDated(st, events, i);
    m := Log(st, events, i)[k].at;
    EntriesAt(st, events, i, m, k);
    n := |Log(st, events[..m], i)|;
    LogAt(st, events, i, m);
    LogGrows(st, events, i, m + 1);
    assert Log(st, events, i)[k] == Log(st, events[..m + 1], i)[k];
  }

  /** Every request of every link in every run is explained by the event it was made at:
      audio is that of the event's frame or packet, the stream that of the HEAD or B-on
      behind the call, and only its own end, another HEAD, an idle tick or link loss
      closes it. */
  lemma EveryRequestHasItsCause(cfg: Config, events: seq<Event>, i: nat, k: nat)
    requires Resolved(cfg) && Feasible(Start(cfg), events) && i < |cfg.links| && k < |Log(Start(cfg), events, i)|
    ensures var log := Log(Start(cfg), events, i);
            && log[k].at < |events| && Concerns(cfg.links, i, events[log[k].at])
            && Explains(PastAt(events, log, k), events[log[k].at], log[k].out)
  {
    hide Feasible, PastAt, Log, Replies, StateAt, Concerns, PastOf, Explains, Answered;
    var log := Log(Start(cfg), events, i);
    var m, n := ReplyAt(Start(cfg), events, i, k);
    EveryEventIsAnswered(cfg, events, i, m);
    PastOfLog(cfg, events, i, m);
    var st, next := StateAt(Start(cfg), events, m), StateAt(Start(cfg), events, m + 1);
    var replies := Replies(Start(cfg), events, i, m);
    SecondReply(st.cfg.links[i], Joined(st.cfg, st.cfg.links[i]), PastOf(cfg, events[..m], i), PastAt(events, log, k),
                events[m], Result(next.links[i], replies), k - n);
  }

  // ---------- A call toward CC-CC ----------

  lemma {:induction false} OpenerOf(log: seq<Entry>, b: nat, k: nat)
    requires b < k <= |log| && IsOpener(log[b].out)
    requires forall j: nat :: b < j < k ==> !IsOpener(log[j].out)
    ensures OpenerBefore(log, k) == b
  {
    hide IsOpener;
    if k > b + 1 {
      OpenerOf(log, b, k - 1);
    }
  }

  lemma TransmissionOpener(log: seq<Entry>, b: nat, k: nat)
    requires b < k && OneTransmission(Outs(log), b, k)
    ensures OpenerBefore(log, k) == b && log[b].out.Bon?
  {
    forall j: nat | b < j < k ensures !IsOpener(log[j].out) {
      assert Outs(log)[j].Voice?;
    }
    OpenerOf(log, b, k);
  }

  /** Event `e` is a frame of kind `kind` for link `i`. */
  predicate IsFrameFor(cfg: Config, i: nat, e: Event, kind: Kind) {
    IsKind(e, kind) && Concerns(cfg.links, i, e)
  }

  /** In every run, the voice of a call toward CC-CC is that of bursts of the one stream
      whose HEAD opened it, slot by slot, and the B-off comes of that stream's TERM,
      of the HEAD of another stream or of five idle seconds. */
  lemma VoiceIsOfItsStream(cfg: Config, events: seq<Event>, i: nat, b: nat, k: nat)
    requires Resolved(cfg) && Feasible(Start(cfg), events) && i < |cfg.links|
    requires b < k && OneTransmission(Outs(Log(Start(cfg), events, i)), b, k)
    ensures var log := Log(Start(cfg), events, i);
            var o := log[k].out;
            && log[b].at < |events| && log[k - 1].at < |events| && log[k].at < |events|
            && var first, last, e := events[log[b].at], events[log[k - 1].at], events[log[k].at];
            && IsFrameFor(cfg, i, first, HeadKind) && log[b].out.src == first.frame.src
            && (o.Voice? ==>
                  && IsFrameFor(cfg, i, e, BurstKind) && e.frame.stream == first.frame.stream
                  && o.ambe21 == Packed(ExtractedAmbe(e.frame.payload)) && o.slot == SlotIndex(first.now, e.now2))
            && (o.Boff? ==>
                  || (IsFrameFor(cfg, i, e, TermKind) && e.frame.stream == first.frame.stream)
                  || (IsFrameFor(cfg, i, e, HeadKind) && e.frame.stream != first.frame.stream)
                  || (e.TickEvent? && e.now - Stamp(last) > 5.0))
  {
    hide Feasible, Log, Concerns, Packed, ExtractedAmbe, SlotIndex, KindOf, Stamp;
    var log := Log(Start(cfg), events, i);
    TransmissionOpener(log, b, k);
    EveryRequestHasItsCause(cfg, events, i, b);
    EveryRequestHasItsCause(cfg, events, i, k - 1);
    EveryRequestHasItsCause(cfg, events, i, k);
  }

  // ---------- A call toward OpenBridge ----------

  lemma CallOpener(log: seq<Entry>, h: nat, k: nat)
    requires h < k && OneCall(Outs(log), h, k)
    ensures OpenerBefore(log, k) == h && IsHead(log[h].out)
  {
    hide CarriesVoice, VoiceFlags;
    forall j: nat | h < j < k ensures !IsOpener(log[j].out) {
      assert CallFrame(Outs(log), h, j);
    }
    OpenerOf(log, h, k);
  }

  /** The frame carries the audio of packet `e` at its place in the call. */
  ghost predicate CarriesPacket(l: LinkConfig, radio: nat, e: Event, f: Dmrd, n: nat) {
    && e.CcVoiceEvent? && f.flags == VoiceFlags(n % 6)
    && f.payload == VoicePayload(EncodeEmb(CallLc(l.tgid, radio)), n % 6, e.ambe21)
  }

  lemma PacketCarried(l: LinkConfig, radio: nat, e: Event, f: Dmrd, n: nat)
    requires e.CcVoiceEvent? && CarriesAudio(f, e.ambe21) && f.flags == VoiceFlags(n % 6)
    requires f.dst == l.tgid % 0x100_0000 && f.src == radio % 0x100_0000
    ensures CarriesPacket(l, radio, e, f, n)
  {
    hide CallLc, EncodeEmb, VoicePayload;
    FlagsPosition(n % 6);
    CallLcTruncates(l.tgid, radio);
  }

  lemma SentFor(l: LinkConfig, t: seq<Out>, k: nat)
    requires Bracketed(l, t) && k < |t| && t[k].Obp?
    ensures t[k].frame.dst == l.tgid % 0x100_0000
  {
    hide FrameFollows;
    assert MayFollow(l, Before(t, k), t[k]);
  }

  lemma LogIsBracketed(cfg: Config, events: seq<Event>, i: nat)
    requires Resolved(cfg) && Feasible(Start(cfg), events) && i < |cfg.links|
    ensures Bracketed(cfg.links[i], Outs(Log(Start(cfg), events, i)))
  {
    hide Feasible, Log, Run, LinkTrace, Agrees, MayFollow;
    CallsAreBracketed(cfg, events);
    LogIsTrace(Start(cfg), events, i);
    var o := Run(Start(cfg), events);
    var t := LinkTrace(o.sent, i);
    assert LinkTraced(o.st.cfg.links[i], o.st.links[i], t);
    TogglesAside(o.st.cfg.links[i], cfg.links[i], t);
  }

  lemma TogglesAside(l: LinkConfig, m: LinkConfig, t: seq<Out>)
    requires SameButToggles(l, m) && Bracketed(l, t)
    ensures Bracketed(m, t)
  {
    hide FrameFollows;
    forall k: nat | k < |t| ensures MayFollow(m, Before(t, k), t[k]) {
      assert MayFollow(l, Before(t, k), t[k]);
    }
  }

  /** In every run, a call toward OpenBridge is that of the B-on behind its HEAD; its
      n-th burst carries the audio of the voice packet it was sent at, at position n
      modulo 6 with the embedded LC of the call; its TERM comes of the B-off, of link
      loss or of five idle seconds. */
  lemma BurstCarriesItsPacket(cfg: Config, events: seq<Event>, i: nat, h: nat, k: nat)
    requires Resolved(cfg) && Feasible(Start(cfg), events) && i < |cfg.links|
    requires h < k && OneCall(Outs(Log(Start(cfg), events, i)), h, k)
    ensures var log := Log(Start(cfg), events, i);
            var o := log[k].out;
            && log[h].at < |events| && log[k - 1].at < |events| && log[k].at < |events| && o.Obp?
            && var first, last, e := events[log[h].at], events[log[k - 1].at], events[log[k].at];
            && first.CcBonEvent? && first.link == i && o.frame.stream == first.stream
            && Concerns(cfg.links, i, e)
            && (IsBurst(o) ==> CarriesPacket(cfg.links[i], first.radio, e, o.frame, k - h - 1))
            && (IsTerm(o) ==>
                  e.CcBoffEvent? || e.LinkDownEvent? || (e.TickEvent? && e.now - Stamp(last) > 5.0))
  {
    hide Feasible, Log, CarriesPacket, Stamp, Bracketed, VoiceFlags, CarriesVoice, CarriesAudio, VoicePayload,
         EncodeEmb;
    var log := Log(Start(cfg), events, i);
    CallOpener(log, h, k);
    EveryRequestHasItsCause(cfg, events, i, h);
    EveryRequestHasItsCause(cfg, events, i, k - 1);
    EveryRequestHasItsCause(cfg, events, i, k);
    assert CallFrame(Outs(log), h, k);
    if IsBurst(log[k].out) {
      LogIsBracketed(cfg, events, i);
      SentFor(cfg.links[i], Outs(log), k);
      PacketCarried(cfg.links[i], events[log[h].at].radio, events[log[k].at], log[k].out.frame, k - h - 1);
    }
  }

  // ---------- Nothing is missing, and the order is kept ----------

  /** Event `m` brings audio that link `i` must relay. */
  ghost predicate RelayedAt(cfg: Config, events: seq<Event>, i: nat, m: nat)
    requires Resolved(cfg) && Feasible(Start(cfg), events) && m < |events| && i < |cfg.links|
  {
    var l := StateAt(Start(cfg), events, m).cfg.links[i];
    && Feasible(Start(cfg), events[..m]) && Concerns(cfg.links, i, events[m])
    && Relayed(l, Joined(StateAt(Start(cfg), events, m).cfg, l), PastOf(cfg, events[..m], i), events[m])
  }

  /** An event that brings audio brings one request and no other. */
  lemma AudioAlone(outs: seq<Out>, k: nat)
    requires Batch(outs) && k < |outs| && IsAudio(outs[k])
    ensures |outs| == 1
  {
  }

  lemma AnsweredBatch(cfg: Config, events: seq<Event>, i: nat, m: nat)
    requires Resolved(cfg) && Feasible(Start(cfg), events) && m < |events| && i < |cfg.links|
    ensures Batch(Replies(Start(cfg), events, i, m))
    ensures HasAudio(Replies(Start(cfg), events, i, m)) <==> RelayedAt(cfg, events, i, m)
  {
    hide Feasible, Log, Replies, StateAt, Concerns, PastOf, Explains, Recalls, NextAll, Relayed, Opened, Closed,
         HasOpener, HasCloser, IsAudio;
    EveryEventIsAnswered(cfg, events, i, m);
  }

  /** Audio requests have dates of their own, in order. */
  lemma AudioInOrder(cfg: Config, events: seq<Event>, i: nat, a: nat, b: nat)
    requires Resolved(cfg) && Feasible(Start(cfg), events) && i < |cfg.links|
    requires var log := Log(Start(cfg), events, i); a < b < |log| && (IsAudio(log[a].out) || IsAudio(log[b].out))
    ensures var log := Log(Start(cfg), events, i); log[a].at < log[b].at
  {
    hide Feasible, Log, Replies, HasAudio, Batch, IsAudio, RelayedAt;
    var st := Start(cfg);
    var m, n := ReplyAt(st, events, i, a);
    var m', n' := ReplyAt(st, events, i, b);
    LogIsDated(st, events, i);
    AnsweredBatch(cfg, events, i, m);
    if m == m' {
      AudioAlone(Replies(st, events, i, m), if IsAudio(Log(st, events, i)[a].out) then a - n else b - n);
    }
  }

  /** The events that bring audio to relay are exactly those behind the audio requests. */
  lemma NoAudioIsLost(cfg: Config, events: seq<Event>, i: nat, m: nat)
    requires Resolved(cfg) && Feasible(Start(cfg), events) && i < |cfg.links| && m < |events|
    ensures var log := Log(Start(cfg), events, i);
            RelayedAt(cfg, events, i, m) <==> exists j: nat :: j < |log| && log[j].at == m && IsAudio(log[j].out)
  {
    hide Feasible, Log, Replies, Batch, IsAudio, RelayedAt;
    var st, log, replies := Start(cfg), Log(Start(cfg), events, i), Replies(Start(cfg), events, i, m);
    AnsweredBatch(cfg, events, i, m);
    LogAt(st, events, i, m);
    var n := |Log(st, events[..m], i)|;
    if RelayedAt(cfg, events, i, m) {
      var j: nat :| j < |replies| && IsAudio(replies[j]);
      LogGrows(st, events, i, m + 1);
      assert log[n + j] == Log(st, events[..m + 1], i)[n + j];
    }
    if j: nat :| j < |log| && log[j].at == m && IsAudio(log[j].out) {
      var m', n' := ReplyAt(st, events, i, j);
      assert IsAudio(replies[j - n]);
    }
  }

  /** From request `h` to request `k` of a link, such as the first and the last of a
      call, no frame or packet to relay is dropped and none comes twice: with their
      order, the n-th audio request carries the n-th of them. */
  lemma AudioBetween(cfg: Config, events: seq<Event>, i: nat, h: nat, k: nat, m: nat)
    requires Resolved(cfg) && Feasible(Start(cfg), events) && i < |cfg.links| && m < |events|
    requires var log := Log(Start(cfg), events, i);
             h < k < |log| && log[h].at < m <= log[k].at
    ensures var log := Log(Start(cfg), events, i);
            RelayedAt(cfg, events, i, m) <==> exists j: nat :: h < j <= k && log[j].at == m && IsAudio(log[j].out)
  {
    hide Feasible, Log, IsAudio, RelayedAt;
    var log := Log(Start(cfg), events, i);
    LogIsDated(Start(cfg), events, i);
    NoAudioIsLost(cfg, events, i, m);
    if j: nat :| j < |log| && log[j].at == m && IsAudio(log[j].out) {
      assert j > h;
      if j > k {
        AudioInOrder(cfg, events, i, k, j);
      }
    }
  }

  // ---------- Contention ----------

  /** Link `i` sends nothing at event `m` and its call goes on. */
  ghost predicate Unmoved(cfg: Config, events: seq<Event>, i: nat, m: nat)
    requires Resolved(cfg) && Feasible(Start(cfg), events) && m < |events| && i < |cfg.links|
  {
    var st, next := StateAt(Start(cfg), events, m), StateAt(Start(cfg), events, m + 1);
    && Replies(Start(cfg), events, i, m) == [] && i < |st.links| && i < |next.links|
    && next.links[i].hasCall && next.links[i].call == st.links[i].call
  }

  /** The state link `i` is in, what it is told and what it makes of it. */
  lemma Moment(cfg: Config, events: seq<Event>, i: nat, m: nat) returns (mid: State)
    requires Resolved(cfg) && Feasible(Start(cfg), events) && m < |events| && i < |cfg.links|
    ensures Feasible(Start(cfg), events[..m])
    ensures var st, next := StateAt(Start(cfg), events, m), StateAt(Start(cfg), events, m + 1);
            var past, replies := PastOf(cfg, events[..m], i), Replies(Start(cfg), events, i, m);
            && i < |st.links| && i < |next.links| && Agrees(st.cfg.links[i], st.links[i], past.prev)
            && Recalls(st.links[i], past)
            && if Concerns(cfg.links, i, events[m]) then
                 && WellFormed(mid) && i < |mid.links| && mid.cfg == st.cfg && mid.links[i] == st.links[i]
                 && next.links[i] == LinkStep(mid, i, events[m]).rt && replies == LinkStep(mid, i, events[m]).outs
               else
                 next.links[i] == st.links[i] && replies == []
  {
    hide Feasible, Run, Agrees, Log, LinkTrace, Step, Concerns, PastOf, Recalls, LinkStep, StateAt;
    AgreesAt(cfg, events, i, m);
    RecallsThroughout(cfg, events, i, m);
    StateNext(Start(cfg), events, m);
    var st := StateAt(Start(cfg), events, m);
    SameConcern(cfg, st.cfg, i, events[m]);
    mid := StepReaches(st, events[m], i);
  }

  /** In every run, while a call toward CC-CC is up, that is, when the last request was
      a B-on or voice, a B-on from the cc side and frames of other streams change
      nothing, save a HEAD let in, which sends a B-off and then its own B-on. */
  lemma ObpCallHoldsTheLink(cfg: Config, events: seq<Event>, i: nat, m: nat)
    requires Resolved(cfg) && Feasible(Start(cfg), events) && m < |events| && i < |cfg.links|
    requires Feasible(Start(cfg), events[..m]) && ObpUp(PastOf(cfg, events[..m], i).prev)
    ensures var e, past, replies := events[m], PastOf(cfg, events[..m], i), Replies(Start(cfg), events, i, m);
            && (e.CcBonEvent? ==> Unmoved(cfg, events, i, m))
            && (e.DmrdEvent? && !SameStream(e, past) ==>
                  || Unmoved(cfg, events, i, m)
                  || (IsFrameFor(cfg, i, e, HeadKind) && |replies| == 2 && replies[0].Boff? && replies[1].Bon?
                      && replies[1].src == e.frame.src && replies[1].peerId == e.frame.repeater))
  {
    hide Feasible, Run, Agrees, Log, Concerns, PastOf, StateAt, Replies, CcBon, ObpReceived, KindOf;
    var e, st, past := events[m], StateAt(Start(cfg), events, m), PastOf(cfg, events[..m], i);
    var mid := Moment(cfg, events, i, m);
    var l, rt := st.cfg.links[i], st.links[i];
    LastRequestTells(l, rt, past.prev);
    var open := GateOpen(st.cfg, l);
    if Concerns(cfg.links, i, e) {
      if e.CcBonEvent? {
        CallBlocksBon(l, open, rt, Count(mid, i), e.radio, e.peerId, e.stream, e.now);
      } else if e.DmrdEvent? && !SameStream(e, past) {
        ObpCallOwnsTheLink(l, open, rt, e.frame, e.now, e.now2);
      }
    }
  }

  /** In every run, while a call toward OpenBridge is up, that is, when the last request
      was a HEAD or a burst, no frame from OpenBridge and no second B-on is relayed or
      changes the call. */
  lemma CcCallHoldsTheLink(cfg: Config, events: seq<Event>, i: nat, m: nat)
    requires Resolved(cfg) && Feasible(Start(cfg), events) && m < |events| && i < |cfg.links|
    requires Feasible(Start(cfg), events[..m]) && IsOpen(PastOf(cfg, events[..m], i).prev)
    requires events[m].CcBonEvent? || events[m].DmrdEvent?
    ensures Unmoved(cfg, events, i, m)
  {
    hide Feasible, Run, Agrees, Log, Concerns, PastOf, StateAt, Replies, CcBon, ObpReceived, KindOf;
    var e, st, past := events[m], StateAt(Start(cfg), events, m), PastOf(cfg, events[..m], i);
    var mid := Moment(cfg, events, i, m);
    var l, rt := st.cfg.links[i], st.links[i];
    LastRequestTells(l, rt, past.prev);
    var open := GateOpen(st.cfg, l);
    if Concerns(cfg.links, i, e) {
      if e.CcBonEvent? {
        CallBlocksBon(l, open, rt, Count(mid, i), e.radio, e.peerId, e.stream, e.now);
      } else {
        CcCallOwnsTheLink(l, open, rt, e.frame, e.now, e.now2);
      }
    }
  }

  // ---------- Which frames count ----------

  /** A unit call, or a CSBK or data frame: bit 6 set, or bits 5, 1 and 0. */
  predicate OutOfScope(flags: Byte) {
    (flags >> 6) & 1 == 1 || ((flags >> 5) & 1 == 1 && (flags >> 1) & 1 == 1 && flags & 1 == 1)
  }

  /** Frame type (bits 5 and 4) and data type (bits 3 to 0). */
  predicate IsTyped(flags: Byte, frameType: Byte, dataType: Byte) {
    (flags >> 4) & 3 == frameType && flags & 15 == dataType
  }

  lemma KindsByBits(flags: Byte)
    ensures KindOf(flags) == Ignored <==> OutOfScope(flags)
    ensures KindOf(flags) == HeadKind <==> !OutOfScope(flags) && IsTyped(flags, 2, 1)
    ensures KindOf(flags) == TermKind <==> !OutOfScope(flags) && IsTyped(flags, 2, 2)
    ensures KindOf(flags) == BurstKind <==>
            !OutOfScope(flags) && !IsTyped(flags, 2, 1) && !IsTyped(flags, 2, 2)
  {
  }

  /** A frame out of scope changes nothing and sends nothing. */
  lemma OutOfScopeIsDropped(st: State, e: Event)
    requires WellFormed(st) && Possible(st, e) && e.DmrdEvent? && OutOfScope(e.frame.flags)
    ensures Step(st, e) == Outcome(st, [])
  {
    hide OutOfScope, KindOf, Route;
    KindsByBits(e.frame.flags);
    var i := Route(st.cfg.links, e.peer, e.frame.dst, 0);
    if i >= 0 {
      assert st.links[i := st.links[i]] == st.links;
    }
  }

  /** What a request may have as its cause, by the bits of the frame. */
  predicate CausedByBits(e: Event, o: Out) {
    e.DmrdEvent? ==>
      && !OutOfScope(e.frame.flags)
      && (o.Bon? ==> IsTyped(e.frame.flags, 2, 1))
      && (o.Boff? ==> IsTyped(e.frame.flags, 2, 1) || IsTyped(e.frame.flags, 2, 2))
      && (o.Voice? ==> !IsTyped(e.frame.flags, 2, 1) && !IsTyped(e.frame.flags, 2, 2))
  }

  /** In every run no request comes of a frame out of scope; a B-on comes of a HEAD, voice
      of a frame that is neither HEAD nor TERM, a B-off of one of these, told by the bits. */
  lemma RequestsByBits(cfg: Config, events: seq<Event>, i: nat, k: nat)
    requires Resolved(cfg) && Feasible(Start(cfg), events) && i < |cfg.links| && k < |Log(Start(cfg), events, i)|
    ensures var log := Log(Start(cfg), events, i);
            log[k].at < |events| && CausedByBits(events[log[k].at], log[k].out)
  {
    hide Feasible, Log, PastAt, KindOf, OutOfScope, IsTyped, SameStream, SlotIndex, Packed, ExtractedAmbe, Stamp;
    EveryRequestHasItsCause(cfg, events, i, k);
    var e := events[Log(Start(cfg), events, i)[k].at];
    if e.DmrdEvent? {
      KindsByBits(e.frame.flags);
    }
  }

  // ---------- Drops ----------

  /** Whether a drop is noted after event `e`, so that it is logged no second time: from the
      first B-on or frame that finds the link not joined to a HEAD or B-on that finds it
      joined, or to the link coming up or going down. */
  function NoteAfter(l: LinkConfig, joined: bool, e: Event, was: bool): bool {
    match e
    case CcBonEvent(_, _, _, _, _) => if l.enabled then !joined else was
    case DmrdEvent(_, d, _, _) =>
      if !l.enabled || OutOfScope(d.flags) then was else if joined then was && !IsTyped(d.flags, 2, 1) else true
    case LinkUpEvent(_) => false
    case LinkDownEvent(_) => false
    case _ => was
  }

  lemma StepNotes(st: State, i: nat, e: Event)
    requires WellFormed(st) && i < |st.links|
    ensures LinkStep(st, i, e).rt.dropLogged
         == NoteAfter(st.cfg.links[i], Joined(st.cfg, st.cfg.links[i]), e, st.links[i].dropLogged)
  {
    hide KindOf, OutOfScope, IsTyped, SlotIndex, Packed, ExtractedAmbe, GateOpen, Joined, SendDmrd;
    GateIsJoint(st.cfg, st.cfg.links[i]);
    if e.DmrdEvent? {
      KindsByBits(e.frame.flags);
    }
  }

  /** At every event of every run the note is made and dropped as told. */
  lemma DropsAreNoted(cfg: Config, events: seq<Event>, i: nat, m: nat)
    requires Resolved(cfg) && Feasible(Start(cfg), events) && m < |events| && i < |cfg.links|
    ensures var st, next := StateAt(Start(cfg), events, m), StateAt(Start(cfg), events, m + 1);
            && i < |st.links| && i < |next.links|
            && next.links[i].dropLogged
               == if Concerns(cfg.links, i, events[m]) then
                    NoteAfter(st.cfg.links[i], Joined(st.cfg, st.cfg.links[i]), events[m], st.links[i].dropLogged)
                  else
                    st.links[i].dropLogged
  {
    hide Feasible, Run, Agrees, Log, Concerns, PastOf, StateAt, Replies, LinkStep, NoteAfter, Recalls;
    var mid := Moment(cfg, events, i, m);
    if Concerns(cfg.links, i, events[m]) {
      StepNotes(mid, i, events[m]);
    }
  }

  // ---------- Wall-clock slots ----------

  /** A slot is 60 milliseconds, the first one centred on the start of the call; a clock
      that has gone back counts below zero, where truncation joins a slot to the first. */
  predicate InSlot(start: real, now: real, k: int) {
    if start <= now then k >= 0 && -0.03 <= now - (start + 0.06 * (k as real)) < 0.03
    else if k == 0 then start - now < 0.09
    else k < 0 && -0.09 < now - (start + 0.06 * (k as real)) <= -0.03
  }

  lemma SlotByClock(start: real, now: real, k: int)
    ensures SlotIndex(start, now) == k <==> InSlot(start, now, k)
  {
    var x := (now - start) / 0.06 + 0.5;
    var d := now - (start + 0.06 * (k as real));
    assert x == d / 0.06 + 0.5 + k as real;
    if x < 0.0 {
      assert SlotIndex(start, now) == -((-x).Floor);
    } else {
      assert SlotIndex(start, now) == x.Floor;
    }
  }

  /** In every run, a voice request carries slot k exactly when the clock read for its frame
      is in that slot after the HEAD; its sequence number is then k modulo 2^16 and its
      timestamp 480 k modulo 2^32. */
  lemma VoiceIsOnTheClock(cfg: Config, events: seq<Event>, i: nat, b: nat, j: nat, k: int)
    requires Resolved(cfg) && Feasible(Start(cfg), events) && i < |cfg.links|
    requires b < j && OneTransmission(Outs(Log(Start(cfg), events, i)), b, j)
    requires Log(Start(cfg), events, i)[j].out.Voice?
    ensures var log := Log(Start(cfg), events, i);
            var o := log[j].out;
            && log[b].at < |events| && log[j].at < |events|
            && var first, e := events[log[b].at], events[log[j].at];
            && first.DmrdEvent? && e.DmrdEvent?
            && (o.slot == k <==> InSlot(first.now, e.now2, k))
            && (o.slot == k ==> o.seqNo == k % 0x1_0000 && o.timestamp == 480 * k % 0x1_0000_0000)
  {
    hide Feasible, Log, Concerns, Packed, ExtractedAmbe, SlotIndex, KindOf, Stamp, Bracketed, RtpSeq, RtpTimestamp;
    var log := Log(Start(cfg), events, i);
    VoiceIsOfItsStream(cfg, events, i, b, j);
    LogIsBracketed(cfg, events, i);
    VoiceNumbers(cfg.links[i], Outs(log), j);
    var first, e := events[log[b].at], events[log[j].at];
    SlotByClock(first.now, e.now2, k);
    RtpOfSlot(k);
  }

  lemma RtpOfSlot(k: int)
    ensures RtpSeq(k) == k % 0x1_0000 && RtpTimestamp(k) == 480 * k % 0x1_0000_0000
  {
    TimestampValue(k);
  }
}
