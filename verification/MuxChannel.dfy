/** The control connection inside the multiplexer: bytes become lines, lines complete the
    handshake or are dispatched, whatever else happens meanwhile. */
module MuxChannel {
  import opened LineChannel
  import opened MuxModel
  import opened MuxRuns
  import opened MuxTheorems
  import opened Signalling
  import opened Text

  // ---------- Bytes and lines ----------

  function LinesReceived(cfg: MuxCfg, role: Role, lk: Link, lines: seq<string>, now: real): Result {
    if lines == [] then Result(lk, [])
    else
      var n := |lines| - 1;
      var r := LinesReceived(cfg, role, lk, lines[..n], now);
      var s := LineReceived(cfg, role, r.link, lines[n], now);
      Result(s.link, r.outs + s.outs)
  }

  /** The same but for the receive buffer. */
  predicate SameButBuffer(a: Link, b: Link) {
    a.(rx := "") == b.(rx := "")
  }

  lemma LineAside(cfg: MuxCfg, role: Role, a: Link, b: Link, line: string, now: real)
    requires SameButBuffer(a, b)
    ensures var r, s := LineReceived(cfg, role, a, line, now), LineReceived(cfg, role, b, line, now);
            SameButBuffer(r.link, s.link) && r.outs == s.outs
  {
    hide AnswerAccepted, Clipped, Dispatch;
  }

  /** A recv does what its lines do, whatever they do to the link, and leaves the rest
      of the bytes in the buffer. */
  lemma {:induction false} BytesAreLines(cfg: MuxCfg, role: Role, lk: Link, data: string, now: real)
    ensures var r, fed := BytesReceived(cfg, role, lk, data, now), Feed(lk.rx, data);
            var s := LinesReceived(cfg, role, lk, fed.lines, now);
            r.link.rx == fed.buf && SameButBuffer(r.link, s.link) && r.outs == s.outs
    decreases |data|
  {
    hide LineReceived, Line, Stored;
    if data != "" {
      var n := |data| - 1;
      BytesAreLines(cfg, role, lk, data[..n], now);
      var r, fed := BytesReceived(cfg, role, lk, data[..n], now), Feed(lk.rx, data[..n]);
      var s := LinesReceived(cfg, role, lk, fed.lines, now);
      var b := Stored(fed.buf, data[n]);
      if data[n] == '\n' {
        LineAside(cfg, role, r.link.(rx := b), s.link, Line(b), now);
        var lines := fed.lines + [Line(b)];
        assert lines[..|lines| - 1] == fed.lines && lines[|lines| - 1] == Line(b);
      } else {
        assert r.outs + [] == r.outs;
      }
    }
  }

  function Heards(messages: seq<Message>): (outs: seq<Out>)
    ensures |outs| == |messages|
  {
    seq(|messages|, k requires 0 <= k < |messages| => Heard(messages[k]))
  }

  lemma {:induction false} UpLines(cfg: MuxCfg, role: Role, lk: Link, lines: seq<string>, now: real)
    requires lk.phase == Up
    ensures LinesReceived(cfg, role, lk, lines, now) == Result(lk, Heards(DispatchAll(lines)))
  {
    hide Dispatch;
    if lines != [] {
      var n := |lines| - 1;
      UpLines(cfg, role, lk, lines[..n], now);
      assert DispatchAll(lines) == DispatchAll(lines[..n]) + [Dispatch(lines[n])];
      assert Heards(DispatchAll(lines)) == Heards(DispatchAll(lines[..n])) + [Heard(Dispatch(lines[n]))];
    }
  }

  /** On a link that is up every line is dispatched and nothing else happens. */
  lemma UpBytes(cfg: MuxCfg, role: Role, lk: Link, data: string, now: real)
    requires lk.phase == Up
    ensures var fed := Feed(lk.rx, data);
            BytesReceived(cfg, role, lk, data, now) == Result(lk.(rx := fed.buf), Heards(DispatchAll(fed.lines)))
  {
    hide BytesReceived, LinesReceived, Feed, DispatchAll;
    BytesAreLines(cfg, role, lk, data, now);
    UpLines(cfg, role, lk, Feed(lk.rx, data).lines, now);
  }

  // ---------- What a link has heard ----------

  /** The messages dispatched for link `i`. */
  function Messages(trace: seq<Sent>, i: nat): seq<Message> {
    if trace == [] then []
    else
      var s := trace[|trace| - 1];
      Messages(trace[..|trace| - 1], i) + if s.link == i && s.out.Heard? then [s.out.msg] else []
  }

  predicate Dropped(trace: seq<Sent>, i: nat) {
    Sent(i, LinkDown) in trace
  }

  lemma {:induction false} MessagesAppend(a: seq<Sent>, b: seq<Sent>, i: nat)
    ensures Messages(a + b, i) == Messages(a, i) + Messages(b, i)
  {
    if b == [] {
      assert a + b == a;
    } else {
      assert (a + b)[..|a + b| - 1] == a + b[..|b| - 1];
      MessagesAppend(a, b[..|b| - 1], i);
    }
  }

  lemma {:induction false} MessagesOfOthers(trace: seq<Sent>, i: nat)
    requires forall k: nat :: k < |trace| ==> trace[k].link != i || !trace[k].out.Heard?
    ensures Messages(trace, i) == []
  {
    if trace != [] {
      MessagesOfOthers(trace[..|trace| - 1], i);
    }
  }

  lemma {:induction false} MessagesHeard(messages: seq<Message>, i: nat)
    ensures Messages(Tagged(i, Heards(messages)), i) == messages
  {
    if messages != [] {
      var init := messages[..|messages| - 1];
      MessagesHeard(init, i);
      var t := Tagged(i, Heards(messages));
      assert t[..|t| - 1] == Tagged(i, Heards(init));
    }
  }

  // ---------- An up link in a run ----------

  /** Link `i` stays up and untouched but for its timers, and hears nothing, unless it is dropped. */
  ghost predicate Quietly(st: State, o: Outcome, i: nat) {
    && i < |st.links| == |o.st.links|
    && (Dropped(o.sent, i)
        || (o.st.links[i].phase == Up && o.st.links[i].rx == st.links[i].rx && Messages(o.sent, i) == []))
  }

  /** One link's part of it. */
  predicate KeepsUp(lk: Link, r: Result) {
    LinkDown in r.outs
    || (r.link.phase == Up && r.link.rx == lk.rx && forall k: nat :: k < |r.outs| ==> !r.outs[k].Heard?)
  }

  lemma UpdateQuietly(st: State, j: nat, r: Result, i: nat)
    requires i < |st.links| && j < |st.links| && st.links[i].phase == Up && (j == i ==> KeepsUp(st.links[i], r))
    ensures Quietly(st, Update(st, j, r), i)
  {
    hide Messages;
    var t := Tagged(j, r.outs);
    if j == i && LinkDown in r.outs {
      var k: nat :| k < |r.outs| && r.outs[k] == LinkDown;
      assert t[k] == Sent(i, LinkDown);
    } else {
      MessagesOfOthers(t, i);
    }
  }

  lemma TimerKeepsUp(cfg: MuxCfg, role: Role, lk: Link, now: real)
    requires lk.phase == Up
    ensures KeepsUp(lk, KeepaliveFired(cfg, role, lk, now)) && KeepsUp(lk, Teardown(role, lk, now))
  {
    assert LinkDown in Teardown(role, lk, now).outs;
    assert LinkDown in Teardown(role, lk.(keepalive := Off), now).outs;
    assert KeepaliveFired(cfg, role, lk, now).outs[0] == KeepaliveSent(lk.sync);
  }

  lemma AcceptKeepsUp(cfg: MuxCfg, lk: Link, sync: nat, now: real)
    requires lk.phase == Up
    ensures KeepsUp(lk, Accepted(cfg, lk, sync, now))
  {
    assert Teardown(Inbound, lk, now).outs[0] == LinkDown;
    assert Accepted(cfg, lk, sync, now).outs[0] == LinkDown;
  }

  lemma SweepKeepsUp(st: State, i: nat, e: Event)
    requires WellFormed(st) && i < |st.links| && st.links[i].phase == Up && st.links[i].active
    requires e.ReloadEvent? || e.StopEvent?
    requires e.StopEvent? || i < |e.started|
    ensures KeepsUp(st.links[i], SweepStep(st, i, e))
  {
  }

  lemma {:induction false} SweepQuietly(st: State, j: nat, e: Event, i: nat)
    requires WellFormed(st) && j <= |st.links| && i < |st.links| && (e.ReloadEvent? || e.StopEvent?)
    requires e.StopEvent? || |e.started| == |st.links|
    requires j <= i ==> st.links[i].phase == Up && st.links[i].active
    ensures var o := Sweep(st, j, e);
            if j <= i then Quietly(st, o, i)
            else i < |o.st.links| == |st.links| && o.st.links[i] == st.links[i] && Messages(o.sent, i) == []
    decreases |st.links| - j
  {
    hide SweepStep, Messages;
    if j < |st.links| {
      var r := SweepStep(st, j, e);
      var o := Update(st, j, r);
      var rest := Sweep(o.st, j + 1, e);
      if j == i {
        SweepKeepsUp(st, i, e);
      }
      if j <= i {
        UpdateQuietly(st, j, r, i);
      } else {
        MessagesOfOthers(o.sent, i);
      }
      SweepQuietly(o.st, j + 1, e, i);
      MessagesAppend(o.sent, rest.sent, i);
    } else {
      NoMessages(i);
    }
  }

  lemma NoMessages(i: nat)
    ensures Messages([], i) == []
  {
  }

  /** The bytes an event brings on the connection of link `i`. */
  function DataFor(e: Event, i: nat): string {
    if e.ReceiveEvent? && e.link == i then e.data else ""
  }

  /** Unless it is dropped, link `i` stays up and hears what `data` completes. */
  ghost predicate Hearing(st: State, o: Outcome, i: nat, data: string) {
    && i < |st.links| == |o.st.links|
    && (Dropped(o.sent, i) ||
        var fed := Feed(st.links[i].rx, data);
        o.st.links[i].phase == Up && o.st.links[i].rx == fed.buf && Messages(o.sent, i) == DispatchAll(fed.lines))
  }

  lemma QuietHearing(st: State, o: Outcome, i: nat)
    requires Quietly(st, o, i)
    ensures Hearing(st, o, i, "")
  {
    hide Messages, Dropped;
  }

  lemma NothingDone(st: State, next: State, i: nat)
    requires i < |st.links| && next.links == st.links && st.links[i].phase == Up
    ensures Quietly(st, Outcome(next, []), i)
  {
  }

  lemma ReceiveHearing(st: State, i: nat, data: string, now: real)
    requires WellFormed(st) && i < |st.links| && st.links[i].phase == Up
    ensures Hearing(st, Update(st, i, BytesReceived(st.cfg, st.cfg.links[i].role, st.links[i], data, now)), i, data)
  {
    hide BytesReceived, Feed, DispatchAll, Messages;
    UpBytes(st.cfg, st.cfg.links[i].role, st.links[i], data, now);
    MessagesHeard(DispatchAll(Feed(st.links[i].rx, data).lines), i);
  }

  lemma StepHearing(st: State, e: Event, i: nat)
    requires Ok(st) && Possible(st, e) && i < |st.links| && st.links[i].phase == Up
    ensures Hearing(st, Step(st, e), i, DataFor(e, i))
  {
    hide LinkOk, Unique, ConnectFinished, BytesReceived, Teardown, ReconnectFired, KeepaliveFired, Accepted, Sweep,
         KeepsUp, Quietly, Hearing, QuestionLid, QuestionSync, Messages, Feed;
    assert StageOk(st.stage, st.cfg.links[i], st.links[i]);
    OpenLink(st.cfg.links[i].role, st.links[i]);
    if e.ReceiveEvent? && e.link == i {
      ReceiveHearing(st, i, e.data, e.now);
    } else {
      StepQuietly(st, e, i);
      QuietHearing(st, Step(st, e), i);
    }
  }

  lemma StepQuietly(st: State, e: Event, i: nat)
    requires Ok(st) && Possible(st, e) && i < |st.links| && st.links[i].phase == Up
    requires st.links[i].active && !st.links[i].reconnect.At? && !(e.ReceiveEvent? && e.link == i)
    ensures Quietly(st, Step(st, e), i)
  {
    hide LinkOk, Unique, ConnectFinished, BytesReceived, Teardown, ReconnectFired, KeepaliveFired, Accepted, Sweep,
         KeepsUp, Quietly, QuestionLid, QuestionSync, Messages, StageOk;
    var lk := st.links[i];
    match e {
      case StartEvent(_, _) => assert StageOk(st.stage, st.cfg.links[i], lk);
        BuiltIsDown(st.cfg.links[i], lk);
      case ConnectEvent(j, ok, sync, now) => UpdateQuietly(st, j, ConnectFinished(st.links[j], ok, sync, now), i);
      case ReceiveEvent(j, data, now) =>
        UpdateQuietly(st, j, BytesReceived(st.cfg, st.cfg.links[j].role, st.links[j], data, now), i);
      case ClosedEvent(j, now) =>
        TimerKeepsUp(st.cfg, st.cfg.links[i].role, lk, now);
        UpdateQuietly(st, j, Teardown(st.cfg.links[j].role, st.links[j], now), i);
      case ReconnectEvent(j, ready, now) => UpdateQuietly(st, j, ReconnectFired(st.links[j], ready, now), i);
      case KeepaliveTimerEvent(j, now) =>
        TimerKeepsUp(st.cfg, st.cfg.links[i].role, lk, now);
        UpdateQuietly(st, j, KeepaliveFired(st.cfg, st.cfg.links[j].role, st.links[j], now), i);
      case KeepaliveEvent(ssrc, ip, now) => KeepaliveQuietly(st, ssrc, ip, now, i);
      case VoiceEvent(ssrc, ip, payload, _) => VoiceQuietly(st, ssrc, ip, payload, i);
      case QuestionEvent(ip, question, now) =>
        QuestionQuietly(st, ip, QuestionLid(question), QuestionSync(question), now, i);
      case ReloadEvent(enabled, _, _) =>
        var t := st.(cfg := st.cfg.(links := Toggled(st.cfg.links, enabled)));
        SweepQuietly(t, 0, e, i);
        SameBefore(st, t, Sweep(t, 0, e), i);
      case StopEvent(_) =>
        SweepQuietly(st.(stage := Finished), 0, e, i);
        SameBefore(st, st.(stage := Finished), Sweep(st.(stage := Finished), 0, e), i);
    }
  }

  lemma BuiltIsDown(l: LinkCfg, lk: Link)
    requires StageOk(Built, l, lk)
    ensures lk.phase == Down
  {
  }

  lemma SameBefore(st: State, t: State, o: Outcome, i: nat)
    requires t.links == st.links && Quietly(t, o, i)
    ensures Quietly(st, o, i)
  {
  }

  lemma KeepaliveQuietly(st: State, ssrc: nat, ip: string, now: real, i: nat)
    requires WellFormed(st) && i < |st.links| && st.links[i].phase == Up
    ensures Quietly(st, OnKeepalive(st, ssrc, ip, now), i)
  {
    hide Quietly;
    var j := FindBySync(st.links, ssrc, 0);
    NothingDone(st, st, i);
    if j >= 0 {
      UpdateQuietly(st, j, Result(st.links[j].(lastHeard := now), [KeepaliveReflected(ssrc)]), i);
    }
  }

  lemma VoiceQuietly(st: State, ssrc: nat, ip: string, payload: Payload, i: nat)
    requires WellFormed(st) && i < |st.links| && st.links[i].phase == Up
    ensures Quietly(st, OnVoice(st, ssrc, ip, payload), i)
  {
    hide Quietly;
    var j := FindBySync(st.links, ssrc, 0);
    NothingDone(st, st, i);
    if j >= 0 {
      UpdateQuietly(st, j, Result(st.links[j], [VoicePassed(payload)]), i);
      assert st.links[j := st.links[j]] == st.links;
    }
  }

  lemma QuestionQuietly(st: State, ip: string, lid: int, sync: nat, now: real, i: nat)
    requires WellFormed(st) && i < |st.links| && st.links[i].phase == Up
    ensures Quietly(st, OnQuestion(st, ip, lid, sync, now), i)
  {
    hide Quietly, Accepted, KeepsUp;
    var m := MatchInbound(st.cfg.links, ip, lid, 0);
    NothingDone(st, st, i);
    if m >= 0 {
      AcceptKeepsUp(st.cfg, st.links[i], sync, now);
      UpdateQuietly(st, m, Accepted(st.cfg, st.links[m], sync, now), i);
    }
  }

  // ---------- Whole runs ----------

  /** All the bytes a run brings on the connection of link `i`, in whatever pieces. */
  function BytesFor(events: seq<Event>, i: nat): string {
    if events == [] then "" else DataFor(events[0], i) + BytesFor(events[1..], i)
  }

  lemma HearingThen(st: State, a: Outcome, b: Outcome, i: nat, data: string, more: string)
    requires Hearing(st, a, i, data) && Hearing(a.st, b, i, more)
    ensures Hearing(st, Outcome(b.st, a.sent + b.sent), i, data + more)
  {
    hide Messages, DispatchAll, Feed;
    MessagesAppend(a.sent, b.sent, i);
    if !Dropped(a.sent + b.sent, i) {
      assert !Dropped(a.sent, i) && !Dropped(b.sent, i);
      FeedAppend(st.links[i].rx, data, more);
      AllDispatched(Feed(st.links[i].rx, data).lines, Feed(a.st.links[i].rx, more).lines);
    }
  }

  lemma AllDispatched(lines: seq<string>, more: seq<string>)
    ensures DispatchAll(lines + more) == DispatchAll(lines) + DispatchAll(more)
  {
    hide Dispatch;
  }

  lemma {:induction false} RunHearing(st: State, events: seq<Event>, i: nat)
    requires Ok(st) && Feasible(st, events) && i < |st.links| && st.links[i].phase == Up
    ensures Hearing(st, Run(st, events), i, BytesFor(events, i))
    decreases |events|
  {
    hide Step, Possible, StageOk, Unique, Messages, DataFor, Feed, DispatchAll;
    if events == [] {
      NothingDone(st, st, i);
      QuietHearing(st, Run(st, events), i);
    } else {
      var first := Step(st, events[0]);
      StepKeeps(st, events[0]);
      StepHearing(st, events[0], i);
      if Dropped(first.sent, i) {
        assert Dropped(Run(st, events).sent, i);
        RunLength(st, events);
      } else {
        RunHearing(first.st, events[1..], i);
        HearingThen(st, first, Run(first.st, events[1..]), i, DataFor(events[0], i), BytesFor(events[1..], i));
      }
    }
  }

  lemma RunLength(st: State, events: seq<Event>)
    requires Ok(st) && Feasible(st, events)
    ensures |Run(st, events).st.links| == |st.links|
  {
    hide Run, Feasible, Ok;
    RunAccounts(st, events);
  }

  /** In every run: signals sent to a link that is up, in whatever pieces and among
      whatever else happens on this link and the others, are heard exactly as they are
      meant if and only if every B-on has a LID from -9 to 99, as long as the link is
      not dropped meanwhile. */
  lemma SignalsAreHeard(cfg: MuxCfg, past: seq<Event>, events: seq<Event>, i: nat, signals: seq<Signal>)
    requires Feasible(Unstarted(cfg), past) && Feasible(Run(Unstarted(cfg), past).st, events)
    requires var st := Run(Unstarted(cfg), past).st;
             i < |st.links| && st.links[i].phase == Up && st.links[i].rx == "" && !Dropped(Run(st, events).sent, i)
    requires AllSendable(signals) && BytesFor(events, i) == Stream(signals)
    ensures var o := Run(Run(Unstarted(cfg), past).st, events);
            && i < |o.st.links| && o.st.links[i].phase == Up && o.st.links[i].rx == ""
            && (Messages(o.sent, i) == Meanings(signals) <==> AllReadable(signals))
  {
    hide Run, Feasible, Ok, Messages, DispatchAll, Meanings, AllReadable, BytesFor, Stream, Feed, AllSendable, Dropped;
    UnstartedOk(cfg);
    RunOk(Unstarted(cfg), past);
    var st := Run(Unstarted(cfg), past).st;
    RunHearing(st, events, i);
    StreamLines(signals);
    MeaningsArrive(signals);
  }

  /** Bytes on a link that is down or connecting only fill its buffer. */
  lemma {:induction false} BytesIgnored(cfg: MuxCfg, role: Role, lk: Link, data: string, now: real)
    requires lk.phase == Down || lk.phase == Connecting
    ensures var r := BytesReceived(cfg, role, lk, data, now); r.outs == [] && r.link == lk.(rx := Feed(lk.rx, data).buf)
    decreases |data|
  {
    hide Stored, Line;
    if data != "" {
      BytesIgnored(cfg, role, lk, data[..|data| - 1], now);
    }
  }

  // ---------- The handshake ----------

  /** What a bridge tells about itself; the texts are single lines. */
  datatype Site = Site(name: string, os: string, version: string, channel: string, mac: string, revision: string)

  predicate Tellable(site: Site) {
    IsLine(site.name) && IsLine(site.os) && IsLine(site.version) && IsLine(site.channel) && IsLine(site.mac)
    && IsLine(site.revision)
  }

  function QuestionLines(sync: nat, lid: int, site: Site): (q: seq<string>)
    ensures |q| == 8
  {
    [Hex(sync), Padded(lid, 0) + " ", site.channel, site.name, "Server Inbound", site.mac, site.revision, site.os]
  }

  function AnswerLines(sec: int, usec: int, site: Site): (a: seq<string>)
    ensures |a| == 7
  {
    ["AMBE", Padded(60, 0), Padded(sec, 0) + " " + Padded(usec, 0), site.version, site.name, "0", site.os]
  }

  lemma {:induction false} HexLength(n: nat, k: nat)
    requires k >= 1 && n < Pow16(k)
    ensures |Hex(n)| <= k
  {
    if n >= 16 {
      HexLength(n / 16, k - 1);
    }
  }

  lemma ClippedKeeps(s: string)
    requires |s| <= 255 && Avoids(s, '\0')
    ensures Clipped(s) == s
  {
    NoNul(s);
  }

  /** A Question tells its reader the sync source and the LID it was built from. */
  lemma QuestionIsRead(sync: nat, lid: int, site: Site)
    requires sync < 0x1_0000_0000 && IsInt32(lid)
    ensures QuestionSync(QuestionLines(sync, lid, site)) == sync && QuestionLid(QuestionLines(sync, lid, site)) == lid
  {
    hide Hex, Padded, Clipped, StrToHex32;
    assert Pow16(4) == 65536;
    assert Pow16(8) == 0x1_0000_0000;
    HexLength(sync, 8);
    HexReads(sync);
    ClippedKeeps(Hex(sync));
    HexRoundTrip(sync);
    PaddedIsNumeric(lid, 0);
    PaddedLength(lid, 0);
    ClippedKeeps(Padded(lid, 0) + " ");
    ScanPadded(lid, 0, " ");
  }

  /** An Answer is accepted. */
  lemma AnswerIsAccepted(sec: int, usec: int, site: Site, answer: seq<string>)
    requires |answer| >= 2 && answer[0] == Clipped(AnswerLines(sec, usec, site)[0])
    requires answer[1] == Clipped(AnswerLines(sec, usec, site)[1])
    ensures AnswerAccepted(answer)
  {
    hide Padded, Clipped;
    ClippedKeeps("AMBE");
    PaddedIsNumeric(60, 0);
    PaddedLength(60, 0);
    ClippedKeeps(Padded(60, 0));
    AtoiPadded(60, 0);
  }

  predicate IsLong(v: int) {
    -0x8000_0000_0000_0000 <= v < 0x8000_0000_0000_0000
  }

  lemma LongLength(v: int)
    requires IsLong(v)
    ensures |Padded(v, 0)| <= 20
  {
    hide Decimal;
    assert Pow10(10) == 10000000000;
    assert Pow10(19) == 10000000000000000000;
    DecimalLength(if v < 0 then -v else v, 19);
  }

  lemma AnswerIsLines(sec: int, usec: int, site: Site)
    requires Tellable(site) && IsLong(sec) && IsLong(usec)
    ensures forall k :: 0 <= k < 7 ==> IsLine(AnswerLines(sec, usec, site)[k])
  {
    hide Padded;
    PaddedIsNumeric(60, 0);
    PaddedLength(60, 0);
    PaddedIsNumeric(sec, 0);
    LongLength(sec);
    PaddedIsNumeric(usec, 0);
    LongLength(usec);
  }

  function AllClipped(lines: seq<string>): seq<string> {
    seq(|lines|, k requires 0 <= k < |lines| => Clipped(lines[k]))
  }

  /** Six lines of an Answer are only collected. */
  lemma {:induction false} LinesCollected(cfg: MuxCfg, role: Role, lk: Link, lines: seq<string>, now: real)
    requires lk.phase == Handshaking && lk.answer == [] && |lines| < 7
    ensures LinesReceived(cfg, role, lk, lines, now) == Result(lk.(answer := AllClipped(lines)), [])
  {
    hide Clipped, FinishHandshake;
    if lines != [] {
      var n := |lines| - 1;
      LinesCollected(cfg, role, lk, lines[..n], now);
      assert AllClipped(lines) == AllClipped(lines[..n]) + [Clipped(lines[n])];
      assert [] + LineReceived(cfg, role, lk.(answer := AllClipped(lines[..n])), lines[n], now).outs == [];
    } else {
      assert AllClipped(lines) == [];
    }
  }

  /** The seventh decides. */
  lemma AnswerDecides(cfg: MuxCfg, role: Role, lk: Link, lines: seq<string>, now: real)
    requires lk.phase == Handshaking && lk.answer == [] && |lines| == 7
    ensures LinesReceived(cfg, role, lk, lines, now)
            == FinishHandshake(cfg, role, lk.(answer := AllClipped(lines)), now)
  {
    hide Clipped, AnswerAccepted;
    var n := 6;
    LinesCollected(cfg, role, lk, lines[..n], now);
    assert AllClipped(lines) == AllClipped(lines[..n]) + [Clipped(lines[n])];
    var s := LineReceived(cfg, role, lk.(answer := AllClipped(lines[..n])), lines[n], now);
    assert [] + s.outs == s.outs;
  }

  /** What is kept of a line: a prefix of it without NUL, which is shorter than 255
      characters only if the line or its C string is. */
  lemma ClippedIsKept(line: string)
    ensures var c := Clipped(line);
            c <= line && Avoids(c, '\0') && |c| <= 255 && (|c| < 255 && |c| < |line| ==> line[|c|] == '\0')
  {
    hide CString;
    UpToNul(line);
  }

  lemma {:induction false} UpToNul(line: string)
    ensures var c := CString(line); c <= line && Avoids(c, '\0') && (|c| < |line| ==> line[|c|] == '\0')
  {
    if line != "" && line[0] != '\0' {
      UpToNul(line[1..]);
    }
  }

  /** Two lines of an Answer are looked at: the codec and the frame length. */
  predicate Agreeable(lines: seq<string>)
    requires |lines| == 7
  {
    Clipped(lines[0]) == "AMBE" && Atoi(Clipped(lines[1])) == 60
  }

  /** Seven lines end a handshake.  The link comes up, its keepalive timer set, if the
      first says AMBE and the second 60; otherwise it goes down, without its source, and
      an active outbound link tries again in five seconds.  The rest does not matter. */
  lemma SevenLinesDecide(cfg: MuxCfg, role: Role, lk: Link, lines: seq<string>, now: real)
    requires lk.phase == Handshaking && lk.answer == [] && lk.rx == ""
    requires |lines| == 7 && forall k :: 0 <= k < 7 ==> IsLine(lines[k])
    ensures var r := BytesReceived(cfg, role, lk, Joined(lines), now);
            if Agreeable(lines) then
              r.outs == [LinkUp]
              && r.link == lk.(phase := Up, lastHeard := now, keepalive := At(now + cfg.interval))
            else
              r.outs == [] && r.link.phase == Down && !r.link.hasSync && r.link.keepalive == Off
              && r.link.reconnect == if role == Outbound && lk.active then At(now + 5.0) else lk.reconnect
  {
    hide BytesReceived, LinesReceived, Feed, Joined, Clipped, IsLine, Atoi;
    LinesArrive(lines);
    BytesAreLines(cfg, role, lk, Joined(lines), now);
    AnswerDecides(cfg, role, lk, lines, now);
  }

  /** Fewer lines leave it waiting. */
  lemma FewerLinesWait(cfg: MuxCfg, role: Role, lk: Link, lines: seq<string>, now: real)
    requires lk.phase == Handshaking && lk.answer == [] && lk.rx == ""
    requires |lines| < 7 && forall k :: 0 <= k < |lines| ==> IsLine(lines[k])
    ensures var r := BytesReceived(cfg, role, lk, Joined(lines), now);
            r.outs == [] && r.link.phase == Handshaking && r.link.sync == lk.sync && r.link.hasSync == lk.hasSync
  {
    hide BytesReceived, LinesReceived, Feed, Joined, Clipped, IsLine;
    LinesArrive(lines);
    BytesAreLines(cfg, role, lk, Joined(lines), now);
    LinesCollected(cfg, role, lk, lines, now);
  }

  lemma QuestionIsLines(sync: nat, lid: int, site: Site)
    requires sync < 0x1_0000_0000 && IsInt32(lid) && Tellable(site)
    ensures forall k :: 0 <= k < 8 ==> IsLine(QuestionLines(sync, lid, site)[k])
  {
    hide Padded, Hex;
    HexIsLine(sync);
    PaddedIsNumeric(lid, 0);
    PaddedLength(lid, 0);
  }

  lemma HexIsLine(n: nat)
    requires n < 0x1_0000_0000
    ensures IsLine(Hex(n))
  {
    hide Hex;
    assert Pow16(4) == 65536;
    assert Pow16(8) == 0x1_0000_0000;
    HexLength(n, 8);
    HexReads(n);
    var s := Hex(n);
    assert IsHex(s[|s| - 1]);
  }

  /** The bytes of a Question arrive as eight lines, the first two of which tell source and
      LID, and the others the site, in this order. */
  lemma QuestionArrives(sync: nat, lid: int, site: Site)
    requires sync < 0x1_0000_0000 && IsInt32(lid) && Tellable(site)
    ensures var fed := Feed("", Joined(QuestionLines(sync, lid, site)));
            && fed.buf == "" && |fed.lines| == 8
            && QuestionSync(fed.lines) == sync && QuestionLid(fed.lines) == lid
            && fed.lines[2..] == [site.channel, site.name, "Server Inbound", site.mac, site.revision, site.os]
  {
    hide Feed, Joined, IsLine, Hex, Padded, QuestionSync, QuestionLid;
    QuestionIsLines(sync, lid, site);
    LinesArrive(QuestionLines(sync, lid, site));
    QuestionIsRead(sync, lid, site);
  }

  /** The bytes of an Answer bring the link up, with the source it asked with. */
  lemma AnswerBringsUp(cfg: MuxCfg, role: Role, lk: Link, sec: int, usec: int, site: Site, now: real)
    requires lk.phase == Handshaking && lk.answer == [] && lk.rx == ""
    requires Tellable(site) && IsLong(sec) && IsLong(usec)
    ensures var r := BytesReceived(cfg, role, lk, Joined(AnswerLines(sec, usec, site)), now);
            r.link == Armed(cfg, lk.(phase := Up), now) && r.outs == [LinkUp]
  {
    hide BytesReceived, LinesReceived, Feed, Joined, AnswerAccepted, Clipped, IsLine, Padded;
    var lines := AnswerLines(sec, usec, site);
    AnswerIsLines(sec, usec, site);
    LinesArrive(lines);
    BytesAreLines(cfg, role, lk, Joined(lines), now);
    AnswerDecides(cfg, role, lk, lines, now);
    AnswerIsAccepted(sec, usec, site, AllClipped(lines));
  }

  /** The multiplexer after an Answer has come in on link `i`. */
  function AfterAnswer(st: State, i: nat, sec: int, usec: int, site: Site, now: real): (next: State)
    requires WellFormed(st) && st.stage == Running && i < |st.links|
    ensures WellFormed(next)
  {
    Step(st, ReceiveEvent(i, Joined(AnswerLines(sec, usec, site)), now)).st
  }

  /** The multiplexer after a Question has come in from `ip`. */
  function AfterQuestion(st: State, ip: string, sync: nat, lid: int, site: Site, now: real): (next: State)
    requires WellFormed(st) && st.stage == Running
    ensures WellFormed(next)
  {
    Step(st, QuestionEvent(ip, QuestionLines(sync, lid, site), now)).st
  }

  /** Link `i` is up and is the one found by this source. */
  predicate UpUnder(st: State, i: nat, sync: nat) {
    i < |st.links| && st.links[i].phase == Up && FindBySync(st.links, sync, 0) == i
  }

  lemma AnswerHolds(a: State, i: nat, sec: int, usec: int, site: Site, now: real)
    requires Ok(a) && a.stage == Running && i < |a.links| && a.links[i].phase == Handshaking
    requires a.links[i].answer == [] && a.links[i].rx == "" && Tellable(site) && IsLong(sec) && IsLong(usec)
    ensures UpUnder(AfterAnswer(a, i, sec, usec, site, now), i, a.links[i].sync)
  {
    hide BytesReceived, Joined, AnswerLines, Unique, LinkOk;
    assert a.links[i].hasSync by {
      assert StageOk(a.stage, a.cfg.links[i], a.links[i]);
      HandshakingHolds(a.cfg.links[i].role, a.links[i]);
    }
    StepKeeps(a, ReceiveEvent(i, Joined(AnswerLines(sec, usec, site)), now));
    AnswerBringsUp(a.cfg, a.cfg.links[i].role, a.links[i], sec, usec, site, now);
    LookupFindsTheHolder(AfterAnswer(a, i, sec, usec, site, now).links, i);
  }

  lemma QuestionHolds(b: State, m: nat, ip: string, sync: nat, lid: int, site: Site, now: real)
    requires Ok(b) && b.stage == Running && MatchInbound(b.cfg.links, ip, lid, 0) == m && IsInt32(lid)
    requires sync < 0x1_0000_0000
    requires FindBySync(b.links, sync, 0) < 0 || FindBySync(b.links, sync, 0) == m
    ensures UpUnder(AfterQuestion(b, ip, sync, lid, site, now), m, sync)
  {
    hide QuestionLid, QuestionSync, QuestionLines, Unique, Accepted, LinkOk;
    QuestionIsRead(sync, lid, site);
    StepKeeps(b, QuestionEvent(ip, QuestionLines(sync, lid, site), now));
    AcceptedHolds(b.cfg, b.links[m], sync, now);
    LookupFindsTheHolder(AfterQuestion(b, ip, sync, lid, site, now).links, m);
  }

  /** Two bridges connect: the Question one sends finds its link at the other and both
      links come up with the same source, so that each finds the packets of the other. */
  lemma BridgesConnect(a: State, i: nat, b: State, m: nat, ip: string, lid: int, site: Site, site': Site,
                       sec: int, usec: int, now: real, now': real)
    requires Ok(a) && a.stage == Running && i < |a.links| && a.links[i].phase == Handshaking
    requires a.links[i].answer == [] && a.links[i].rx == "" && a.links[i].sync < 0x1_0000_0000
    requires Ok(b) && b.stage == Running && MatchInbound(b.cfg.links, ip, lid, 0) == m && IsInt32(lid)
    requires FindBySync(b.links, a.links[i].sync, 0) < 0 || FindBySync(b.links, a.links[i].sync, 0) == m
    requires Tellable(site') && IsLong(sec) && IsLong(usec)
    ensures UpUnder(AfterQuestion(b, ip, a.links[i].sync, lid, site, now), m, a.links[i].sync)
    ensures UpUnder(AfterAnswer(a, i, sec, usec, site', now'), i, a.links[i].sync)
  {
    hide Ok, UpUnder, FindBySync, MatchInbound;
    QuestionHolds(b, m, ip, a.links[i].sync, lid, site, now);
    AnswerHolds(a, i, sec, usec, site', now');
  }

  lemma AcceptedHolds(cfg: MuxCfg, lk: Link, sync: nat, now: real)
    ensures var next := Accepted(cfg, lk, sync, now).link; next.phase == Up && next.hasSync && next.sync == sync
  {
  }

  lemma HandshakingHolds(role: Role, lk: Link)
    requires LinkOk(role, lk) && lk.phase == Handshaking
    ensures lk.hasSync
  {
  }
}
