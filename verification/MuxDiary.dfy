/** What can be told of a link from outside: the events of a run and what was sent for it. */
module MuxDiary {
  import opened LineChannel
  import opened MuxModel
  import opened MuxRuns
  import opened MuxTheorems
  import opened Signalling
  import opened Text

  // ---------- The diary ----------

  /** Whether the translator was last told that the link is up, the sync source last asked
      or answered with, when the link last came up or was heard, and when its keepalive
      timer was last set. */
  datatype Diary = Diary(up: bool, source: nat, heard: real, armed: real)

  const BLANK := Diary(false, 0, 0.0, 0.0)

  function OutsFor(sent: seq<Sent>, i: nat): seq<Out> {
    if sent == [] then []
    else OutsFor(sent[..|sent| - 1], i) + if sent[|sent| - 1].link == i then [sent[|sent| - 1].out] else []
  }

  /** The last of the notices decides. */
  function UpAfter(up: bool, outs: seq<Out>): bool {
    if outs == [] then up
    else match outs[|outs| - 1]
         case LinkUp => true
         case LinkDown => false
         case _ => UpAfter(up, outs[..|outs| - 1])
  }

  /** The source a Question was sent with, or an Answer given for. */
  function SourceAfter(source: nat, e: Event, outs: seq<Out>): nat {
    if e.ConnectEvent? && Question(e.sync) in outs then e.sync
    else if e.QuestionEvent? && Answer in outs && |e.question| > 0 then StrToHex32(Clipped(e.question[0]))
    else source
  }

  /** A keepalive with the source and from the address of the link. */
  predicate IsSignOfLife(e: Event, source: nat, ip: string) {
    e.KeepaliveEvent? && e.ssrc == source && e.ip == ip
  }

  function Written(d: Diary, e: Event, i: nat, ip: string, outs: seq<Out>): Diary {
    Diary(UpAfter(d.up, outs), SourceAfter(d.source, e, outs),
          if LinkUp in outs || (d.up && IsSignOfLife(e, d.source, ip)) then e.now else d.heard,
          if LinkUp in outs || (e.KeepaliveTimerEvent? && e.link == i) then e.now else d.armed)
  }

  /** The diary of link `i` after a run. */
  function DiaryOf(d: Diary, st: State, events: seq<Event>, i: nat): Diary
    requires WellFormed(st) && Feasible(st, events) && i < |st.cfg.links|
    decreases |events|
  {
    if events == [] then d
    else
      var o := Step(st, events[0]);
      StepTable(st, events[0]);
      DiaryOf(Written(d, events[0], i, st.cfg.links[i].remoteIp, OutsFor(o.sent, i)), o.st, events[1..], i)
  }

  lemma {:induction false} SweepTable(st: State, i: nat, e: Event)
    requires WellFormed(st) && i <= |st.links| && (e.StartEvent? || e.ReloadEvent? || e.StopEvent?)
    requires e.StopEvent? || |e.started| == |st.links|
    ensures Sweep(st, i, e).st.cfg == st.cfg
    decreases |st.links| - i
  {
  }

  /** Addresses stay as configured. */
  lemma StepTable(st: State, e: Event)
    requires WellFormed(st) && Possible(st, e)
    ensures |Step(st, e).st.cfg.links| == |st.cfg.links|
    ensures forall i: nat :: i < |st.cfg.links| ==> Step(st, e).st.cfg.links[i].remoteIp == st.cfg.links[i].remoteIp
  {
    hide BytesReceived, Sweep;
  }

  // ---------- One link ----------

  /** The record of a link bears the diary out. */
  predicate Borne(cfg: MuxCfg, lk: Link, d: Diary) {
    && (lk.phase == Up <==> d.up)
    && (lk.hasSync ==> lk.sync == d.source)
    && (lk.phase == Up ==> lk.lastHeard == d.heard && lk.keepalive == At(d.armed + cfg.interval))
  }

  /** What a step other than a keepalive does to these fields. */
  predicate Chronicled(cfg: MuxCfg, lk: Link, r: Result, e: Event, i: nat) {
    && (r.link.phase == Up <==> UpAfter(lk.phase == Up, r.outs))
    && (r.link.hasSync ==> r.link.sync == SourceAfter(lk.sync, e, r.outs)
                           && (lk.hasSync || SourceAfter(0, e, r.outs) == SourceAfter(1, e, r.outs)))
    && (r.link.phase == Up ==>
          if LinkUp in r.outs then r.link.lastHeard == e.now && r.link.keepalive == At(e.now + cfg.interval)
          else lk.phase == Up && r.link.lastHeard == lk.lastHeard
               && r.link.keepalive == if e.KeepaliveTimerEvent? && e.link == i then At(e.now + cfg.interval)
                                      else lk.keepalive)
  }

  lemma WrittenBorne(cfg: MuxCfg, lk: Link, r: Result, e: Event, i: nat, ip: string, d: Diary)
    requires Borne(cfg, lk, d) && Chronicled(cfg, lk, r, e, i) && !e.KeepaliveEvent?
    ensures Borne(cfg, r.link, Written(d, e, i, ip, r.outs))
  {
    hide UpAfter;
  }

  lemma UpAfterFew(up: bool)
    ensures UpAfter(up, []) == up
    ensures UpAfter(up, [LinkDown]) == false && UpAfter(up, [LinkUp]) == true
    ensures forall o: Out :: !o.LinkUp? && !o.LinkDown? ==> UpAfter(up, [o]) == up
    ensures forall o: Out :: UpAfter(up, [o, LinkDown]) == false
    ensures UpAfter(up, [Answer, LinkUp]) && UpAfter(up, [LinkDown, Answer, LinkUp])
  {
  }

  lemma TeardownChronicled(cfg: MuxCfg, role: Role, lk: Link, e: Event, i: nat)
    requires LinkOk(role, lk)
    ensures Chronicled(cfg, lk, Teardown(role, lk, e.now), e, i)
  {
    UpAfterFew(lk.phase == Up);
  }

  lemma StartChronicled(cfg: MuxCfg, lk: Link, started: bool, e: Event, i: nat)
    requires lk.phase == Down
    ensures Chronicled(cfg, lk, Result(StartConnect(lk, started, e.now), []), e, i)
    ensures Chronicled(cfg, lk, ReconnectFired(lk, started, e.now), e, i)
  {
    UpAfterFew(false);
  }

  lemma ConnectChronicled(cfg: MuxCfg, lk: Link, e: Event, i: nat)
    requires e.ConnectEvent? && lk.phase == Connecting && !lk.hasSync
    ensures Chronicled(cfg, lk, ConnectFinished(lk, e.ok, e.sync, e.now), e, i)
  {
    UpAfterFew(false);
    if e.ok {
      assert ConnectFinished(lk, e.ok, e.sync, e.now).outs[0] == Question(e.sync);
    }
  }

  lemma TimerChronicled(cfg: MuxCfg, role: Role, lk: Link, e: Event)
    requires e.KeepaliveTimerEvent? && LinkOk(role, lk) && lk.keepalive.At?
    ensures Chronicled(cfg, lk, KeepaliveFired(cfg, role, lk, e.now), e, e.link)
  {
    var o := KeepaliveSent(lk.sync);
    UpAfterFew(true);
    assert [o] + [LinkDown] == [o, LinkDown];
  }

  lemma AcceptChronicled(cfg: MuxCfg, lk: Link, e: Event, i: nat)
    requires e.QuestionEvent? && |e.question| == QUESTION_NFIELDS
    requires lk.phase != Down ==> lk.phase == Up
    ensures Chronicled(cfg, lk, Accepted(cfg, lk, QuestionSync(e.question), e.now), e, i)
  {
    hide StrToHex32, Clipped;
    var outs := Accepted(cfg, lk, QuestionSync(e.question), e.now).outs;
    UpAfterFew(lk.phase == Up);
    assert [] + [Answer, LinkUp] == [Answer, LinkUp];
    assert [LinkDown] + [Answer, LinkUp] == [LinkDown, Answer, LinkUp];
    assert outs[|outs| - 1] == LinkUp && outs[|outs| - 2] == Answer;
  }

  lemma {:induction false} UpAfterAppend(up: bool, outs: seq<Out>, more: seq<Out>)
    ensures UpAfter(up, outs + more) == UpAfter(UpAfter(up, outs), more)
  {
    if more == [] {
      assert outs + more == outs;
    } else {
      assert (outs + more)[..|outs + more| - 1] == outs + more[..|more| - 1];
      UpAfterAppend(up, outs, more[..|more| - 1]);
    }
  }

  lemma ThenChronicled(cfg: MuxCfg, lk: Link, r: Result, s: Result, e: Event, i: nat)
    requires e.ReceiveEvent? && Chronicled(cfg, lk, r, e, i) && Chronicled(cfg, r.link, s, e, i)
    ensures Chronicled(cfg, lk, Result(s.link, r.outs + s.outs), e, i)
  {
    hide UpAfter;
    UpAfterAppend(lk.phase == Up, r.outs, s.outs);
  }

  lemma LineChronicled(cfg: MuxCfg, role: Role, lk: Link, line: string, e: Event, i: nat)
    requires e.ReceiveEvent?
    ensures Chronicled(cfg, lk, LineReceived(cfg, role, lk, line, e.now), e, i)
  {
    hide AnswerAccepted, Clipped, Dispatch;
    UpAfterFew(lk.phase == Up);
  }

  lemma BufferChronicled(cfg: MuxCfg, lk: Link, rx: Buffered, r: Result, rx': Buffered, e: Event, i: nat)
    requires Chronicled(cfg, lk.(rx := rx), r, e, i)
    ensures Chronicled(cfg, lk, Result(r.link.(rx := rx'), r.outs), e, i)
  {
    hide UpAfter, SourceAfter;
  }

  lemma ByteChronicled(cfg: MuxCfg, role: Role, lk: Link, c: char, e: Event, i: nat)
    requires e.ReceiveEvent?
    ensures Chronicled(cfg, lk, ByteReceived(cfg, role, lk, c, e.now), e, i)
  {
    hide LineReceived, Chronicled, Stored, Line;
    var b := Stored(lk.rx, c);
    if c == '\n' {
      var r := LineReceived(cfg, role, lk.(rx := b), Line(b), e.now);
      LineChronicled(cfg, role, lk.(rx := b), Line(b), e, i);
      BufferChronicled(cfg, lk, b, r, "", e, i);
    } else {
      IdleChronicled(cfg, lk.(rx := b), e, i);
      BufferChronicled(cfg, lk, b, Result(lk.(rx := b), []), b, e, i);
    }
  }

  lemma IdleChronicled(cfg: MuxCfg, lk: Link, e: Event, i: nat)
    requires !(e.KeepaliveTimerEvent? && e.link == i)
    ensures Chronicled(cfg, lk, Result(lk, []), e, i)
  {
    UpAfterFew(lk.phase == Up);
  }

  lemma {:induction false} BytesChronicled(cfg: MuxCfg, role: Role, lk: Link, data: string, e: Event, i: nat)
    requires e.ReceiveEvent?
    ensures Chronicled(cfg, lk, BytesReceived(cfg, role, lk, data, e.now), e, i)
    decreases |data|
  {
    hide ByteReceived, Chronicled;
    if data == "" {
      IdleChronicled(cfg, lk, e, i);
    } else {
      var n := |data| - 1;
      var r := BytesReceived(cfg, role, lk, data[..n], e.now);
      BytesChronicled(cfg, role, lk, data[..n], e, i);
      ByteChronicled(cfg, role, r.link, data[n], e, i);
      ThenChronicled(cfg, lk, r, ByteReceived(cfg, role, r.link, data[n], e.now), e, i);
    }
  }

  lemma SweepChronicled(st: State, i: nat, e: Event)
    requires WellFormed(st) && i < |st.links| && (e.StartEvent? || e.ReloadEvent? || e.StopEvent?)
    requires e.StopEvent? || i < |e.started|
    requires LinkOk(st.cfg.links[i].role, st.links[i]) && (e.StartEvent? ==> st.links[i] == UNUSED)
    ensures Chronicled(st.cfg, st.links[i], SweepStep(st, i, e), e, i)
  {
    UpAfterFew(st.links[i].phase == Up);
  }

  // ---------- All links ----------

  lemma {:induction false} OutsForAppend(a: seq<Sent>, b: seq<Sent>, i: nat)
    ensures OutsFor(a + b, i) == OutsFor(a, i) + OutsFor(b, i)
  {
    if b == [] {
      assert a + b == a;
    } else {
      assert (a + b)[..|a + b| - 1] == a + b[..|b| - 1];
      OutsForAppend(a, b[..|b| - 1], i);
    }
  }

  lemma {:induction false} OutsForTagged(j: nat, outs: seq<Out>, i: nat)
    ensures OutsFor(Tagged(j, outs), i) == if i == j then outs else []
  {
    if outs != [] {
      var init := outs[..|outs| - 1];
      assert Tagged(j, outs)[..|outs| - 1] == Tagged(j, init);
      OutsForTagged(j, init, i);
      assert outs == init + [outs[|outs| - 1]];
    }
  }

  /** Link `i` in a step: `r` is its part. */
  ghost predicate PartOf(st: State, o: Outcome, i: nat, r: Result) {
    i < |st.links| == |o.st.links| && o.st.links[i] == r.link && OutsFor(o.sent, i) == r.outs
  }

  lemma UpdatePart(st: State, j: nat, r: Result, i: nat)
    requires j < |st.links| && i < |st.links|
    ensures PartOf(st, Update(st, j, r), i, if i == j then r else Result(st.links[i], []))
  {
    hide OutsFor;
    OutsForTagged(j, r.outs, i);
  }

  lemma {:induction false} SweepPart(st: State, j: nat, e: Event, i: nat)
    requires WellFormed(st) && j <= |st.links| && i < |st.links| && (e.StartEvent? || e.ReloadEvent? || e.StopEvent?)
    requires e.StopEvent? || |e.started| == |st.links|
    ensures PartOf(st, Sweep(st, j, e), i, if j <= i then SweepStep(st, i, e) else Result(st.links[i], []))
    decreases |st.links| - j
  {
    hide SweepStep, OutsFor;
    if j == |st.links| {
      NothingFor(i);
    } else {
      var r := SweepStep(st, j, e);
      var o := Update(st, j, r);
      UpdatePart(st, j, r, i);
      SweepPart(o.st, j + 1, e, i);
      OutsForAppend(o.sent, Sweep(o.st, j + 1, e).sent, i);
      if j < i {
        SameSweepStep(st, o.st, i, e);
      }
    }
  }

  lemma SameSweepStep(st: State, t: State, i: nat, e: Event)
    requires WellFormed(st) && WellFormed(t) && i < |st.links| == |t.links| && t.links[i] == st.links[i]
    requires t.cfg == st.cfg
    requires (e.StartEvent? || e.ReloadEvent? || e.StopEvent?) && (e.StopEvent? || i < |e.started|)
    ensures SweepStep(t, i, e) == SweepStep(st, i, e)
  {
  }

  lemma NothingFor(i: nat)
    ensures OutsFor([], i) == []
  {
  }

  /** Any step but a keepalive heard does to link `i` what its diary tells. */
  lemma StepChronicled(st: State, e: Event, i: nat) returns (r: Result)
    requires Ok(st) && Possible(st, e) && i < |st.links| && !e.KeepaliveEvent?
    ensures PartOf(st, Step(st, e), i, r) && Chronicled(st.cfg, st.links[i], r, e, i)
  {
    hide LinkOk, Unique, ConnectFinished, BytesReceived, Teardown, ReconnectFired, KeepaliveFired, Accepted, Sweep,
         Chronicled, PartOf, QuestionLid, QuestionSync, StageOk;
    var l, lk := st.cfg.links[i], st.links[i];
    r := Result(lk, []);
    assert StageOk(st.stage, l, lk);
    if !(e.KeepaliveTimerEvent? && e.link == i) {
      IdleChronicled(st.cfg, lk, e, i);
    }
    match e {
      case StartEvent(_, _) =>
        r := SweepStep(st.(stage := Running), i, e);
        StageAllows(st.stage, l, lk);
        SweepChronicled(st.(stage := Running), i, e);
        SweepPart(st.(stage := Running), 0, e, i);
        SamePart(st, st.(stage := Running), Sweep(st.(stage := Running), 0, e), i, r);
      case ConnectEvent(j, ok, sync, now) =>
        StageAllows(st.stage, l, lk);
        UpdatePart(st, j, ConnectFinished(st.links[j], ok, sync, now), i);
        if i == j {
          ConnectChronicled(st.cfg, lk, e, i);
          r := ConnectFinished(lk, ok, sync, now);
        }
      case ReceiveEvent(j, data, now) =>
        UpdatePart(st, j, BytesReceived(st.cfg, st.cfg.links[j].role, st.links[j], data, now), i);
        if i == j {
          BytesChronicled(st.cfg, l.role, lk, data, e, i);
          r := BytesReceived(st.cfg, l.role, lk, data, now);
        }
      case ClosedEvent(j, now) =>
        UpdatePart(st, j, Teardown(st.cfg.links[j].role, st.links[j], now), i);
        if i == j {
          StageAllows(st.stage, l, lk);
          TeardownChronicled(st.cfg, l.role, lk, e, i);
          r := Teardown(l.role, lk, now);
        }
      case ReconnectEvent(j, ready, now) =>
        UpdatePart(st, j, ReconnectFired(st.links[j], ready, now), i);
        if i == j {
          StageAllows(st.stage, l, lk);
          StartChronicled(st.cfg, lk, ready, e, i);
          r := ReconnectFired(lk, ready, now);
        }
      case KeepaliveTimerEvent(j, now) =>
        UpdatePart(st, j, KeepaliveFired(st.cfg, st.cfg.links[j].role, st.links[j], now), i);
        if i == j {
          StageAllows(st.stage, l, lk);
          TimerChronicled(st.cfg, l.role, lk, e);
          r := KeepaliveFired(st.cfg, l.role, lk, now);
        }
      case VoiceEvent(ssrc, ip, payload, _) => VoicePart(st, ssrc, ip, payload, e, i);
        r := Result(lk, OutsFor(Step(st, e).sent, i));
      case QuestionEvent(ip, question, now) => r := QuestionPart(st, e, i);
      case ReloadEvent(enabled, _, _) =>
        var t := st.(cfg := st.cfg.(links := Toggled(st.cfg.links, enabled)));
        r := SweepStep(t, i, e);
        StageAllows(st.stage, l, lk);
        SweepChronicled(t, i, e);
        SameInterval(st.cfg, t.cfg, lk, r, e, i);
        SweepPart(t, 0, e, i);
        SamePart(st, t, Sweep(t, 0, e), i, r);
      case StopEvent(_) =>
        r := SweepStep(st.(stage := Finished), i, e);
        StageAllows(st.stage, l, lk);
        SweepChronicled(st.(stage := Finished), i, e);
        SweepPart(st.(stage := Finished), 0, e, i);
        SamePart(st, st.(stage := Finished), Sweep(st.(stage := Finished), 0, e), i, r);
    }
  }

  lemma StageAllows(stage: Stage, l: LinkCfg, lk: Link)
    requires StageOk(stage, l, lk)
    ensures LinkOk(l.role, lk) && (stage == Built ==> lk == UNUSED)
    ensures lk.phase == Connecting ==> !lk.hasSync
    ensures lk.reconnect.At? ==> lk.phase == Down
    ensures l.role == Inbound && lk.phase != Down ==> lk.phase == Up
  {
  }

  lemma SamePart(st: State, t: State, o: Outcome, i: nat, r: Result)
    requires t.links == st.links && PartOf(t, o, i, r)
    ensures PartOf(st, o, i, r)
  {
  }

  lemma SameInterval(cfg: MuxCfg, cfg': MuxCfg, lk: Link, r: Result, e: Event, i: nat)
    requires Chronicled(cfg', lk, r, e, i) && cfg'.interval == cfg.interval
    ensures Chronicled(cfg, lk, r, e, i)
  {
    hide UpAfter, SourceAfter;
  }

  lemma VoicePart(st: State, ssrc: nat, ip: string, payload: Payload, e: Event, i: nat)
    requires WellFormed(st) && i < |st.links| && e.VoiceEvent?
    ensures var o := OnVoice(st, ssrc, ip, payload);
            var r := Result(st.links[i], OutsFor(o.sent, i));
            PartOf(st, o, i, r) && Chronicled(st.cfg, st.links[i], r, e, i)
  {
    hide OutsFor;
    UpAfterFew(st.links[i].phase == Up);
    NothingFor(i);
    var j := FindBySync(st.links, ssrc, 0);
    if j >= 0 {
      OutsForTagged(j, [VoicePassed(payload)], i);
    }
  }

  lemma QuestionPart(st: State, e: Event, i: nat) returns (r: Result)
    requires Ok(st) && Possible(st, e) && i < |st.links| && e.QuestionEvent?
    ensures PartOf(st, Step(st, e), i, r) && Chronicled(st.cfg, st.links[i], r, e, i)
  {
    hide LinkOk, Unique, Accepted, Chronicled, PartOf, QuestionLid, QuestionSync, StageOk;
    var lk := st.links[i];
    var sync := QuestionSync(e.question);
    var m, collider := MatchInbound(st.cfg.links, e.ip, QuestionLid(e.question), 0), FindBySync(st.links, sync, 0);
    r := Result(lk, []);
    IdleChronicled(st.cfg, lk, e, i);
    IdlePart(st, i);
    if m >= 0 && (collider < 0 || collider == m) {
      UpdatePart(st, m, Accepted(st.cfg, st.links[m], sync, e.now), i);
      if i == m {
        assert StageOk(st.stage, st.cfg.links[i], lk);
        StageAllows(st.stage, st.cfg.links[i], lk);
        AcceptChronicled(st.cfg, lk, e, i);
        r := Accepted(st.cfg, lk, sync, e.now);
      }
    }
  }

  lemma IdlePart(st: State, i: nat)
    requires i < |st.links|
    ensures PartOf(st, Outcome(st, []), i, Result(st.links[i], []))
  {
  }

  /** A keepalive is heard by the link that holds its source, when it comes from the
      address of that link. */
  lemma KeepaliveBorne(st: State, e: Event, i: nat, d: Diary)
    requires Ok(st) && Possible(st, e) && i < |st.links| && e.KeepaliveEvent? && Borne(st.cfg, st.links[i], d)
    ensures var o := Step(st, e);
            i < |o.st.links| && Borne(st.cfg, o.st.links[i],
                                      Written(d, e, i, st.cfg.links[i].remoteIp, OutsFor(o.sent, i)))
  {
    hide LinkOk, Unique, OutsFor;
    var lk, j := st.links[i], FindBySync(st.links, e.ssrc, 0);
    NothingFor(i);
    UpAfterFew(lk.phase == Up);
    assert StageOk(st.stage, st.cfg.links[i], lk);
    if lk.phase == Up {
      UpHolds(st.cfg.links[i].role, lk);
    }
    if lk.phase == Up && lk.sync == e.ssrc {
      LookupFindsTheHolder(st.links, i);
    }
    if j >= 0 {
      FindsFirst(st.links, e.ssrc, 0);
      OutsForTagged(j, [KeepaliveReflected(e.ssrc)], i);
    }
  }

  lemma UpHolds(role: Role, lk: Link)
    requires LinkOk(role, lk) && lk.phase == Up
    ensures lk.hasSync
  {
  }

  lemma StepBorne(st: State, e: Event, i: nat, d: Diary)
    requires Ok(st) && Possible(st, e) && i < |st.links| && Borne(st.cfg, st.links[i], d)
    ensures var o := Step(st, e);
            i < |o.st.links|
            && Borne(o.st.cfg, o.st.links[i], Written(d, e, i, st.cfg.links[i].remoteIp, OutsFor(o.sent, i)))
  {
    hide Step, Unique, StageOk, Chronicled, Written, OutsFor, Borne;
    StepInterval(st, e);
    if e.KeepaliveEvent? {
      KeepaliveBorne(st, e, i, d);
      BorneAt(st.cfg, Step(st, e).st.cfg, Step(st, e).st.links[i],
              Written(d, e, i, st.cfg.links[i].remoteIp, OutsFor(Step(st, e).sent, i)));
    } else {
      var r := StepChronicled(st, e, i);
      WrittenBorne(st.cfg, st.links[i], r, e, i, st.cfg.links[i].remoteIp, d);
      BorneAt(st.cfg, Step(st, e).st.cfg, r.link, Written(d, e, i, st.cfg.links[i].remoteIp, r.outs));
    }
  }

  lemma BorneAt(cfg: MuxCfg, cfg': MuxCfg, lk: Link, d: Diary)
    requires Borne(cfg, lk, d) && cfg'.interval == cfg.interval
    ensures Borne(cfg', lk, d)
  {
  }

  lemma StepInterval(st: State, e: Event)
    requires WellFormed(st) && Possible(st, e)
    ensures Step(st, e).st.cfg.interval == st.cfg.interval && Step(st, e).st.cfg.timeout == st.cfg.timeout
  {
    hide BytesReceived, Sweep;
  }

  lemma {:induction false} RunBorne(st: State, events: seq<Event>, i: nat, d: Diary)
    requires Ok(st) && Feasible(st, events) && i < |st.links| && Borne(st.cfg, st.links[i], d)
    ensures var end := Run(st, events).st;
            i < |end.links| && Borne(end.cfg, end.links[i], DiaryOf(d, st, events, i))
    decreases |events|
  {
    hide Step, Possible, StageOk, Unique, Borne, Written, OutsFor;
    if events != [] {
      var o := Step(st, events[0]);
      StepKeeps(st, events[0]);
      StepTable(st, events[0]);
      StepBorne(st, events[0], i, d);
      RunBorne(o.st, events[1..], i, Written(d, events[0], i, st.cfg.links[i].remoteIp, OutsFor(o.sent, i)));
    }
  }

  /** In every reachable state the diary of a link tells its record: whether it is up, the
      source it holds, and, while it is up, when it was last heard and when its keepalive
      timer is due. */
  lemma DiaryIsBorneOut(cfg: MuxCfg, events: seq<Event>, i: nat)
    requires Feasible(Unstarted(cfg), events) && i < |cfg.links|
    ensures var st, d := Run(Unstarted(cfg), events).st, DiaryOf(BLANK, Unstarted(cfg), events, i);
            i < |st.links| && Borne(st.cfg, st.links[i], d)
  {
    hide Run, Feasible, Unique, DiaryOf;
    UnstartedOk(cfg);
    RunBorne(Unstarted(cfg), events, i, BLANK);
  }

  // ---------- The watchdog ----------

  /** In every reachable state, when the keepalive timer of link `i` fires the link is up
      and sends a keepalive with its source; it goes down if and only if it came up and
      was last heard longer than the timeout ago, and otherwise its timer is set for an
      interval later. */
  lemma WatchdogDecides(cfg: MuxCfg, events: seq<Event>, i: nat, now: real)
    requires Feasible(Unstarted(cfg), events) && i < |cfg.links|
    requires Possible(Run(Unstarted(cfg), events).st, KeepaliveTimerEvent(i, now))
    ensures var st, d := Run(Unstarted(cfg), events).st, DiaryOf(BLANK, Unstarted(cfg), events, i);
            var o := Step(st, KeepaliveTimerEvent(i, now));
            && d.up && i < |o.st.links|
            && OutsFor(o.sent, i)
               == [KeepaliveSent(d.source)] + (if now - d.heard > st.cfg.timeout then [LinkDown] else [])
            && (o.st.links[i].phase == Down <==> now - d.heard > st.cfg.timeout)
            && (now - d.heard <= st.cfg.timeout ==>
                  o.st.links[i].phase == Up && o.st.links[i].keepalive == At(now + st.cfg.interval))
  {
    hide Run, Feasible, Unique, DiaryOf, OutsFor;
    UnstartedOk(cfg);
    RunOk(Unstarted(cfg), events);
    DiaryIsBorneOut(cfg, events, i);
    var st := Run(Unstarted(cfg), events).st;
    assert StageOk(st.stage, st.cfg.links[i], st.links[i]);
    UpdatePart(st, i, KeepaliveFired(st.cfg, st.cfg.links[i].role, st.links[i], now), i);
  }

  // ---------- Phases ----------

  /** The phase of link `i` after an event that is neither bytes, a Question nor its
      keepalive timer, from its phase `was`. */
  function Moved(l: LinkCfg, was: Phase, e: Event, i: nat): Phase
    requires e.StartEvent? || e.ReloadEvent? ==> i < |e.started|
    requires e.ReloadEvent? ==> i < |e.enabled|
  {
    match e
    case StartEvent(started, _) => if l.role == Outbound && l.enabled && started[i] then Connecting else Down
    case ConnectEvent(j, ok, _, _) => if i != j then was else if ok then Handshaking else Down
    case ClosedEvent(j, _) => if i == j then Down else was
    case ReconnectEvent(j, ready, _) => if i != j then was else if ready then Connecting else Down
    case ReloadEvent(enabled, started, _) =>
      if !enabled[i] then Down
      else if l.role == Outbound && !l.enabled then if started[i] then Connecting else Down
      else was
    case StopEvent(_) => Down
    case _ => was
  }

  predicate IsSweep(e: Event) {
    e.StartEvent? || e.ReloadEvent? || e.StopEvent?
  }

  lemma SweepMoves(st: State, l: LinkCfg, i: nat, e: Event)
    requires WellFormed(st) && i < |st.links| && IsSweep(e) && (e.StopEvent? || i < |e.started|)
    requires e.ReloadEvent? ==> i < |e.enabled| && st.cfg.links[i] == l.(enabled := e.enabled[i])
    requires !e.ReloadEvent? ==> st.cfg.links[i] == l
    requires LinkOk(l.role, st.links[i]) && (e.StartEvent? ==> st.links[i] == UNUSED)
    requires e.ReloadEvent? ==> st.links[i].active == l.enabled
    ensures SweepStep(st, i, e).link.phase == Moved(l, st.links[i].phase, e, i)
  {
  }

  lemma OneLinkMoves(l: LinkCfg, lk: Link, e: Event, i: nat)
    requires LinkOk(l.role, lk)
    ensures e.ConnectEvent? && e.link == i ==>
              var r := ConnectFinished(lk, e.ok, e.sync, e.now);
              r.link.phase == Moved(l, lk.phase, e, i) && r.outs == if e.ok then [Question(e.sync)] else []
    ensures e.ReconnectEvent? && e.link == i && lk.reconnect.At? ==>
              ReconnectFired(lk, e.ready, e.now).link.phase == Moved(l, lk.phase, e, i)
    ensures e.ClosedEvent? && e.link == i ==> Teardown(l.role, lk, e.now).link.phase == Moved(l, lk.phase, e, i)
  {
  }

  /** In every step: connecting begins when the socket could be had, at the start, at a
      reload that enables the link and when its reconnect timer fires; a connection made
      is followed by the Question with the new source and nothing else; and a link that
      fails, closes or is disabled is down. */
  lemma PhasesMove(st: State, e: Event, i: nat)
    requires Ok(st) && Possible(st, e) && i < |st.links|
    requires !e.ReceiveEvent? && !e.QuestionEvent? && !(e.KeepaliveTimerEvent? && e.link == i)
    ensures i < |Step(st, e).st.links|
    ensures Step(st, e).st.links[i].phase == Moved(st.cfg.links[i], st.links[i].phase, e, i)
    ensures e.ConnectEvent? && e.link == i ==> OutsFor(Step(st, e).sent, i) == if e.ok then [Question(e.sync)] else []
  {
    hide LinkOk, Unique, ConnectFinished, Teardown, ReconnectFired, KeepaliveFired, Sweep, SweepStep, StageOk, OutsFor,
         FindBySync;
    var l, lk := st.cfg.links[i], st.links[i];
    assert StageOk(st.stage, l, lk);
    StageAllows(st.stage, l, lk);
    OneLinkMoves(l, lk, e, i);
    match e {
      case StartEvent(_, _) =>
        SweepMoves(st.(stage := Running), l, i, e);
        SweepPart(st.(stage := Running), 0, e, i);
      case ConnectEvent(j, ok, sync, now) => UpdatePart(st, j, ConnectFinished(st.links[j], ok, sync, now), i);
      case ReloadEvent(enabled, _, _) =>
        var t := st.(cfg := st.cfg.(links := Toggled(st.cfg.links, enabled)));
        RunningIsEnabled(st.stage, l, lk);
        SweepMoves(t, l, i, e);
        SweepPart(t, 0, e, i);
      case StopEvent(_) =>
        SweepMoves(st.(stage := Finished), l, i, e);
        SweepPart(st.(stage := Finished), 0, e, i);
      case _ =>
    }
  }

  /** Nothing is buffered, neither bytes nor lines. */
  predicate IsFresh(lk: Link) {
    lk.rx == "" && lk.answer == []
  }

  /** A link that begins to connect, that a Question brings up, or that is dropped other
      than by a line, begins afresh. */
  predicate BeginsAfresh(lk: Link, next: Link, e: Event) {
    && (lk.phase != Connecting && next.phase == Connecting ==> IsFresh(next))
    && (e.QuestionEvent? && next != lk ==> IsFresh(next))
    && (!e.ReceiveEvent? && lk.phase in {Handshaking, Up} && next.phase == Down ==> IsFresh(next))
  }

  lemma OneLinkBegins(cfg: MuxCfg, role: Role, lk: Link, e: Event, ok: bool, sync: nat)
    requires LinkOk(role, lk)
    ensures !e.QuestionEvent? && lk.phase == Connecting
            ==> BeginsAfresh(lk, ConnectFinished(lk, ok, sync, e.now).link, e)
    ensures !e.QuestionEvent? ==> BeginsAfresh(lk, ReconnectFired(lk, ok, e.now).link, e)
    ensures !e.QuestionEvent? ==> BeginsAfresh(lk, Teardown(role, lk, e.now).link, e)
    ensures !e.QuestionEvent? ==> BeginsAfresh(lk, KeepaliveFired(cfg, role, lk, e.now).link, e)
    ensures BeginsAfresh(lk, Accepted(cfg, lk, sync, e.now).link, e)
  {
  }

  lemma {:induction false} BytesBegin(cfg: MuxCfg, role: Role, lk: Link, data: string, now: real)
    ensures BytesReceived(cfg, role, lk, data, now).link.phase == Connecting ==> lk.phase == Connecting
    decreases |data|
  {
    hide AnswerAccepted, Clipped, Dispatch, Stored, Line;
    if data != "" {
      BytesBegin(cfg, role, lk, data[..|data| - 1], now);
    }
  }

  lemma SweepBegins(st: State, i: nat, e: Event)
    requires WellFormed(st) && i < |st.links| && IsSweep(e) && (e.StopEvent? || i < |e.started|)
    requires LinkOk(st.cfg.links[i].role, st.links[i]) && (e.StartEvent? ==> st.links[i] == UNUSED)
    ensures BeginsAfresh(st.links[i], SweepStep(st, i, e).link, e)
  {
  }

  /** In every step. */
  lemma FreshStart(st: State, e: Event, i: nat)
    requires Ok(st) && Possible(st, e) && i < |st.links|
    ensures i < |Step(st, e).st.links| && BeginsAfresh(st.links[i], Step(st, e).st.links[i], e)
  {
    hide LinkOk, Unique, ConnectFinished, BytesReceived, Teardown, ReconnectFired, KeepaliveFired, Accepted, Sweep,
         SweepStep, QuestionLid, QuestionSync, StageOk, OutsFor, FindBySync, IsFresh;
    var l, lk := st.cfg.links[i], st.links[i];
    assert StageOk(st.stage, l, lk);
    StageAllows(st.stage, l, lk);
    match e {
      case StartEvent(_, _) =>
        SweepBegins(st.(stage := Running), i, e);
        SweepPart(st.(stage := Running), 0, e, i);
      case ConnectEvent(_, ok, sync, _) => OneLinkBegins(st.cfg, l.role, lk, e, ok, sync);
      case ReceiveEvent(_, data, now) => BytesBegin(st.cfg, l.role, lk, data, now);
      case ClosedEvent(_, _) => OneLinkBegins(st.cfg, l.role, lk, e, true, 0);
      case ReconnectEvent(_, ready, _) => OneLinkBegins(st.cfg, l.role, lk, e, ready, 0);
      case KeepaliveTimerEvent(_, _) => OneLinkBegins(st.cfg, l.role, lk, e, true, 0);
      case KeepaliveEvent(_, _, _) =>
      case VoiceEvent(_, _, _, _) =>
      case QuestionEvent(_, question, _) => OneLinkBegins(st.cfg, l.role, lk, e, true, QuestionSync(question));
      case ReloadEvent(enabled, _, _) =>
        var t := st.(cfg := st.cfg.(links := Toggled(st.cfg.links, enabled)));
        SweepBegins(t, i, e);
        SweepPart(t, 0, e, i);
      case StopEvent(_) =>
        SweepBegins(st.(stage := Finished), i, e);
        SweepPart(st.(stage := Finished), 0, e, i);
    }
  }

  lemma RunningIsEnabled(stage: Stage, l: LinkCfg, lk: Link)
    requires StageOk(stage, l, lk)
    ensures stage == Running ==> lk.active == l.enabled
  {
  }

  /** A link other than `i` holds the source. */
  predicate HeldElsewhere(links: seq<Link>, sync: nat, i: nat) {
    exists j: nat :: j < |links| && j != i && links[j].hasSync && links[j].sync == sync
  }

  /** In every step: a Question is answered by the link it matches, which comes up, after
      going down if it was up, unless another link holds its source; every other link,
      and every link if it matches none, does nothing. */
  lemma QuestionDecides(st: State, e: Event, i: nat)
    requires Ok(st) && Possible(st, e) && i < |st.links| && e.QuestionEvent?
    ensures var lk, outs := st.links[i], OutsFor(Step(st, e).sent, i);
            var wanted := MatchInbound(st.cfg.links, e.ip, QuestionLid(e.question), 0) == i
                          && !HeldElsewhere(st.links, QuestionSync(e.question), i);
            outs == if !wanted then [] else if lk.phase == Up then [LinkDown, Answer, LinkUp] else [Answer, LinkUp]
  {
    hide LinkOk, Accepted, QuestionLid, QuestionSync, StageOk, OutsFor;
    var lk, sync := st.links[i], QuestionSync(e.question);
    var m, k := MatchInbound(st.cfg.links, e.ip, QuestionLid(e.question), 0), FindBySync(st.links, sync, 0);
    NothingFor(i);
    if k >= 0 {
      FindsFirst(st.links, sync, 0);
    }
    if HeldElsewhere(st.links, sync, i) {
      var j: nat :| j < |st.links| && j != i && st.links[j].hasSync && st.links[j].sync == sync;
      LookupFindsTheHolder(st.links, j);
    } else if k >= 0 {
      assert k == i;
    }
    if m >= 0 && (k < 0 || k == m) {
      UpdatePart(st, m, Accepted(st.cfg, st.links[m], sync, e.now), i);
      if i == m {
        assert StageOk(st.stage, st.cfg.links[i], lk);
        StageAllows(st.stage, st.cfg.links[i], lk);
        AcceptedOuts(st.cfg, lk, sync, e.now);
      }
    }
  }

  lemma AcceptedOuts(cfg: MuxCfg, lk: Link, sync: nat, now: real)
    requires lk.phase == Down || lk.phase == Up
    ensures Accepted(cfg, lk, sync, now).outs == if lk.phase == Up then [LinkDown, Answer, LinkUp] else [Answer, LinkUp]
  {
    assert [LinkDown] + [Answer, LinkUp] == [LinkDown, Answer, LinkUp];
  }

  // ---------- The reconnect timer ----------

  /** What a step leaves of the reconnect timer of a link. */
  predicate Retries(lk: Link, next: Link, e: Event, i: nat) {
    next.reconnect.At? ==>
      next.reconnect
      == if lk.reconnect.At? && !(e.ReconnectEvent? && e.link == i) then lk.reconnect else At(e.now + 5.0)
  }

  lemma {:induction false} BytesRetry(cfg: MuxCfg, role: Role, lk: Link, data: string, e: Event, i: nat)
    requires e.ReceiveEvent? && LinkOk(role, lk)
    ensures Retries(lk, BytesReceived(cfg, role, lk, data, e.now).link, e, i)
    ensures var next := BytesReceived(cfg, role, lk, data, e.now).link;
            lk.reconnect.At? ==> next == lk.(rx := next.rx)
    decreases |data|
  {
    hide AnswerAccepted, Clipped, Dispatch;
    if data != "" {
      var n := |data| - 1;
      BytesRetry(cfg, role, lk, data[..n], e, i);
    }
  }

  lemma OthersRetry(cfg: MuxCfg, role: Role, lk: Link, ok: bool, sync: nat, e: Event, i: nat)
    requires LinkOk(role, lk) && !(e.ReconnectEvent? && e.link == i)
    ensures lk.phase != Down ==> Retries(lk, Teardown(role, lk, e.now).link, e, i)
    ensures lk.phase == Connecting ==> Retries(lk, ConnectFinished(lk, ok, sync, e.now).link, e, i)
    ensures Retries(lk, KeepaliveFired(cfg, role, lk, e.now).link, e, i)
    ensures role == Inbound ==> Retries(lk, Accepted(cfg, lk, sync, e.now).link, e, i)
  {
  }

  lemma FiredRetry(lk: Link, ready: bool, e: Event, i: nat)
    requires e.ReconnectEvent? && e.link == i
    ensures Retries(lk, ReconnectFired(lk, ready, e.now).link, e, i)
  {
  }

  lemma SweepRetry(st: State, i: nat, e: Event)
    requires WellFormed(st) && i < |st.links| && (e.StartEvent? || e.ReloadEvent? || e.StopEvent?)
    requires e.StopEvent? || i < |e.started|
    requires LinkOk(st.cfg.links[i].role, st.links[i]) && (e.StartEvent? ==> st.links[i] == UNUSED)
    ensures Retries(st.links[i], SweepStep(st, i, e).link, e, i)
  {
  }

  lemma QuestionRetry(st: State, e: Event, i: nat)
    requires Ok(st) && Possible(st, e) && i < |st.links| && e.QuestionEvent?
    ensures i < |Step(st, e).st.links| && Retries(st.links[i], Step(st, e).st.links[i], e, i)
  {
    hide LinkOk, Unique, Accepted, QuestionLid, QuestionSync, StageOk;
    var lk := st.links[i];
    assert StageOk(st.stage, st.cfg.links[i], lk);
    StageAllows(st.stage, st.cfg.links[i], lk);
    OthersRetry(st.cfg, st.cfg.links[i].role, lk, true, QuestionSync(e.question), e, i);
  }

  /** In every step: a pending reconnect of a link stays as it is until it fires, and one
      set anew is due five seconds after the event. */
  lemma ReconnectsInFive(st: State, e: Event, i: nat)
    requires Ok(st) && Possible(st, e) && i < |st.links|
    ensures i < |Step(st, e).st.links| && Retries(st.links[i], Step(st, e).st.links[i], e, i)
  {
    hide LinkOk, Unique, ConnectFinished, BytesReceived, Teardown, ReconnectFired, KeepaliveFired, Accepted, Sweep,
         QuestionLid, QuestionSync, StageOk, OutsFor, FindBySync;
    var l, lk := st.cfg.links[i], st.links[i];
    assert StageOk(st.stage, l, lk);
    StageAllows(st.stage, l, lk);
    match e {
      case StartEvent(_, _) =>
        SweepRetry(st.(stage := Running), i, e);
        SweepPart(st.(stage := Running), 0, e, i);
      case ConnectEvent(_, ok, sync, _) => OthersRetry(st.cfg, l.role, lk, ok, sync, e, i);
      case ReceiveEvent(_, data, _) => BytesRetry(st.cfg, l.role, lk, data, e, i);
      case ClosedEvent(_, _) => OthersRetry(st.cfg, l.role, lk, true, 0, e, i);
      case ReconnectEvent(j, ready, _) =>
        if i == j {
          FiredRetry(lk, ready, e, i);
        }
      case KeepaliveTimerEvent(_, _) => OthersRetry(st.cfg, l.role, lk, true, 0, e, i);
      case KeepaliveEvent(_, _, _) =>
      case VoiceEvent(_, _, _, _) =>
      case QuestionEvent(_, _, _) => QuestionRetry(st, e, i);
      case ReloadEvent(enabled, _, _) =>
        var t := st.(cfg := st.cfg.(links := Toggled(st.cfg.links, enabled)));
        SweepRetry(t, i, e);
        SweepPart(t, 0, e, i);
      case StopEvent(_) =>
        SweepRetry(st.(stage := Finished), i, e);
        SweepPart(st.(stage := Finished), 0, e, i);
    }
  }
}
