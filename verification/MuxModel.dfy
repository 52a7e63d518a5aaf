/** The CC-CC link multiplexer: connection states, timers and the table of sync
    sources (SSRC) that all links share. */
module MuxModel {
  import Bits
  import opened LineChannel
  import opened Signalling
  import opened Text

  datatype Role = Outbound | Inbound

  datatype Phase = Down | Connecting | Handshaking | Up

  datatype Timer = Off | At(when: real)

  /** Of these only `enabled` changes at a reload. */
  datatype LinkCfg = LinkCfg(role: Role, enabled: bool, remoteIp: string, lid: int)

  datatype MuxCfg = MuxCfg(links: seq<LinkCfg>, interval: real, timeout: real)

  datatype Link = Link(phase: Phase, active: bool, reconnect: Timer, keepalive: Timer, sync: nat, hasSync: bool,
                       lastHeard: real, rx: Buffered, answer: seq<string>)

  const UNUSED := Link(Down, false, Off, Off, 0, false, 0.0, "", [])

  /** The audio of a voice packet: 21 bytes. */
  type Payload = Bits.Bytes21

  /** Messages sent for a link, what the translator is told, and what is made of a line
      on an established link: the translator hears of a B-on and a B-off, the log of the
      rest. */
  datatype Out =
    | Question(sync: nat) | Answer | KeepaliveSent(sync: nat) | KeepaliveReflected(ssrc: nat)
    | LinkUp | LinkDown | Heard(msg: Message) | VoicePassed(payload: Payload)

  datatype Result = Result(link: Link, outs: seq<Out>)

  const RECONNECT_DELAY_S := 5.0
  const ANSWER_NFIELDS: nat := 7
  const QUESTION_NFIELDS: nat := 8

  // ---------- One link ----------

  function Teardown(role: Role, lk: Link, now: real): Result {
    Result(lk.(keepalive := Off, phase := Down, hasSync := false, rx := "", answer := [],
               reconnect := if role == Outbound && lk.active then At(now + RECONNECT_DELAY_S) else lk.reconnect),
           if lk.phase == Up then [LinkDown] else [])
  }

  /** `started` tells whether the socket could be created. */
  function StartConnect(lk: Link, started: bool, now: real): Link {
    var clean := lk.(rx := "", answer := [], hasSync := false);
    if started then clean.(phase := Connecting)
    else if lk.active then clean.(reconnect := At(now + RECONNECT_DELAY_S))
    else clean
  }

  function ReconnectFired(lk: Link, started: bool, now: real): Result {
    var quiet := lk.(reconnect := Off);
    Result(if lk.active then StartConnect(quiet, started, now) else quiet, [])
  }

  /** The connect attempt is over; `sync` was minted for it. */
  function ConnectFinished(lk: Link, ok: bool, sync: nat, now: real): Result {
    if ok then Result(lk.(phase := Handshaking, sync := sync, hasSync := true), [Question(sync)])
    else Result(lk.(phase := Down, reconnect := if lk.active then At(now + RECONNECT_DELAY_S) else lk.reconnect), [])
  }

  function Armed(cfg: MuxCfg, lk: Link, now: real): Link {
    lk.(lastHeard := now, keepalive := At(now + cfg.interval))
  }

  /** A handshake line as it is kept: a C string of at most 255 characters. */
  function Clipped(bytes: string): string {
    var line := CString(bytes);
    if |line| > 255 then line[..255] else line
  }

  /** Only the codec and the frame length of the Answer are checked. */
  predicate AnswerAccepted(answer: seq<string>)
    requires |answer| >= 2
  {
    answer[0] == "AMBE" && Atoi(answer[1]) == 60
  }

  function FinishHandshake(cfg: MuxCfg, role: Role, lk: Link, now: real): Result
    requires |lk.answer| >= 2
  {
    var done := lk.(answer := []);
    if AnswerAccepted(lk.answer) then Result(Armed(cfg, done.(phase := Up), now), [LinkUp])
    else Teardown(role, done, now)
  }

  /** A line on the connection: one of the Answer, or signalling. */
  function LineReceived(cfg: MuxCfg, role: Role, lk: Link, line: string, now: real): Result {
    if lk.phase == Up then Result(lk, [Heard(Dispatch(line))])
    else if lk.phase != Handshaking then Result(lk, [])
    else
      var answer := if |lk.answer| < ANSWER_NFIELDS then lk.answer + [Clipped(line)] else lk.answer;
      var next := lk.(answer := answer);
      if |answer| == ANSWER_NFIELDS then FinishHandshake(cfg, role, next, now) else Result(next, [])
  }

  /** One byte; a newline hands over the line before the buffer is emptied. */
  function ByteReceived(cfg: MuxCfg, role: Role, lk: Link, c: char, now: real): Result {
    var b := Stored(lk.rx, c);
    if c != '\n' then Result(lk.(rx := b), [])
    else
      var r := LineReceived(cfg, role, lk.(rx := b), Line(b), now);
      Result(r.link.(rx := ""), r.outs)
  }

  /** What a recv brought, byte by byte, whatever its lines do to the link. */
  function BytesReceived(cfg: MuxCfg, role: Role, lk: Link, data: string, now: real): Result
    decreases |data|
  {
    if data == "" then Result(lk, [])
    else
      var n := |data| - 1;
      var r := BytesReceived(cfg, role, lk, data[..n], now);
      var s := ByteReceived(cfg, role, r.link, data[n], now);
      Result(s.link, r.outs + s.outs)
  }

  function KeepaliveFired(cfg: MuxCfg, role: Role, lk: Link, now: real): Result {
    var quiet := lk.(keepalive := Off);
    if lk.phase != Up then Result(quiet, [])
    else if now - lk.lastHeard > cfg.timeout then
      var r := Teardown(role, quiet, now);
      Result(r.link, [KeepaliveSent(lk.sync)] + r.outs)
    else Result(quiet.(keepalive := At(now + cfg.interval)), [KeepaliveSent(lk.sync)])
  }

  /** A completed Question matched this inbound link. */
  function Accepted(cfg: MuxCfg, lk: Link, sync: nat, now: real): Result {
    var r := if lk.phase != Down then Teardown(Inbound, lk, now) else Result(lk, []);
    Result(Armed(cfg, r.link.(rx := "", answer := [], sync := sync, hasSync := true, phase := Up), now),
           r.outs + [Answer, LinkUp])
  }

  function Disabled(role: Role, lk: Link, now: real): Result {
    var idle := lk.(active := false, reconnect := if role == Outbound then Off else lk.reconnect);
    if lk.phase != Down then Teardown(role, idle, now) else Result(idle, [])
  }

  /** One turn of the reconcile loop. */
  function Reconciled(l: LinkCfg, lk: Link, started: bool, now: real): Result {
    if l.role == Outbound then
      if l.enabled && !lk.active then Result(StartConnect(lk.(active := true), started, now), [])
      else if !l.enabled && lk.active then Disabled(Outbound, lk, now)
      else Result(lk, [])
    else if l.enabled then Result(lk.(active := true), [])
    else Disabled(Inbound, lk, now)
  }

  function Started(l: LinkCfg, lk: Link, started: bool, now: real): Result {
    var mirrored := lk.(active := l.enabled);
    Result(if l.role == Outbound && l.enabled then StartConnect(mirrored, started, now) else mirrored, [])
  }

  function Stopped(role: Role, lk: Link, now: real): Result {
    var idle := lk.(active := false, reconnect := Off);
    if lk.phase != Down then Teardown(role, idle, now) else Result(idle, [])
  }

  // ---------- The table ----------

  /** First link holding this sync source, or -1. */
  function FindBySync(links: seq<Link>, sync: nat, i: nat): (k: int)
    requires i <= |links|
    ensures k == -1 || i <= k < |links|
    decreases |links| - i
  {
    if i == |links| then -1
    else if links[i].hasSync && links[i].sync == sync then i
    else FindBySync(links, sync, i + 1)
  }

  /** First enabled inbound link for this address and LID, or -1. */
  function MatchInbound(links: seq<LinkCfg>, ip: string, lid: int, i: nat): (k: int)
    requires i <= |links|
    ensures k == -1 || (i <= k < |links| && links[k].role == Inbound && links[k].enabled
                        && links[k].remoteIp == ip && links[k].lid == lid)
    decreases |links| - i
  {
    if i == |links| then -1
    else if links[i].role == Inbound && links[i].enabled && links[i].remoteIp == ip && links[i].lid == lid then i
    else MatchInbound(links, ip, lid, i + 1)
  }

  datatype Stage = Built | Running | Finished

  datatype State = State(cfg: MuxCfg, stage: Stage, links: seq<Link>)

  datatype Event =
    | StartEvent(started: seq<bool>, now: real)
    | ConnectEvent(link: nat, ok: bool, sync: nat, now: real)
    | ReceiveEvent(link: nat, data: string, now: real)
    | ClosedEvent(link: nat, now: real)
    | ReconnectEvent(link: nat, ready: bool, now: real)
    | KeepaliveTimerEvent(link: nat, now: real)
    | KeepaliveEvent(ssrc: nat, ip: string, now: real)
    | VoiceEvent(ssrc: nat, ip: string, payload: Payload, now: real)
    | QuestionEvent(ip: string, question: seq<string>, now: real)
    | ReloadEvent(enabled: seq<bool>, started: seq<bool>, now: real)
    | StopEvent(now: real)

  ghost predicate WellFormed(st: State) {
    |st.links| == |st.cfg.links|
  }

  /** Timers fire when pending, sockets speak when open, and a minted sync source
      is one no link holds. */
  ghost predicate Possible(st: State, e: Event) {
    match e
    case StartEvent(started, _) => st.stage == Built && |started| == |st.links|
    case ConnectEvent(i, ok, sync, _) =>
      st.stage == Running && i < |st.links| && st.links[i].phase == Connecting
      && (ok ==> FindBySync(st.links, sync, 0) < 0)
    case ReceiveEvent(i, _, _) => st.stage == Running && i < |st.links|
    case ClosedEvent(i, _) => st.stage == Running && i < |st.links| && st.links[i].phase in {Handshaking, Up}
    case ReconnectEvent(i, _, _) => st.stage == Running && i < |st.links| && st.links[i].reconnect.At?
    case KeepaliveTimerEvent(i, _) => st.stage == Running && i < |st.links| && st.links[i].keepalive.At?
    case KeepaliveEvent(_, _, _) => st.stage == Running
    case VoiceEvent(_, _, _, _) => st.stage == Running
    case QuestionEvent(_, question, _) => st.stage == Running && |question| == QUESTION_NFIELDS
    case ReloadEvent(enabled, started, _) => st.stage == Running && |enabled| == |started| == |st.links|
    case StopEvent(_) => st.stage == Running
  }

  datatype Sent = Sent(link: nat, out: Out)

  datatype Outcome = Outcome(st: State, sent: seq<Sent>)

  function Tagged(link: nat, outs: seq<Out>): (sent: seq<Sent>)
    ensures |sent| == |outs|
  {
    seq(|outs|, k requires 0 <= k < |outs| => Sent(link, outs[k]))
  }

  function Update(st: State, i: nat, r: Result): Outcome
    requires i < |st.links|
  {
    Outcome(st.(links := st.links[i := r.link]), Tagged(i, r.outs))
  }

  /** The sync source of a Question, its first line. */
  function QuestionSync(question: seq<string>): nat
    requires |question| == QUESTION_NFIELDS
  {
    StrToHex32(Clipped(question[0]))
  }

  /** The LID of a Question, its second line. */
  function QuestionLid(question: seq<string>): int
    requires |question| == QUESTION_NFIELDS
  {
    Atoi(Clipped(question[1]))
  }

  function OnQuestion(st: State, ip: string, lid: int, sync: nat, now: real): (o: Outcome)
    requires WellFormed(st)
    ensures WellFormed(o.st)
  {
    var m := MatchInbound(st.cfg.links, ip, lid, 0);
    if m < 0 then Outcome(st, [])
    else
      var collider := FindBySync(st.links, sync, 0);
      if collider >= 0 && collider != m then Outcome(st, [])
      else Update(st, m, Accepted(st.cfg, st.links[m], sync, now))
  }

  function OnKeepalive(st: State, ssrc: nat, ip: string, now: real): (o: Outcome)
    requires WellFormed(st)
    ensures WellFormed(o.st)
  {
    var i := FindBySync(st.links, ssrc, 0);
    if i < 0 || st.cfg.links[i].remoteIp != ip then Outcome(st, [])
    else Update(st, i, Result(st.links[i].(lastHeard := now), [KeepaliveReflected(ssrc)]))
  }

  function OnVoice(st: State, ssrc: nat, ip: string, payload: Payload): (o: Outcome)
    requires WellFormed(st)
    ensures WellFormed(o.st)
  {
    var i := FindBySync(st.links, ssrc, 0);
    if i < 0 || st.cfg.links[i].remoteIp != ip then Outcome(st, [])
    else Outcome(st, Tagged(i, [VoicePassed(payload)]))
  }

  function Toggled(links: seq<LinkCfg>, enabled: seq<bool>): (t: seq<LinkCfg>)
    requires |links| == |enabled|
    ensures |t| == |links|
  {
    seq(|links|, i requires 0 <= i < |links| => links[i].(enabled := enabled[i]))
  }

  /** What start, reload and stop do to link `i`. */
  function SweepStep(st: State, i: nat, e: Event): Result
    requires WellFormed(st) && i < |st.links|
    requires e.StartEvent? || e.ReloadEvent? || e.StopEvent?
    requires e.StopEvent? || i < |e.started|
  {
    match e
    case StartEvent(started, now) => Started(st.cfg.links[i], st.links[i], started[i], now)
    case ReloadEvent(_, started, now) => Reconciled(st.cfg.links[i], st.links[i], started[i], now)
    case StopEvent(now) => Stopped(st.cfg.links[i].role, st.links[i], now)
  }

  function Sweep(st: State, i: nat, e: Event): (o: Outcome)
    requires WellFormed(st) && i <= |st.links|
    requires e.StartEvent? || e.ReloadEvent? || e.StopEvent?
    requires e.StopEvent? || |e.started| == |st.links|
    ensures WellFormed(o.st) && o.st.cfg == st.cfg && o.st.stage == st.stage
    decreases |st.links| - i
  {
    if i == |st.links| then Outcome(st, [])
    else
      var o := Update(st, i, SweepStep(st, i, e));
      var rest := Sweep(o.st, i + 1, e);
      Outcome(rest.st, o.sent + rest.sent)
  }

  function Step(st: State, e: Event): (o: Outcome)
    requires WellFormed(st) && Possible(st, e)
    ensures WellFormed(o.st)
  {
    match e
    case StartEvent(_, _) => Sweep(st.(stage := Running), 0, e)
    case ConnectEvent(i, ok, sync, now) => Update(st, i, ConnectFinished(st.links[i], ok, sync, now))
    case ReceiveEvent(i, data, now) =>
      Update(st, i, BytesReceived(st.cfg, st.cfg.links[i].role, st.links[i], data, now))
    case ClosedEvent(i, now) => Update(st, i, Teardown(st.cfg.links[i].role, st.links[i], now))
    case ReconnectEvent(i, ready, now) => Update(st, i, ReconnectFired(st.links[i], ready, now))
    case KeepaliveTimerEvent(i, now) => Update(st, i, KeepaliveFired(st.cfg, st.cfg.links[i].role, st.links[i], now))
    case KeepaliveEvent(ssrc, ip, now) => OnKeepalive(st, ssrc, ip, now)
    case VoiceEvent(ssrc, ip, payload, _) => OnVoice(st, ssrc, ip, payload)
    case QuestionEvent(ip, question, now) => OnQuestion(st, ip, QuestionLid(question), QuestionSync(question), now)
    case ReloadEvent(enabled, _, _) =>
      Sweep(st.(cfg := st.cfg.(links := Toggled(st.cfg.links, enabled))), 0, e)
    case StopEvent(_) => Sweep(st.(stage := Finished), 0, e)
  }
}
