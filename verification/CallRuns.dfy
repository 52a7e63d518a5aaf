/** Whole runs of the translator, over all links and peers. */
module CallRuns {
  import opened CallModel
  import opened CallTheorems

  function Start(cfg: Config): State {
    State(cfg, seq(|cfg.links|, _ => LinkRuntime(false, NO_CALL, false)), seq(|cfg.peerEnabled|, _ => 0))
  }

  /** Every event names a configured link, and reloads only flip toggles. */
  ghost predicate Feasible(st: State, events: seq<Event>)
    requires WellFormed(st)
    decreases |events|
  {
    events == [] || (Possible(st, events[0]) && Feasible(Step(st, events[0]).st, events[1..]))
  }

  function Run(st: State, events: seq<Event>): (o: Outcome)
    requires WellFormed(st) && Feasible(st, events)
    ensures WellFormed(o.st) && Reloads(st.cfg, o.st.cfg)
    decreases |events|
  {
    if events == [] then Outcome(st, [])
    else
      var first := Step(st, events[0]);
      var rest := Run(first.st, events[1..]);
      Outcome(rest.st, first.sent + rest.sent)
  }

  // ---------- Projections ----------

  lemma {:induction false} LinkTraceAppend(a: seq<Sent>, b: seq<Sent>, i: nat)
    ensures LinkTrace(a + b, i) == LinkTrace(a, i) + LinkTrace(b, i)
  {
    if b == [] {
      assert a + b == a;
    } else {
      assert (a + b)[..|a + b| - 1] == a + b[..|b| - 1];
      LinkTraceAppend(a, b[..|b| - 1], i);
    }
  }

  lemma {:induction false} PeerTraceAppend(a: seq<Sent>, b: seq<Sent>, p: nat)
    ensures PeerTrace(a + b, p) == PeerTrace(a, p) + PeerTrace(b, p)
  {
    if b == [] {
      assert a + b == a;
    } else {
      assert (a + b)[..|a + b| - 1] == a + b[..|b| - 1];
      PeerTraceAppend(a, b[..|b| - 1], p);
    }
  }

  lemma {:induction false} TaggedLink(i: nat, outs: seq<Out>, j: nat)
    ensures LinkTrace(Tagged(i, outs), j) == if i == j then outs else []
  {
    if outs != [] {
      var init := outs[..|outs| - 1];
      assert Tagged(i, outs)[..|outs| - 1] == Tagged(i, init);
      TaggedLink(i, init, j);
      assert outs == init + [outs[|outs| - 1]];
    }
  }

  // ---------- Calls ----------

  /** On every link the trace is bracketed and the call record agrees with it. */
  ghost predicate Traced(st: State, trace: seq<Sent>) {
    && WellFormed(st)
    && forall i: nat :: i < |st.links| ==> LinkTraced(st.cfg.links[i], st.links[i], LinkTrace(trace, i))
  }

  ghost predicate LinkTraced(l: LinkConfig, rt: LinkRuntime, t: seq<Out>) {
    Bracketed(l, t) && Agrees(l, rt, Before(t, |t|))
  }

  lemma BracketedAppend(l: LinkConfig, t: seq<Out>, outs: seq<Out>)
    requires Bracketed(l, t) && Chain(l, Before(t, |t|), outs)
    ensures Bracketed(l, t + outs) && Before(t + outs, |t + outs|) == Last(Before(t, |t|), outs)
  {
    hide MayFollow;
    var u := t + outs;
    forall k: nat | k < |u| ensures MayFollow(l, Before(u, k), u[k]) {
      if k < |t| {
        assert Before(u, k) == Before(t, k) && u[k] == t[k];
        assert MayFollow(l, Before(t, k), t[k]);
      } else {
        assert u[k] == outs[k - |t|];
        assert Before(u, k) == Prior(Before(t, |t|), outs, k - |t|);
      }
    }
  }

  lemma OnLinkKeeps(st: State, i: nat, e: Event, trace: seq<Sent>)
    requires Traced(st, trace) && i < |st.links|
    ensures var o := OnLink(st, i, e); Traced(o.st, trace + o.sent)
  {
    hide LinkStep, LinkTraced, LinkTrace, Tagged, Bumped;
    var o, r := OnLink(st, i, e), LinkStep(st, i, e);
    forall j: nat | j < |st.links| ensures LinkTraced(o.st.cfg.links[j], o.st.links[j], LinkTrace(trace + o.sent, j)) {
      LinkTraceAppend(trace, o.sent, j);
      TaggedLink(i, r.outs, j);
      if j == i {
        TracedStep(st, i, e, LinkTrace(trace, i));
      } else {
        assert LinkTrace(trace, j) + [] == LinkTrace(trace, j);
      }
    }
  }

  lemma TracedStep(st: State, i: nat, e: Event, t: seq<Out>)
    requires WellFormed(st) && i < |st.links| && LinkTraced(st.cfg.links[i], st.links[i], t)
    ensures var r := LinkStep(st, i, e); LinkTraced(st.cfg.links[i], r.rt, t + r.outs)
  {
    hide LinkStep, Agrees, Bracketed, Chain;
    LinkStepKeeps(st, i, e, Before(t, |t|));
    BracketedAppend(st.cfg.links[i], t, LinkStep(st, i, e).outs);
  }

  lemma {:induction false} TickKeeps(st: State, i: nat, e: Event, trace: seq<Sent>)
    requires Traced(st, trace) && i <= |st.links|
    ensures var o := TickFrom(st, i, e); Traced(o.st, trace + o.sent)
    decreases |st.links| - i
  {
    hide LinkTraced, OnLink;
    if i == |st.links| {
      assert trace + [] == trace;
    } else {
      var o := OnLink(st, i, e);
      assert |o.st.links| == |st.links| by { OnLinkLength(st, i, e); }
      OnLinkKeeps(st, i, e, trace);
      TickKeeps(o.st, i + 1, e, trace + o.sent);
      var rest := TickFrom(o.st, i + 1, e);
      assert trace + (o.sent + rest.sent) == (trace + o.sent) + rest.sent;
    }
  }

  lemma OnLinkLength(st: State, i: nat, e: Event)
    requires WellFormed(st) && i < |st.links|
    ensures |OnLink(st, i, e).st.links| == |st.links|
  {
  }

  /** The grammar of a link does not mention its toggles. */
  lemma ToggleKeeps(l: LinkConfig, m: LinkConfig, rt: LinkRuntime, t: seq<Out>)
    requires SameButToggles(l, m) && LinkTraced(l, rt, t)
    ensures LinkTraced(m, rt, t)
  {
    hide FrameFollows;
    forall k: nat | k < |t| ensures MayFollow(m, Before(t, k), t[k]) {
      assert MayFollow(l, Before(t, k), t[k]);
    }
  }

  lemma StepKeeps(st: State, e: Event, trace: seq<Sent>)
    requires Traced(st, trace) && Possible(st, e)
    ensures var o := Step(st, e); Traced(o.st, trace + o.sent)
  {
    hide OnLink, TickFrom, LinkTraced, LinkTrace, Route;
    assert trace + [] == trace;
    match e {
      case DmrdEvent(peer, frame, _, _) =>
        var i := Route(st.cfg.links, peer, frame.dst, 0);
        if i >= 0 {
          OnLinkKeeps(st, i, e, trace);
        }
      case TickEvent(_) => TickKeeps(st, 0, e, trace);
      case ReloadEvent(cfg) =>
        forall i: nat | i < |st.links| ensures LinkTraced(cfg.links[i], st.links[i], LinkTrace(trace, i)) {
          ToggleKeeps(st.cfg.links[i], cfg.links[i], st.links[i], LinkTrace(trace, i));
        }
      case _ => OnLinkKeeps(st, e.link, e, trace);
    }
  }

  lemma {:induction false} RunKeeps(st: State, events: seq<Event>, trace: seq<Sent>)
    requires Traced(st, trace) && Feasible(st, events)
    ensures var o := Run(st, events); Traced(o.st, trace + o.sent)
    decreases |events|
  {
    hide LinkTraced, Step, Possible;
    if events == [] {
      assert trace + [] == trace;
    } else {
      var first := Step(st, events[0]);
      StepKeeps(st, events[0], trace);
      RunKeeps(first.st, events[1..], trace + first.sent);
      var rest := Run(first.st, events[1..]);
      assert trace + (first.sent + rest.sent) == (trace + first.sent) + rest.sent;
    }
  }

  /** Over any run, what is sent for a link is a prefix of whole calls, and the
      link's call record agrees with the last request. */
  lemma CallsAreBracketed(cfg: Config, events: seq<Event>)
    requires Resolved(cfg) && Feasible(Start(cfg), events)
    ensures Traced(Run(Start(cfg), events).st, Run(Start(cfg), events).sent)
  {
    hide Run, Feasible, Agrees;
    var st := Start(cfg);
    forall i: nat | i < |st.links| ensures LinkTraced(st.cfg.links[i], st.links[i], LinkTrace([], i)) {
      NoCallYet(cfg.links[i]);
    }
    RunKeeps(st, events, []);
    assert [] + Run(st, events).sent == Run(st, events).sent;
  }

  lemma NoCallYet(l: LinkConfig)
    ensures LinkTraced(l, LinkRuntime(false, NO_CALL, false), [])
  {
  }
}
