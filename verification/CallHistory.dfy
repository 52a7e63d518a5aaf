/** What was sent for a link, each request with the event that brought it about. */
module CallHistory {
  import opened CallModel
  import opened CallRuns
  import opened CallTheorems

  // ---------- A run up to an event ----------

  lemma {:induction false} FeasiblePrefix(st: State, events: seq<Event>, m: nat)
    requires WellFormed(st) && Feasible(st, events) && m <= |events|
    ensures Feasible(st, events[..m])
    ensures m < |events| ==> Possible(Run(st, events[..m]).st, events[m])
    decreases m
  {
    hide Step, Possible;
    if m > 0 {
      FeasiblePrefix(Step(st, events[0]).st, events[1..], m - 1);
      assert events[..m][1..] == events[1..][..m - 1];
    }
  }

  /** The state in which event `m` arrives. */
  function StateAt(st: State, events: seq<Event>, m: nat): (s: State)
    requires WellFormed(st) && Feasible(st, events) && m <= |events|
    ensures WellFormed(s) && Reloads(st.cfg, s.cfg)
    ensures m < |events| ==> Possible(s, events[m])
  {
    FeasiblePrefix(st, events, m);
    Run(st, events[..m]).st
  }

  /** What event `m` makes link `i` send. */
  function Replies(st: State, events: seq<Event>, i: nat, m: nat): seq<Out>
    requires WellFormed(st) && Feasible(st, events) && m < |events|
  {
    LinkTrace(Step(StateAt(st, events, m), events[m]).sent, i)
  }

  lemma {:induction false} RunSnoc(st: State, events: seq<Event>)
    requires WellFormed(st) && Feasible(st, events) && events != []
    ensures var n := |events| - 1;
            var o := Step(StateAt(st, events, n), events[n]);
            Feasible(st, events[..n]) && Run(st, events) == Outcome(o.st, Run(st, events[..n]).sent + o.sent)
    decreases |events|
  {
    hide Step, Possible;
    var n := |events| - 1;
    FeasiblePrefix(st, events, n);
    var first := Step(st, events[0]);
    if n == 0 {
      assert events[1..] == [] && events[..0] == [];
      assert first.sent + [] == first.sent && [] + first.sent == first.sent;
    } else {
      RunSnoc(first.st, events[1..]);
      assert events[1..][..n - 1] == events[..n][1..];
      assert events[..n][0] == events[0];
      var rest, o := Run(first.st, events[1..][..n - 1]), Step(StateAt(st, events, n), events[n]);
      assert first.sent + (rest.sent + o.sent) == (first.sent + rest.sent) + o.sent;
    }
  }

  // ---------- The log of a link ----------

  /** A request and the index of its event. */
  datatype Entry = Entry(at: nat, out: Out)

  function Entries(at: nat, outs: seq<Out>): (log: seq<Entry>)
    ensures |log| == |outs|
  {
    seq(|outs|, k requires 0 <= k < |outs| => Entry(at, outs[k]))
  }

  function Log(st: State, events: seq<Event>, i: nat): seq<Entry>
    requires WellFormed(st) && Feasible(st, events)
    decreases |events|
  {
    if events == [] then []
    else
      var n := |events| - 1;
      FeasiblePrefix(st, events, n);
      Log(st, events[..n], i) + Entries(n, Replies(st, events, i, n))
  }

  function Outs(log: seq<Entry>): (outs: seq<Out>)
    ensures |outs| == |log|
  {
    seq(|log|, k requires 0 <= k < |log| => log[k].out)
  }

  /** The log is the trace of the link, dated. */
  lemma {:induction false} LogIsTrace(st: State, events: seq<Event>, i: nat)
    requires WellFormed(st) && Feasible(st, events)
    ensures Outs(Log(st, events, i)) == LinkTrace(Run(st, events).sent, i)
    decreases |events|
  {
    hide LinkTrace, Run, Step, Feasible;
    if events == [] {
      NothingSent(st, i);
    } else {
      var n := |events| - 1;
      RunSnoc(st, events);
      LogIsTrace(st, events[..n], i);
      LinkTraceAppend(Run(st, events[..n]).sent, Step(StateAt(st, events, n), events[n]).sent, i);
      var replies := Replies(st, events, i, n);
      assert Outs(Log(st, events[..n], i) + Entries(n, replies)) == Outs(Log(st, events[..n], i)) + replies;
    }
  }

  lemma NothingSent(st: State, i: nat)
    requires WellFormed(st) && Feasible(st, [])
    ensures LinkTrace(Run(st, []).sent, i) == []
  {
  }

  /** Later events only add to the log. */
  lemma {:induction false} LogGrows(st: State, events: seq<Event>, i: nat, m: nat)
    requires WellFormed(st) && Feasible(st, events) && m <= |events|
    ensures Feasible(st, events[..m]) && Log(st, events[..m], i) <= Log(st, events, i)
    decreases |events|
  {
    hide Replies, Feasible, Run;
    FeasiblePrefix(st, events, m);
    if m == |events| {
      assert events[..m] == events;
    } else {
      var n := |events| - 1;
      FeasiblePrefix(st, events, n);
      LogGrows(st, events[..n], i, m);
      assert events[..n][..m] == events[..m];
    }
  }

  /** The entries of event `m` follow those of the events before it. */
  lemma LogAt(st: State, events: seq<Event>, i: nat, m: nat)
    requires WellFormed(st) && Feasible(st, events) && m < |events|
    ensures Feasible(st, events[..m]) && Feasible(st, events[..m + 1])
    ensures Log(st, events[..m + 1], i) == Log(st, events[..m], i) + Entries(m, Replies(st, events, i, m))
  {
    hide Feasible, Run, LinkTrace, Step;
    FeasiblePrefix(st, events, m);
    FeasiblePrefix(st, events, m + 1);
    assert events[..m + 1][..m] == events[..m];
  }

  /** What link `i` sends at the events from `a` up to `b`. */
  function SentSince(st: State, events: seq<Event>, i: nat, a: nat, b: nat): seq<Out>
    requires WellFormed(st) && Feasible(st, events) && a <= b <= |events|
    decreases b
  {
    if a == b then [] else SentSince(st, events, i, a, b - 1) + Replies(st, events, i, b - 1)
  }

  /** What the link sent in between is that stretch of its log. */
  lemma {:induction false} SentIsLogged(st: State, events: seq<Event>, i: nat, a: nat, b: nat)
    requires WellFormed(st) && Feasible(st, events) && a <= b <= |events|
    ensures Feasible(st, events[..a]) && Feasible(st, events[..b])
    ensures Outs(Log(st, events[..b], i)) == Outs(Log(st, events[..a], i)) + SentSince(st, events, i, a, b)
    decreases b
  {
    hide Feasible, Run, Log, Replies;
    FeasiblePrefix(st, events, a);
    FeasiblePrefix(st, events, b);
    if a < b {
      SentIsLogged(st, events, i, a, b - 1);
      LogAt(st, events, i, b - 1);
      var replies := Replies(st, events, i, b - 1);
      assert Outs(Log(st, events[..b - 1], i) + Entries(b - 1, replies)) == Outs(Log(st, events[..b - 1], i)) + replies;
    }
  }

  /** Dates are those of the run's events, and in order. */
  ghost predicate Dated(log: seq<Entry>, n: nat) {
    && (forall k: nat :: k < |log| ==> log[k].at < n)
    && (forall j: nat, k: nat :: j < k < |log| ==> log[j].at <= log[k].at)
  }

  lemma {:induction false} LogIsDated(st: State, events: seq<Event>, i: nat)
    requires WellFormed(st) && Feasible(st, events)
    ensures Dated(Log(st, events, i), |events|)
    decreases |events|
  {
    hide Replies, Feasible, Run;
    if events != [] {
      var n := |events| - 1;
      FeasiblePrefix(st, events, n);
      LogIsDated(st, events[..n], i);
    }
  }

  /** The entries with one date are what that event sent. */
  lemma EntriesAt(st: State, events: seq<Event>, i: nat, m: nat, k: nat)
    requires WellFormed(st) && Feasible(st, events) && m < |events| && k < |Log(st, events, i)|
    ensures Feasible(st, events[..m])
    ensures var n := |Log(st, events[..m], i)|;
            Log(st, events, i)[k].at == m <==> n <= k < n + |Replies(st, events, i, m)|
  {
    hide Feasible, Run, Replies, Log;
    LogAt(st, events, i, m);
    LogGrows(st, events, i, m + 1);
    LogIsDated(st, events[..m], i);
    LogIsDated(st, events, i);
    var log, was, n := Log(st, events, i), Log(st, events[..m + 1], i), |Log(st, events[..m], i)|;
    if k < |was| {
      assert log[k] == was[k];
    } else {
      LaterEntry(st, events, i, m + 1, k);
    }
  }

  lemma {:induction false} LaterEntry(st: State, events: seq<Event>, i: nat, m: nat, k: nat)
    requires WellFormed(st) && Feasible(st, events) && m <= |events| && Feasible(st, events[..m])
    requires |Log(st, events[..m], i)| <= k
    ensures k < |Log(st, events, i)| ==> Log(st, events, i)[k].at >= m
    decreases |events|
  {
    hide Feasible, Run, Replies;
    if m == |events| {
      assert events[..m] == events;
    } else {
      var n := |events| - 1;
      FeasiblePrefix(st, events, n);
      assert events[..n][..m] == events[..m];
      LaterEntry(st, events[..n], i, m, k);
    }
  }
}
