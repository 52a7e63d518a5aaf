/** The event loop's one-shot timers: the list, the firing pass and the reaping. */
module Timers {
  // ---------- The list as a value ----------

  /** Timers oldest first; a timer keeps its index during a pass. */
  datatype Timer = Timer(when: real, active: bool)

  /** What a callback may do: to the list, and stop the loop. */
  datatype Action = Add(when: real) | Cancel(i: nat) | Stop

  predicate Due(t: Timer, now: real) {
    t.active && t.when <= now
  }

  function Deactivated(ts: seq<Timer>, i: nat): (r: seq<Timer>)
    requires i < |ts|
    ensures |r| == |ts|
  {
    ts[i := ts[i].(active := false)]
  }

  function Acted(ts: seq<Timer>, a: Action): (r: seq<Timer>)
    ensures |r| >= |ts|
  {
    match a
    case Add(when) => ts + [Timer(when, true)]
    case Cancel(i) => if i < |ts| then Deactivated(ts, i) else ts
    case Stop => ts
  }

  function ActedAll(ts: seq<Timer>, actions: seq<Action>): (r: seq<Timer>)
    ensures |r| >= |ts|
  {
    if actions == [] then ts else Acted(ActedAll(ts, actions[..|actions| - 1]), actions[|actions| - 1])
  }

  /** The scan of the list from the newest timer: the first of the earliest due ones. */
  function Soonest(ts: seq<Timer>, now: real, i: nat): (k: int)
    requires i <= |ts|
    ensures -1 <= k < |ts| && (k >= 0 ==> i <= k)
    decreases |ts| - i
  {
    if i == |ts| then -1
    else
      var k := Soonest(ts, now, i + 1);
      if Due(ts[i], now) && (k < 0 || ts[i].when < ts[k].when) then i else k
  }

  function Reaped(ts: seq<Timer>): seq<Timer> {
    if ts == [] then [] else Reaped(ts[..|ts| - 1]) + (if ts[|ts| - 1].active then [ts[|ts| - 1]] else [])
  }

  function DueCount(ts: seq<Timer>, now: real): nat {
    if ts == [] then 0 else DueCount(ts[..|ts| - 1], now) + if Due(ts[|ts| - 1], now) then 1 else 0
  }

  /** Callbacks add timers only for later than the pass. */
  ghost predicate Later(cb: nat -> seq<Action>, now: real) {
    forall i: nat, j: nat :: j < |cb(i)| && cb(i)[j].Add? ==> cb(i)[j].when > now
  }

  predicate Stops(actions: seq<Action>) {
    Stop in actions
  }

  datatype Pass = Pass(ts: seq<Timer>, fired: seq<nat>)

  // `cb(i)` is what the callback of timer `i` does.

  /** The list after timer `k` has fired. */
  function After(ts: seq<Timer>, k: nat, cb: nat -> seq<Action>): (r: seq<Timer>)
    requires k < |ts|
    ensures |r| >= |ts|
  {
    ActedAll(Deactivated(ts, k), cb(k))
  }

  /** The firing loop is over after at most `n` callbacks. */
  predicate Ends(ts: seq<Timer>, now: real, cb: nat -> seq<Action>, n: nat)
    decreases n
  {
    var k := Soonest(ts, now, 0);
    k < 0 || (n > 0 && (Stops(cb(k)) || Ends(After(ts, k, cb), now, cb, n - 1)))
  }

  /** The firing loop. */
  function Fire(ts: seq<Timer>, now: real, cb: nat -> seq<Action>, n: nat): Pass
    requires Ends(ts, now, cb, n)
    decreases n
  {
    var k := Soonest(ts, now, 0);
    if k < 0 then Pass(ts, [])
    else if Stops(cb(k)) then Pass(After(ts, k, cb), [k])
    else
      var r := Fire(After(ts, k, cb), now, cb, n - 1);
      Pass(r.ts, [k] + r.fired)
  }

  /** The last callback of the pass stopped the loop. */
  predicate Stopped(fired: seq<nat>, cb: nat -> seq<Action>) {
    fired != [] && Stops(cb(fired[|fired| - 1]))
  }

  // ---------- Scanning ----------

  /** Timer `k` fires before timer `j`: it is due earlier, or at the same time and newer. */
  predicate Precedes(ts: seq<Timer>, k: nat, j: nat)
    requires k < |ts| && j < |ts|
  {
    ts[k].when < ts[j].when || (ts[k].when == ts[j].when && j < k)
  }

  lemma {:induction false} SoonestIsDue(ts: seq<Timer>, now: real, i: nat)
    requires i <= |ts|
    ensures var k := Soonest(ts, now, i);
            if k < 0 then forall j: nat :: i <= j < |ts| ==> !Due(ts[j], now)
            else Due(ts[k], now) && forall j: nat :: i <= j < |ts| && Due(ts[j], now) && j != k ==> Precedes(ts, k, j)
    decreases |ts| - i
  {
    if i < |ts| {
      SoonestIsDue(ts, now, i + 1);
    }
  }

  lemma {:induction false} CountDeactivated(ts: seq<Timer>, now: real, i: nat)
    requires i < |ts|
    ensures DueCount(Deactivated(ts, i), now) == DueCount(ts, now) - if Due(ts[i], now) then 1 else 0
  {
    var d, n := Deactivated(ts, i), |ts| - 1;
    if i == n {
      assert d[..n] == ts[..n];
    } else {
      assert d[..n] == Deactivated(ts[..n], i);
      CountDeactivated(ts[..n], now, i);
    }
  }

  lemma CountActed(ts: seq<Timer>, now: real, a: Action)
    requires a.Add? ==> a.when > now
    ensures DueCount(Acted(ts, a), now) <= DueCount(ts, now)
  {
    match a
    case Add(when) => assert (ts + [Timer(when, true)])[..|ts|] == ts;
    case Cancel(i) => if i < |ts| { CountDeactivated(ts, now, i); }
    case Stop =>
  }

  lemma {:induction false} CountActedAll(ts: seq<Timer>, now: real, actions: seq<Action>)
    requires forall j: nat :: j < |actions| && actions[j].Add? ==> actions[j].when > now
    ensures DueCount(ActedAll(ts, actions), now) <= DueCount(ts, now)
  {
    if actions != [] {
      var n := |actions| - 1;
      CountActedAll(ts, now, actions[..n]);
      CountActed(ActedAll(ts, actions[..n]), now, actions[n]);
    }
  }

  /** Every round of the loop leaves fewer due timers: the pass ends. */
  lemma FireDecreases(ts: seq<Timer>, now: real, k: nat, actions: seq<Action>)
    requires k < |ts| && Soonest(ts, now, 0) == k
    requires forall j: nat :: j < |actions| && actions[j].Add? ==> actions[j].when > now
    ensures DueCount(ActedAll(Deactivated(ts, k), actions), now) < DueCount(ts, now)
  {
    SoonestIsDue(ts, now, 0);
    CountDeactivated(ts, now, k);
    CountActedAll(Deactivated(ts, k), now, actions);
  }

  // ---------- When the pass ends ----------

  /** When callbacks add timers only for later than the pass, it ends: it calls back at
      most as many timers as were due when it began. */
  lemma {:induction false} LaterEnds(ts: seq<Timer>, now: real, cb: nat -> seq<Action>)
    requires Later(cb, now)
    ensures Ends(ts, now, cb, DueCount(ts, now))
    decreases DueCount(ts, now)
  {
    hide DueCount, ActedAll;
    var k := Soonest(ts, now, 0);
    if k >= 0 {
      FireDecreases(ts, now, k, cb(k));
      LaterEnds(After(ts, k, cb), now, cb);
      EndsSooner(After(ts, k, cb), now, cb, DueCount(After(ts, k, cb), now), DueCount(ts, now) - 1);
    }
  }

  lemma {:induction false} EndsSooner(ts: seq<Timer>, now: real, cb: nat -> seq<Action>, n: nat, m: nat)
    requires Ends(ts, now, cb, n) && n <= m
    ensures Ends(ts, now, cb, m) && Fire(ts, now, cb, n) == Fire(ts, now, cb, m)
    decreases n
  {
    hide ActedAll;
    var k := Soonest(ts, now, 0);
    if k >= 0 && !Stops(cb(k)) {
      EndsSooner(After(ts, k, cb), now, cb, n - 1, m - 1);
    }
  }

  /** When every callback puts another timer that is already due in the place of its own,
      a pass that finds a timer due never ends. */
  lemma {:induction false} DueForever(ts: seq<Timer>, now: real, cb: nat -> seq<Action>, when: real, n: nat)
    requires when <= now && Soonest(ts, now, 0) >= 0 && forall i: nat :: cb(i) == [Add(when)]
    ensures !Ends(ts, now, cb, n)
    decreases n
  {
    var k := Soonest(ts, now, 0);
    if n > 0 {
      var next := After(ts, k, cb);
      var d := Deactivated(ts, k);
      assert ActedAll(d, cb(k)[..0]) == d;
      assert next == Deactivated(ts, k) + [Timer(when, true)];
      SoonestIsDue(next, now, 0);
      assert Due(next[|ts|], now);
      DueForever(next, now, cb, when, n - 1);
    }
  }

  // ---------- What a callback can change ----------

  /** `next` has the timers of `ts`, some cancelled, and new ones later than `now`. */
  ghost predicate Descends(ts: seq<Timer>, next: seq<Timer>, now: real) {
    && |next| >= |ts|
    && (forall i: nat :: i < |ts| ==> next[i].when == ts[i].when && (next[i].active ==> ts[i].active))
    && (forall i: nat :: |ts| <= i < |next| ==> next[i].when > now)
  }

  predicate Cancels(actions: seq<Action>, i: nat) {
    Cancel(i) in actions
  }

  lemma {:induction false} ActedDescends(ts: seq<Timer>, now: real, actions: seq<Action>)
    requires forall j: nat :: j < |actions| && actions[j].Add? ==> actions[j].when > now
    ensures Descends(ts, ActedAll(ts, actions), now)
    ensures forall i: nat :: i < |ts| ==>
              (ActedAll(ts, actions)[i].active <==> ts[i].active && !Cancels(actions, i))
  {
    if actions != [] {
      var n := |actions| - 1;
      ActedDescends(ts, now, actions[..n]);
      assert actions == actions[..n] + [actions[n]];
      forall i: nat | i < |ts| ensures Cancels(actions, i) <==> Cancels(actions[..n], i) || actions[n] == Cancel(i) {
      }
    }
  }

  // ---------- The pass ----------

  /** Some callback of the pass cancelled timer `i`. */
  ghost predicate CancelledBy(fired: seq<nat>, cb: nat -> seq<Action>, i: nat) {
    exists k: nat :: k < |fired| && Cancels(cb(fired[k]), i)
  }

  ghost predicate FiredDue(ts: seq<Timer>, now: real, fired: seq<nat>) {
    forall k: nat :: k < |fired| ==> fired[k] < |ts| && Due(ts[fired[k]], now)
  }

  ghost predicate InOrder(ts: seq<Timer>, now: real, fired: seq<nat>)
    requires FiredDue(ts, now, fired)
  {
    forall j: nat, k: nat :: j < k < |fired| ==> Precedes(ts, fired[j], fired[k])
  }

  ghost predicate NoneCancelled(fired: seq<nat>, cb: nat -> seq<Action>) {
    forall j: nat, k: nat :: j < k < |fired| ==> !Cancels(cb(fired[j]), fired[k])
  }

  /** One round: from `ts` to `next` after firing `k`, with the rest of the pass known for `next`. */
  lemma RoundFires(ts: seq<Timer>, next: seq<Timer>, now: real, cb: nat -> seq<Action>, k: nat, rest: seq<nat>)
    requires k < |ts| && Due(ts[k], now)
    requires forall j: nat :: j < |ts| && Due(ts[j], now) && j != k ==> Precedes(ts, k, j)
    requires Descends(Deactivated(ts, k), next, now)
    requires forall i: nat :: i < |ts| ==> (next[i].active <==> i != k && ts[i].active && !Cancels(cb(k), i))
    requires FiredDue(next, now, rest) && InOrder(next, now, rest) && NoneCancelled(rest, cb)
    ensures FiredDue(ts, now, [k] + rest) && InOrder(ts, now, [k] + rest) && NoneCancelled([k] + rest, cb)
  {
    var fired := [k] + rest;
    forall j: nat | j < |rest| ensures rest[j] < |ts| && rest[j] != k && Due(ts[rest[j]], now)
      && ts[rest[j]].when == next[rest[j]].when && !Cancels(cb(k), rest[j]) {
      assert Due(next[rest[j]], now);
    }
    forall j: nat | j < |fired| ensures fired[j] < |ts| && Due(ts[fired[j]], now) {
      assert j > 0 ==> fired[j] == rest[j - 1];
    }
    forall j: nat, l: nat | j < l < |fired|
      ensures Precedes(ts, fired[j], fired[l]) && !Cancels(cb(fired[j]), fired[l]) {
      assert fired[l] == rest[l - 1];
      assert j > 0 ==> fired[j] == rest[j - 1] && Precedes(next, rest[j - 1], rest[l - 1]);
    }
  }

  /** A pass whose callbacks add timers only for later fires timers that were due when it
      began, each at most once, in order of time, of two due at the same time the newer one
      first, and none that an earlier callback cancelled. */
  lemma {:induction false} PassFiresInOrder(ts: seq<Timer>, now: real, cb: nat -> seq<Action>, n: nat)
    requires Later(cb, now) && Ends(ts, now, cb, n)
    ensures var fired := Fire(ts, now, cb, n).fired;
            FiredDue(ts, now, fired) && InOrder(ts, now, fired) && NoneCancelled(fired, cb)
    decreases n
  {
    hide Cancels, Due, Stops;
    var k := Soonest(ts, now, 0);
    SoonestIsDue(ts, now, 0);
    if k >= 0 {
      ActedDescends(Deactivated(ts, k), now, cb(k));
      var next := After(ts, k, cb);
      if Stops(cb(k)) {
        RoundFires(ts, next, now, cb, k, []);
      } else {
        PassFiresInOrder(next, now, cb, n - 1);
        RoundFires(ts, next, now, cb, k, Fire(next, now, cb, n - 1).fired);
      }
    }
  }

  lemma {:induction false} InactiveStays(ts: seq<Timer>, actions: seq<Action>, i: nat)
    requires i < |ts| && !ts[i].active
    ensures !ActedAll(ts, actions)[i].active
  {
    if actions != [] {
      InactiveStays(ts, actions[..|actions| - 1], i);
    }
  }

  lemma {:induction false} InactiveNeverFires(ts: seq<Timer>, now: real, cb: nat -> seq<Action>, n: nat, i: nat)
    requires Ends(ts, now, cb, n) && i < |ts| && !ts[i].active
    ensures i !in Fire(ts, now, cb, n).fired
    decreases n
  {
    hide Stops;
    var k := Soonest(ts, now, 0);
    SoonestIsDue(ts, now, 0);
    if k >= 0 {
      InactiveStays(Deactivated(ts, k), cb(k), i);
      if !Stops(cb(k)) {
        InactiveNeverFires(After(ts, k, cb), now, cb, n - 1, i);
      }
    }
  }

  /** Whatever its callbacks add, a pass fires no timer twice, and none after one that
      stops the loop. */
  lemma {:induction false} EachFiresOnce(ts: seq<Timer>, now: real, cb: nat -> seq<Action>, n: nat)
    requires Ends(ts, now, cb, n)
    ensures var fired := Fire(ts, now, cb, n).fired;
            && (forall i: nat, j: nat :: i < j < |fired| ==> fired[i] != fired[j])
            && (forall i: nat :: i + 1 < |fired| ==> !Stops(cb(fired[i])))
    decreases n
  {
    hide Stops;
    var k := Soonest(ts, now, 0);
    if k >= 0 && !Stops(cb(k)) {
      var next := After(ts, k, cb);
      InactiveStays(Deactivated(ts, k), cb(k), k);
      EachFiresOnce(next, now, cb, n - 1);
      InactiveNeverFires(next, now, cb, n - 1, k);
      var rest := Fire(next, now, cb, n - 1).fired;
      var fired := [k] + rest;
      forall i: nat, j: nat | i < j < |fired| ensures fired[i] != fired[j] {
        assert fired[j] == rest[j - 1];
        assert i > 0 ==> fired[i] == rest[i - 1];
      }
      forall i: nat | i + 1 < |fired| ensures !Stops(cb(fired[i])) {
        assert i > 0 ==> fired[i] == rest[i - 1];
      }
    }
  }

  /** Timer `i` was fired or cancelled, or is as it was. */
  ghost predicate Settled(t: Timer, after: Timer, now: real, fired: seq<nat>, cb: nat -> seq<Action>, i: nat) {
    && after.when == t.when && (Stopped(fired, cb) || !Due(after, now))
    && (after.active <==> t.active && i !in fired && !CancelledBy(fired, cb, i))
  }

  lemma RoundSettles(t: Timer, mid: Timer, after: Timer, now: real, cb: nat -> seq<Action>, k: nat, rest: seq<nat>,
                     i: nat)
    requires mid.when == t.when && (mid.active <==> i != k && t.active && !Cancels(cb(k), i))
    requires if Stops(cb(k)) then rest == [] && after == mid else Settled(mid, after, now, rest, cb, i)
    ensures Settled(t, after, now, [k] + rest, cb, i)
  {
    hide Stops;
    var fired := [k] + rest;
    assert i in fired <==> i == k || i in rest;
    assert fired[|fired| - 1] == if rest == [] then k else rest[|rest| - 1];
    if CancelledBy(rest, cb, i) {
      var j: nat :| j < |rest| && Cancels(cb(rest[j]), i);
      assert fired[j + 1] == rest[j];
    }
    if Cancels(cb(k), i) {
      assert fired[0] == k;
    }
    if CancelledBy(fired, cb, i) {
      var j: nat :| j < |fired| && Cancels(cb(fired[j]), i);
      assert j == 0 || fired[j] == rest[j - 1];
    }
  }

  /** After a pass whose callbacks add timers only for later, no timer is due unless a
      callback stopped the loop, and a timer of the list is still active exactly if it
      was active and the pass neither fired nor cancelled it.  So every timer that was
      due is fired unless a callback cancels it or stops the loop, and nothing else is
      touched. */
  lemma {:induction false} PassSettlesEveryTimer(ts: seq<Timer>, now: real, cb: nat -> seq<Action>, n: nat)
    requires Later(cb, now) && Ends(ts, now, cb, n)
    ensures var r := Fire(ts, now, cb, n);
            |r.ts| >= |ts| && (forall i: nat :: |ts| <= i < |r.ts| ==> !Due(r.ts[i], now))
            && forall i: nat :: i < |ts| ==> Settled(ts[i], r.ts[i], now, r.fired, cb, i)
    decreases n
  {
    hide Cancels, Stops;
    var k := Soonest(ts, now, 0);
    SoonestIsDue(ts, now, 0);
    var r := Fire(ts, now, cb, n);
    if k >= 0 {
      ActedDescends(Deactivated(ts, k), now, cb(k));
      var next := After(ts, k, cb);
      var rest: seq<nat> := [];
      if !Stops(cb(k)) {
        PassSettlesEveryTimer(next, now, cb, n - 1);
        rest := Fire(next, now, cb, n - 1).fired;
      }
      forall i: nat | i < |ts| ensures Settled(ts[i], r.ts[i], now, r.fired, cb, i) {
        RoundSettles(ts[i], next[i], r.ts[i], now, cb, k, rest, i);
      }
    }
  }

  // ---------- Reaping ----------

  lemma {:induction false} ReapedAppend(a: seq<Timer>, b: seq<Timer>)
    ensures Reaped(a + b) == Reaped(a) + Reaped(b)
  {
    if b == [] {
      assert a + b == a;
    } else {
      var n := |b| - 1;
      assert (a + b)[..|a + b| - 1] == a + b[..n];
      ReapedAppend(a, b[..n]);
    }
  }

  // ---------- The list as the source keeps it ----------

  class EvTimer {
    const when: real
    var active: bool
    var next: EvTimer?

    constructor (w: real, n: EvTimer?)
      ensures when == w && active && next == n
    {
      when := w;
      active := true;
      next := n;
    }
  }

  ghost predicate NoRepeats(nodes: seq<EvTimer>) {
    forall i: nat, j: nat :: i < j < |nodes| ==> nodes[i] != nodes[j]
  }

  lemma NoRepeatsAt(nodes: seq<EvTimer>, i: nat)
    requires NoRepeats(nodes) && i < |nodes|
    ensures forall j: nat :: j < |nodes| && j != i ==> nodes[j] != nodes[i]
  {
  }

  lemma NoRepeatsSnoc(nodes: seq<EvTimer>, t: EvTimer)
    requires NoRepeats(nodes) && t !in nodes
    ensures NoRepeats(nodes + [t])
  {
  }

  lemma NoRepeatsWithout(nodes: seq<EvTimer>, i: nat)
    requires NoRepeats(nodes) && i < |nodes|
    ensures NoRepeats(nodes[..i] + nodes[i + 1..])
  {
    var m := nodes[..i] + nodes[i + 1..];
    forall j: nat, k: nat | j < k < |m| ensures m[j] != m[k] {
      assert m[j] == nodes[if j < i then j else j + 1] && m[k] == nodes[if k < i then k else k + 1];
    }
  }

  /** The node an index links to: the one before it, null at the end of the list. */
  ghost function Node(nodes: seq<EvTimer>, i: nat): EvTimer?
    requires i <= |nodes|
  {
    if i == 0 then null else nodes[i - 1]
  }

  ghost predicate Linked(nodes: seq<EvTimer>)
    reads nodes
  {
    forall i: nat :: i < |nodes| ==> nodes[i].next == Node(nodes, i)
  }

  ghost function Value(t: EvTimer): Timer
    reads t
  {
    Timer(t.when, t.active)
  }

  ghost function ViewOf(nodes: seq<EvTimer>): (v: seq<Timer>)
    reads nodes
    ensures |v| == |nodes|
  {
    seq(|nodes|, i requires 0 <= i < |nodes| reads nodes => Value(nodes[i]))
  }

  lemma LinkedSnoc(nodes: seq<EvTimer>, t: EvTimer)
    requires Linked(nodes) && t.next == Node(nodes, |nodes|)
    ensures Linked(nodes + [t])
  {
    var m := nodes + [t];
    forall i: nat | i < |m| ensures m[i].next == Node(m, i) {
      assert Node(m, i) == Node(nodes, i);
    }
  }

  lemma ViewSnoc(nodes: seq<EvTimer>, t: EvTimer)
    ensures ViewOf(nodes + [t]) == ViewOf(nodes) + [Timer(t.when, t.active)]
  {
  }

  class EvLoop {
    /** Head of the list: the newest timer. */
    var timers: EvTimer?
    var running: bool
    /** The nodes, oldest first. */
    ghost var nodes: seq<EvTimer>
    ghost var Repr: set<object>

    constructor ()
      ensures Valid() && nodes == [] && fresh(Repr) && running
    {
      timers := null;
      running := true;
      nodes := [];
      Repr := {};
    }

    ghost predicate Valid()
      reads this, Repr
    {
      Owned() && timers == Node(nodes, |nodes|) && NoRepeats(nodes) && Linked(nodes)
    }

    ghost predicate Owned()
      reads this
    {
      this !in Repr && forall i: nat :: i < |nodes| ==> nodes[i] in Repr
    }

    ghost function View(): (v: seq<Timer>)
      requires Owned()
      reads this, Repr
      ensures |v| == |nodes|
    {
      ViewOf(nodes)
    }

    method TimerAt(when: real) returns (t: EvTimer)
      requires Valid()
      modifies this
      ensures Valid() && fresh(t) && nodes == old(nodes) + [t] && Repr == old(Repr) + {t} && running == old(running)
      ensures View() == Acted(old(View()), Add(when))
    {
      hide NoRepeats, Linked, ViewOf;
      ghost var n, v := nodes, View();
      t := new EvTimer(when, timers);
      assert t !in Repr && t !in n;
      assert Linked(n) && ViewOf(n) == v;
      NoRepeatsSnoc(n, t);
      LinkedSnoc(n, t);
      ViewSnoc(n, t);
      timers := t;
      nodes := nodes + [t];
      Repr := Repr + {t};
    }

    /** The timer stays in the list until it is reaped. */
    method TimerCancel(t: EvTimer?, ghost i: nat)
      requires Valid() && (t == null || (i < |nodes| && nodes[i] == t))
      modifies if t == null then {} else {t}
      ensures Valid() && View() == if t == null then old(View()) else Acted(old(View()), Cancel(i))
    {
      hide NoRepeats, Linked, ViewOf;
      if t != null {
        Deactivate(t, i);
      }
    }

    method Deactivate(t: EvTimer, ghost i: nat)
      requires Valid() && i < |nodes| && nodes[i] == t
      modifies t`active
      ensures Valid() && View() == Acted(old(View()), Cancel(i))
    {
      hide NoRepeats;
      NoRepeatsAt(nodes, i);
      hide Linked;
      ghost var v := View();
      t.active := false;
      assert Linked(nodes) by { LinkedStill(nodes); }
      forall j: nat | j < |nodes| ensures View()[j] == Deactivated(v, i)[j] {
      }
    }

    /** Links do not depend on the active flags. */
    twostate lemma LinkedStill(ns: seq<EvTimer>)
      requires old(Linked(ns)) && forall j: nat :: j < |ns| ==> ns[j].next == old(ns[j].next)
      ensures Linked(ns)
    {
    }

    method Count() returns (n: nat)
      requires Valid()
      ensures n == |nodes|
    {
      hide NoRepeats;
      n := 0;
      var t := timers;
      while t != null
        invariant n <= |nodes| && t == Node(nodes, |nodes| - n)
        decreases |nodes| - n
      {
        n := n + 1;
        t := t.next;
      }
    }

    /** Walk the list for the earliest due timer; `k` is its index, or -1. */
    method FindSoonest(now: real) returns (fire: EvTimer?, k: int)
      requires Valid()
      ensures k == Soonest(View(), now, 0)
      ensures if k < 0 then fire == null else fire == nodes[k]
    {
      hide NoRepeats, Linked;
      fire, k := null, -1;
      var t := timers;
      var i := Count();
      while t != null
        invariant 0 <= i <= |nodes| && t == Node(nodes, i) && k == Soonest(View(), now, i)
        invariant if k < 0 then fire == null else fire == nodes[k]
        decreases i
      {
        i := i - 1;
        assert View()[i] == Timer(t.when, t.active);
        if t.active && t.when <= now {
          if fire == null || t.when < fire.when {
            fire, k := t, i;
          }
        }
        t := Follow(t, i);
      }
    }

    method Follow(t: EvTimer, ghost i: nat) returns (n: EvTimer?)
      requires Valid() && i < |nodes| && nodes[i] == t
      ensures n == Node(nodes, i)
    {
      hide NoRepeats;
      n := t.next;
    }

    /** The node at index `i`. */
    method Find(i: nat) returns (t: EvTimer)
      requires Valid() && i < |nodes|
      ensures t == nodes[i]
    {
      hide NoRepeats, Linked;
      var j := Count();
      t := timers;
      while j > i + 1
        invariant i < j <= |nodes| && t == nodes[j - 1]
      {
        j := j - 1;
        t := Follow(t, j);
      }
    }

    method CancelNth(i: nat)
      requires Valid()
      modifies Repr
      ensures Valid() && View() == Acted(old(View()), Cancel(i))
    {
      hide NoRepeats, Linked;
      var n := Count();
      if i < n {
        var t := Find(i);
        TimerCancel(t, i);
      }
    }

    method Act(a: Action)
      requires Valid()
      modifies this, Repr
      ensures Valid() && View() == Acted(old(View()), a) && fresh(Repr - old(Repr))
      ensures running == (old(running) && a != Stop)
    {
      hide NoRepeats, Linked, Acted, ViewOf;
      match a
      case Add(when) =>
        var t := TimerAt(when);
      case Cancel(i) =>
        CancelNth(i);
      case Stop =>
        StopLoop();
    }

    method StopLoop()
      requires Valid()
      modifies this`running
      ensures Valid() && View() == Acted(old(View()), Stop) && !running
    {
      running := false;
    }

    /** What a callback does to the list; it knows a timer by its place in it. */
    method RunCallback(actions: seq<Action>)
      requires Valid()
      modifies this, Repr
      ensures Valid() && View() == ActedAll(old(View()), actions) && fresh(Repr - old(Repr))
      ensures running == (old(running) && !Stops(actions))
    {
      hide NoRepeats, Linked, Acted, ViewOf;
      for j := 0 to |actions|
        invariant Valid() && View() == ActedAll(old(View()), actions[..j]) && fresh(Repr - old(Repr))
        invariant running == (old(running) && !Stops(actions[..j]))
      {
        assert actions[..j + 1][..j] == actions[..j];
        Act(actions[j]);
      }
      assert actions[..|actions|] == actions;
    }

    /** The firing loop of one pass: find the earliest due timer, mark it, call back, and
        see whether the loop was stopped.  `n` bounds the callbacks of a pass that ends. */
    method FireExpired(now: real, cb: nat -> seq<Action>, ghost n: nat) returns (fired: seq<nat>)
      requires Valid() && running && Ends(View(), now, cb, n)
      modifies this, Repr
      ensures Valid() && Pass(View(), fired) == Fire(old(View()), now, cb, n) && fresh(Repr - old(Repr))
      ensures running == !Stopped(fired, cb)
    {
      hide NoRepeats, Linked, ActedAll, ViewOf, Soonest, Stops, Stopped, Fire, Ends, Acted;
      fired := [];
      NotStopped(cb);
      ghost var whole := Fire(View(), now, cb, n);
      ghost var left := n;
      while true
        invariant Valid() && fresh(Repr - old(Repr)) && running && !Stopped(fired, cb)
        invariant Ends(View(), now, cb, left)
        invariant whole == Pass(Fire(View(), now, cb, left).ts, fired + Fire(View(), now, cb, left).fired)
        decreases left
      {
        ghost var v := View();
        var fire, k := FindSoonest(now);
        if fire == null {
          FireNothing(v, now, cb, left);
          assert fired + [] == fired;
          break;
        }
        FireNext(v, now, cb, k, left, fired);
        Deactivate(fire, k);
        RunCallback(cb(k));
        fired := fired + [k];
        if !running {
          break;
        }
        left := left - 1;
      }
    }

    /** Unlink every inactive timer. */
    method ReapInactive()
      requires Valid()
      modifies this, Repr
      ensures Valid() && View() == Reaped(old(View())) && Repr == old(Repr)
    {
      hide NoRepeats, Linked, ViewOf, Reaped;
      ghost var v0, n0 := View(), nodes;
      ghost var i: nat, kept: seq<EvTimer> := |nodes|, [];
      var prev: EvTimer? := null;
      var cur := timers;
      ReapedStart(v0);
      assert n0[..|n0|] + [] == n0;
      while cur != null
        invariant i <= |n0| && |v0| == |n0| && Valid() && nodes == n0[..i] + kept && Repr == old(Repr)
        invariant cur == Node(n0, i) && prev == Newest(kept)
        invariant View() == v0[..i] + Reaped(v0[i..])
        decreases i
      {
        ghost var v := View();
        i := i - 1;
        ReapedOne(v0, v, i);
        cur, prev, kept := ReapStep(cur, prev, i, n0, kept, v0[i]);
      }
      assert v0[..0] == [] && v0[0..] == v0;
    }

    ghost function Newest(kept: seq<EvTimer>): EvTimer? {
      if kept == [] then null else kept[0]
    }

    /** Keep or unlink one node and go on to the next. */
    method ReapStep(cur: EvTimer, prev: EvTimer?, ghost i: nat, ghost n0: seq<EvTimer>, ghost kept: seq<EvTimer>,
                    ghost t: Timer)
      returns (next: EvTimer?, prev': EvTimer?, ghost kept': seq<EvTimer>)
      requires Valid() && i < |n0| && nodes == n0[..i + 1] + kept && cur == n0[i] && prev == Newest(kept)
      requires View()[i] == t
      modifies this, Repr
      ensures Valid() && Repr == old(Repr) && nodes == n0[..i] + kept' && next == Node(n0, i) && prev' == Newest(kept')
      ensures View() == if t.active then old(View()) else old(View()[..i] + View()[i + 1..])
    {
      hide NoRepeats, Linked, ViewOf;
      ViewAt(i);
      assert nodes[i] == cur;
      next := Follow(cur, i);
      if !cur.active {
        kept' := kept;
        prev' := prev;
        assert kept != [] ==> nodes[i + 1] == kept[0];
        Unlink(cur, prev, i);
      } else {
        kept' := [cur] + kept;
        prev' := cur;
        assert n0[..i + 1] == n0[..i] + [cur];
      }
    }

    lemma ViewAt(i: nat)
      requires Owned() && i < |nodes|
      ensures View()[i] == Timer(nodes[i].when, nodes[i].active)
    {
    }

    /** Take the node at index `i` out of the chain; `prev` is the newer neighbour. */
    method Unlink(dead: EvTimer, prev: EvTimer?, ghost i: nat)
      requires Valid() && i < |nodes| && nodes[i] == dead
      requires if i + 1 == |nodes| then prev == null else prev == nodes[i + 1]
      modifies this, Repr
      ensures Valid() && nodes == old(nodes[..i] + nodes[i + 1..]) && Repr == old(Repr)
      ensures View() == old(View()[..i] + View()[i + 1..])
    {
      hide NoRepeats, ViewOf, Linked;
      NoRepeatsWithout(nodes, i);
      ghost var n, m := nodes, nodes[..i] + nodes[i + 1..];
      SkipNode(dead, prev, i, m);
      ViewWithout(n, i, m);
      nodes := m;
    }

    /** The newer neighbour of node `i` now links to the older one. */
    lemma SkippedLinks(n: seq<EvTimer>, i: nat, m: seq<EvTimer>)
      requires i < |n| && m == n[..i] + n[i + 1..]
      requires forall j: nat :: j < |n| ==> n[j].next == Node(n, if j == i + 1 then i else j)
      ensures Linked(m)
    {
      forall j: nat | j < |m| ensures m[j].next == Node(m, j) {
        assert m[j] == n[if j < i then j else j + 1];
      }
    }

    /** Make the newer neighbour, or the head, skip the node. */
    method SkipNode(dead: EvTimer, prev: EvTimer?, ghost i: nat, ghost m: seq<EvTimer>)
      requires Valid() && i < |nodes| && nodes[i] == dead && m == nodes[..i] + nodes[i + 1..]
      requires if i + 1 == |nodes| then prev == null else prev == nodes[i + 1]
      modifies this`timers, Repr
      ensures timers == Node(m, |m|) && Linked(m) && Owned() && View() == old(View())
    {
      hide NoRepeats;
      ghost var n, v := nodes, View();
      if prev == null {
        timers := dead.next;
      } else {
        NoRepeatsAt(n, i + 1);
        prev.next := dead.next;
      }
      SkippedLinks(n, i, m);
      forall j: nat | j < |n| ensures View()[j] == v[j] {
      }
    }
  }

  /** Dropping a node from the list drops its value from the view. */
  lemma ViewWithout(n: seq<EvTimer>, i: nat, m: seq<EvTimer>)
    requires i < |n| && m == n[..i] + n[i + 1..]
    ensures ViewOf(m) == ViewOf(n)[..i] + ViewOf(n)[i + 1..]
  {
  }

  lemma FireNothing(ts: seq<Timer>, now: real, cb: nat -> seq<Action>, n: nat)
    requires Ends(ts, now, cb, n) && Soonest(ts, now, 0) < 0
    ensures Fire(ts, now, cb, n) == Pass(ts, [])
  {
  }

  lemma NotStopped(cb: nat -> seq<Action>)
    ensures !Stopped([], cb)
  {
  }

  /** One round of the loop, seen from the whole pass. */
  lemma FireNext(ts: seq<Timer>, now: real, cb: nat -> seq<Action>, k: nat, n: nat, fired: seq<nat>)
    requires Ends(ts, now, cb, n) && k < |ts| && Soonest(ts, now, 0) == k
    ensures Acted(ts, Cancel(k)) == Deactivated(ts, k) && n > 0 && (Stopped(fired + [k], cb) <==> Stops(cb(k)))
    ensures var next := ActedAll(Deactivated(ts, k), cb(k));
            if Stops(cb(k)) then Fire(ts, now, cb, n).ts == next && fired + Fire(ts, now, cb, n).fired == fired + [k]
            else
              && Ends(next, now, cb, n - 1)
              && var rest := Fire(next, now, cb, n - 1);
              Fire(ts, now, cb, n).ts == rest.ts && fired + Fire(ts, now, cb, n).fired == (fired + [k]) + rest.fired
  {
    hide ActedAll, Stops;
  }

  lemma ReapedStart(v: seq<Timer>)
    ensures v == v[..|v|] + Reaped(v[|v|..])
  {
    assert v[|v|..] == [] && v[..|v|] == v;
  }

  /** One step of the reaping, on values. */
  lemma ReapedOne(v0: seq<Timer>, v: seq<Timer>, i: nat)
    requires i < |v0| && v == v0[..i + 1] + Reaped(v0[i + 1..])
    ensures (if v0[i].active then v else v[..i] + v[i + 1..]) == v0[..i] + Reaped(v0[i..])
  {
    hide Reaped;
    ReapedFrom(v0, i);
    assert v0[..i + 1] == v0[..i] + [v0[i]];
  }

  lemma ReapedFrom(v: seq<Timer>, i: nat)
    requires i < |v|
    ensures Reaped(v[i..]) == (if v[i].active then [v[i]] else []) + Reaped(v[i + 1..])
  {
    assert v[i..] == [v[i]] + v[i + 1..];
    ReapedAppend([v[i]], v[i + 1..]);
    assert [v[i]][..0] == [];
    assert Reaped([]) == [];
  }

  /** Reaping keeps exactly the active timers, each as often as before. */
  lemma {:induction false} ReapedKeepsActive(ts: seq<Timer>, t: Timer)
    ensures multiset(Reaped(ts))[t] == if t.active then multiset(ts)[t] else 0
  {
    if ts != [] {
      var n := |ts| - 1;
      ReapedKeepsActive(ts[..n], t);
      assert ts == ts[..n] + [ts[n]];
    }
  }

  /** Any two lists are reaped part by part, so the order is kept. */
  lemma ReapedInOrder(ts: seq<Timer>, i: nat)
    requires i <= |ts|
    ensures Reaped(ts) == Reaped(ts[..i]) + Reaped(ts[i..])
  {
    ReapedAppend(ts[..i], ts[i..]);
    assert ts == ts[..i] + ts[i..];
  }
}
