/**
 The state-space explorer of libs/go-modelcheck/explorer.go: breadth-first search with shortest
 counterexamples, and a backward pass for states that can no longer finish.
 */
module Explorer {
  import opened Basics

  datatype Action<!S> = Action(name: string, fn: S -> Option<S>)

  datatype Invariant<!S> = Invariant(name: string, holds: S -> bool)

  /** `key` and `terminal` are the State interface's methods; zero or negative maxDepth means unbounded. */
  datatype Model<!S> = Model(
    initial: S,
    key: S -> string,
    terminal: S -> bool,
    actions: seq<Action<S>>,
    invariants: seq<Invariant<S>>,
    maxStates: int,
    maxDepth: int)

  datatype Trace<S> = Trace(actions: seq<string>, states: seq<S>)

  datatype Violation<S> = Broken(which: nat, trace: Trace<S>) | BoundHit(trace: Trace<S>)

  datatype Result<S> = Result(
    statesExplored: nat,
    violation: Option<Violation<S>>,
    deadlocks: seq<Trace<S>>,
    wedged: seq<Trace<S>>,
    reached: seq<S>)

  predicate OK<S>(r: Result<S>) {
    r.violation.None? && r.deadlocks == [] && r.wedged == []
  }

  const DEFAULT_MAX_STATES := 500_000

  function Bound<S>(m: Model<S>): int {
    if m.maxStates == 0 then DEFAULT_MAX_STATES else m.maxStates
  }

  // ----- what the model means

  ghost predicate Edge<S>(m: Model<S>, s: S, t: S) {
    exists i :: 0 <= i < |m.actions| && m.actions[i].fn(s) == Some(t)
  }

  ghost predicate NamedEdge<S>(m: Model<S>, name: string, s: S, t: S) {
    exists i :: 0 <= i < |m.actions| && m.actions[i].name == name && m.actions[i].fn(s) == Some(t)
  }

  /** `t` is `n` steps from the initial state. */
  ghost predicate Walk<S(!new)>(m: Model<S>, n: nat, t: S) {
    if n == 0 then t == m.initial else exists s :: Walk(m, n - 1, s) && Edge(m, s, t)
  }

  ghost predicate Reachable<S(!new)>(m: Model<S>, t: S) {
    exists n: nat :: Walk(m, n, t)
  }

  ghost predicate Finishes<S(!new)>(m: Model<S>, s: S, n: nat) {
    if n == 0 then m.terminal(s) else exists t :: Edge(m, s, t) && Finishes(m, t, n - 1)
  }

  /** A terminal state is still reachable from `s`. */
  ghost predicate CanFinish<S(!new)>(m: Model<S>, s: S) {
    exists n: nat :: Finishes(m, s, n)
  }

  predicate AllHold<S>(m: Model<S>, s: S) {
    forall i :: 0 <= i < |m.invariants| ==> m.invariants[i].holds(s)
  }

  /** Non-terminal, and every enabled action leads back to the same key. */
  predicate Dead<S>(m: Model<S>, s: S) {
    !m.terminal(s) && forall i :: 0 <= i < |m.actions| && m.actions[i].fn(s).Some? ==>
      m.key(m.actions[i].fn(s).value) == m.key(s)
  }

  /** What the State interface asks of Key(): states with equal keys are interchangeable. */
  ghost predicate Interchangeable<S>(m: Model<S>, s: S, t: S) {
    && m.terminal(s) == m.terminal(t)
    && AllHold(m, s) == AllHold(m, t)
    && forall i :: 0 <= i < |m.actions| ==>
         && m.actions[i].fn(s).Some? == m.actions[i].fn(t).Some?
         && (m.actions[i].fn(s).Some? ==> m.key(m.actions[i].fn(s).value) == m.key(m.actions[i].fn(t).value))
  }

  ghost predicate Faithful<S(!new)>(m: Model<S>) {
    forall s, t :: m.key(s) == m.key(t) ==> Interchangeable(m, s, t)
  }

  function Last<S>(t: Trace<S>): S
    requires t.states != []
  {
    t.states[|t.states| - 1]
  }

  function Depth<S>(t: Trace<S>): nat {
    |t.actions|
  }

  ghost predicate IsTrace<S>(m: Model<S>, t: Trace<S>) {
    && |t.states| == |t.actions| + 1
    && t.states[0] == m.initial
    && forall i :: 0 <= i < |t.actions| ==> NamedEdge(m, t.actions[i], t.states[i], t.states[i + 1])
  }

  function Extend<S>(t: Trace<S>, name: string, s: S): Trace<S> {
    Trace(t.actions + [name], t.states + [s])
  }

  lemma ExtendIsTrace<S>(m: Model<S>, t: Trace<S>, i: nat)
    requires IsTrace(m, t) && i < |m.actions| && m.actions[i].fn(Last(t)).Some?
    ensures IsTrace(m, Extend(t, m.actions[i].name, m.actions[i].fn(Last(t)).value))
    ensures Last(Extend(t, m.actions[i].name, m.actions[i].fn(Last(t)).value)) == m.actions[i].fn(Last(t)).value
  {
    var u := Extend(t, m.actions[i].name, m.actions[i].fn(Last(t)).value);
    assert NamedEdge(m, m.actions[i].name, Last(t), u.states[|t.states|]);
    forall j | 0 <= j < |u.actions|
      ensures NamedEdge(m, u.actions[j], u.states[j], u.states[j + 1])
    {
      if j < |t.actions| {
        assert NamedEdge(m, t.actions[j], t.states[j], t.states[j + 1]);
      }
    }
  }

  lemma NamedIsEdge<S>(m: Model<S>, name: string, s: S, t: S)
    requires NamedEdge(m, name, s, t)
    ensures Edge(m, s, t)
  {
  }

  lemma {:induction false} TraceIsWalk<S(!new)>(m: Model<S>, t: Trace<S>)
    requires IsTrace(m, t)
    ensures Walk(m, Depth(t), Last(t))
    decreases Depth(t)
  {
    if Depth(t) > 0 {
      var n := |t.actions| - 1;
      var front := Trace(t.actions[..n], t.states[..n + 1]);
      forall j | 0 <= j < n
        ensures NamedEdge(m, front.actions[j], front.states[j], front.states[j + 1])
      {
        assert NamedEdge(m, t.actions[j], t.states[j], t.states[j + 1]);
      }
      TraceIsWalk(m, front);
      NamedIsEdge(m, t.actions[n], t.states[n], t.states[n + 1]);
      assert Last(front) == t.states[n] && Last(t) == t.states[n + 1];
    }
  }

  // ----- the search invariant

  type Seen<S> = map<string, Trace<S>>

  ghost predicate SeenOk<S>(m: Model<S>, seen: Seen<S>) {
    && m.key(m.initial) in seen
    && Depth(seen[m.key(m.initial)]) == 0
    && forall k :: k in seen ==> IsTrace(m, seen[k]) && m.key(Last(seen[k])) == k && AllHold(m, Last(seen[k]))
  }

  ghost predicate Queued<S>(m: Model<S>, queue: seq<Trace<S>>, k: string) {
    exists i :: 0 <= i < |queue| && queue[i].states != [] && m.key(Last(queue[i])) == k
  }

  /** The queue holds seen traces, each once, in order of depth, spanning at most two levels. */
  ghost predicate QueueOk<S>(m: Model<S>, seen: Seen<S>, queue: seq<Trace<S>>) {
    && (forall i :: 0 <= i < |queue| ==>
          queue[i].states != [] && m.key(Last(queue[i])) in seen && seen[m.key(Last(queue[i]))] == queue[i])
    && (forall i, j :: 0 <= i < j < |queue| ==>
          Depth(queue[i]) <= Depth(queue[j]) && m.key(Last(queue[i])) != m.key(Last(queue[j])))
    && (forall i :: 0 <= i < |queue| ==>
          Depth(queue[i]) <= Depth(queue[0]) + 1 && (m.maxDepth > 0 ==> Depth(queue[i]) <= m.maxDepth))
  }

  predicate Within<S>(m: Model<S>, n: nat) {
    m.maxDepth <= 0 || n < m.maxDepth
  }

  /** Every successor of the state seen under `k` is seen too, at most one step deeper. */
  ghost predicate Expanded<S>(m: Model<S>, seen: Seen<S>, k: string)
    requires SeenOk(m, seen) && k in seen
  {
    forall i :: 0 <= i < |m.actions| && m.actions[i].fn(Last(seen[k])).Some? ==>
      var t := m.key(m.actions[i].fn(Last(seen[k])).value);
      t in seen && Depth(seen[t]) <= Depth(seen[k]) + 1
  }

  ghost predicate Searched<S>(m: Model<S>, seen: Seen<S>, queue: seq<Trace<S>>) {
    && SeenOk(m, seen)
    && QueueOk(m, seen, queue)
    && (forall k :: k in seen && !Queued(m, queue, k) && Within(m, Depth(seen[k])) ==> Expanded(m, seen, k))
    && (forall k :: k in seen && !Queued(m, queue, k) && queue != [] ==> Depth(seen[k]) <= Depth(queue[0]))
  }

  lemma SuccessorSeen<S(!new)>(m: Model<S>, seen: Seen<S>, s: S, t: S)
    requires Faithful(m) && SeenOk(m, seen) && m.key(s) in seen && Expanded(m, seen, m.key(s)) && Edge(m, s, t)
    ensures m.key(t) in seen && Depth(seen[m.key(t)]) <= Depth(seen[m.key(s)]) + 1
  {
    assert Interchangeable(m, s, Last(seen[m.key(s)]));
    var i :| 0 <= i < |m.actions| && m.actions[i].fn(s) == Some(t);
    assert m.key(m.actions[i].fn(Last(seen[m.key(s)])).value) == m.key(t);
  }

  lemma ShallowIsDone<S>(m: Model<S>, seen: Seen<S>, queue: seq<Trace<S>>, k: string)
    requires Searched(m, seen, queue) && k in seen
    requires queue != [] ==> Depth(seen[k]) < Depth(queue[0])
    ensures !Queued(m, queue, k)
  {
  }

  lemma WalkEnds<S(!new)>(m: Model<S>, n: nat, t: S) returns (s: S)
    requires Walk(m, n, t)
    ensures if n == 0 then t == m.initial else Walk(m, n - 1, s) && Edge(m, s, t)
  {
    s := t;
    if n > 0 { s :| Walk(m, n - 1, s) && Edge(m, s, t); }
  }

  /** Breadth-first: everything within `n` steps has been seen, at its true distance or less. */
  lemma {:induction false} Covered<S(!new)>(m: Model<S>, seen: Seen<S>, queue: seq<Trace<S>>, n: nat, t: S)
    requires Faithful(m) && Searched(m, seen, queue)
    requires queue != [] ==> n <= Depth(queue[0])
    requires m.maxDepth > 0 ==> n <= m.maxDepth
    requires Walk(m, n, t)
    ensures m.key(t) in seen && Depth(seen[m.key(t)]) <= n
    decreases n
  {
    hide Walk, QueueOk, Queued, Expanded, Faithful, IsTrace, AllHold;
    var s := WalkEnds(m, n, t);
    if n > 0 {
      Covered(m, seen, queue, n - 1, s);
      ShallowIsDone(m, seen, queue, m.key(s));
      SuccessorSeen(m, seen, s, t);
    }
  }

  lemma QueuedAppend<S>(m: Model<S>, queue: seq<Trace<S>>, t: Trace<S>, k: string)
    requires t.states != []
    ensures Queued(m, queue + [t], k) <==> Queued(m, queue, k) || m.key(Last(t)) == k
  {
    assert (queue + [t])[|queue|] == t;
    assert forall i :: 0 <= i < |queue| ==> (queue + [t])[i] == queue[i];
  }

  lemma QueuedTail<S>(m: Model<S>, queue: seq<Trace<S>>, k: string)
    requires queue != [] && queue[0].states != []
    ensures Queued(m, queue, k) <==> Queued(m, queue[1..], k) || m.key(Last(queue[0])) == k
  {
    assert queue == [queue[0]] + queue[1..];
    assert forall i :: 0 <= i < |queue[1..]| ==> queue[1..][i] == queue[i + 1];
    if i :| 1 <= i < |queue| && queue[i].states != [] && m.key(Last(queue[i])) == k {
      assert queue[1..][i - 1] == queue[i];
    }
  }

  lemma AppendKeepsQueue<S>(m: Model<S>, seen: Seen<S>, queue: seq<Trace<S>>, t: Trace<S>)
    requires QueueOk(m, seen, queue) && queue != [] && Within(m, Depth(queue[0]))
    requires t.states != [] && Depth(t) == Depth(queue[0]) + 1 && m.key(Last(t)) !in seen
    ensures QueueOk(m, seen[m.key(Last(t)) := t], queue + [t])
  {
    var seen', queue' := seen[m.key(Last(t)) := t], queue + [t];
    assert forall i :: 0 <= i < |queue'| ==> queue'[i] == if i < |queue| then queue[i] else t;
  }

  lemma Enqueue<S>(m: Model<S>, seen: Seen<S>, queue: seq<Trace<S>>, t: Trace<S>)
    requires Searched(m, seen, queue) && queue != [] && Within(m, Depth(queue[0]))
    requires IsTrace(m, t) && AllHold(m, Last(t)) && Depth(t) == Depth(queue[0]) + 1 && m.key(Last(t)) !in seen
    ensures Searched(m, seen[m.key(Last(t)) := t], queue + [t])
  {
    hide QueueOk, Queued, AllHold;
    var seen', queue' := seen[m.key(Last(t)) := t], queue + [t];
    AppendKeepsQueue(m, seen, queue, t);
    forall k
      ensures Queued(m, queue', k) <==> Queued(m, queue, k) || m.key(Last(t)) == k
    {
      QueuedAppend(m, queue, t, k);
    }
    assert SeenOk(m, seen');
    assert queue'[0] == queue[0];
    assert forall k :: k in seen && Expanded(m, seen, k) ==> Expanded(m, seen', k);
  }

  lemma TailKeepsQueue<S>(m: Model<S>, seen: Seen<S>, queue: seq<Trace<S>>)
    requires QueueOk(m, seen, queue) && queue != []
    ensures QueueOk(m, seen, queue[1..])
    ensures queue[0].states != [] && m.key(Last(queue[0])) in seen && seen[m.key(Last(queue[0]))] == queue[0]
    ensures |queue| > 1 ==> Depth(queue[0]) <= Depth(queue[1..][0])
  {
    assert forall i :: 0 <= i < |queue[1..]| ==> queue[1..][i] == queue[i + 1];
  }

  lemma Dequeue<S>(m: Model<S>, seen: Seen<S>, queue: seq<Trace<S>>)
    requires Searched(m, seen, queue) && queue != []
    requires Within(m, Depth(queue[0])) ==> Expanded(m, seen, m.key(Last(queue[0])))
    ensures Searched(m, seen, queue[1..])
  {
    hide QueueOk, Queued, AllHold, IsTrace, Expanded;
    TailKeepsQueue(m, seen, queue);
    forall k
      ensures Queued(m, queue, k) <==> Queued(m, queue[1..], k) || m.key(Last(queue[0])) == k
    {
      QueuedTail(m, queue, k);
    }
  }

  /** Everything seen while `queue[0]` is being expanded is at most one step deeper than it. */
  lemma SeenIsShallow<S>(m: Model<S>, seen: Seen<S>, queue: seq<Trace<S>>, k: string)
    requires Searched(m, seen, queue) && queue != [] && k in seen
    ensures Depth(seen[k]) <= Depth(queue[0]) + 1
  {
    if Queued(m, queue, k) {
      var i :| 0 <= i < |queue| && m.key(Last(queue[i])) == k;
    }
  }

  /** The keys of `s`'s successors under its first `n` actions, self-loops left out. */
  ghost predicate Succeeds<S>(m: Model<S>, s: S, n: nat, k: string)
    requires n <= |m.actions|
  {
    k != m.key(s) && exists i :: 0 <= i < n && m.actions[i].fn(s).Some? && m.key(m.actions[i].fn(s).value) == k
  }

  method CheckInvariants<S>(m: Model<S>, s: S) returns (broken: Option<nat>)
    ensures broken.None? <==> AllHold(m, s)
    ensures broken.Some? ==> broken.value < |m.invariants| && !m.invariants[broken.value].holds(s)
    ensures broken.Some? ==> forall j :: 0 <= j < broken.value ==> m.invariants[j].holds(s)
  {
    for i := 0 to |m.invariants|
      invariant forall j :: 0 <= j < i ==> m.invariants[j].holds(s)
    {
      if !m.invariants[i].holds(s) { return Some(i); }
    }
    return None;
  }

  /** A violation names a real trace, and no state nearer than its end breaks any invariant. */
  ghost predicate Genuine<S(!new)>(m: Model<S>, v: Violation<S>) {
    && IsTrace(m, v.trace)
    && (v.Broken? ==>
          && v.which < |m.invariants| && !m.invariants[v.which].holds(Last(v.trace))
          && (forall j :: 0 <= j < v.which ==> m.invariants[j].holds(Last(v.trace)))
          && (forall n: nat, t :: Walk(m, n, t) && !AllHold(m, t) ==> Depth(v.trace) <= n))
  }

  lemma NothingNearerBroken<S(!new)>(m: Model<S>, seen: Seen<S>, queue: seq<Trace<S>>)
    requires Faithful(m) && Searched(m, seen, queue) && queue != []
    ensures forall n: nat, t :: Walk(m, n, t) && !AllHold(m, t) ==> Depth(queue[0]) < n
  {
    hide Walk, AllHold;
    forall n: nat, t | Walk(m, n, t) && n <= Depth(queue[0])
      ensures AllHold(m, t)
    {
      Covered(m, seen, queue, n, t);
      assert Interchangeable(m, t, Last(seen[m.key(t)]));
    }
  }

  lemma SucceedsNext<S>(m: Model<S>, s: S, n: nat, k: string)
    requires n < |m.actions|
    ensures Succeeds(m, s, n + 1, k) <==>
      Succeeds(m, s, n, k) || (k != m.key(s) && m.actions[n].fn(s).Some? && m.key(m.actions[n].fn(s).value) == k)
  {
  }

  /** The search has only gone further: old entries stay, new ones are queued, and the bound is not reached. */
  ghost predicate Grown<S>(m: Model<S>, seen0: Seen<S>, queue0: seq<Trace<S>>, seen: Seen<S>, queue: seq<Trace<S>>) {
    && Searched(m, seen, queue)
    && queue0 <= queue
    && (forall k :: k in seen0 ==> k in seen && seen[k] == seen0[k])
    && (forall k :: k in seen && k !in seen0 ==> Queued(m, queue, k))
    && (forall k :: k in seen0 && Queued(m, queue, k) ==> Queued(m, queue0, k))
    && (if |seen| == |seen0| then queue == queue0 else |seen0| < |seen| < Bound(m))
  }

  lemma GrowsByOne<S>(m: Model<S>, seen0: Seen<S>, queue0: seq<Trace<S>>, seen: Seen<S>, queue: seq<Trace<S>>,
      t: Trace<S>)
    requires Grown(m, seen0, queue0, seen, queue)
    requires queue != [] && Within(m, Depth(queue[0])) && IsTrace(m, t) && AllHold(m, Last(t))
    requires t.states != [] && Depth(t) == Depth(queue[0]) + 1 && m.key(Last(t)) !in seen
    requires |seen| + 1 < Bound(m)
    ensures Grown(m, seen0, queue0, seen[m.key(Last(t)) := t], queue + [t])
  {
    hide Searched, IsTrace, Queued, AllHold;
    Enqueue(m, seen, queue, t);
    forall k
      ensures Queued(m, queue + [t], k) <==> Queued(m, queue, k) || m.key(Last(t)) == k
    {
      QueuedAppend(m, queue, t, k);
    }
  }

  lemma FrontExpanded<S>(m: Model<S>, seen: Seen<S>, queue: seq<Trace<S>>)
    requires Searched(m, seen, queue) && queue != []
    requires forall j :: 0 <= j < |m.actions| && m.actions[j].fn(Last(queue[0])).Some? ==>
      m.key(m.actions[j].fn(Last(queue[0])).value) in seen
    ensures Expanded(m, seen, m.key(Last(queue[0])))
  {
    forall k | k in seen
      ensures Depth(seen[k]) <= Depth(queue[0]) + 1
    {
      SeenIsShallow(m, seen, queue, k);
    }
  }

  lemma FrontIsTrace<S>(m: Model<S>, seen: Seen<S>, queue: seq<Trace<S>>)
    requires Searched(m, seen, queue) && queue != []
    ensures IsTrace(m, queue[0]) && m.key(Last(queue[0])) in seen
  {
  }

  /** Runs every action on the front of the queue; the front stays queued until the caller removes it. */
  method Expand<S(!new)>(m: Model<S>, seen0: Seen<S>, queue0: seq<Trace<S>>)
    returns (seen: Seen<S>, queue: seq<Trace<S>>, succ: seq<string>, violation: Option<Violation<S>>)
    requires Faithful(m) && Searched(m, seen0, queue0) && queue0 != [] && Within(m, Depth(queue0[0]))
    ensures violation.Some? ==> Genuine(m, violation.value)
    ensures violation.None? ==> Grown(m, seen0, queue0, seen, queue) && Expanded(m, seen, m.key(Last(queue0[0])))
    ensures violation.None? ==> forall k :: k in succ <==> Succeeds(m, Last(queue0[0]), |m.actions|, k)
    ensures violation.Some? ==> |seen| > |seen0| && m.key(Last(violation.value.trace)) in seen
    ensures violation.Some? && violation.value.BoundHit? ==> |seen| >= Bound(m)
  {
    hide Searched, AllHold, Queued, Faithful, Expanded, Walk, IsTrace;
    seen, queue, succ, violation := seen0, queue0, [], None;
    var cur := queue0[0];
    FrontIsTrace(m, seen0, queue0);
    var state := Last(cur);
    for i := 0 to |m.actions|
      invariant Grown(m, seen0, queue0, seen, queue) && queue != [] && queue[0] == cur
      invariant forall j :: 0 <= j < i && m.actions[j].fn(state).Some? ==> m.key(m.actions[j].fn(state).value) in seen
      invariant forall k :: k in succ <==> Succeeds(m, state, i, k)
    {
      forall k ensures Succeeds(m, state, i + 1, k) <==>
        Succeeds(m, state, i, k) ||
          (k != m.key(state) && m.actions[i].fn(state).Some? && m.key(m.actions[i].fn(state).value) == k)
      {
        SucceedsNext(m, state, i, k);
      }
      var next := m.actions[i].fn(state);
      if next.Some? && m.key(next.value) != m.key(state) {
        succ := succ + [m.key(next.value)];
        if m.key(next.value) !in seen {
          var trace := Extend(cur, m.actions[i].name, next.value);
          ExtendIsTrace(m, cur, i);
          var broken := CheckInvariants(m, next.value);
          if broken.Some? {
            NothingNearerBroken(m, seen, queue);
            seen := seen[m.key(next.value) := trace];
            violation := Some(Broken(broken.value, trace));
            return;
          }
          if |seen| + 1 >= Bound(m) {
            seen, queue := seen[m.key(next.value) := trace], queue + [trace];
            violation := Some(BoundHit(trace));
            return;
          }
          GrowsByOne(m, seen0, queue0, seen, queue, trace);
          seen, queue := seen[m.key(next.value) := trace], queue + [trace];
        }
      }
    }
    FrontExpanded(m, seen, queue);
  }
}
