/** The two passes of the explorer: the search itself, and the backward liveness pass. */
module ExplorerRun {
  import opened Basics
  import opened Explorer

  // ----- findWedged

  type Graph = map<string, seq<string>>

  ghost predicate Ends<S>(m: Model<S>, seen: Seen<S>, succ: Graph, k: string, n: nat)
    decreases n
  {
    if n == 0 then k in seen && seen[k].states != [] && m.terminal(Last(seen[k]))
    else k in succ && exists j :: j in succ[k] && Ends(m, seen, succ, j, n - 1)
  }

  ghost predicate EndsSomehow<S>(m: Model<S>, seen: Seen<S>, succ: Graph, k: string) {
    exists n: nat :: Ends(m, seen, succ, k, n)
  }

  ghost predicate GraphOf<S>(seen: Seen<S>, succ: Graph) {
    && (forall k :: k in seen ==> seen[k].states != [])
    && (forall k :: k in succ ==> k in seen)
    && (forall k, j :: k in succ && j in succ[k] ==> j in seen)
  }

  /** `done` is closed under predecessors, except for those of the nodes in `open`. */
  ghost predicate BackwardClosed(succ: Graph, done: set<string>, open: set<string>) {
    forall p, j :: p in succ && j in succ[p] && j in done && j !in open ==> p in done
  }

  lemma {:induction false} ClosedHasAll<S>(m: Model<S>, seen: Seen<S>, succ: Graph, done: set<string>, k: string,
      n: nat)
    requires BackwardClosed(succ, done, {}) && Ends(m, seen, succ, k, n)
    requires forall t :: t in seen && seen[t].states != [] && m.terminal(Last(seen[t])) ==> t in done
    ensures k in done
    decreases n
  {
    if n > 0 {
      var j :| j in succ[k] && Ends(m, seen, succ, j, n - 1);
      ClosedHasAll(m, seen, succ, done, j, n - 1);
    }
  }

  lemma StepBack<S>(m: Model<S>, seen: Seen<S>, succ: Graph, p: string, j: string)
    requires p in succ && j in succ[p] && EndsSomehow(m, seen, succ, j)
    ensures EndsSomehow(m, seen, succ, p)
  {
    var n: nat :| Ends(m, seen, succ, j, n);
    assert Ends(m, seen, succ, p, n + 1);
  }

  lemma PredecessorsAdded(succ: Graph, done: set<string>, open: set<string>, cur: string, preds: set<string>)
    requires BackwardClosed(succ, done, open)
    requires preds == Predecessors(succ, cur) - done
    ensures BackwardClosed(succ, done + preds, open - {cur} + preds)
  {
  }

  lemma LessLeft(all: set<string>, done: set<string>, open: set<string>, cur: string, preds: set<string>)
    requires cur in open && preds <= all - done
    ensures |all - (done + preds)| < |all - done| || (done + preds == done && |open - {cur} + preds| < |open|)
  {
    if preds == {} {
      assert done + preds == done && open - {cur} + preds == open - {cur};
    } else {
      assert all - (done + preds) == all - done - preds;
      assert |all - done - preds| == |all - done| - |preds|;
    }
  }

  /**
   The worklist invariant: `done` has every terminal node, only nodes that can finish, and is closed outside `open`.
   */
  ghost predicate Backward<S>(m: Model<S>, seen: Seen<S>, succ: Graph, done: set<string>, open: set<string>) {
    && GraphOf(seen, succ)
    && open <= done <= seen.Keys
    && (forall k :: k in seen && m.terminal(Last(seen[k])) ==> k in done)
    && (forall k :: k in done ==> EndsSomehow(m, seen, succ, k))
    && BackwardClosed(succ, done, open)
  }

  function Predecessors(succ: Graph, k: string): set<string> {
    set p | p in succ && k in succ[p]
  }

  lemma BackwardStep<S>(m: Model<S>, seen: Seen<S>, succ: Graph, done: set<string>, open: set<string>, cur: string,
      preds: set<string>)
    requires Backward(m, seen, succ, done, open) && cur in open && preds == Predecessors(succ, cur) - done
    ensures preds <= seen.Keys - done
    ensures Backward(m, seen, succ, done + preds, open - {cur} + preds)
  {
    hide EndsSomehow, BackwardClosed;
    forall p | p in preds
      ensures EndsSomehow(m, seen, succ, p)
    {
      StepBack(m, seen, succ, p, cur);
    }
    PredecessorsAdded(succ, done, open, cur, preds);
  }

  lemma BackwardStart<S>(m: Model<S>, seen: Seen<S>, succ: Graph, done: set<string>)
    requires GraphOf(seen, succ) && done == set k | k in seen && m.terminal(Last(seen[k]))
    ensures Backward(m, seen, succ, done, done)
  {
    forall k | k in done
      ensures EndsSomehow(m, seen, succ, k)
    {
      TerminalEnds(m, seen, succ, k);
    }
  }

  lemma BackwardEnd<S>(m: Model<S>, seen: Seen<S>, succ: Graph, done: set<string>)
    requires Backward(m, seen, succ, done, {})
    ensures forall k :: k in done <==> k in seen && EndsSomehow(m, seen, succ, k)
  {
    hide EndsSomehow, BackwardClosed;
    forall k | k in seen && EndsSomehow(m, seen, succ, k)
      ensures k in done
    {
      EndsInDone(m, seen, succ, done, k);
    }
  }

  /** Backwards reachability over a worklist: exactly the nodes from which a terminal node can be reached. */
  method CanFinishKeys<S(!new)>(m: Model<S>, seen: Seen<S>, succ: Graph) returns (done: set<string>)
    requires GraphOf(seen, succ)
    ensures forall k :: k in done <==> k in seen && EndsSomehow(m, seen, succ, k)
  {
    hide EndsSomehow, Backward;
    done := set k | k in seen && m.terminal(Last(seen[k]));
    BackwardStart(m, seen, succ, done);
    var frontier := done;
    while frontier != {}
      invariant Backward(m, seen, succ, done, frontier)
      decreases |seen.Keys - done|, |frontier|
    {
      var cur :| cur in frontier;
      var preds := Predecessors(succ, cur) - done;
      BackwardStep(m, seen, succ, done, frontier, cur, preds);
      LessLeft(seen.Keys, done, frontier, cur, preds);
      frontier, done := frontier - {cur} + preds, done + preds;
    }
    BackwardEnd(m, seen, succ, done);
  }

  lemma TerminalEnds<S>(m: Model<S>, seen: Seen<S>, succ: Graph, k: string)
    requires k in seen && seen[k].states != [] && m.terminal(Last(seen[k]))
    ensures EndsSomehow(m, seen, succ, k)
  {
    assert Ends(m, seen, succ, k, 0);
  }

  lemma EndsInDone<S>(m: Model<S>, seen: Seen<S>, succ: Graph, done: set<string>, k: string)
    requires BackwardClosed(succ, done, {}) && EndsSomehow(m, seen, succ, k)
    requires forall t :: t in seen && seen[t].states != [] && m.terminal(Last(seen[t])) ==> t in done
    ensures k in done
  {
    var n: nat :| Ends(m, seen, succ, k, n);
    ClosedHasAll(m, seen, succ, done, k, n);
  }

  /** String order, as sort.Slice uses it. */
  predicate UpTo(a: string, b: string) {
    a == [] || (b != [] && (a[0] < b[0] || (a[0] == b[0] && UpTo(a[1..], b[1..]))))
  }

  lemma {:induction false} UpToTotal(a: string, b: string)
    ensures UpTo(a, b) || UpTo(b, a)
    decreases |a|
  {
    if a != [] && b != [] { UpToTotal(a[1..], b[1..]); }
  }

  lemma {:induction false} UpToTransitive(a: string, b: string, c: string)
    requires UpTo(a, b) && UpTo(b, c)
    ensures UpTo(a, c)
    decreases |a|
  {
    if a != [] && a[0] == b[0] && b[0] == c[0] { UpToTransitive(a[1..], b[1..], c[1..]); }
  }

  function EndKey<S>(m: Model<S>, t: Trace<S>): string {
    if t.states == [] then "" else m.key(Last(t))
  }

  /** Shorter first; equally long ones by the key of their last state. */
  predicate Precedes<S>(m: Model<S>, t: Trace<S>, u: Trace<S>) {
    Depth(t) < Depth(u) || (Depth(t) == Depth(u) && UpTo(EndKey(m, t), EndKey(m, u)))
  }

  lemma PrecedesTotal<S>(m: Model<S>, t: Trace<S>, u: Trace<S>)
    ensures Precedes(m, t, u) || Precedes(m, u, t)
  {
    UpToTotal(EndKey(m, t), EndKey(m, u));
  }

  lemma PrecedesTransitive<S>(m: Model<S>, t: Trace<S>, u: Trace<S>, v: Trace<S>)
    requires Precedes(m, t, u) && Precedes(m, u, v)
    ensures Precedes(m, t, v)
  {
    if Depth(t) == Depth(v) { UpToTransitive(EndKey(m, t), EndKey(m, u), EndKey(m, v)); }
  }

  ghost predicate ByDepth<S>(m: Model<S>, ts: seq<Trace<S>>) {
    forall i, j :: 0 <= i < j < |ts| ==> Precedes(m, ts[i], ts[j])
  }

  /** `out` is `ts` with `t` put in at position `i`. */
  ghost predicate InsertedAt<S>(ts: seq<Trace<S>>, out: seq<Trace<S>>, t: Trace<S>, i: nat) {
    && i <= |ts| && |out| == |ts| + 1 && out[i] == t
    && (forall j :: 0 <= j < i ==> out[j] == ts[j])
    && (forall j :: i < j < |out| ==> out[j] == ts[j - 1])
  }

  lemma InsertedMembers<S>(ts: seq<Trace<S>>, out: seq<Trace<S>>, t: Trace<S>, i: nat)
    requires InsertedAt(ts, out, t, i)
    ensures forall u :: u in out <==> u in ts || u == t
  {
    forall u | u in ts
      ensures u in out
    {
      var j :| 0 <= j < |ts| && ts[j] == u;
      assert j < i ==> out[j] == u;
      assert j >= i ==> out[j + 1] == u;
    }
  }

  method InsertByDepth<S>(m: Model<S>, ts: seq<Trace<S>>, t: Trace<S>) returns (out: seq<Trace<S>>)
    requires ByDepth(m, ts)
    ensures ByDepth(m, out) && |out| == |ts| + 1
    ensures forall u :: u in out <==> u in ts || u == t
  {
    hide Precedes;
    var i := 0;
    while i < |ts| && Precedes(m, ts[i], t)
      invariant 0 <= i <= |ts|
      invariant forall j :: 0 <= j < i ==> Precedes(m, ts[j], t)
    {
      i := i + 1;
    }
    out := ts[..i] + [t] + ts[i..];
    InsertedMembers(ts, out, t, i);
    if i < |ts| {
      PrecedesTotal(m, ts[i], t);
      forall j | i < j < |ts| ensures Precedes(m, t, ts[j]) { PrecedesTransitive(m, t, ts[i], ts[j]); }
    }
  }

  /** The traces of the states left over, shortest first and then by key. */
  method FindWedged<S(!new)>(m: Model<S>, seen: Seen<S>, succ: Graph) returns (wedged: seq<Trace<S>>)
    requires GraphOf(seen, succ)
    ensures forall t :: t in wedged <==> exists k :: k in seen && seen[k] == t && !EndsSomehow(m, seen, succ, k)
    ensures ByDepth(m, wedged)
  {
    hide EndsSomehow, ByDepth;
    var done := CanFinishKeys(m, seen, succ);
    var keys := seen.Keys - done;
    wedged := [];
    EmptyByDepth(m);
    while keys != {}
      invariant keys <= seen.Keys - done
      invariant ByDepth(m, wedged)
      invariant forall t :: t in wedged <==> exists k :: k in seen && seen[k] == t && k !in done && k !in keys
    {
      var k :| k in keys;
      keys := keys - {k};
      wedged := InsertByDepth(m, wedged, seen[k]);
    }
  }

  lemma EmptyByDepth<S>(m: Model<S>)
    ensures ByDepth(m, [])
  {
  }

  // ----- what a result promises

  predicate InReach<S>(m: Model<S>, n: nat) {
    m.maxDepth > 0 ==> n <= m.maxDepth
  }

  /**
   `reached` is, up to keys, every state within the depth bound, each once; and every invariant holds on all of them.
   */
  ghost predicate Exhaustive<S(!new)>(m: Model<S>, r: Result<S>) {
    && r.statesExplored == |r.reached|
    && (forall i, j :: 0 <= i < j < |r.reached| ==> m.key(r.reached[i]) != m.key(r.reached[j]))
    && (forall t :: t in r.reached ==> exists n: nat :: InReach(m, n) && Walk(m, n, t))
    && (forall n: nat, t :: InReach(m, n) && Walk(m, n, t) ==> AllHold(m, t) && KeyAmong(m, r.reached, m.key(t)))
  }

  ghost predicate KeyAmong<S>(m: Model<S>, states: seq<S>, k: string) {
    exists u :: u in states && m.key(u) == k
  }

  ghost predicate TraceAmong<S>(m: Model<S>, traces: seq<Trace<S>>, k: string) {
    exists d :: d in traces && d.states != [] && m.key(Last(d)) == k
  }

  /** `deadlocks` are exactly the dead states that can be reached, each with a real trace. */
  ghost predicate DeadlocksExact<S(!new)>(m: Model<S>, r: Result<S>) {
    && (forall d :: d in r.deadlocks ==> IsTrace(m, d) && Dead(m, Last(d)))
    && (forall t :: Reachable(m, t) && Dead(m, t) ==> TraceAmong(m, r.deadlocks, m.key(t)))
  }

  /** `wedged` are exactly the reachable states from which no terminal state can be reached. */
  ghost predicate WedgedExact<S(!new)>(m: Model<S>, r: Result<S>) {
    && (forall w :: w in r.wedged ==> IsTrace(m, w) && !CanFinish(m, Last(w)))
    && (forall t :: Reachable(m, t) && !CanFinish(m, t) ==> TraceAmong(m, r.wedged, m.key(t)))
    && ByDepth(m, r.wedged)
  }

  // ----- bookkeeping beside the search

  ghost predicate Processed<S>(m: Model<S>, seen: Seen<S>, queue: seq<Trace<S>>, k: string) {
    k in seen && !Queued(m, queue, k) && Within(m, Depth(seen[k]))
  }

  /** The successor relation is recorded for exactly the processed states. */
  ghost predicate Mapped<S>(m: Model<S>, seen: Seen<S>, queue: seq<Trace<S>>, succ: Graph)
    requires SeenOk(m, seen)
  {
    && (forall k :: k in succ <==> Processed(m, seen, queue, k))
    && (forall k :: k in succ ==> forall j :: j in succ[k] <==> Succeeds(m, Last(seen[k]), |m.actions|, j))
  }

  ghost predicate DeadRecorded<S>(m: Model<S>, seen: Seen<S>, queue: seq<Trace<S>>, dead: seq<Trace<S>>)
    requires SeenOk(m, seen)
  {
    && (forall d :: d in dead ==> IsTrace(m, d) && Dead(m, Last(d)))
    && (forall k :: Processed(m, seen, queue, k) && Dead(m, Last(seen[k])) ==> seen[k] in dead)
  }

  lemma FrontOnce<S>(m: Model<S>, seen: Seen<S>, queue: seq<Trace<S>>)
    requires QueueOk(m, seen, queue) && queue != []
    ensures queue[0].states != [] && m.key(Last(queue[0])) in seen && seen[m.key(Last(queue[0]))] == queue[0]
    ensures Queued(m, queue, m.key(Last(queue[0]))) && !Queued(m, queue[1..], m.key(Last(queue[0])))
  {
    assert forall i :: 0 <= i < |queue[1..]| ==> queue[1..][i] == queue[i + 1];
  }

  lemma PrefixQueued<S>(m: Model<S>, queue0: seq<Trace<S>>, queue: seq<Trace<S>>, k: string)
    requires queue0 <= queue && Queued(m, queue0, k)
    ensures Queued(m, queue, k)
  {
    var i :| 0 <= i < |queue0| && queue0[i].states != [] && m.key(Last(queue0[i])) == k;
    assert queue[i] == queue0[i];
  }

  lemma ProcessedAfter<S>(m: Model<S>, seen0: Seen<S>, queue0: seq<Trace<S>>, seen: Seen<S>, queue: seq<Trace<S>>,
      k: string)
    requires Searched(m, seen0, queue0) && queue0 != [] && Grown(m, seen0, queue0, seen, queue)
    ensures Processed(m, seen, queue[1..], k) <==>
      Processed(m, seen0, queue0, k) || (k == m.key(Last(queue0[0])) && Within(m, Depth(queue0[0])))
  {
    hide Queued, QueueOk, Expanded, SeenOk;
    FrontOnce(m, seen, queue);
    FrontOnce(m, seen0, queue0);
    QueuedTail(m, queue, k);
    if Queued(m, queue0, k) { PrefixQueued(m, queue0, queue, k); }
  }

  lemma MapAfter<S>(m: Model<S>, seen0: Seen<S>, queue0: seq<Trace<S>>, seen: Seen<S>, queue: seq<Trace<S>>,
      succ0: Graph, succ: Graph, list: seq<string>)
    requires Searched(m, seen0, queue0) && queue0 != [] && Grown(m, seen0, queue0, seen, queue) &&
      Mapped(m, seen0, queue0, succ0)
    requires Within(m, Depth(queue0[0])) ==> forall j :: j in list <==> Succeeds(m, Last(queue0[0]), |m.actions|, j)
    requires succ == if Within(m, Depth(queue0[0])) then succ0[m.key(Last(queue0[0])) := list] else succ0
    ensures Mapped(m, seen, queue[1..], succ)
  {
    hide Queued, QueueOk, Expanded, Succeeds, Processed, IsTrace, AllHold;
    FrontOnce(m, seen0, queue0);
    forall k
      ensures Processed(m, seen, queue[1..], k) <==>
        Processed(m, seen0, queue0, k) || (k == m.key(Last(queue0[0])) && Within(m, Depth(queue0[0])))
    {
      ProcessedAfter(m, seen0, queue0, seen, queue, k);
    }
    assert forall k :: k in succ0 ==> k in seen0 by { ProcessedSeen(m, seen0, queue0); }
  }

  lemma ProcessedSeen<S>(m: Model<S>, seen: Seen<S>, queue: seq<Trace<S>>)
    ensures forall k :: Processed(m, seen, queue, k) ==> k in seen
  {
  }

  lemma DeadAfter<S>(m: Model<S>, seen0: Seen<S>, queue0: seq<Trace<S>>, seen: Seen<S>, queue: seq<Trace<S>>,
      dead0: seq<Trace<S>>, dead: seq<Trace<S>>)
    requires Searched(m, seen0, queue0) && queue0 != [] && Grown(m, seen0, queue0, seen, queue) &&
      DeadRecorded(m, seen0, queue0, dead0)
    requires dead == if Within(m, Depth(queue0[0])) && Dead(m, Last(queue0[0])) then dead0 + [queue0[0]] else dead0
    ensures DeadRecorded(m, seen, queue[1..], dead)
  {
    hide Queued, QueueOk, Expanded, Processed, IsTrace, AllHold, Dead;
    FrontOnce(m, seen0, queue0);
    FrontIsTrace(m, seen0, queue0);
    forall k
      ensures Processed(m, seen, queue[1..], k) <==>
        Processed(m, seen0, queue0, k) || (k == m.key(Last(queue0[0])) && Within(m, Depth(queue0[0])))
    {
      ProcessedAfter(m, seen0, queue0, seen, queue, k);
    }
    ProcessedSeen(m, seen0, queue0);
  }

  lemma NoSuccessorsIsDead<S>(m: Model<S>, s: S)
    requires !m.terminal(s)
    ensures Dead(m, s) <==> forall k :: !Succeeds(m, s, |m.actions|, k)
  {
    if forall k :: !Succeeds(m, s, |m.actions|, k) {
      forall i | 0 <= i < |m.actions| && m.actions[i].fn(s).Some?
        ensures m.key(m.actions[i].fn(s).value) == m.key(s)
      {
        assert !Succeeds(m, s, |m.actions|, m.key(m.actions[i].fn(s).value));
      }
    }
  }

  // ----- what the finished search means

  lemma ReachedMeans<S(!new)>(m: Model<S>, seen: Seen<S>, n: nat, t: S)
    requires Faithful(m) && Searched(m, seen, []) && InReach(m, n) && Walk(m, n, t)
    ensures m.key(t) in seen && AllHold(m, t)
  {
    Covered(m, seen, [], n, t);
    assert Interchangeable(m, t, Last(seen[m.key(t)]));
  }

  /** The whole graph of the model, once an unbounded search has finished. */
  ghost predicate Complete<S(!new)>(m: Model<S>, seen: Seen<S>, succ: Graph) {
    && m.maxDepth <= 0 && Faithful(m)
    && Searched(m, seen, [])
    && Mapped(m, seen, [], succ)
  }

  lemma AllProcessed<S(!new)>(m: Model<S>, seen: Seen<S>, succ: Graph, k: string)
    requires Complete(m, seen, succ) && k in seen
    ensures k in succ && Expanded(m, seen, k)
    ensures forall j :: j in succ[k] <==> Succeeds(m, Last(seen[k]), |m.actions|, j)
  {
    assert !Queued<S>(m, [], k);
    assert Processed(m, seen, [], k);
  }

  lemma FinishesVia<S(!new)>(m: Model<S>, s: S, n: nat) returns (t: S)
    requires Finishes(m, s, n)
    ensures if n == 0 then m.terminal(s) else Edge(m, s, t) && Finishes(m, t, n - 1)
  {
    t := s;
    if n > 0 { t :| Edge(m, s, t) && Finishes(m, t, n - 1); }
  }

  lemma FinishesFrom<S(!new)>(m: Model<S>, s: S, t: S, n: nat)
    requires Edge(m, s, t) && Finishes(m, t, n)
    ensures Finishes(m, s, n + 1)
  {
  }

  lemma FinishesAt<S(!new)>(m: Model<S>, s: S)
    requires m.terminal(s)
    ensures Finishes(m, s, 0)
  {
  }

  lemma EndsVia<S>(m: Model<S>, seen: Seen<S>, succ: Graph, k: string, n: nat) returns (j: string)
    requires Ends(m, seen, succ, k, n)
    ensures if n == 0 then k in seen && seen[k].states != [] && m.terminal(Last(seen[k]))
            else k in succ && j in succ[k] && Ends(m, seen, succ, j, n - 1)
  {
    j := k;
    if n > 0 { j :| j in succ[k] && Ends(m, seen, succ, j, n - 1); }
  }

  lemma {:induction false} FinishingEnds<S(!new)>(m: Model<S>, seen: Seen<S>, succ: Graph, s: S, n: nat)
    requires Complete(m, seen, succ) && m.key(s) in seen && Finishes(m, s, n)
    ensures EndsSomehow(m, seen, succ, m.key(s))
    decreases n
  {
    hide Complete, Finishes, EndsSomehow, Edge, Interchangeable, IsTrace;
    var k := m.key(s);
    SeenAlike(m, seen, succ, s);
    var t := FinishesVia(m, s, n);
    if n == 0 {
      TerminalEnds(m, seen, succ, k);
    } else {
      EdgeRecorded(m, seen, succ, s, t);
      FinishingEnds(m, seen, succ, t, n - 1);
      if m.key(t) != k { StepBack(m, seen, succ, k, m.key(t)); }
    }
  }

  lemma SeenAlike<S(!new)>(m: Model<S>, seen: Seen<S>, succ: Graph, s: S)
    requires Complete(m, seen, succ) && m.key(s) in seen
    ensures seen[m.key(s)].states != [] && m.terminal(Last(seen[m.key(s)])) == m.terminal(s)
    ensures IsTrace(m, seen[m.key(s)]) && m.key(Last(seen[m.key(s)])) == m.key(s)
    ensures Interchangeable(m, s, Last(seen[m.key(s)]))
  {
  }

  lemma EdgeRecorded<S(!new)>(m: Model<S>, seen: Seen<S>, succ: Graph, s: S, t: S)
    requires Complete(m, seen, succ) && m.key(s) in seen && Edge(m, s, t)
    ensures m.key(t) in seen && m.key(s) in succ && (m.key(t) != m.key(s) ==> m.key(t) in succ[m.key(s)])
  {
    AllProcessed(m, seen, succ, m.key(s));
    SuccessorSeen(m, seen, s, t);
    SeenAlike(m, seen, succ, s);
    var i :| 0 <= i < |m.actions| && m.actions[i].fn(s) == Some(t);
    assert m.key(m.actions[i].fn(Last(seen[m.key(s)])).value) == m.key(t);
  }

  lemma AlikeEdge<S(!new)>(m: Model<S>, s: S, t: S, u: S) returns (v: S)
    requires Faithful(m) && m.key(s) == m.key(t) && Edge(m, s, u)
    ensures Edge(m, t, v) && m.key(v) == m.key(u)
  {
    assert Interchangeable(m, s, t);
    var i :| 0 <= i < |m.actions| && m.actions[i].fn(s) == Some(u);
    v := m.actions[i].fn(t).value;
    assert m.actions[i].fn(t) == Some(v);
  }

  lemma {:induction false} AlikeFinish<S(!new)>(m: Model<S>, s: S, t: S, n: nat)
    requires Faithful(m) && m.key(s) == m.key(t) && Finishes(m, s, n)
    ensures Finishes(m, t, n)
    decreases n
  {
    hide Finishes, Edge;
    var u := FinishesVia(m, s, n);
    if n == 0 {
      assert Interchangeable(m, s, t);
      FinishesAt(m, t);
    } else {
      var v := AlikeEdge(m, s, t, u);
      AlikeFinish(m, u, v, n - 1);
      FinishesFrom(m, t, v, n - 1);
    }
  }

  lemma {:induction false} EndingFinishes<S(!new)>(m: Model<S>, seen: Seen<S>, succ: Graph, k: string, n: nat)
    requires Complete(m, seen, succ) && k in seen && Ends(m, seen, succ, k, n)
    ensures seen[k].states != [] && Finishes(m, Last(seen[k]), n)
    decreases n
  {
    hide Complete, Faithful, Ends, Finishes, Edge, Interchangeable, IsTrace;
    SeenState(m, seen, succ, k);
    var s := Last(seen[k]);
    var j := EndsVia(m, seen, succ, k, n);
    if n == 0 {
      FinishesAt(m, s);
    } else {
      var t := RecordedEdge(m, seen, succ, k, j);
      EndingFinishes(m, seen, succ, j, n - 1);
      IsFaithful(m, seen, succ);
      SeenState(m, seen, succ, j);
      AlikeFinish(m, Last(seen[j]), t, n - 1);
      FinishesFrom(m, s, t, n - 1);
    }
  }

  lemma SeenState<S(!new)>(m: Model<S>, seen: Seen<S>, succ: Graph, k: string)
    requires Complete(m, seen, succ) && k in seen
    ensures seen[k].states != [] && m.key(Last(seen[k])) == k
  {
  }

  lemma RecordedEdge<S(!new)>(m: Model<S>, seen: Seen<S>, succ: Graph, k: string, j: string) returns (t: S)
    requires Complete(m, seen, succ) && k in seen && k in succ && j in succ[k]
    ensures seen[k].states != [] && Edge(m, Last(seen[k]), t) && m.key(t) == j && j in seen
  {
    AllProcessed(m, seen, succ, k);
    var s := Last(seen[k]);
    var i :| 0 <= i < |m.actions| && m.actions[i].fn(s).Some? && m.key(m.actions[i].fn(s).value) == j;
    t := m.actions[i].fn(s).value;
    assert Edge(m, s, t);
    EdgeRecorded(m, seen, succ, s, t);
  }

  lemma EndsIffFinishes<S(!new)>(m: Model<S>, seen: Seen<S>, succ: Graph, s: S)
    requires Complete(m, seen, succ) && m.key(s) in seen
    ensures EndsSomehow(m, seen, succ, m.key(s)) <==> CanFinish(m, s)
  {
    hide Complete, Faithful;
    var k := m.key(s);
    SeenAlike(m, seen, succ, s);
    if CanFinish(m, s) {
      var n: nat :| Finishes(m, s, n);
      FinishingEnds(m, seen, succ, s, n);
    }
    if EndsSomehow(m, seen, succ, k) {
      var n: nat :| Ends(m, seen, succ, k, n);
      EndingFinishes(m, seen, succ, k, n);
      IsFaithful(m, seen, succ);
      AlikeFinish(m, Last(seen[k]), s, n);
    }
  }

  lemma IsFaithful<S(!new)>(m: Model<S>, seen: Seen<S>, succ: Graph)
    requires Complete(m, seen, succ)
    ensures Faithful(m)
  {
  }

  // ----- Explore

  method ReachedStates<S>(m: Model<S>, seen: Seen<S>) returns (reached: seq<S>)
    requires forall k :: k in seen ==> seen[k].states != [] && m.key(Last(seen[k])) == k
    ensures |reached| == |seen|
    ensures forall i, j :: 0 <= i < j < |reached| ==> m.key(reached[i]) != m.key(reached[j])
    ensures forall t :: t in reached ==> m.key(t) in seen && Last(seen[m.key(t)]) == t
    ensures forall k :: k in seen ==> KeyAmong(m, reached, k)
  {
    var keys := seen.Keys;
    reached := [];
    while keys != {}
      invariant keys <= seen.Keys && |reached| + |keys| == |seen|
      invariant forall i, j :: 0 <= i < j < |reached| ==> m.key(reached[i]) != m.key(reached[j])
      invariant forall i :: 0 <= i < |reached| ==>
        m.key(reached[i]) in seen && m.key(reached[i]) !in keys && Last(seen[m.key(reached[i])]) == reached[i]
      invariant forall k :: k in seen && k !in keys ==> KeyAmong(m, reached, k)
    {
      var k :| k in keys;
      var t := Last(seen[k]);
      AmongGrows(m, reached, t);
      reached, keys := reached + [t], keys - {k};
    }
  }

  lemma AmongGrows<S>(m: Model<S>, states: seq<S>, t: S)
    ensures KeyAmong(m, states + [t], m.key(t))
    ensures forall k :: KeyAmong(m, states, k) ==> KeyAmong(m, states + [t], k)
  {
    assert (states + [t])[|states|] == t;
    forall k | KeyAmong(m, states, k)
      ensures KeyAmong(m, states + [t], k)
    {
      var u :| u in states && m.key(u) == k;
      assert u in states + [t];
    }
  }

  lemma ExhaustiveResult<S(!new)>(m: Model<S>, seen: Seen<S>, r: Result<S>)
    requires Faithful(m) && Searched(m, seen, []) && r.statesExplored == |r.reached|
    requires m.maxDepth > 0 ==> forall k :: k in seen ==> Depth(seen[k]) <= m.maxDepth
    requires forall i, j :: 0 <= i < j < |r.reached| ==> m.key(r.reached[i]) != m.key(r.reached[j])
    requires forall t :: t in r.reached ==> m.key(t) in seen && Last(seen[m.key(t)]) == t
    requires forall k :: k in seen ==> KeyAmong(m, r.reached, k)
    ensures Exhaustive(m, r)
  {
    hide Walk, Faithful, KeyAmong, AllHold, IsTrace;
    forall t | t in r.reached
      ensures exists n: nat :: InReach(m, n) && Walk(m, n, t)
    {
      TraceIsWalk(m, seen[m.key(t)]);
      assert InReach(m, Depth(seen[m.key(t)]));
    }
    forall n: nat, t | InReach(m, n) && Walk(m, n, t)
      ensures AllHold(m, t) && KeyAmong(m, r.reached, m.key(t))
    {
      ReachedMeans(m, seen, n, t);
    }
  }

  lemma DeadlockResult<S(!new)>(m: Model<S>, seen: Seen<S>, succ: Graph, r: Result<S>)
    requires Complete(m, seen, succ) && DeadRecorded(m, seen, [], r.deadlocks)
    ensures DeadlocksExact(m, r)
  {
    hide Walk, IsTrace, Complete, Faithful, Interchangeable;
    forall t | Reachable(m, t) && Dead(m, t)
      ensures TraceAmong(m, r.deadlocks, m.key(t))
    {
      var n: nat :| Walk(m, n, t);
      CompleteMeans(m, seen, succ, n, t);
      SeenAlike(m, seen, succ, t);
      AlikeDead(m, t, Last(seen[m.key(t)]));
      assert seen[m.key(t)] in r.deadlocks;
    }
  }

  lemma CompleteMeans<S(!new)>(m: Model<S>, seen: Seen<S>, succ: Graph, n: nat, t: S)
    requires Complete(m, seen, succ) && Walk(m, n, t)
    ensures m.key(t) in seen && Processed(m, seen, [], m.key(t))
  {
    ReachedMeans(m, seen, n, t);
    assert !Queued<S>(m, [], m.key(t));
  }

  lemma AlikeDead<S>(m: Model<S>, s: S, t: S)
    requires m.key(s) == m.key(t) && Interchangeable(m, s, t) && Dead(m, s)
    ensures Dead(m, t)
  {
  }

  lemma WedgedResult<S(!new)>(m: Model<S>, seen: Seen<S>, succ: Graph, r: Result<S>)
    requires Complete(m, seen, succ) && ByDepth(m, r.wedged)
    requires forall w :: w in r.wedged <==> exists k :: k in seen && seen[k] == w && !EndsSomehow(m, seen, succ, k)
    ensures WedgedExact(m, r)
  {
    hide Walk, Complete, IsTrace, EndsSomehow, CanFinish, ByDepth, Interchangeable;
    forall w | w in r.wedged
      ensures IsTrace(m, w) && w.states != [] && !CanFinish(m, Last(w))
    {
      var k :| k in seen && seen[k] == w && !EndsSomehow(m, seen, succ, k);
      SeenState(m, seen, succ, k);
      SeenAlike(m, seen, succ, Last(w));
      EndsIffFinishes(m, seen, succ, Last(w));
    }
    forall t | Reachable(m, t) && !CanFinish(m, t)
      ensures TraceAmong(m, r.wedged, m.key(t))
    {
      var n: nat :| Walk(m, n, t);
      CompleteMeans(m, seen, succ, n, t);
      EndsIffFinishes(m, seen, succ, t);
      SeenState(m, seen, succ, m.key(t));
      assert seen[m.key(t)] in r.wedged;
    }
  }

  lemma GraphIsGraph<S(!new)>(m: Model<S>, seen: Seen<S>, succ: Graph)
    requires Searched(m, seen, []) && Mapped(m, seen, [], succ)
    ensures GraphOf(seen, succ)
  {
    forall k, j | k in succ && j in succ[k]
      ensures k in seen && j in seen
    {
      assert Processed(m, seen, [], k);
      assert Expanded(m, seen, k);
      assert Succeeds(m, Last(seen[k]), |m.actions|, j);
    }
  }

  /** Depths never pass the bound. */
  ghost predicate Shallow<S>(m: Model<S>, seen: Seen<S>) {
    m.maxDepth > 0 ==> forall k :: k in seen ==> Depth(seen[k]) <= m.maxDepth
  }

  lemma StaysShallow<S>(m: Model<S>, seen0: Seen<S>, queue0: seq<Trace<S>>, seen: Seen<S>, queue: seq<Trace<S>>)
    requires Shallow(m, seen0) && Grown(m, seen0, queue0, seen, queue)
    ensures Shallow(m, seen)
  {
    forall k | k in seen && m.maxDepth > 0
      ensures Depth(seen[k]) <= m.maxDepth
    {
      if k !in seen0 {
        var i :| 0 <= i < |queue| && queue[i].states != [] && m.key(Last(queue[i])) == k;
      }
    }
  }

  ghost predicate Exploring<S>(m: Model<S>, seen: Seen<S>, queue: seq<Trace<S>>, succ: Graph, dead: seq<Trace<S>>) {
    && Searched(m, seen, queue)
    && Mapped(m, seen, queue, succ)
    && DeadRecorded(m, seen, queue, dead)
    && Shallow(m, seen)
  }

  lemma ExploringStarts<S>(m: Model<S>, first: Trace<S>)
    requires first == Trace([], [m.initial]) && AllHold(m, m.initial)
    ensures Exploring(m, map[m.key(m.initial) := first], [first], map[], [])
  {
    assert Queued(m, [first], m.key(m.initial)) by { assert [first][0] == first; }
  }

  lemma ExploringStep<S>(m: Model<S>, seen0: Seen<S>, queue0: seq<Trace<S>>, seen: Seen<S>, queue: seq<Trace<S>>,
                         succ0: Graph, succ: Graph, list: seq<string>, dead0: seq<Trace<S>>, dead: seq<Trace<S>>)
    requires Exploring(m, seen0, queue0, succ0, dead0) && queue0 != [] && Grown(m, seen0, queue0, seen, queue)
    requires Within(m, Depth(queue0[0])) ==>
      Expanded(m, seen, m.key(Last(queue0[0]))) && forall j :: j in list <==>
        Succeeds(m, Last(queue0[0]), |m.actions|, j)
    requires succ == if Within(m, Depth(queue0[0])) then succ0[m.key(Last(queue0[0])) := list] else succ0
    requires dead == if Within(m, Depth(queue0[0])) && Dead(m, Last(queue0[0])) then dead0 + [queue0[0]] else dead0
    ensures Exploring(m, seen, queue[1..], succ, dead)
  {
    hide Searched, Mapped, DeadRecorded, Shallow, Expanded, Succeeds, Dead;
    MapAfter(m, seen0, queue0, seen, queue, succ0, succ, list);
    DeadAfter(m, seen0, queue0, seen, queue, dead0, dead);
    StaysShallow(m, seen0, queue0, seen, queue);
    assert queue[0] == queue0[0];
    Dequeue(m, seen, queue);
  }

  lemma SameSize<S>(m: Model<S>, seen0: Seen<S>, queue0: seq<Trace<S>>, seen: Seen<S>, queue: seq<Trace<S>>)
    requires Grown(m, seen0, queue0, seen, queue)
    ensures if |seen| == |seen0| then queue == queue0 else |seen0| < |seen| < Bound(m)
    ensures |queue0| <= |queue|
  {
  }

  /**
   A violation comes with a shortest real trace. Without one, every state within the depth bound was
   visited and satisfies every invariant; and if depth is unbounded, the deadlocked and the wedged
   states are reported exactly. Terminates on every model, finite or not.
   */
  method Explore<S(!new)>(m: Model<S>) returns (r: Result<S>)
    requires Faithful(m)
    ensures r.violation.Some? ==> Genuine(m, r.violation.value)
    ensures r.violation.Some? && r.violation.value.BoundHit? ==> r.statesExplored >= Bound(m)
    ensures r.violation.None? ==> Exhaustive(m, r)
    ensures r.violation.None? && m.maxDepth <= 0 ==> DeadlocksExact(m, r) && WedgedExact(m, r)
  {
    hide Faithful, Exploring, Genuine, Exhaustive, DeadlocksExact, WedgedExact, Grown, Expanded, Succeeds, Dead,
      AllHold,
         Searched, GraphOf, Complete, DeadRecorded, EndsSomehow, ByDepth, KeyAmong;
    var first := Trace([], [m.initial]);
    var seen: Seen<S> := map[m.key(m.initial) := first];
    var broken := CheckInvariants(m, m.initial);
    if broken.Some? {
      InitialGenuine(m, broken.value);
      return Result(1, Some(Broken(broken.value, first)), [], [], []);
    }
    var succ: Graph := map[];
    var queue, dead := [first], [];
    ExploringStarts(m, first);
    while queue != []
      invariant Exploring(m, seen, queue, succ, dead)
      decreases Max(Bound(m) - |seen|, 0), |queue|
    {
      var cur := queue[0];
      ExploringFront(m, seen, queue, succ, dead);
      if !Within(m, Depth(cur)) {
        ExploringStep(m, seen, queue, seen, queue, succ, succ, [], dead, dead);
        queue := queue[1..];
      } else {
        var seen', queue', list, violation := Expand(m, seen, queue);
        if violation.Some? {
          return Result(|seen'|, violation, dead, [], []);
        }
        ghost var dead0, succ0 := dead, succ;
        succ := succ[m.key(Last(cur)) := list];
        if !m.terminal(Last(cur)) { NoSuccessorsIsDead(m, Last(cur)); }
        LiveIfTerminal(m, Last(cur));
        if list == [] && !m.terminal(Last(cur)) {
          dead := dead + [cur];
        } else {
          assert !Dead(m, Last(cur)) by { if list != [] { assert list[0] in list; } }
        }
        ExploringStep(m, seen, queue, seen', queue', succ0, succ, list, dead0, dead);
        SameSize(m, seen, queue, seen', queue');
        seen, queue := seen', queue'[1..];
      }
    }
    ExploringDone(m, seen, succ, dead);
    var reached := ReachedStates(m, seen);
    var wedged := FindWedged(m, seen, succ);
    r := Result(|seen|, None, dead, wedged, reached);
    ExhaustiveResult(m, seen, r);
    if m.maxDepth <= 0 {
      DeadlockResult(m, seen, succ, r);
      WedgedResult(m, seen, succ, r);
    }
  }

  lemma InitialGenuine<S(!new)>(m: Model<S>, i: nat)
    requires i < |m.invariants| && !m.invariants[i].holds(m.initial) && forall j :: 0 <= j < i ==>
      m.invariants[j].holds(m.initial)
    ensures Genuine(m, Broken(i, Trace([], [m.initial])))
  {
  }

  lemma LiveIfTerminal<S>(m: Model<S>, s: S)
    ensures m.terminal(s) ==> !Dead(m, s)
  {
  }

  lemma ExploringFront<S>(m: Model<S>, seen: Seen<S>, queue: seq<Trace<S>>, succ: Graph, dead: seq<Trace<S>>)
    requires Exploring(m, seen, queue, succ, dead) && queue != []
    ensures Searched(m, seen, queue) && queue[0].states != [] && Grown(m, seen, queue, seen, queue)
  {
    FrontIsTrace(m, seen, queue);
  }

  lemma ExploringDone<S(!new)>(m: Model<S>, seen: Seen<S>, succ: Graph, dead: seq<Trace<S>>)
    requires Exploring(m, seen, [], succ, dead) && Faithful(m)
    ensures Searched(m, seen, []) && GraphOf(seen, succ)
    ensures forall k :: k in seen ==> seen[k].states != [] && m.key(Last(seen[k])) == k
    ensures m.maxDepth > 0 ==> forall k :: k in seen ==> Depth(seen[k]) <= m.maxDepth
    ensures m.maxDepth <= 0 ==> Complete(m, seen, succ) && DeadRecorded(m, seen, [], dead)
  {
    GraphIsGraph(m, seen, succ);
  }

  // ----- consequences

  lemma {:induction false} DeadNeverFinishes<S(!new)>(m: Model<S>, s: S, n: nat)
    requires Faithful(m) && Dead(m, s)
    ensures !Finishes(m, s, n)
    decreases n
  {
    hide Finishes;
    if Finishes(m, s, n) {
      var t := FinishesVia(m, s, n);
      if n > 0 {
        assert m.key(t) == m.key(s);
        assert Interchangeable(m, s, t);
        AlikeDead(m, s, t);
        DeadNeverFinishes(m, t, n - 1);
      }
    }
  }

  /** Every deadlock is also reported as wedged. */
  lemma DeadlocksAreWedged<S(!new)>(m: Model<S>, r: Result<S>, d: Trace<S>)
    requires Faithful(m) && DeadlocksExact(m, r) && WedgedExact(m, r) && d in r.deadlocks
    ensures TraceAmong(m, r.wedged, m.key(Last(d)))
  {
    hide Walk, Finishes, TraceAmong, ByDepth, Faithful;
    TraceIsWalk(m, d);
    forall n: nat
      ensures !Finishes(m, Last(d), n)
    {
      DeadNeverFinishes(m, Last(d), n);
    }
  }

  /** A clean result is a proof: invariants everywhere, and a terminal state within reach from everywhere. */
  lemma OkIsProof<S(!new)>(m: Model<S>, r: Result<S>)
    requires m.maxDepth <= 0 && OK(r) && Exhaustive(m, r) && WedgedExact(m, r)
    ensures forall t :: Reachable(m, t) ==> AllHold(m, t) && CanFinish(m, t)
  {
    hide Walk, Finishes, AllHold, ByDepth;
    forall t | Reachable(m, t)
      ensures AllHold(m, t) && CanFinish(m, t)
    {
      var n: nat :| Walk(m, n, t);
      assert InReach(m, n);
    }
  }

  // ----- terminal states do not end the search

  /** Whatever lies behind a terminal state has been visited and satisfies the invariants too. */
  lemma TerminalsAreExpanded<S(!new)>(m: Model<S>, r: Result<S>, s: S, t: S)
    requires m.maxDepth <= 0 && Exhaustive(m, r) && Reachable(m, s) && m.terminal(s) && Edge(m, s, t)
    ensures AllHold(m, t) && KeyAmong(m, r.reached, m.key(t))
  {
    var n: nat :| Walk(m, n, s);
    assert Walk(m, n + 1, t);
  }

  /** Two states: the first is terminal, and the invariant fails on the second. */
  function BehindTerminal(): Model<bool> {
    Model(false, (s: bool) => if s then "second" else "first", (s: bool) => !s,
          [Action("on", (s: bool) => if s then None else Some(true))],
          [Invariant("never second", (s: bool) => !s)], 0, 0)
  }

  /** The search reports it. */
  method ExploreBehindTerminal() returns (r: Result<bool>)
    ensures r.violation.Some?
  {
    var m := BehindTerminal();
    KeysTellApart();
    r := Explore(m);
    if r.violation.None? { BehindTerminalIsBroken(r); }
  }

  lemma KeysTellApart()
    ensures Faithful(BehindTerminal())
  {
    assert "first" != "second" by { assert |"first"| == 5 && |"second"| == 6; }
  }

  lemma BehindTerminalIsBroken(r: Result<bool>)
    ensures !Exhaustive(BehindTerminal(), r)
  {
    var m := BehindTerminal();
    assert Walk(m, 0, false);
    assert m.actions[0].fn(false) == Some(true);
    assert !m.invariants[0].holds(true);
    if Exhaustive(m, r) { TerminalsAreExpanded(m, r, false, true); }
  }
}
