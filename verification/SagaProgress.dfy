/**
 When a saga can still finish. Handlers are whole transactions here. The sweeper fires only for a
 SENT step with a deadline, as its query says; `free` runs may also time out at will. Both questions
 get an exact answer.
 */
module SagaProgress {
  import opened Basics
  import opened SagaMachine
  import opened Orchestrator
  import opened SagaProtocol
  import opened ReservationRow

  predicate Whole(a: Action) {
    !a.Begin? && !a.Load? && !a.Finish? && !a.Abandon? && !a.AnswerAgain?
  }

  /** The steps that may happen in a history: whole transactions, and free timeouts only if `free`. */
  predicate Happens(a: Action, free: bool) {
    Whole(a) && (free || !a.ForcedTimeout?)
  }

  /** The steps progress may rely on: not the customer's. */
  predicate Relied(a: Action, free: bool) {
    Happens(a, free) && !a.CustomerCancel?
  }

  ghost predicate Reachable(c: Cell, free: bool) {
    exists firstId: Id, acts: seq<Action> :: (forall a :: a in acts ==> Happens(a, free)) &&
      c == Exec(Place(firstId), acts)
  }

  ghost predicate CanFinish(c: Cell, free: bool) {
    exists acts: seq<Action> :: (forall a :: a in acts ==> Relied(a, free)) && IsTerminal(Exec(c, acts).db.order.status)
  }

  predicate Overdue(c: Cell) {
    exists s :: OverdueRow(c.db.steps, s)
  }

  // ----- the invariant of whole transactions

  predicate ByCard(t: Trigger) {
    t == OnAuthorized || t == OnAuthFailed
  }

  ghost predicate Numbered(c: Cell) {
    && (forall i :: i in c.db.inbox ==> i < c.db.nextId)
    && (forall i :: i in c.claimed ==> i < c.db.nextId)
    && (forall i :: i in c.answered ==> i < c.db.nextId)
    && (forall e, f :: e in c.events && f in c.events && e.id == f.id ==> e == f)
    && (forall e :: e in c.events ==> e.trigger != OnTimeout)
  }

  /** Payment answers a command at most once, so AUTHORIZE, sent once, is answered once. */
  ghost predicate Replied(c: Cell) {
    && (forall e :: e in c.events && ByCard(e.trigger) ==> Authorize in Sent(c))
    && (OnCaptured in Told(c) ==> Capture in Sent(c))
    && (OnVoided in Told(c) ==> Void in Sent(c))
    && (forall k, l :: k in c.db.cmds && l in c.db.cmds && k.step == Authorize && l.step == Authorize ==> k == l)
    && (forall e, f :: e in c.events && f in c.events && ByCard(e.trigger) && ByCard(f.trigger) ==> e == f)
    && (forall e, k :: e in c.events && ByCard(e.trigger) && k in c.db.cmds && k.step == Authorize ==>
          k.id in c.answered)
    && (forall k :: k in c.db.cmds && k.step == Capture && k.id in c.answered ==> OnCaptured in Told(c))
  }

  predicate Deadlined(s: Step) {
    s == Reserve || s == Authorize || s == Release || s == Void
  }

  /** Which step rows exist: those sent, and RELEASE also when a TTL release was heard of. */
  ghost predicate RowsMatch(steps: map<Step, StepRow>, sent: set<Step>) {
    && Reserve in steps
    && (Authorize in steps <==> Authorize in sent)
    && (Commit in steps <==> Commit in sent)
    && (Capture in steps <==> Capture in sent)
    && (Void in steps <==> Void in sent)
    && (Release in sent ==> Release in steps)
  }

  ghost predicate RowsTimed(steps: map<Step, StepRow>) {
    forall s :: s in steps && Deadlined(s) ==> steps[s].acked || steps[s].timed
  }

  /** An acknowledged AUTHORIZE was answered, and no answer to it is left to process. */
  ghost predicate CardHeard(c: Cell) {
    Acked(c.db.steps, Authorize) ==>
      && (exists e :: e in c.events && ByCard(e.trigger))
      && (forall e :: e in c.events && ByCard(e.trigger) ==> e.id in c.db.inbox)
  }

  ghost predicate Rows(c: Cell) {
    RowsMatch(c.db.steps, Sent(c)) && RowsTimed(c.db.steps) && CardHeard(c)
  }

  /** COMPENSATING never holds with every needed acknowledgement already recorded. */
  predicate AwaitsAck(steps: map<Step, StepRow>) {
    !(Acked(steps, Release) && (Acked(steps, Void) || Authorize !in steps))
  }

  /** The step rows in each state. */
  ghost predicate StatusSteps(s: State, steps: map<Step, StepRow>, sent: set<Step>) {
    && (s == Pending ==> OverdueRow(steps, Reserve))
    && (s == StockReserved || RollbackForbidden(s) ==> Acked(steps, Reserve) && Authorize in sent)
    && (RollbackForbidden(s) ==> Acked(steps, Authorize) && Commit in sent)
    && (s != Compensating && s != Cancelled && Release in steps ==> Acked(steps, Release))
    && (s == StockCommitted ==> Capture in sent)
    && (s == Compensating ==> Release in sent && AwaitsAck(steps))
  }

  /** A forward reply that the order still waits for has not been processed. */
  ghost predicate RepliesAwaited(c: Cell) {
    && (c.db.order.status == Paid ==> forall e :: e in c.events && e.trigger == OnCommitted ==> e.id !in c.db.inbox)
    && (c.db.order.status == StockCommitted ==> forall e :: e in c.events && e.trigger == OnCaptured ==>
          e.id !in c.db.inbox)
  }

  ghost predicate StatusRows(c: Cell) {
    StatusSteps(c.db.order.status, c.db.steps, Sent(c)) && RepliesAwaited(c)
  }

  /** Without free timeouts COMMIT and CAPTURE never get a deadline. */
  ghost predicate RollForwardUntimed(c: Cell) {
    forall s :: (s == Commit || s == Capture) && s in c.db.steps ==> !c.db.steps[s].timed
  }

  ghost predicate Orderly(c: Cell, free: bool) {
    && Numbered(c)
    && Replied(c)
    && Rows(c)
    && StatusRows(c)
    && (!free ==> RollForwardUntimed(c))
  }

  ghost predicate Live(c: Cell, rid: Id, pid: Id, free: bool) {
    Safe(c, rid, pid) && Orderly(c, free)
  }

  // ----- preservation: order-service

  /** A whole transaction with decision `d`, seen as one change of the rows. */
  ghost predicate Turn(before: Db, after: Db, t: Trigger, d: Decision, rid: Id, pid: Id) {
    && Moved(before, after, before.order, t, d, rid, pid)
    && RowsMoved(before.(inbox := after.inbox), after, t, d)
    && before.inbox <= after.inbox
  }

  lemma TurnKeepsReplies(c: Cell, after: Db, t: Trigger, ctx: Ctx, d: Decision, rid: Id, pid: Id)
    requires Safe(c, rid, pid) && Numbered(c) && Replied(c)
    requires Lawful(c.db.order.status, t, ctx, d) && Turn(c.db, after, t, d, rid, pid)
    ensures Replied(c.(db := after))
  {
    var c' := c.(db := after);
    assert Told(c') == Told(c);
    assert forall k :: k in c.db.cmds ==> k.step in Sent(c);
    assert forall k :: k in after.cmds && k.step == Authorize && k !in c.db.cmds ==> c.db.order.status == Pending;
  }

  /** The row facts survive acknowledging `t` and then sending `emit`. */
  lemma TurnKeepsRows(c: Cell, after: Db, t: Trigger, d: Decision, ev: Event)
    requires Replied(c) && Rows(c) && (OnCommitted in Told(c) ==> Commit in Sent(c))
    requires StepsOf(after.cmds) == Sent(c) + (set s | s in d.emit)
    requires RowsSent(AckRows(c.db.steps, t), after.steps, d.emit, d.deadline > 0) && c.db.inbox <= after.inbox
    requires t == OnTimeout || (ev in c.events && ev.trigger == t && ev.id in after.inbox)
    requires forall s :: s in d.emit && Deadlined(s) ==> d.deadline > 0
    ensures Rows(c.(db := after))
  {
    var c' := c.(db := after);
    var acked := AckRows(c.db.steps, t);
    assert t != OnTimeout ==> t in Told(c);
    assert RowsMatch(acked, Sent(c));
    assert RowsTimed(acked);
    SendingKeepsRows(acked, after.steps, Sent(c), d.emit, d.deadline > 0);
    assert CardHeard(c');
  }

  lemma SendingKeepsRows(before: map<Step, StepRow>, after: map<Step, StepRow>, sent: set<Step>, emit: seq<Step>,
      timed: bool)
    requires RowsMatch(before, sent) && RowsTimed(before)
    requires RowsSent(before, after, emit, timed)
    requires forall s :: s in emit && Deadlined(s) ==> timed
    ensures RowsMatch(after, sent + (set s | s in emit)) && RowsTimed(after)
  {
  }

  /** The decision a whole transaction takes on an order in state `s`. */
  ghost predicate Decides(s: State, steps: map<Step, StepRow>, src: Source, t: Trigger, d: Decision) {
    && t == (if src.FromEvent? then src.ev.trigger else OnTimeout)
    && (src.FromEvent? ==> t != OnTimeout)
    && if src.FromCustomer?
       then Cancellable(s) && d == Go(Compensating, CancelSteps(BuildCtx(steps, false)), TIMEOUT_COMPENSATING)
       else Next(s, t, BuildCtx(steps, Retriable(src))) == Ok(d)
  }

  lemma DecisionIsLawful(s: State, steps: map<Step, StepRow>, src: Source, t: Trigger, d: Decision)
    requires Decides(s, steps, src, t, d)
    ensures Lawful(s, t, BuildCtx(steps, Retriable(src)), d)
  {
    if !src.FromCustomer? { NextIsLawful(s, t, BuildCtx(steps, Retriable(src))); }
  }

  lemma DecisionIsTimed(s: State, steps: map<Step, StepRow>, src: Source, t: Trigger, d: Decision)
    requires Decides(s, steps, src, t, d)
    ensures forall k :: k in d.emit && Deadlined(k) ==> d.deadline > 0
    ensures !src.FromTimeout? && (Commit in d.emit || Capture in d.emit) ==> d.deadline == 0
  {
  }

  lemma TurnKeepsSteps(s: State, src: Source, steps: map<Step, StepRow>, after: map<Step, StepRow>, sent: set<Step>,
      t: Trigger, d: Decision)
    requires RowsMatch(steps, sent) && StatusSteps(s, steps, sent)
    requires Decides(s, steps, src, t, d)
    requires RowsSent(AckRows(steps, t), after, d.emit, d.deadline > 0)
    ensures StatusSteps(d.next, after, sent + set k | k in d.emit)
  {
    if src.FromCustomer? {
      CancelKeepsSteps(s, steps, after, sent, d);
    } else if s == Compensating {
      WaitKeepsSteps(src, steps, after, sent, t, d);
    } else if s == Pending {
      PendingKeepsSteps(src, steps, after, sent, t, d);
    } else {
      ForwardKeepsSteps(s, src, steps, after, sent, t, d);
    }
  }

  lemma CancelKeepsSteps(s: State, steps: map<Step, StepRow>, after: map<Step, StepRow>, sent: set<Step>, d: Decision)
    requires RowsMatch(steps, sent) && StatusSteps(s, steps, sent)
    requires Decides(s, steps, FromCustomer, OnTimeout, d)
    requires RowsSent(AckRows(steps, OnTimeout), after, d.emit, d.deadline > 0)
    ensures StatusSteps(d.next, after, sent + set k | k in d.emit)
  {
  }

  lemma WaitKeepsSteps(src: Source, steps: map<Step, StepRow>, after: map<Step, StepRow>, sent: set<Step>, t: Trigger,
      d: Decision)
    requires RowsMatch(steps, sent) && StatusSteps(Compensating, steps, sent) && !src.FromCustomer?
    requires Decides(Compensating, steps, src, t, d)
    requires RowsSent(AckRows(steps, t), after, d.emit, d.deadline > 0)
    ensures StatusSteps(d.next, after, sent + set k | k in d.emit)
  {
  }

  lemma PendingKeepsSteps(src: Source, steps: map<Step, StepRow>, after: map<Step, StepRow>, sent: set<Step>,
      t: Trigger, d: Decision)
    requires RowsMatch(steps, sent) && StatusSteps(Pending, steps, sent) && !src.FromCustomer?
    requires Decides(Pending, steps, src, t, d)
    requires RowsSent(AckRows(steps, t), after, d.emit, d.deadline > 0)
    ensures StatusSteps(d.next, after, sent + set k | k in d.emit)
  {
  }

  lemma ForwardKeepsSteps(s: State, src: Source, steps: map<Step, StepRow>, after: map<Step, StepRow>, sent: set<Step>,
      t: Trigger, d: Decision)
    requires RowsMatch(steps, sent) && StatusSteps(s, steps, sent) && !src.FromCustomer?
    requires s != Compensating && s != Pending
    requires Decides(s, steps, src, t, d)
    requires RowsSent(AckRows(steps, t), after, d.emit, d.deadline > 0)
    ensures StatusSteps(d.next, after, sent + set k | k in d.emit)
  {
  }

  lemma TurnKeepsAwaited(c: Cell, src: Source, after: Db, t: Trigger, d: Decision)
    requires Numbered(c) && RepliesAwaited(c) && CommandsFit(c.db.order.status, Sent(c))
    requires OnCommitted in Told(c) ==> Commit in Sent(c)
    requires OnCaptured in Told(c) ==> Capture in Sent(c)
    requires Decides(c.db.order.status, c.db.steps, src, t, d)
    requires src.FromEvent? ==> src.ev in c.events
    requires after.inbox == (if src.FromEvent? then c.db.inbox + {src.ev.id} else c.db.inbox)
    requires after.order.status == d.next
    ensures RepliesAwaited(c.(db := after))
  {
    DecisionIsLawful(c.db.order.status, c.db.steps, src, t, d);
    assert forall e :: e in c.events ==> e.trigger in Told(c);
  }

  ghost predicate Turned(c: Cell, src: Source, after: Db, t: Trigger, d: Decision, rid: Id, pid: Id) {
    && Decides(c.db.order.status, c.db.steps, src, t, d)
    && Turn(c.db, after, t, d, rid, pid)
    && after.inbox == (if src.FromEvent? then c.db.inbox + {src.ev.id} else c.db.inbox)
    && after.order.status == d.next
  }

  /** `mid` is the row set a transaction starts its writes from: the event is already in the inbox. */
  lemma MoveTurns(before: Db, mid: Db, after: Db, t: Trigger, d: Decision, rid: Id, pid: Id)
    requires mid == before.(inbox := mid.inbox) && before.inbox <= mid.inbox
    requires Moved(mid, after, mid.order, t, d, rid, pid) && RowsMoved(mid, after, t, d)
    ensures Turn(before, after, t, d, rid, pid) && after.inbox == mid.inbox && after.order.status == d.next
  {
  }

  lemma EventTurns(c: Cell, ev: Event, after: Db, d: Decision, rid: Id, pid: Id)
    requires OneIdentity(c, rid, pid) && SatisfiesChecks(c.db.order) && ev in c.events && ev.trigger != OnTimeout
    requires Next(c.db.order.status, ev.trigger, BuildCtx(c.db.steps, ev.retriable)) == Ok(d)
    requires Handle(c.db, ev) == Done(after)
    ensures Turned(c, FromEvent(ev), after, ev.trigger, d, rid, pid)
  {
    hide Moved, RowsMoved, Turn, Apply;
    var mid := c.db.(inbox := c.db.inbox + {ev.id});
    NextIsLawful(c.db.order.status, ev.trigger, BuildCtx(c.db.steps, ev.retriable));
    ApplyMoves(mid, c.db.order, EvidenceOf(ev), d, rid, pid);
    MoveTurns(c.db, mid, after, ev.trigger, d, rid, pid);
  }

  lemma TimeoutTurns(c: Cell, after: Db, d: Decision, rid: Id, pid: Id)
    requires OneIdentity(c, rid, pid) && SatisfiesChecks(c.db.order)
    requires Next(c.db.order.status, OnTimeout, BuildCtx(c.db.steps, false)) == Ok(d)
    requires ConcludeTimeout(c.db, c.db.order, BuildCtx(c.db.steps, false)) == Done(after)
    ensures Turned(c, FromTimeout, after, OnTimeout, d, rid, pid)
  {
    hide Moved, RowsMoved, Turn, Apply;
    NextIsLawful(c.db.order.status, OnTimeout, BuildCtx(c.db.steps, false));
    ApplyMoves(c.db, c.db.order, TimeoutEvidence(c.db.order), d, rid, pid);
    MoveTurns(c.db, c.db, after, OnTimeout, d, rid, pid);
  }

  lemma CancelTurns(c: Cell, after: Db, rid: Id, pid: Id)
    requires OneIdentity(c, rid, pid)
    requires CancelOrder(c.db) == Done(after)
    ensures Turned(c, FromCustomer, after, OnTimeout,
      Go(Compensating, CancelSteps(BuildCtx(c.db.steps, false)), TIMEOUT_COMPENSATING), rid, pid)
  {
    hide Moved, RowsMoved, Turn;
    CancelMoves(c.db, c.db.order, BuildCtx(c.db.steps, false), rid, pid);
    MoveTurns(c.db, c.db, after, OnTimeout,
      Go(Compensating, CancelSteps(BuildCtx(c.db.steps, false)), TIMEOUT_COMPENSATING), rid, pid);
  }

  lemma TurnKeepsNumbers(c: Cell, src: Source, after: Db, t: Trigger, d: Decision, rid: Id, pid: Id)
    requires OneIdentity(c, rid, pid) && Numbered(c)
    requires src.FromEvent? ==> src.ev in c.events
    requires Turned(c, src, after, t, d, rid, pid)
    ensures Numbered(c.(db := after))
  {
  }

  lemma TurnKeepsUntimed(steps: map<Step, StepRow>, after: map<Step, StepRow>, t: Trigger, d: Decision)
    requires forall s :: (s == Commit || s == Capture) && s in steps ==> !steps[s].timed
    requires RowsSent(AckRows(steps, t), after, d.emit, d.deadline > 0)
    requires Commit in d.emit || Capture in d.emit ==> d.deadline == 0
    ensures forall s :: (s == Commit || s == Capture) && s in after ==> !after[s].timed
  {
  }

  lemma SafeFacts(c: Cell, rid: Id, pid: Id)
    requires Safe(c, rid, pid)
    ensures OneIdentity(c, rid, pid) && CommandsFit(c.db.order.status, Sent(c))
    ensures OnCommitted in Told(c) ==> Commit in Sent(c)
  {
  }

  lemma TurnFacts(c: Cell, src: Source, after: Db, t: Trigger, d: Decision, rid: Id, pid: Id)
    requires Turned(c, src, after, t, d, rid, pid)
    ensures StepsOf(after.cmds) == Sent(c) + (set s | s in d.emit)
    ensures RowsSent(AckRows(c.db.steps, t), after.steps, d.emit, d.deadline > 0)
    ensures Turn(c.db, after, t, d, rid, pid) && Decides(c.db.order.status, c.db.steps, src, t, d)
    ensures src.FromEvent? ==> src.ev.trigger == t
    ensures !src.FromEvent? ==> t == OnTimeout
    ensures after.inbox == (if src.FromEvent? then c.db.inbox + {src.ev.id} else c.db.inbox)
    ensures after.order.status == d.next
  {
  }

  lemma TurnIsLive(c: Cell, src: Source, after: Db, t: Trigger, d: Decision, rid: Id, pid: Id, free: bool)
    requires Live(c, rid, pid, free) && Safe(c.(db := after), rid, pid)
    requires src.FromEvent? ==> src.ev in c.events
    requires src.FromTimeout? ==> free || !RollbackForbidden(c.db.order.status)
    requires Turned(c, src, after, t, d, rid, pid)
    ensures Live(c.(db := after), rid, pid, free)
  {
    hide Safe, OneIdentity, CommandsFit, Numbered, Replied, CardHeard, RowsMatch, RowsTimed, StatusSteps,
      RepliesAwaited,
         Turned, Turn, RowsSent, Decides, Lawful, StepsOf;
    var s, steps := c.db.order.status, c.db.steps;
    SafeFacts(c, rid, pid);
    TurnFacts(c, src, after, t, d, rid, pid);
    DecisionIsLawful(s, steps, src, t, d);
    DecisionIsTimed(s, steps, src, t, d);
    ForwardCommands(c, src, t, d);
    TurnKeepsNumbers(c, src, after, t, d, rid, pid);
    TurnKeepsReplies(c, after, t, BuildCtx(steps, Retriable(src)), d, rid, pid);
    TurnKeepsRows(c, after, t, d, if src.FromEvent? then src.ev else Event(0, OnTimeout, None, None, None, false));
    TurnKeepsSteps(s, src, steps, after.steps, Sent(c), t, d);
    CapturesWereSent(c);
    TurnKeepsAwaited(c, src, after, t, d);
    if !free { TurnKeepsUntimed(steps, after.steps, t, d); }
  }

  lemma CapturesWereSent(c: Cell)
    requires Replied(c)
    ensures OnCaptured in Told(c) ==> Capture in Sent(c)
  {
  }

  /** Outside the roll-forward states a timeout sends nothing forward. */
  lemma ForwardCommands(c: Cell, src: Source, t: Trigger, d: Decision)
    requires Decides(c.db.order.status, c.db.steps, src, t, d)
    ensures src.FromTimeout? && !RollbackForbidden(c.db.order.status) ==> Commit !in d.emit && Capture !in d.emit
  {
  }

  /** A whole order-service transaction keeps the invariant. */
  lemma WholeIsLive(c: Cell, src: Source, rid: Id, pid: Id, free: bool)
    requires Live(c, rid, pid, free)
    requires src.FromEvent? ==> src.ev in c.events
    requires src.FromTimeout? ==> free || !RollbackForbidden(c.db.order.status)
    ensures Live(WholeTxn(c, src), rid, pid, free)
  {
    hide Replied, Rows, StatusRows, RollForwardUntimed, OneReserve, CommandsFit, TxnsArePast, Turn, Decides;
    var ctx := BuildCtx(c.db.steps, Retriable(src));
    var o := FinishTxn(c.db, src, c.db.order, ctx);
    FinishIsSafe(c, src, c.db.order, ctx, rid, pid);
    if o.Done? {
      var t, d := OnTimeout, Go(Compensating, CancelSteps(ctx), TIMEOUT_COMPENSATING);
      match src {
        case FromEvent(ev) =>
          t, d := ev.trigger, Next(c.db.order.status, ev.trigger, ctx).decision;
          EventTurns(c, ev, o.db, d, rid, pid);
        case FromTimeout =>
          d := Next(c.db.order.status, OnTimeout, ctx).decision;
          TimeoutTurns(c, o.db, d, rid, pid);
        case FromCustomer =>
          CancelTurns(c, o.db, rid, pid);
      }
      TurnIsLive(c, src, o.db, t, d, rid, pid, free);
    }
  }

  // ----- preservation: the participants

  /** `after` differs from `c` in inventory's rows only, and may carry one more of inventory's events. */
  ghost predicate InventoryStep(c: Cell, after: Cell) {
    && after.db == c.db.(nextId := after.db.nextId)
    && c.db.nextId <= after.db.nextId
    && after.answered == c.answered
    && (forall i :: i in after.claimed ==> i in c.claimed || i < c.db.nextId)
    && c.events <= after.events
    && (forall e :: e in after.events && e !in c.events ==>
          && after.db.nextId == c.db.nextId + 1
          && e == Event(c.db.nextId, e.trigger, e.resId, None, ReasonOf(e.trigger), false)
          && (e.trigger == OnReserved || e.trigger == OnReserveFailed || e.trigger == OnReleased ||
                e.trigger == OnCommitted))
    && (forall e, f :: e in after.events && e !in c.events && f in after.events && f !in c.events ==> e == f)
  }

  lemma InventoryKeepsReplies(c: Cell, after: Cell)
    requires Replied(c) && InventoryStep(c, after)
    ensures Replied(after) && Sent(after) == Sent(c)
  {
    assert Sent(after) == Sent(c);
    assert forall e :: e in after.events && e !in c.events ==> !ByCard(e.trigger);
    forall t | t in Told(after) && (t == OnCaptured || t == OnVoided)
      ensures t in Told(c)
    {
      var e :| e in after.events && e.trigger == t;
    }
    assert Told(c) <= Told(after);
  }

  lemma InventoryKeepsOrder(c: Cell, after: Cell, free: bool)
    requires Orderly(c, free) && InventoryStep(c, after)
    requires forall e :: e in c.events ==> e.id < c.db.nextId
    ensures Orderly(after, free)
  {
    InventoryKeepsReplies(c, after);
    assert CardHeard(after) by { assert forall e :: e in after.events && ByCard(e.trigger) ==> e in c.events; }
    assert Numbered(after);
  }

  lemma AnswerKeepsOrder(c: Cell, after: Cell, cmd: Command, e: Event, free: bool)
    requires Orderly(c, free) && cmd in c.db.cmds && cmd.id !in c.answered && Answers(cmd.step, e.trigger)
    requires forall k, l :: k in c.db.cmds && l in c.db.cmds && k.id == l.id ==> k == l
    requires forall f :: f in c.events ==> f.id < c.db.nextId
    requires cmd.id < c.db.nextId && e.id == c.db.nextId
    requires after == c.(db := c.db.(nextId := c.db.nextId + 1), events := c.events + {e},
      answered := c.answered + {cmd.id})
    ensures Orderly(after, free)
  {
    hide Replied, Numbered, CardHeard, RowsMatch, RowsTimed, StatusSteps;
    AnswerKeepsReplies(c, after, cmd, e);
    AnswerIsUnheard(c, after, cmd, e);
    assert Sent(after) == Sent(c);
  }

  lemma AnswerIsUnheard(c: Cell, after: Cell, cmd: Command, e: Event)
    requires Numbered(c) && Replied(c) && CardHeard(c) && RepliesAwaited(c)
    requires cmd in c.db.cmds && cmd.id !in c.answered && Answers(cmd.step, e.trigger)
    requires forall f :: f in c.events ==> f.id < c.db.nextId
    requires cmd.id < c.db.nextId && e.id == c.db.nextId
    requires after == c.(db := c.db.(nextId := c.db.nextId + 1), events := c.events + {e},
      answered := c.answered + {cmd.id})
    ensures Numbered(after) && CardHeard(after) && RepliesAwaited(after)
  {
    if ByCard(e.trigger) {
      assert forall f :: f in c.events ==> !ByCard(f.trigger);
      assert !Acked(c.db.steps, Authorize);
    }
  }

  lemma AnswerKeepsReplies(c: Cell, after: Cell, cmd: Command, e: Event)
    requires Replied(c) && cmd in c.db.cmds && cmd.id !in c.answered && Answers(cmd.step, e.trigger)
    requires forall k, l :: k in c.db.cmds && l in c.db.cmds && k.id == l.id ==> k == l
    requires after.db.cmds == c.db.cmds && after.events == c.events + {e} && after.answered == c.answered + {cmd.id}
    ensures Replied(after)
  {
    assert Sent(after) == Sent(c) && cmd.step in Sent(c);
    assert Told(after) == Told(c) + {e.trigger};
  }

  predicate AtInventory(a: Action) {
    a.Claim? || a.Crash? || a.Run? || a.PublishFailure? || a.Expire?
  }

  lemma InventoryActs(c: Cell, a: Action)
    requires AtInventory(a)
    requires forall k :: k in c.db.cmds ==> k.id < c.db.nextId
    ensures InventoryStep(c, Act(c, a))
  {
  }

  lemma ParticipantIsLive(c: Cell, a: Action, rid: Id, pid: Id, free: bool)
    requires Live(c, rid, pid, free) && (AtInventory(a) || a.Answer?)
    ensures Live(Act(c, a), rid, pid, free)
  {
    hide StatusRows, Rows, Replied, OneReserve, CommandsFit, Evidenced, TxnsArePast;
    ActIsSafe(c, a, rid, pid);
    if a.Answer? {
      if a.cmd in c.db.cmds && a.cmd.id !in c.answered && Answers(a.cmd.step, a.trigger) {
        AnswerKeepsOrder(c, Act(c, a), a.cmd,
          Event(c.db.nextId, a.trigger, None, Some(a.cmd.payId), a.why, a.retriable), free);
      }
    } else {
      InventoryActs(c, a);
      InventoryKeepsOrder(c, Act(c, a), free);
    }
  }

  lemma ActIsLive(c: Cell, a: Action, rid: Id, pid: Id, free: bool)
    requires Live(c, rid, pid, free) && Happens(a, free)
    ensures Live(Act(c, a), rid, pid, free)
  {
    hide Live;
    match a
    case Deliver(ev) => if ev in c.events { WholeIsLive(c, FromEvent(ev), rid, pid, free); }
    case Sweep(row) => SweepIsLive(c, row, rid, pid, free);
    case ForcedTimeout => WholeIsLive(c, FromTimeout, rid, pid, free);
    case CustomerCancel => WholeIsLive(c, FromCustomer, rid, pid, free);
    case _ => ParticipantIsLive(c, a, rid, pid, free);
  }

  /** Past the point of no return no row is ever overdue, so the sweeper's retry-forward never runs. */
  lemma NothingOverdueForward(c: Cell, rid: Id, pid: Id)
    requires Live(c, rid, pid, false) && RollbackForbidden(c.db.order.status)
    ensures !Overdue(c)
  {
  }

  lemma SweepIsLive(c: Cell, row: Step, rid: Id, pid: Id, free: bool)
    requires Live(c, rid, pid, free)
    ensures Live(Act(c, Sweep(row)), rid, pid, free)
  {
    hide Live;
    if OverdueRow(c.db.steps, row) && !IsTerminal(c.db.order.status) {
      assert c.db.steps[row := c.db.steps[row].(timed := true)] == c.db.steps;
      if !free && RollbackForbidden(c.db.order.status) {
        NothingOverdueForward(c, rid, pid);
        assert false;
      }
      WholeIsLive(c, FromTimeout, rid, pid, free);
    }
  }
}
