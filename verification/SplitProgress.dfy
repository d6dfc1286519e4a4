/**
 When a saga can still finish although handlers interleave: reads and commits are separate steps, a
 transaction may commit long after it read or be abandoned, and timeouts are free. The answer is exact.
 */
module SplitProgress {
  import opened Basics
  import opened SagaMachine
  import opened Orchestrator
  import opened ReservationRow
  import opened SagaProtocol
  import opened SagaProgress
  import opened SagaTermination

  /** Any step, whole or split, except that payment answers a command once. */
  predicate Regular(a: Action) {
    !a.AnswerAgain?
  }

  ghost predicate Arises(c: Cell) {
    exists firstId: Id, acts: seq<Action> :: (forall a :: a in acts ==> Regular(a)) && c == Exec(Place(firstId), acts)
  }

  ghost predicate CanEnd(c: Cell) {
    exists acts: seq<Action> :: (forall a :: a in acts ==> Regular(a)) && IsTerminal(Exec(c, acts).db.order.status)
  }

  /** A timeout that read COMPENSATING and still has a compensation to send; its commit is not version-checked. */
  predicate Resends(x: Txn) {
    x.Loaded? && x.src.FromTimeout? && x.snap.status == Compensating && CompensationsFor(x.ctx) != []
  }

  /** This command can still draw a reply that counts in COMPENSATING. */
  predicate Outstanding(c: Cell, k: Command) {
    || (k.step == Release && (k.id !in c.claimed || k in c.pending))
    || ((k.step == Authorize || k.step == Void) && k.id !in c.answered)
  }

  /** COMPENSATING with every needed acknowledgement recorded, and nothing left under way that would settle it. */
  ghost predicate Stranded(c: Cell) {
    && c.db.order.status == Compensating
    && !AwaitsAck(c.db.steps)
    && (forall e :: e in c.events && e.id !in c.db.inbox ==> e.trigger == OnReserved)
    && (forall k :: k in c.db.cmds ==> !Outstanding(c, k))
    && c.failing == {}
    && (forall x :: x in c.txns ==> !Resends(x))
  }

  // ----- the invariant of split runs

  ghost predicate CardRows(c: Cell) {
    && (Authorize in Sent(c) ==> Authorize in c.db.steps)
    && (forall e :: e in c.events && ByCard(e.trigger) ==> Authorize in Sent(c))
    && (OnCaptured in Told(c) ==> Capture in Sent(c))
    && (forall x :: x in c.txns && x.Loaded? && x.ctx.authorizeSent ==> Authorize in c.db.steps)
  }

  ghost predicate Split(c: Cell, rid: Id, pid: Id) {
    Safe(c, rid, pid) && Numbered(c) && CardRows(c)
  }

  /** What any transaction does to ids, inbox and rows, however old its reads. */
  ghost predicate Advanced(before: Db, after: Db, src: Source) {
    && before.nextId <= after.nextId
    && (forall i :: i in after.inbox ==> i in before.inbox || (src.FromEvent? && i == src.ev.id))
    && before.steps.Keys <= after.steps.Keys
    && StepsOf(before.cmds) <= StepsOf(after.cmds)
    && (Authorize in StepsOf(after.cmds) ==> Authorize in StepsOf(before.cmds) || Authorize in after.steps)
  }

  lemma MoveAdvances(before: Db, mid: Db, after: Db, snap: OrderRow, t: Trigger, d: Decision, src: Source, rid: Id,
      pid: Id)
    requires mid == before.(inbox := mid.inbox)
    requires mid.inbox == before.inbox + if src.FromEvent? then {src.ev.id} else {}
    requires Moved(mid, after, snap, t, d, rid, pid) && RowsMoved(mid, after, t, d)
    ensures Advanced(before, after, src)
  {
    forall s | s in before.steps.Keys
      ensures s in after.steps.Keys
    {
      assert s in AckRows(mid.steps, t);
    }
  }

  lemma FinishAdvances(db: Db, src: Source, snap: OrderRow, ctx: Ctx, rid: Id, pid: Id)
    requires Identified(db.order, rid, pid) && Identified(snap, rid, pid) && SatisfiesChecks(db.order)
    requires forall k :: k in db.cmds ==> k.id < db.nextId
    requires src.FromEvent? ==>
      (src.ev.resId.Some? ==> src.ev.resId.value == rid) && (src.ev.payId.Some? ==> src.ev.payId.value == pid)
    ensures Advanced(db, After(db, FinishTxn(db, src, snap, ctx)), src)
  {
    hide Moved, RowsMoved, Advanced, Apply, EmitAll;
    var o := FinishTxn(db, src, snap, ctx);
    if o.Done? {
      match src
      case FromEvent(ev) =>
        NextIsLawful(snap.status, ev.trigger, ctx);
        var mid := db.(inbox := db.inbox + {ev.id});
        var d := Next(snap.status, ev.trigger, ctx).decision;
        ApplyMoves(mid, snap, EvidenceOf(ev), d, rid, pid);
        MoveAdvances(db, mid, o.db, snap, ev.trigger, d, src, rid, pid);
      case FromTimeout =>
        NextIsLawful(snap.status, OnTimeout, ctx);
        var d := Next(snap.status, OnTimeout, ctx).decision;
        ApplyMoves(db, snap, TimeoutEvidence(snap), d, rid, pid);
        MoveAdvances(db, db, o.db, snap, OnTimeout, d, src, rid, pid);
      case FromCustomer =>
        CancelMoves(db, snap, ctx, rid, pid);
        MoveAdvances(db, db, o.db, snap, OnTimeout, Go(Compensating, CancelSteps(ctx), TIMEOUT_COMPENSATING), src, rid,
          pid);
    } else {
      NothingAdvances(db, src);
    }
  }

  lemma NothingAdvances(db: Db, src: Source)
    ensures Advanced(db, db, src)
  {
  }

  lemma AdvanceKeeps(c: Cell, after: Db, src: Source, rid: Id, pid: Id)
    requires OneIdentity(c, rid, pid) && Numbered(c) && CardRows(c) && Advanced(c.db, after, src)
    requires src.FromEvent? ==> src.ev in c.events
    ensures Numbered(c.(db := after)) && CardRows(c.(db := after))
  {
    var c' := c.(db := after);
    assert Told(c') == Told(c);
  }

  lemma TxnKeepsSplit(c: Cell, src: Source, snap: OrderRow, ctx: Ctx, rid: Id, pid: Id)
    requires Split(c, rid, pid) && Identified(snap, rid, pid)
    requires src.FromEvent? ==> src.ev in c.events
    ensures var c' := c.(db := After(c.db, FinishTxn(c.db, src, snap, ctx))); Numbered(c') && CardRows(c')
  {
    hide FinishTxn, Numbered, CardRows, Advanced, OneReserve, CommandsFit, TxnsArePast;
    FinishAdvances(c.db, src, snap, ctx, rid, pid);
    AdvanceKeeps(c, After(c.db, FinishTxn(c.db, src, snap, ctx)), src, rid, pid);
  }

  lemma SweepIsTimeout(c: Cell, row: Step)
    requires OverdueRow(c.db.steps, row)
    ensures After(c.db, Fire(c.db, row)) == WholeTxn(c, FromTimeout).db || After(c.db, Fire(c.db, row)) == c.db
  {
    assert c.db.steps[row := c.db.steps[row].(timed := true)] == c.db.steps;
  }

  /** One new event under a new id, from a participant that was asked. */
  lemma SpeakKeeps(c: Cell, c': Cell, e: Event, rid: Id, pid: Id)
    requires OneIdentity(c, rid, pid) && Numbered(c) && CardRows(c)
    requires c'.db == c.db.(nextId := c.db.nextId + 1) && c'.events == c.events + {e} && e.id == c.db.nextId
    requires c'.claimed == c.claimed && c'.txns == c.txns && forall i :: i in c'.answered ==> i < c'.db.nextId
    requires e.trigger != OnTimeout
    requires (ByCard(e.trigger) ==> Authorize in Sent(c)) && (e.trigger == OnCaptured ==> Capture in Sent(c))
    ensures Numbered(c') && CardRows(c')
  {
    assert Sent(c') == Sent(c);
    assert Told(c') == Told(c) + {e.trigger};
  }

  lemma HushKeeps(c: Cell, c': Cell)
    requires Numbered(c) && CardRows(c)
    requires c'.db == c.db && c'.events == c.events && c'.answered == c.answered && c'.txns == c.txns
    requires forall i :: i in c'.claimed ==> i < c.db.nextId
    ensures Numbered(c') && CardRows(c')
  {
    assert Sent(c') == Sent(c) && Told(c') == Told(c);
  }

  lemma FewerKeeps(c: Cell, some: set<Txn>)
    requires Numbered(c) && CardRows(c) && some <= c.txns
    ensures Numbered(c.(txns := some)) && CardRows(c.(txns := some))
  {
    var c' := c.(txns := some);
    assert Sent(c') == Sent(c) && Told(c') == Told(c);
  }

  lemma ReadKeeps(c: Cell, a: Action, rid: Id, pid: Id)
    requires Split(c, rid, pid) && (a.Begin? || a.Load?)
    ensures Numbered(Act(c, a)) && CardRows(Act(c, a))
  {
    hide FinishTxn, Fire, OneReserve, CommandsFit, TxnsArePast, Evidenced, OneIdentity;
    var c' := Act(c, a);
    assert Sent(c') == Sent(c) && Told(c') == Told(c);
  }

  lemma InventoryKeepsSplit(c: Cell, a: Action, rid: Id, pid: Id)
    requires Split(c, rid, pid) && (a.Run? || a.PublishFailure? || a.Expire?)
    ensures Numbered(Act(c, a)) && CardRows(Act(c, a))
  {
    hide Numbered, CardRows, OneReserve, CommandsFit, TxnsArePast, Evidenced;
    var c' := Act(c, a);
    NumbersAnswered(c);
    if c'.events == c.events {
      HushKeeps(c, c');
    } else {
      var e :| e in c'.events && e !in c.events;
      SpeakKeeps(c, c', e, rid, pid);
    }
  }

  lemma NumbersAnswered(c: Cell)
    requires Numbered(c)
    ensures (forall i :: i in c.answered ==> i < c.db.nextId) && forall i :: i in c.claimed ==> i < c.db.nextId
  {
  }

  lemma PaymentKeepsSplit(c: Cell, a: Action, rid: Id, pid: Id)
    requires Split(c, rid, pid) && (a.Answer? || a.AnswerAgain?)
    ensures Numbered(Act(c, a)) && CardRows(Act(c, a))
  {
    hide Numbered, CardRows, OneReserve, CommandsFit, TxnsArePast, Evidenced;
    var c' := Act(c, a);
    NumbersAnswered(c);
    if c' != c {
      assert a.cmd.step in Sent(c) && a.cmd.id < c.db.nextId;
      SpeakKeeps(c, c', Event(c.db.nextId, a.trigger, None, Some(a.cmd.payId), a.why, a.retriable), rid, pid);
    }
  }

  lemma QuietKeepsSplit(c: Cell, a: Action, rid: Id, pid: Id)
    requires Split(c, rid, pid)
    requires !a.Deliver? && !a.Sweep? && !a.ForcedTimeout? && !a.CustomerCancel? && !a.Finish? && !a.Abandon?
    ensures Numbered(Act(c, a)) && CardRows(Act(c, a))
  {
    hide Numbered, CardRows, OneReserve, CommandsFit, TxnsArePast, Evidenced, FinishTxn, Fire;
    if a.Begin? || a.Load? {
      ReadKeeps(c, a, rid, pid);
    } else if a.Claim? || a.Crash? {
      NumbersAnswered(c);
      HushKeeps(c, Act(c, a));
    } else if a.Answer? || a.AnswerAgain? {
      PaymentKeepsSplit(c, a, rid, pid);
    } else {
      InventoryKeepsSplit(c, a, rid, pid);
    }
  }

  lemma SplitStep(c: Cell, a: Action, rid: Id, pid: Id)
    requires Split(c, rid, pid)
    ensures Split(Act(c, a), rid, pid)
  {
    hide FinishTxn, Fire, Numbered, CardRows, OneReserve, CommandsFit, Evidenced;
    ActIsSafe(c, a, rid, pid);
    match a
    case Deliver(ev) =>
      if ev in c.events { TxnKeepsSplit(c, FromEvent(ev), c.db.order, BuildCtx(c.db.steps, ev.retriable), rid, pid); }
    case Sweep(row) =>
      if OverdueRow(c.db.steps, row) {
        SweepIsTimeout(c, row);
        TxnKeepsSplit(c, FromTimeout, c.db.order, BuildCtx(c.db.steps, false), rid, pid);
      }
    case ForcedTimeout => TxnKeepsSplit(c, FromTimeout, c.db.order, BuildCtx(c.db.steps, false), rid, pid);
    case CustomerCancel => TxnKeepsSplit(c, FromCustomer, c.db.order, BuildCtx(c.db.steps, false), rid, pid);
    case Finish(txn) =>
      if txn in c.txns && txn.Loaded? {
        assert ReadIsPast(c, txn.src, txn.snap);
        TxnKeepsSplit(c, txn.src, txn.snap, txn.ctx, rid, pid);
        FewerKeeps(c.(db := After(c.db, FinishTxn(c.db, txn.src, txn.snap, txn.ctx))), c.txns - {txn});
      }
    case Abandon(txn) => FewerKeeps(c, c.txns - {txn});
    case _ => QuietKeepsSplit(c, a, rid, pid);
  }

  lemma {:induction false} SplitRun(c: Cell, acts: seq<Action>, rid: Id, pid: Id)
    requires Split(c, rid, pid)
    ensures Split(Exec(c, acts), rid, pid)
    decreases |acts|
  {
    hide Split, Act;
    if acts != [] {
      SplitStep(c, acts[0], rid, pid);
      SplitRun(Act(c, acts[0]), acts[1..], rid, pid);
    }
  }

  lemma PlacedIsSplit(firstId: Id)
    ensures Split(Place(firstId), firstId, firstId + 1)
  {
    hide Replied, StatusRows, Rows;
    PlaceIsLive(firstId, true);
    var c := Place(firstId);
    assert Start().emit[1..] == [];
    assert c.db.cmds == {Command(firstId + 2, Reserve, firstId, firstId + 1)};
    assert Sent(c) == {Reserve} && Told(c) == {};
  }

  lemma ArisenIsSplit(c: Cell) returns (rid: Id, pid: Id)
    requires Arises(c)
    ensures Split(c, rid, pid)
  {
    hide Split;
    var firstId: Id, acts: seq<Action> :| (forall a :: a in acts ==> Regular(a)) && c == Exec(Place(firstId), acts);
    rid, pid := firstId, firstId + 1;
    PlacedIsSplit(firstId);
    SplitRun(Place(firstId), acts, rid, pid);
  }
}
