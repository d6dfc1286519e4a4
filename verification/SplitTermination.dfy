/** Which orders of split runs can still finish: exactly those that are neither orphaned nor stranded. */
module SplitTermination {
  import opened Basics
  import opened SagaMachine
  import opened Orchestrator
  import opened ReservationRow
  import opened SagaProtocol
  import opened SagaProgress
  import opened SagaTermination
  import opened SplitProgress

  // ----- composing a continuation

  lemma EndsNow(c: Cell)
    requires IsTerminal(c.db.order.status)
    ensures CanEnd(c)
  {
    var acts: seq<Action> := [];
    assert Exec(c, acts) == c;
  }

  lemma EndsAfter(c: Cell, a: Action)
    requires Regular(a) && CanEnd(Act(c, a))
    ensures CanEnd(c)
  {
    var acts: seq<Action> :| (forall b :: b in acts ==> Regular(b)) &&
      IsTerminal(Exec(Act(c, a), acts).db.order.status);
    var more := [a] + acts;
    assert more[1..] == acts;
    assert Exec(c, more) == Exec(Act(c, a), acts);
  }

  /** An unprocessed event that the machine accepts takes effect. */
  lemma Delivered(c: Cell, ev: Event, d: Decision, rid: Id, pid: Id)
    requires Split(c, rid, pid) && ev in c.events && ev.id !in c.db.inbox
    requires Next(c.db.order.status, ev.trigger, BuildCtx(c.db.steps, ev.retriable)) == Ok(d)
    ensures var c' := Act(c, Deliver(ev));
      && c' == c.(db := c'.db)
      && c'.db.order.status == d.next
      && RowsSent(AckRows(c.db.steps, ev.trigger), c'.db.steps, d.emit, d.deadline > 0)
      && Split(c', rid, pid)
  {
    hide CardRows, Moved, RowsMoved, OneReserve, CommandsFit, TxnsArePast, Turn, Apply, Next;
    HandleCommits(c.db, ev, d, rid, pid);
    EventTurns(c, ev, Handle(c.db, ev).db, d, rid, pid);
    TurnFacts(c, FromEvent(ev), Handle(c.db, ev).db, ev.trigger, d, rid, pid);
    SplitStep(c, Deliver(ev), rid, pid);
  }

  lemma TimeoutCommitsAnywhere(db: Db, rid: Id, pid: Id)
    requires Identified(db.order, rid, pid) && !IsTerminal(db.order.status)
    ensures ConcludeTimeout(db, db.order, BuildCtx(db.steps, false)).Done?
  {
  }

  /** A free timeout sends what the machine says, under ids nobody has claimed or answered. */
  lemma TimedOut(c: Cell, d: Decision, rid: Id, pid: Id)
    requires Split(c, rid, pid) && !IsTerminal(c.db.order.status)
    requires Next(c.db.order.status, OnTimeout, BuildCtx(c.db.steps, false)) == Ok(d)
    ensures var c' := Act(c, ForcedTimeout);
      && c' == c.(db := c'.db)
      && c'.db.order.status == d.next
      && RowsSent(c.db.steps, c'.db.steps, d.emit, d.deadline > 0)
      && (forall s :: s in d.emit ==>
            exists k :: k in c'.db.cmds && k.step == s && k.id !in c.claimed && k.id !in c.answered)
      && Split(c', rid, pid)
  {
    hide CardRows, OneReserve, CommandsFit, TxnsArePast, Apply, Next;
    TimeoutCommitsAnywhere(c.db, rid, pid);
    var after := Act(c, ForcedTimeout).db;
    TimeoutTurns(c, after, d, rid, pid);
    SplitStep(c, ForcedTimeout, rid, pid);
    FreshIds(c, after, OnTimeout, d, rid, pid);
  }

  lemma FreshIds(c: Cell, after: Db, t: Trigger, d: Decision, rid: Id, pid: Id)
    requires Numbered(c) && Turn(c.db, after, t, d, rid, pid)
    ensures forall s :: s in d.emit ==>
      exists k :: k in after.cmds && k.step == s && k.id !in c.claimed && k.id !in c.answered
  {
    forall s | s in d.emit
      ensures exists k :: k in after.cmds && k.step == s && k.id !in c.claimed && k.id !in c.answered
    {
      var k :| k in after.cmds && k !in c.db.cmds && k.step == s;
    }
  }

  /** Payment answers a command for the first time; the answer is unprocessed. */
  lemma Answered(c: Cell, k: Command, t: Trigger, rid: Id, pid: Id) returns (e: Event, a: Action)
    requires Split(c, rid, pid) && k in c.db.cmds && k.id !in c.answered && Answers(k.step, t)
    ensures Regular(a) && Split(Act(c, a), rid, pid)
    ensures var c' := Act(c, a);
      c'.db == c.db.(nextId := c'.db.nextId) && e in c'.events && e.trigger == t && e.id !in c'.db.inbox && !e.retriable
  {
    hide Safe, CardRows;
    a := Answer(k, t, None, false);
    e := Event(c.db.nextId, t, None, Some(k.payId), None, false);
    SplitStep(c, a, rid, pid);
  }

  /** Inventory runs a claimed command that draws a reply. */
  lemma Ran(c: Cell, k: Command, t: Trigger, rid: Id, pid: Id) returns (e: Event)
    requires Split(c, rid, pid) && k in c.pending && Participant(c.resv, k.step, k.resId, true).event == Some(t)
    ensures Split(Act(c, Run(k, true)), rid, pid)
    ensures var c' := Act(c, Run(k, true));
      c'.db == c.db.(nextId := c'.db.nextId) && e in c'.events && e.trigger == t && e.id !in c'.db.inbox && !e.retriable
  {
    hide Safe, CardRows;
    e := Event(c.db.nextId, t, Some(k.resId), None, ReasonOf(t), false);
    SplitStep(c, Run(k, true), rid, pid);
  }

  // ----- compensation

  /** A settled reservation row, or none, answers RELEASE. */
  lemma ReleaseIsAnswered(c: Cell, k: Command, rid: Id, pid: Id)
    requires Split(c, rid, pid) && k in c.db.cmds && c.db.order.status == Compensating
    ensures Participant(c.resv, Release, k.resId, true).event == Some(OnReleased)
  {
    hide OneReserve, TxnsArePast, Numbered, CardRows;
  }

  /** Inventory has settled, payment has not: one more timeout sends VOID and its answer cancels the order. */
  lemma EndsByVoid(c: Cell, rid: Id, pid: Id)
    requires Split(c, rid, pid) && c.db.order.status == Compensating
    requires Acked(c.db.steps, Release) && Authorize in c.db.steps && !Acked(c.db.steps, Void)
    ensures CanEnd(c)
  {
    hide Split, CanEnd;
    var d := Go(Compensating, [Void], TIMEOUT_COMPENSATING);
    assert Next(Compensating, OnTimeout, BuildCtx(c.db.steps, false)) == Ok(d);
    TimedOut(c, d, rid, pid);
    var c1 := Act(c, ForcedTimeout);
    assert Void in d.emit && Release !in d.emit;
    var k :| k in c1.db.cmds && k.step == Void && k.id !in c.claimed && k.id !in c.answered;
    var e, a := Answered(c1, k, OnVoided, rid, pid);
    var c2 := Act(c1, a);
    Delivered(c2, e, SettleOrWait(BuildCtx(c2.db.steps, false).(paymentSettled := true)), rid, pid);
    EndsNow(Act(c2, Deliver(e)));
    EndsAfter(c2, Deliver(e));
    EndsAfter(c1, a);
    EndsAfter(c, ForcedTimeout);
  }

  /** A release that was heard settles inventory; what payment still owes is then sent again. */
  lemma EndsByReleased(c: Cell, e: Event, rid: Id, pid: Id)
    requires Split(c, rid, pid) && c.db.order.status == Compensating
    requires e in c.events && e.id !in c.db.inbox && e.trigger == OnReleased && !e.retriable
    ensures CanEnd(c)
  {
    hide Split, CanEnd;
    var d := SettleOrWait(BuildCtx(c.db.steps, false).(inventorySettled := true));
    Delivered(c, e, d, rid, pid);
    var c' := Act(c, Deliver(e));
    if d.next == Cancelled {
      EndsNow(c');
    } else {
      assert Acked(c'.db.steps, Release);
      EndsByVoid(c', rid, pid);
    }
    EndsAfter(c, Deliver(e));
  }

  lemma EndsByRun(c: Cell, k: Command, rid: Id, pid: Id)
    requires Split(c, rid, pid) && c.db.order.status == Compensating
    requires k in c.pending && k in c.db.cmds && k.step == Release
    ensures CanEnd(c)
  {
    hide Split, CanEnd;
    ReleaseIsAnswered(c, k, rid, pid);
    var e := Ran(c, k, OnReleased, rid, pid);
    EndsByReleased(Act(c, Run(k, true)), e, rid, pid);
    EndsAfter(c, Run(k, true));
  }

  lemma EndsByClaim(c: Cell, k: Command, rid: Id, pid: Id)
    requires Split(c, rid, pid) && c.db.order.status == Compensating
    requires k in c.db.cmds && k.step == Release && k.id !in c.claimed
    ensures CanEnd(c)
  {
    hide Split, CanEnd;
    SplitStep(c, Claim(k), rid, pid);
    EndsByRun(Act(c, Claim(k)), k, rid, pid);
    EndsAfter(c, Claim(k));
  }

  /** Inventory has not settled: a timeout sends RELEASE again. */
  lemma EndsByRelease(c: Cell, rid: Id, pid: Id)
    requires Split(c, rid, pid) && c.db.order.status == Compensating && !Acked(c.db.steps, Release)
    ensures CanEnd(c)
  {
    hide Split, CanEnd;
    var d := Go(Compensating, CompensationsFor(BuildCtx(c.db.steps, false)), TIMEOUT_COMPENSATING);
    TimedOut(c, d, rid, pid);
    var c1 := Act(c, ForcedTimeout);
    assert Release in d.emit;
    var k :| k in c1.db.cmds && k.step == Release && k.id !in c.claimed && k.id !in c.answered;
    EndsByClaim(c1, k, rid, pid);
    EndsAfter(c, ForcedTimeout);
  }

  // ----- every acknowledgement recorded, yet not cancelled

  ghost predicate Missed(c: Cell) {
    c.db.order.status == Compensating && !AwaitsAck(c.db.steps)
  }

  /** What may still be unprocessed in COMPENSATING. */
  lemma EventsInCompensation(c: Cell, e: Event, rid: Id, pid: Id)
    requires Split(c, rid, pid) && c.db.order.status == Compensating && e in c.events
    ensures e.trigger != OnCommitted && e.trigger != OnCaptured && e.trigger != OnTimeout
    ensures e.trigger == OnAuthorized ==> Authorize in c.db.steps
  {
    hide OneReserve, TxnsArePast, OneIdentity;
    assert e.trigger in Told(c);
  }

  /** Any unprocessed event but a late reservation settles the order, or makes it send VOID once more. */
  lemma EndsByEvent(c: Cell, e: Event, rid: Id, pid: Id)
    requires Split(c, rid, pid) && Missed(c) && e in c.events && e.id !in c.db.inbox && e.trigger != OnReserved
    ensures CanEnd(c)
  {
    hide Split, CanEnd;
    EventsInCompensation(c, e, rid, pid);
    var ctx := BuildCtx(c.db.steps, e.retriable);
    var d := Next(Compensating, e.trigger, ctx).decision;
    Delivered(c, e, d, rid, pid);
    var c' := Act(c, Deliver(e));
    if e.trigger == OnAuthorized {
      assert d.emit == [Void] && Void in d.emit && Release !in d.emit && Authorize !in d.emit;
      EndsByVoid(c', rid, pid);
    } else {
      EndsNow(c');
    }
    EndsAfter(c, Deliver(e));
  }

  /** The failed RESERVE that was never reported still reports. */
  lemma EndsByFailure(c: Cell, k: Command, rid: Id, pid: Id)
    requires Split(c, rid, pid) && Missed(c) && k in c.failing
    ensures CanEnd(c)
  {
    hide Split, CanEnd;
    FailureIsAnswered(c, k, rid, pid);
    SplitStep(c, PublishFailure(k), rid, pid);
    var c' := Act(c, PublishFailure(k));
    var e := Event(c.db.nextId, OnReserveFailed, Some(k.resId), None, ReasonOf(OnReserveFailed), false);
    EndsByEvent(c', e, rid, pid);
    EndsAfter(c, PublishFailure(k));
  }

  lemma FailureIsAnswered(c: Cell, k: Command, rid: Id, pid: Id)
    requires Split(c, rid, pid) && Acked(c.db.steps, Release) && k in c.failing
    ensures FailureRow(c.resv, k.resId).event == Some(OnReserveFailed)
    ensures c.db.nextId !in c.db.inbox
  {
    hide CommandsFit, TxnsArePast, CardRows;
    assert k in c.db.cmds;
  }

  lemma EndsByAnswer(c: Cell, k: Command, rid: Id, pid: Id)
    requires Split(c, rid, pid) && Missed(c) && k in c.db.cmds && (k.step == Authorize || k.step == Void) &&
      k.id !in c.answered
    ensures CanEnd(c)
  {
    hide Split, CanEnd;
    var e, a := Answered(c, k, if k.step == Void then OnVoided else OnAuthFailed, rid, pid);
    EndsByEvent(Act(c, a), e, rid, pid);
    EndsAfter(c, a);
  }

  /** A stale timeout commits without a version check, and what it sends reopens an acknowledged step. */
  lemma EndsByResend(c: Cell, x: Txn, rid: Id, pid: Id)
    requires Split(c, rid, pid) && Missed(c) && x in c.txns && Resends(x)
    ensures CanEnd(c)
  {
    hide Split, CanEnd;
    Resent(c, x, rid, pid);
    SplitStep(c, Finish(x), rid, pid);
    var c' := Act(c, Finish(x));
    if Release in CompensationsFor(x.ctx) {
      EndsByRelease(c', rid, pid);
    } else {
      EndsByVoid(c', rid, pid);
    }
    EndsAfter(c, Finish(x));
  }

  lemma Resent(c: Cell, x: Txn, rid: Id, pid: Id)
    requires Split(c, rid, pid) && Missed(c) && x in c.txns && Resends(x)
    ensures var c' := Act(c, Finish(x));
      && c'.db.order.status == Compensating
      && RowsSent(c.db.steps, c'.db.steps, CompensationsFor(x.ctx), true)
    ensures Release in CompensationsFor(x.ctx) || Void in CompensationsFor(x.ctx)
    ensures Authorize !in CompensationsFor(x.ctx)
    ensures Void in CompensationsFor(x.ctx) ==> Authorize in c.db.steps
  {
    hide OneReserve, CommandsFit, TxnsArePast, Numbered, ConcludeTimeout, RowsSent;
    ResentRows(c.db, x.snap, x.ctx, rid, pid);
  }

  lemma ResentRows(db: Db, snap: OrderRow, ctx: Ctx, rid: Id, pid: Id)
    requires Identified(db.order, rid, pid) && Identified(snap, rid, pid) && SatisfiesChecks(db.order)
    requires snap.status == Compensating && forall k :: k in db.cmds ==> k.id < db.nextId
    ensures var o := ConcludeTimeout(db, snap, ctx);
      o.Done? && o.db.order == db.order && RowsSent(db.steps, o.db.steps, CompensationsFor(ctx), true)
  {
    hide EmitAll, FreshCommands, StepsOf, CompensationsFor;
    var d := Next(Compensating, OnTimeout, ctx).decision;
    assert d == Go(Compensating, CompensationsFor(ctx), TIMEOUT_COMPENSATING);
    ApplyMoves(db, snap, TimeoutEvidence(snap), d, rid, pid);
  }

  /** COMPENSATING finishes unless it is stranded. */
  lemma CompensationEnds(c: Cell, rid: Id, pid: Id)
    requires Split(c, rid, pid) && c.db.order.status == Compensating && !Stranded(c)
    ensures CanEnd(c)
  {
    hide Split, CanEnd;
    if !Acked(c.db.steps, Release) {
      EndsByRelease(c, rid, pid);
    } else if AwaitsAck(c.db.steps) {
      EndsByVoid(c, rid, pid);
    } else if e :| e in c.events && e.id !in c.db.inbox && e.trigger != OnReserved {
      EndsByEvent(c, e, rid, pid);
    } else if k :| k in c.db.cmds && Outstanding(c, k) {
      if k.step != Release {
        EndsByAnswer(c, k, rid, pid);
      } else if k in c.pending {
        EndsByRun(c, k, rid, pid);
      } else {
        EndsByClaim(c, k, rid, pid);
      }
    } else if k :| k in c.failing {
      EndsByFailure(c, k, rid, pid);
    } else {
      var x :| x in c.txns && Resends(x);
      EndsByResend(c, x, rid, pid);
    }
  }

  // ----- the other open states

  lemma OpenEnds(c: Cell, rid: Id, pid: Id)
    requires Split(c, rid, pid) && (c.db.order.status == Pending || c.db.order.status == StockReserved)
    ensures CanEnd(c)
  {
    hide Split, CanEnd;
    var d := Next(c.db.order.status, OnTimeout, BuildCtx(c.db.steps, false)).decision;
    TimedOut(c, d, rid, pid);
    assert Release in d.emit;
    EndsByRelease(Act(c, ForcedTimeout), rid, pid);
    EndsAfter(c, ForcedTimeout);
  }

  lemma CommittedEnds(c: Cell, rid: Id, pid: Id)
    requires Split(c, rid, pid) && c.db.order.status == StockCommitted
    ensures CanEnd(c)
  {
    hide Split, CanEnd;
    TimedOut(c, Go(StockCommitted, [Capture], RETRY_INTERVAL), rid, pid);
    var c1 := Act(c, ForcedTimeout);
    assert Capture in [Capture];
    var k :| k in c1.db.cmds && k.step == Capture && k.id !in c.claimed && k.id !in c.answered;
    var e, a := Answered(c1, k, OnCaptured, rid, pid);
    var c2 := Act(c1, a);
    Delivered(c2, e, Go(Confirmed, [], 0), rid, pid);
    EndsNow(Act(c2, Deliver(e)));
    EndsAfter(c2, Deliver(e));
    EndsAfter(c1, a);
    EndsAfter(c, ForcedTimeout);
  }

  lemma PaidRow(c: Cell, rid: Id, pid: Id)
    requires Split(c, rid, pid) && c.db.order.status == Paid
    ensures Is(c.resv, Reserved) || Is(c.resv, Committed) || Is(c.resv, Released)
    ensures c.resv.value.id == rid && forall k :: k in c.db.cmds ==> k.resId == rid
  {
    hide OneReserve, TxnsArePast, Numbered, CardRows;
  }

  lemma PaidEnds(c: Cell, rid: Id, pid: Id)
    requires Split(c, rid, pid) && c.db.order.status == Paid && !Orphaned(c)
    ensures CanEnd(c)
  {
    hide Split, CanEnd;
    PaidRow(c, rid, pid);
    TimedOut(c, Go(Paid, [Commit], RETRY_INTERVAL), rid, pid);
    var c1 := Act(c, ForcedTimeout);
    assert Commit in [Commit];
    var k :| k in c1.db.cmds && k.step == Commit && k.id !in c.claimed && k.id !in c.answered;
    PaidRow(c1, rid, pid);
    SplitStep(c1, Claim(k), rid, pid);
    var c2 := Act(c1, Claim(k));
    var e := Ran(c2, k, OnCommitted, rid, pid);
    var c3 := Act(c2, Run(k, true));
    Delivered(c3, e, Go(StockCommitted, [Capture], 0), rid, pid);
    CommittedEnds(Act(c3, Deliver(e)), rid, pid);
    EndsAfter(c3, Deliver(e));
    EndsAfter(c2, Run(k, true));
    EndsAfter(c1, Claim(k));
    EndsAfter(c, ForcedTimeout);
  }

  // ----- stranded orders stay

  lemma NothingToResend(db: Db, snap: OrderRow, ctx: Ctx)
    requires snap.status == Compensating && CompensationsFor(ctx) == []
    ensures After(db, ConcludeTimeout(db, snap, ctx)) == db
  {
  }

  lemma SettledCtx(steps: map<Step, StepRow>, retriable: bool)
    requires !AwaitsAck(steps)
    ensures CompensationsFor(BuildCtx(steps, retriable)) == []
  {
  }

  /** A transaction that read an earlier status meets the version check; only a late reservation is acknowledged. */
  lemma StaleFinish(db: Db, src: Source, snap: OrderRow, ctx: Ctx)
    requires db.order.status == Compensating && Leads(snap.status, Compensating)
    requires snap.version == db.order.version ==> snap.status == db.order.status
    requires src.FromEvent? ==> src.ev.id in db.inbox || src.ev.trigger == OnReserved
    requires src.FromTimeout? && snap.status == Compensating ==> CompensationsFor(ctx) == []
    ensures var after := After(db, FinishTxn(db, src, snap, ctx));
      || after == db
      || (src.FromEvent? && after == db.(inbox := db.inbox + {src.ev.id}, steps := AckRows(db.steps, OnReserved)))
  {
    hide EmitAll;
    if src.FromTimeout? && snap.status == Compensating { NothingToResend(db, snap, ctx); }
  }

  /** Acknowledging the reservation changes nothing that compensation looks at. */
  lemma LateReservation(c: Cell, after: Db, id: Id)
    requires Stranded(c) && after == c.db.(inbox := c.db.inbox + {id}, steps := AckRows(c.db.steps, OnReserved))
    ensures Stranded(c.(db := after))
  {
    var c' := c.(db := after);
    assert forall k :: k in c'.db.cmds ==> k in c.db.cmds && (Outstanding(c', k) <==> Outstanding(c, k));
  }

  lemma StrandedTxn(c: Cell, src: Source, snap: OrderRow, ctx: Ctx)
    requires Stranded(c) && ReadIsPast(c, src, snap)
    requires src.FromTimeout? && snap.status == Compensating ==> CompensationsFor(ctx) == []
    ensures Stranded(c.(db := After(c.db, FinishTxn(c.db, src, snap, ctx))))
  {
    hide FinishTxn, Outstanding, Resends, AwaitsAck, AckRows;
    StaleFinish(c.db, src, snap, ctx);
    var after := After(c.db, FinishTxn(c.db, src, snap, ctx));
    if after == c.db {
      assert c.(db := after) == c;
    } else {
      LateReservation(c, after, src.ev.id);
    }
  }

  lemma StrandedFacts(c: Cell, rid: Id, pid: Id)
    requires Split(c, rid, pid) && Stranded(c)
    ensures Settled(c.resv) && Commit !in Sent(c) && Capture !in Sent(c)
    ensures forall k :: k in c.pending ==> k in c.db.cmds
    ensures forall x :: x in c.txns ==> ReadIsPast(c, x.src, x.snap)
  {
    hide OneIdentity, Numbered, CardRows, Outstanding, Resends;
  }

  lemma StrandedRead(c: Cell, a: Action)
    requires Stranded(c) && (a.Begin? || a.Load?)
    ensures Stranded(Act(c, a))
  {
    hide FinishTxn, Fire, AwaitsAck, CompensationsFor, BuildCtx;
    SettledCtx(c.db.steps, false);
    SettledCtx(c.db.steps, true);
    var c' := Act(c, a);
    assert forall k :: Outstanding(c', k) <==> Outstanding(c, k);
  }

  lemma StrandedFewer(c: Cell, some: set<Txn>)
    requires Stranded(c) && some <= c.txns
    ensures Stranded(c.(txns := some))
  {
    var c' := c.(txns := some);
    assert forall k :: Outstanding(c', k) <==> Outstanding(c, k);
  }

  lemma StrandedElsewhere(c: Cell, a: Action)
    requires Stranded(c) && Settled(c.resv) && Commit !in Sent(c) && Capture !in Sent(c)
    requires forall k :: k in c.pending ==> k in c.db.cmds
    requires a.Claim? || a.Crash? || a.Run? || a.PublishFailure? || a.Expire? || a.Answer?
    ensures Stranded(Act(c, a))
  {
    hide AwaitsAck, Resends;
    var c' := Act(c, a);
    assert forall k :: k in c.db.cmds ==> k.step in Sent(c) && !Outstanding(c, k);
    assert c'.db == c.db && c'.events == c.events && c'.txns == c.txns;
    forall k | k in c'.db.cmds
      ensures !Outstanding(c', k)
    {
      assert !Outstanding(c, k);
    }
  }

  /** Nothing that can happen moves a stranded order. */
  lemma StrandedStays(c: Cell, a: Action, rid: Id, pid: Id)
    requires Split(c, rid, pid) && Stranded(c) && Regular(a)
    ensures Stranded(Act(c, a))
  {
    hide Split, FinishTxn, Outstanding, Resends, AwaitsAck;
    StrandedFacts(c, rid, pid);
    SettledCtx(c.db.steps, false);
    match a
    case Deliver(ev) =>
      if ev in c.events { StrandedTxn(c, FromEvent(ev), c.db.order, BuildCtx(c.db.steps, ev.retriable)); }
    case Sweep(row) =>
      if OverdueRow(c.db.steps, row) {
        SweepIsTimeout(c, row);
        StrandedTxn(c, FromTimeout, c.db.order, BuildCtx(c.db.steps, false));
        assert c.(db := c.db) == c;
      }
    case ForcedTimeout => StrandedTxn(c, FromTimeout, c.db.order, BuildCtx(c.db.steps, false));
    case CustomerCancel => StrandedTxn(c, FromCustomer, c.db.order, BuildCtx(c.db.steps, false));
    case Finish(txn) =>
      if txn in c.txns && txn.Loaded? {
        UselessTxn(txn);
        StrandedTxn(c, txn.src, txn.snap, txn.ctx);
        StrandedFewer(c.(db := After(c.db, FinishTxn(c.db, txn.src, txn.snap, txn.ctx))), c.txns - {txn});
      }
    case Abandon(txn) => StrandedFewer(c, c.txns - {txn});
    case Begin(_, _) => StrandedRead(c, a);
    case Load(_) => StrandedRead(c, a);
    case _ => StrandedElsewhere(c, a);
  }

  lemma UselessTxn(x: Txn)
    requires x.Loaded? && !Resends(x)
    ensures x.src.FromTimeout? && x.snap.status == Compensating ==> CompensationsFor(x.ctx) == []
  {
  }

  lemma {:induction false} StrandedForever(c: Cell, acts: seq<Action>, rid: Id, pid: Id)
    requires Split(c, rid, pid) && Stranded(c) && forall a :: a in acts ==> Regular(a)
    ensures Exec(c, acts).db.order.status == Compensating
    decreases |acts|
  {
    hide Split, Act;
    if acts != [] {
      assert acts[0] in acts;
      StrandedStays(c, acts[0], rid, pid);
      SplitStep(c, acts[0], rid, pid);
      StrandedForever(Act(c, acts[0]), acts[1..], rid, pid);
    }
  }

  // ----- orphaned orders stay

  lemma OrphanFacts(c: Cell, rid: Id, pid: Id)
    requires Split(c, rid, pid) && Orphaned(c)
    ensures OnCommitted !in Told(c)
    ensures forall x :: x in c.txns ==> ReadIsPast(c, x.src, x.snap)
  {
    hide OneIdentity, Numbered, CardRows, OneReserve;
  }

  /** PAID moves only on a commit event, and there is none. */
  lemma OrphanTxn(db: Db, src: Source, snap: OrderRow, ctx: Ctx)
    requires db.order.status == Paid && (snap.version == db.order.version ==> snap.status == Paid)
    requires src.FromEvent? ==> src.ev.trigger != OnCommitted
    ensures After(db, FinishTxn(db, src, snap, ctx)).order.status == Paid
  {
    hide EmitAll;
    EmitsKeepStatus(snap);
  }

  lemma {:induction false} EmitKeepsStatus(db: Db, snap: OrderRow, emit: seq<Step>, deadline: nat)
    ensures EmitAll(db, snap, emit, deadline).order.status == db.order.status
    decreases |emit|
  {
    if emit != [] { EmitKeepsStatus(EmitCommand(db, snap, emit[0], deadline), snap, emit[1..], deadline); }
  }

  lemma EmitsKeepStatus(snap: OrderRow)
    ensures forall base: Db, emit: seq<Step>, deadline: nat ::
      EmitAll(base, snap, emit, deadline).order.status == base.order.status
  {
    forall base: Db, emit: seq<Step>, deadline: nat
      ensures EmitAll(base, snap, emit, deadline).order.status == base.order.status
    {
      EmitKeepsStatus(base, snap, emit, deadline);
    }
  }

  lemma OrphanStaysSplit(c: Cell, a: Action, rid: Id, pid: Id)
    requires Split(c, rid, pid) && Orphaned(c)
    ensures Orphaned(Act(c, a))
  {
    hide Split, FinishTxn;
    OrphanFacts(c, rid, pid);
    match a
    case Deliver(ev) =>
      if ev in c.events {
        assert ev.trigger in Told(c);
        OrphanTxn(c.db, FromEvent(ev), c.db.order, BuildCtx(c.db.steps, ev.retriable));
      }
    case Sweep(row) =>
      if OverdueRow(c.db.steps, row) {
        SweepIsTimeout(c, row);
        OrphanTxn(c.db, FromTimeout, c.db.order, BuildCtx(c.db.steps, false));
      }
    case ForcedTimeout => OrphanTxn(c.db, FromTimeout, c.db.order, BuildCtx(c.db.steps, false));
    case CustomerCancel => OrphanTxn(c.db, FromCustomer, c.db.order, BuildCtx(c.db.steps, false));
    case Finish(txn) =>
      if txn in c.txns && txn.Loaded? {
        assert ReadIsPast(c, txn.src, txn.snap);
        if txn.src.FromEvent? { assert txn.src.ev.trigger in Told(c); }
        OrphanTxn(c.db, txn.src, txn.snap, txn.ctx);
      }
    case _ =>
  }

  lemma {:induction false} OrphanedForever(c: Cell, acts: seq<Action>, rid: Id, pid: Id)
    requires Split(c, rid, pid) && Orphaned(c)
    ensures Exec(c, acts).db.order.status == Paid
    decreases |acts|
  {
    hide Split, Act;
    if acts != [] {
      OrphanStaysSplit(c, acts[0], rid, pid);
      SplitStep(c, acts[0], rid, pid);
      OrphanedForever(Act(c, acts[0]), acts[1..], rid, pid);
    }
  }

  // ----- the theorem

  /**
   Over every run of interleaved handlers, with free timeouts: an order can still reach CONFIRMED or CANCELLED
   exactly when its stock was not returned under it after payment and it is not stranded.
   */
  lemma EndsUnlessStranded(c: Cell)
    requires Arises(c)
    ensures CanEnd(c) <==> !Orphaned(c) && !Stranded(c)
  {
    hide Split, Stranded, Exec;
    var rid, pid := ArisenIsSplit(c);
    if Orphaned(c) || Stranded(c) {
      forall acts: seq<Action> | forall a :: a in acts ==> Regular(a)
        ensures !IsTerminal(Exec(c, acts).db.order.status)
      {
        if Orphaned(c) {
          OrphanedForever(c, acts, rid, pid);
        } else {
          StrandedForever(c, acts, rid, pid);
        }
      }
    } else {
      match c.db.order.status
      case Confirmed | Cancelled => EndsNow(c);
      case StockCommitted => CommittedEnds(c, rid, pid);
      case Paid => PaidEnds(c, rid, pid);
      case Compensating => CompensationEnds(c, rid, pid);
      case _ => OpenEnds(c, rid, pid);
    }
  }
}
