/**
 Which orders can still reach CONFIRMED or CANCELLED: an if and only if, once with the sweeper as it
 is and once for timeouts that may fire at will.
 */
module SagaTermination {
  import opened Basics
  import opened SagaMachine
  import opened Orchestrator
  import opened SagaProtocol
  import opened ReservationRow
  import opened SagaProgress

  // ----- composing a continuation

  lemma FinishesNow(c: Cell, free: bool)
    requires IsTerminal(c.db.order.status)
    ensures CanFinish(c, free)
  {
    var acts: seq<Action> := [];
    assert Exec(c, acts) == c;
  }

  lemma FinishesAfter(c: Cell, a: Action, free: bool)
    requires Relied(a, free) && CanFinish(Act(c, a), free)
    ensures CanFinish(c, free)
  {
    var acts: seq<Action> :| (forall b :: b in acts ==> Relied(b, free)) &&
      IsTerminal(Exec(Act(c, a), acts).db.order.status);
    var more := [a] + acts;
    assert more[1..] == acts;
    assert Exec(c, more) == Exec(Act(c, a), acts);
  }

  lemma HandleCommits(db: Db, ev: Event, d: Decision, rid: Id, pid: Id)
    requires Identified(db.order, rid, pid) && ev.id !in db.inbox
    requires Next(db.order.status, ev.trigger, BuildCtx(db.steps, ev.retriable)) == Ok(d)
    ensures Handle(db, ev).Done?
  {
    NextIsLawful(db.order.status, ev.trigger, BuildCtx(db.steps, ev.retriable));
  }

  /** An unprocessed event that the machine accepts takes effect when it is delivered. */
  lemma DeliveryWorks(c: Cell, ev: Event, d: Decision, rid: Id, pid: Id, free: bool)
    requires Live(c, rid, pid, free)
    requires ev in c.events && ev.id !in c.db.inbox
    requires Next(c.db.order.status, ev.trigger, BuildCtx(c.db.steps, ev.retriable)) == Ok(d)
    ensures var c' := Act(c, Deliver(ev));
      && c' == c.(db := c'.db)
      && Turned(c, FromEvent(ev), c'.db, ev.trigger, d, rid, pid)
      && Live(c', rid, pid, free)
  {
    hide Replied, Rows, StatusRows, Moved, RowsMoved;
    HandleCommits(c.db, ev, d, rid, pid);
    EventTurns(c, ev, Handle(c.db, ev).db, d, rid, pid);
    ActIsLive(c, Deliver(ev), rid, pid, free);
  }

  lemma NextIdIsFresh(c: Cell, rid: Id, pid: Id, free: bool)
    requires Live(c, rid, pid, free)
    ensures c.db.nextId !in c.db.inbox
  {
  }

  /** Payment answers an unanswered command with an event that is not yet processed. */
  lemma AnswerWorks(c: Cell, k: Command, t: Trigger, rid: Id, pid: Id, free: bool) returns (e: Event, a: Action)
    requires Live(c, rid, pid, free)
    requires k in c.db.cmds && k.id !in c.answered && Answers(k.step, t)
    ensures Relied(a, free) && Live(Act(c, a), rid, pid, free)
    ensures var c' := Act(c, a);
      && c'.db == c.db.(nextId := c.db.nextId + 1) && c'.resv == c.resv
      && e in c'.events && e.trigger == t && e.id !in c'.db.inbox && !e.retriable
  {
    hide Live;
    NextIdIsFresh(c, rid, pid, free);
    a := Answer(k, t, None, false);
    e := Event(c.db.nextId, t, None, Some(k.payId), None, false);
    ActIsLive(c, a, rid, pid, free);
  }

  /** Inventory runs a claimed command that draws a reply. */
  lemma RunWorks(c: Cell, k: Command, t: Trigger, rid: Id, pid: Id, free: bool) returns (e: Event)
    requires Live(c, rid, pid, free) && k in c.pending
    requires Participant(c.resv, k.step, k.resId, true).event == Some(t)
    ensures Live(Act(c, Run(k, true)), rid, pid, free)
    ensures var c' := Act(c, Run(k, true));
      && c'.db == c.db.(nextId := c.db.nextId + 1) && c'.answered == c.answered
      && e in c'.events && e.trigger == t && e.id !in c'.db.inbox && !e.retriable
  {
    hide Live;
    NextIdIsFresh(c, rid, pid, free);
    e := Event(c.db.nextId, t, Some(k.resId), None, ReasonOf(t), false);
    ActIsLive(c, Run(k, true), rid, pid, free);
  }

  lemma ClaimWorks(c: Cell, k: Command, rid: Id, pid: Id, free: bool)
    requires Live(c, rid, pid, free)
    requires k in c.db.cmds && ForInventory(k.step) && k.id !in c.claimed
    ensures Live(Act(c, Claim(k)), rid, pid, free)
    ensures Act(c, Claim(k)) == c.(claimed := c.claimed + {k.id}, pending := c.pending + {k})
  {
    hide Live;
    ActIsLive(c, Claim(k), rid, pid, free);
  }

  // ----- rolling forward

  lemma CaptureAwaited(c: Cell, rid: Id, pid: Id, free: bool)
    requires Live(c, rid, pid, free) && c.db.order.status == StockCommitted
    ensures (exists e :: e in c.events && e.trigger == OnCaptured && e.id !in c.db.inbox)
         || (exists k :: k in c.db.cmds && k.step == Capture && k.id !in c.answered)
  {
    if OnCaptured in Told(c) {
      var e :| e in c.events && e.trigger == OnCaptured;
    } else {
      var k :| k in c.db.cmds && k.step == Capture;
    }
  }

  lemma FinishCommitted(c: Cell, rid: Id, pid: Id, free: bool)
    requires Live(c, rid, pid, free) && c.db.order.status == StockCommitted
    ensures CanFinish(c, free)
  {
    hide Live;
    CaptureAwaited(c, rid, pid, free);
    if e :| e in c.events && e.trigger == OnCaptured && e.id !in c.db.inbox {
      DeliverCaptured(c, e, rid, pid, free);
    } else {
      var k :| k in c.db.cmds && k.step == Capture && k.id !in c.answered;
      var e, a := AnswerWorks(c, k, OnCaptured, rid, pid, free);
      DeliverCaptured(Act(c, a), e, rid, pid, free);
      FinishesAfter(c, a, free);
    }
  }

  lemma DeliverCaptured(c: Cell, e: Event, rid: Id, pid: Id, free: bool)
    requires Live(c, rid, pid, free) && c.db.order.status == StockCommitted
    requires e in c.events && e.trigger == OnCaptured && e.id !in c.db.inbox
    ensures CanFinish(c, free)
  {
    hide Live, CanFinish;
    DeliveryWorks(c, e, Go(Confirmed, [], 0), rid, pid, free);
    FinishesNow(Act(c, Deliver(e)), free);
    FinishesAfter(c, Deliver(e), free);
  }

  /** A COMMIT that can still be answered: an unprocessed reply, or a live command and a row it can commit. */
  ghost predicate CommitLive(c: Cell) {
    || (exists e :: e in c.events && e.trigger == OnCommitted && e.id !in c.db.inbox)
    || (exists k :: CommitCommand(c, k))
  }

  ghost predicate CommitCommand(c: Cell, k: Command) {
    && k in c.db.cmds && k.step == Commit && (k.id !in c.claimed || k in c.pending)
    && (Is(c.resv, Reserved) || Is(c.resv, Committed))
  }

  lemma FinishPaid(c: Cell, rid: Id, pid: Id, free: bool)
    requires Live(c, rid, pid, free) && c.db.order.status == Paid && CommitLive(c)
    ensures CanFinish(c, free)
  {
    hide Live, CanFinish;
    if e :| e in c.events && e.trigger == OnCommitted && e.id !in c.db.inbox {
      DeliverCommitted(c, e, rid, pid, free);
    } else {
      var k :| CommitCommand(c, k);
      if k in c.pending {
        RunCommit(c, k, rid, pid, free);
      } else {
        ClaimWorks(c, k, rid, pid, free);
        RunCommit(Act(c, Claim(k)), k, rid, pid, free);
        FinishesAfter(c, Claim(k), free);
      }
    }
  }

  lemma DeliverCommitted(c: Cell, e: Event, rid: Id, pid: Id, free: bool)
    requires Live(c, rid, pid, free) && c.db.order.status == Paid
    requires e in c.events && e.trigger == OnCommitted && e.id !in c.db.inbox
    ensures CanFinish(c, free)
  {
    hide Live, CanFinish;
    DeliveryWorks(c, e, Go(StockCommitted, [Capture], 0), rid, pid, free);
    FinishCommitted(Act(c, Deliver(e)), rid, pid, free);
    FinishesAfter(c, Deliver(e), free);
  }

  lemma RunCommit(c: Cell, k: Command, rid: Id, pid: Id, free: bool)
    requires Live(c, rid, pid, free) && c.db.order.status == Paid
    requires k in c.pending && k.step == Commit && (Is(c.resv, Reserved) || Is(c.resv, Committed))
    ensures CanFinish(c, free)
  {
    hide Live, CanFinish;
    OwnReservation(c, k, rid, pid, free);
    var e := RunWorks(c, k, OnCommitted, rid, pid, free);
    DeliverCommitted(Act(c, Run(k, true)), e, rid, pid, free);
    FinishesAfter(c, Run(k, true), free);
  }

  /** Inventory finds the order's own row, and RELEASE never finds it committed. */
  lemma OwnReservation(c: Cell, k: Command, rid: Id, pid: Id, free: bool)
    requires Live(c, rid, pid, free) && k in c.pending
    ensures c.resv.Some? ==> c.resv.value.id == k.resId
    ensures c.db.order.status == Compensating ==> !Is(c.resv, Committed)
  {
  }

  // ----- compensating

  ghost predicate VoidArmed(c: Cell) {
    Authorize in c.db.steps && !Acked(c.db.steps, Void) ==>
      exists k :: k in c.db.cmds && k.step == Void && k.id !in c.answered
  }

  /** Every acknowledgement that is still missing has a command that can fetch it. */
  ghost predicate Armed(c: Cell) {
    && c.db.order.status == Compensating
    && (!Acked(c.db.steps, Release) ==> exists k :: k in c.db.cmds && k.step == Release && k.id !in c.claimed)
    && VoidArmed(c)
  }

  lemma AwaitsSomething(c: Cell, rid: Id, pid: Id, free: bool)
    requires Live(c, rid, pid, free) && c.db.order.status == Compensating
    ensures AwaitsAck(c.db.steps)
  {
  }

  lemma FinishCompensation(c: Cell, rid: Id, pid: Id, free: bool)
    requires Live(c, rid, pid, free) && Armed(c)
    ensures CanFinish(c, free)
  {
    hide Live, CanFinish;
    AwaitsSomething(c, rid, pid, free);
    if Acked(c.db.steps, Release) {
      FinishVoid(c, rid, pid, free);
    } else {
      var k :| k in c.db.cmds && k.step == Release && k.id !in c.claimed;
      ClaimWorks(c, k, rid, pid, free);
      RunRelease(Act(c, Claim(k)), k, rid, pid, free);
      FinishesAfter(c, Claim(k), free);
    }
  }

  lemma RunRelease(c: Cell, k: Command, rid: Id, pid: Id, free: bool)
    requires Live(c, rid, pid, free) && c.db.order.status == Compensating
    requires k in c.pending && k.step == Release && VoidArmed(c)
    ensures CanFinish(c, free)
  {
    hide Live, CanFinish;
    OwnReservation(c, k, rid, pid, free);
    var e := RunWorks(c, k, OnReleased, rid, pid, free);
    DeliverReleased(Act(c, Run(k, true)), e, rid, pid, free);
    FinishesAfter(c, Run(k, true), free);
  }

  lemma DeliverReleased(c: Cell, e: Event, rid: Id, pid: Id, free: bool)
    requires Live(c, rid, pid, free) && c.db.order.status == Compensating
    requires e in c.events && e.trigger == OnReleased && e.id !in c.db.inbox && !e.retriable && VoidArmed(c)
    ensures CanFinish(c, free)
  {
    hide Live, CanFinish;
    var d := SettleOrWait(BuildCtx(c.db.steps, false).(inventorySettled := true));
    DeliveryWorks(c, e, d, rid, pid, free);
    var c1 := Act(c, Deliver(e));
    if d.next == Cancelled {
      FinishesNow(c1, free);
    } else {
      assert d.emit == [];
      assert Acked(c1.db.steps, Release);
      FinishVoid(c1, rid, pid, free);
    }
    FinishesAfter(c, Deliver(e), free);
  }

  lemma FinishVoid(c: Cell, rid: Id, pid: Id, free: bool)
    requires Live(c, rid, pid, free) && c.db.order.status == Compensating && Acked(c.db.steps, Release)
    requires exists k :: k in c.db.cmds && k.step == Void && k.id !in c.answered
    ensures CanFinish(c, free)
  {
    hide Live, CanFinish;
    var k :| k in c.db.cmds && k.step == Void && k.id !in c.answered;
    var e, a := AnswerWorks(c, k, OnVoided, rid, pid, free);
    var c1 := Act(c, a);
    var d := SettleOrWait(BuildCtx(c1.db.steps, false).(paymentSettled := true));
    DeliveryWorks(c1, e, d, rid, pid, free);
    FinishesNow(Act(c1, Deliver(e)), free);
    FinishesAfter(c1, Deliver(e), free);
    FinishesAfter(c, a, free);
  }

  // ----- timeouts

  /** Outside the roll-forward states a timeout, swept or free, leaves a compensation that can complete. */
  lemma TimeoutArms(c: Cell, rid: Id, pid: Id, free: bool)
    requires Live(c, rid, pid, free)
    requires c.db.order.status == Pending || c.db.order.status == StockReserved || c.db.order.status == Compensating
    ensures Armed(WholeTxn(c, FromTimeout)) && Live(WholeTxn(c, FromTimeout), rid, pid, free)
  {
    hide Replied, OneReserve, Evidenced, TxnsArePast, Moved;
    WholeIsLive(c, FromTimeout, rid, pid, free);
    var ctx := BuildCtx(c.db.steps, false);
    var d := Next(c.db.order.status, OnTimeout, ctx).decision;
    TimeoutCommits(c.db, rid, pid);
    var after := WholeTxn(c, FromTimeout).db;
    TimeoutTurns(c, after, d, rid, pid);
    TimeoutFetches(c, after, d, rid, pid);
  }

  lemma TimeoutCommits(db: Db, rid: Id, pid: Id)
    requires Identified(db.order, rid, pid) && !RollbackForbidden(db.order.status)
    ensures ConcludeTimeout(db, db.order, BuildCtx(db.steps, false)).Done?
  {
  }

  lemma TimeoutFetches(c: Cell, after: Db, d: Decision, rid: Id, pid: Id)
    requires Turned(c, FromTimeout, after, OnTimeout, d, rid, pid)
    requires Numbered(c) && StatusRows(c) && Rows(c) && CommandsFit(c.db.order.status, Sent(c))
    requires c.db.order.status == Pending || c.db.order.status == StockReserved || c.db.order.status == Compensating
    ensures Armed(c.(db := after))
  {
    var s, steps := c.db.order.status, c.db.steps;
    assert forall k :: k in after.cmds && k !in c.db.cmds ==> k.id !in c.claimed && k.id !in c.answered;
    if !Acked(after.steps, Release) {
      assert Release in d.emit;
      var k :| k in after.cmds && k !in c.db.cmds && k.step == Release;
    }
    if Authorize in after.steps && !Acked(after.steps, Void) {
      assert Authorize in steps;
      assert Void in d.emit;
      var k :| k in after.cmds && k !in c.db.cmds && k.step == Void;
    }
  }

  lemma FinishByTimeout(c: Cell, a: Action, rid: Id, pid: Id, free: bool)
    requires Live(c, rid, pid, free) && Relied(a, free)
    requires c.db.order.status == Pending || c.db.order.status == StockReserved || c.db.order.status == Compensating
    requires a == ForcedTimeout || (a.Sweep? && OverdueRow(c.db.steps, a.row))
    ensures CanFinish(c, free)
  {
    hide Live, Armed, CanFinish;
    TimeoutArms(c, rid, pid, free);
    assert Act(c, a) == WholeTxn(c, FromTimeout);
    FinishCompensation(Act(c, a), rid, pid, free);
    FinishesAfter(c, a, free);
  }

  // ----- what can never finish

  /** With the sweeper as it is: nothing is left that could move the order. */
  ghost predicate Stuck(c: Cell) {
    match c.db.order.status
    case Paid => !CommitLive(c)
    case StockReserved | Compensating => !Overdue(c)
    case _ => false
  }

  /** With free timeouts: paid, and its stock already returned by the TTL sweep. */
  predicate Orphaned(c: Cell) {
    c.db.order.status == Paid && Is(c.resv, Released)
  }

  /** An acknowledgement that changes nothing else. */
  lemma IdleDelivery(db: Db, ev: Event)
    requires ev.id !in db.inbox
    requires Next(db.order.status, ev.trigger, BuildCtx(db.steps, ev.retriable)) == Ok(Ack(db.order.status))
    ensures After(db, Handle(db, ev)) == db.(inbox := db.inbox + {ev.id}, steps := AckRows(db.steps, ev.trigger))
  {
  }

  lemma EventsAreReplies(c: Cell, rid: Id, pid: Id, free: bool)
    requires Live(c, rid, pid, free)
    ensures forall e :: e in c.events ==> e.trigger != OnTimeout
  {
  }

  lemma PaidDelivery(c: Cell, ev: Event, rid: Id, pid: Id)
    requires Live(c, rid, pid, false) && c.db.order.status == Paid && !CommitLive(c)
    ensures var c' := Act(c, Deliver(ev)); c'.db.order.status == Paid && !CommitLive(c')
  {
    hide Live;
    EventsAreReplies(c, rid, pid, false);
    if ev in c.events && ev.id !in c.db.inbox && ev.trigger == OnAuthorized {
      IdleDelivery(c.db, ev);
      assert forall k :: CommitCommand(Act(c, Deliver(ev)), k) ==> CommitCommand(c, k);
    }
  }

  lemma PaidStays(c: Cell, a: Action, rid: Id, pid: Id)
    requires Live(c, rid, pid, false) && Relied(a, false)
    requires c.db.order.status == Paid && !CommitLive(c)
    ensures var c' := Act(c, a); c'.db.order.status == Paid && !CommitLive(c')
  {
    if a.Deliver? {
      PaidDelivery(c, a.ev, rid, pid);
    } else if a.Sweep? {
      NothingOverdueForward(c, rid, pid);
    } else {
      PaidFacts(c, rid, pid, false);
      PaidElsewhere(c, a);
    }
  }

  lemma PaidFacts(c: Cell, rid: Id, pid: Id, free: bool)
    requires Live(c, rid, pid, free) && c.db.order.status == Paid
    ensures c.resv.Some? && !Is(c.resv, Failed)
    ensures forall k :: k in c.pending ==> k in c.db.cmds && k.step != Release && k.resId == c.resv.value.id
    ensures Is(c.resv, Released) ==> !exists e :: e in c.events && e.trigger == OnCommitted
  {
    hide Orderly;
    assert forall k :: k in c.pending ==> k.step in Sent(c);
    assert forall e :: e in c.events ==> e.trigger in Told(c);
  }

  lemma PaidElsewhere(c: Cell, a: Action)
    requires AtInventory(a) || a.Answer?
    requires c.db.order.status == Paid && !CommitLive(c) && c.resv.Some?
    requires forall k :: k in c.pending ==> k in c.db.cmds && k.step != Release
    ensures var c' := Act(c, a); c'.db.order.status == Paid && !CommitLive(c')
  {
    var c' := Act(c, a);
    if exists k :: CommitCommand(c', k) {
      var k :| CommitCommand(c', k);
      assert CommitCommand(c, k);
    }
    if e :| e in c'.events && e.trigger == OnCommitted && e.id !in c'.db.inbox {
      if e in c.events {
        assert false;
      } else {
        assert CommitCommand(c, a.cmd);
      }
    }
  }

  /** What it means that no row is overdue in STOCK_RESERVED or COMPENSATING. */
  lemma QuietFacts(c: Cell, rid: Id, pid: Id)
    requires Live(c, rid, pid, false) && !Overdue(c)
    requires c.db.order.status == StockReserved || c.db.order.status == Compensating
    ensures Acked(c.db.steps, Authorize)
    ensures forall e :: e in c.events && ByCard(e.trigger) ==> e.id in c.db.inbox
    ensures c.db.order.status == Compensating ==>
      Acked(c.db.steps, Release) && !Acked(c.db.steps, Void) && forall e :: e in c.events ==> e.trigger != OnVoided
  {
    hide OneIdentity, OneReserve, TxnsArePast, Evidenced, Replied;
    var steps := c.db.steps;
    assert forall s :: s in steps && Deadlined(s) ==> steps[s].acked by {
      forall s | s in steps && Deadlined(s)
        ensures steps[s].acked
      {
        assert !OverdueRow(steps, s);
      }
    }
    VoidsWereSent(c, rid, pid);
  }

  lemma VoidsWereSent(c: Cell, rid: Id, pid: Id)
    requires Live(c, rid, pid, false)
    ensures forall e :: e in c.events && e.trigger == OnVoided ==> Void in Sent(c)
  {
    assert forall e :: e in c.events ==> e.trigger in Told(c);
  }

  lemma QuietStays(c: Cell, a: Action, rid: Id, pid: Id)
    requires Live(c, rid, pid, false) && Relied(a, false) && !Overdue(c)
    requires c.db.order.status == StockReserved || c.db.order.status == Compensating
    ensures var c' := Act(c, a); c'.db.order.status == c.db.order.status && !Overdue(c')
  {
    hide Live;
    QuietFacts(c, rid, pid);
    EventsAreReplies(c, rid, pid, false);
    if a.Deliver? {
      QuietDelivery(c, a.ev);
    } else if a.Sweep? {
      assert !OverdueRow(c.db.steps, a.row);
    } else {
      assert Act(c, a).db.steps == c.db.steps;
    }
  }

  lemma QuietDelivery(c: Cell, ev: Event)
    requires !Overdue(c) && (c.db.order.status == StockReserved || c.db.order.status == Compensating)
    requires Acked(c.db.steps, Authorize)
    requires forall e :: e in c.events && ByCard(e.trigger) ==> e.id in c.db.inbox
    requires forall e :: e in c.events ==> e.trigger != OnTimeout
    requires c.db.order.status == Compensating ==>
      Acked(c.db.steps, Release) && !Acked(c.db.steps, Void) && forall e :: e in c.events ==> e.trigger != OnVoided
    ensures var c' := Act(c, Deliver(ev)); c'.db.order.status == c.db.order.status && !Overdue(c')
  {
    if ev in c.events && ev.id !in c.db.inbox &&
      Next(c.db.order.status, ev.trigger, BuildCtx(c.db.steps, ev.retriable)).Ok? {
      IdleDelivery(c.db, ev);
      var after := AckRows(c.db.steps, ev.trigger);
      forall s
        ensures !OverdueRow(after, s)
      {
        assert !OverdueRow(c.db.steps, s);
      }
    }
  }

  lemma StuckStays(c: Cell, a: Action, rid: Id, pid: Id)
    requires Live(c, rid, pid, false) && Relied(a, false) && Stuck(c)
    ensures Stuck(Act(c, a))
  {
    hide Live, CommitLive, Overdue;
    if c.db.order.status == Paid {
      PaidStays(c, a, rid, pid);
    } else {
      QuietStays(c, a, rid, pid);
    }
  }

  lemma {:induction false} StuckForever(c: Cell, acts: seq<Action>, rid: Id, pid: Id)
    requires Live(c, rid, pid, false) && Stuck(c)
    requires forall a :: a in acts ==> Relied(a, false)
    ensures !IsTerminal(Exec(c, acts).db.order.status)
    decreases |acts|
  {
    hide Live;
    if acts != [] {
      assert Relied(acts[0], false);
      ActIsLive(c, acts[0], rid, pid, false);
      StuckStays(c, acts[0], rid, pid);
      StuckForever(Act(c, acts[0]), acts[1..], rid, pid);
    }
  }

  // ----- the free-timeout question

  lemma OrphanStays(c: Cell, a: Action, rid: Id, pid: Id)
    requires Live(c, rid, pid, true) && Relied(a, true) && Orphaned(c)
    ensures Orphaned(Act(c, a))
  {
    hide Live;
    PaidFacts(c, rid, pid, true);
    if a.Deliver? {
      OrphanDelivery(c, a.ev);
    } else if a.Sweep? || a.ForcedTimeout? {
      OrphanTimeout(c.db, rid, pid);
      assert Act(c, a).resv == c.resv;
    }
  }

  lemma OrphanDelivery(c: Cell, ev: Event)
    requires Orphaned(c) && !exists e :: e in c.events && e.trigger == OnCommitted
    ensures Orphaned(Act(c, Deliver(ev)))
  {
    if ev in c.events && ev.id !in c.db.inbox && ev.trigger == OnAuthorized {
      IdleDelivery(c.db, ev);
    }
  }

  lemma OrphanTimeout(db: Db, rid: Id, pid: Id)
    requires db.order.status == Paid
    ensures After(db, ConcludeTimeout(db, db.order, BuildCtx(db.steps, false))).order.status == Paid
  {
    assert [Commit][1..] == [];
  }

  lemma {:induction false} OrphanForever(c: Cell, acts: seq<Action>, rid: Id, pid: Id)
    requires Live(c, rid, pid, true) && Orphaned(c)
    requires forall a :: a in acts ==> Relied(a, true)
    ensures !IsTerminal(Exec(c, acts).db.order.status)
    decreases |acts|
  {
    hide Live;
    if acts != [] {
      assert Relied(acts[0], true);
      ActIsLive(c, acts[0], rid, pid, true);
      OrphanStays(c, acts[0], rid, pid);
      OrphanForever(Act(c, acts[0]), acts[1..], rid, pid);
    }
  }

  /** A paid order whose stock is not returned commits after one more timeout. */
  lemma FinishPaidByTimeout(c: Cell, rid: Id, pid: Id)
    requires Live(c, rid, pid, true) && c.db.order.status == Paid && !Is(c.resv, Released)
    ensures CanFinish(c, true)
  {
    hide Live, CanFinish, CommitLive;
    PaidFacts(c, rid, pid, true);
    ActIsLive(c, ForcedTimeout, rid, pid, true);
    ResendCommit(c, rid, pid);
    FinishPaid(Act(c, ForcedTimeout), rid, pid, true);
    FinishesAfter(c, ForcedTimeout, true);
  }

  lemma ResendCommit(c: Cell, rid: Id, pid: Id)
    requires Live(c, rid, pid, true) && c.db.order.status == Paid && (Is(c.resv, Reserved) || Is(c.resv, Committed))
    ensures var c' := Act(c, ForcedTimeout); c'.db.order.status == Paid && CommitLive(c')
  {
    hide Replied, Rows, StatusRows, OneReserve, Evidenced, TxnsArePast;
    var k := Command(c.db.nextId + 2, Commit, rid, pid);
    assert [Commit][1..] == [];
    var c' := Act(c, ForcedTimeout);
    assert c'.db.cmds == c.db.cmds + {k};
    assert CommitCommand(c', k);
  }

  // ----- the theorems

  lemma PlaceIsLive(firstId: Id, free: bool)
    ensures Live(Place(firstId), firstId, firstId + 1, free)
  {
    PlaceIsSafe(firstId);
    var c := Place(firstId);
    assert Start().emit[1..] == [];
    assert c.db.cmds == {Command(firstId + 2, Reserve, firstId, firstId + 1)};
    assert Sent(c) == {Reserve} && Told(c) == {};
    assert c.db.steps == map[Reserve := StepRow(false, 1, true)];
  }

  lemma {:induction false} ExecIsLive(c: Cell, acts: seq<Action>, rid: Id, pid: Id, free: bool)
    requires Live(c, rid, pid, free)
    requires forall a :: a in acts ==> Happens(a, free)
    ensures Live(Exec(c, acts), rid, pid, free)
    decreases |acts|
  {
    hide Live;
    if acts != [] {
      ActIsLive(c, acts[0], rid, pid, free);
      ExecIsLive(Act(c, acts[0]), acts[1..], rid, pid, free);
    }
  }

  lemma ReachableIsLive(c: Cell, free: bool) returns (rid: Id, pid: Id)
    requires Reachable(c, free)
    ensures Live(c, rid, pid, free)
  {
    hide Live;
    var firstId: Id, acts: seq<Action> :| (forall a :: a in acts ==> Happens(a, free)) &&
      c == Exec(Place(firstId), acts);
    rid, pid := firstId, firstId + 1;
    PlaceIsLive(firstId, free);
    ExecIsLive(Place(firstId), acts, rid, pid, free);
  }

  lemma FinishUnlessStuck(c: Cell, rid: Id, pid: Id)
    requires Live(c, rid, pid, false) && !Stuck(c)
    ensures CanFinish(c, false)
  {
    hide Live, CanFinish, CommitLive;
    PendingIsOverdue(c, rid, pid);
    match c.db.order.status
    case Confirmed | Cancelled => FinishesNow(c, false);
    case StockCommitted => FinishCommitted(c, rid, pid, false);
    case Paid => FinishPaid(c, rid, pid, false);
    case _ =>
      var row :| OverdueRow(c.db.steps, row);
      FinishByTimeout(c, Sweep(row), rid, pid, false);
  }

  lemma PendingIsOverdue(c: Cell, rid: Id, pid: Id)
    requires Live(c, rid, pid, false)
    ensures c.db.order.status == Pending ==> Overdue(c)
  {
  }

  /**
   With the sweeper as it is, a reachable order can finish without the customer's help exactly when
   it is not stuck: paid with no COMMIT that can still be answered, or waiting in STOCK_RESERVED or
   COMPENSATING with no deadline set.
   */
  lemma FinishesUnlessStuck(c: Cell)
    requires Reachable(c, false)
    ensures CanFinish(c, false) <==> !Stuck(c)
  {
    hide Live, Stuck;
    var rid, pid := ReachableIsLive(c, false);
    if Stuck(c) {
      forall acts: seq<Action> | forall a :: a in acts ==> Relied(a, false)
        ensures !IsTerminal(Exec(c, acts).db.order.status)
      {
        StuckForever(c, acts, rid, pid);
      }
    } else {
      FinishUnlessStuck(c, rid, pid);
    }
  }

  /** If timeouts could fire in every state, only a TTL release under a paid order would wedge the saga. */
  lemma FinishesUnlessOrphaned(c: Cell)
    requires Reachable(c, true)
    ensures CanFinish(c, true) <==> !Orphaned(c)
  {
    hide Live;
    var rid, pid := ReachableIsLive(c, true);
    if Orphaned(c) {
      forall acts: seq<Action> | forall a :: a in acts ==> Relied(a, true)
        ensures !IsTerminal(Exec(c, acts).db.order.status)
      {
        OrphanForever(c, acts, rid, pid);
      }
    } else {
      match c.db.order.status
      case Confirmed | Cancelled => FinishesNow(c, true);
      case StockCommitted => FinishCommitted(c, rid, pid, true);
      case Paid => FinishPaidByTimeout(c, rid, pid);
      case _ => FinishByTimeout(c, ForcedTimeout, rid, pid, true);
    }
  }

  /** Past the point of no return the sweeper never finds a row to retry. */
  lemma NoRetryForward(c: Cell)
    requires Reachable(c, false) && RollbackForbidden(c.db.order.status)
    ensures forall row :: Act(c, Sweep(row)) == c
  {
    hide Live;
    var rid, pid := ReachableIsLive(c, false);
    NothingOverdueForward(c, rid, pid);
    assert forall row :: !OverdueRow(c.db.steps, row);
  }

  // ----- with the TTL sweep switched off

  /** Stock went back only because the saga asked. */
  predicate ReleasedOnDemand(c: Cell) {
    Is(c.resv, Released) ==> c.db.order.status == Compensating || c.db.order.status == Cancelled
  }

  lemma OnDemandStep(c: Cell, a: Action, rid: Id, pid: Id)
    requires Safe(c, rid, pid) && ReleasedOnDemand(c) && !a.Expire?
    ensures ReleasedOnDemand(Act(c, a))
  {
    hide OneIdentity, Evidenced, TxnsArePast, FinishTxn, Fire;
    StatusAdvances(c, a, rid, pid);
    if a.Run? && a.cmd in c.pending {
      assert a.cmd in c.db.cmds && a.cmd.step in Sent(c);
    }
  }

  lemma {:induction false} OnDemandRun(c: Cell, acts: seq<Action>, rid: Id, pid: Id)
    requires Safe(c, rid, pid) && ReleasedOnDemand(c) && Expire !in acts
    ensures ReleasedOnDemand(Exec(c, acts))
    decreases |acts|
  {
    hide Safe, Act, ReleasedOnDemand;
    if acts != [] {
      assert acts[0] in acts;
      OnDemandStep(c, acts[0], rid, pid);
      ActIsSafe(c, acts[0], rid, pid);
      OnDemandRun(Act(c, acts[0]), acts[1..], rid, pid);
    }
  }

  /** With whole handlers, timeouts in every open state and no TTL expiry, every reachable order can still finish. */
  lemma AlwaysFinishesWithoutExpiry(firstId: Id, acts: seq<Action>)
    requires Expire !in acts && forall a :: a in acts ==> Happens(a, true)
    ensures CanFinish(Exec(Place(firstId), acts), true)
  {
    hide Safe, Act, CanFinish;
    PlaceIsSafe(firstId);
    OnDemandRun(Place(firstId), acts, firstId, firstId + 1);
    FinishesUnlessOrphaned(Exec(Place(firstId), acts));
  }
}
