/**
 The order-service tables of one order, rewritten in place one statement at a time, with the
 transaction boundary of services/order-service/internal/store/store.go: an error restores the
 rows as they were when the transaction began.
 */
module OrderTables {
  import opened Basics
  import opened SagaMachine
  import opened Orchestrator

  class OrderRows {
    var order: OrderRow
    var steps: map<Step, StepRow>
    var inbox: set<Id>
    var cmds: set<Command>
    var notices: seq<State>
    var nextId: Id

    function Rows(): (db: Db)
      reads this
    {
      Db(order, steps, inbox, cmds, notices, nextId)
    }

    /** PlaceOrder's transaction: the order row, the first step and its command. */
    constructor (firstId: Id)
      ensures Rows() == PlaceOrder(firstId)
    {
      order := OrderRow(Pending, 0, None, None, None, None);
      steps, inbox, cmds, notices, nextId := map[], {}, {}, [], firstId;
      new;
      EmitLoop(order, Start().emit, Start().deadline);
    }

    method Rollback(db: Db)
      modifies this
      ensures Rows() == db
    {
      order, steps, inbox, cmds, notices, nextId := db.order, db.steps, db.inbox, db.cmds, db.notices, db.nextId;
    }

    method EmitLoop(snap: OrderRow, emit: seq<Step>, deadline: nat)
      modifies this
      ensures Rows() == EmitAll(old(Rows()), snap, emit, deadline)
    {
      for i := 0 to |emit|
        invariant EmitAll(Rows(), snap, emit[i..], deadline) == EmitAll(old(Rows()), snap, emit, deadline)
      {
        EmitOne(snap, emit[i], deadline);
        assert emit[i..][1..] == emit[i + 1..];
      }
    }

    method EmitOne(snap: OrderRow, step: Step, deadline: nat)
      modifies this
      ensures Rows() == EmitCommand(old(Rows()), snap, step, deadline)
    {
      var rid, pid := nextId, nextId + 1;
      if snap.resId.Some? { rid := snap.resId.value; }
      if snap.payId.Some? { pid := snap.payId.value; }
      order := order.(resId := Coalesce(order.resId, Some(rid)), payId := Coalesce(order.payId, Some(pid)));
      cmds := cmds + {Command(nextId + 2, step, rid, pid)};
      nextId := nextId + 3;
      steps := RecordStepSent(steps, step, deadline);
    }

    /** Rebuilds the machine's facts by one pass over the step rows, in whatever order they come. */
    method ReadCtx(retriable: bool) returns (c: Ctx)
      ensures c == BuildCtx(steps, retriable)
    {
      c := Ctx(false, false, false, 0, retriable);
      var rows := steps.Keys;
      while rows != {}
        invariant rows <= steps.Keys
        invariant c == BuildCtx(map s | s in steps && s !in rows :: steps[s], retriable)
      {
        var s :| s in rows;
        rows := rows - {s};
        match s
        case Authorize => c := c.(authorizeSent := true);
        case Release => if steps[s].acked { c := c.(inventorySettled := true); }
        case Void => if steps[s].acked { c := c.(paymentSettled := true); }
        case Commit | Capture =>
          if steps[s].attempts > c.rollForwardAttempts { c := c.(rollForwardAttempts := steps[s].attempts); }
        case Reserve =>
      }
      assert (map s | s in steps && s !in rows :: steps[s]) == steps;
    }

    /** Statement by statement. */
    method Persist(snap: OrderRow, e: Evidence, d: Decision) returns (o: Outcome)
      modifies this
      ensures o == Apply(old(Rows()), snap, e, d)
      ensures o.Done? ==> Rows() == o.db
    {
      var step := StepAckedBy(e.trigger);
      if step.Some? { steps := RecordStepAcked(steps, step.value); }
      if d.ackOnly && d.next == snap.status && d.emit == [] { return Done(Rows()); }
      if d.next != snap.status {
        if order.version != snap.version { return Stale; }
        var reason := if d.next == Cancelled then PickReason(d.reason, e.reason, snap.reason) else None;
        var row := UpdatedRow(order, d.next, e, reason, d.failedStep);
        if !SatisfiesChecks(row) { return CheckViolation; }
        order := row;
      }
      EmitLoop(snap, d.emit, d.deadline);
      if IsTerminal(d.next) { notices := notices + [d.next]; }
      o := Done(Rows());
    }

    method HandleEvent(ev: Event) returns (o: Outcome)
      modifies this
      ensures o == Handle(old(Rows()), ev)
      ensures Rows() == After(old(Rows()), o)
    {
      var begin := Rows();
      if ev.id in inbox { return Duplicate; }
      inbox := inbox + {ev.id};
      var snap := order;
      var ctx := ReadCtx(ev.retriable);
      match Next(snap.status, ev.trigger, ctx)
      case Illegal(f, t) =>
        o := Rejected(f, t);
        Rollback(begin);
      case Ok(d) =>
        o := Persist(snap, EvidenceOf(ev), d);
        if !o.Done? { Rollback(begin); }
    }

    method FireTimeout(step: Step) returns (o: Outcome)
      requires step in steps
      modifies this
      ensures o == Fire(old(Rows()), step)
      ensures Rows() == After(old(Rows()), o)
    {
      var begin := Rows();
      if RollbackForbidden(order.status) && steps[step].attempts >= MAX_ROLL_FORWARD_RETRIES {
        steps := steps[step := steps[step].(timed := true)];
        return Done(Rows());
      }
      var snap := order;
      var ctx := ReadCtx(false);
      match Next(snap.status, OnTimeout, ctx)
      case Illegal(f, t) => o := Rejected(f, t);
      case Ok(d) =>
        if RollbackForbidden(snap.status) && (Release in d.emit || Void in d.emit) { return Refused; }
        o := Persist(snap, TimeoutEvidence(snap), d);
        if !o.Done? { Rollback(begin); }
    }

    method Cancel() returns (o: Outcome)
      modifies this
      ensures o == CancelOrder(old(Rows()))
      ensures Rows() == After(old(Rows()), o)
    {
      if !Cancellable(order.status) { return Refused; }
      var snap := order;
      var ctx := ReadCtx(false);
      order := UpdatedRow(order, Compensating, Evidence(OnTimeout, None, None, None), Some(CustomerCancelled), None);
      EmitLoop(snap, CancelSteps(ctx), TIMEOUT_COMPENSATING);
      o := Done(Rows());
    }
  }
}
