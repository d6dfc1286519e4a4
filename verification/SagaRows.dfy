/**
 What the step rows say: how often a step was sent, what a read of them yields, and what a sweep past the pivot does.
 */
module SagaRows {
  import opened Basics
  import opened SagaMachine
  import opened Orchestrator
  import opened ReservationRow
  import opened SagaProtocol

  // ----- attempts are commands

  function Sends(cmds: set<Command>, s: Step): nat {
    |set k | k in cmds && k.step == s|
  }

  /**
   Each row but RELEASE's counts the commands sent for it; RELEASE's may also come from a release nobody asked for.
   */
  ghost predicate Tallied(db: Db) {
    && (forall k :: k in db.cmds ==> k.id < db.nextId && k.step in db.steps)
    && (forall s :: s in db.steps && s != Release ==> db.steps[s].attempts == Sends(db.cmds, s))
  }

  lemma OneMoreSend(cmds: set<Command>, k: Command, s: Step)
    requires k !in cmds
    ensures Sends(cmds + {k}, s) == Sends(cmds, s) + if k.step == s then 1 else 0
  {
    if k.step == s {
      assert (set q | q in cmds + {k} && q.step == s) == (set q | q in cmds && q.step == s) + {k};
    } else {
      assert (set q | q in cmds + {k} && q.step == s) == (set q | q in cmds && q.step == s);
    }
  }

  lemma EmitOneTallies(db: Db, snap: OrderRow, step: Step, deadline: nat)
    requires Tallied(db)
    ensures Tallied(EmitCommand(db, snap, step, deadline))
  {
    hide Sends;
    var after := EmitCommand(db, snap, step, deadline);
    var rid := if snap.resId.Some? then snap.resId.value else db.nextId;
    var pid := if snap.payId.Some? then snap.payId.value else db.nextId + 1;
    var k := Command(db.nextId + 2, step, rid, pid);
    forall s
      ensures Sends(after.cmds, s) == Sends(db.cmds, s) + if step == s then 1 else 0
    {
      OneMoreSend(db.cmds, k, s);
    }
    if step !in db.steps { NeverSent(db.cmds, step); }
  }

  lemma NeverSent(cmds: set<Command>, s: Step)
    requires forall k :: k in cmds ==> k.step != s
    ensures Sends(cmds, s) == 0
  {
    assert (set k | k in cmds && k.step == s) == {};
  }

  lemma {:induction false} EmitTallies(db: Db, snap: OrderRow, emit: seq<Step>, deadline: nat)
    requires Tallied(db)
    ensures Tallied(EmitAll(db, snap, emit, deadline))
    decreases |emit|
  {
    hide Tallied, EmitCommand;
    if emit != [] {
      EmitOneTallies(db, snap, emit[0], deadline);
      EmitTallies(EmitCommand(db, snap, emit[0], deadline), snap, emit[1..], deadline);
    }
  }

  /** What an event may acknowledge: a step that was sent, or a release. */
  predicate AcksSent(db: Db, t: Trigger) {
    StepAckedBy(t).Some? ==> StepAckedBy(t).value in db.steps || StepAckedBy(t).value == Release
  }

  lemma ApplyTallies(db: Db, snap: OrderRow, e: Evidence, d: Decision)
    requires Tallied(db) && AcksSent(db, e.trigger)
    ensures Tallied(After(db, Apply(db, snap, e, d)))
  {
    hide Sends, EmitAll;
    var acked := AckEvidence(db, e.trigger);
    assert Tallied(acked);
    EmitTallies(acked, snap, d.emit, d.deadline);
    var reason := if d.next == Cancelled then PickReason(d.reason, e.reason, snap.reason) else None;
    EmitTallies(acked.(order := UpdatedRow(acked.order, d.next, e, reason, d.failedStep)), snap, d.emit, d.deadline);
  }

  lemma FinishTallies(db: Db, src: Source, snap: OrderRow, ctx: Ctx)
    requires Tallied(db) && (src.FromEvent? ==> AcksSent(db, src.ev.trigger))
    ensures Tallied(After(db, FinishTxn(db, src, snap, ctx)))
  {
    hide Sends, EmitAll, Apply, Next;
    match src
    case FromEvent(ev) =>
      if ev.id !in db.inbox && Next(snap.status, ev.trigger, ctx).Ok? {
        ApplyTallies(db.(inbox := db.inbox + {ev.id}), snap, EvidenceOf(ev),
          Next(snap.status, ev.trigger, ctx).decision);
      }
    case FromTimeout =>
      if Next(snap.status, OnTimeout, ctx).Ok? {
        ApplyTallies(db, snap, TimeoutEvidence(snap), Next(snap.status, OnTimeout, ctx).decision);
      }
    case FromCustomer =>
      var row := UpdatedRow(db.order, Compensating, Evidence(OnTimeout, None, None, None), Some(CustomerCancelled),
        None);
      EmitTallies(db.(order := row), snap, CancelSteps(ctx), TIMEOUT_COMPENSATING);
  }

  /** No participant acknowledges what it was not asked, releases apart. */
  ghost predicate Solicited(c: Cell) {
    forall e :: e in c.events ==>
      StepAckedBy(e.trigger).Some? &&
        (StepAckedBy(e.trigger).value in Sent(c) || StepAckedBy(e.trigger).value == Release)
  }

  ghost predicate Kept(c: Cell) {
    Tallied(c.db) && Solicited(c)
  }

  lemma TxnKeeps(c: Cell, src: Source, snap: OrderRow, ctx: Ctx, rid: Id, pid: Id)
    requires Kept(c) && OneIdentity(c, rid, pid) && SatisfiesChecks(c.db.order) && Identified(snap, rid, pid)
    requires src.FromEvent? ==> src.ev in c.events
    ensures Kept(c.(db := After(c.db, FinishTxn(c.db, src, snap, ctx))))
  {
    hide FinishTxn, Sends;
    if src.FromEvent? { SolicitedIsSent(c, src.ev); }
    FinishTallies(c.db, src, snap, ctx);
    CommandsGrow(c.db, src, snap, ctx);
  }

  lemma SolicitedIsSent(c: Cell, e: Event)
    requires Kept(c) && e in c.events
    ensures AcksSent(c.db, e.trigger)
  {
    hide Sends;
  }

  lemma {:induction false} EmitGrows(db: Db, snap: OrderRow, emit: seq<Step>, deadline: nat)
    ensures db.cmds <= EmitAll(db, snap, emit, deadline).cmds
    decreases |emit|
  {
    if emit != [] { EmitGrows(EmitCommand(db, snap, emit[0], deadline), snap, emit[1..], deadline); }
  }

  lemma CommandsGrow(db: Db, src: Source, snap: OrderRow, ctx: Ctx)
    ensures db.cmds <= After(db, FinishTxn(db, src, snap, ctx)).cmds
  {
    hide EmitAll, Next;
    forall base: Db, emit: seq<Step>, deadline: nat
      ensures base.cmds <= EmitAll(base, snap, emit, deadline).cmds
    {
      EmitGrows(base, snap, emit, deadline);
    }
  }

  lemma PushedOut(db: Db, row: Step)
    requires Tallied(db) && row in db.steps
    ensures Tallied(db.(steps := db.steps[row := db.steps[row].(timed := true)]))
  {
    hide Sends;
  }

  lemma StepKeeps(c: Cell, a: Action, rid: Id, pid: Id)
    requires Safe(c, rid, pid) && Kept(c)
    ensures Kept(Act(c, a))
  {
    hide FinishTxn, Sends, OneReserve, CommandsFit;
    match a
    case Deliver(ev) =>
      if ev in c.events { TxnKeeps(c, FromEvent(ev), c.db.order, BuildCtx(c.db.steps, ev.retriable), rid, pid); }
    case Sweep(row) =>
      if OverdueRow(c.db.steps, row) {
        PushedOut(c.db, row);
        TxnKeeps(c, FromTimeout, c.db.order, BuildCtx(c.db.steps, false), rid, pid);
        SweepIs(c, row);
      }
    case ForcedTimeout => TxnKeeps(c, FromTimeout, c.db.order, BuildCtx(c.db.steps, false), rid, pid);
    case CustomerCancel => TxnKeeps(c, FromCustomer, c.db.order, BuildCtx(c.db.steps, false), rid, pid);
    case Finish(txn) =>
      if txn in c.txns && txn.Loaded? {
        assert ReadIsPast(c, txn.src, txn.snap);
        TxnKeeps(c, txn.src, txn.snap, txn.ctx, rid, pid);
      }
    case _ => QuietKeeps(c, a, rid, pid);
  }

  lemma SweepIs(c: Cell, row: Step)
    requires OverdueRow(c.db.steps, row)
    ensures After(c.db, Fire(c.db, row)) ==
      After(c.db, FinishTxn(c.db, FromTimeout, c.db.order, BuildCtx(c.db.steps, false)))
      || After(c.db, Fire(c.db, row)) == c.db.(steps := c.db.steps[row := c.db.steps[row].(timed := true)])
  {
    hide ConcludeTimeout;
  }

  /** Rows and commands stay; any new event answers a command that was sent, or is a release. */
  lemma SpeakKeeps(c: Cell, c': Cell)
    requires Kept(c) && c'.db == c.db.(nextId := c'.db.nextId) && c.db.nextId <= c'.db.nextId
    requires forall e :: e in c'.events && e !in c.events ==>
      StepAckedBy(e.trigger).Some? &&
        (StepAckedBy(e.trigger).value in Sent(c) || StepAckedBy(e.trigger).value == Release)
    ensures Kept(c')
  {
    hide Sends, StepAckedBy;
    assert Sent(c') == Sent(c);
  }

  lemma InventoryKeeps(c: Cell, a: Action, rid: Id, pid: Id)
    requires Safe(c, rid, pid) && Kept(c) && (a.Run? || a.PublishFailure? || a.Expire?)
    ensures Kept(Act(c, a))
  {
    hide Kept, CommandsFit, TxnsArePast, Evidenced;
    if !a.Expire? && (a.cmd in c.pending || a.cmd in c.failing) { assert a.cmd in c.db.cmds && a.cmd.step in Sent(c); }
    SpeakKeeps(c, Act(c, a));
  }

  lemma QuietKeeps(c: Cell, a: Action, rid: Id, pid: Id)
    requires Safe(c, rid, pid) && Kept(c)
    requires !a.Deliver? && !a.Sweep? && !a.ForcedTimeout? && !a.CustomerCancel? && !a.Finish?
    ensures Kept(Act(c, a))
  {
    hide Kept, OneReserve, CommandsFit, TxnsArePast, Evidenced, OneIdentity, FinishTxn;
    if a.Run? || a.PublishFailure? || a.Expire? {
      InventoryKeeps(c, a, rid, pid);
    } else {
      if (a.Answer? || a.AnswerAgain?) && a.cmd in c.db.cmds { assert a.cmd.step in Sent(c); }
      SpeakKeeps(c, Act(c, a));
    }
  }

  lemma {:induction false} RunKeeps(c: Cell, acts: seq<Action>, rid: Id, pid: Id)
    requires Safe(c, rid, pid) && Kept(c)
    ensures Kept(Exec(c, acts))
    decreases |acts|
  {
    hide Safe, Kept, Act;
    if acts != [] {
      StepKeeps(c, acts[0], rid, pid);
      ActIsSafe(c, acts[0], rid, pid);
      RunKeeps(Act(c, acts[0]), acts[1..], rid, pid);
    }
  }

  /** A placed order: PENDING, one RESERVE command under the order's ids, and its row on a deadline. */
  lemma PlacedRows(firstId: Id)
    ensures var db := PlaceOrder(firstId);
      && db.order == OrderRow(Pending, 0, Some(firstId), Some(firstId + 1), None, None)
      && db.cmds == {Command(firstId + 2, Reserve, firstId, firstId + 1)}
      && db.steps == map[Reserve := StepRow(false, 1, true)]
      && db.inbox == {} && db.notices == []
  {
    assert Start().emit[1..] == [];
  }

  lemma PlacedIsKept(firstId: Id)
    ensures Kept(Place(firstId))
  {
    PlacedRows(firstId);
    OneMoreSend({}, Command(firstId + 2, Reserve, firstId, firstId + 1), Reserve);
    NeverSent({}, Reserve);
    assert {} + {Command(firstId + 2, Reserve, firstId, firstId + 1)} == Place(firstId).db.cmds;
  }

  /**
   In every run the attempts recorded for a step are the commands sent for it, and no step but RELEASE is acknowledged
   unasked.
   */
  lemma AttemptsAreCommands(firstId: Id, acts: seq<Action>)
    ensures var c := Exec(Place(firstId), acts);
      && (forall s :: s in c.db.steps && s != Release ==> c.db.steps[s].attempts == Sends(c.db.cmds, s))
      && (forall e :: e in c.events ==>
            StepAckedBy(e.trigger).Some? &&
              (StepAckedBy(e.trigger).value in Sent(c) || StepAckedBy(e.trigger).value == Release))
  {
    hide Safe;
    PlaceIsSafe(firstId);
    PlacedIsKept(firstId);
    RunKeeps(Place(firstId), acts, firstId, firstId + 1);
  }

  // ----- reading and sweeping

  /** The facts a read yields, row by row. */
  lemma CtxMeans(steps: map<Step, StepRow>, retriable: bool)
    ensures var c := BuildCtx(steps, retriable);
      && (c.authorizeSent <==> Authorize in steps)
      && (c.inventorySettled <==> Release in steps && steps[Release].acked)
      && (c.paymentSettled <==> Void in steps && steps[Void].acked)
      && (forall s :: s in steps && (s == Commit || s == Capture) ==> steps[s].attempts <= c.rollForwardAttempts)
      && (c.rollForwardAttempts == 0 ||
            exists s :: s in steps && (s == Commit || s == Capture) && steps[s].attempts == c.rollForwardAttempts)
      && c.paymentRetriable == retriable
  {
  }

  /** The step that a state past the pivot waits for. */
  function Awaited(s: State): Step {
    if s == Paid then Commit else Capture
  }

  /**
   Past the pivot a sweep sends the awaited command once more and puts its row back on a deadline, until five have
   been sent; then it sends nothing and only pushes the deadline out. The order itself does not move either way.
   */
  lemma FireForward(db: Db, step: Step, rid: Id, pid: Id)
    requires db.order.status == Paid || db.order.status == StockCommitted
    requires step in db.steps && Identified(db.order, rid, pid)
    ensures var o := Fire(db, step);
      && o.Done? && o.db.order == db.order && o.db.inbox == db.inbox && o.db.notices == db.notices
      && (db.steps[step].attempts >= 5 ==>
            o.db.cmds == db.cmds && o.db.steps == db.steps[step := db.steps[step].(timed := true)])
      && (db.steps[step].attempts < 5 ==>
            && o.db.cmds == db.cmds + {Command(db.nextId + 2, Awaited(db.order.status), rid, pid)}
            && o.db.steps == db.steps[Awaited(db.order.status) :=
                 StepRow(false, AttemptsOf(db.steps, Awaited(db.order.status)) + 1, true)])
  {
    var s := Awaited(db.order.status);
    assert [s][1..] == [];
    assert EmitAll(db, db.order, [s], RETRY_INTERVAL) == EmitCommand(db, db.order, s, RETRY_INTERVAL);
  }

  /** An acknowledgement closes the row for the sweeper, keeps its count, and touches no other row. */
  lemma AckMeans(steps: map<Step, StepRow>, step: Step)
    ensures var after := RecordStepAcked(steps, step);
      && after.Keys == steps.Keys + {step}
      && after[step].acked && !after[step].timed && !OverdueRow(after, step)
      && after[step].attempts == (if step in steps then steps[step].attempts else 1)
      && forall s :: s in steps && s != step ==> after[s] == steps[s]
  {
  }
}
