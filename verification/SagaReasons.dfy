/** Which cancellation reason an order ends up with, over every run of the saga protocol. */
module SagaReasons {
  import opened Basics
  import opened SagaMachine
  import opened Orchestrator
  import opened ReservationRow
  import opened SagaProtocol
  import opened SagaProgress
  import opened SagaTermination
  import W = SagaWitnesses

  // ----- the first recorded reason stays

  predicate RolledBack(s: State) {
    s == Compensating || s == Cancelled
  }

  /** A reason is recorded only on the way back, and a read of the current version has seen it. */
  ghost predicate ReasonsSeen(c: Cell) {
    && (c.db.order.reason.Some? ==> RolledBack(c.db.order.status))
    && (forall x :: x in c.txns && x.snap.version == c.db.order.version ==> x.snap.reason == c.db.order.reason)
  }

  lemma {:induction false} EmitKeepsRow(db: Db, snap: OrderRow, emit: seq<Step>, deadline: nat)
    ensures var after := EmitAll(db, snap, emit, deadline).order;
      after.reason == db.order.reason && after.status == db.order.status && after.version == db.order.version
    decreases |emit|
  {
    if emit != [] { EmitKeepsRow(EmitCommand(db, snap, emit[0], deadline), snap, emit[1..], deadline); }
  }

  /** A reason is written only together with CANCELLED: the recorded one, else the event's, else the decision's. */
  lemma ApplyReason(db: Db, snap: OrderRow, e: Evidence, d: Decision)
    requires Apply(db, snap, e, d).Done?
    ensures var after := Apply(db, snap, e, d).db.order;
      if d.next == snap.status
      then after.reason == db.order.reason && after.status == db.order.status && after.version == db.order.version
      else
        && db.order.version == snap.version && after.version == snap.version + 1 && after.status == d.next
        && after.reason == if d.next == Cancelled
              then Coalesce(PickReason(d.reason, e.reason, snap.reason), db.order.reason) else db.order.reason
  {
    hide EmitAll;
    var acked := AckEvidence(db, e.trigger);
    var reason := if d.next == Cancelled then PickReason(d.reason, e.reason, snap.reason) else None;
    EmitKeepsRow(acked, snap, d.emit, d.deadline);
    EmitKeepsRow(acked.(order := UpdatedRow(acked.order, d.next, e, reason, d.failedStep)), snap, d.emit, d.deadline);
  }

  /** A transaction that recorded a reason: the status it found and what it was handling. */
  datatype Recording = Recording(status: State, src: Source)

  /** The customer's own reason, else the event's, else the default of the transition; a timeout has none to record. */
  function RecordedBy(rec: Recording): Option<Reason> {
    match rec.src
    case FromCustomer => Some(CustomerCancelled)
    case FromEvent(ev) =>
      if ev.reason.Some? then ev.reason
      else if rec.status == Pending then Some(InsufficientStock)
      else Some(PaymentDeclined)
    case FromTimeout => None
  }

  /**
   How one transaction may change the row: a recorded reason stays, and a new one is exactly what it has to record.
   */
  ghost predicate ReasonMoves(row: OrderRow, after: OrderRow, src: Source) {
    && row.version <= after.version
    && (after.version == row.version ==> after.reason == row.reason)
    && (row.reason.Some? ==> after.reason == row.reason)
    && (after.reason.Some? ==> RolledBack(after.status))
    && (row.reason.None? && after.reason.Some? ==> after.reason == RecordedBy(Recording(row.status, src)))
  }

  lemma DecidedReason(db: Db, snap: OrderRow, e: Evidence, ctx: Ctx, d: Decision, src: Source)
    requires snap.version == db.order.version ==> snap.status == db.order.status && snap.reason == db.order.reason
    requires db.order.reason.Some? ==> RolledBack(db.order.status)
    requires Next(snap.status, e.trigger, ctx) == Ok(d)
    requires !src.FromCustomer? && (src.FromTimeout? ==> e.trigger == OnTimeout)
    requires e.reason == if src.FromEvent? then src.ev.reason else None
    ensures ReasonMoves(db.order, After(db, Apply(db, snap, e, d)).order, src)
  {
    hide Apply;
    if Apply(db, snap, e, d).Done? {
      ApplyReason(db, snap, e, d);
      NextIsLawful(snap.status, e.trigger, ctx);
    }
  }

  lemma CancelReason(db: Db, snap: OrderRow, ctx: Ctx)
    requires snap.version == db.order.version ==> snap.status == db.order.status && snap.reason == db.order.reason
    requires db.order.reason.Some? ==> RolledBack(db.order.status)
    ensures ReasonMoves(db.order, After(db, ConcludeCancel(db, snap, ctx)).order, FromCustomer)
    ensures ConcludeCancel(db, snap, ctx).Done? ==>
      ConcludeCancel(db, snap, ctx).db.order.reason == Some(CustomerCancelled)
  {
    hide EmitAll;
    var row := UpdatedRow(db.order, Compensating, Evidence(OnTimeout, None, None, None), Some(CustomerCancelled), None);
    EmitKeepsRow(db.(order := row), snap, CancelSteps(ctx), TIMEOUT_COMPENSATING);
  }

  lemma FinishReason(db: Db, src: Source, snap: OrderRow, ctx: Ctx)
    requires snap.version == db.order.version ==> snap.status == db.order.status && snap.reason == db.order.reason
    requires db.order.reason.Some? ==> RolledBack(db.order.status)
    ensures ReasonMoves(db.order, After(db, FinishTxn(db, src, snap, ctx)).order, src)
  {
    hide Apply, Next;
    match src
    case FromEvent(ev) =>
      if ev.id !in db.inbox && Next(snap.status, ev.trigger, ctx).Ok? {
        DecidedReason(db.(inbox := db.inbox + {ev.id}), snap, EvidenceOf(ev), ctx,
          Next(snap.status, ev.trigger, ctx).decision, src);
      }
    case FromTimeout =>
      if Next(snap.status, OnTimeout, ctx).Ok? {
        DecidedReason(db, snap, TimeoutEvidence(snap), ctx, Next(snap.status, OnTimeout, ctx).decision, src);
      }
    case FromCustomer => CancelReason(db, snap, ctx);
  }

  // ----- over every run

  lemma TxnReason(c: Cell, src: Source, snap: OrderRow, ctx: Ctx)
    requires ReasonsSeen(c) && TxnsArePast(c)
    requires snap.version == c.db.order.version ==> snap.status == c.db.order.status && snap.reason == c.db.order.reason
    ensures var c' := c.(db := After(c.db, FinishTxn(c.db, src, snap, ctx)));
      ReasonsSeen(c') && ReasonMoves(c.db.order, c'.db.order, src)
  {
    hide FinishTxn;
    FinishReason(c.db, src, snap, ctx);
    assert forall x :: x in c.txns ==> ReadIsPast(c, x.src, x.snap);
  }

  /** What the transaction committed by this step was handling. */
  function HandledBy(a: Action): Source {
    match a
    case Deliver(ev) => FromEvent(ev)
    case CustomerCancel => FromCustomer
    case Finish(txn) => txn.src
    case _ => FromTimeout
  }

  lemma ReasonStep(c: Cell, a: Action, rid: Id, pid: Id)
    requires Safe(c, rid, pid) && ReasonsSeen(c)
    ensures ReasonsSeen(Act(c, a)) && ReasonMoves(c.db.order, Act(c, a).db.order, HandledBy(a))
  {
    hide OneIdentity, OneReserve, CommandsFit, Evidenced, FinishTxn, RecordedBy;
    match a
    case Deliver(ev) =>
      if ev in c.events { TxnReason(c, FromEvent(ev), c.db.order, BuildCtx(c.db.steps, ev.retriable)); }
    case Sweep(row) => if OverdueRow(c.db.steps, row) { SweepReason(c, row); }
    case ForcedTimeout => TxnReason(c, FromTimeout, c.db.order, BuildCtx(c.db.steps, false));
    case CustomerCancel => TxnReason(c, FromCustomer, c.db.order, BuildCtx(c.db.steps, false));
    case Finish(txn) =>
      if txn in c.txns && txn.Loaded? {
        assert ReadIsPast(c, txn.src, txn.snap);
        TxnReason(c, txn.src, txn.snap, txn.ctx);
      }
    case _ => QuietReason(c, a);
  }

  lemma SweepReason(c: Cell, row: Step)
    requires ReasonsSeen(c) && TxnsArePast(c) && OverdueRow(c.db.steps, row)
    ensures var c' := c.(db := After(c.db, Fire(c.db, row)));
      ReasonsSeen(c') && ReasonMoves(c.db.order, c'.db.order, FromTimeout)
  {
    hide ConcludeTimeout;
    TxnReason(c, FromTimeout, c.db.order, BuildCtx(c.db.steps, false));
  }

  lemma QuietReason(c: Cell, a: Action)
    requires ReasonsSeen(c) && TxnsArePast(c)
    requires !a.Deliver? && !a.Sweep? && !a.ForcedTimeout? && !a.CustomerCancel? && !a.Finish?
    ensures ReasonsSeen(Act(c, a)) && Act(c, a).db.order == c.db.order
  {
    hide FinishTxn, BuildCtx;
    var c' := Act(c, a);
    forall x | x in c'.txns && x.snap.version == c'.db.order.version
      ensures x.snap.reason == c'.db.order.reason
    {
      if x !in c.txns && a.Load? { assert a.txn in c.txns && x.snap == a.txn.snap; }
    }
  }

  /** The first step of a run that records a reason. */
  function FirstRecording(c: Cell, acts: seq<Action>): Option<Recording>
    decreases |acts|
  {
    if acts == [] then None
    else if c.db.order.reason.None? && Act(c, acts[0]).db.order.reason.Some?
    then Some(Recording(c.db.order.status, HandledBy(acts[0])))
    else FirstRecording(Act(c, acts[0]), acts[1..])
  }

  ghost predicate ReasonFollows(before: Option<Reason>, after: Option<Reason>, rec: Option<Recording>) {
    && (before.Some? ==> after == before)
    && (before.None? && rec.None? ==> after.None?)
    && (before.None? && rec.Some? ==> after.Some? && after == RecordedBy(rec.value))
  }

  lemma {:induction false} ReasonRun(c: Cell, acts: seq<Action>, rid: Id, pid: Id)
    requires Safe(c, rid, pid) && ReasonsSeen(c)
    ensures ReasonsSeen(Exec(c, acts))
    ensures ReasonFollows(c.db.order.reason, Exec(c, acts).db.order.reason, FirstRecording(c, acts))
    decreases |acts|
  {
    hide Safe, ReasonsSeen, Act, RecordedBy;
    if acts != [] {
      ReasonStep(c, acts[0], rid, pid);
      ActIsSafe(c, acts[0], rid, pid);
      ReasonRun(Act(c, acts[0]), acts[1..], rid, pid);
    }
  }

  lemma PlacedIsSeen(firstId: Id)
    ensures ReasonsSeen(Place(firstId)) && Place(firstId).db.order.reason.None?
  {
    assert Start().emit[1..] == [];
  }

  /** The first recorded reason wins: no later event, timeout or stale handler replaces it. */
  lemma FirstReasonStays(firstId: Id, acts: seq<Action>, more: seq<Action>)
    requires Exec(Place(firstId), acts).db.order.reason.Some?
    ensures Exec(Place(firstId), acts + more).db.order.reason == Exec(Place(firstId), acts).db.order.reason
  {
    hide Safe, ReasonsSeen;
    PlaceIsSafe(firstId);
    PlacedIsSeen(firstId);
    ExecIsSafe(Place(firstId), acts, firstId, firstId + 1);
    ReasonRun(Place(firstId), acts, firstId, firstId + 1);
    ReasonRun(Exec(Place(firstId), acts), more, firstId, firstId + 1);
    ExecSplits(Place(firstId), acts, more);
  }

  /**
   The recorded reason is that of the first transaction that had one to record: CUSTOMER_CANCELLED for the customer,
   what the event said, or else INSUFFICIENT_STOCK out of PENDING and PAYMENT_DECLINED out of COMPENSATING.
   Every cancelled order has one, and no timeout ever records any.
   */
  lemma ReasonIsExplained(firstId: Id, acts: seq<Action>)
    ensures var row, rec := Exec(Place(firstId), acts).db.order, FirstRecording(Place(firstId), acts);
      && (rec.None? ==> row.reason.None? && row.status != Cancelled)
      && (rec.Some? ==> row.reason.Some? && row.reason == RecordedBy(rec.value) && !rec.value.src.FromTimeout?)
  {
    hide OneIdentity, OneReserve, CommandsFit, TxnsArePast, ReasonsSeen, FirstRecording;
    PlaceIsSafe(firstId);
    PlacedIsSeen(firstId);
    ReasonRun(Place(firstId), acts, firstId, firstId + 1);
    ExecIsSafe(Place(firstId), acts, firstId, firstId + 1);
  }

  /**
   PAYMENT_TIMEOUT is recorded exactly when the event first recorded from carried it; the saga's own timeouts never are.
   */
  lemma TimeoutReportedIff(firstId: Id, acts: seq<Action>)
    ensures var rec := FirstRecording(Place(firstId), acts);
      Exec(Place(firstId), acts).db.order.reason == Some(PaymentTimeout)
      <==> rec.Some? && rec.value.src.FromEvent? && rec.value.src.ev.reason == Some(PaymentTimeout)
  {
    hide Exec, FirstRecording, Place;
    ReasonIsExplained(firstId, acts);
  }

  // ----- a payment that timed out is reported as declined

  const RELEASE: Command := Command(9, Release, 0, 1)
  const VOID: Command := Command(12, Void, 0, 1)
  const RELEASED: Event := Event(13, OnReleased, Some(0), None, None, false)
  const VOIDED: Event := Event(14, OnVoided, None, Some(1), None, false)

  /** The order just after its authorisation timed out. */
  function GivenUp(): Cell {
    var r := W.Reserving();
    r.(db := r.db.(order := OrderRow(Compensating, 2, Some(0), Some(1), None, Some(Authorize)),
                   steps := r.db.steps[Release := W.RowSent(1, true)][Void := W.RowSent(1, true)],
                   cmds := r.db.cmds + {RELEASE, VOID}, nextId := 13))
  }

  lemma TimeoutGivesUp()
    ensures Act(W.Reserving(), Sweep(Authorize)) == GivenUp()
  {
    var db := W.Reserving().db;
    var row := OrderRow(Compensating, 2, Some(0), Some(1), None, Some(Authorize));
    var one := EmitCommand(db.(order := row), db.order, Release, TIMEOUT_COMPENSATING);
    assert [Release, Void][1..] == [Void] && [Void][1..] == [];
    assert EmitAll(db.(order := row), db.order, [Release, Void], TIMEOUT_COMPENSATING) ==
      EmitAll(one, db.order, [Void], TIMEOUT_COMPENSATING);
    assert EmitCommand(one, db.order, Void, TIMEOUT_COMPENSATING).cmds == GivenUp().db.cmds;
    assert EmitCommand(one, db.order, Void, TIMEOUT_COMPENSATING) == GivenUp().db;
  }

  /** Both compensations have answered. */
  function Settling(): Cell {
    var c := GivenUp();
    c.(db := c.db.(nextId := 15), resv := Some(Resv(0, Released)), claimed := {2, 9}, answered := {12},
       events := c.events + {RELEASED, VOIDED})
  }

  function Answering(): seq<Action> {
    [Claim(RELEASE), Run(RELEASE, true), Answer(VOID, OnVoided, None, false)]
  }

  lemma BothSettle()
    ensures Exec(GivenUp(), Answering()) == Settling()
  {
    var c0 := GivenUp();
    var c1 := Act(c0, Claim(RELEASE));
    assert c1 == c0.(claimed := {2, 9}, pending := {RELEASE});
    var c2 := Act(c1, Run(RELEASE, true));
    assert c2.pending == {} && c2.events == c0.events + {RELEASED};
    var c3 := Act(c2, Answer(VOID, OnVoided, None, false));
    assert c3.events == Settling().events;
    assert c3 == Settling();
    ThreeSteps(c0, Answering());
  }

  lemma ThreeSteps(c: Cell, acts: seq<Action>)
    requires |acts| == 3
    ensures Exec(c, acts) == Act(Act(Act(c, acts[0]), acts[1]), acts[2])
  {
    hide Act;
    assert acts[1..][1..][1..] == [];
    assert Exec(c, acts) == Exec(Act(c, acts[0]), acts[1..]);
    assert Exec(Act(c, acts[0]), acts[1..]) == Exec(Act(Act(c, acts[0]), acts[1]), acts[1..][1..]);
  }

  /** The release has been acknowledged. */
  function HalfSettled(): Cell {
    var c := Settling();
    c.(db := c.db.(inbox := {3, 13}, steps := c.db.steps[Release := W.RowAcked(1)]))
  }

  lemma ReleaseIsNoted()
    ensures Act(Settling(), Deliver(RELEASED)) == HalfSettled()
  {
    var c := Settling();
    IdleDelivery(c.db, RELEASED);
    assert c.db.inbox + {13} == {3, 13};
  }

  lemma VoidCancels()
    ensures var row := Act(HalfSettled(), Deliver(VOIDED)).db.order;
      row.status == Cancelled && row.reason == Some(PaymentDeclined)
  {
    var c := HalfSettled();
    var d := Next(Compensating, OnVoided, BuildCtx(c.db.steps, false)).decision;
    assert d.next == Cancelled && d.reason == Some(PaymentDeclined);
  }

  lemma SettlingIsDeclined()
    ensures var row := Exec(Settling(), [Deliver(RELEASED), Deliver(VOIDED)]).db.order;
      row.status == Cancelled && row.reason == Some(PaymentDeclined)
  {
    hide Exec, Act;
    assert [Deliver(RELEASED), Deliver(VOIDED)] == [Deliver(RELEASED)] + [Deliver(VOIDED)];
    ExecSplits(Settling(), [Deliver(RELEASED)], [Deliver(VOIDED)]);
    OneStep(Settling(), Deliver(RELEASED));
    OneStep(HalfSettled(), Deliver(VOIDED));
    ReleaseIsNoted();
    VoidCancels();
  }

  /**
   A reachable order whose authorisation times out: both compensations acknowledge, and it is cancelled as declined.
   */
  lemma TimedOutIsDeclined() returns (c: Cell, acts: seq<Action>)
    ensures Reachable(c, false) && c.db.order.status == StockReserved && (forall e :: e in c.events ==> e.reason.None?)
    ensures acts == [Sweep(Authorize)] + Answering() + [Deliver(RELEASED), Deliver(VOIDED)]
    ensures var row := Exec(c, acts).db.order; row.status == Cancelled && row.reason == Some(PaymentDeclined)
  {
    hide Reachable, Exec;
    W.ReservingIsReached();
    c := W.Reserving();
    acts := [Sweep(Authorize)] + Answering() + [Deliver(RELEASED), Deliver(VOIDED)];
    ExecSplits(c, [Sweep(Authorize)] + Answering(), [Deliver(RELEASED), Deliver(VOIDED)]);
    ExecSplits(c, [Sweep(Authorize)], Answering());
    OneStep(c, Sweep(Authorize));
    TimeoutGivesUp();
    BothSettle();
    SettlingIsDeclined();
  }

  lemma OneStep(c: Cell, a: Action)
    ensures Exec(c, [a]) == Act(c, a)
  {
    assert [a][1..] == [];
  }
}
