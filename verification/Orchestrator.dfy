/**
 The rows that order-service keeps for one order, and the transactions that rewrite them
 (services/order-service/internal/orchestrator and internal/store). Orders share no rows, so
 one order's rows are the whole state of its saga. Pure functions give each transaction's
 effect; the class `OrderRows` performs it in place and is proved to have that effect.
 */
module Orchestrator {
  import opened Basics
  import opened SagaMachine

  /** Identifiers (ULIDs in the service) are drawn from a counter. */
  type Id = nat

  datatype OrderRow = OrderRow(
    status: State,
    version: nat,
    resId: Option<Id>,
    payId: Option<Id>,
    reason: Option<Reason>,
    failedStep: Option<Step>)

  /** A saga_steps row: SENT or ACKED, how often it was sent, and whether deadline_at is set. */
  datatype StepRow = StepRow(acked: bool, attempts: nat, timed: bool)

  datatype Command = Command(id: Id, step: Step, resId: Id, payId: Id)

  datatype Event = Event(
    id: Id,
    trigger: Trigger,
    resId: Option<Id>,
    payId: Option<Id>,
    reason: Option<Reason>,
    retriable: bool)

  /** What a transaction acts on besides the order: an event, or a synthetic timeout envelope. */
  datatype Evidence = Evidence(trigger: Trigger, resId: Option<Id>, payId: Option<Id>, reason: Option<Reason>)

  /** `cmds` is the command part of the outbox, `notices` the public order events, `inbox` processed_events. */
  datatype Db = Db(
    order: OrderRow,
    steps: map<Step, StepRow>,
    inbox: set<Id>,
    cmds: set<Command>,
    notices: seq<State>,
    nextId: Id)

  datatype Outcome =
    | Done(db: Db)
    | Stale
    | CheckViolation
    | Duplicate
    | Rejected(from: State, trigger: Trigger)
    | Refused

  /** The rows after a transaction: a transaction that does not commit leaves no trace. */
  function After(db: Db, o: Outcome): Db {
    if o.Done? then o.db else db
  }

  // ----- store/orders.go

  function RecordStepSent(steps: map<Step, StepRow>, step: Step, deadline: nat): map<Step, StepRow> {
    steps[step := StepRow(false, if step in steps then steps[step].attempts + 1 else 1, deadline > 0)]
  }

  function RecordStepAcked(steps: map<Step, StepRow>, step: Step): map<Step, StepRow> {
    steps[step := StepRow(true, if step in steps then steps[step].attempts else 1, false)]
  }

  function UpdatedRow(row: OrderRow, next: State, e: Evidence, reason: Option<Reason>, failed: Option<Step>): OrderRow {
    OrderRow(next, row.version + 1, Coalesce(e.resId, row.resId), Coalesce(e.payId, row.payId),
             Coalesce(reason, row.reason), Coalesce(failed, row.failedStep))
  }

  /** The CHECK constraints cancelled_has_reason and confirmed_is_settled. */
  predicate SatisfiesChecks(row: OrderRow) {
    && (row.status == Cancelled ==> row.reason.Some?)
    && (row.status == Confirmed ==> row.resId.Some? && row.payId.Some?)
  }

  // ----- orchestrator.go

  function StepAckedBy(t: Trigger): Option<Step> {
    match t
    case OnReserved | OnReserveFailed => Some(Reserve)
    case OnAuthorized | OnAuthFailed => Some(Authorize)
    case OnCommitted => Some(Commit)
    case OnCaptured => Some(Capture)
    case OnReleased => Some(Release)
    case OnVoided => Some(Void)
    case OnTimeout => None
  }

  function PickReason(fromDecision: Option<Reason>, fromEvent: Option<Reason>,
      existing: Option<Reason>): Option<Reason> {
    Coalesce(existing, Coalesce(fromEvent, fromDecision))
  }

  function AttemptsOf(steps: map<Step, StepRow>, step: Step): nat {
    if step in steps then steps[step].attempts else 0
  }

  predicate Acked(steps: map<Step, StepRow>, step: Step) {
    step in steps && steps[step].acked
  }

  function BuildCtx(steps: map<Step, StepRow>, retriable: bool): Ctx {
    Ctx(Authorize in steps, Acked(steps, Release), Acked(steps, Void),
        Max(AttemptsOf(steps, Commit), AttemptsOf(steps, Capture)), retriable)
  }

  /** Mints any missing id, writes the command to the outbox and records the step, all from the row that was read. */
  function EmitCommand(db: Db, snap: OrderRow, step: Step, deadline: nat): Db {
    var rid := if snap.resId.Some? then snap.resId.value else db.nextId;
    var pid := if snap.payId.Some? then snap.payId.value else db.nextId + 1;
    db.(order := db.order.(resId := Coalesce(db.order.resId, Some(rid)), payId := Coalesce(db.order.payId, Some(pid))),
        cmds := db.cmds + {Command(db.nextId + 2, step, rid, pid)},
        steps := RecordStepSent(db.steps, step, deadline),
        nextId := db.nextId + 3)
  }

  function EmitAll(db: Db, snap: OrderRow, emit: seq<Step>, deadline: nat): Db
    decreases |emit|
  {
    if emit == [] then db else EmitAll(EmitCommand(db, snap, emit[0], deadline), snap, emit[1..], deadline)
  }

  function AckRows(steps: map<Step, StepRow>, t: Trigger): map<Step, StepRow> {
    var s := StepAckedBy(t);
    if s.Some? then RecordStepAcked(steps, s.value) else steps
  }

  /** Closes out the step that `t` acknowledges. */
  function AckEvidence(db: Db, t: Trigger): Db {
    db.(steps := AckRows(db.steps, t))
  }

  /** The public event of a terminal transition. */
  function Announce(db: Db, next: State): Db {
    if IsTerminal(next) then db.(notices := db.notices + [next]) else db
  }

  /** Persists decision `d`, taken on the row `snap`, against the rows as they are now. */
  function Apply(db: Db, snap: OrderRow, e: Evidence, d: Decision): Outcome {
    var acked := AckEvidence(db, e.trigger);
    if d.ackOnly && d.next == snap.status && d.emit == [] then Done(acked)
    else if d.next == snap.status then Done(Announce(EmitAll(acked, snap, d.emit, d.deadline), d.next))
    else if acked.order.version != snap.version then Stale
    else
      var reason := if d.next == Cancelled then PickReason(d.reason, e.reason, snap.reason) else None;
      var row := UpdatedRow(acked.order, d.next, e, reason, d.failedStep);
      if !SatisfiesChecks(row) then CheckViolation
      else Done(Announce(EmitAll(acked.(order := row), snap, d.emit, d.deadline), d.next))
  }

  function EvidenceOf(ev: Event): Evidence {
    Evidence(ev.trigger, ev.resId, ev.payId, ev.reason)
  }

  /** The tail of Handle, once the order row and the step rows have been read. */
  function Conclude(db: Db, snap: OrderRow, ctx: Ctx, ev: Event): Outcome {
    if ev.id in db.inbox then Duplicate
    else
      match Next(snap.status, ev.trigger, ctx)
      case Illegal(f, t) => Rejected(f, t)
      case Ok(d) => Apply(db.(inbox := db.inbox + {ev.id}), snap, EvidenceOf(ev), d)
  }

  function Handle(db: Db, ev: Event): Outcome {
    Conclude(db, db.order, BuildCtx(db.steps, ev.retriable), ev)
  }

  // ----- sweeper.go

  function TimeoutEvidence(snap: OrderRow): Evidence {
    Evidence(OnTimeout, snap.resId, snap.payId, None)
  }

  function ConcludeTimeout(db: Db, snap: OrderRow, ctx: Ctx): Outcome {
    match Next(snap.status, OnTimeout, ctx)
    case Illegal(f, t) => Rejected(f, t)
    case Ok(d) =>
      if RollbackForbidden(snap.status) && (Release in d.emit || Void in d.emit) then Refused
      else Apply(db, snap, TimeoutEvidence(snap), d)
  }

  /** A row the sweeper's query returns: SENT with a deadline. */
  predicate OverdueRow(steps: map<Step, StepRow>, step: Step) {
    step in steps && !steps[step].acked && steps[step].timed
  }

  /** Fires the timeout that the overdue row `step` of this order stands for. */
  function Fire(db: Db, step: Step): Outcome
    requires step in db.steps
  {
    if RollbackForbidden(db.order.status) && db.steps[step].attempts >= MAX_ROLL_FORWARD_RETRIES
    then Done(db.(steps := db.steps[step := db.steps[step].(timed := true)]))
    else ConcludeTimeout(db, db.order, BuildCtx(db.steps, false))
  }

  // ----- place.go

  predicate Cancellable(s: State) {
    s == Pending || s == StockReserved
  }

  function CancelSteps(ctx: Ctx): seq<Step> {
    [Release] + if ctx.authorizeSent then [Void] else []
  }

  function ConcludeCancel(db: Db, snap: OrderRow, ctx: Ctx): Outcome {
    if !Cancellable(snap.status) then Refused
    else if db.order.version != snap.version then Stale
    else
      var row := UpdatedRow(db.order, Compensating, Evidence(OnTimeout, None, None, None), Some(CustomerCancelled),
        None);
      Done(EmitAll(db.(order := row), snap, CancelSteps(ctx), TIMEOUT_COMPENSATING))
  }

  function CancelOrder(db: Db): Outcome {
    ConcludeCancel(db, db.order, BuildCtx(db.steps, false))
  }

  /** The rows PlaceOrder commits. */
  function PlaceOrder(nextId: Id): Db {
    var row := OrderRow(Pending, 0, None, None, None, None);
    EmitAll(Db(row, map[], {}, {}, [], nextId), row, Start().emit, Start().deadline)
  }

  // ----- what a batch of commands does to the rows

  function StepsOf(cmds: set<Command>): set<Step> {
    set k | k in cmds :: k.step
  }

  ghost predicate Identified(row: OrderRow, rid: Id, pid: Id) {
    row.resId == Some(rid) && row.payId == Some(pid)
  }

  /**
   `after` adds to `before` commands with fresh ids from `lo` to `hi`, for steps in `emit`, under the order's two ids.
   */
  ghost predicate FreshCommands(before: set<Command>, after: set<Command>, emit: seq<Step>, lo: Id, hi: Id, rid: Id,
      pid: Id) {
    && before <= after
    && lo <= hi
    && (forall k :: k in after && k !in before ==>
          k.step in emit && lo <= k.id < hi && k.resId == rid && k.payId == pid)
    && (forall k, l :: k in after && k !in before && l in after && l !in before && k.id == l.id ==> k == l)
    && (Distinct(emit) ==>
          forall k, l :: k in after && k !in before && l in after && l !in before && k.step == l.step ==> k == l)
  }

  /** `after` is `before` plus fresh commands for exactly the steps in `emit`. */
  ghost predicate Emitted(before: Db, after: Db, emit: seq<Step>, timed: bool, rid: Id, pid: Id) {
    && after == before.(cmds := after.cmds, steps := after.steps, nextId := after.nextId)
    && FreshCommands(before.cmds, after.cmds, emit, before.nextId, after.nextId, rid, pid)
    && (forall s :: s in emit ==> exists k :: k in after.cmds && k !in before.cmds && k.step == s)
    && RowsSent(before.steps, after.steps, emit, timed)
  }

  /** The steps in `emit` are SENT in `after`; the others are as in `before`. */
  ghost predicate RowsSent(before: map<Step, StepRow>, after: map<Step, StepRow>, emit: seq<Step>, timed: bool) {
    && (forall s :: s in emit ==> s in after && !after[s].acked && after[s].timed == timed)
    && (forall s :: s !in emit ==> (s in after <==> s in before) && (s in before ==> after[s] == before[s]))
  }

  /** The commands EmitAll writes, in closed form. */
  function NewCommands(emit: seq<Step>, lo: Id, rid: Id, pid: Id): set<Command> {
    set i | 0 <= i < |emit| :: Command(lo + 3 * i + 2, emit[i], rid, pid)
  }

  lemma NewCommandsSplit(emit: seq<Step>, lo: Id, rid: Id, pid: Id)
    requires emit != []
    ensures NewCommands(emit, lo, rid, pid) ==
      {Command(lo + 2, emit[0], rid, pid)} + NewCommands(emit[1..], lo + 3, rid, pid)
  {
    forall k | k in NewCommands(emit, lo, rid, pid)
      ensures k in {Command(lo + 2, emit[0], rid, pid)} + NewCommands(emit[1..], lo + 3, rid, pid)
    {
      var i :| 0 <= i < |emit| && k == Command(lo + 3 * i + 2, emit[i], rid, pid);
      if i > 0 { assert emit[1..][i - 1] == emit[i] && lo + 3 + 3 * (i - 1) + 2 == lo + 3 * i + 2; }
    }
    forall k | k in NewCommands(emit[1..], lo + 3, rid, pid)
      ensures k in NewCommands(emit, lo, rid, pid)
    {
      var i :| 0 <= i < |emit[1..]| && k == Command(lo + 3 + 3 * i + 2, emit[1..][i], rid, pid);
      assert k == Command(lo + 3 * (i + 1) + 2, emit[i + 1], rid, pid);
    }
    assert Command(lo + 3 * 0 + 2, emit[0], rid, pid) in NewCommands(emit, lo, rid, pid);
  }

  lemma {:induction false} EmitAllWrites(db: Db, snap: OrderRow, emit: seq<Step>, deadline: nat, rid: Id, pid: Id)
    requires Identified(snap, rid, pid) && Identified(db.order, rid, pid)
    ensures var out := EmitAll(db, snap, emit, deadline);
      out == db.(cmds := db.cmds + NewCommands(emit, db.nextId, rid, pid), steps := out.steps,
        nextId := db.nextId + 3 * |emit|)
    decreases |emit|
  {
    if emit != [] {
      EmitAllWrites(EmitCommand(db, snap, emit[0], deadline), snap, emit[1..], deadline, rid, pid);
      NewCommandsSplit(emit, db.nextId, rid, pid);
    }
  }

  lemma {:induction false} EmitAllRecords(db: Db, snap: OrderRow, emit: seq<Step>, deadline: nat)
    ensures RowsSent(db.steps, EmitAll(db, snap, emit, deadline).steps, emit, deadline > 0)
    decreases |emit|
  {
    if emit != [] {
      var one := EmitCommand(db, snap, emit[0], deadline);
      EmitAllRecords(one, snap, emit[1..], deadline);
      assert emit == [emit[0]] + emit[1..];
    }
  }

  lemma NewCommandsHaveIds(emit: seq<Step>, lo: Id, rid: Id, pid: Id)
    ensures forall k :: k in NewCommands(emit, lo, rid, pid) ==>
      k.step in emit && lo <= k.id < lo + 3 * |emit| && k.resId == rid && k.payId == pid
  {
    forall k | k in NewCommands(emit, lo, rid, pid)
      ensures k.step in emit && lo <= k.id < lo + 3 * |emit| && k.resId == rid && k.payId == pid
    {
      var i :| 0 <= i < |emit| && k == Command(lo + 3 * i + 2, emit[i], rid, pid);
    }
  }

  lemma NewCommandsAreOne(k: Command, l: Command, emit: seq<Step>, lo: Id, rid: Id, pid: Id)
    requires k in NewCommands(emit, lo, rid, pid) && l in NewCommands(emit, lo, rid, pid)
    requires k.id == l.id || (Distinct(emit) && k.step == l.step)
    ensures k == l
  {
    var i :| 0 <= i < |emit| && k == Command(lo + 3 * i + 2, emit[i], rid, pid);
    var j :| 0 <= j < |emit| && l == Command(lo + 3 * j + 2, emit[j], rid, pid);
    assert i == j;
  }

  lemma EveryStepHasCommand(emit: seq<Step>, lo: Id, rid: Id, pid: Id)
    ensures forall s :: s in emit ==> exists k :: k in NewCommands(emit, lo, rid, pid) && k.step == s
  {
    forall s | s in emit
      ensures exists k :: k in NewCommands(emit, lo, rid, pid) && k.step == s
    {
      var i :| 0 <= i < |emit| && emit[i] == s;
      assert Command(lo + 3 * i + 2, emit[i], rid, pid) in NewCommands(emit, lo, rid, pid);
    }
  }

  lemma NewCommandsAreFresh(before: set<Command>, after: set<Command>, emit: seq<Step>, lo: Id, rid: Id, pid: Id)
    requires forall k :: k in before ==> k.id < lo
    requires after == before + NewCommands(emit, lo, rid, pid)
    ensures FreshCommands(before, after, emit, lo, lo + 3 * |emit|, rid, pid)
    ensures forall s :: s in emit ==> exists k :: k in after && k !in before && k.step == s
  {
    hide NewCommands, Distinct;
    NewCommandsHaveIds(emit, lo, rid, pid);
    EveryStepHasCommand(emit, lo, rid, pid);
    forall k, l | k in after && k !in before && l in after && l !in before &&
      (k.id == l.id || (Distinct(emit) && k.step == l.step))
      ensures k == l
    {
      NewCommandsAreOne(k, l, emit, lo, rid, pid);
    }
  }

  lemma EmitAllShape(db: Db, snap: OrderRow, emit: seq<Step>, deadline: nat, rid: Id, pid: Id)
    requires Identified(snap, rid, pid) && Identified(db.order, rid, pid)
    requires forall k :: k in db.cmds ==> k.id < db.nextId
    ensures Emitted(db, EmitAll(db, snap, emit, deadline), emit, deadline > 0, rid, pid)
  {
    EmitAllWrites(db, snap, emit, deadline, rid, pid);
    EmitAllRecords(db, snap, emit, deadline);
    NewCommandsAreFresh(db.cmds, EmitAll(db, snap, emit, deadline).cmds, emit, db.nextId, rid, pid);
  }
}
