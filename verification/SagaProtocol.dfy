/**
 The checkout saga as a distributed protocol, for one order: order-service's transactions,
 the inventory participant behind its inbox, an abstract payment participant, and a network
 in which every message ever sent stays deliverable. Order-service transactions appear both
 whole and split into read, read and commit, so that handlers may act on stale reads.
 */
module SagaProtocol {
  import opened Basics
  import opened SagaMachine
  import opened Orchestrator
  import opened ReservationRow

  predicate ForInventory(s: Step) {
    s == Reserve || s == Release || s == Commit
  }

  // ----- the whole order

  datatype Source = FromEvent(ev: Event) | FromTimeout | FromCustomer

  /** A handler's transaction in progress: the order row it read and, once loaded, the step facts it read after that. */
  datatype Txn = Begun(who: nat, src: Source, snap: OrderRow) | Loaded(who: nat, src: Source, snap: OrderRow, ctx: Ctx)

  datatype Cell = Cell(
    db: Db,
    resv: Option<Resv>,
    claimed: set<Id>,
    pending: set<Command>,
    failing: set<Command>,
    events: set<Event>,
    answered: set<Id>,
    txns: set<Txn>)

  datatype Action =
    | Deliver(ev: Event)
    | Sweep(row: Step)
    | ForcedTimeout
    | CustomerCancel
    | Begin(who: nat, src: Source)
    | Load(txn: Txn)
    | Finish(txn: Txn)
    | Abandon(txn: Txn)
    | Claim(cmd: Command)
    | Crash(cmd: Command)
    | Run(cmd: Command, inStock: bool)
    | PublishFailure(cmd: Command)
    | Expire
    | Answer(cmd: Command, trigger: Trigger, why: Option<Reason>, retriable: bool)
    | AnswerAgain(cmd: Command, trigger: Trigger, why: Option<Reason>, retriable: bool)

  function Place(firstId: Id): Cell {
    Cell(PlaceOrder(firstId), None, {}, {}, {}, {}, {}, {})
  }

  function Retriable(src: Source): bool {
    src.FromEvent? && src.ev.retriable
  }

  /** The commit of an order-service transaction that read `snap` and then `ctx`. */
  function FinishTxn(db: Db, src: Source, snap: OrderRow, ctx: Ctx): Outcome {
    match src
    case FromEvent(ev) => Conclude(db, snap, ctx, ev)
    case FromTimeout => ConcludeTimeout(db, snap, ctx)
    case FromCustomer => ConcludeCancel(db, snap, ctx)
  }

  /** The same transaction with nothing in between. */
  function WholeTxn(c: Cell, src: Source): Cell {
    c.(db := After(c.db, FinishTxn(c.db, src, c.db.order, BuildCtx(c.db.steps, Retriable(src)))))
  }

  /** The reason code of an inventory event; only a failed reservation carries one. */
  function ReasonOf(t: Trigger): Option<Reason> {
    if t == OnReserveFailed then Some(InsufficientStock) else None
  }

  function Publish(c: Cell, t: Option<Trigger>, rid: Id): Cell {
    if t.None? then c
    else c.(events := c.events + {Event(c.db.nextId, t.value, Some(rid), None, ReasonOf(t.value), false)},
            db := c.db.(nextId := c.db.nextId + 1))
  }

  predicate Answers(s: Step, t: Trigger) {
    match s
    case Authorize => t == OnAuthorized || t == OnAuthFailed
    case Capture => t == OnCaptured
    case Void => t == OnVoided
    case _ => false
  }

  function PaymentSays(c: Cell, cmd: Command, t: Trigger, why: Option<Reason>, retriable: bool): Cell {
    c.(answered := c.answered + {cmd.id},
       events := c.events + {Event(c.db.nextId, t, None, Some(cmd.payId), why, retriable)},
       db := c.db.(nextId := c.db.nextId + 1))
  }

  predicate CanBegin(c: Cell, src: Source) {
    match src
    case FromEvent(ev) => ev in c.events
    case FromTimeout => !IsTerminal(c.db.order.status)
    case FromCustomer => true
  }

  /** One step; an action that is not enabled changes nothing. */
  function Act(c: Cell, a: Action): Cell {
    match a
    case Deliver(ev) => if ev in c.events then WholeTxn(c, FromEvent(ev)) else c
    case Sweep(row) =>
      if OverdueRow(c.db.steps, row) && !IsTerminal(c.db.order.status)
      then c.(db := After(c.db, Fire(c.db, row))) else c
    case ForcedTimeout => if !IsTerminal(c.db.order.status) then WholeTxn(c, FromTimeout) else c
    case CustomerCancel => WholeTxn(c, FromCustomer)
    case Begin(who, src) => if CanBegin(c, src) then c.(txns := c.txns + {Begun(who, src, c.db.order)}) else c
    case Load(txn) =>
      if txn in c.txns && txn.Begun?
      then
        var ctx := BuildCtx(c.db.steps, Retriable(txn.src));
        c.(txns := c.txns - {txn} + {Loaded(txn.who, txn.src, txn.snap, ctx)})
      else c
    case Finish(txn) =>
      if txn in c.txns && txn.Loaded?
      then c.(db := After(c.db, FinishTxn(c.db, txn.src, txn.snap, txn.ctx)), txns := c.txns - {txn}) else c
    case Abandon(txn) => c.(txns := c.txns - {txn})
    case Claim(cmd) =>
      if cmd in c.db.cmds && ForInventory(cmd.step) && cmd.id !in c.claimed
      then c.(claimed := c.claimed + {cmd.id}, pending := c.pending + {cmd}) else c
    case Crash(cmd) => c.(pending := c.pending - {cmd}, failing := c.failing - {cmd})
    case Run(cmd, inStock) =>
      if cmd in c.pending then
        var r := Participant(c.resv, cmd.step, cmd.resId, inStock);
        Publish(c.(pending := c.pending - {cmd}, resv := r.resv,
                   failing := if r.failing then c.failing + {cmd} else c.failing), r.event, cmd.resId)
      else c
    case PublishFailure(cmd) =>
      if cmd in c.failing then
        var r := FailureRow(c.resv, cmd.resId);
        Publish(c.(failing := c.failing - {cmd}, resv := r.resv), r.event, cmd.resId)
      else c
    case Expire =>
      if c.resv.Some? && c.resv.value.state == Reserved
      then Publish(c.(resv := Some(Resv(c.resv.value.id, Released))), Some(OnReleased), c.resv.value.id) else c
    case Answer(cmd, t, why, retriable) =>
      if cmd in c.db.cmds && cmd.id !in c.answered && Answers(cmd.step, t)
      then PaymentSays(c, cmd, t, why, retriable) else c
    case AnswerAgain(cmd, t, why, retriable) =>
      if cmd in c.db.cmds && Answers(cmd.step, t) then PaymentSays(c, cmd, t, why, retriable) else c
  }

  function Exec(c: Cell, acts: seq<Action>): Cell
    decreases |acts|
  {
    if acts == [] then c else Exec(Act(c, acts[0]), acts[1..])
  }

  // ----- the invariant

  function Told(c: Cell): set<Trigger> {
    set e | e in c.events :: e.trigger
  }

  function Sent(c: Cell): set<Step> {
    StepsOf(c.db.cmds)
  }

  predicate Is(r: Option<Resv>, s: ResvState) {
    r.Some? && r.value.state == s
  }

  /** The reservation can never hold or deduct a unit again. */
  predicate Settled(r: Option<Resv>) {
    Is(r, Released) || Is(r, Failed)
  }

  /** Every id the order ever uses is the one minted with its first command. */
  ghost predicate OneIdentity(c: Cell, rid: Id, pid: Id) {
    && Identified(c.db.order, rid, pid)
    && (forall k :: k in c.db.cmds ==> k.resId == rid && k.payId == pid && k.id < c.db.nextId)
    && (forall k, l :: k in c.db.cmds && l in c.db.cmds && k.id == l.id ==> k == l)
    && (forall e :: e in c.events ==>
          e.id < c.db.nextId && (e.resId.Some? ==> e.resId.value == rid) && (e.payId.Some? ==> e.payId.value == pid))
    && (c.resv.Some? ==> c.resv.value.id == rid)
    && (forall x :: x in c.txns ==> Identified(x.snap, rid, pid))
  }

  /** RESERVE is sent once, so behind the inbox it is applied at most once. */
  ghost predicate OneReserve(c: Cell) {
    && (forall k, l :: k in c.db.cmds && l in c.db.cmds && k.step == Reserve && l.step == Reserve ==> k == l)
    && (forall k :: k in c.pending + c.failing ==> k in c.db.cmds && k.id in c.claimed)
    && (forall k :: k in c.failing ==> k.step == Reserve && k !in c.pending)
    && (Is(c.resv, Reserved) || Is(c.resv, Committed) ==>
          c.failing == {} && forall k :: k in c.db.cmds && k.step == Reserve ==> k.id in c.claimed && k !in c.pending)
  }

  /** Which commands exist in which states: COMMIT and compensation never coexist. */
  ghost predicate CommandsFit(s: State, sent: set<Step>) {
    && (Authorize in sent ==> s != Pending)
    && (Commit in sent ==> RollbackForbidden(s))
    && (Capture in sent ==> s == StockCommitted || s == Confirmed)
    && (Release in sent || Void in sent ==> s == Compensating || s == Cancelled)
  }

  /** What the order's state says about events that were really emitted. */
  ghost predicate StatusEvidence(s: State, told: set<Trigger>) {
    && (s == StockReserved || RollbackForbidden(s) ==> OnReserved in told)
    && (RollbackForbidden(s) ==> OnAuthorized in told)
    && (s == StockCommitted || s == Confirmed ==> OnCommitted in told)
    && (s == Confirmed ==> OnCaptured in told)
    && (s == Cancelled ==> OnReleased in told || OnReserveFailed in told)
  }

  /** What inventory's events say about the reservation, for ever after. */
  ghost predicate EventsEvidence(r: Option<Resv>, told: set<Trigger>) {
    && (OnReserved in told ==> r.Some? && !Is(r, Failed))
    && (OnCommitted in told ==> Is(r, Committed))
    && (OnReleased in told || OnReserveFailed in told ==> Settled(r))
  }

  ghost predicate Evidenced(c: Cell) {
    && StatusEvidence(c.db.order.status, Told(c))
    && EventsEvidence(c.resv, Told(c))
    && (Is(c.resv, Committed) ==> Commit in Sent(c))
    && (Acked(c.db.steps, Release) ==> OnReleased in Told(c))
    && SatisfiesChecks(c.db.order)
    && c.db.notices == (if IsTerminal(c.db.order.status) then [c.db.order.status] else [])
  }

  /** A read is older than the row, and is the row itself while the version has not moved. */
  ghost predicate ReadIsPast(c: Cell, src: Source, snap: OrderRow) {
    && snap.version <= c.db.order.version
    && (snap.version == c.db.order.version ==> snap.status == c.db.order.status)
    && Leads(snap.status, c.db.order.status)
    && (src.FromEvent? ==> src.ev in c.events)
  }

  ghost predicate CtxIsPast(c: Cell, ctx: Ctx) {
    ctx.inventorySettled ==> OnReleased in Told(c)
  }

  ghost predicate TxnsArePast(c: Cell) {
    forall x :: x in c.txns ==> ReadIsPast(c, x.src, x.snap) && (x.Loaded? ==> CtxIsPast(c, x.ctx))
  }

  ghost predicate Safe(c: Cell, rid: Id, pid: Id) {
    && OneIdentity(c, rid, pid)
    && OneReserve(c)
    && CommandsFit(c.db.order.status, Sent(c))
    && Evidenced(c)
    && TxnsArePast(c)
  }

  // ----- preservation

  /** What a committed order-service transaction does to the rows, in terms of the decision alone. */
  ghost predicate Moved(before: Db, after: Db, snap: OrderRow, t: Trigger, d: Decision, rid: Id, pid: Id) {
    && FreshCommands(before.cmds, after.cmds, d.emit, before.nextId, after.nextId, rid, pid)
    && StepsOf(after.cmds) == StepsOf(before.cmds) + (set s | s in d.emit)
    && Identified(after.order, rid, pid)
    && SatisfiesChecks(after.order)
    && (if d.next == snap.status
        then after.order == before.order && after.notices == before.notices
        else && before.order.version == snap.version
             && after.order.status == d.next && after.order.version == before.order.version + 1
             && after.notices == (if IsTerminal(d.next) then before.notices + [d.next] else before.notices))
    && (Acked(after.steps, Release) ==> Acked(before.steps, Release) || t == OnReleased)
  }

  /** The step rows after the transaction: what it acknowledged, then what it sent. */
  ghost predicate RowsMoved(before: Db, after: Db, t: Trigger, d: Decision) {
    var acked := AckEvidence(before, t).steps;
    && after.inbox == before.inbox
    && RowsSent(acked, after.steps, d.emit, d.deadline > 0)
    && (forall s :: s in d.emit ==> exists k :: k in after.cmds && k !in before.cmds && k.step == s)
  }

  lemma SentGrows(before: Db, after: Db, emit: seq<Step>, timed: bool, rid: Id, pid: Id)
    requires Emitted(before, after, emit, timed, rid, pid)
    ensures StepsOf(after.cmds) == StepsOf(before.cmds) + (set s | s in emit)
  {
    forall s | s in StepsOf(after.cmds)
      ensures s in StepsOf(before.cmds) + (set s | s in emit)
    {
      var k :| k in after.cmds && k.step == s;
    }
    forall s | s in emit
      ensures s in StepsOf(after.cmds)
    {
      var k :| k in after.cmds && k !in before.cmds && k.step == s;
    }
  }

  lemma EmittedMoves(db: Db, base: Db, mid: Db, snap: OrderRow, t: Trigger, d: Decision, rid: Id, pid: Id)
    requires base == AckEvidence(db, t).(order := base.order)
    requires Identified(base.order, rid, pid) && SatisfiesChecks(base.order)
    requires d.next == snap.status ==> base.order == db.order && !IsTerminal(d.next)
    requires d.next != snap.status ==> db.order.version == snap.version
    requires d.next != snap.status ==> base.order.status == d.next && base.order.version == db.order.version + 1
    requires Emitted(base, mid, d.emit, d.deadline > 0, rid, pid)
    ensures Moved(db, Announce(mid, d.next), snap, t, d, rid, pid)
    ensures RowsMoved(db, Announce(mid, d.next), t, d)
  {
    SentGrows(base, mid, d.emit, d.deadline > 0, rid, pid);
    assert Acked(mid.steps, Release) ==> Acked(base.steps, Release);
  }

  lemma ApplyMoves(db: Db, snap: OrderRow, e: Evidence, d: Decision, rid: Id, pid: Id)
    requires Identified(db.order, rid, pid) && Identified(snap, rid, pid) && SatisfiesChecks(db.order)
    requires forall k :: k in db.cmds ==> k.id < db.nextId
    requires e.resId.Some? ==> e.resId.value == rid
    requires e.payId.Some? ==> e.payId.value == pid
    requires d.ackOnly ==> d.next == snap.status && d.emit == []
    requires snap.status == d.next && IsTerminal(d.next) ==> d.ackOnly
    requires Apply(db, snap, e, d).Done?
    ensures Moved(db, Apply(db, snap, e, d).db, snap, e.trigger, d, rid, pid)
    ensures RowsMoved(db, Apply(db, snap, e, d).db, e.trigger, d)
  {
    var acked := AckEvidence(db, e.trigger);
    if d.ackOnly {
      assert Apply(db, snap, e, d).db == acked;
      assert StepsOf(acked.cmds) == StepsOf(db.cmds) + (set s | s in d.emit);
    } else {
      var base := acked;
      if d.next != snap.status {
        var reason := if d.next == Cancelled then PickReason(d.reason, e.reason, snap.reason) else None;
        base := acked.(order := UpdatedRow(acked.order, d.next, e, reason, d.failedStep));
      }
      EmitAllShape(base, snap, d.emit, d.deadline, rid, pid);
      EmittedMoves(db, base, EmitAll(base, snap, d.emit, d.deadline), snap, e.trigger, d, rid, pid);
    }
  }

  /** An order-service transaction keeps the invariant, however old the rows it read. */
  lemma MoveIsSafe(c: Cell, after: Db, src: Source, snap: OrderRow, t: Trigger, ctx: Ctx, d: Decision, rid: Id, pid: Id)
    requires Safe(c, rid, pid)
    requires ReadIsPast(c, src, snap) && CtxIsPast(c, ctx)
    requires t == OnTimeout || t in Told(c)
    requires Lawful(snap.status, t, ctx, d)
    requires Moved(c.db, after, snap, t, d, rid, pid)
    ensures Safe(c.(db := after), rid, pid)
  {
    var c' := c.(db := after);
    assert Told(c') == Told(c);
    MoveKeepsIdentity(c, after, snap, t, d, rid, pid);
    MoveKeepsReserve(c, after, snap, t, ctx, d, rid, pid);
    assert CommandsFit(after.order.status, Sent(c'));
    assert Evidenced(c');
    assert TxnsArePast(c');
  }

  lemma MoveKeepsIdentity(c: Cell, after: Db, snap: OrderRow, t: Trigger, d: Decision, rid: Id, pid: Id)
    requires OneIdentity(c, rid, pid)
    requires Moved(c.db, after, snap, t, d, rid, pid)
    ensures OneIdentity(c.(db := after), rid, pid)
  {
  }

  lemma MoveKeepsReserve(c: Cell, after: Db, snap: OrderRow, t: Trigger, ctx: Ctx, d: Decision, rid: Id, pid: Id)
    requires OneReserve(c)
    requires Lawful(snap.status, t, ctx, d)
    requires Moved(c.db, after, snap, t, d, rid, pid)
    ensures OneReserve(c.(db := after))
  {
  }

  lemma EventIsSafe(c: Cell, ev: Event, snap: OrderRow, ctx: Ctx, rid: Id, pid: Id)
    requires Safe(c, rid, pid)
    requires Identified(snap, rid, pid) && ReadIsPast(c, FromEvent(ev), snap) && CtxIsPast(c, ctx)
    ensures Safe(c.(db := After(c.db, Conclude(c.db, snap, ctx, ev))), rid, pid)
  {
    var o := Conclude(c.db, snap, ctx, ev);
    if o.Done? {
      NextIsLawful(snap.status, ev.trigger, ctx);
      var d := Next(snap.status, ev.trigger, ctx).decision;
      ApplyMoves(c.db.(inbox := c.db.inbox + {ev.id}), snap, EvidenceOf(ev), d, rid, pid);
      assert ev.trigger in Told(c);
      MoveIsSafe(c, o.db, FromEvent(ev), snap, ev.trigger, ctx, d, rid, pid);
    }
  }

  lemma TimeoutIsSafe(c: Cell, snap: OrderRow, ctx: Ctx, rid: Id, pid: Id)
    requires Safe(c, rid, pid)
    requires Identified(snap, rid, pid) && ReadIsPast(c, FromTimeout, snap) && CtxIsPast(c, ctx)
    ensures Safe(c.(db := After(c.db, ConcludeTimeout(c.db, snap, ctx))), rid, pid)
  {
    var o := ConcludeTimeout(c.db, snap, ctx);
    if o.Done? {
      NextIsLawful(snap.status, OnTimeout, ctx);
      var d := Next(snap.status, OnTimeout, ctx).decision;
      ApplyMoves(c.db, snap, TimeoutEvidence(snap), d, rid, pid);
      MoveIsSafe(c, o.db, FromTimeout, snap, OnTimeout, ctx, d, rid, pid);
    }
  }

  lemma CancelIsSafe(c: Cell, snap: OrderRow, ctx: Ctx, rid: Id, pid: Id)
    requires Safe(c, rid, pid)
    requires Identified(snap, rid, pid) && ReadIsPast(c, FromCustomer, snap) && CtxIsPast(c, ctx)
    ensures Safe(c.(db := After(c.db, ConcludeCancel(c.db, snap, ctx))), rid, pid)
  {
    hide OneReserve, CommandsFit, StatusEvidence, EventsEvidence, TxnsArePast, Moved, RowsMoved, EmitAll;
    var o := ConcludeCancel(c.db, snap, ctx);
    if o.Done? {
      CancelMoves(c.db, snap, ctx, rid, pid);
      MoveIsSafe(c, o.db, FromCustomer, snap, OnTimeout, ctx, Go(Compensating, CancelSteps(ctx), TIMEOUT_COMPENSATING),
        rid, pid);
    }
  }

  lemma FinishIsSafe(c: Cell, src: Source, snap: OrderRow, ctx: Ctx, rid: Id, pid: Id)
    requires Safe(c, rid, pid)
    requires Identified(snap, rid, pid) && ReadIsPast(c, src, snap) && CtxIsPast(c, ctx)
    ensures Safe(c.(db := After(c.db, FinishTxn(c.db, src, snap, ctx))), rid, pid)
  {
    match src
    case FromEvent(ev) => EventIsSafe(c, ev, snap, ctx, rid, pid);
    case FromTimeout => TimeoutIsSafe(c, snap, ctx, rid, pid);
    case FromCustomer => CancelIsSafe(c, snap, ctx, rid, pid);
  }

  lemma CancelMoves(db: Db, snap: OrderRow, ctx: Ctx, rid: Id, pid: Id)
    requires Identified(db.order, rid, pid) && Identified(snap, rid, pid)
    requires forall k :: k in db.cmds ==> k.id < db.nextId
    requires ConcludeCancel(db, snap, ctx).Done?
    ensures Moved(db, ConcludeCancel(db, snap, ctx).db, snap, OnTimeout,
                  Go(Compensating, CancelSteps(ctx), TIMEOUT_COMPENSATING), rid, pid)
    ensures RowsMoved(db, ConcludeCancel(db, snap, ctx).db, OnTimeout,
      Go(Compensating, CancelSteps(ctx), TIMEOUT_COMPENSATING))
  {
    var d := Go(Compensating, CancelSteps(ctx), TIMEOUT_COMPENSATING);
    var row := UpdatedRow(db.order, Compensating, Evidence(OnTimeout, None, None, None), Some(CustomerCancelled), None);
    var base := db.(order := row);
    EmitAllShape(base, snap, d.emit, d.deadline, rid, pid);
    EmittedMoves(db, base, EmitAll(base, snap, d.emit, d.deadline), snap, OnTimeout, d, rid, pid);
  }

  /** A reply from inventory: a fresh event that the reservation row already bears out. */
  lemma PublishIsSafe(c: Cell, t: Option<Trigger>, rid: Id, pid: Id)
    requires Safe(c, rid, pid)
    requires t.Some? ==> EventsEvidence(c.resv, {t.value})
    ensures Safe(Publish(c, t, rid), rid, pid)
  {
    var c' := Publish(c, t, rid);
    if t.Some? {
      var e := Event(c.db.nextId, t.value, Some(rid), None, ReasonOf(t.value), false);
      assert e in c'.events;
      assert Told(c') == Told(c) + {t.value};
      assert Sent(c') == Sent(c);
    }
  }

  lemma RunKeepsReserve(c: Cell, cmd: Command, r: Reply, inStock: bool, rid: Id, pid: Id)
    requires OneIdentity(c, rid, pid) && OneReserve(c) && cmd in c.pending
    requires r == Participant(c.resv, cmd.step, cmd.resId, inStock)
    ensures cmd.resId == rid
    ensures OneReserve(c.(pending := c.pending - {cmd}, resv := r.resv,
                          failing := if r.failing then c.failing + {cmd} else c.failing))
  {
    if cmd.step == Reserve && r.resv != c.resv {
      assert forall k :: k in c.failing ==> k == cmd;
    }
  }

  lemma RunKeepsEvidence(c: Cell, cmd: Command, r: Reply, inStock: bool, rid: Id, pid: Id)
    requires Safe(c, rid, pid) && cmd in c.pending
    requires r == Participant(c.resv, cmd.step, cmd.resId, inStock)
    ensures EventsEvidence(r.resv, Told(c)) && (r.event.Some? ==> EventsEvidence(r.resv, {r.event.value}))
    ensures Is(r.resv, Committed) ==> Commit in Sent(c)
    ensures r.resv.Some? ==> r.resv.value.id == rid
  {
    assert cmd.step in Sent(c);
  }

  lemma RunIsSafe(c: Cell, cmd: Command, inStock: bool, rid: Id, pid: Id)
    requires Safe(c, rid, pid) && cmd in c.pending
    ensures Safe(Act(c, Run(cmd, inStock)), rid, pid)
  {
    hide Participant, OneReserve, CommandsFit, StatusEvidence, EventsEvidence, SatisfiesChecks, Leads;
    var r := Participant(c.resv, cmd.step, cmd.resId, inStock);
    var m := c.(pending := c.pending - {cmd}, resv := r.resv,
                failing := if r.failing then c.failing + {cmd} else c.failing);
    RunKeepsReserve(c, cmd, r, inStock, rid, pid);
    RunKeepsEvidence(c, cmd, r, inStock, rid, pid);
    SameTraffic(c, m);
    PublishIsSafe(m, r.event, rid, pid);
  }

  /** Steps that touch neither the order's rows nor the events leave everything said of those in place. */
  lemma SameTraffic(c: Cell, m: Cell)
    requires m.db == c.db && m.events == c.events && m.txns == c.txns
    ensures Told(m) == Told(c) && Sent(m) == Sent(c)
    ensures TxnsArePast(c) ==> TxnsArePast(m)
  {
    assert forall x :: x in m.txns && ReadIsPast(c, x.src, x.snap) ==> ReadIsPast(m, x.src, x.snap);
  }

  lemma FailureIsSafe(c: Cell, cmd: Command, rid: Id, pid: Id)
    requires Safe(c, rid, pid) && cmd in c.failing
    ensures Safe(Act(c, PublishFailure(cmd)), rid, pid)
  {
    var r := FailureRow(c.resv, cmd.resId);
    var m := c.(failing := c.failing - {cmd}, resv := r.resv);
    assert Told(m) == Told(c) && Sent(m) == Sent(c);
    assert Safe(m, rid, pid);
    PublishIsSafe(m, r.event, rid, pid);
  }

  lemma ExpireIsSafe(c: Cell, rid: Id, pid: Id)
    requires Safe(c, rid, pid)
    ensures Safe(Act(c, Expire), rid, pid)
  {
    if Is(c.resv, Reserved) {
      var m := c.(resv := Some(Resv(rid, Released)));
      assert Told(m) == Told(c) && Sent(m) == Sent(c);
      PublishIsSafe(m, Some(OnReleased), rid, pid);
    }
  }

  lemma AnswerIsSafe(c: Cell, a: Action, rid: Id, pid: Id)
    requires Safe(c, rid, pid) && (a.Answer? || a.AnswerAgain?)
    ensures Safe(Act(c, a), rid, pid)
  {
    var c' := Act(c, a);
    if c' != c {
      var e := Event(c.db.nextId, a.trigger, None, Some(a.cmd.payId), a.why, a.retriable);
      assert c'.events == c.events + {e};
      assert Told(c') == Told(c) + {a.trigger};
      assert Sent(c') == Sent(c);
    }
  }

  lemma ReadingIsSafe(c: Cell, a: Action, rid: Id, pid: Id)
    requires Safe(c, rid, pid) && (a.Begin? || a.Load? || a.Claim? || a.Crash?)
    ensures Safe(Act(c, a), rid, pid)
  {
    hide CommandsFit, StatusEvidence, EventsEvidence, SatisfiesChecks, BuildCtx, IsTerminal, WholeTxn, Fire;
    var c' := Act(c, a);
    assert Told(c') == Told(c) && Sent(c') == Sent(c);
    if a.Claim? || a.Crash? {
      SameTraffic(c, c');
    } else {
      ReadsArePast(c, a, rid, pid);
    }
  }

  lemma ReadsArePast(c: Cell, a: Action, rid: Id, pid: Id)
    requires Safe(c, rid, pid) && (a.Begin? || a.Load?)
    ensures TxnsArePast(Act(c, a))
    ensures forall x :: x in Act(c, a).txns ==> Identified(x.snap, rid, pid)
  {
    hide CommandsFit, StatusEvidence, EventsEvidence, SatisfiesChecks, OneReserve, WholeTxn, Fire;
    var c' := Act(c, a);
    assert Told(c') == Told(c);
    forall x | x in c'.txns
      ensures ReadIsPast(c', x.src, x.snap) && (x.Loaded? ==> CtxIsPast(c', x.ctx))
    {
      if x in c.txns {
        assert ReadIsPast(c, x.src, x.snap);
      } else if a.Load? {
        assert ReadIsPast(c, a.txn.src, a.txn.snap);
      }
    }
  }

  lemma FewerTxns(c: Cell, some: set<Txn>, rid: Id, pid: Id)
    requires Safe(c, rid, pid) && some <= c.txns
    ensures Safe(c.(txns := some), rid, pid)
  {
    hide CommandsFit, StatusEvidence, EventsEvidence, SatisfiesChecks, Leads;
    var c' := c.(txns := some);
    assert Told(c') == Told(c) && Sent(c') == Sent(c);
    assert forall x :: x in some && ReadIsPast(c, x.src, x.snap) ==> ReadIsPast(c', x.src, x.snap);
  }

  lemma ActIsSafe(c: Cell, a: Action, rid: Id, pid: Id)
    requires Safe(c, rid, pid)
    ensures Safe(Act(c, a), rid, pid)
  {
    match a
    case Deliver(ev) =>
      if ev in c.events { FinishIsSafe(c, FromEvent(ev), c.db.order, BuildCtx(c.db.steps, ev.retriable), rid, pid); }
    case Sweep(row) =>
      if OverdueRow(c.db.steps, row) {
        assert c.db.steps[row := c.db.steps[row].(timed := true)] == c.db.steps;
        TimeoutIsSafe(c, c.db.order, BuildCtx(c.db.steps, false), rid, pid);
      }
    case ForcedTimeout => FinishIsSafe(c, FromTimeout, c.db.order, BuildCtx(c.db.steps, false), rid, pid);
    case CustomerCancel => FinishIsSafe(c, FromCustomer, c.db.order, BuildCtx(c.db.steps, false), rid, pid);
    case Finish(txn) =>
      if txn in c.txns && txn.Loaded? {
        FinishIsSafe(c, txn.src, txn.snap, txn.ctx, rid, pid);
        FewerTxns(c.(db := After(c.db, FinishTxn(c.db, txn.src, txn.snap, txn.ctx))), c.txns - {txn}, rid, pid);
      }
    case Abandon(txn) => FewerTxns(c, c.txns - {txn}, rid, pid);
    case Run(cmd, inStock) => if cmd in c.pending { RunIsSafe(c, cmd, inStock, rid, pid); }
    case PublishFailure(cmd) => if cmd in c.failing { FailureIsSafe(c, cmd, rid, pid); }
    case Expire => ExpireIsSafe(c, rid, pid);
    case Answer(_, _, _, _) => AnswerIsSafe(c, a, rid, pid);
    case AnswerAgain(_, _, _, _) => AnswerIsSafe(c, a, rid, pid);
    case _ => ReadingIsSafe(c, a, rid, pid);
  }

  lemma PlaceIsSafe(firstId: Id)
    ensures Safe(Place(firstId), firstId, firstId + 1)
  {
    var c := Place(firstId);
    assert Start().emit[1..] == [];
    assert c.db.cmds == {Command(firstId + 2, Reserve, firstId, firstId + 1)};
    assert Sent(c) == {Reserve};
  }

  lemma {:induction false} ExecIsSafe(c: Cell, acts: seq<Action>, rid: Id, pid: Id)
    requires Safe(c, rid, pid)
    ensures Safe(Exec(c, acts), rid, pid)
    decreases |acts|
  {
    if acts != [] {
      ActIsSafe(c, acts[0], rid, pid);
      ExecIsSafe(Act(c, acts[0]), acts[1..], rid, pid);
    }
  }

  // ----- safety, over every run

  /** An order that was committed is never compensated, and the two alarms that would say so never fire. */
  lemma CommitExcludesCompensation(firstId: Id, acts: seq<Action>)
    ensures var c := Exec(Place(firstId), acts);
      && !(Commit in Sent(c) && (Release in Sent(c) || Void in Sent(c)))
      && (Is(c.resv, Committed) ==> RollbackForbidden(c.db.order.status))
      && (Is(c.resv, Committed) ==> forall k :: k in c.db.cmds ==> k.step != Release)
      && (forall e :: e in c.events && e.trigger == OnCommitted ==> c.db.order.status != Compensating)
      && (forall x :: x in c.txns && x.src.FromEvent? && x.src.ev.trigger == OnCommitted ==>
            x.snap.status != Compensating)
  {
    var c := Exec(Place(firstId), acts);
    PlaceIsSafe(firstId);
    ExecIsSafe(Place(firstId), acts, firstId, firstId + 1);
    assert forall k :: k in c.db.cmds ==> k.step in Sent(c);
    assert forall e :: e in c.events ==> e.trigger in Told(c);
    forall x | x in c.txns && x.src.FromEvent? && x.src.ev.trigger == OnCommitted
      ensures x.snap.status != Compensating
    {
      assert ReadIsPast(c, x.src, x.snap);
    }
  }

  /** Everything the order ever sends or is told names one reservation and one payment. */
  lemma OneReservationOnePayment(firstId: Id, acts: seq<Action>)
    ensures var c := Exec(Place(firstId), acts);
      && (forall k, l :: k in c.db.cmds && l in c.db.cmds ==> k.resId == l.resId && k.payId == l.payId)
      && (forall k, e :: k in c.db.cmds && e in c.events ==>
            (e.resId.Some? ==> e.resId.value == k.resId) && (e.payId.Some? ==> e.payId.value == k.payId))
      && (forall k :: k in c.db.cmds && c.resv.Some? ==> c.resv.value.id == k.resId)
  {
    PlaceIsSafe(firstId);
    ExecIsSafe(Place(firstId), acts, firstId, firstId + 1);
  }

  lemma {:induction false} ExecSplits(c: Cell, acts: seq<Action>, more: seq<Action>)
    ensures Exec(c, acts + more) == Exec(Exec(c, acts), more)
    decreases |acts|
  {
    if acts == [] {
      assert acts + more == more;
    } else {
      assert (acts + more)[1..] == acts[1..] + more;
      ExecSplits(Act(c, acts[0]), acts[1..], more);
    }
  }

  lemma {:induction false} SettledStays(c: Cell, acts: seq<Action>)
    requires Settled(c.resv)
    ensures Settled(Exec(c, acts).resv)
    decreases |acts|
  {
    if acts != [] {
      SettledStays(Act(c, acts[0]), acts[1..]);
    }
  }

  /** A cancelled order holds no stock now or after any further events, and its money was never captured. */
  lemma CancelledHoldsNothing(firstId: Id, acts: seq<Action>, more: seq<Action>)
    requires Exec(Place(firstId), acts).db.order.status == Cancelled
    ensures var c := Exec(Place(firstId), acts + more);
      && c.db.order.status == Cancelled
      && Settled(c.resv)
      && Capture !in Sent(c) && Commit !in Sent(c)
      && c.db.notices == [Cancelled]
  {
    var c := Exec(Place(firstId), acts);
    PlaceIsSafe(firstId);
    ExecIsSafe(Place(firstId), acts, firstId, firstId + 1);
    SettledStays(c, more);
    ExecSplits(Place(firstId), acts, more);
    ExecIsSafe(c, more, firstId, firstId + 1);
    TerminalStays(c, more, firstId, firstId + 1);
  }

  lemma {:induction false} TerminalStays(c: Cell, acts: seq<Action>, rid: Id, pid: Id)
    requires Safe(c, rid, pid) && IsTerminal(c.db.order.status)
    ensures Exec(c, acts).db.order.status == c.db.order.status
    decreases |acts|
  {
    if acts != [] {
      ActIsSafe(c, acts[0], rid, pid);
      StatusAdvances(c, acts[0], rid, pid);
      TerminalStays(Act(c, acts[0]), acts[1..], rid, pid);
    }
  }

  /** One step moves the status only along the saga's shape, stale reads or not. */
  lemma StatusAdvances(c: Cell, a: Action, rid: Id, pid: Id)
    requires Safe(c, rid, pid)
    ensures Leads(c.db.order.status, Act(c, a).db.order.status)
  {
    hide Safe, FinishTxn, Fire, BuildCtx, Participant, FailureRow;
    if a.Finish? && a.txn !in c.txns {
      NoMove(c.db.order.status);
    } else {
      var who := if a.Load? || a.Finish? || a.Abandon? then a.txn.who + 1 else 0;
      var seen := Act(c, Begin(who, FromCustomer));
      ActIsSafe(c, Begin(who, FromCustomer), rid, pid);
      ActIsSafe(seen, a, rid, pid);
      var done := Act(seen, a);
      assert done.db == Act(c, a).db;
      SeenLeads(done, Begun(who, FromCustomer, c.db.order), rid, pid);
    }
  }

  lemma NoMove(s: State)
    ensures Leads(s, s)
  {
  }

  lemma SeenLeads(c: Cell, x: Txn, rid: Id, pid: Id)
    requires Safe(c, rid, pid) && x in c.txns
    ensures Leads(x.snap.status, c.db.order.status)
  {
    assert ReadIsPast(c, x.src, x.snap);
  }

  /** Money is captured only against stock that is already deducted. */
  lemma CaptureOnlyAfterCommit(firstId: Id, acts: seq<Action>)
    ensures var c := Exec(Place(firstId), acts);
      && (Capture in Sent(c) ==> Is(c.resv, Committed) && Void !in Sent(c))
      && (Is(c.resv, Committed) ==> OnAuthorized in Told(c) && Void !in Sent(c))
  {
    PlaceIsSafe(firstId);
    ExecIsSafe(Place(firstId), acts, firstId, firstId + 1);
  }

  /** This step runs CommitLine over the reservation's items. */
  predicate Deducts(c: Cell, a: Action) {
    a.Run? && a.cmd in c.pending && a.cmd.step == Commit && c.resv == Some(Resv(a.cmd.resId, Reserved))
  }

  function Deductions(c: Cell, acts: seq<Action>): nat
    decreases |acts|
  {
    if acts == [] then 0 else (if Deducts(c, acts[0]) then 1 else 0) + Deductions(Act(c, acts[0]), acts[1..])
  }

  lemma {:induction false} DeductionsCounted(c: Cell, acts: seq<Action>)
    ensures Deductions(c, acts) == (if Is(Exec(c, acts).resv, Committed) && !Is(c.resv, Committed) then 1 else 0)
    ensures Is(c.resv, Committed) ==> Is(Exec(c, acts).resv, Committed)
    decreases |acts|
  {
    if acts != [] {
      DeductionsCounted(Act(c, acts[0]), acts[1..]);
    }
  }

  /** COMMIT may be resent and redelivered, yet a confirmed order deducts once and a cancelled one never. */
  lemma StockDeductedExactlyOnce(firstId: Id, acts: seq<Action>)
    ensures var s := Exec(Place(firstId), acts).db.order.status;
      && Deductions(Place(firstId), acts) <= 1
      && (s == StockCommitted || s == Confirmed ==> Deductions(Place(firstId), acts) == 1)
      && (s == Compensating || s == Cancelled || s == Pending || s == StockReserved ==>
            Deductions(Place(firstId), acts) == 0)
  {
    PlaceIsSafe(firstId);
    ExecIsSafe(Place(firstId), acts, firstId, firstId + 1);
    DeductionsCounted(Place(firstId), acts);
  }

  lemma FinishPassesChecks(db: Db, src: Source, snap: OrderRow, ctx: Ctx)
    requires db.order.resId.Some? && db.order.payId.Some?
    ensures FinishTxn(db, src, snap, ctx) != CheckViolation
  {
    var t := if src.FromEvent? then src.ev.trigger else OnTimeout;
    if Next(snap.status, t, ctx).Ok? {
      NextIsLawful(snap.status, t, ctx);
    }
  }

  /** No transaction of any run is stopped by a CHECK constraint on `orders`. */
  lemma ChecksNeverFire(firstId: Id, acts: seq<Action>, txn: Txn)
    requires var c := Exec(Place(firstId), acts); txn in c.txns && txn.Loaded?
    ensures var c := Exec(Place(firstId), acts); FinishTxn(c.db, txn.src, txn.snap, txn.ctx) != CheckViolation
  {
    var c := Exec(Place(firstId), acts);
    PlaceIsSafe(firstId);
    ExecIsSafe(Place(firstId), acts, firstId, firstId + 1);
    FinishPassesChecks(c.db, txn.src, txn.snap, txn.ctx);
  }
}
