/**
 Which events the saga rejects as illegal, over every run of whole transactions: only a reservation expiring under it.
 */
module SagaLegal {
  import opened Basics
  import opened SagaMachine
  import opened Orchestrator
  import opened ReservationRow
  import opened SagaProtocol
  import opened SagaProgress
  import opened SagaTermination

  /**
   A reservation is announced at most once, never both as made and as failed, and nothing of RESERVE is left to run.
   */
  ghost predicate OneAnnouncement(c: Cell) {
    && (forall e, f :: e in c.events && f in c.events && e.trigger == OnReserved && f.trigger == OnReserved ==> e == f)
    && (OnReserved in Told(c) ==> OnReserveFailed !in Told(c) && c.failing == {})
    && (OnReserved in Told(c) ==> ReserveIsOver(c))
  }

  ghost predicate ReserveIsOver(c: Cell) {
    && (forall k :: k in c.pending ==> k.step != Reserve)
    && (forall k :: k in c.db.cmds && k.step == Reserve ==> k.id in c.claimed)
  }

  /** Once the order has moved on, the announcement has been processed. */
  ghost predicate Heard(c: Cell) {
    && OneAnnouncement(c)
    && (c.db.order.status == StockReserved || RollbackForbidden(c.db.order.status) ==>
          forall e :: e in c.events && e.trigger == OnReserved ==> e.id in c.db.inbox)
  }

  lemma TurnHears(c: Cell, src: Source, after: Db, t: Trigger, d: Decision, rid: Id, pid: Id)
    requires Safe(c, rid, pid) && Heard(c) && Turned(c, src, after, t, d, rid, pid)
    requires src.FromEvent? ==> src.ev in c.events
    ensures Heard(c.(db := after))
  {
    hide Turn, OneReserve, CommandsFit, Evidenced, TxnsArePast;
    var c' := c.(db := after);
    assert Told(c') == Told(c);
    TurnFacts(c, src, after, t, d, rid, pid);
    DecisionIsLawful(c.db.order.status, c.db.steps, src, t, d);
    NoNewReserve(c.db, after, t, d, rid, pid);
  }

  lemma NoNewReserve(before: Db, after: Db, t: Trigger, d: Decision, rid: Id, pid: Id)
    requires Turn(before, after, t, d, rid, pid) && Reserve !in d.emit
    ensures forall k :: k in after.cmds && k.step == Reserve ==> k in before.cmds
  {
  }

  lemma WholeHears(c: Cell, src: Source, rid: Id, pid: Id, free: bool)
    requires Live(c, rid, pid, free) && Heard(c) && (src.FromEvent? ==> src.ev in c.events)
    ensures Heard(WholeTxn(c, src))
  {
    hide Heard, Turned, Apply, EmitAll, Orderly, OneReserve, CommandsFit, TxnsArePast, Next;
    assert c.(db := c.db) == c;
    match src
    case FromEvent(ev) =>
      var o := Handle(c.db, ev);
      if o.Done? {
        EventIsTimeless(c, ev, rid, pid, free);
        var d := Next(c.db.order.status, ev.trigger, BuildCtx(c.db.steps, ev.retriable)).decision;
        EventTurns(c, ev, o.db, d, rid, pid);
        TurnHears(c, src, o.db, ev.trigger, d, rid, pid);
      }
    case FromTimeout =>
      var o := ConcludeTimeout(c.db, c.db.order, BuildCtx(c.db.steps, false));
      if o.Done? {
        var d := Next(c.db.order.status, OnTimeout, BuildCtx(c.db.steps, false)).decision;
        TimeoutTurns(c, o.db, d, rid, pid);
        TurnHears(c, src, o.db, OnTimeout, d, rid, pid);
      }
    case FromCustomer =>
      var o := CancelOrder(c.db);
      if o.Done? {
        CancelTurns(c, o.db, rid, pid);
        TurnHears(c, src, o.db, OnTimeout,
          Go(Compensating, CancelSteps(BuildCtx(c.db.steps, false)), TIMEOUT_COMPENSATING), rid, pid);
      }
  }

  lemma EventIsTimeless(c: Cell, ev: Event, rid: Id, pid: Id, free: bool)
    requires Live(c, rid, pid, free) && ev in c.events
    ensures ev.trigger != OnTimeout
  {
  }

  lemma QuietHears(c: Cell, a: Action, rid: Id, pid: Id, free: bool)
    requires Live(c, rid, pid, free) && Heard(c) && (AtInventory(a) || a.Answer?)
    ensures Heard(Act(c, a))
  {
    hide Orderly, CommandsFit, TxnsArePast;
    var c' := Act(c, a);
    QuietAnnounces(c, a, rid, pid, free);
    QuietStatus(c, a);
    if c'.events != c.events {
      forall e | e in c'.events && e.trigger == OnReserved &&
        (c.db.order.status == StockReserved || RollbackForbidden(c.db.order.status))
        ensures e in c.events
      {
        ReservedWasTold(c, rid, pid);
        assert exists f :: f in c.events && f.trigger == OnReserved;
      }
    }
  }

  lemma QuietStatus(c: Cell, a: Action)
    requires AtInventory(a) || a.Answer?
    ensures Act(c, a).db.order == c.db.order && Act(c, a).db.inbox == c.db.inbox && c.events <= Act(c, a).events
  {
  }

  lemma ReservedWasTold(c: Cell, rid: Id, pid: Id)
    requires Safe(c, rid, pid) && (c.db.order.status == StockReserved || RollbackForbidden(c.db.order.status))
    ensures OnReserved in Told(c)
  {
  }

  /** One new event that announces nothing, and nothing of RESERVE newly under way. */
  lemma OtherNews(c: Cell, c': Cell, e: Event)
    requires OneAnnouncement(c) && c'.events <= c.events + {e} && c.events <= c'.events
    requires e.trigger != OnReserved && (OnReserved in Told(c) ==> e.trigger != OnReserveFailed)
    requires OnReserved in Told(c) ==> c'.failing == {} && ReserveIsOver(c')
    ensures OneAnnouncement(c')
  {
    assert Told(c) <= Told(c') <= Told(c) + {e.trigger};
    assert forall f :: f in c.events ==> f.trigger in Told(c);
  }

  /** The announcement itself, the first. */
  lemma FirstNews(c: Cell, c': Cell, e: Event)
    requires OneAnnouncement(c) && c'.events == c.events + {e} && e.trigger == OnReserved
    requires OnReserved !in Told(c) && OnReserveFailed !in Told(c)
    requires c'.failing == {} && ReserveIsOver(c')
    ensures OneAnnouncement(c')
  {
    assert Told(c') == Told(c) + {OnReserved};
    assert forall f :: f in c.events ==> f.trigger in Told(c);
  }

  lemma RunAnnounces(c: Cell, a: Action, rid: Id, pid: Id)
    requires Safe(c, rid, pid) && OneAnnouncement(c) && a.Run? && a.cmd in c.pending
    ensures OneAnnouncement(Act(c, a))
  {
    hide OneAnnouncement, CommandsFit, TxnsArePast, StatusEvidence, OneIdentity;
    var c' := Act(c, a);
    var r := Participant(c.resv, a.cmd.step, a.cmd.resId, a.inStock);
    if OnReserved in Told(c) { AnnouncedFacts(c); }
    if r.event == Some(OnReserved) {
      var e := Event(c.db.nextId, OnReserved, Some(a.cmd.resId), None, ReasonOf(OnReserved), false);
      FirstRunFacts(c, a, rid, pid);
      FirstNews(c, c', e);
    } else {
      var t := if r.event.Some? then r.event.value else OnReleased;
      OtherNews(c, c', Event(c.db.nextId, t, Some(a.cmd.resId), None, ReasonOf(t), false));
    }
  }

  lemma AnnouncedFacts(c: Cell)
    requires OneAnnouncement(c) && OnReserved in Told(c)
    ensures c.failing == {} && ReserveIsOver(c)
  {
  }

  /** RESERVE runs once: when it succeeds nothing was announced before and nothing of it is left. */
  lemma FirstRunFacts(c: Cell, a: Action, rid: Id, pid: Id)
    requires Safe(c, rid, pid) && a.Run? && a.cmd in c.pending
    requires Participant(c.resv, a.cmd.step, a.cmd.resId, a.inStock).event == Some(OnReserved)
    ensures OnReserved !in Told(c) && OnReserveFailed !in Told(c)
    ensures Act(c, a).failing == {} && ReserveIsOver(Act(c, a))
  {
    hide CommandsFit, TxnsArePast, StatusEvidence, OneIdentity;
  }

  lemma QuietAnnounces(c: Cell, a: Action, rid: Id, pid: Id, free: bool)
    requires Safe(c, rid, pid) && OneAnnouncement(c) && (AtInventory(a) || a.Answer?)
    ensures OneAnnouncement(Act(c, a))
  {
    hide OneAnnouncement, Safe, Participant;
    if a.Run? && a.cmd in c.pending {
      RunAnnounces(c, a, rid, pid);
    } else if a.PublishFailure? || a.Expire? || a.Answer? {
      SpeakAnnounces(c, a);
    } else {
      SilentAnnounces(c, a, rid, pid);
    }
  }

  lemma SpeakAnnounces(c: Cell, a: Action)
    requires OneAnnouncement(c) && (a.PublishFailure? || a.Expire? || a.Answer?)
    ensures OneAnnouncement(Act(c, a))
  {
    hide OneAnnouncement;
    var c' := Act(c, a);
    if OnReserved in Told(c) { AnnouncedFacts(c); }
    if c'.events == c.events {
      OtherNews(c, c', Event(0, OnReleased, None, None, None, false));
    } else {
      var e :| e in c'.events && e !in c.events;
      assert c'.events == c.events + {e};
      OtherNews(c, c', e);
    }
  }

  lemma SilentAnnounces(c: Cell, a: Action, rid: Id, pid: Id)
    requires Safe(c, rid, pid) && OneAnnouncement(c) && (a.Claim? || a.Crash? || (a.Run? && a.cmd !in c.pending))
    ensures OneAnnouncement(Act(c, a))
  {
    hide CommandsFit, TxnsArePast, StatusEvidence, OneIdentity;
    var c' := Act(c, a);
    assert Told(c') == Told(c);
  }

  lemma ActHears(c: Cell, a: Action, rid: Id, pid: Id, free: bool)
    requires Live(c, rid, pid, free) && Heard(c) && Happens(a, free)
    ensures Heard(Act(c, a))
  {
    hide Live, Heard, FinishTxn, Fire;
    match a
    case Deliver(ev) => if ev in c.events { WholeHears(c, FromEvent(ev), rid, pid, free); }
    case Sweep(row) => SweepHears(c, row, rid, pid, free);
    case ForcedTimeout => WholeHears(c, FromTimeout, rid, pid, free);
    case CustomerCancel => WholeHears(c, FromCustomer, rid, pid, free);
    case _ => QuietHears(c, a, rid, pid, free);
  }

  lemma SweepHears(c: Cell, row: Step, rid: Id, pid: Id, free: bool)
    requires Live(c, rid, pid, free) && Heard(c)
    ensures Heard(Act(c, Sweep(row)))
  {
    hide Live, ConcludeTimeout, BuildCtx;
    if OverdueRow(c.db.steps, row) {
      WholeHears(c, FromTimeout, rid, pid, free);
      var c' := Act(c, Sweep(row));
      assert Told(c') == Told(c);
    }
  }

  lemma {:induction false} RunHears(c: Cell, acts: seq<Action>, rid: Id, pid: Id, free: bool)
    requires Live(c, rid, pid, free) && Heard(c) && forall a :: a in acts ==> Happens(a, free)
    ensures Live(Exec(c, acts), rid, pid, free) && Heard(Exec(c, acts))
    decreases |acts|
  {
    hide Live, Heard, Act;
    if acts != [] {
      assert acts[0] in acts;
      ActHears(c, acts[0], rid, pid, free);
      ActIsLive(c, acts[0], rid, pid, free);
      RunHears(Act(c, acts[0]), acts[1..], rid, pid, free);
    }
  }

  /** The triggers a state has a rule for. */
  function Accepted(s: State): set<Trigger> {
    match s
    case Pending => {OnReserved, OnReserveFailed, OnTimeout, OnReleased, OnVoided}
    case StockReserved => {OnReserved, OnAuthorized, OnAuthFailed, OnTimeout}
    case Paid => {OnAuthorized, OnCommitted, OnTimeout}
    case StockCommitted => {OnCommitted, OnCaptured, OnTimeout}
    case Compensating => {OnReserved, OnReserveFailed, OnReleased, OnAuthorized, OnAuthFailed, OnVoided, OnTimeout}
    case Confirmed | Cancelled =>
      {OnReserved, OnReserveFailed, OnReleased, OnAuthorized, OnAuthFailed, OnVoided, OnCommitted, OnCaptured,
        OnTimeout}
  }

  /** Whatever the step rows say, a state accepts exactly those; a terminal one accepts all and changes nothing. */
  lemma AcceptedTriggers(s: State, t: Trigger, ctx: Ctx)
    ensures Next(s, t, ctx).Ok? <==> t in Accepted(s)
    ensures IsTerminal(s) ==> Next(s, t, ctx) == Ok(Ack(s))
  {
  }

  /** What an order in a given state can still be told, other than by an expiring reservation. */
  lemma Acceptable(c: Cell, e: Event, rid: Id, pid: Id, free: bool)
    requires Live(c, rid, pid, free) && Heard(c) && e in c.events && e.id !in c.db.inbox
    ensures Next(c.db.order.status, e.trigger, BuildCtx(c.db.steps, e.retriable)).Illegal? <==>
      e.trigger == OnReleased && (c.db.order.status == StockReserved || c.db.order.status == Paid)
  {
    hide OneIdentity, OneReserve, TxnsArePast, RowsMatch, RowsTimed, BuildCtx, SettleOrWait;
    assert e.trigger in Told(c);
  }

  /**
   Over every run of whole transactions, an event that is not a repetition is applied, unless it reports the release of
   a reservation to an order in STOCK_RESERVED or PAID: that one, and only that one, is rejected as illegal.
   */
  lemma OnlyExpiryIsRejected(firstId: Id, acts: seq<Action>, e: Event)
    requires forall a :: a in acts ==> Happens(a, true)
    requires var c := Exec(Place(firstId), acts); e in c.events && e.id !in c.db.inbox
    ensures var c := Exec(Place(firstId), acts);
      && (Handle(c.db, e).Rejected? <==>
            e.trigger == OnReleased && (c.db.order.status == StockReserved || c.db.order.status == Paid))
      && (Handle(c.db, e).Rejected? || Handle(c.db, e).Done?)
  {
    hide Live, Heard, Exec, Place;
    var rid, pid := firstId, firstId + 1;
    PlaceIsLive(firstId, true);
    PlacedIsHeard(firstId);
    RunHears(Place(firstId), acts, rid, pid, true);
    var c := Exec(Place(firstId), acts);
    Acceptable(c, e, rid, pid, true);
    HandlesOrRejects(c, e, rid, pid);
  }

  lemma HandlesOrRejects(c: Cell, e: Event, rid: Id, pid: Id)
    requires Live(c, rid, pid, true) && e in c.events && e.id !in c.db.inbox
    ensures var v := Next(c.db.order.status, e.trigger, BuildCtx(c.db.steps, e.retriable));
      (v.Illegal? <==> Handle(c.db, e).Rejected?) && (v.Ok? <==> Handle(c.db, e).Done?)
  {
    hide Next, Orderly, OneReserve, CommandsFit, Evidenced, TxnsArePast, Apply;
    var v := Next(c.db.order.status, e.trigger, BuildCtx(c.db.steps, e.retriable));
    if v.Ok? { HandleCommits(c.db, e, v.decision, rid, pid); }
  }

  lemma PlacedIsHeard(firstId: Id)
    ensures Heard(Place(firstId))
  {
    assert Start().emit[1..] == [];
    assert Told(Place(firstId)) == {};
  }

  /** Without TTL expiry nothing is ever rejected. */
  lemma NothingRejectedWithoutExpiry(firstId: Id, acts: seq<Action>, e: Event)
    requires Expire !in acts && forall a :: a in acts ==> Happens(a, true)
    requires var c := Exec(Place(firstId), acts); e in c.events && e.id !in c.db.inbox
    ensures Handle(Exec(Place(firstId), acts).db, e).Done?
  {
    hide Safe, Act, Handle, Place;
    PlaceIsSafe(firstId);
    PlacedIsQuiet(firstId);
    OnDemandRun(Place(firstId), acts, firstId, firstId + 1);
    ExecIsSafe(Place(firstId), acts, firstId, firstId + 1);
    OnlyExpiryIsRejected(firstId, acts, e);
    if e.trigger == OnReleased { ReleaseWasAsked(Exec(Place(firstId), acts), e, firstId, firstId + 1); }
  }

  lemma PlacedIsQuiet(firstId: Id)
    ensures ReleasedOnDemand(Place(firstId))
  {
  }

  lemma ReleaseWasAsked(c: Cell, e: Event, rid: Id, pid: Id)
    requires Safe(c, rid, pid) && ReleasedOnDemand(c) && e in c.events && e.trigger == OnReleased
    ensures c.db.order.status != StockReserved && c.db.order.status != Paid
  {
    hide OneIdentity, OneReserve, CommandsFit, TxnsArePast;
    assert e.trigger in Told(c);
  }
}
