/** Concrete runs: every kind of stuck order really is reached. */
module SagaWitnesses {
  import opened Basics
  import opened SagaMachine
  import opened Orchestrator
  import opened SagaProtocol
  import opened ReservationRow
  import opened SagaProgress
  import opened SagaTermination

  lemma ReachableStep(c: Cell, a: Action, free: bool)
    requires Reachable(c, free) && Happens(a, free)
    ensures Reachable(Act(c, a), free)
  {
    var firstId: Id, acts: seq<Action> :| (forall b :: b in acts ==> Happens(b, free)) &&
      c == Exec(Place(firstId), acts);
    ExecSplits(Place(firstId), acts, [a]);
    assert Exec(c, [a]) == Act(c, a) by { assert [a][1..] == []; }
    assert forall b :: b in acts + [a] ==> Happens(b, free);
  }

  function RowSent(attempts: nat, timed: bool): StepRow {
    StepRow(false, attempts, timed)
  }

  function RowAcked(attempts: nat): StepRow {
    StepRow(true, attempts, false)
  }

  /** The first order after its stock was reserved and AUTHORIZE was sent. */
  function Reserving(): Cell {
    var reserve := Command(2, Reserve, 0, 1);
    var reserved := Event(3, OnReserved, Some(0), None, None, false);
    Cell(Db(OrderRow(StockReserved, 1, Some(0), Some(1), None, None),
            map[Reserve := RowAcked(1), Authorize := RowSent(1, true)], {3},
            {reserve, Command(6, Authorize, 0, 1)}, [], 7),
         Some(Resv(0, Reserved)), {2}, {}, {}, {reserved}, {}, {})
  }

  lemma PlacedIsReached()
    ensures Reachable(Place(0), false)
  {
    assert Place(0) == Exec(Place(0), []);
  }

  lemma ReservingIsReached()
    ensures Reachable(Reserving(), false)
  {
    PlacedIsReached();
    hide Reachable;
    var reserve := Command(2, Reserve, 0, 1);
    var reserved := Event(3, OnReserved, Some(0), None, None, false);
    var c0 := Place(0);
    assert [Reserve][1..] == [] && [Authorize][1..] == [];
    assert c0.db.cmds == {reserve};
    ReachableStep(c0, Claim(reserve), false);
    var c1 := Act(c0, Claim(reserve));
    ReachableStep(c1, Run(reserve, true), false);
    var c2 := Act(c1, Run(reserve, true));
    assert c2.events == {reserved};
    ReachableStep(c2, Deliver(reserved), false);
    var c3 := Act(c2, Deliver(reserved));
    assert c3.db.steps == Reserving().db.steps;
    assert c3.db.inbox == {3} && c3.db.cmds == Reserving().db.cmds;
    assert c3 == Reserving();
  }

  /** A provider outage reported as retriable closes AUTHORIZE, and nothing ever resends it. */
  lemma RetriableFailureWedges() returns (c: Cell)
    ensures Reachable(c, false) && c.db.order.status == StockReserved && Stuck(c)
  {
    hide Reachable;
    ReservingIsReached();
    var auth := Command(6, Authorize, 0, 1);
    var failed := Event(7, OnAuthFailed, None, Some(1), None, true);
    var a := Answer(auth, OnAuthFailed, None, true);
    ReachableStep(Reserving(), a, false);
    var c1 := Act(Reserving(), a);
    ReachableStep(c1, Deliver(failed), false);
    c := Act(c1, Deliver(failed));
    IdleDelivery(c1.db, failed);
    assert c.db.steps == map[Reserve := RowAcked(1), Authorize := RowAcked(1)];
  }

  /** The declined order, its RELEASE just sent. */
  function Declined(): Cell {
    Cell(Db(OrderRow(Compensating, 2, Some(0), Some(1), None, Some(Authorize)),
            map[Reserve := RowAcked(1), Authorize := RowAcked(1), Release := RowSent(1, true)], {3, 7},
            {Command(2, Reserve, 0, 1), Command(6, Authorize, 0, 1), Command(10, Release, 0, 1)}, [], 11),
         Some(Resv(0, Reserved)), {2}, {}, {},
         {Event(3, OnReserved, Some(0), None, None, false), Event(7, OnAuthFailed, None, Some(1), None, false)},
         {6}, {})
  }

  lemma DeclinedRows(db: Db, failed: Event)
    requires db == Reserving().db.(nextId := 8) && failed == Event(7, OnAuthFailed, None, Some(1), None, false)
    ensures Handle(db, failed) == Done(Declined().db)
  {
    var d := Next(StockReserved, OnAuthFailed, BuildCtx(db.steps, false)).decision;
    var acked := db.(inbox := {3, 7}, steps := map[Reserve := RowAcked(1), Authorize := RowAcked(1)]);
    assert AckEvidence(db.(inbox := db.inbox + {7}), OnAuthFailed) == acked;
    var row := OrderRow(Compensating, 2, Some(0), Some(1), None, Some(Authorize));
    assert [Release][1..] == [];
    assert EmitAll(acked.(order := row), db.order, [Release], 300) == Declined().db;
  }

  lemma DeclinedIsReached()
    ensures Reachable(Declined(), false)
  {
    hide Reachable, Handle;
    ReservingIsReached();
    var failed := Event(7, OnAuthFailed, None, Some(1), None, false);
    var a := Answer(Command(6, Authorize, 0, 1), OnAuthFailed, None, false);
    ReachableStep(Reserving(), a, false);
    var c1 := Act(Reserving(), a);
    ReachableStep(c1, Deliver(failed), false);
    DeclinedRows(c1.db, failed);
    assert WholeTxn(c1, FromEvent(failed)).db == After(c1.db, Handle(c1.db, failed)) by { HandleIsWhole(c1, failed); }
    var c2 := Act(c1, Deliver(failed));
    assert c2 == Declined();
  }

  lemma HandleIsWhole(c: Cell, ev: Event)
    ensures WholeTxn(c, FromEvent(ev)) == c.(db := After(c.db, Handle(c.db, ev)))
  {
  }

  /** A declined card whose stock is released promptly leaves the order in COMPENSATING for good. */
  lemma DeclinedCardWedges() returns (c: Cell)
    ensures Reachable(c, false) && c.db.order.status == Compensating && Stuck(c)
  {
    hide Reachable;
    DeclinedIsReached();
    var release := Command(10, Release, 0, 1);
    var released := Event(11, OnReleased, Some(0), None, None, false);
    ReachableStep(Declined(), Claim(release), false);
    var c1 := Act(Declined(), Claim(release));
    ReachableStep(c1, Run(release, true), false);
    var c2 := Act(c1, Run(release, true));
    ReachableStep(c2, Deliver(released), false);
    c := Act(c2, Deliver(released));
    IdleDelivery(c2.db, released);
    assert c.db.steps == map[Reserve := RowAcked(1), Authorize := RowAcked(1), Release := RowAcked(1)];
  }

  /** A reservation that expires while the card is being authorised leaves a paid order with no stock. */
  lemma ExpiredReservationWedges() returns (c: Cell)
    ensures Reachable(c, false) && c.db.order.status == Paid && Stuck(c) && Orphaned(c)
  {
    hide Reachable;
    ReservingIsReached();
    assert [Commit][1..] == [];
    var auth := Command(6, Authorize, 0, 1);
    var authorized := Event(8, OnAuthorized, None, Some(1), None, false);
    ReachableStep(Reserving(), Expire, false);
    var c1 := Act(Reserving(), Expire);
    var a := Answer(auth, OnAuthorized, None, false);
    ReachableStep(c1, a, false);
    var c2 := Act(c1, a);
    ReachableStep(c2, Deliver(authorized), false);
    c := Act(c2, Deliver(authorized));
    assert c.events == {Event(3, OnReserved, Some(0), None, None, false),
      Event(7, OnReleased, Some(0), None, None, false), authorized};
  }

  /** A COMMIT whose consumer claimed the inbox row and then failed leaves a paid order that nothing retries. */
  lemma ClaimedCommitWedges() returns (c: Cell)
    ensures Reachable(c, false) && c.db.order.status == Paid && Stuck(c) && !Orphaned(c)
  {
    hide Reachable;
    ReservingIsReached();
    assert [Commit][1..] == [];
    var commit := Command(10, Commit, 0, 1);
    var authorized := Event(7, OnAuthorized, None, Some(1), None, false);
    var a := Answer(Command(6, Authorize, 0, 1), OnAuthorized, None, false);
    ReachableStep(Reserving(), a, false);
    var c1 := Act(Reserving(), a);
    ReachableStep(c1, Deliver(authorized), false);
    var c2 := Act(c1, Deliver(authorized));
    assert c2.db.cmds == Reserving().db.cmds + {commit};
    ReachableStep(c2, Claim(commit), false);
    var c3 := Act(c2, Claim(commit));
    ReachableStep(c3, Crash(commit), false);
    c := Act(c3, Crash(commit));
    assert c.pending == {} && c.claimed == {2, 10};
    assert c.events == {Event(3, OnReserved, Some(0), None, None, false), authorized};
  }
}
