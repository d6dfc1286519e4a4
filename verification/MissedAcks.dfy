/**
 A run that strands an order: an acknowledgement that changes no status is not version-checked, so two
 handled at once can each miss the other, and nothing afterwards notices.
 */
module MissedAcks {
  import opened Basics
  import opened SagaMachine
  import opened Orchestrator
  import opened ReservationRow
  import opened SagaProtocol
  import opened SagaProgress
  import opened SplitProgress
  import opened SplitTermination
  import W = SagaWitnesses

  const RELEASE: Command := Command(10, Release, 0, 1)
  const VOID: Command := Command(13, Void, 0, 1)
  const FAILED: Event := Event(7, OnAuthFailed, None, Some(1), None, true)
  const RELEASED: Event := Event(14, OnReleased, Some(0), None, None, false)
  const VOIDED: Event := Event(15, OnVoided, None, Some(1), None, false)

  /** The card attempt failed retriably and was closed; then the customer cancelled. */
  function Cancelling(): Cell {
    var r := W.Reserving();
    r.(db := Db(OrderRow(Compensating, 2, Some(0), Some(1), Some(CustomerCancelled), None),
                map[Reserve := W.RowAcked(1), Authorize := W.RowAcked(1), Release := W.RowSent(1, true),
                  Void := W.RowSent(1, true)],
                {3, 7}, r.db.cmds + {RELEASE, VOID}, [], 14),
       events := r.events + {FAILED}, answered := {6})
  }

  /** Both compensations have answered; neither answer has been handled. */
  function BothAnswered(): Cell {
    var c := Cancelling();
    c.(db := c.db.(nextId := 16), resv := Some(Resv(0, Released)), claimed := {2, 10}, answered := {6, 13},
       events := c.events + {RELEASED, VOIDED})
  }

  lemma CancellingRows(db: Db)
    requires db == W.Reserving().db.(nextId := 8, inbox := {3, 7},
      steps := map[Reserve := W.RowAcked(1), Authorize := W.RowAcked(1)])
    ensures ConcludeCancel(db, db.order, BuildCtx(db.steps, false)) == Done(Cancelling().db)
  {
    var row := OrderRow(Compensating, 2, Some(0), Some(1), Some(CustomerCancelled), None);
    var one := EmitCommand(db.(order := row), db.order, Release, TIMEOUT_COMPENSATING);
    assert CancelSteps(BuildCtx(db.steps, false)) == [Release, Void];
    assert [Release, Void][1..] == [Void] && [Void][1..] == [];
    assert EmitAll(db.(order := row), db.order, [Release, Void], TIMEOUT_COMPENSATING) ==
      EmitAll(one, db.order, [Void], TIMEOUT_COMPENSATING);
    assert EmitCommand(one, db.order, Void, TIMEOUT_COMPENSATING).cmds == Cancelling().db.cmds;
    assert EmitCommand(one, db.order, Void, TIMEOUT_COMPENSATING) == Cancelling().db;
  }

  lemma ArisesStep(c: Cell, a: Action)
    requires Arises(c) && Regular(a)
    ensures Arises(Act(c, a))
  {
    hide Act;
    var firstId: Id, acts: seq<Action> :| (forall b :: b in acts ==> Regular(b)) && c == Exec(Place(firstId), acts);
    ExecSplits(Place(firstId), acts, [a]);
    assert Exec(c, [a]) == Exec(Act(c, a), [a][1..]);
    assert Exec(Act(c, a), []) == Act(c, a);
    assert Act(c, a) == Exec(Place(firstId), acts + [a]);
  }

  lemma CancellingArises()
    ensures Arises(Cancelling())
  {
    hide Arises, Reachable;
    W.ReservingIsReached();
    ReachedArises(W.Reserving());
    var c0 := W.Reserving();
    var a := Answer(Command(6, Authorize, 0, 1), OnAuthFailed, None, true);
    ArisesStep(c0, a);
    var c1 := Act(c0, a);
    assert c1 == c0.(db := c0.db.(nextId := 8), events := c0.events + {FAILED}, answered := {6});
    ArisesStep(c1, Deliver(FAILED));
    var c2 := Act(c1, Deliver(FAILED));
    assert c2.db.steps == map[Reserve := W.RowAcked(1), Authorize := W.RowAcked(1)];
    assert c2.db == c0.db.(nextId := 8, inbox := {3, 7}, steps := c2.db.steps);
    CancellingRows(c2.db);
    ArisesStep(c2, CustomerCancel);
    assert Act(c2, CustomerCancel) == Cancelling();
  }

  lemma ReachedArises(c: Cell)
    requires Reachable(c, false)
    ensures Arises(c)
  {
    var firstId: Id, acts: seq<Action> :| (forall b :: b in acts ==> Happens(b, false)) &&
      c == Exec(Place(firstId), acts);
  }

  lemma BothAnsweredArises()
    ensures Arises(BothAnswered())
  {
    hide Arises;
    CancellingArises();
    var c0 := Cancelling();
    ArisesStep(c0, Claim(RELEASE));
    var c1 := Act(c0, Claim(RELEASE));
    ArisesStep(c1, Run(RELEASE, true));
    var c2 := Act(c1, Run(RELEASE, true));
    assert c2.events == c0.events + {RELEASED};
    var a := Answer(VOID, OnVoided, None, false);
    ArisesStep(c2, a);
    var c3 := Act(c2, a);
    assert c3.events == BothAnswered().events && c3.claimed == {2, 10} && c3.pending == {};
    assert c3 == BothAnswered();
  }

  /** Two handlers read before either wrote. */
  lemma TwoReads() returns (c: Cell, x: Txn, y: Txn)
    ensures Arises(c) && x != y && c == BothAnswered().(txns := {x, y})
    ensures x == Loaded(1, FromEvent(RELEASED), c.db.order, BuildCtx(c.db.steps, false))
    ensures y == Loaded(2, FromEvent(VOIDED), c.db.order, BuildCtx(c.db.steps, false))
  {
    hide Arises, BuildCtx;
    BothAnsweredArises();
    var c0 := BothAnswered();
    var rx, ry := Begun(1, FromEvent(RELEASED), c0.db.order), Begun(2, FromEvent(VOIDED), c0.db.order);
    ArisesStep(c0, Begin(1, FromEvent(RELEASED)));
    var c1 := Act(c0, Begin(1, FromEvent(RELEASED)));
    ArisesStep(c1, Begin(2, FromEvent(VOIDED)));
    var c2 := Act(c1, Begin(2, FromEvent(VOIDED)));
    assert c2.txns == {rx, ry};
    ArisesStep(c2, Load(rx));
    var c3 := Act(c2, Load(rx));
    ArisesStep(c3, Load(ry));
    c := Act(c3, Load(ry));
    x := Loaded(1, FromEvent(RELEASED), c.db.order, BuildCtx(c.db.steps, false));
    y := Loaded(2, FromEvent(VOIDED), c.db.order, BuildCtx(c.db.steps, false));
    assert c3.txns == {ry, x};
    assert c.txns == {x, y};
  }

  lemma AckOnlyRows(db: Db, ev: Event, ctx: Ctx)
    requires db.order.status == Compensating && ev.id !in db.inbox && ctx.authorizeSent && !ctx.inventorySettled &&
      !ctx.paymentSettled
    requires ev.trigger == OnReleased || ev.trigger == OnVoided
    ensures Conclude(db, db.order, ctx, ev) == Done(AckEvidence(db.(inbox := db.inbox + {ev.id}), ev.trigger))
  {
  }

  /**
   Handled one after the other these acknowledgements would cancel the order; handled at once they strand it for good.
   */
  lemma ConcurrentAcksStrand() returns (c: Cell)
    ensures Arises(c) && Stranded(c) && !CanEnd(c)
  {
    hide Arises, Conclude, CanEnd;
    var c0, x, y := TwoReads();
    var ctx := BuildCtx(c0.db.steps, false);
    AckOnlyRows(c0.db, RELEASED, ctx);
    ArisesStep(c0, Finish(x));
    var c1 := Act(c0, Finish(x));
    assert c1.db.order == c0.db.order && c1.db.inbox == {3, 7, 14} && c1.txns == {y};
    AckOnlyRows(c1.db, VOIDED, ctx);
    ArisesStep(c1, Finish(y));
    c := Act(c1, Finish(y));
    assert c.db.steps ==
      map[Reserve := W.RowAcked(1), Authorize := W.RowAcked(1), Release := W.RowAcked(1), Void := W.RowAcked(1)];
    assert c.db.inbox == {3, 7, 14, 15} && c.txns == {};
    EndsUnlessStranded(c);
  }
}
