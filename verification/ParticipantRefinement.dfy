/** The reservation engine is the inventory participant that the saga protocol assumes, for any number of orders. */
module ParticipantRefinement {
  import opened Basics
  import opened ReservationRow
  import opened Inventory
  import opened InventoryLaws
  import M = SagaMachine

  /** The order's one reservation row, as the saga protocol sees it. */
  ghost function RowOf(resv: map<Rid, Reservation>, oid: Oid): Option<Resv> {
    if exists r :: r in resv && resv[r].orderId == oid
    then var r :| r in resv && resv[r].orderId == oid; Some(Resv(r, resv[r].state))
    else None
  }

  lemma RowIsUnique(resv: map<Rid, Reservation>, oid: Oid, r: Rid)
    requires OneRowPerOrder(resv) && r in resv && resv[r].orderId == oid
    ensures RowOf(resv, oid) == Some(Resv(r, resv[r].state))
  {
  }

  lemma PutRow(resv: map<Rid, Reservation>, r: Rid, row: Reservation)
    requires OneRowPerOrder(resv)
    requires if r in resv then resv[r].orderId == row.orderId else forall q :: q in resv ==>
      resv[q].orderId != row.orderId
    ensures OneRowPerOrder(resv[r := row])
    ensures RowOf(resv[r := row], row.orderId) == Some(Resv(r, row.state))
    ensures forall o :: o != row.orderId ==> RowOf(resv[r := row], o) == RowOf(resv, o)
  {
    var put := resv[r := row];
    RowIsUnique(put, row.orderId, r);
    forall o | o != row.orderId
      ensures RowOf(put, o) == RowOf(resv, o)
    {
      if q :| q in resv && resv[q].orderId == o {
        RowIsUnique(resv, o, q);
        assert q in put && put[q].orderId == o;
        RowIsUnique(put, o, q);
      } else {
        assert forall q :: q in put ==> put[q].orderId != o;
      }
    }
  }

  function ReplyOf(db: Db, after: Db): Option<Notice> {
    if |after.outbox| > |db.outbox| then Some(after.outbox[|after.outbox| - 1]) else None
  }

  /** Whose commands these are: the row under `rid`, if any, is this order's. */
  ghost predicate OwnId(db: Db, rid: Rid, oid: Oid) {
    rid in db.resv ==> db.resv[rid].orderId == oid
  }

  function EventOf(n: Option<Notice>): Option<M.Trigger> {
    match n
    case None => None
    case Some(NReserved(_, _, _)) => Some(M.OnReserved)
    case Some(NFailed(_, _)) => Some(M.OnReserveFailed)
    case Some(NReleased(_, _, _)) => Some(M.OnReleased)
    case Some(NCommitted(_, _)) => Some(M.OnCommitted)
    case Some(NStockChanged(_, _, _)) => None
  }

  /** `after` answers `reply` on this order and leaves every other order's row alone. */
  ghost predicate Refines(db: Db, after: Db, oid: Oid, reply: Reply) {
    && RowOf(after.resv, oid) == reply.resv
    && EventOf(ReplyOf(db, after)) == reply.event
    && (forall o :: o != oid ==> RowOf(after.resv, o) == RowOf(db.resv, o))
  }

  lemma Unowned(db: Db, rid: Rid, oid: Oid)
    requires OneRowPerOrder(db.resv) && OwnId(db, rid, oid)
    ensures rid in db.resv ==> RowOf(db.resv, oid) == Some(Resv(rid, db.resv[rid].state))
    ensures rid !in db.resv ==> (RowOf(db.resv, oid).Some? <==> OrderKnown(db, oid))
    ensures rid !in db.resv && OrderKnown(db, oid) ==> RowOf(db.resv, oid).value.id != rid
  {
    if rid in db.resv { RowIsUnique(db.resv, oid, rid); }
  }

  lemma ReserveRefines(db: Db, rid: Rid, oid: Oid, items: seq<Item>)
    requires OneRowPerOrder(db.resv) && OwnId(db, rid, oid) && ValidItems(items)
    ensures var (after, out) := Reserve(db, rid, oid, items);
      && Refines(db, after, oid,
            Participant(RowOf(db.resv, oid), M.Reserve, rid, AllMovable(Taking, db.stock, Wanted(items))))
      && (out == Partial <==>
            Participant(RowOf(db.resv, oid), M.Reserve, rid, AllMovable(Taking, db.stock, Wanted(items))).failing)
  {
    hide RowOf, OneRowPerOrder;
    Unowned(db, rid, oid);
    if rid !in db.resv && !OrderKnown(db, oid) {
      PutRow(db.resv, rid, Reservation(oid, Reserved, false, Wanted(items)));
    }
  }

  lemma FailureRefines(db: Db, rid: Rid, oid: Oid)
    requires OneRowPerOrder(db.resv) && OwnId(db, rid, oid)
    ensures Refines(db, PublishFailure(db, rid, oid), oid, FailureRow(RowOf(db.resv, oid), rid))
  {
    hide RowOf, OneRowPerOrder;
    Unowned(db, rid, oid);
    if rid !in db.resv && !OrderKnown(db, oid) { PutRow(db.resv, rid, Reservation(oid, Failed, false, map[])); }
  }

  lemma ReleaseRefines(db: Db, rid: Rid, oid: Oid, inStock: bool)
    requires OneRowPerOrder(db.resv) && OwnId(db, rid, oid) && Exact(db)
    ensures Refines(db, Release(db, rid, oid).0, oid, Participant(RowOf(db.resv, oid), M.Release, rid, inStock))
  {
    hide RowOf, OneRowPerOrder, MoveAll, Entries;
    Unowned(db, rid, oid);
    if rid in db.resv {
      if db.resv[rid].state == Reserved {
        HeldIsMovable(db, rid);
        PutRow(db.resv, rid, db.resv[rid].(state := Released));
      }
    } else if !OrderKnown(db, oid) {
      PutRow(db.resv, rid, Reservation(oid, Released, true, map[]));
    }
  }

  lemma CommitRefines(db: Db, rid: Rid, oid: Oid, inStock: bool)
    requires OneRowPerOrder(db.resv) && OwnId(db, rid, oid) && Exact(db)
    ensures Refines(db, Commit(db, rid, oid).0, oid, Participant(RowOf(db.resv, oid), M.Commit, rid, inStock))
  {
    hide RowOf, OneRowPerOrder, MoveAll, Entries, StockNotices;
    Unowned(db, rid, oid);
    if rid in db.resv && db.resv[rid].state == Reserved {
      HeldIsMovable(db, rid);
      PutRow(db.resv, rid, db.resv[rid].(state := Committed));
    }
  }

  /** The TTL sweep of one reservation: a release nobody asked for. */
  lemma ExpiryRefines(db: Db, rid: Rid, oid: Oid)
    requires OneRowPerOrder(db.resv) && Exact(db) && Claimable(db, [rid]) && db.resv[rid].orderId == oid
    ensures Sweep(db, [rid]).Some?
    ensures RowOf(db.resv, oid) == Some(Resv(rid, Reserved))
    ensures Refines(db, Sweep(db, [rid]).value, oid, Reply(Some(Resv(rid, Released)), Some(M.OnReleased), false))
  {
    hide RowOf, OneRowPerOrder, MoveAll, Entries;
    Unowned(db, rid, oid);
    assert rid in [rid];
    HeldIsMovable(db, rid);
    PutRow(db.resv, rid, db.resv[rid].(state := Released));
    var b := GiveBack(db, rid);
    assert [rid][1..] == [];
    assert Sweep(db, [rid]) == Some(b.(outbox := b.outbox + [NReleased(oid, rid, false)]));
  }
}
