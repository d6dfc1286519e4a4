/** What a transaction writes, it has locked: the plans of LockOrder against the effects of the transactions. */
module LockCover {
  import opened Basics
  import opened ReservationRow
  import opened Inventory
  import opened LockOrder

  /** Every level and row that differs is locked, and so is the order key of every new row. */
  ghost predicate WritesLocked(db: Db, after: Db, plan: seq<Lock>) {
    && after.stock.Keys == db.stock.Keys && db.resv.Keys <= after.resv.Keys
    && (forall s :: s in db.stock && after.stock[s] != db.stock[s] ==> SkuLock(s) in plan)
    && (forall r :: r in after.resv && (r !in db.resv || after.resv[r] != db.resv[r]) ==> RowLock(r) in plan)
    && (forall r :: r in after.resv && r !in db.resv ==> OrderKey(after.resv[r].orderId) in plan)
  }

  function SkusOf(db: Db, rid: Rid): set<Sku> {
    if rid in db.resv then db.resv[rid].items.Keys else {}
  }

  function BatchOf(db: Db, rids: seq<Rid>): seq<set<Sku>> {
    seq(|rids|, i requires 0 <= i < |rids| => SkusOf(db, rids[i]))
  }

  function ReserveRequest(rid: Rid, oid: Oid, items: seq<Item>): Request
    requires ValidItems(items)
  {
    ForReserve(rid, oid, Wanted(items).Keys)
  }

  function ReleaseRequest(db: Db, rid: Rid, oid: Oid): Request {
    if rid in db.resv then ForRelease(rid, SkusOf(db, rid)) else ForTombstone(rid, oid)
  }

  lemma SkuIsLocked(front: seq<Lock>, lines: seq<Sku>, s: Sku)
    requires s in lines
    ensures SkuLock(s) in front + SkuLocks(lines)
  {
    var i :| 0 <= i < |lines| && lines[i] == s;
    assert (front + SkuLocks(lines))[|front| + i] == SkuLock(s);
  }

  lemma LinesAreLocked(front: seq<Lock>, skus: set<Sku>)
    ensures forall s :: s in skus ==> SkuLock(s) in front + SkuLocks(Ascending(skus))
    ensures forall l :: l in front ==> l in front + SkuLocks(Ascending(skus))
  {
    forall s | s in skus
      ensures SkuLock(s) in front + SkuLocks(Ascending(skus))
    {
      SkuIsLocked(front, Ascending(skus), s);
    }
  }

  lemma ReserveLocks(db: Db, rid: Rid, oid: Oid, items: seq<Item>)
    requires ValidItems(items)
    ensures WritesLocked(db, Reserve(db, rid, oid, items).0, Plan(ReserveRequest(rid, oid, items)))
  {
    hide Ascending, Entries, Wanted, StockNotices, AllMovable;
    LinesAreLocked([RowLock(rid), OrderKey(oid)], Wanted(items).Keys);
  }

  lemma SettlingLocks(db: Db, after: Db, kind: Kind, rid: Rid, row: Reservation)
    requires rid in db.resv && after.resv == db.resv[rid := row]
    requires after.stock == db.stock || after.stock == MoveAll(kind, db.stock, db.resv[rid].items)
    ensures WritesLocked(db, after, [RowLock(rid)] + SkuLocks(Ascending(SkusOf(db, rid))))
  {
    hide Ascending;
    LinesAreLocked([RowLock(rid)], SkusOf(db, rid));
  }

  lemma ReleaseLocks(db: Db, rid: Rid, oid: Oid)
    ensures WritesLocked(db, Release(db, rid, oid).0, Plan(ReleaseRequest(db, rid, oid)))
  {
    hide Ascending, Entries, MoveAll, AllMovable;
    var after := Release(db, rid, oid).0;
    if rid in db.resv { SettlingLocks(db, after, Returning, rid, after.resv[rid]); }
  }

  lemma CommitLocks(db: Db, rid: Rid, oid: Oid)
    ensures WritesLocked(db, Commit(db, rid, oid).0, Plan(ForCommit(rid, SkusOf(db, rid))))
  {
    hide Ascending, Entries, StockNotices, MoveAll, AllMovable;
    var after := Commit(db, rid, oid).0;
    if rid in db.resv { SettlingLocks(db, after, Committing, rid, after.resv[rid]); }
  }

  lemma InvalidChangesNothing(db: Db, rid: Rid, oid: Oid, items: seq<Item>)
    requires !ValidItems(items)
    ensures Reserve(db, rid, oid, items).0 == db
  {
  }

  lemma FailureLocks(db: Db, rid: Rid, oid: Oid)
    ensures WritesLocked(db, PublishFailure(db, rid, oid), Plan(ForFailure(rid, oid)))
  {
  }

  lemma AdjustLocks(db: Db, s: Sku, delta: int, m: Movement)
    ensures WritesLocked(db, Adjust(db, s, delta, m).0, Plan(ForAdjust(s)))
  {
  }

  /** Reserve, the failure transaction, Release, Commit and Adjust write only under locks they have taken. */
  lemma WritesAreLocked(db: Db, rid: Rid, oid: Oid, items: seq<Item>, s: Sku, delta: int, m: Movement)
    ensures ValidItems(items) ==>
      WritesLocked(db, Reserve(db, rid, oid, items).0, Plan(ReserveRequest(rid, oid, items)))
    ensures !ValidItems(items) ==> Reserve(db, rid, oid, items).0 == db
    ensures WritesLocked(db, PublishFailure(db, rid, oid), Plan(ForFailure(rid, oid)))
    ensures WritesLocked(db, Release(db, rid, oid).0, Plan(ReleaseRequest(db, rid, oid)))
    ensures WritesLocked(db, Commit(db, rid, oid).0, Plan(ForCommit(rid, SkusOf(db, rid))))
    ensures WritesLocked(db, Adjust(db, s, delta, m).0, Plan(ForAdjust(s)))
  {
    hide Reserve, Release, Commit, PublishFailure, Adjust, WritesLocked, Plan;
    if ValidItems(items) { ReserveLocks(db, rid, oid, items); } else { InvalidChangesNothing(db, rid, oid, items); }
    FailureLocks(db, rid, oid);
    AdjustLocks(db, s, delta, m);
    ReleaseLocks(db, rid, oid);
    CommitLocks(db, rid, oid);
  }

  // ----- the sweep

  lemma {:induction false} FirstsAreAll(lines: seq<Sku>)
    ensures forall s :: s in Firsts(lines) <==> s in lines
    decreases |lines|
  {
    if lines != [] {
      var n := |lines| - 1;
      assert lines == lines[..n] + [lines[n]];
      FirstsAreAll(lines[..n]);
    }
  }

  lemma {:induction false} WalkReaches(batch: seq<set<Sku>>, i: nat)
    requires i < |batch|
    ensures forall s :: s in batch[i] ==> s in Walk(batch)
    decreases |batch|
  {
    var n := |batch| - 1;
    if i < n { WalkReaches(batch[..n], i); }
  }

  /** The sweep changes only rows it has claimed, and levels of their lines. */
  lemma {:induction false} SweepStays(db: Db, rids: seq<Rid>)
    requires Claimable(db, rids) && Sweep(db, rids).Some?
    ensures var after := Sweep(db, rids).value;
      && after.stock.Keys == db.stock.Keys && after.resv.Keys == db.resv.Keys
      && (forall r :: r in db.resv && r !in rids ==> after.resv[r] == db.resv[r])
      && (forall s :: s in db.stock && (forall r :: r in rids ==> s !in db.resv[r].items) ==>
            after.stock[s] == db.stock[s])
    decreases |rids|
  {
    hide Ascending, Entries, AllMovable;
    if rids != [] {
      var r, rest := rids[0], rids[1..];
      assert r in rids && rids == [r] + rest;
      var b := GiveBack(db, r);
      var next := b.(outbox := b.outbox + [NReleased(db.resv[r].orderId, r, false)]);
      RestClaimable(db, next, r, rest);
      SweepStays(next, rest);
    }
  }

  lemma RestClaimable(db: Db, next: Db, r: Rid, rest: seq<Rid>)
    requires Claimable(db, [r] + rest) && r in next.resv && next.resv == db.resv[r := next.resv[r]]
    ensures Claimable(next, rest) && r !in rest && forall q :: q in rest ==> next.resv[q] == db.resv[q]
  {
    forall i | 0 <= i < |rest|
      ensures rest[i] != r && rest[i] in [r] + rest
    {
      assert ([r] + rest)[i + 1] == rest[i] && ([r] + rest)[0] == r;
    }
    assert forall i, j :: 0 <= i < j < |rest| ==> ([r] + rest)[i + 1] == rest[i] && ([r] + rest)[j + 1] == rest[j];
  }

  lemma SweepIsLocked(db: Db, rids: seq<Rid>)
    requires Claimable(db, rids) && Sweep(db, rids).Some?
    ensures WritesLocked(db, Sweep(db, rids).value, SweepPlan(rids, BatchOf(db, rids)))
  {
    hide Sweep;
    var after, batch := Sweep(db, rids).value, BatchOf(db, rids);
    var plan := SweepPlan(rids, batch);
    SweepStays(db, rids);
    forall s | s in db.stock && after.stock[s] != db.stock[s]
      ensures SkuLock(s) in plan
    {
      var r :| r in rids && s in db.resv[r].items;
      var i :| 0 <= i < |rids| && rids[i] == r;
      assert s in batch[i];
      WalkReaches(batch, i);
      FirstsAreAll(Walk(batch));
      SkuIsLocked(RowLocks(rids), Firsts(Walk(batch)), s);
    }
    forall r | r in rids
      ensures RowLock(r) in plan
    {
      var i :| 0 <= i < |rids| && rids[i] == r;
      assert plan[i] == RowLock(r);
    }
  }
}
