/**
 The stock tables of inventory-service and the effect of each reservation-engine transaction on them
 (services/inventory-service/internal/stock/stock.go and internal/store/store.go).
 */
module Inventory {
  import opened Basics
  import opened ReservationRow

  /** A SKU is named by its rank in the one string order that code and database share. */
  type Sku = nat
  type Rid = nat
  type Oid = nat

  datatype Level = Level(onHand: int, reserved: int, active: bool)

  /** A `reservations` row with its `reservation_items`. */
  datatype Reservation = Reservation(orderId: Oid, state: ResvState, tombstone: bool, items: map<Sku, nat>)

  datatype Movement = Reservation_ | Release_ | Commit_ | Restock | Adjustment | Return_ | Shrinkage

  datatype Entry = Entry(sku: Sku, rid: Option<Rid>, movement: Movement, quantity: int, onHandAfter: int,
      reservedAfter: int)

  datatype Notice =
    | NReserved(orderId: Oid, rid: Rid, items: map<Sku, nat>)
    | NFailed(orderId: Oid, rid: Rid)
    | NReleased(orderId: Oid, rid: Rid, tombstone: bool)
    | NCommitted(orderId: Oid, rid: Rid)
    | NStockChanged(sku: Sku, onHand: int, reserved: int)

  datatype Db = Db(stock: map<Sku, Level>, resv: map<Rid, Reservation>, ledger: seq<Entry>, outbox: seq<Notice>)

  /** The table's CHECK constraints. */
  predicate Legal(l: Level) {
    0 <= l.reserved <= l.onHand
  }

  // ----- one line

  datatype Kind = Taking | Committing | Returning

  /** TryTake, CommitLine and ReturnLine, as the change they make to one row. */
  function Move(kind: Kind, l: Level, q: nat): Level {
    match kind
    case Taking => l.(reserved := l.reserved + q)
    case Committing => l.(onHand := l.onHand - q, reserved := l.reserved - q)
    case Returning => l.(reserved := Max(l.reserved - q, 0))
  }

  /** The row exists, the statement's own condition holds, and the CHECK constraints accept the result. */
  predicate Movable(kind: Kind, stock: map<Sku, Level>, s: Sku, q: nat) {
    && s in stock
    && (kind == Taking ==> stock[s].active && stock[s].onHand - stock[s].reserved >= q)
    && Legal(Move(kind, stock[s], q))
  }

  function MovementOf(kind: Kind): Movement {
    match kind
    case Taking => Reservation_
    case Committing => Commit_
    case Returning => Release_
  }

  function SignedQuantity(kind: Kind, q: nat): int {
    if kind == Taking then q as int else 0 - q
  }

  function LineEntry(kind: Kind, rid: Rid, s: Sku, q: nat, after: Level): Entry {
    Entry(s, Some(rid), MovementOf(kind), SignedQuantity(kind, q), after.onHand, after.reserved)
  }

  // ----- a whole reservation

  /** Every line at once. */
  function MoveAll(kind: Kind, stock: map<Sku, Level>, items: map<Sku, nat>): map<Sku, Level> {
    map s | s in stock :: if s in items then Move(kind, stock[s], items[s]) else stock[s]
  }

  predicate AllMovable(kind: Kind, stock: map<Sku, Level>, items: map<Sku, nat>) {
    forall s :: s in items ==> Movable(kind, stock, s, items[s])
  }

  ghost predicate Ordered(lines: seq<Sku>) {
    forall i, j :: 0 <= i < j < |lines| ==> lines[i] < lines[j]
  }

  lemma ConsOrdered(x: Sku, rest: seq<Sku>)
    requires Ordered(rest) && forall s :: s in rest ==> x < s
    ensures Ordered([x] + rest)
  {
    forall i, j | 0 <= i < j < |[x] + rest|
      ensures ([x] + rest)[i] < ([x] + rest)[j]
    {
      assert rest[j - 1] in rest;
    }
  }

  /** sort.Strings over the keys; also ORDER BY sku. */
  function Ascending(keys: set<Sku>): (lines: seq<Sku>)
    ensures Ordered(lines)
    ensures forall s :: s in lines <==> s in keys
    decreases |keys|
  {
    if keys == {} then []
    else
      var x := Least(keys);
      var rest := Ascending(keys - {x});
      ConsOrdered(x, rest);
      [x] + rest
  }

  /** The ledger rows of one reservation's lines. */
  function Entries(kind: Kind, stock: map<Sku, Level>, rid: Rid, items: map<Sku, nat>, lines: seq<Sku>): seq<Entry>
    requires forall s :: s in lines ==> s in items && s in stock
  {
    seq(|lines|, i requires 0 <= i < |lines| =>
      LineEntry(kind, rid, lines[i], items[lines[i]], Move(kind, stock[lines[i]], items[lines[i]])))
  }

  function StockNotices(stock: map<Sku, Level>, lines: seq<Sku>): seq<Notice>
    requires forall s :: s in lines ==> s in stock
  {
    seq(|lines|, i requires 0 <= i < |lines| =>
      NStockChanged(lines[i], stock[lines[i]].onHand, stock[lines[i]].reserved))
  }

  // ----- transactions

  datatype Item = Item(sku: Sku, quantity: int)

  function Wanted(items: seq<Item>): map<Sku, nat>
    requires forall it :: it in items ==> it.quantity > 0
  {
    if items == [] then map[]
    else
      var w := Wanted(items[..|items| - 1]);
      var it := items[|items| - 1];
      w[it.sku := (if it.sku in w then w[it.sku] else 0) + it.quantity]
  }

  predicate ValidItems(items: seq<Item>) {
    items != [] && forall it :: it in items ==> it.quantity > 0
  }

  predicate OrderKnown(db: Db, oid: Oid) {
    exists r :: r in db.resv && db.resv[r].orderId == oid
  }

  datatype Outcome = Invalid | AlreadyProcessed | Held | Partial

  /** Reserve's first transaction: all lines or none. */
  function Reserve(db: Db, rid: Rid, oid: Oid, items: seq<Item>): (Db, Outcome) {
    if !ValidItems(items) then (db, Invalid)
    else if rid in db.resv || OrderKnown(db, oid) then (db, AlreadyProcessed)
    else
      var w := Wanted(items);
      if !AllMovable(Taking, db.stock, w) then (db, Partial)
      else
        (Db(MoveAll(Taking, db.stock, w),
            db.resv[rid := Reservation(oid, Reserved, false, w)],
            db.ledger + Entries(Taking, db.stock, rid, w, Ascending(w.Keys)),
            db.outbox + [NReserved(oid, rid, w)]), Held)
  }

  /** publishFailure: a second transaction, after the first was rolled back. */
  function PublishFailure(db: Db, rid: Rid, oid: Oid): Db {
    if rid !in db.resv && OrderKnown(db, oid) then db
    else
      db.(resv := if rid in db.resv then db.resv else db.resv[rid := Reservation(oid, Failed, false, map[])],
          outbox := db.outbox + [NFailed(oid, rid)])
  }

  /** returnStock and MarkReservation, shared by Release and the TTL sweep. */
  function GiveBack(db: Db, rid: Rid): Db
    requires rid in db.resv && AllMovable(Returning, db.stock, db.resv[rid].items)
  {
    var items := db.resv[rid].items;
    db.(stock := MoveAll(Returning, db.stock, items),
        ledger := db.ledger + Entries(Returning, db.stock, rid, items, Ascending(items.Keys)),
        resv := db.resv[rid := db.resv[rid].(state := Released)])
  }

  datatype Answer = Refused | Done(tombstone: bool)

  function Release(db: Db, rid: Rid, oid: Oid): (Db, Answer) {
    if rid !in db.resv then
      if OrderKnown(db, oid) then (db, Refused)
      else (db.(resv := db.resv[rid := Reservation(oid, Released, true, map[])],
        outbox := db.outbox + [NReleased(oid, rid, true)]), Done(true))
    else if db.resv[rid].state == Committed then (db, Refused)
    else if db.resv[rid].state == Reserved then
      if !AllMovable(Returning, db.stock, db.resv[rid].items) then (db, Refused)
      else var b := GiveBack(db, rid); (b.(outbox := b.outbox + [NReleased(oid, rid, false)]), Done(false))
    else (db.(outbox := db.outbox + [NReleased(oid, rid, false)]), Done(false))
  }

  function Commit(db: Db, rid: Rid, oid: Oid): (Db, Answer) {
    if rid !in db.resv then (db, Refused)
    else if db.resv[rid].state == Committed then (db.(outbox := db.outbox + [NCommitted(oid, rid)]), Done(false))
    else if db.resv[rid].state != Reserved || !AllMovable(Committing, db.stock, db.resv[rid].items) then (db, Refused)
    else
      var items := db.resv[rid].items;
      var lines := Ascending(items.Keys);
      var stock := MoveAll(Committing, db.stock, items);
      (Db(stock,
          db.resv[rid := db.resv[rid].(state := Committed)],
          db.ledger + Entries(Committing, db.stock, rid, items, lines),
          db.outbox + StockNotices(stock, lines) + [NCommitted(oid, rid)]), Done(false))
  }

  /** What ClaimExpired may return: distinct reservations that are still RESERVED. */
  predicate Claimable(db: Db, expired: seq<Rid>) {
    && (forall i, j :: 0 <= i < j < |expired| ==> expired[i] != expired[j])
    && (forall r :: r in expired ==> r in db.resv && db.resv[r].state == Reserved)
  }

  /** SweepExpired: one transaction over the batch, so one failing line undoes all of it. */
  function Sweep(db: Db, expired: seq<Rid>): Option<Db>
    requires Claimable(db, expired)
    decreases |expired|
  {
    if expired == [] then Some(db)
    else
      var r := expired[0];
      if !AllMovable(Returning, db.stock, db.resv[r].items) then None
      else
        var b := GiveBack(db, r);
        Sweep(b.(outbox := b.outbox + [NReleased(db.resv[r].orderId, r, false)]), expired[1..])
  }

  predicate AdjustKind(m: Movement) {
    m == Restock || m == Adjustment || m == Return_ || m == Shrinkage
  }

  function Adjust(db: Db, s: Sku, delta: int, m: Movement): (Db, bool) {
    if s !in db.stock || db.stock[s].onHand + delta < Max(db.stock[s].reserved, 0) then (db, false)
    else
      var l := db.stock[s].(onHand := db.stock[s].onHand + delta);
      (db.(stock := db.stock[s := l],
           ledger := db.ledger + [Entry(s, None, m, delta, l.onHand, l.reserved)],
           outbox := db.outbox + [NStockChanged(s, l.onHand, l.reserved)]), true)
  }
}
