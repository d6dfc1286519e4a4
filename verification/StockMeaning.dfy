/**
 What each reservation transaction does to the shelves, in terms of the items asked for and the levels alone.
 The levels obey the table's CHECK constraints throughout, as EveryRunBalances shows they always do.
 */
module StockMeaning {
  import opened Basics
  import opened ReservationRow
  import opened Inventory
  import opened InventoryLaws

  /** Units of `s` over all items that name it. */
  function Asked(items: seq<Item>, s: Sku): int {
    if items == [] then 0 else (if items[0].sku == s then items[0].quantity else 0) + Asked(items[1..], s)
  }

  ghost predicate LegalShelves(stock: map<Sku, Level>) {
    forall s :: s in stock ==> 0 <= stock[s].reserved <= stock[s].onHand
  }

  /** On sale, with at least as many units free as are asked for. */
  predicate Enough(stock: map<Sku, Level>, items: seq<Item>, s: Sku) {
    s in stock && stock[s].active && stock[s].onHand - stock[s].reserved >= Asked(items, s)
  }

  lemma {:induction false} AskedAppends(items: seq<Item>, it: Item, s: Sku)
    ensures Asked(items + [it], s) == Asked(items, s) + if it.sku == s then it.quantity else 0
  {
    if items == [] {
      assert [it][1..] == [] && items + [it] == [it];
    } else {
      assert (items + [it])[1..] == items[1..] + [it];
      AskedAppends(items[1..], it, s);
    }
  }

  lemma {:induction false} WantedIsAsked(items: seq<Item>)
    requires forall it :: it in items ==> it.quantity > 0
    ensures forall s :: s in Wanted(items) <==> exists it :: it in items && it.sku == s
    ensures forall s :: s in Wanted(items) ==> Wanted(items)[s] == Asked(items, s) && Asked(items, s) > 0
    ensures forall s :: s !in Wanted(items) ==> Asked(items, s) == 0
    decreases |items|
  {
    if items != [] {
      var n := |items| - 1;
      var front, last := items[..n], items[n];
      assert items == front + [last];
      WantedIsAsked(front);
      forall s
        ensures Asked(items, s) == Asked(front, s) + if last.sku == s then last.quantity else 0
      {
        AskedAppends(front, last, s);
      }
      forall s
        ensures s in Wanted(items) <==> exists it :: it in items && it.sku == s
      {
        if s == last.sku { assert last in items; }
      }
    }
  }

  /** `after` is `before` with reserved units of each SKU up by what the items ask for. */
  ghost predicate HeldMore(before: map<Sku, Level>, after: map<Sku, Level>, items: seq<Item>) {
    && after.Keys == before.Keys
    && forall s :: s in before ==>
      && after[s].reserved == before[s].reserved + Asked(items, s)
      && after[s].onHand == before[s].onHand && after[s].active == before[s].active
  }

  /** One new ledger row for each SKU of `items`, in ascending order, naming the reservation and what moved. */
  ghost predicate Logged(before: seq<Entry>, after: seq<Entry>, rid: Rid, items: map<Sku, nat>, movement: Movement,
      sign: int) {
    && before <= after && |after| == |before| + |items|
    && (forall i :: |before| <= i < |after| ==>
          && after[i].sku in items && after[i].rid == Some(rid) && after[i].movement == movement
          && after[i].quantity == sign * items[after[i].sku])
    && (forall i, j :: |before| <= i < j < |after| ==> after[i].sku < after[j].sku)
  }

  lemma {:induction false} AscendingCount(keys: set<Sku>)
    ensures |Ascending(keys)| == |keys|
    decreases |keys|
  {
    if keys != {} { AscendingCount(keys - {Least(keys)}); }
  }

  function SignOf(kind: Kind): int {
    match kind case Taking => 1 case Committing => -1 case Returning => -1
  }

  lemma EntriesLog(kind: Kind, stock: map<Sku, Level>, ledger: seq<Entry>, rid: Rid, items: map<Sku, nat>)
    requires forall s :: s in items ==> s in stock
    ensures var lines := Ascending(items.Keys);
      Logged(ledger, ledger + Entries(kind, stock, rid, items, lines), rid, items, MovementFor(kind), SignOf(kind))
  {
    hide Ascending;
    var lines := Ascending(items.Keys);
    AscendingCount(items.Keys);
    assert |items| == |items.Keys|;
    var after := ledger + Entries(kind, stock, rid, items, lines);
    forall i | |ledger| <= i < |after|
      ensures after[i].sku == lines[i - |ledger|] && after[i].sku in items && after[i].rid == Some(rid)
      ensures after[i].movement == MovementFor(kind) && after[i].quantity == SignOf(kind) * items[after[i].sku]
    {
      EntryIs(kind, stock, rid, items, lines, i - |ledger|);
    }
  }

  lemma EntryIs(kind: Kind, stock: map<Sku, Level>, rid: Rid, items: map<Sku, nat>, lines: seq<Sku>, k: nat)
    requires k < |lines| && forall s :: s in lines ==> s in items && s in stock
    ensures var e := Entries(kind, stock, rid, items, lines)[k];
      && e.sku == lines[k] && e.sku in items && e.rid == Some(rid)
      && e.movement == MovementFor(kind) && e.quantity == SignOf(kind) * items[e.sku]
  {
    assert lines[k] in lines;
  }

  function MovementFor(kind: Kind): Movement {
    match kind case Taking => Reservation_ case Committing => Commit_ case Returning => Release_
  }

  ghost predicate IsNew(db: Db, rid: Rid, oid: Oid) {
    rid !in db.resv && forall r :: r in db.resv ==> db.resv[r].orderId != oid
  }

  /** The new RESERVED row, with exactly the units asked for. */
  ghost predicate HoldsRow(db: Db, after: Db, rid: Rid, oid: Oid, items: seq<Item>) {
    && rid in after.resv && after.resv == db.resv[rid := after.resv[rid]]
    && after.resv[rid].orderId == oid && after.resv[rid].state == Reserved && !after.resv[rid].tombstone
    && (forall s :: s in after.resv[rid].items <==> exists it :: it in items && it.sku == s)
    && (forall s :: s in after.resv[rid].items ==> after.resv[rid].items[s] == Asked(items, s))
    && after.outbox == db.outbox + [NReserved(oid, rid, after.resv[rid].items)]
  }

  /** Which of its four answers Reserve gives, and what each leaves behind. */
  ghost predicate ReserveAnswers(db: Db, after: Db, out: Outcome, rid: Rid, oid: Oid, items: seq<Item>) {
    var valid := items != [] && forall it :: it in items ==> it.quantity > 0;
    && (out == Invalid <==> !valid)
    && (out == AlreadyProcessed <==> valid && !IsNew(db, rid, oid))
    && (out == Held <==> valid && IsNew(db, rid, oid) && forall it :: it in items ==> Enough(db.stock, items, it.sku))
    && (out != Held ==> after == db)
    && (out == Held ==>
          && HeldMore(db.stock, after.stock, items) && HoldsRow(db, after, rid, oid, items)
          && Logged(db.ledger, after.ledger, rid, after.resv[rid].items, Reservation_, 1))
  }

  lemma ReserveMeans(db: Db, rid: Rid, oid: Oid, items: seq<Item>)
    requires LegalShelves(db.stock)
    ensures ReserveAnswers(db, Reserve(db, rid, oid, items).0, Reserve(db, rid, oid, items).1, rid, oid, items)
  {
    hide Asked, Ascending, Entries, MoveAll, AllMovable, HeldMore, HoldsRow, Enough, Logged;
    if ValidItems(items) && IsNew(db, rid, oid) {
      TakingIsEnough(db.stock, items);
      if AllMovable(Taking, db.stock, Wanted(items)) { TakenIsHeld(db, rid, oid, items); }
    }
  }

  lemma TakenIsHeld(db: Db, rid: Rid, oid: Oid, items: seq<Item>)
    requires ValidItems(items) && IsNew(db, rid, oid) && AllMovable(Taking, db.stock, Wanted(items))
    ensures HeldMore(db.stock, Reserve(db, rid, oid, items).0.stock, items)
    ensures HoldsRow(db, Reserve(db, rid, oid, items).0, rid, oid, items)
    ensures Logged(db.ledger, Reserve(db, rid, oid, items).0.ledger, rid, Wanted(items), Reservation_, 1)
  {
    hide HeldMore, HoldsRow, Logged, Asked, MoveAll, Entries, AllMovable, Wanted;
    var w := Wanted(items);
    TakenShelves(db.stock, items);
    TakenRow(db, Reserve(db, rid, oid, items).0, rid, oid, items);
    TakenLines(db.stock, w);
    EntriesLog(Taking, db.stock, db.ledger, rid, w);
  }

  lemma TakenLines(stock: map<Sku, Level>, w: map<Sku, nat>)
    requires AllMovable(Taking, stock, w)
    ensures forall s :: s in w ==> s in stock
  {
    assert forall s :: s in w ==> Movable(Taking, stock, s, w[s]);
  }

  lemma TakenShelves(stock: map<Sku, Level>, items: seq<Item>)
    requires ValidItems(items)
    ensures HeldMore(stock, MoveAll(Taking, stock, Wanted(items)), items)
  {
    hide Asked;
    WantedIsAsked(items);
  }

  lemma TakenRow(db: Db, after: Db, rid: Rid, oid: Oid, items: seq<Item>)
    requires ValidItems(items)
    requires after.resv == db.resv[rid := Reservation(oid, Reserved, false, Wanted(items))]
    requires after.outbox == db.outbox + [NReserved(oid, rid, Wanted(items))]
    ensures HoldsRow(db, after, rid, oid, items)
  {
    hide Asked, Wanted;
    WantedIsAsked(items);
  }

  /** Every line can be taken exactly when there is enough of every SKU that an item names. */
  lemma TakingIsEnough(stock: map<Sku, Level>, items: seq<Item>)
    requires LegalShelves(stock) && forall it :: it in items ==> it.quantity > 0
    ensures AllMovable(Taking, stock, Wanted(items)) <==> forall it :: it in items ==> Enough(stock, items, it.sku)
  {
    hide Asked;
    WantedIsAsked(items);
    forall s | s in Wanted(items)
      ensures Movable(Taking, stock, s, Wanted(items)[s]) <==> Enough(stock, items, s)
    {
    }
    if AllMovable(Taking, stock, Wanted(items)) {
      forall it | it in items
        ensures Enough(stock, items, it.sku)
      {
        assert it.sku in Wanted(items);
      }
    }
  }

  // ----- settling what is held

  /** `after` is `before` with the row's units taken off `reserved`, and off `onHand` too if they were sold. */
  ghost predicate HeldLess(before: map<Sku, Level>, after: map<Sku, Level>, items: map<Sku, nat>, sold: bool) {
    && after.Keys == before.Keys
    && forall s :: s in before ==>
      && after[s].active == before[s].active
      && after[s].reserved == before[s].reserved - (if s in items then items[s] else 0)
      && after[s].onHand == before[s].onHand - (if s in items && sold then items[s] else 0)
  }

  /**
   COMMIT of a held reservation sells exactly its units; of a committed one it only repeats the event; else it refuses.
   */
  lemma CommitMeans(db: Db, rid: Rid, oid: Oid)
    requires Exact(db)
    ensures var (after, out) := Commit(db, rid, oid);
      && (out == Done(false) <==> rid in db.resv && (db.resv[rid].state == Reserved || db.resv[rid].state == Committed))
      && (out == Refused ==> after == db)
      && (out != Refused && db.resv[rid].state == Committed ==>
            after == db.(outbox := db.outbox + [NCommitted(oid, rid)]))
      && (out != Refused && db.resv[rid].state == Reserved ==>
            && HeldLess(db.stock, after.stock, db.resv[rid].items, true)
            && after.resv == db.resv[rid := db.resv[rid].(state := Committed)]
            && Logged(db.ledger, after.ledger, rid, db.resv[rid].items, Commit_, -1)
            && Announced(db.outbox, after.outbox, after.stock, db.resv[rid].items, NCommitted(oid, rid)))
  {
    hide Entries, Ascending, Exact, Logged, Announced, StockNotices;
    if rid in db.resv && db.resv[rid].state == Reserved {
      HeldIsMovable(db, rid);
      var items := db.resv[rid].items;
      assert forall s :: s in items ==> Movable(Committing, db.stock, s, items[s]);
      EntriesLog(Committing, db.stock, db.ledger, rid, items);
      NoticesAnnounce(db.outbox, MoveAll(Committing, db.stock, items), items, NCommitted(oid, rid));
    }
  }

  /** The new level of each SKU of `items`, in ascending order, and then `last`. */
  ghost predicate Announced(before: seq<Notice>, after: seq<Notice>, stock: map<Sku, Level>, items: map<Sku, nat>,
      last: Notice) {
    var n := |before| + |items|;
    && before <= after && |after| == n + 1 && after[n] == last
    && (forall i :: |before| <= i < n ==>
          && after[i].NStockChanged? && after[i].sku in items && after[i].sku in stock
          && after[i].onHand == stock[after[i].sku].onHand && after[i].reserved == stock[after[i].sku].reserved)
    && (forall i, j :: |before| <= i < j < n ==>
          after[i].NStockChanged? && after[j].NStockChanged? && after[i].sku < after[j].sku)
  }

  lemma NoticesAnnounce(outbox: seq<Notice>, stock: map<Sku, Level>, items: map<Sku, nat>, last: Notice)
    requires forall s :: s in items ==> s in stock
    ensures Announced(outbox, outbox + StockNotices(stock, Ascending(items.Keys)) + [last], stock, items, last)
  {
    var lines := Ascending(items.Keys);
    AscendingCount(items.Keys);
    assert |items| == |items.Keys|;
    var after := outbox + StockNotices(stock, lines) + [last];
    forall i | |outbox| <= i < |outbox| + |items|
      ensures after[i] == NStockChanged(lines[i - |outbox|], stock[lines[i - |outbox|]].onHand,
        stock[lines[i - |outbox|]].reserved)
      ensures lines[i - |outbox|] in items
    {
      assert lines[i - |outbox|] in lines;
    }
  }

  /**
   RELEASE gives back exactly what is held, writes a tombstone for the unknown, repeats itself, and refuses the sold.
   */
  lemma ReleaseMeans(db: Db, rid: Rid, oid: Oid)
    requires Exact(db)
    ensures var (after, out) := Release(db, rid, oid);
      && (out == Done(true) <==> IsNew(db, rid, oid))
      && (out == Refused <==> if rid in db.resv then db.resv[rid].state == Committed else !IsNew(db, rid, oid))
      && (out == Refused ==> after == db)
      && (out != Refused ==> after.outbox == db.outbox + [NReleased(oid, rid, out == Done(true))])
      && (out == Done(true) ==>
            after.stock == db.stock && after.resv == db.resv[rid := Reservation(oid, Released, true, map[])])
      && (out == Done(false) ==>
            if db.resv[rid].state == Reserved
            then
              && HeldLess(db.stock, after.stock, db.resv[rid].items, false)
              && Logged(db.ledger, after.ledger, rid, db.resv[rid].items, Release_, -1)
              && after.resv == db.resv[rid := db.resv[rid].(state := Released)]
            else after.stock == db.stock && after.resv == db.resv && after.ledger == db.ledger)
  {
    hide Entries, Ascending, Exact, Logged;
    if rid in db.resv && db.resv[rid].state == Reserved {
      HeldIsMovable(db, rid);
      ReturningIsExact(db.stock, db.resv[rid].items);
      EntriesLog(Returning, db.stock, db.ledger, rid, db.resv[rid].items);
    }
  }

  lemma ReturningIsExact(stock: map<Sku, Level>, items: map<Sku, nat>)
    requires forall s :: s in items ==> s in stock && items[s] <= stock[s].reserved
    ensures HeldLess(stock, MoveAll(Returning, stock, items), items, false)
  {
  }

  /**
   The failure transaction leaves one row for the order, writes FAILED only if there was none under this id, and reports
   it.
   */
  lemma FailureMeans(db: Db, rid: Rid, oid: Oid)
    ensures var after := PublishFailure(db, rid, oid);
      && after.stock == db.stock && after.ledger == db.ledger
      && (rid in db.resv ==> after.resv == db.resv && after.outbox == db.outbox + [NFailed(oid, rid)])
      && (IsNew(db, rid, oid) ==>
            after.resv == db.resv[rid := Reservation(oid, Failed, false, map[])] &&
              after.outbox == db.outbox + [NFailed(oid, rid)])
      && (rid !in db.resv && !IsNew(db, rid, oid) ==> after == db)
  {
  }

  /**
   An adjustment is refused exactly when it would leave less than is reserved, and otherwise changes that one level.
   */
  lemma AdjustMeans(db: Db, s: Sku, delta: int, m: Movement)
    requires LegalShelves(db.stock)
    ensures var (after, ok) := Adjust(db, s, delta, m);
      && (ok <==> s in db.stock && db.stock[s].onHand + delta >= db.stock[s].reserved)
      && (!ok ==> after == db)
      && (ok ==>
            && after.stock == db.stock[s := db.stock[s].(onHand := db.stock[s].onHand + delta)]
            && after.resv == db.resv
            && after.ledger == db.ledger + [Entry(s, None, m, delta, db.stock[s].onHand + delta, db.stock[s].reserved)]
            && after.outbox == db.outbox + [NStockChanged(s, db.stock[s].onHand + delta, db.stock[s].reserved)])
  {
  }

  // ----- the sweep

  /** Units of `s` held by the listed reservations. */
  function HeldBy(resv: map<Rid, Reservation>, rids: seq<Rid>, s: Sku): int
    requires forall r :: r in rids ==> r in resv
  {
    if rids == [] then 0
    else (if s in resv[rids[0]].items then resv[rids[0]].items[s] else 0) + HeldBy(resv, rids[1..], s)
  }

  function Expiries(resv: map<Rid, Reservation>, rids: seq<Rid>): seq<Notice>
    requires forall r :: r in rids ==> r in resv
  {
    if rids == [] then [] else [NReleased(resv[rids[0]].orderId, rids[0], false)] + Expiries(resv, rids[1..])
  }

  ghost predicate SweptBy(db: Db, after: Db, expired: seq<Rid>)
    requires forall r :: r in expired ==> r in db.resv
  {
    && after.resv.Keys == db.resv.Keys
    && (forall r :: r in db.resv ==>
          after.resv[r] == if r in expired then db.resv[r].(state := Released) else db.resv[r])
    && after.stock.Keys == db.stock.Keys
    && (forall s :: s in db.stock ==>
          after.stock[s] == db.stock[s].(reserved := db.stock[s].reserved - HeldBy(db.resv, expired, s)))
    && after.outbox == db.outbox + Expiries(db.resv, expired)
  }

  /**
   A sweep releases exactly the claimed reservations, returns exactly what they held, and reports each to its own order.
   */
  lemma {:induction false} SweepMeans(books: Books, db: Db, expired: seq<Rid>)
    requires Sound(books, db) && Claimable(db, expired)
    ensures Sweep(db, expired).Some? && SweptBy(db, Sweep(db, expired).value, expired)
    decreases |expired|
  {
    hide Sound, Entries, Ascending, SweptBy;
    if expired == [] {
      NothingSwept(db);
    } else {
      var r, rest := expired[0], expired[1..];
      assert r in expired && expired == [r] + rest;
      SoundIsExact(books, db);
      HeldIsMovable(db, r);
      GiveBackIsSound(books, db, r);
      var b := GiveBack(db, r);
      var next := b.(outbox := b.outbox + [NReleased(db.resv[r].orderId, r, false)]);
      NoticesAreSound(books, b, next.outbox);
      assert Claimable(next, rest) by {
        forall q | q in rest
          ensures q != r && q in expired
        {
          var j :| 0 <= j < |rest| && rest[j] == q;
          assert expired[j + 1] == q;
        }
        assert forall i, j :: 0 <= i < j < |rest| ==> rest[i] == expired[i + 1] && rest[j] == expired[j + 1];
      }
      SweepMeans(books, next, rest);
      OneSwept(db, next, Sweep(next, rest).value, r, rest);
    }
  }

  lemma NothingSwept(db: Db)
    ensures SweptBy(db, db, [])
  {
  }

  lemma OneSwept(db: Db, next: Db, after: Db, r: Rid, rest: seq<Rid>)
    requires r in db.resv && r !in rest && (forall q :: q in rest ==> q in db.resv)
    requires forall s :: s in db.resv[r].items ==> s in db.stock && db.resv[r].items[s] <= db.stock[s].reserved
    requires next.stock == MoveAll(Returning, db.stock, db.resv[r].items)
    requires next.resv == db.resv[r := db.resv[r].(state := Released)]
    requires next.outbox == db.outbox + [NReleased(db.resv[r].orderId, r, false)]
    requires SweptBy(next, after, rest)
    ensures SweptBy(db, after, [r] + rest)
  {
    assert ([r] + rest)[1..] == rest;
    SameElsewhere(db.resv, next.resv, r, rest);
    SweptShelves(db, next, after, r, rest);
  }

  lemma SweptShelves(db: Db, next: Db, after: Db, r: Rid, rest: seq<Rid>)
    requires r in db.resv && (forall q :: q in rest ==> q in db.resv && q in next.resv)
    requires forall s :: s in db.resv[r].items ==> s in db.stock && db.resv[r].items[s] <= db.stock[s].reserved
    requires next.stock == MoveAll(Returning, db.stock, db.resv[r].items)
    requires forall s :: HeldBy(next.resv, rest, s) == HeldBy(db.resv, rest, s)
    requires after.stock.Keys == next.stock.Keys
    requires forall s :: s in next.stock ==>
      after.stock[s] == next.stock[s].(reserved := next.stock[s].reserved - HeldBy(next.resv, rest, s))
    ensures after.stock.Keys == db.stock.Keys
    ensures forall s :: s in db.stock ==>
      after.stock[s] == db.stock[s].(reserved := db.stock[s].reserved - HeldBy(db.resv, [r] + rest, s))
  {
    assert ([r] + rest)[1..] == rest;
    ReturningIsExact(db.stock, db.resv[r].items);
  }

  lemma {:induction false} SameElsewhere(resv: map<Rid, Reservation>, next: map<Rid, Reservation>, r: Rid,
      rids: seq<Rid>)
    requires r in resv && r in next && r !in rids && next == resv[r := next[r]] && forall q :: q in rids ==> q in resv
    ensures Expiries(next, rids) == Expiries(resv, rids)
    ensures forall s :: HeldBy(next, rids, s) == HeldBy(resv, rids, s)
    decreases |rids|
  {
    if rids != [] { SameElsewhere(resv, next, r, rids[1..]); }
  }
}
