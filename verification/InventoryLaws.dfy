/** What every sequence of inventory transactions keeps: exact holds, a replayable ledger, conserved stock. */
module InventoryLaws {
  import opened Basics
  import opened ReservationRow
  import opened Inventory

  // ----- sums over reservations

  function Qty(r: Reservation, st: ResvState, s: Sku): nat {
    if r.state == st && s in r.items then r.items[s] else 0
  }

  /** Units of `s` over all reservations in state `st`. */
  ghost function Total(resv: map<Rid, Reservation>, st: ResvState, s: Sku): nat
    decreases |resv|
  {
    if resv == map[] then 0
    else
      var r :| r in resv;
      Qty(resv[r], st, s) + Total(resv - {r}, st, s)
  }

  lemma {:induction false} TotalSplits(resv: map<Rid, Reservation>, st: ResvState, s: Sku, r: Rid)
    requires r in resv
    ensures Total(resv, st, s) == Qty(resv[r], st, s) + Total(resv - {r}, st, s)
    decreases |resv|
  {
    var x :| x in resv && Total(resv, st, s) == Qty(resv[x], st, s) + Total(resv - {x}, st, s);
    if x != r {
      TotalSplits(resv - {x}, st, s, r);
      TotalSplits(resv - {r}, st, s, x);
      assert resv - {x} - {r} == resv - {r} - {x};
    }
  }

  lemma TotalPut(resv: map<Rid, Reservation>, st: ResvState, s: Sku, r: Rid, row: Reservation)
    ensures Total(resv[r := row], st, s) ==
      Total(resv, st, s) + Qty(row, st, s) - (if r in resv then Qty(resv[r], st, s) else 0)
  {
    var put := resv[r := row];
    TotalSplits(put, st, s, r);
    assert put - {r} == resv - {r};
    if r in resv {
      TotalSplits(resv, st, s, r);
    } else {
      assert resv - {r} == resv;
    }
  }

  // ----- exact holds

  ghost predicate OneRowPerOrder(resv: map<Rid, Reservation>) {
    forall r, q :: r in resv && q in resv && resv[r].orderId == resv[q].orderId ==> r == q
  }

  ghost predicate Exact(db: Db) {
    && (forall s :: s in db.stock ==> Legal(db.stock[s]) && db.stock[s].reserved == Total(db.resv, Reserved, s))
    && (forall r, s :: r in db.resv && db.resv[r].state == Reserved && s in db.resv[r].items ==> s in db.stock)
  }

  /** A reservation that is still held can be returned without clamping, and committed without breaking a CHECK. */
  lemma HeldIsMovable(db: Db, rid: Rid)
    requires Exact(db) && rid in db.resv && db.resv[rid].state == Reserved
    ensures AllMovable(Returning, db.stock, db.resv[rid].items)
    ensures AllMovable(Committing, db.stock, db.resv[rid].items)
    ensures forall s :: s in db.resv[rid].items ==> s in db.stock && db.resv[rid].items[s] <= db.stock[s].reserved
  {
    forall s | s in db.resv[rid].items
      ensures s in db.stock && db.resv[rid].items[s] <= db.stock[s].reserved
    {
      TotalSplits(db.resv, Reserved, s, rid);
    }
  }

  lemma TakeIsExact(db: Db, rid: Rid, row: Reservation, stock: map<Sku, Level>)
    requires Exact(db) && rid !in db.resv && row.state == Reserved
    requires AllMovable(Taking, db.stock, row.items) && stock == MoveAll(Taking, db.stock, row.items)
    ensures Exact(db.(stock := stock, resv := db.resv[rid := row]))
  {
    forall s
      ensures Total(db.resv[rid := row], Reserved, s) == Total(db.resv, Reserved, s) + Qty(row, Reserved, s)
    {
      TotalPut(db.resv, Reserved, s, rid, row);
    }
  }

  lemma SettleIsExact(db: Db, rid: Rid, kind: Kind, row: Reservation, stock: map<Sku, Level>)
    requires Exact(db) && rid in db.resv && db.resv[rid].state == Reserved && kind != Taking
    requires row.state != Reserved && stock == MoveAll(kind, db.stock, db.resv[rid].items)
    ensures Exact(db.(stock := stock, resv := db.resv[rid := row]))
  {
    HeldIsMovable(db, rid);
    forall s
      ensures Total(db.resv[rid := row], Reserved, s) == Total(db.resv, Reserved, s) - Qty(db.resv[rid], Reserved, s)
    {
      TotalPut(db.resv, Reserved, s, rid, row);
    }
  }

  lemma IdleIsExact(db: Db, rid: Rid, row: Reservation)
    requires Exact(db) && rid !in db.resv && row.state != Reserved
    ensures Exact(db.(resv := db.resv[rid := row]))
  {
    forall s
      ensures Total(db.resv[rid := row], Reserved, s) == Total(db.resv, Reserved, s)
    {
      TotalPut(db.resv, Reserved, s, rid, row);
    }
  }

  // ----- the ledger

  /** A SKU's balance as the ledger knows it. */
  datatype Book = Book(onHand: int, reserved: int)

  type Books = map<Sku, Book>

  function BooksOf(stock: map<Sku, Level>): Books {
    map s | s in stock :: Book(stock[s].onHand, stock[s].reserved)
  }

  /** What one movement does to the balances, read off its kind and signed quantity. */
  function Post(books: Books, e: Entry): Books {
    if e.sku !in books then books
    else
      var b := books[e.sku];
      books[e.sku :=
        match e.movement
        case Reservation_ | Release_ => b.(reserved := b.reserved + e.quantity)
        case Commit_ => Book(b.onHand + e.quantity, b.reserved + e.quantity)
        case _ => b.(onHand := b.onHand + e.quantity)]
  }

  function Replay(books: Books, ledger: seq<Entry>): Books {
    if ledger == [] then books else Post(Replay(books, ledger[..|ledger| - 1]), ledger[|ledger| - 1])
  }

  /** Every entry's after-values are the balances at that point of the replay. */
  ghost predicate Truthful(books: Books, ledger: seq<Entry>) {
    forall i :: 0 <= i < |ledger| ==> TruthfulAt(books, ledger, i)
  }

  ghost predicate TruthfulAt(books: Books, ledger: seq<Entry>, i: nat)
    requires i < |ledger|
  {
    var now := Replay(books, ledger[..i + 1]);
    ledger[i].sku in now && now[ledger[i].sku] == Book(ledger[i].onHandAfter, ledger[i].reservedAfter)
  }

  ghost predicate Audited(books: Books, db: Db) {
    Replay(books, db.ledger) == BooksOf(db.stock) && Truthful(books, db.ledger)
  }

  lemma PostKeepsAudit(books: Books, ledger: seq<Entry>, e: Entry, before: Books, after: Books)
    requires Replay(books, ledger) == before && Truthful(books, ledger)
    requires Post(before, e) == after && e.sku in after && after[e.sku] == Book(e.onHandAfter, e.reservedAfter)
    ensures Replay(books, ledger + [e]) == after && Truthful(books, ledger + [e])
  {
    var more := ledger + [e];
    assert more[..|ledger|] == ledger && more[..|more|] == more;
    forall i | 0 <= i < |more|
      ensures TruthfulAt(books, more, i)
    {
      if i < |ledger| {
        assert TruthfulAt(books, ledger, i);
        assert more[..i + 1] == ledger[..i + 1];
      }
    }
  }

  function Only(items: map<Sku, nat>, lines: seq<Sku>): map<Sku, nat> {
    map s | s in items && s in lines :: items[s]
  }

  lemma LineIsPosted(kind: Kind, stock: map<Sku, Level>, rid: Rid, s: Sku, q: nat)
    requires s in stock && (kind == Returning ==> q <= stock[s].reserved)
    ensures var l := Move(kind, stock[s], q); var e := LineEntry(kind, rid, s, q, l);
      Post(BooksOf(stock), e) == BooksOf(stock[s := l]) &&
        BooksOf(stock[s := l])[s] == Book(e.onHandAfter, e.reservedAfter)
  {
    var l := Move(kind, stock[s], q);
    assert BooksOf(stock)[s] == Book(stock[s].onHand, stock[s].reserved);
    assert BooksOf(stock[s := l]) == BooksOf(stock)[s := Book(l.onHand, l.reserved)];
  }

  lemma OneLineMore(kind: Kind, stock: map<Sku, Level>, items: map<Sku, nat>, front: seq<Sku>, s: Sku)
    requires s !in front && s in items && s in stock
    ensures MoveAll(kind, stock, Only(items, front))[s] == stock[s]
    ensures MoveAll(kind, stock, Only(items, front + [s])) ==
      MoveAll(kind, stock, Only(items, front))[s := Move(kind, stock[s], items[s])]
  {
  }

  lemma EntriesLast(kind: Kind, stock: map<Sku, Level>, rid: Rid, items: map<Sku, nat>, front: seq<Sku>, s: Sku)
    requires forall t :: t in front + [s] ==> t in items && t in stock
    ensures s in items && s in stock && forall t :: t in front ==> t in items && t in stock
    ensures Entries(kind, stock, rid, items, front + [s]) ==
      Entries(kind, stock, rid, items, front) + [LineEntry(kind, rid, s, items[s], Move(kind, stock[s], items[s]))]
  {
    assert forall t :: t in front ==> t in front + [s];
    assert s in front + [s];
  }

  lemma LastIsNew(lines: seq<Sku>)
    requires lines != [] && Ordered(lines)
    ensures lines == lines[..|lines| - 1] + [lines[|lines| - 1]] && Ordered(lines[..|lines| - 1])
    ensures lines[|lines| - 1] !in lines[..|lines| - 1]
  {
  }

  /** Line by line, the ledger rows of a reservation replay exactly what happened to the stock. */
  lemma {:induction false} LinesKeepAudit(books: Books, ledger: seq<Entry>, kind: Kind, stock: map<Sku, Level>,
      rid: Rid, items: map<Sku, nat>, lines: seq<Sku>)
    requires Replay(books, ledger) == BooksOf(stock) && Truthful(books, ledger)
    requires Ordered(lines) && forall s :: s in lines ==> s in items && s in stock
    requires kind == Returning ==> forall s :: s in lines ==> items[s] <= stock[s].reserved
    ensures Replay(books, ledger + Entries(kind, stock, rid, items, lines)) ==
      BooksOf(MoveAll(kind, stock, Only(items, lines)))
    ensures Truthful(books, ledger + Entries(kind, stock, rid, items, lines))
    decreases |lines|
  {
    if lines == [] {
      assert ledger + Entries(kind, stock, rid, items, lines) == ledger;
      assert MoveAll(kind, stock, Only(items, lines)) == stock;
    } else {
      AuditOneMore(books, ledger, kind, stock, rid, items, lines);
    }
  }

  lemma AuditOneMore(books: Books, ledger: seq<Entry>, kind: Kind, stock: map<Sku, Level>, rid: Rid,
      items: map<Sku, nat>, lines: seq<Sku>)
    requires Replay(books, ledger) == BooksOf(stock) && Truthful(books, ledger)
    requires lines != [] && Ordered(lines) && forall s :: s in lines ==> s in items && s in stock
    requires kind == Returning ==> forall s :: s in lines ==> items[s] <= stock[s].reserved
    ensures Replay(books, ledger + Entries(kind, stock, rid, items, lines)) ==
      BooksOf(MoveAll(kind, stock, Only(items, lines)))
    ensures Truthful(books, ledger + Entries(kind, stock, rid, items, lines))
    decreases |lines|, 0
  {
    hide Truthful, Replay, MoveAll, BooksOf, Post, Entries, Only, Ordered;
    var n := |lines| - 1;
    var front, s := lines[..n], lines[n];
    LastIsNew(lines);
    EntriesLast(kind, stock, rid, items, front, s);
    LinesKeepAudit(books, ledger, kind, stock, rid, items, front);
    var mid := MoveAll(kind, stock, Only(items, front));
    OneLineMore(kind, stock, items, front, s);
    MovedKeys(kind, stock, Only(items, front));
    LineIsPosted(kind, mid, rid, s, items[s]);
    var e := LineEntry(kind, rid, s, items[s], Move(kind, stock[s], items[s]));
    var sofar := ledger + Entries(kind, stock, rid, items, front);
    assert ledger + Entries(kind, stock, rid, items, lines) == sofar + [e];
    BooksKeys(mid[s := Move(kind, stock[s], items[s])]);
    PostKeepsAudit(books, sofar, e, BooksOf(mid), BooksOf(mid[s := Move(kind, stock[s], items[s])]));
  }

  lemma MovedKeys(kind: Kind, stock: map<Sku, Level>, items: map<Sku, nat>)
    ensures MoveAll(kind, stock, items).Keys == stock.Keys
  {
  }

  lemma BooksKeys(stock: map<Sku, Level>)
    ensures BooksOf(stock).Keys == stock.Keys
  {
  }

  // ----- conservation of physical stock

  predicate IsAdjustment(e: Entry, s: Sku) {
    e.sku == s && AdjustKind(e.movement)
  }

  /** Net adjustments of `s` recorded in the ledger. */
  function Adjusted(ledger: seq<Entry>, s: Sku): int {
    if ledger == [] then 0
    else Adjusted(ledger[..|ledger| - 1], s) + if IsAdjustment(ledger[|ledger| - 1], s)
      then ledger[|ledger| - 1].quantity else 0
  }

  lemma {:induction false} LinesDoNotAdjust(ledger: seq<Entry>, more: seq<Entry>, s: Sku)
    requires forall e :: e in more ==> !AdjustKind(e.movement)
    ensures Adjusted(ledger + more, s) == Adjusted(ledger, s)
    decreases |more|
  {
    if more == [] {
      assert ledger + more == ledger;
    } else {
      var n := |more| - 1;
      assert (ledger + more)[..|ledger + more| - 1] == ledger + more[..n];
      LinesDoNotAdjust(ledger, more[..n], s);
      assert more[n] in more;
    }
  }

  /** Physical stock is the opening balance, plus adjustments, minus the units of committed reservations. */
  ghost predicate Conserved(books: Books, db: Db) {
    forall s :: s in db.stock ==>
      s in books && db.stock[s].onHand == books[s].onHand + Adjusted(db.ledger, s) - Total(db.resv, Committed, s)
  }

  ghost predicate Sound(books: Books, db: Db) {
    Exact(db) && OneRowPerOrder(db.resv) && Audited(books, db) && Conserved(books, db)
  }

  // ----- each transaction

  /** `after` moved every line of `rid`'s items and put `row` in its place. */
  ghost predicate Moved(db: Db, after: Db, kind: Kind, rid: Rid, items: map<Sku, nat>, row: Reservation) {
    && AllMovable(kind, db.stock, items)
    && after.stock == MoveAll(kind, db.stock, items)
    && after.resv == db.resv[rid := row]
    && after.ledger == db.ledger + Entries(kind, db.stock, rid, items, Ascending(items.Keys))
  }

  lemma MovedIsAudited(books: Books, db: Db, after: Db, kind: Kind, rid: Rid, items: map<Sku, nat>, row: Reservation)
    requires Audited(books, db) && Moved(db, after, kind, rid, items, row)
    requires kind == Returning ==> forall s :: s in items ==> items[s] <= db.stock[s].reserved
    ensures Audited(books, after)
  {
    hide Truthful, Replay, MoveAll, Entries;
    LinesKeepAudit(books, db.ledger, kind, db.stock, rid, items, Ascending(items.Keys));
    assert Only(items, Ascending(items.Keys)) == items;
  }

  lemma MovedIsConserved(books: Books, db: Db, after: Db, kind: Kind, rid: Rid, items: map<Sku, nat>, row: Reservation)
    requires Conserved(books, db) && Moved(db, after, kind, rid, items, row)
    requires row.state == (if kind == Taking then Reserved else if kind == Committing then Committed else Released) &&
      row.items == items
    requires rid in db.resv ==> db.resv[rid].state == Reserved
    ensures Conserved(books, after)
  {
    hide Total, Adjusted;
    forall s
      ensures Total(after.resv, Committed, s) == Total(db.resv, Committed, s) + Qty(row, Committed, s)
      ensures Adjusted(after.ledger, s) == Adjusted(db.ledger, s)
    {
      TotalPut(db.resv, Committed, s, rid, row);
      LinesDoNotAdjust(db.ledger, Entries(kind, db.stock, rid, items, Ascending(items.Keys)), s);
    }
  }

  lemma ReserveIsSound(books: Books, db: Db, rid: Rid, oid: Oid, items: seq<Item>)
    requires Sound(books, db)
    ensures Sound(books, Reserve(db, rid, oid, items).0)
  {
    hide Total, Replay, Truthful, Adjusted, MoveAll, Entries;
    var (after, out) := Reserve(db, rid, oid, items);
    if out == Held {
      var w := Wanted(items);
      var row := Reservation(oid, Reserved, false, w);
      TakeIsExact(db, rid, row, after.stock);
      MovedIsAudited(books, db, after, Taking, rid, w, row);
      MovedIsConserved(books, db, after, Taking, rid, w, row);
    }
  }

  /** A transaction that only adds a settled row. */
  lemma IdleIsSound(books: Books, db: Db, rid: Rid, row: Reservation)
    requires Sound(books, db) && rid !in db.resv && (row.state == Failed || row.state == Released)
    requires forall r :: r in db.resv ==> db.resv[r].orderId != row.orderId
    ensures Sound(books, db.(resv := db.resv[rid := row]))
  {
    hide Total, Replay, Truthful, Adjusted;
    IdleIsExact(db, rid, row);
    forall s
      ensures Total(db.resv[rid := row], Committed, s) == Total(db.resv, Committed, s)
    {
      TotalPut(db.resv, Committed, s, rid, row);
    }
  }

  lemma NoticesAreSound(books: Books, db: Db, notices: seq<Notice>)
    requires Sound(books, db)
    ensures Sound(books, db.(outbox := notices))
  {
  }

  lemma FailureIsSound(books: Books, db: Db, rid: Rid, oid: Oid)
    requires Sound(books, db)
    ensures Sound(books, PublishFailure(db, rid, oid))
  {
    hide Sound;
    if rid in db.resv {
      NoticesAreSound(books, db, db.outbox + [NFailed(oid, rid)]);
    } else if !OrderKnown(db, oid) {
      var row := Reservation(oid, Failed, false, map[]);
      IdleIsSound(books, db, rid, row);
      NoticesAreSound(books, db.(resv := db.resv[rid := row]), db.outbox + [NFailed(oid, rid)]);
    }
  }

  lemma SettleIsSound(books: Books, db: Db, after: Db, kind: Kind, rid: Rid, row: Reservation)
    requires Sound(books, db) && rid in db.resv && db.resv[rid].state == Reserved && kind != Taking
    requires row == db.resv[rid].(state := if kind == Committing then Committed else Released)
    requires Moved(db, after, kind, rid, db.resv[rid].items, row)
    ensures Sound(books, after)
  {
    hide Total, Replay, Truthful, Adjusted, MoveAll, Entries;
    HeldIsMovable(db, rid);
    SettleIsExact(db, rid, kind, row, after.stock);
    MovedIsAudited(books, db, after, kind, rid, db.resv[rid].items, row);
    MovedIsConserved(books, db, after, kind, rid, db.resv[rid].items, row);
  }

  lemma GiveBackIsSound(books: Books, db: Db, rid: Rid)
    requires Sound(books, db) && rid in db.resv && db.resv[rid].state == Reserved &&
      AllMovable(Returning, db.stock, db.resv[rid].items)
    ensures Sound(books, GiveBack(db, rid))
  {
    SettleIsSound(books, db, GiveBack(db, rid), Returning, rid, db.resv[rid].(state := Released));
  }

  lemma ReleaseIsSound(books: Books, db: Db, rid: Rid, oid: Oid)
    requires Sound(books, db)
    ensures Sound(books, Release(db, rid, oid).0)
  {
    hide Sound, GiveBack;
    var after := Release(db, rid, oid).0;
    if rid !in db.resv {
      if !OrderKnown(db, oid) {
        var row := Reservation(oid, Released, true, map[]);
        IdleIsSound(books, db, rid, row);
        NoticesAreSound(books, db.(resv := db.resv[rid := row]), after.outbox);
      }
    } else if db.resv[rid].state == Reserved && AllMovable(Returning, db.stock, db.resv[rid].items) {
      GiveBackIsSound(books, db, rid);
      NoticesAreSound(books, GiveBack(db, rid), after.outbox);
    } else {
      NoticesAreSound(books, db, after.outbox);
    }
  }

  lemma CommitIsSound(books: Books, db: Db, rid: Rid, oid: Oid)
    requires Sound(books, db)
    ensures Sound(books, Commit(db, rid, oid).0)
  {
    hide Sound, MoveAll, Entries, StockNotices;
    var (after, out) := Commit(db, rid, oid);
    if rid in db.resv {
      if db.resv[rid].state == Reserved && out.Done? {
        SettleIsSound(books, db, after, Committing, rid, db.resv[rid].(state := Committed));
      } else {
        NoticesAreSound(books, db, after.outbox);
      }
    }
  }

  lemma {:induction false} SweepIsSound(books: Books, db: Db, expired: seq<Rid>)
    requires Sound(books, db) && Claimable(db, expired)
    ensures Sweep(db, expired).Some? && Sound(books, Sweep(db, expired).value)
    decreases |expired|
  {
    hide Sound, MoveAll, Entries;
    if expired != [] {
      var r := expired[0];
      SoundIsExact(books, db);
      HeldIsMovable(db, r);
      GiveBackIsSound(books, db, r);
      var b := GiveBack(db, r);
      var next := b.(outbox := b.outbox + [NReleased(db.resv[r].orderId, r, false)]);
      NoticesAreSound(books, b, next.outbox);
      SweepIsSound(books, next, expired[1..]);
    }
  }

  lemma SoundIsExact(books: Books, db: Db)
    requires Sound(books, db)
    ensures Exact(db)
  {
  }

  lemma AdjustIsSound(books: Books, db: Db, s: Sku, delta: int, m: Movement)
    requires Sound(books, db) && AdjustKind(m)
    ensures Sound(books, Adjust(db, s, delta, m).0)
  {
    hide Total, Replay, Truthful;
    var (after, ok) := Adjust(db, s, delta, m);
    if ok {
      var e := after.ledger[|db.ledger|];
      assert after.ledger[..|db.ledger|] == db.ledger;
      assert BooksOf(after.stock) == BooksOf(db.stock)[s := Book(e.onHandAfter, e.reservedAfter)];
      PostKeepsAudit(books, db.ledger, e, BooksOf(db.stock), BooksOf(after.stock));
    }
  }

  // ----- every sequence of transactions

  datatype Op =
    | OpReserve(rid: Rid, oid: Oid, items: seq<Item>)
    | OpFailure(rid: Rid, oid: Oid)
    | OpRelease(rid: Rid, oid: Oid)
    | OpCommit(rid: Rid, oid: Oid)
    | OpSweep(expired: seq<Rid>)
    | OpAdjust(sku: Sku, delta: int, movement: Movement)

  function Step(db: Db, op: Op): Db {
    match op
    case OpReserve(rid, oid, items) => Reserve(db, rid, oid, items).0
    case OpFailure(rid, oid) => PublishFailure(db, rid, oid)
    case OpRelease(rid, oid) => Release(db, rid, oid).0
    case OpCommit(rid, oid) => Commit(db, rid, oid).0
    case OpSweep(expired) => if Claimable(db, expired) && Sweep(db, expired).Some? then Sweep(db, expired).value else db
    case OpAdjust(s, delta, m) => if AdjustKind(m) then Adjust(db, s, delta, m).0 else db
  }

  function Run(db: Db, ops: seq<Op>): Db {
    if ops == [] then db else Step(Run(db, ops[..|ops| - 1]), ops[|ops| - 1])
  }

  /** Stock as it is loaded: legal levels, nothing reserved yet. */
  ghost predicate Opening(stock: map<Sku, Level>) {
    forall s :: s in stock ==> stock[s].reserved == 0 && 0 <= stock[s].onHand
  }

  function Open(stock: map<Sku, Level>): Db {
    Db(stock, map[], [], [])
  }

  lemma OpeningIsSound(stock: map<Sku, Level>)
    requires Opening(stock)
    ensures Sound(BooksOf(stock), Open(stock))
  {
  }

  lemma StepIsSound(books: Books, db: Db, op: Op)
    requires Sound(books, db)
    ensures Sound(books, Step(db, op))
  {
    hide Sound;
    match op
    case OpReserve(rid, oid, items) => ReserveIsSound(books, db, rid, oid, items);
    case OpFailure(rid, oid) => FailureIsSound(books, db, rid, oid);
    case OpRelease(rid, oid) => ReleaseIsSound(books, db, rid, oid);
    case OpCommit(rid, oid) => CommitIsSound(books, db, rid, oid);
    case OpSweep(expired) => if Claimable(db, expired) { SweepIsSound(books, db, expired); }
    case OpAdjust(s, delta, m) => if AdjustKind(m) { AdjustIsSound(books, db, s, delta, m); }
  }

  lemma {:induction false} RunIsSound(stock: map<Sku, Level>, ops: seq<Op>)
    requires Opening(stock)
    ensures Sound(BooksOf(stock), Run(Open(stock), ops))
    decreases |ops|
  {
    hide Sound;
    if ops == [] {
      OpeningIsSound(stock);
    } else {
      RunIsSound(stock, ops[..|ops| - 1]);
      StepIsSound(BooksOf(stock), Run(Open(stock), ops[..|ops| - 1]), ops[|ops| - 1]);
    }
  }

  /**
   After any sequence of transactions: no oversell, `reserved` is exactly what open reservations hold, the
   ledger replays to the present balances and was right at every entry, and physical stock is conserved.
   */
  lemma EveryRunBalances(stock: map<Sku, Level>, ops: seq<Op>)
    requires Opening(stock)
    ensures var db := Run(Open(stock), ops);
      && (forall s :: s in db.stock ==>
            && 0 <= db.stock[s].reserved <= db.stock[s].onHand
            && db.stock[s].reserved == Total(db.resv, Reserved, s)
            && s in stock
            && db.stock[s].onHand == stock[s].onHand + Adjusted(db.ledger, s) - Total(db.resv, Committed, s))
      && Replay(BooksOf(stock), db.ledger) == BooksOf(db.stock)
      && Truthful(BooksOf(stock), db.ledger)
  {
    hide Total, Replay, Truthful, Adjusted, Run;
    RunIsSound(stock, ops);
  }

  /** A held reservation can always be released or committed: the clamp and the CHECKs never engage. */
  lemma HeldAlwaysSettles(stock: map<Sku, Level>, ops: seq<Op>, rid: Rid, oid: Oid)
    requires Opening(stock)
    requires var db := Run(Open(stock), ops); rid in db.resv && db.resv[rid].state == Reserved
    ensures var db := Run(Open(stock), ops);
      && Release(db, rid, oid).1 == Done(false) && Commit(db, rid, oid).1 == Done(false)
      && (forall s :: s in db.resv[rid].items ==> s in db.stock && db.stock[s].reserved - db.resv[rid].items[s] >= 0)
  {
    hide Run;
    RunIsSound(stock, ops);
    var db := Run(Open(stock), ops);
    SoundIsExact(BooksOf(stock), db);
    HeldIsMovable(db, rid);
  }
}
