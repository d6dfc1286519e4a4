/**
 The reservation engine as it runs: tables rewritten one statement at a time, in SKU order, and put
 back as they were when a transaction fails. Each transaction is proved to have its specified effect.
 */
module StockEngineTables {
  import opened Basics
  import opened ReservationRow
  import opened Inventory
  import opened StockMeaning
  import opened InventoryLaws

  function NoticeFor(s: Sku, l: Level): Notice {
    NStockChanged(s, l.onHand, l.reserved)
  }

  /** The StockChanged notices a commit writes beside its lines. */
  function Noticed(kind: Kind, stock: map<Sku, Level>, items: map<Sku, nat>, lines: seq<Sku>): seq<Notice>
    requires forall s :: s in lines ==> s in items && s in stock
  {
    if kind != Committing then []
    else
      seq(|lines|, i requires 0 <= i < |lines| =>
        NoticeFor(lines[i], Move(kind, stock[lines[i]], items[lines[i]])))
  }

  /** The tables after the first `i` lines of a reservation have gone through. */
  ghost predicate Sofar(kind: Kind, begin: Db, rid: Rid, items: map<Sku, nat>, lines: seq<Sku>, i: nat,
                        stock: map<Sku, Level>, ledger: seq<Entry>, outbox: seq<Notice>)
  {
    && i <= |lines|
    && (forall s :: s in lines[..i] ==> s in items && Movable(kind, begin.stock, s, items[s]))
    && stock == MoveAll(kind, begin.stock, Only(items, lines[..i]))
    && ledger == begin.ledger + Entries(kind, begin.stock, rid, items, lines[..i])
    && outbox == begin.outbox + Noticed(kind, begin.stock, items, lines[..i])
  }

  lemma NewLine(lines: seq<Sku>, i: nat)
    requires Ordered(lines) && i < |lines|
    ensures lines[..i + 1] == lines[..i] + [lines[i]] && lines[i] !in lines[..i] && lines[i] in lines
  {
  }

  lemma Untouched(kind: Kind, stock: map<Sku, Level>, items: map<Sku, nat>, front: seq<Sku>, s: Sku)
    requires s !in front
    ensures s in MoveAll(kind, stock, Only(items, front)) <==> s in stock
    ensures s in stock ==> MoveAll(kind, stock, Only(items, front))[s] == stock[s]
  {
  }

  lemma NoticedLast(kind: Kind, stock: map<Sku, Level>, items: map<Sku, nat>, front: seq<Sku>, s: Sku)
    requires forall t :: t in front ==> t in items && t in stock
    requires s in items && s in stock
    ensures forall t :: t in front + [s] ==> t in items && t in stock
    ensures var l := Move(kind, stock[s], items[s]);
      Noticed(kind, stock, items, front + [s]) == Noticed(kind, stock, items, front) + if kind == Committing
        then [NStockChanged(s, l.onHand, l.reserved)] else []
  {
    assert forall t :: t in front + [s] ==> t in front || t == s;
  }

  lemma SofarStarts(kind: Kind, begin: Db, rid: Rid, items: map<Sku, nat>, lines: seq<Sku>)
    ensures Sofar(kind, begin, rid, items, lines, 0, begin.stock, begin.ledger, begin.outbox)
  {
    assert lines[..0] == [];
    assert begin.ledger + [] == begin.ledger && begin.outbox + [] == begin.outbox;
  }

  /** The next line sees its row as it was when the transaction began. */
  lemma SofarFresh(kind: Kind, begin: Db, rid: Rid, items: map<Sku, nat>, lines: seq<Sku>, i: nat,
                   stock: map<Sku, Level>, ledger: seq<Entry>, outbox: seq<Notice>)
    requires Sofar(kind, begin, rid, items, lines, i, stock, ledger, outbox)
    requires Ordered(lines) && i < |lines| && lines[i] in items
    ensures lines[i] in stock <==> lines[i] in begin.stock
    ensures lines[i] in stock ==> stock[lines[i]] == begin.stock[lines[i]]
    ensures Movable(kind, stock, lines[i], items[lines[i]]) <==> Movable(kind, begin.stock, lines[i], items[lines[i]])
  {
    hide Entries, Noticed, MoveAll, Only;
    NewLine(lines, i);
    Untouched(kind, begin.stock, items, lines[..i], lines[i]);
  }

  lemma SofarNext(kind: Kind, begin: Db, rid: Rid, items: map<Sku, nat>, lines: seq<Sku>, i: nat,
                  stock: map<Sku, Level>, ledger: seq<Entry>, outbox: seq<Notice>, l: Level)
    requires Sofar(kind, begin, rid, items, lines, i, stock, ledger, outbox)
    requires Ordered(lines) && i < |lines| && lines[i] in items
    requires Movable(kind, begin.stock, lines[i], items[lines[i]]) &&
      l == Move(kind, begin.stock[lines[i]], items[lines[i]])
    ensures Sofar(kind, begin, rid, items, lines, i + 1, stock[lines[i] := l],
      ledger + [LineEntry(kind, rid, lines[i], items[lines[i]], l)],
                  outbox + if kind == Committing then [NStockChanged(lines[i], l.onHand, l.reserved)] else [])
  {
    hide Entries, Noticed, MoveAll, Only, Movable;
    var s, front := lines[i], lines[..i];
    MovableKnown(kind, begin.stock, items);
    NewLine(lines, i);
    NoticedLast(kind, begin.stock, items, front, s);
    EntriesLast(kind, begin.stock, rid, items, front, s);
    OneLineMore(kind, begin.stock, items, front, s);
  }

  lemma MovableKnown(kind: Kind, stock: map<Sku, Level>, items: map<Sku, nat>)
    ensures forall s :: s in items && Movable(kind, stock, s, items[s]) ==> s in stock
  {
  }

  lemma MovableHere(kind: Kind, stock: map<Sku, Level>, s: Sku, q: nat)
    requires Movable(kind, stock, s, q)
    ensures s in stock
  {
  }

  lemma SofarEnds(kind: Kind, begin: Db, rid: Rid, items: map<Sku, nat>, lines: seq<Sku>,
                  stock: map<Sku, Level>, ledger: seq<Entry>, outbox: seq<Notice>)
    requires Sofar(kind, begin, rid, items, lines, |lines|, stock, ledger, outbox)
    requires forall s :: s in lines <==> s in items
    ensures AllMovable(kind, begin.stock, items)
    ensures stock == MoveAll(kind, begin.stock, items)
    ensures ledger == begin.ledger + Entries(kind, begin.stock, rid, items, lines)
    ensures outbox == begin.outbox + if kind == Committing then StockNotices(stock, lines) else []
  {
    assert lines[..|lines|] == lines;
    assert Only(items, lines) == items;
    if kind == Committing {
      assert Noticed(kind, begin.stock, items, lines) == StockNotices(stock, lines);
    }
  }

  class StockEngine {
    var stock: map<Sku, Level>
    var resv: map<Rid, Reservation>
    var ledger: seq<Entry>
    var outbox: seq<Notice>

    function Tables(): (db: Db)
      reads this
    {
      Db(stock, resv, ledger, outbox)
    }

    constructor (opening: map<Sku, Level>)
      ensures Tables() == Open(opening)
    {
      stock, resv, ledger, outbox := opening, map[], [], [];
    }

    method Rollback(db: Db)
      modifies this
      ensures Tables() == db
    {
      stock, resv, ledger, outbox := db.stock, db.resv, db.ledger, db.outbox;
    }

    /** Sums duplicate SKUs; refuses a quantity that is not positive. */
    method SumItems(items: seq<Item>) returns (ok: bool, wanted: map<Sku, nat>)
      ensures ok <==> ValidItems(items)
      ensures ok ==> wanted == Wanted(items)
    {
      wanted := map[];
      if items == [] { return false, wanted; }
      for i := 0 to |items|
        invariant forall it :: it in items[..i] ==> it.quantity > 0
        invariant wanted == Wanted(items[..i])
      {
        var it := items[i];
        if it.quantity <= 0 {
          assert it in items;
          return false, wanted;
        }
        assert items[..i + 1] == items[..i] + [it] && items[..i + 1][..i] == items[..i];
        wanted := wanted[it.sku := (if it.sku in wanted then wanted[it.sku] else 0) + it.quantity];
      }
      assert items[..|items|] == items;
      ok := true;
    }

    /** Takes the lines one by one, remembering which fell short; the caller undoes a partial take. */
    method TakeLines(rid: Rid, wanted: map<Sku, nat>, lines: seq<Sku>)
      returns (unavailable: seq<Sku>, items: map<Sku, nat>)
      requires Ordered(lines) && forall s :: s in lines <==> s in wanted
      modifies `stock, `ledger
      ensures unavailable == [] <==> AllMovable(Taking, old(stock), wanted)
      ensures unavailable == [] ==>
        && stock == MoveAll(Taking, old(stock), wanted) && items == wanted
        && ledger == old(ledger) + Entries(Taking, old(stock), rid, wanted, lines)
    {
      hide Sofar, MoveAll, Entries, Ordered, Noticed, Movable;
      unavailable, items := [], map[];
      ghost var begin := Tables();
      SofarStarts(Taking, begin, rid, wanted, lines);
      for i := 0 to |lines|
        invariant unavailable == [] ==> Sofar(Taking, begin, rid, wanted, lines, i, stock, ledger, outbox)
        invariant unavailable == [] ==> items.Keys == set s | s in lines[..i]
        invariant unavailable == [] ==> forall s :: s in items ==> s in wanted && items[s] == wanted[s]
        invariant unavailable != [] ==> !AllMovable(Taking, begin.stock, wanted)
        invariant outbox == old(outbox) && stock.Keys == begin.stock.Keys
      {
        var s := lines[i];
        assert s in lines;
        var q := wanted[s];
        if unavailable == [] { SofarFresh(Taking, begin, rid, wanted, lines, i, stock, ledger, outbox); }
        if !Movable(Taking, stock, s, q) {
          unavailable := unavailable + [s];
        } else {
          MovableHere(Taking, stock, s, q);
          if unavailable == [] {
            SofarNext(Taking, begin, rid, wanted, lines, i, stock, ledger, outbox, Move(Taking, stock[s], q));
            assert outbox + [] == outbox;
          }
          stock := stock[s := Move(Taking, stock[s], q)];
          items := items[s := q];
          ledger := ledger + [LineEntry(Taking, rid, s, q, stock[s])];
        }
        assert lines[..i + 1] == lines[..i] + [s];
      }
      if unavailable == [] {
        SofarEnds(Taking, begin, rid, wanted, lines, stock, ledger, outbox);
        assert lines[..|lines|] == lines;
        assert items == wanted;
      }
    }

    method ReserveStock(rid: Rid, oid: Oid, items: seq<Item>) returns (out: Outcome)
      modifies this
      ensures (Tables(), out) == Reserve(old(Tables()), rid, oid, items)
      ensures LegalShelves(old(stock)) ==> ReserveAnswers(old(Tables()), Tables(), out, rid, oid, items)
    {
      hide ReserveAnswers, LegalShelves, MoveAll, AllMovable, Entries;
      ghost var was := Tables();
      if LegalShelves(stock) { ReserveMeans(was, rid, oid, items); }
      var ok, wanted := SumItems(items);
      if !ok { return Invalid; }
      if rid in resv || OrderKnown(Tables(), oid) { return AlreadyProcessed; }
      var begin := Tables();
      resv := resv[rid := Reservation(oid, Reserved, false, map[])];
      var unavailable, taken := TakeLines(rid, wanted, Ascending(wanted.Keys));
      resv := resv[rid := resv[rid].(items := taken)];
      if unavailable != [] {
        Rollback(begin);
        return Partial;
      }
      outbox := outbox + [NReserved(oid, rid, wanted)];
      assert resv == begin.resv[rid := Reservation(oid, Reserved, false, wanted)];
      out := Held;
    }

    method ReportFailure(rid: Rid, oid: Oid)
      modifies this
      ensures Tables() == PublishFailure(old(Tables()), rid, oid)
    {
      if rid !in resv {
        if OrderKnown(Tables(), oid) { return; }
        resv := resv[rid := Reservation(oid, Failed, false, map[])];
      }
      outbox := outbox + [NFailed(oid, rid)];
    }

    /** Commits or returns the lines of a reservation; stops at the first line the database refuses. */
    method SettleLines(kind: Kind, rid: Rid) returns (ok: bool)
      requires kind != Taking && rid in resv
      modifies `stock, `ledger, `outbox
      ensures ok <==> AllMovable(kind, old(stock), resv[rid].items)
      ensures ok ==> stock == MoveAll(kind, old(stock), resv[rid].items)
      ensures ok ==>
        ledger == old(ledger) + Entries(kind, old(stock), rid, resv[rid].items, Ascending(resv[rid].items.Keys))
      ensures ok && kind == Committing ==>
        outbox == old(outbox) + StockNotices(stock, Ascending(resv[rid].items.Keys))
      ensures ok && kind != Committing ==> outbox == old(outbox)
    {
      hide Sofar, MoveAll, Entries, Ordered, Noticed, Movable, StockNotices;
      var items := resv[rid].items;
      var lines := Ascending(items.Keys);
      ghost var begin := Tables();
      SofarStarts(kind, begin, rid, items, lines);
      for i := 0 to |lines|
        invariant Sofar(kind, begin, rid, items, lines, i, stock, ledger, outbox)
      {
        var s := lines[i];
        assert s in lines;
        SofarFresh(kind, begin, rid, items, lines, i, stock, ledger, outbox);
        if !Movable(kind, stock, s, items[s]) {
          return false;
        }
        MovableHere(kind, stock, s, items[s]);
        SofarNext(kind, begin, rid, items, lines, i, stock, ledger, outbox, Move(kind, stock[s], items[s]));
        stock := stock[s := Move(kind, stock[s], items[s])];
        ledger := ledger + [LineEntry(kind, rid, s, items[s], stock[s])];
        assert outbox + [] == outbox;
        if kind == Committing { outbox := outbox + [NStockChanged(s, stock[s].onHand, stock[s].reserved)]; }
      }
      SofarEnds(kind, begin, rid, items, lines, stock, ledger, outbox);
      assert begin.outbox + [] == begin.outbox;
      ok := true;
    }

    method ReleaseStock(rid: Rid, oid: Oid) returns (out: Answer)
      modifies this
      ensures (Tables(), out) == Release(old(Tables()), rid, oid)
    {
      var begin := Tables();
      if rid !in resv {
        if OrderKnown(Tables(), oid) { return Refused; }
        resv := resv[rid := Reservation(oid, Released, true, map[])];
        outbox := outbox + [NReleased(oid, rid, true)];
        return Done(true);
      }
      if resv[rid].state == Committed { return Refused; }
      if resv[rid].state == Reserved {
        var ok := SettleLines(Returning, rid);
        if !ok { Rollback(begin); return Refused; }
        resv := resv[rid := resv[rid].(state := Released)];
      }
      outbox := outbox + [NReleased(oid, rid, false)];
      out := Done(false);
    }

    method CommitStock(rid: Rid, oid: Oid) returns (out: Answer)
      modifies this
      ensures (Tables(), out) == Commit(old(Tables()), rid, oid)
    {
      var begin := Tables();
      if rid !in resv { return Refused; }
      if resv[rid].state == Committed {
        outbox := outbox + [NCommitted(oid, rid)];
        return Done(false);
      }
      if resv[rid].state != Reserved { return Refused; }
      var ok := SettleLines(Committing, rid);
      if !ok { Rollback(begin); return Refused; }
      resv := resv[rid := resv[rid].(state := Committed)];
      outbox := outbox + [NCommitted(oid, rid)];
      out := Done(false);
    }

    /** The TTL sweep over the reservations ClaimExpired returned. */
    method SweepExpired(expired: seq<Rid>) returns (ok: bool)
      requires Claimable(Tables(), expired)
      modifies this
      ensures ok <==> Sweep(old(Tables()), expired).Some?
      ensures Tables() == if ok then Sweep(old(Tables()), expired).value else old(Tables())
    {
      var begin := Tables();
      for i := 0 to |expired|
        invariant Claimable(Tables(), expired[i..])
        invariant Sweep(Tables(), expired[i..]) == Sweep(begin, expired)
      {
        var r := expired[i];
        assert expired[i..][0] == r && expired[i..][1..] == expired[i + 1..];
        var moved := SettleLines(Returning, r);
        if !moved {
          Rollback(begin);
          return false;
        }
        resv := resv[r := resv[r].(state := Released)];
        outbox := outbox + [NReleased(resv[r].orderId, r, false)];
      }
      ok := true;
    }

    method AdjustStock(s: Sku, delta: int, m: Movement) returns (ok: bool)
      modifies this
      ensures (Tables(), ok) == Adjust(old(Tables()), s, delta, m)
    {
      if s !in stock || stock[s].onHand + delta < stock[s].reserved || stock[s].onHand + delta < 0 { return false; }
      stock := stock[s := stock[s].(onHand := stock[s].onHand + delta)];
      ledger := ledger + [Entry(s, None, m, delta, stock[s].onHand, stock[s].reserved)];
      outbox := outbox + [NStockChanged(s, stock[s].onHand, stock[s].reserved)];
      ok := true;
    }
  }
}
