/** What the platform guarantees between order statuses and physical stock, for every SKU and any number of orders. */
module PlatformLaws {
  import opened Basics
  import opened ReservationRow
  import opened SagaProtocol
  import opened Platform
  import M = SagaMachine
  import I = Inventory
  import L = InventoryLaws
  import R = ParticipantRefinement

  function InCart(cart: seq<I.Item>, s: Sku): nat {
    if s in Lines(cart) then Lines(cart)[s] else 0
  }

  function Ordered(o: Order, some: set<M.State>, s: Sku): nat {
    if o.cell.db.order.status in some then InCart(o.cart, s) else 0
  }

  /** Units of `s` over all orders whose status is one of `some`. */
  ghost function Units(orders: map<Oid, Order>, some: set<M.State>, s: Sku): nat
    decreases |orders|
  {
    if orders == map[] then 0
    else
      var o :| o in orders;
      Ordered(orders[o], some, s) + Units(orders - {o}, some, s)
  }

  lemma {:induction false} TotalWithin(orders: map<Oid, Order>, resv: map<I.Rid, I.Reservation>, st: ResvState,
      some: set<M.State>, s: Sku)
    requires forall r :: r in resv && resv[r].state == st ==>
      && resv[r].orderId in orders && orders[resv[r].orderId].first == r
      && orders[resv[r].orderId].cell.db.order.status in some
      && resv[r].items == Lines(orders[resv[r].orderId].cart)
    ensures L.Total(resv, st, s) <= Units(orders, some, s)
    decreases |orders|
  {
    hide Units, L.Total;
    if orders == map[] {
      NothingInState(resv, st, s);
    } else {
      var o :| o in orders;
      UnitsSplit(orders, some, s, o);
      var r := orders[o].first;
      if r in resv && resv[r].state == st && resv[r].orderId == o {
        TotalWithin(orders - {o}, resv - {r}, st, some, s);
        L.TotalSplits(resv, st, s, r);
      } else {
        TotalWithin(orders - {o}, resv, st, some, s);
      }
    }
  }

  lemma {:induction false} NothingInState(resv: map<I.Rid, I.Reservation>, st: ResvState, s: Sku)
    requires forall r :: r in resv ==> resv[r].state != st
    ensures L.Total(resv, st, s) == 0
    decreases |resv|
  {
    if resv != map[] {
      var r :| r in resv;
      L.TotalSplits(resv, st, s, r);
      NothingInState(resv - {r}, st, s);
    }
  }

  /** Order `oid` has its row in state `st`, with its own lines. */
  ghost predicate HasRow(oid: Oid, o: Order, resv: map<I.Rid, I.Reservation>, st: ResvState) {
    o.first in resv && resv[o.first].orderId == oid && resv[o.first].state == st && resv[o.first].items == Lines(o.cart)
  }

  lemma {:induction false} TotalCovers(orders: map<Oid, Order>, resv: map<I.Rid, I.Reservation>, st: ResvState,
      some: set<M.State>, s: Sku)
    requires forall o :: o in orders && orders[o].cell.db.order.status in some ==> HasRow(o, orders[o], resv, st)
    ensures Units(orders, some, s) <= L.Total(resv, st, s)
    decreases |orders|
  {
    if orders != map[] {
      var o :| o in orders;
      UnitsSplit(orders, some, s, o);
      var rest := orders - {o};
      if orders[o].cell.db.order.status in some {
        var r := orders[o].first;
        assert HasRow(o, orders[o], resv, st);
        forall q | q in rest && rest[q].cell.db.order.status in some
          ensures HasRow(q, rest[q], resv - {r}, st)
        {
          assert HasRow(q, orders[q], resv, st);
        }
        TotalCovers(rest, resv - {r}, st, some, s);
        L.TotalSplits(resv, st, s, r);
      } else {
        TotalCovers(rest, resv, st, some, s);
      }
    }
  }

  const DEDUCTED: set<M.State> := {M.StockCommitted, M.Confirmed}
  const PIVOTED: set<M.State> := {M.Paid, M.StockCommitted, M.Confirmed}
  const UNDECIDED: set<M.State> := {M.Pending, M.StockReserved, M.Paid, M.Compensating}

  /** What a status says about the order's row, and the row about the status. */
  lemma RowFitsStatus(c: Cell, first: nat)
    requires IsRun(c, first)
    ensures c.db.order.status in DEDUCTED ==> Is(c.resv, Committed)
    ensures Is(c.resv, Committed) ==> c.db.order.status in PIVOTED
    ensures Is(c.resv, Reserved) ==> c.db.order.status in UNDECIDED
    ensures c.db.order.status == M.Cancelled ==> Settled(c.resv)
    ensures c.resv.Some? ==> c.resv.value.id == first
  {
    hide IsRun, OneReserve, TxnsArePast;
    ViewIsSafe(c, first);
  }

  /** The order's row in the tables, and the order that a row in the tables belongs to. */
  lemma RowsFitStatuses(levels: map<Sku, I.Level>, shop: Shop)
    requires Faithful(levels, shop)
    ensures forall o :: o in shop.orders && shop.orders[o].cell.db.order.status in DEDUCTED ==>
      HasRow(o, shop.orders[o], shop.stock.resv, Committed)
    ensures forall r :: r in shop.stock.resv && shop.stock.resv[r].state == Committed ==>
      shop.orders[shop.stock.resv[r].orderId].cell.db.order.status in PIVOTED
    ensures forall r :: r in shop.stock.resv && shop.stock.resv[r].state == Reserved ==>
      shop.orders[shop.stock.resv[r].orderId].cell.db.order.status in UNDECIDED
  {
    hide IsRun, L.Exact, L.Audited, L.Conserved;
    var resv := shop.stock.resv;
    forall o | o in shop.orders && shop.orders[o].cell.db.order.status in DEDUCTED
      ensures HasRow(o, shop.orders[o], resv, Committed)
    {
      RowFitsStatus(View(o, shop.orders[o], shop.stock), shop.orders[o].first);
    }
    forall r | r in resv
      ensures resv[r].state == Committed ==> shop.orders[resv[r].orderId].cell.db.order.status in PIVOTED
      ensures resv[r].state == Reserved ==> shop.orders[resv[r].orderId].cell.db.order.status in UNDECIDED
    {
      var o := resv[r].orderId;
      R.RowIsUnique(resv, o, r);
      RowFitsStatus(View(o, shop.orders[o], shop.stock), shop.orders[o].first);
    }
  }

  /**
   In every run: the units that have left a SKU are at least those of the confirmed orders and at most those of
   the orders past their pivot, so confirmed orders never outsell opening stock plus adjustments; and what is
   reserved is reserved for orders that are still undecided.
   */
  lemma StockMatchesOrders(levels: map<Sku, I.Level>, moves: seq<Move>, s: Sku)
    requires L.Opening(levels) && s in Trade(levels, moves).stock.stock
    ensures var shop := Trade(levels, moves);
      var level := shop.stock.stock[s];
      && s in levels
      && var gone := levels[s].onHand + L.Adjusted(shop.stock.ledger, s) - level.onHand;
      && Units(shop.orders, DEDUCTED, s) <= gone <= Units(shop.orders, PIVOTED, s)
      && Units(shop.orders, {M.Confirmed}, s) <= levels[s].onHand + L.Adjusted(shop.stock.ledger, s)
      && level.reserved <= Units(shop.orders, UNDECIDED, s)
  {
    hide Trade, IsRun, L.Adjusted, L.Audited, L.OneRowPerOrder, Units, L.Total;
    var shop := Trade(levels, moves);
    TradeIsFaithful(levels, moves);
    RowsFitStatuses(levels, shop);
    var resv := shop.stock.resv;
    TotalWithin(shop.orders, resv, Committed, PIVOTED, s);
    TotalCovers(shop.orders, resv, Committed, DEDUCTED, s);
    TotalWithin(shop.orders, resv, Reserved, UNDECIDED, s);
    UnitsGrow(shop.orders, {M.Confirmed}, DEDUCTED, s);
    assert I.Legal(shop.stock.stock[s]);
  }

  lemma {:induction false} UnitsGrow(orders: map<Oid, Order>, some: set<M.State>, more: set<M.State>, s: Sku)
    requires some <= more
    ensures Units(orders, some, s) <= Units(orders, more, s)
    decreases |orders|
  {
    if orders != map[] {
      var o :| o in orders;
      UnitsSplit(orders, some, s, o);
      UnitsGrow(orders - {o}, some, more, s);
      UnitsSplit(orders, more, s, o);
    }
  }

  lemma {:induction false} UnitsSplit(orders: map<Oid, Order>, some: set<M.State>, s: Sku, o: Oid)
    requires o in orders
    ensures Units(orders, some, s) == Ordered(orders[o], some, s) + Units(orders - {o}, some, s)
    decreases |orders|
  {
    var x :| x in orders && Units(orders, some, s) == Ordered(orders[x], some, s) + Units(orders - {x}, some, s);
    if x != o {
      UnitsSplit(orders - {x}, some, s, o);
      UnitsSplit(orders - {o}, some, s, x);
      assert orders - {x} - {o} == orders - {o} - {x};
    }
  }

  /** When every order is decided, nothing is reserved and what left stock is exactly what was confirmed. */
  lemma SettledBooksBalance(levels: map<Sku, I.Level>, moves: seq<Move>, s: Sku)
    requires L.Opening(levels) && s in Trade(levels, moves).stock.stock
    requires forall o :: o in Trade(levels, moves).orders ==>
      M.IsTerminal(Trade(levels, moves).orders[o].cell.db.order.status)
    ensures var shop := Trade(levels, moves);
      && s in levels
      && shop.stock.stock[s].reserved == 0
      && shop.stock.stock[s].onHand ==
            levels[s].onHand + L.Adjusted(shop.stock.ledger, s) - Units(shop.orders, {M.Confirmed}, s)
  {
    hide Trade, L.Adjusted;
    var shop := Trade(levels, moves);
    StockMatchesOrders(levels, moves, s);
    UnitsAgree(shop.orders, PIVOTED, {M.Confirmed}, s);
    UnitsAgree(shop.orders, DEDUCTED, {M.Confirmed}, s);
    UnitsAgree(shop.orders, UNDECIDED, {}, s);
    UnitsOfNone(shop.orders, s);
    TradeIsFaithful(levels, moves);
    assert I.Legal(shop.stock.stock[s]);
  }

  lemma {:induction false} UnitsAgree(orders: map<Oid, Order>, some: set<M.State>, others: set<M.State>, s: Sku)
    requires forall o :: o in orders ==>
      (orders[o].cell.db.order.status in some <==> orders[o].cell.db.order.status in others)
    ensures Units(orders, some, s) == Units(orders, others, s)
    decreases |orders|
  {
    if orders != map[] {
      var o :| o in orders;
      UnitsSplit(orders, some, s, o);
      UnitsSplit(orders, others, s, o);
      UnitsAgree(orders - {o}, some, others, s);
    }
  }

  lemma {:induction false} UnitsOfNone(orders: map<Oid, Order>, s: Sku)
    ensures Units(orders, {}, s) == 0
    decreases |orders|
  {
    if orders != map[] {
      var o :| o in orders;
      UnitsSplit(orders, {}, s, o);
      UnitsOfNone(orders - {o}, s);
    }
  }
}
