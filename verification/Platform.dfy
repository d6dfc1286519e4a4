/**
 The whole checkout: any number of orders, each running the saga, over one set of stock tables. Every order's
 commands are carried out by the reservation engine itself; what an order sees is shown to be a run of the
 saga protocol, and the stock tables are tied to the order statuses.
 */
module Platform {
  import opened Basics
  import opened ReservationRow
  import opened SagaProtocol
  import M = SagaMachine
  import O = Orchestrator
  import I = Inventory
  import L = InventoryLaws
  import R = ParticipantRefinement

  type Oid = I.Oid
  type Sku = I.Sku

  /**
   An order: the id minted for its reservation, its lines, and its side of the saga. The cell's own `resv` is not used.
   */
  datatype Order = Order(first: nat, cart: seq<I.Item>, cell: Cell)

  datatype Shop = Shop(orders: map<Oid, Order>, stock: I.Db)

  datatype Move =
    | Checkout(oid: Oid, first: nat, cart: seq<I.Item>)
    | InOrder(oid: Oid, action: Action)
    | Adjust(sku: Sku, delta: int, movement: I.Movement)

  /** The inventory transaction an action stands for, if any. */
  function OpFor(oid: Oid, o: Order, a: Action): Option<L.Op> {
    match a
    case Run(cmd, _) =>
      if cmd !in o.cell.pending then None
      else
        (match cmd.step
         case Reserve => Some(L.OpReserve(cmd.resId, oid, o.cart))
         case Release => Some(L.OpRelease(cmd.resId, oid))
         case Commit => Some(L.OpCommit(cmd.resId, oid))
         case _ => None)
    case PublishFailure(cmd) => if cmd in o.cell.failing then Some(L.OpFailure(cmd.resId, oid)) else None
    case Expire => Some(L.OpSweep([o.first]))
    case _ => None
  }

  function StockAfter(db: I.Db, op: Option<L.Op>): I.Db {
    if op.None? then db else L.Step(db, op.value)
  }

  predicate ShortOfStock(db: I.Db, op: Option<L.Op>) {
    op.Some? && op.value.OpReserve? && I.Reserve(db, op.value.rid, op.value.oid, op.value.items).1 == I.Partial
  }

  /** The order's side after an action: inventory's reply is whatever the transaction put in its outbox. */
  function CellAfter(oid: Oid, o: Order, db: I.Db, a: Action): Cell {
    var op := OpFor(oid, o, a);
    var reply := R.EventOf(R.ReplyOf(db, StockAfter(db, op)));
    match a
    case Run(cmd, _) =>
      if cmd in o.cell.pending
      then Publish(o.cell.(pending := o.cell.pending - {cmd},
                           failing := if ShortOfStock(db, op) then o.cell.failing + {cmd} else o.cell.failing), reply,
                             cmd.resId)
      else o.cell
    case PublishFailure(cmd) =>
      if cmd in o.cell.failing then Publish(o.cell.(failing := o.cell.failing - {cmd}), reply, cmd.resId) else o.cell
    case Expire => Publish(o.cell, reply, o.first)
    case _ => Act(o.cell, a)
  }

  function Next(shop: Shop, m: Move): Shop {
    match m
    case Checkout(oid, first, cart) =>
      if oid in shop.orders || !I.ValidItems(cart) || (exists q :: q in shop.orders && shop.orders[q].first == first)
        then shop
      else shop.(orders := shop.orders[oid := Order(first, cart, Place(first))])
    case InOrder(oid, a) =>
      if oid !in shop.orders then shop
      else
        var o := shop.orders[oid];
        Shop(shop.orders[oid := o.(cell := CellAfter(oid, o, shop.stock, a))], StockAfter(shop.stock, OpFor(oid, o, a)))
    case Adjust(s, delta, movement) => shop.(stock := L.Step(shop.stock, L.OpAdjust(s, delta, movement)))
  }

  function Trade(levels: map<Sku, I.Level>, moves: seq<Move>): Shop {
    if moves == [] then Shop(map[], L.Open(levels)) else Next(Trade(levels, moves[..|moves| - 1]), moves[|moves| - 1])
  }

  // ----- every order's view is a run of the saga protocol

  /** The order with its reservation row, as the stock tables have it. */
  ghost function View(oid: Oid, o: Order, db: I.Db): Cell {
    o.cell.(resv := R.RowOf(db.resv, oid))
  }

  ghost predicate IsRun(c: Cell, first: nat) {
    exists acts: seq<Action> :: c == Exec(Place(first), acts)
  }

  /** Every row belongs to the order that minted its id, and holds that order's lines while it holds anything. */
  ghost predicate Attributed(orders: map<Oid, Order>, resv: map<I.Rid, I.Reservation>) {
    && (forall r :: r in resv ==> resv[r].orderId in orders && orders[resv[r].orderId].first == r)
    && (forall r :: r in resv && (resv[r].state == Reserved || resv[r].state == Committed) ==>
          resv[r].items == Lines(orders[resv[r].orderId].cart))
  }

  ghost predicate Proper(orders: map<Oid, Order>) {
    && (forall o :: o in orders ==> I.ValidItems(orders[o].cart))
    && (forall o, q :: o in orders && q in orders && orders[o].first == orders[q].first ==> o == q)
  }

  ghost predicate Faithful(levels: map<Sku, I.Level>, shop: Shop) {
    && L.Sound(L.BooksOf(levels), shop.stock)
    && Proper(shop.orders)
    && Attributed(shop.orders, shop.stock.resv)
    && (forall o :: o in shop.orders ==> IsRun(View(o, shop.orders[o], shop.stock), shop.orders[o].first))
  }

  function Lines(cart: seq<I.Item>): map<Sku, nat> {
    if I.ValidItems(cart) then I.Wanted(cart) else map[]
  }

  lemma ViewIsSafe(c: Cell, first: nat)
    requires IsRun(c, first)
    ensures Safe(c, first, first + 1)
  {
    var acts: seq<Action> :| c == Exec(Place(first), acts);
    PlaceIsSafe(first);
    ExecIsSafe(Place(first), acts, first, first + 1);
  }

  lemma RunExtends(c: Cell, first: nat, a: Action)
    requires IsRun(c, first)
    ensures IsRun(Act(c, a), first)
  {
    hide Act;
    var acts: seq<Action> :| c == Exec(Place(first), acts);
    ExecSplits(Place(first), acts, [a]);
    assert Exec(c, [a]) == Exec(Act(c, a), [a][1..]);
    assert Exec(Act(c, a), []) == Act(c, a);
    assert Act(c, a) == Exec(Place(first), acts + [a]);
  }

  lemma NewOrderIsRun(first: nat)
    ensures IsRun(Place(first), first)
  {
    assert Place(first) == Exec(Place(first), []);
  }

  predicate AtTables(a: Action) {
    a.Run? || a.PublishFailure? || a.Expire?
  }

  /** Order-service and payment never look at the reservation row. */
  lemma RowIsPrivate(c: Cell, a: Action, row: Option<Resv>)
    requires !AtTables(a)
    ensures Act(c.(resv := row), a) == Act(c, a).(resv := row)
  {
    hide FinishTxn, O.Fire, O.BuildCtx;
  }

  lemma CommandsNameFirst(c: Cell, first: nat, cmd: O.Command)
    requires Safe(c, first, first + 1) && (cmd in c.pending || cmd in c.failing)
    ensures cmd.resId == first
  {
    hide CommandsFit, Evidenced, TxnsArePast;
    assert cmd in c.db.cmds;
  }

  /** `oid` acted on the tables as the protocol says, and no other order's row moved. */
  ghost predicate Follows(oid: Oid, o: Order, db: I.Db, a: Action, a': Action) {
    var after := StockAfter(db, OpFor(oid, o, a));
    && View(oid, o.(cell := CellAfter(oid, o, db, a)), after) == Act(View(oid, o, db), a')
    && forall q :: q != oid ==> R.RowOf(after.resv, q) == R.RowOf(db.resv, q)
  }

  lemma CommandFollows(oid: Oid, o: Order, db: I.Db, cmd: O.Command, inStock: bool) returns (a': Action)
    requires L.OneRowPerOrder(db.resv) && L.Exact(db) && R.OwnId(db, o.first, oid) && I.ValidItems(o.cart)
    requires cmd in o.cell.pending && cmd.resId == o.first
    ensures Follows(oid, o, db, Run(cmd, inStock), a')
  {
    hide L.OneRowPerOrder, L.Exact, R.OwnId, R.RowOf, I.AllMovable, I.Reserve, I.Release, I.Commit, I.Wanted;
    a' := Run(cmd, I.AllMovable(I.Taking, db.stock, I.Wanted(o.cart)));
    match cmd.step
    case Reserve => R.ReserveRefines(db, o.first, oid, o.cart);
    case Release => R.ReleaseRefines(db, o.first, oid, a'.inStock);
    case Commit => R.CommitRefines(db, o.first, oid, a'.inStock);
    case _ =>
  }

  lemma TablesFollow(oid: Oid, o: Order, db: I.Db, a: Action) returns (a': Action)
    requires L.OneRowPerOrder(db.resv) && L.Exact(db) && R.OwnId(db, o.first, oid) && I.ValidItems(o.cart)
    requires Safe(View(oid, o, db), o.first, o.first + 1) && AtTables(a)
    ensures Follows(oid, o, db, a, a')
  {
    hide L.OneRowPerOrder, L.Exact, R.RowOf, I.PublishFailure, I.Sweep, Safe;
    a' := a;
    match a
    case Run(cmd, inStock) =>
      if cmd in o.cell.pending {
        CommandsNameFirst(View(oid, o, db), o.first, cmd);
        a' := CommandFollows(oid, o, db, cmd, inStock);
      }
    case PublishFailure(cmd) =>
      if cmd in o.cell.failing {
        CommandsNameFirst(View(oid, o, db), o.first, cmd);
        R.FailureRefines(db, o.first, oid);
      }
    case Expire => ExpiryFollows(oid, o, db);
  }

  lemma ExpiryFollows(oid: Oid, o: Order, db: I.Db)
    requires L.OneRowPerOrder(db.resv) && L.Exact(db) && R.OwnId(db, o.first, oid)
    requires Safe(View(oid, o, db), o.first, o.first + 1)
    ensures Follows(oid, o, db, Expire, Expire)
  {
    hide L.Exact, I.Sweep, OneReserve, CommandsFit, Evidenced, TxnsArePast;
    var row := R.RowOf(db.resv, oid);
    if I.Claimable(db, [o.first]) {
      assert o.first in [o.first];
      R.ExpiryRefines(db, o.first, oid);
    } else if row.Some? {
      var r :| r in db.resv && db.resv[r].orderId == oid && row == Some(Resv(r, db.resv[r].state));
      assert r == o.first;
    }
  }

  /** A transaction of one order writes at most that order's row, keeping what it holds equal to the order's lines. */
  ghost predicate Touches(db: I.Db, after: I.Db, oid: Oid, first: nat, cart: seq<I.Item>) {
    after.resv == db.resv ||
    exists row: I.Reservation ::
      && after.resv == db.resv[first := row] && row.orderId == oid
      && (row.state == Reserved || row.state == Committed ==>
            row.items == Lines(cart) ||
              (first in db.resv && db.resv[first].state == Reserved && row.items == db.resv[first].items))
  }

  lemma OpTouches(oid: Oid, o: Order, db: I.Db, a: Action)
    requires R.OwnId(db, o.first, oid) && I.ValidItems(o.cart)
    requires forall k :: k in o.cell.pending || k in o.cell.failing ==> k.resId == o.first
    ensures Touches(db, StockAfter(db, OpFor(oid, o, a)), oid, o.first, o.cart)
  {
    hide I.MoveAll, I.AllMovable, I.Entries, I.Wanted, I.StockNotices, I.Sweep;
    var after := StockAfter(db, OpFor(oid, o, a));
    match a
    case Run(cmd, _) =>
      if cmd in o.cell.pending && after.resv != db.resv {
        assert after.resv == db.resv[o.first := after.resv[o.first]];
      }
    case PublishFailure(cmd) =>
      if cmd in o.cell.failing && after.resv != db.resv {
        assert after.resv == db.resv[o.first := after.resv[o.first]];
      }
    case Expire => ExpiryTouches(oid, o, db);
    case _ =>
  }

  lemma ExpiryTouches(oid: Oid, o: Order, db: I.Db)
    requires R.OwnId(db, o.first, oid)
    ensures Touches(db, StockAfter(db, OpFor(oid, o, Expire)), oid, o.first, o.cart)
  {
    hide I.MoveAll, I.AllMovable, I.Entries;
    var r := o.first;
    var after := StockAfter(db, OpFor(oid, o, Expire));
    if I.Claimable(db, [r]) && I.Sweep(db, [r]).Some? {
      assert r in [r] && [r][1..] == [];
      var b := I.GiveBack(db, r);
      assert I.Sweep(db, [r]).value == b.(outbox := b.outbox + [I.NReleased(db.resv[r].orderId, r, false)]);
      assert after.resv == db.resv[r := db.resv[r].(state := Released)];
    }
  }

  lemma AttributionKept(orders: map<Oid, Order>, orders': map<Oid, Order>, db: I.Db, after: I.Db, oid: Oid)
    requires Attributed(orders, db.resv) && oid in orders && orders'.Keys == orders.Keys
    requires R.OwnId(db, orders[oid].first, oid)
    requires forall q :: q in orders ==> orders'[q].first == orders[q].first && orders'[q].cart == orders[q].cart
    requires Touches(db, after, oid, orders[oid].first, orders[oid].cart)
    ensures Attributed(orders', after.resv)
  {
    var first := orders[oid].first;
    forall r | r in after.resv
      ensures after.resv[r].orderId in orders' && orders'[after.resv[r].orderId].first == r
      ensures after.resv[r].state == Reserved || after.resv[r].state == Committed ==>
        after.resv[r].items == Lines(orders'[after.resv[r].orderId].cart)
    {
      if r != first || after.resv == db.resv { assert r in db.resv && after.resv[r] == db.resv[r]; }
    }
  }

  lemma OwnRow(shop: Shop, oid: Oid)
    requires Proper(shop.orders) && Attributed(shop.orders, shop.stock.resv) && oid in shop.orders
    ensures R.OwnId(shop.stock, shop.orders[oid].first, oid)
  {
  }

  lemma OrderStepIsFaithful(levels: map<Sku, I.Level>, shop: Shop, oid: Oid, a: Action)
    requires Faithful(levels, shop) && oid in shop.orders
    ensures Faithful(levels, Next(shop, InOrder(oid, a)))
  {
    hide L.Sound, Attributed, IsRun, R.RowOf, Touches, CellAfter, StockAfter, OpFor, Act, R.OwnId;
    var o, db := shop.orders[oid], shop.stock;
    var shop' := Next(shop, InOrder(oid, a));
    var first := o.first;
    OwnRow(shop, oid);
    var a' := ViewSteps(levels, oid, o, db, a);
    RunExtends(View(oid, o, db), first, a');
    StockIsSound(L.BooksOf(levels), db, OpFor(oid, o, a));
    AttributionKept(shop.orders, shop'.orders, db, shop'.stock, oid);
    forall q | q in shop'.orders
      ensures IsRun(View(q, shop'.orders[q], shop'.stock), shop'.orders[q].first)
    {
      if q != oid {
        assert View(q, shop'.orders[q], shop'.stock) == View(q, shop.orders[q], shop.stock);
      }
    }
  }

  lemma StockIsSound(books: L.Books, db: I.Db, op: Option<L.Op>)
    requires L.Sound(books, db)
    ensures L.Sound(books, StockAfter(db, op))
  {
    hide L.Sound, L.Step;
    if op.Some? { L.StepIsSound(books, db, op.value); }
  }

  /** One action of an order: its view takes one protocol step and its transaction touches its own row only. */
  lemma ViewSteps(levels: map<Sku, I.Level>, oid: Oid, o: Order, db: I.Db, a: Action) returns (a': Action)
    requires L.Sound(L.BooksOf(levels), db) && R.OwnId(db, o.first, oid) && I.ValidItems(o.cart)
    requires IsRun(View(oid, o, db), o.first)
    ensures Follows(oid, o, db, a, a')
    ensures Touches(db, StockAfter(db, OpFor(oid, o, a)), oid, o.first, o.cart)
  {
    hide IsRun, R.RowOf, Safe, Act, L.Step, Touches, L.Audited, L.Conserved, L.Exact, L.OneRowPerOrder, R.OwnId;
    var c := View(oid, o, db);
    ViewIsSafe(c, o.first);
    forall k | k in o.cell.pending || k in o.cell.failing
      ensures k.resId == o.first
    {
      CommandsNameFirst(c, o.first, k);
    }
    OpTouches(oid, o, db, a);
    if AtTables(a) {
      a' := TablesFollow(oid, o, db, a);
    } else {
      a' := a;
      RowIsPrivate(o.cell, a, R.RowOf(db.resv, oid));
    }
  }

  lemma AdjustIsFaithful(levels: map<Sku, I.Level>, shop: Shop, s: Sku, delta: int, m: I.Movement)
    requires Faithful(levels, shop)
    ensures Faithful(levels, Next(shop, Adjust(s, delta, m)))
  {
    hide L.Sound, IsRun, R.RowOf;
    L.StepIsSound(L.BooksOf(levels), shop.stock, L.OpAdjust(s, delta, m));
    var shop' := Next(shop, Adjust(s, delta, m));
    assert shop'.stock.resv == shop.stock.resv;
    forall q | q in shop'.orders
      ensures View(q, shop'.orders[q], shop'.stock) == View(q, shop.orders[q], shop.stock)
    {
    }
  }

  lemma CheckoutIsFaithful(levels: map<Sku, I.Level>, shop: Shop, oid: Oid, first: nat, cart: seq<I.Item>)
    requires Faithful(levels, shop)
    ensures Faithful(levels, Next(shop, Checkout(oid, first, cart)))
  {
    hide L.Sound, IsRun, Place;
    var shop' := Next(shop, Checkout(oid, first, cart));
    if shop' != shop {
      NewOrderIsRun(first);
      NoRowYet(shop, oid, first);
      forall q | q in shop.orders
        ensures shop'.orders[q] == shop.orders[q]
      {
      }
    }
  }

  lemma NoRowYet(shop: Shop, oid: Oid, first: nat)
    requires Attributed(shop.orders, shop.stock.resv) && oid !in shop.orders
    ensures Place(first).(resv := R.RowOf(shop.stock.resv, oid)) == Place(first)
  {
  }

  /** In every run of the platform each order lives a run of the saga protocol over sound stock tables. */
  lemma {:induction false} TradeIsFaithful(levels: map<Sku, I.Level>, moves: seq<Move>)
    requires L.Opening(levels)
    ensures Faithful(levels, Trade(levels, moves))
    decreases |moves|
  {
    hide L.Sound, Next, L.Opening;
    if moves == [] {
      L.OpeningIsSound(levels);
    } else {
      var n := |moves| - 1;
      TradeIsFaithful(levels, moves[..n]);
      NextIsFaithful(levels, Trade(levels, moves[..n]), moves[n]);
    }
  }

  lemma NextIsFaithful(levels: map<Sku, I.Level>, shop: Shop, m: Move)
    requires Faithful(levels, shop)
    ensures Faithful(levels, Next(shop, m))
  {
    hide Faithful;
    match m
    case Checkout(oid, first, cart) => CheckoutIsFaithful(levels, shop, oid, first, cart);
    case InOrder(oid, a) => if oid in shop.orders { OrderStepIsFaithful(levels, shop, oid, a); }
    case Adjust(s, delta, movement) => AdjustIsFaithful(levels, shop, s, delta, movement);
  }
}
