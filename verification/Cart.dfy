/**
 Cart storage under compare-and-swap (services/cart-service/src/cart.ts): any number of devices load
 the cart, change their copy and write it back if nobody else wrote in between.
 */
module Cart {
  import opened Basics

  const MAX_LINES := 100
  const MAX_QTY_PER_LINE := 99

  datatype Line = Line(sku: nat, quantity: int)

  datatype StoredCart = StoredCart(lines: seq<Line>, coupons: seq<string>)

  /** What a device asks for; the catalog has already accepted the SKU. */
  datatype Mutation = AddLine(sku: nat, quantity: int) | UpdateLine(sku: nat, quantity: int) | ApplyCoupon(code: string)

  /** The request schema: additions are 1 to 99, updates 0 to 99. */
  predicate Requestable(m: Mutation) {
    match m
    case AddLine(_, q) => 1 <= q <= MAX_QTY_PER_LINE
    case UpdateLine(_, q) => 0 <= q <= MAX_QTY_PER_LINE
    case ApplyCoupon(_) => true
  }

  function Find(lines: seq<Line>, sku: nat): (i: nat)
    ensures i <= |lines|
    ensures i < |lines| ==> lines[i].sku == sku
    ensures forall j :: 0 <= j < i ==> lines[j].sku != sku
  {
    if lines == [] then 0 else if lines[0].sku == sku then 0 else 1 + Find(lines[1..], sku)
  }

  function Without(lines: seq<Line>, sku: nat): seq<Line> {
    if lines == [] then []
    else if lines[|lines| - 1].sku == sku then Without(lines[..|lines| - 1], sku)
    else Without(lines[..|lines| - 1], sku) + [lines[|lines| - 1]]
  }

  /** The changed copy, or None where the service throws. */
  function Mutate(c: StoredCart, m: Mutation): Option<StoredCart> {
    match m
    case AddLine(sku, q) =>
      var i := Find(c.lines, sku);
      if i < |c.lines| then Some(c.(lines :=
        c.lines[i := c.lines[i].(quantity := Min(c.lines[i].quantity + q, MAX_QTY_PER_LINE))]))
      else if |c.lines| >= MAX_LINES then None
      else Some(c.(lines := c.lines + [Line(sku, Min(q, MAX_QTY_PER_LINE))]))
    case UpdateLine(sku, q) =>
      var i := Find(c.lines, sku);
      if q == 0 then Some(c.(lines := Without(c.lines, sku)))
      else if i == |c.lines| then None
      else Some(c.(lines := c.lines[i := c.lines[i].(quantity := Min(q, MAX_QTY_PER_LINE))]))
    case ApplyCoupon(code) => Some(if code in c.coupons then c else c.(coupons := c.coupons + [code]))
  }

  ghost predicate WellFormed(c: StoredCart) {
    && |c.lines| <= MAX_LINES
    && (forall i :: 0 <= i < |c.lines| ==> 1 <= c.lines[i].quantity <= MAX_QTY_PER_LINE)
    && (forall i, j :: 0 <= i < j < |c.lines| ==> c.lines[i].sku != c.lines[j].sku)
  }

  lemma {:induction false} WithoutKeeps(lines: seq<Line>, sku: nat)
    requires WellFormed(StoredCart(lines, []))
    ensures WellFormed(StoredCart(Without(lines, sku), [])) && |Without(lines, sku)| <= |lines|
    ensures forall l :: l in Without(lines, sku) <==> l in lines && l.sku != sku
    decreases |lines|
  {
    if lines != [] {
      var front, last := lines[..|lines| - 1], lines[|lines| - 1];
      assert lines == front + [last];
      WithoutKeeps(front, sku);
      forall i | 0 <= i < |Without(front, sku)|
        ensures Without(front, sku)[i].sku != last.sku
      {
        assert Without(front, sku)[i] in front;
      }
    }
  }

  lemma MutateKeeps(c: StoredCart, m: Mutation)
    requires WellFormed(c) && Requestable(m) && Mutate(c, m).Some?
    ensures WellFormed(Mutate(c, m).value)
  {
    hide WellFormed;
    OnlyLinesMatter(c, c.(lines := Mutate(c, m).value.lines));
    OnlyLinesMatter(c.(lines := Mutate(c, m).value.lines), Mutate(c, m).value);
    OnlyLinesMatter(c, StoredCart(c.lines, []));
    if m.UpdateLine? && m.quantity == 0 {
      WithoutKeeps(c.lines, m.sku);
      OnlyLinesMatter(StoredCart(Without(c.lines, m.sku), []), Mutate(c, m).value);
    } else if !m.ApplyCoupon? {
      var i := Find(c.lines, m.sku);
      if i < |c.lines| {
        QuantityOf(c, i);
        SetQuantityKeeps(c, i, Mutate(c, m).value.lines[i].quantity);
      } else {
        AppendKeeps(c, Mutate(c, m).value.lines[i]);
      }
    }
  }

  lemma OnlyLinesMatter(c: StoredCart, d: StoredCart)
    ensures c.lines == d.lines ==> (WellFormed(c) <==> WellFormed(d))
  {
  }

  lemma QuantityOf(c: StoredCart, i: nat)
    requires WellFormed(c) && i < |c.lines|
    ensures 1 <= c.lines[i].quantity <= MAX_QTY_PER_LINE
  {
  }

  lemma AppendKeeps(c: StoredCart, l: Line)
    requires WellFormed(c) && |c.lines| < MAX_LINES && 1 <= l.quantity <= MAX_QTY_PER_LINE
    requires forall j :: 0 <= j < |c.lines| ==> c.lines[j].sku != l.sku
    ensures WellFormed(c.(lines := c.lines + [l]))
  {
  }

  lemma SetQuantityKeeps(c: StoredCart, i: nat, q: int)
    requires WellFormed(c) && i < |c.lines| && 1 <= q <= MAX_QTY_PER_LINE
    ensures WellFormed(c.(lines := c.lines[i := c.lines[i].(quantity := q)]))
  {
    var lines := c.lines[i := c.lines[i].(quantity := q)];
    assert forall j :: 0 <= j < |lines| ==> lines[j].sku == c.lines[j].sku;
  }

  // ----- the cart as quantities per SKU

  function Held(lines: seq<Line>, sku: nat): int {
    var i := Find(lines, sku);
    if i < |lines| then lines[i].quantity else 0
  }

  lemma HeldOf(lines: seq<Line>, l: Line)
    requires WellFormed(StoredCart(lines, [])) && l in lines
    ensures Held(lines, l.sku) == l.quantity
  {
    var k :| 0 <= k < |lines| && lines[k] == l;
  }

  lemma HeldNone(lines: seq<Line>, sku: nat)
    requires WellFormed(StoredCart(lines, []))
    ensures Held(lines, sku) == 0 <==> forall l :: l in lines ==> l.sku != sku
  {
    if Held(lines, sku) != 0 { assert lines[Find(lines, sku)] in lines; }
  }

  /** The same lines as a set hold the same quantities. */
  lemma HeldAlike(lines: seq<Line>, others: seq<Line>, sku: nat)
    requires WellFormed(StoredCart(lines, [])) && WellFormed(StoredCart(others, []))
    requires forall l: Line :: l.sku == sku ==> (l in lines <==> l in others)
    ensures Held(lines, sku) == Held(others, sku)
  {
    if Held(lines, sku) == 0 {
      HeldNone(lines, sku);
      HeldNone(others, sku);
    } else {
      HeldOf(others, lines[Find(lines, sku)]);
    }
  }

  /** What the customer meant: quantities add up or are replaced, capped at 99, and no other SKU changes. */
  function Meant(c: StoredCart, m: Mutation, sku: nat): int {
    match m
    case AddLine(x, q) => if sku == x then Min(Held(c.lines, sku) + q, MAX_QTY_PER_LINE) else Held(c.lines, sku)
    case UpdateLine(x, q) => if sku == x then q else Held(c.lines, sku)
    case ApplyCoupon(_) => Held(c.lines, sku)
  }

  predicate Refuses(c: StoredCart, m: Mutation) {
    match m
    case AddLine(x, _) => Held(c.lines, x) == 0 && |c.lines| == MAX_LINES
    case UpdateLine(x, q) => q > 0 && Held(c.lines, x) == 0
    case ApplyCoupon(_) => false
  }

  /** No coupon twice. */
  ghost predicate Once(coupons: seq<string>) {
    forall i, j :: 0 <= i < j < |coupons| ==> coupons[i] != coupons[j]
  }

  lemma MutateMeans(c: StoredCart, m: Mutation, sku: nat)
    requires WellFormed(c) && Requestable(m)
    ensures Mutate(c, m).None? <==> Refuses(c, m)
    ensures Mutate(c, m).Some? ==> Held(Mutate(c, m).value.lines, sku) == Meant(c, m, sku)
    ensures Mutate(c, m).Some? ==> forall code :: code in Mutate(c, m).value.coupons <==>
      code in c.coupons || m == ApplyCoupon(code)
    ensures Mutate(c, m).Some? && Once(c.coupons) ==> Once(Mutate(c, m).value.coupons)
  {
    if Mutate(c, m).Some? && !m.ApplyCoupon? {
      LinesMean(c, m, sku);
    }
  }

  lemma LinesMean(c: StoredCart, m: Mutation, sku: nat)
    requires WellFormed(c) && Requestable(m) && !m.ApplyCoupon? && Mutate(c, m).Some?
    ensures Held(Mutate(c, m).value.lines, sku) == Meant(c, m, sku)
  {
    var i, after := Find(c.lines, m.sku), Mutate(c, m).value;
    MutateKeeps(c, m);
    assert WellFormed(StoredCart(c.lines, [])) && WellFormed(StoredCart(after.lines, []));
    if m.UpdateLine? && m.quantity == 0 {
      WithoutKeeps(c.lines, m.sku);
      if sku == m.sku { HeldNone(after.lines, sku); } else { HeldAlike(c.lines, after.lines, sku); }
    } else if sku == m.sku {
      assert after.lines[i] in after.lines && after.lines[i].sku == sku;
      HeldOf(after.lines, after.lines[i]);
    } else {
      SetLineKeepsOthers(c.lines, after.lines, i, sku);
      HeldAlike(c.lines, after.lines, sku);
    }
  }

  lemma SetLineKeepsOthers(lines: seq<Line>, others: seq<Line>, i: nat, sku: nat)
    requires i < |others| && |lines| <= |others| <= |lines| + 1 && (i == |lines| || |others| == |lines|)
    requires forall j :: 0 <= j < |others| && j != i ==> j < |lines| && others[j] == lines[j]
    requires others[i].sku != sku && (i < |lines| ==> lines[i].sku != sku)
    ensures forall l: Line :: l.sku == sku ==> (l in lines <==> l in others)
  {
    forall l: Line | l.sku == sku
      ensures l in lines <==> l in others
    {
      if l in lines {
        var k :| 0 <= k < |lines| && lines[k] == l;
        assert others[k] == l;
      }
    }
  }

  // ----- the stored hash

  datatype Hash = Absent | Live(cart: StoredCart, version: nat)

  /** What the script does: compare, write, count up; an absent key accepts any version. */
  function Script(h: Hash, expected: nat, payload: StoredCart): (Hash, int) {
    match h
    case Absent => (Live(payload, 1), 1)
    case Live(_, version) => if version != expected then (h, -1) else (Live(payload, version + 1), version + 1)
  }

  class CartStore {
    var data: Option<StoredCart>
    var version: nat

    function Stored(): Hash
      reads this
    {
      if data.Some? then Live(data.value, version) else Absent
    }

    constructor ()
      ensures Stored() == Absent
    {
      data, version := None, 0;
    }

    method Cas(expected: nat, payload: StoredCart) returns (next: int)
      modifies this
      ensures (Stored(), next) == Script(old(Stored()), expected, payload)
      ensures old(data).None? ==> next == 1 && data == Some(payload) && version == 1
      ensures old(data).Some? && old(version) == expected ==>
        next == expected + 1 && data == Some(payload) && version == expected + 1
      ensures old(data).Some? && old(version) != expected ==>
        next == -1 && data == old(data) && version == old(version)
    {
      if data.Some? && version != expected { return -1; }
      version := (if data.Some? then version else 0) + 1;
      data := Some(payload);
      next := version;
    }
  }

  // ----- devices

  datatype Copy = Copy(cart: StoredCart, version: nat)

  /** The live key, each device's last load, and the mutations that won, in order. */
  datatype World = World(cart: StoredCart, version: nat, copies: map<nat, Copy>, won: seq<Mutation>)

  datatype Action = Load(device: nat) | Write(device: nat, m: Mutation)

  /** The script on a live key. */
  function Swap(w: World, expected: nat, payload: StoredCart, m: Mutation): World {
    var (h, next) := Script(Live(w.cart, w.version), expected, payload);
    if next == -1 then w else w.(cart := h.cart, version := h.version, won := w.won + [m])
  }

  function Step(w: World, a: Action): World {
    match a
    case Load(d) => w.(copies := w.copies[d := Copy(w.cart, w.version)])
    case Write(d, m) =>
      if d !in w.copies || !Requestable(m) || Mutate(w.copies[d].cart, m).None? then w
      else Swap(w, w.copies[d].version, Mutate(w.copies[d].cart, m).value, m)
  }

  /** The first write, on an absent key. */
  function Created(first: StoredCart): World {
    match Script(Absent, 0, first).0
    case Live(cart, version) => World(cart, version, map[], [])
    case Absent => World(first, 0, map[], [])
  }

  function Run(first: StoredCart, acts: seq<Action>): World {
    if acts == [] then Created(first) else Step(Run(first, acts[..|acts| - 1]), acts[|acts| - 1])
  }

  /** One mutation after another on one cart, as if there were a single device. */
  function Replay(first: StoredCart, ms: seq<Mutation>): Option<StoredCart> {
    if ms == [] then Some(first)
    else
      var before := Replay(first, ms[..|ms| - 1]);
      if before.None? then None else Mutate(before.value, ms[|ms| - 1])
  }

  ghost predicate Serial(first: StoredCart, w: World) {
    && w.version == |w.won| + 1
    && Replay(first, w.won) == Some(w.cart)
    && WellFormed(w.cart)
    && (forall d :: d in w.copies ==>
          && 1 <= w.copies[d].version <= w.version
          && WellFormed(w.copies[d].cart)
          && Replay(first, w.won[..w.copies[d].version - 1]) == Some(w.copies[d].cart))
  }

  lemma SwapKeeps(first: StoredCart, w: World, d: nat, m: Mutation)
    requires Serial(first, w) && d in w.copies && Requestable(m) && Mutate(w.copies[d].cart, m).Some?
    ensures Serial(first, Swap(w, w.copies[d].version, Mutate(w.copies[d].cart, m).value, m))
  {
    hide WellFormed, Mutate, Requestable;
    if w.version == w.copies[d].version {
      assert w.won[..|w.won|] == w.won;
      MutateKeeps(w.copies[d].cart, m);
      var won := w.won + [m];
      assert won[..|w.won|] == w.won;
      forall e | e in w.copies
        ensures won[..w.copies[e].version - 1] == w.won[..w.copies[e].version - 1]
      {
      }
    }
  }

  lemma {:induction false} RunIsSerial(first: StoredCart, acts: seq<Action>)
    requires WellFormed(first)
    ensures Serial(first, Run(first, acts))
    decreases |acts|
  {
    hide Serial, Step, WellFormed;
    if acts == [] {
      CreatedIsSerial(first);
    } else {
      RunIsSerial(first, acts[..|acts| - 1]);
      StepKeeps(first, Run(first, acts[..|acts| - 1]), acts[|acts| - 1]);
    }
  }

  lemma CreatedIsSerial(first: StoredCart)
    requires WellFormed(first)
    ensures Serial(first, Created(first))
  {
  }

  lemma StepKeeps(first: StoredCart, w: World, a: Action)
    requires Serial(first, w)
    ensures Serial(first, Step(w, a))
  {
    hide Mutate, Requestable, WellFormed;
    match a
    case Load(d) => assert w.won[..|w.won|] == w.won;
    case Write(d, m) =>
      if d in w.copies && Requestable(m) && Mutate(w.copies[d].cart, m).Some? {
        SwapKeeps(first, w, d, m);
      }
  }

  /** The cart at version n is n-1 winning mutations in order: no lost update, whatever the interleaving. */
  lemma VersionsAreSerial(first: StoredCart, acts: seq<Action>)
    requires WellFormed(first)
    ensures var w := Run(first, acts);
      Replay(first, w.won) == Some(w.cart) && |w.won| == w.version - 1 && WellFormed(w.cart)
  {
    RunIsSerial(first, acts);
  }
}
