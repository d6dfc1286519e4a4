/**
 The engine's total against order-service's own recomputation
 (services/order-service/internal/domain/domain.go), and what an amount-off rule really takes off.
 */
module PricingTotals {
  import opened Basics
  import opened Pricing
  import opened PricingLaws

  // ----- RecomputeTotal

  datatype Money = Money(amount: int, currency: string)

  datatype OrderItem = OrderItem(quantity: int, unitPrice: Money, lineTotal: Money)

  function Add(a: Money, b: Money): Option<Money> {
    if a.currency != b.currency then None else Some(Money(a.amount + b.amount, a.currency))
  }

  function Mul(m: Money, quantity: int): Money {
    Money(m.amount * quantity, m.currency)
  }

  function AddLines(sub: Money, items: seq<OrderItem>): Option<Money>
    decreases |items|
  {
    if items == [] then Some(sub)
    else
      var lt := Mul(items[0].unitPrice, items[0].quantity);
      if lt != items[0].lineTotal || Add(sub, lt).None? then None else AddLines(Add(sub, lt).value, items[1..])
  }

  function AddParts(total: Money, parts: seq<Money>): Option<Money>
    decreases |parts|
  {
    if parts == [] then Some(total)
    else if Add(total, parts[0]).None? then None
    else AddParts(Add(total, parts[0]).value, parts[1..])
  }

  /** The order total, or None for any of its errors. */
  function Recompute(items: seq<OrderItem>, subtotal: Money, discount: Money, shipping: Money,
      tax: Money): Option<Money> {
    var sub := AddLines(Money(0, subtotal.currency), items);
    if sub.None? || sub.value != subtotal then None
    else
      var total := AddParts(sub.value, [discount, shipping, tax]);
      if total.None? || total.value.amount < 0 then None else total
  }

  function LineTotals(items: seq<OrderItem>): int {
    if items == [] then 0 else items[0].lineTotal.amount + LineTotals(items[1..])
  }

  /** The line's total is its unit price times its quantity, in the order's currency. */
  predicate LineAdds(it: OrderItem, currency: string) {
    && it.unitPrice.currency == currency && it.lineTotal.currency == currency
    && it.lineTotal.amount == it.unitPrice.amount * it.quantity
  }

  /**
   What an accepted order looks like, and its total: one currency, lines that multiply and add up, nothing below zero.
   */
  ghost predicate Accepted(items: seq<OrderItem>, subtotal: Money, discount: Money, shipping: Money, tax: Money,
      t: Money) {
    && t.currency == subtotal.currency == discount.currency == shipping.currency == tax.currency
    && (forall it :: it in items ==> LineAdds(it, subtotal.currency))
    && LineTotals(items) == subtotal.amount
    && t.amount == subtotal.amount + discount.amount + shipping.amount + tax.amount
    && t.amount >= 0
  }

  lemma {:induction false} AddLinesIff(sub: Money, items: seq<OrderItem>)
    ensures AddLines(sub, items).Some? <==> forall it :: it in items ==> LineAdds(it, sub.currency)
    ensures AddLines(sub, items).Some? ==>
      AddLines(sub, items).value == Money(sub.amount + LineTotals(items), sub.currency)
    decreases |items|
  {
    if items != [] {
      var first, rest := items[0], items[1..];
      assert forall it :: it in items <==> it == first || it in rest;
      if LineAdds(first, sub.currency) {
        AddLinesIff(Money(sub.amount + first.lineTotal.amount, sub.currency), rest);
      } else {
        assert first in items;
      }
    }
  }

  lemma AddPartsIff(a: Money, b: Money, c: Money, d: Money)
    ensures AddParts(a, [b, c, d]).Some? <==> a.currency == b.currency == c.currency == d.currency
    ensures AddParts(a, [b, c, d]).Some? ==>
      AddParts(a, [b, c, d]).value == Money(a.amount + b.amount + c.amount + d.amount, a.currency)
  {
    assert [b, c, d][1..] == [c, d] && [c, d][1..] == [d] && [d][1..] == [];
    if a.currency == b.currency {
      var ab := Money(a.amount + b.amount, a.currency);
      assert AddParts(a, [b, c, d]) == AddParts(ab, [c, d]);
      if a.currency == c.currency {
        assert AddParts(ab, [c, d]) == AddParts(Money(ab.amount + c.amount, a.currency), [d]);
      }
    }
  }

  /** The recomputation succeeds with `t` exactly when the order is accepted with that total. */
  lemma RecomputeIff(items: seq<OrderItem>, subtotal: Money, discount: Money, shipping: Money, tax: Money, t: Money)
    ensures Recompute(items, subtotal, discount, shipping, tax) == Some(t) <==>
      Accepted(items, subtotal, discount, shipping, tax, t)
  {
    hide AddLines, AddParts;
    AddLinesIff(Money(0, subtotal.currency), items);
    AddPartsIff(subtotal, discount, shipping, tax);
  }

  method RecomputeTotal(items: seq<OrderItem>, subtotal: Money, discount: Money, shipping: Money,
      tax: Money) returns (r: Option<Money>)
    ensures r == Recompute(items, subtotal, discount, shipping, tax)
    ensures forall t :: r == Some(t) <==> Accepted(items, subtotal, discount, shipping, tax, t)
  {
    forall t
      ensures Recompute(items, subtotal, discount, shipping, tax) == Some(t) <==>
        Accepted(items, subtotal, discount, shipping, tax, t)
    {
      RecomputeIff(items, subtotal, discount, shipping, tax, t);
    }
    var sub := Money(0, subtotal.currency);
    for i := 0 to |items|
      invariant AddLines(sub, items[i..]) == AddLines(Money(0, subtotal.currency), items)
    {
      var lt := Mul(items[i].unitPrice, items[i].quantity);
      assert items[i..][1..] == items[i + 1..];
      if lt != items[i].lineTotal { return None; }
      var sum := Add(sub, lt);
      if sum.None? { return None; }
      sub := sum.value;
    }
    if sub != subtotal { return None; }
    var total := sub;
    var parts := [discount, shipping, tax];
    for i := 0 to 3
      invariant AddParts(total, parts[i..]) == AddParts(sub, parts)
    {
      var sum := Add(total, parts[i]);
      assert parts[i..][1..] == parts[i + 1..];
      if sum.None? { return None; }
      total := sum.value;
    }
    if total.amount < 0 { return None; }
    r := Some(total);
  }

  /** The order lines checkout submits for a cart: list prices. */
  function OrderItems(cart: seq<CartLine>, currency: string): seq<OrderItem> {
    seq(|cart|, i requires 0 <= i < |cart| =>
      OrderItem(cart[i].quantity, Money(cart[i].unit, currency), Money(cart[i].unit * cart[i].quantity, currency)))
  }

  function CartTotal(cart: seq<CartLine>): Minor {
    if cart == [] then 0 else cart[0].unit * cart[0].quantity + CartTotal(cart[1..])
  }

  lemma {:induction false} LinesAddUp(cart: seq<CartLine>, currency: string, start: int)
    ensures AddLines(Money(start, currency), OrderItems(cart, currency)) ==
      Some(Money(start + CartTotal(cart), currency))
    decreases |cart|
  {
    if cart != [] {
      assert OrderItems(cart, currency)[1..] == OrderItems(cart[1..], currency);
      LinesAddUp(cart[1..], currency, start + cart[0].unit * cart[0].quantity);
    }
  }

  lemma {:induction false} SubtotalIsCartTotal(cart: seq<CartLine>)
    ensures SumSubtotal(ListLines(cart)) == CartTotal(cart)
    decreases |cart|
  {
    if cart != [] {
      var n := |cart| - 1;
      assert ListLines(cart)[..n] == ListLines(cart[..n]);
      SubtotalIsCartTotal(cart[..n]);
      CartTotalSnoc(cart);
    }
  }

  lemma {:induction false} CartTotalSnoc(cart: seq<CartLine>)
    requires cart != []
    ensures CartTotal(cart) == CartTotal(cart[..|cart| - 1]) + cart[|cart| - 1].unit * cart[|cart| - 1].quantity
    decreases |cart|
  {
    if |cart| > 1 {
      assert cart[1..][..|cart| - 2] == cart[..|cart| - 1][1..];
      CartTotalSnoc(cart[1..]);
    }
  }

  /** Everything about the rules of a run that the two totals can disagree on. */
  function Final(cart: seq<CartLine>, quoted: Minor, rules: seq<Rule>): Promo {
    ApplyRules(ListPrice(cart, quoted), rules)
  }

  /**
   Order-service reaches the engine's total exactly when the shipping that was waived equals what caps
   could not give back; in particular when no shipping was waived and every excess found its line.
   */
  lemma TotalsAgreeIff(cart: seq<CartLine>, quoted: Minor, rules: seq<Rule>, taxes: seq<TaxRule>, currency: string)
    requires SensibleCart(cart) && quoted >= 0
    requires forall r :: r in rules ==> Sensible(r)
    requires forall t :: t in taxes ==> t.rate >= 0
    ensures var q := Calculate(cart, quoted, rules, taxes);
      var p := Final(cart, quoted, rules);
      Recompute(OrderItems(cart, currency), Money(q.subtotal, currency), Money(q.discountTotal, currency),
                Money(q.shippingTotal, currency), Money(q.taxTotal, currency)) == Some(Money(q.grandTotal, currency))
      <==> p.waived == p.shortfall
  {
    hide ApplyRules, SumDiscount, SumSubtotal, SumTotal, TaxTotal, LinesOk, AddLines;
    ListPriceBalances(cart, quoted);
    RulesBalance(ListPrice(cart, quoted), rules, quoted);
    var p := Final(cart, quoted, rules);
    TotalsExplained(p.lines);
    FloorIsIdle(p.lines);
    TaxNonNegative(SumTotal(p.lines) + p.shipping, taxes);
    LinesAddUp(cart, currency, 0);
    SubtotalIsCartTotal(cart);
    var q := Calculate(cart, quoted, rules, taxes);
    PartsAddUp(Money(q.subtotal, currency), Money(q.discountTotal, currency), Money(q.shippingTotal, currency),
      Money(q.taxTotal, currency));
  }

  lemma PartsAddUp(a: Money, b: Money, c: Money, d: Money)
    requires a.currency == b.currency == c.currency == d.currency
    ensures AddParts(a, [b, c, d]) == Some(Money(a.amount + b.amount + c.amount + d.amount, a.currency))
  {
    assert [b, c, d][1..] == [c, d] && [c, d][1..] == [d] && [d][1..] == [];
    var ab := Money(a.amount + b.amount, a.currency);
    var abc := Money(ab.amount + c.amount, a.currency);
    assert AddParts(abc, [d]) == Some(Money(abc.amount + d.amount, a.currency));
    assert AddParts(ab, [c, d]) == AddParts(abc, [d]);
  }

  // ----- when a cap's excess finds its line

  /** The rule, applied to `p`, either is not capped or hands its whole excess to the last discounted line. */
  predicate ExcessFits(p: Promo, r: Rule) {
    var cut := CutBy(r, p);
    p.exclusive || r.kind == Bundle || cut.discount <= 0 || !Capped(r, cut.discount) ||
    var i := LastDiscounted(cut.lines, |cut.lines|);
    i < |cut.lines| && cut.discount - r.maxDiscount <= -cut.lines[i].discount
  }

  ghost predicate EveryExcessFits(p: Promo, rules: seq<Rule>) {
    forall i :: 0 <= i < |rules| ==> ExcessFits(ApplyRules(p, rules[..i]), rules[i])
  }

  lemma ShortfallGrows(p: Promo, r: Rule, quoted: Minor)
    requires Sensible(r) && Balanced(p, quoted)
    ensures ApplyRule(p, r).shortfall == p.shortfall <==> ExcessFits(p, r)
    ensures ApplyRule(p, r).shortfall >= p.shortfall
  {
    hide LinesOk, CutBy, SumDiscount, SumSubtotal;
    CutByDiscounts(r, p, quoted);
    var cut := CutBy(r, p);
    if Capped(r, cut.discount) { GiveBackReturns(cut.lines, cut.discount - r.maxDiscount); }
  }

  lemma {:induction false} ShortfallIff(p: Promo, rules: seq<Rule>, quoted: Minor)
    requires Balanced(p, quoted) && p.shortfall == 0 && forall r :: r in rules ==> Sensible(r)
    ensures ApplyRules(p, rules).shortfall == 0 <==> EveryExcessFits(p, rules)
    decreases |rules|
  {
    hide Balanced, ApplyRule, ExcessFits, EveryExcessFits;
    if rules == [] {
      NothingToFit(p);
    } else {
      var n := |rules| - 1;
      var front := rules[..n];
      RulesBalance(p, front, quoted);
      ShortfallIff(p, front, quoted);
      var mid := ApplyRules(p, front);
      ShortfallGrows(mid, rules[n], quoted);
      ShortfallNonNegative(mid, quoted);
      OneMoreToFit(p, rules);
    }
  }

  lemma NothingToFit(p: Promo)
    ensures EveryExcessFits(p, [])
  {
  }

  lemma OneMoreToFit(p: Promo, rules: seq<Rule>)
    requires rules != []
    ensures var n := |rules| - 1;
      EveryExcessFits(p, rules) <==> EveryExcessFits(p, rules[..n]) && ExcessFits(ApplyRules(p, rules[..n]), rules[n])
  {
    hide ExcessFits, ApplyRules;
    var n := |rules| - 1;
    var front := rules[..n];
    assert forall i :: 0 <= i < n ==> front[i] == rules[i] && front[..i] == rules[..i];
    if EveryExcessFits(p, rules) {
      forall i | 0 <= i < n
        ensures ExcessFits(ApplyRules(p, front[..i]), front[i])
      {
        assert ExcessFits(ApplyRules(p, rules[..i]), rules[i]);
      }
    }
  }

  lemma ShortfallNonNegative(p: Promo, quoted: Minor)
    requires Balanced(p, quoted)
    ensures p.shortfall >= 0
  {
  }

  /** The announced discount is what lines and shipping gave up exactly when every cap's excess fits. */
  lemma DiscountExplainedIff(cart: seq<CartLine>, quoted: Minor, rules: seq<Rule>)
    requires SensibleCart(cart) && quoted >= 0
    requires forall r :: r in rules ==> Sensible(r)
    ensures var p := Final(cart, quoted, rules);
      -p.discountTotal == -SumDiscount(p.lines) + p.waived <==> EveryExcessFits(ListPrice(cart, quoted), rules)
  {
    hide ApplyRules, SumDiscount, SumSubtotal, LinesOk, EveryExcessFits;
    ListPriceBalances(cart, quoted);
    RulesBalance(ListPrice(cart, quoted), rules, quoted);
    ShortfallIff(ListPrice(cart, quoted), rules, quoted);
  }

  // ----- in terms of the rules alone

  /** A free-shipping rule is reached before any exclusive rule has applied. */
  ghost predicate FreeShippingReached(p: Promo, rules: seq<Rule>) {
    exists i :: 0 <= i < |rules| && rules[i].kind == FreeShipping && !ApplyRules(p, rules[..i]).exclusive
  }

  lemma {:induction false} WaivedIff(p: Promo, rules: seq<Rule>, quoted: Minor)
    requires Balanced(p, quoted) && p.waived == 0 && forall r :: r in rules ==> Sensible(r)
    ensures ApplyRules(p, rules).waived > 0 <==> quoted > 0 && FreeShippingReached(p, rules)
    decreases |rules|
  {
    hide LinesOk, SumDiscount, SumSubtotal, CutBy, GiveBack, GiveBackAmount, Sensible;
    if rules != [] {
      var n := |rules| - 1;
      var front := rules[..n];
      RulesBalance(p, front, quoted);
      WaivedIff(p, front, quoted);
      var mid := ApplyRules(p, front);
      assert forall i :: 0 <= i < n ==> front[i] == rules[i] && front[..i] == rules[..i];
      if mid.waived > 0 {
        var i :| 0 <= i < |front| && front[i].kind == FreeShipping && !ApplyRules(p, front[..i]).exclusive;
        assert rules[i].kind == FreeShipping && !ApplyRules(p, rules[..i]).exclusive;
      }
    }
  }

  /** Where every cap's excess fits, both services agree on the total exactly when no shipping was given away. */
  lemma TotalsAgreeWhenCapsFit(cart: seq<CartLine>, quoted: Minor, rules: seq<Rule>, taxes: seq<TaxRule>,
      currency: string)
    requires SensibleCart(cart) && quoted >= 0
    requires forall r :: r in rules ==> Sensible(r)
    requires forall t :: t in taxes ==> t.rate >= 0
    requires EveryExcessFits(ListPrice(cart, quoted), rules)
    ensures var q := Calculate(cart, quoted, rules, taxes);
      Recompute(OrderItems(cart, currency), Money(q.subtotal, currency), Money(q.discountTotal, currency),
                Money(q.shippingTotal, currency), Money(q.taxTotal, currency)) == Some(Money(q.grandTotal, currency))
      <==> !(quoted > 0 && FreeShippingReached(ListPrice(cart, quoted), rules))
  {
    hide Recompute, Calculate, ApplyRules, LinesOk, SumDiscount, SumSubtotal, EveryExcessFits, FreeShippingReached;
    TotalsAgreeIff(cart, quoted, rules, taxes, currency);
    ListPriceBalances(cart, quoted);
    RulesBalance(ListPrice(cart, quoted), rules, quoted);
    ShortfallIff(ListPrice(cart, quoted), rules, quoted);
    WaivedIff(ListPrice(cart, quoted), rules, quoted);
  }

  function HalfCapped(): Rule {
    Rule(PercentOff, 5000, 0, 0, 0, 10000, [], false, 10)
  }

  function Full(): LinePrice {
    LinePrice(1, 100, 100, 0, 100)
  }

  function Halved(): LinePrice {
    LinePrice(1, 100, 100, -50, 50)
  }

  lemma TwoLinesHalved()
    ensures CutLines(HalfCapped(), [Full(), Full()]) == Cut([Halved(), Halved()], 100)
  {
    assert [Full(), Full()][..1] == [Full()] && [Full()][..0] == [];
    assert CutLines(HalfCapped(), [Full()]) == Cut([Halved()], 50);
  }

  lemma OneLineHandedBack()
    ensures GiveBack([Halved(), Halved()], 90) == [Halved(), Full()]
  {
    assert LastDiscounted([Halved(), Halved()], 2) == 1;
  }

  lemma HalfSums()
    ensures SumSubtotal([Full(), Full()]) == 200 && SumTotal([Halved(), Full()]) == 150
  {
    assert [Full(), Full()][..1] == [Full()] && [Full()][..0] == [];
    assert [Halved(), Full()][..1] == [Halved()] && [Halved()][..0] == [];
    assert SumSubtotal([Full()]) == 100 && SumTotal([Halved()]) == 50;
  }

  lemma OnlyRule(p: Promo, r: Rule)
    ensures ApplyRules(p, [r]) == ApplyRule(p, r)
  {
    assert [r][..0] == [] && [r][0] == r;
  }

  /** Half price capped at 10 on two lines of 100: the lines give up 50, the quote announces 10. */
  lemma CapCanDisagree()
    ensures var q := Calculate([CartLine(1, 100), CartLine(1, 100)], 0, [HalfCapped()], []);
      q.discountTotal == -10 && q.grandTotal == 150 && q.subtotal + q.discountTotal == 190
  {
    hide CutLines, GiveBack, GiveBackAmount, ApplyRules, SumTotal, SumSubtotal;
    var cart := [CartLine(1, 100), CartLine(1, 100)];
    assert ListLines(cart) == [Full(), Full()];
    TwoLinesHalved();
    OneLineHandedBack();
    HalfSums();
    OnlyRule(ListPrice(cart, 0), HalfCapped());
    assert Floored([Halved(), Full()]) == [Halved(), Full()];
  }

  function FreeDelivery(): Rule {
    Rule(FreeShipping, 0, 0, 0, 0, 10000, [], false, 0)
  }

  lemma FreeDeliveryApplies()
    ensures ApplyRule(Promo([Full()], 100, 50, 0, false, 0, 0), FreeDelivery()) ==
      Promo([Full()], 100, 0, -50, false, 50, 0)
  {
    hide CutLines, CutAmount, GiveBack, GiveBackAmount;
  }

  lemma FreeDeliveryQuote()
    ensures Calculate([CartLine(1, 100)], 50, [FreeDelivery()], []) == Quote([Full()], 100, -50, 0, 0, 100)
  {
    hide ApplyRules, ApplyRule, SumTotal, SumSubtotal;
    var cart := [CartLine(1, 100)];
    assert ListLines(cart) == [Full()];
    OneFull();
    FreeDeliveryApplies();
    OnlyRule(ListPrice(cart, 50), FreeDelivery());
    assert Floored([Full()]) == [Full()];
    assert TaxTotal(100, []) == 0;
  }

  /** One line of 100, delivery worth 50 given away: the quote says 100 and order-service computes 50. */
  lemma FreeShippingDisagrees(currency: string)
    ensures var cart := [CartLine(1, 100)];
      var q := Calculate(cart, 50, [FreeDelivery()], []);
      && q.grandTotal == 100
      && Recompute(OrderItems(cart, currency), Money(q.subtotal, currency), Money(q.discountTotal, currency),
                   Money(q.shippingTotal, currency), Money(q.taxTotal, currency)) == Some(Money(50, currency))
  {
    hide Calculate, Recompute, OrderItems;
    FreeDeliveryQuote();
    OneItemRecomputes(currency);
  }

  lemma OneFull()
    ensures SumTotal([Full()]) == 100 && SumSubtotal([Full()]) == 100
  {
    assert [Full()][..0] == [];
  }

  lemma OneItemRecomputes(currency: string)
    ensures Recompute(OrderItems([CartLine(1, 100)], currency), Money(100, currency), Money(-50, currency),
      Money(0, currency), Money(0, currency))
      == Some(Money(50, currency))
  {
    var items := OrderItems([CartLine(1, 100)], currency);
    assert items == [OrderItem(1, Money(100, currency), Money(100, currency))] && items[1..] == [];
    assert AddLines(Money(0, currency), items) == Some(Money(100, currency));
    PartsAddUp(Money(100, currency), Money(-50, currency), Money(0, currency), Money(0, currency));
  }

  // ----- amount off

  /** List-price subtotals from line `i` on. */
  function Tail(lines: seq<LinePrice>, i: nat): Minor
    requires i <= |lines|
    decreases |lines| - i
  {
    if i == |lines| then 0 else lines[i].subtotal + Tail(lines, i + 1)
  }

  ghost predicate UndiscountedFrom(lines: seq<LinePrice>, i: nat) {
    forall j :: i <= j < |lines| ==> lines[j].discount == 0 && LineOk(lines[j])
  }

  lemma {:induction false} TailKept(lines: seq<LinePrice>, i: nat, l: LinePrice, j: nat)
    requires i < |lines| && j <= |lines| && i < j
    ensures Tail(lines[i := l], j) == Tail(lines, j)
    decreases |lines| - j
  {
    if j < |lines| { TailKept(lines, i, l, j + 1); }
  }

  lemma MulCancels(s: int, x: int, y: int)
    requires s > 0 && s * x <= s * y
    ensures x <= y
  {
    assert s * (x - y) == s * x - s * y;
    if x > y { MulMono(s, 1, x - y); }
  }

  lemma FloorDiv(p: int, s: int)
    requires p >= 0 && s > 0
    ensures 0 <= p / s && s * (p / s) <= p < s * (p / s) + s
  {
  }

  lemma FloorBelow(s: int, f: int, p: int, x: int)
    requires s > 0 && s * f <= p < s * f + s
    ensures p <= s * x ==> f <= x
    ensures p >= s * x ==> f >= x
  {
    if p <= s * x { MulCancels(s, f, x); }
    if p >= s * x {
      assert s * (f + 1) == s * f + s;
      if f + 1 <= x { MulMono(s, f + 1, x); }
    }
  }

  lemma FloorShare(a: int, x: int, s: int)
    requires a >= 0 && x >= 0 && s > 0
    ensures var f := TruncDiv(a * x, s); 0 <= f && s * f <= a * x < s * f + s
    ensures a <= s ==> TruncDiv(a * x, s) <= x
    ensures a >= s ==> TruncDiv(a * x, s) >= x
  {
    var p := a * x;
    assert p >= 0 by { MulMono(x, a, a); }
    FloorDiv(p, s);
    if a <= s { assert p <= s * x by { MulMono(x, a, s); } }
    if a >= s { assert p >= s * x by { MulMono(x, s, a); } }
    FloorBelow(s, p / s, p, x);
  }

  /** A discount no larger than the subtotal loses less than one unit per line to rounding. */
  lemma {:induction false} SmallAmountPlaced(a: int, s: int, lines: seq<LinePrice>, i: nat, remaining: int)
    requires i <= |lines| && UndiscountedFrom(lines, i)
    requires 0 < a <= s && remaining >= 0
    requires a * Tail(lines, i) <= s * remaining <= a * Tail(lines, i) + i * (s - 1)
    ensures 0 <= Spread(a, s, lines, i, remaining).1
    ensures |lines| > 0 ==> Spread(a, s, lines, i, remaining).1 < |lines|
    decreases |lines| - i
  {
    if i == |lines| {
      RoundingBound(remaining, |lines|, s);
    } else if remaining > 0 {
      var l := lines[i];
      var share := Share(a, s, remaining, l, i + 1 == |lines|);
      var next := lines[i := TakeOff(l, share)];
      TailKept(lines, i, TakeOff(l, share), i + 1);
      TailNonNegative(lines, i + 1);
      if i + 1 == |lines| {
        LastShare(a, s, l.subtotal, i, remaining);
        assert Spread(a, s, next, i + 1, remaining - share).1 == remaining - share;
      } else {
        MiddleShare(a, s, l.subtotal, Tail(lines, i + 1), i, remaining);
        SmallAmountPlaced(a, s, next, i + 1, remaining - share);
      }
    }
  }

  /** s * x <= n * (s - 1) leaves x below n, unless both are zero. */
  lemma RoundingBound(x: int, n: int, s: int)
    requires 0 <= x && s > 0 && n >= 0 && s * x <= n * (s - 1)
    ensures x <= n && (n > 0 ==> x < n)
  {
    assert n * (s - 1) == s * n - n;
    MulCancels(s, x, n);
  }

  lemma MiddleShare(a: int, s: int, x: int, tail: int, i: int, remaining: int)
    requires 0 < a <= s && x >= 0 && tail >= 0 && remaining > 0 && i >= 0
    requires a * (x + tail) <= s * remaining <= a * (x + tail) + i * (s - 1)
    ensures var share := Min(Min(remaining, TruncDiv(a * x, Max(s, 1))), x);
      0 <= share <= remaining && a * tail <= s * (remaining - share) <= a * tail + (i + 1) * (s - 1)
  {
    var f := TruncDiv(a * x, s);
    FloorShare(a, x, s);
    MulMono(a, tail, tail);
    assert a * (x + tail) == a * x + a * tail;
    MulCancels(s, f, remaining);
    assert s * (remaining - f) == s * remaining - s * f;
    assert (i + 1) * (s - 1) == i * (s - 1) + (s - 1);
  }

  lemma LastShare(a: int, s: int, x: int, i: int, remaining: int)
    requires 0 < a <= s && x >= 0 && remaining > 0 && i >= 0
    requires s * remaining <= a * (x + 0) + i * (s - 1)
    ensures 0 <= remaining - Min(remaining, x) < i + 1
  {
    if remaining > x {
      MulMono(x, a, s);
      assert s * (remaining - x) == s * remaining - s * x;
      RoundingBound(remaining - x, i, s);
    }
  }

  /** A discount at least as large as the subtotal is placed in full. */
  lemma {:induction false} LargeAmountPlaced(a: int, s: int, lines: seq<LinePrice>, i: nat, remaining: int)
    requires i <= |lines| && UndiscountedFrom(lines, i)
    requires a >= s > 0 && remaining == Tail(lines, i)
    ensures Spread(a, s, lines, i, remaining).1 == 0
    decreases |lines| - i
  {
    TailNonNegative(lines, i);
    if i < |lines| && remaining > 0 {
      var l := lines[i];
      TailNonNegative(lines, i + 1);
      FloorShare(a, l.subtotal, s);
      var share := Share(a, s, remaining, l, i + 1 == |lines|);
      assert share == l.subtotal;
      TailKept(lines, i, TakeOff(l, share), i + 1);
      LargeAmountPlaced(a, s, lines[i := TakeOff(l, share)], i + 1, remaining - share);
    }
  }

  lemma {:induction false} TailNonNegative(lines: seq<LinePrice>, i: nat)
    requires i <= |lines| && UndiscountedFrom(lines, i)
    ensures Tail(lines, i) >= 0
    decreases |lines| - i
  {
    if i < |lines| {
      assert LineOk(lines[i]);
      TailNonNegative(lines, i + 1);
    }
  }

  lemma {:induction false} TailIsSum(lines: seq<LinePrice>, i: nat)
    requires i <= |lines|
    ensures SumSubtotal(lines) == SumSubtotal(lines[..i]) + Tail(lines, i)
    decreases |lines| - i
  {
    if i < |lines| {
      TailIsSum(lines, i + 1);
      assert lines[..i + 1][..i] == lines[..i];
    } else {
      assert lines[..i] == lines;
    }
  }

  lemma AllTail(lines: seq<LinePrice>)
    ensures Tail(lines, 0) == SumSubtotal(lines)
    ensures SumSubtotal(lines) > 0 ==> lines != []
  {
    TailIsSum(lines, 0);
    assert lines[..0] == [];
  }

  /**
   An amount-off rule on undiscounted lines takes off what its shares add up to: never more than the
   amount or the subtotal, short of that by less than one unit per line, and not short at all when the
   amount covers the subtotal.
   */
  lemma AmountOffPlaced(r: Rule, lines: seq<LinePrice>)
    requires UndiscountedFrom(lines, 0) && r.amountOff > 0 && SumSubtotal(lines) > 0
    ensures var s := SumSubtotal(lines);
      var cut := CutAmount(r, s, lines);
      && cut.discount == -SumDiscount(cut.lines)
      && 0 <= cut.discount <= Min(r.amountOff, s)
      && Min(r.amountOff, s) - cut.discount < |lines|
      && (r.amountOff >= s ==> cut.discount == s)
  {
    hide SumSubtotal, SumDiscount, Tail;
    var s := SumSubtotal(lines);
    AllTail(lines);
    NoDiscountYet(lines);
    SpreadDiscounts(r.amountOff, s, lines, 0, Min(r.amountOff, s));
    if r.amountOff >= s {
      LargeAmountPlaced(r.amountOff, s, lines, 0, s);
    } else {
      SmallAmountPlaced(r.amountOff, s, lines, 0, r.amountOff);
    }
  }

  // ----- exactly when the whole amount is placed

  /** What line `l` can take of an amount-off rule: its rounded share or, for the last line, all it has left. */
  function Room(a: Minor, s: Minor, l: LinePrice, last: bool): Minor {
    if last then l.total else Min(TruncDiv(a * l.subtotal, Max(s, 1)), l.total)
  }

  /** The room of the lines from `i` on. */
  function RoomFrom(a: Minor, s: Minor, lines: seq<LinePrice>, i: nat): Minor
    requires i <= |lines|
    decreases |lines| - i
  {
    if i == |lines| then 0 else Room(a, s, lines[i], i + 1 == |lines|) + RoomFrom(a, s, lines, i + 1)
  }

  lemma {:induction false} RoomKept(a: Minor, s: Minor, lines: seq<LinePrice>, i: nat, l: LinePrice, j: nat)
    requires i < |lines| && j <= |lines| && i < j
    ensures RoomFrom(a, s, lines[i := l], j) == RoomFrom(a, s, lines, j)
    decreases |lines| - j
  {
    if j < |lines| { RoomKept(a, s, lines, i, l, j + 1); }
  }

  lemma {:induction false} RoomNonNegative(a: Minor, s: Minor, lines: seq<LinePrice>, i: nat)
    requires i <= |lines| && a >= 0 && LinesOk(lines)
    ensures RoomFrom(a, s, lines, i) >= 0
    decreases |lines| - i
  {
    if i < |lines| {
      assert LineOk(lines[i]);
      FloorShare(a, lines[i].subtotal, Max(s, 1));
      RoomNonNegative(a, s, lines, i + 1);
    }
  }

  /** What is left over is what exceeds the room, whatever discounts the lines already carry. */
  lemma {:induction false} SpreadLeaves(a: Minor, s: Minor, lines: seq<LinePrice>, i: nat, remaining: Minor)
    requires i <= |lines| && a >= 0 && remaining >= 0 && LinesOk(lines)
    ensures Spread(a, s, lines, i, remaining).1 == Max(0, remaining - RoomFrom(a, s, lines, i))
    decreases |lines| - i
  {
    RoomNonNegative(a, s, lines, i);
    if i < |lines| && remaining > 0 {
      var l := lines[i];
      assert LineOk(l);
      FloorShare(a, l.subtotal, Max(s, 1));
      var share := Share(a, s, remaining, l, i + 1 == |lines|);
      assert share == Min(remaining, Room(a, s, l, i + 1 == |lines|));
      RoomNonNegative(a, s, lines, i + 1);
      RoomKept(a, s, lines, i, TakeOff(l, share), i + 1);
      assert LineOk(TakeOff(l, share));
      SpreadLeaves(a, s, lines[i := TakeOff(l, share)], i + 1, remaining - share);
    }
  }

  /**
   On any lines, discounted or not, an amount-off rule takes off the smallest of the amount, the subtotal and
   the room of the lines; so the whole of it is placed exactly when it is not more than that room.
   */
  lemma AmountOffPlacedIff(r: Rule, s: Minor, lines: seq<LinePrice>)
    requires LinesOk(lines)
    ensures var whole := Max(0, Min(r.amountOff, s));
      var room := RoomFrom(r.amountOff, s, lines, 0);
      && CutAmount(r, s, lines).discount == (if whole == 0 then 0 else Min(whole, room))
      && (CutAmount(r, s, lines).discount == whole <==> whole == 0 || whole <= room)
  {
    if Min(r.amountOff, s) > 0 {
      SpreadLeaves(r.amountOff, s, lines, 0, Min(r.amountOff, s));
    }
  }

  /** The last line does not always absorb the remainder: one unit off two lines of 1 and a free line places nothing. */
  lemma RemainderCanBeLost()
    ensures var r := Rule(AmountOff, 0, 1, 0, 0, 10000, [], false, 0);
      CutAmount(r, 2, [LinePrice(1, 1, 1, 0, 1), LinePrice(1, 1, 1, 0, 1), LinePrice(1, 0, 0, 0, 0)]).discount == 0
  {
    var lines := [LinePrice(1, 1, 1, 0, 1), LinePrice(1, 1, 1, 0, 1), LinePrice(1, 0, 0, 0, 0)];
    assert lines[0 := TakeOff(lines[0], 0)] == lines && lines[1 := TakeOff(lines[1], 0)] == lines &&
      lines[2 := TakeOff(lines[2], 0)] == lines;
    assert Spread(1, 2, lines, 3, 1) == (lines, 1);
    assert Spread(1, 2, lines, 2, 1) == Spread(1, 2, lines, 3, 1);
    assert Spread(1, 2, lines, 1, 1) == Spread(1, 2, lines, 2, 1);
    assert Spread(1, 2, lines, 0, 1) == Spread(1, 2, lines, 1, 1);
  }
}
