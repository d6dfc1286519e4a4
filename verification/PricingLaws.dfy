/** What the pricing arithmetic guarantees for every cart and every stack of rules. */
module PricingLaws {
  import opened Basics
  import opened Pricing

  // ----- basis points

  /** Rounding is half-up, symmetric about zero, and no intermediate value leaves 64 bits. */
  lemma ApplyBpFits(amount: Minor, bp: BasisPoints)
    requires FitsInt64(amount) && 0 <= bp <= 10000
    ensures -MAX_SAFE <= amount <= MAX_SAFE ==>
      FitsInt64(amount * bp) && FitsInt64(amount * bp + 5000) && FitsInt64(amount * bp - 5000)
    ensures FitsInt64(ApplyBp(amount, bp))
    ensures ApplyBp(-amount, bp) == -ApplyBp(amount, bp)
    ensures 0 <= amount <= MAX_SAFE ==> amount * bp - 5000 < 10000 * ApplyBp(amount, bp) <= amount * bp + 5000
  {
    hide RoundedTenThousandth;
    if -MAX_SAFE <= amount <= MAX_SAFE {
      ProductFits(amount, bp);
      RoundingIsHalfUp(amount * bp);
    }
  }

  lemma ProductFits(amount: Minor, bp: BasisPoints)
    requires -MAX_SAFE <= amount <= MAX_SAFE && 0 <= bp <= 10000
    ensures -MAX_SAFE * 10000 <= amount * bp <= MAX_SAFE * 10000
    ensures (-amount) * bp == -(amount * bp)
    ensures amount >= 0 ==> amount * bp >= 0
  {
    if amount >= 0 {
      MulMono(amount, bp, 10000);
    } else {
      MulMono(-amount, bp, 10000);
    }
  }

  lemma RoundingIsHalfUp(product: int)
    ensures RoundedTenThousandth(-product) == -RoundedTenThousandth(product)
    ensures product >= 0 ==> product - 5000 < 10000 * RoundedTenThousandth(product) <= product + 5000
    ensures product < 0 ==> product - 5000 <= 10000 * RoundedTenThousandth(product) < product + 5000
  {
  }

  lemma MulMono(a: int, x: int, y: int)
    requires 0 <= a && 0 <= x <= y
    ensures 0 <= a * x <= a * y
  {
  }

  lemma ApplyBpNonNegative(amount: Minor, bp: BasisPoints)
    requires amount >= 0 && bp >= 0
    ensures ApplyBp(amount, bp) >= 0
  {
    MulMono(amount, bp, bp);
  }

  // ----- line sums

  lemma {:induction false} SumsAt(lines: seq<LinePrice>, i: nat, l: LinePrice)
    requires i < |lines|
    ensures SumDiscount(lines[i := l]) == SumDiscount(lines) + l.discount - lines[i].discount
    ensures SumSubtotal(lines[i := l]) == SumSubtotal(lines) + l.subtotal - lines[i].subtotal
    decreases |lines|
  {
    var n := |lines| - 1;
    if i == n {
      assert lines[i := l][..n] == lines[..n];
    } else {
      assert lines[i := l][..n] == lines[..n][i := l];
      SumsAt(lines[..n], i, l);
    }
  }

  /** A line never costs less than nothing nor more than list price, and its discount explains the difference. */
  predicate LineOk(l: LinePrice) {
    l.subtotal == l.unit * l.quantity && l.total == l.subtotal + l.discount && 0 <= l.total <= l.subtotal
  }

  ghost predicate LinesOk(lines: seq<LinePrice>) {
    forall i :: 0 <= i < |lines| ==> LineOk(lines[i])
  }

  lemma {:induction false} TotalsExplained(lines: seq<LinePrice>)
    requires LinesOk(lines)
    ensures SumTotal(lines) == SumSubtotal(lines) + SumDiscount(lines)
    ensures 0 <= SumTotal(lines) <= SumSubtotal(lines)
  {
    if lines != [] {
      var n := |lines| - 1;
      assert LineOk(lines[n]);
      assert forall i :: 0 <= i < n ==> lines[..n][i] == lines[i];
      TotalsExplained(lines[..n]);
    }
  }

  // ----- each rule

  /**
   Groups of a positive discount: nothing to get, something to get, or a size so negative that it turns the sign twice.
   */
  predicate SoundGroups(r: Rule) {
    r.buyQuantity <= 0 || r.getQuantity == 0 || (r.getDiscountBp >= 0 && (r.getQuantity > 0 || GroupSize(r) < 0))
  }

  /** Exactly the rules that keep every line in bounds (RuleIsSensibleIff); amounts, tiers and caps may be anything. */
  predicate Sensible(r: Rule) {
    match r.kind
    case PercentOff => r.percentOff >= 0
    case BuyXGetY => SoundGroups(r)
    case _ => true
  }

  lemma {:induction false} BestTierNonNegative(tiers: seq<Tier>, quantity: int)
    ensures BestTier(tiers, quantity) >= 0
  {
    if tiers != [] { BestTierNonNegative(tiers[..|tiers| - 1], quantity); }
  }

  /** Tiers are not additive: the best one the quantity qualifies for, or nothing. */
  lemma {:induction false} BestTierIsMaximum(tiers: seq<Tier>, quantity: int)
    ensures forall t :: t in tiers && quantity >= t.minQuantity ==> t.discountBp <= BestTier(tiers, quantity)
    ensures BestTier(tiers, quantity) == 0 ||
      exists t :: t in tiers && quantity >= t.minQuantity && t.discountBp == BestTier(tiers, quantity)
  {
    if tiers != [] {
      var front, last := tiers[..|tiers| - 1], tiers[|tiers| - 1];
      assert tiers == front + [last];
      BestTierIsMaximum(front, quantity);
      if quantity >= last.minQuantity && last.discountBp > BestTier(front, quantity) { assert last in tiers; }
    }
  }

  /** Buy X get Y counts complete groups only: the largest number that fits, Y free units in each. */
  lemma FreeUnitsAreWholeGroups(r: Rule, l: LinePrice, groups: int)
    requires r.kind == BuyXGetY && r.buyQuantity > 0 && GroupSize(r) > 0 && l.quantity >= 0
    requires groups * GroupSize(r) <= l.quantity < (groups + 1) * GroupSize(r)
    ensures FreeUnits(r, l) == groups * r.getQuantity
    ensures AppliedOff(r, l) == if groups == 0 then 0
      else Min(ApplyBp(l.unit * (groups * r.getQuantity), r.getDiscountBp), l.total)
  {
    GroupsAreQuotient(l.quantity, GroupSize(r), groups);
  }

  lemma GroupsAreQuotient(quantity: int, size: int, groups: int)
    requires size > 0 && quantity >= 0 && groups * size <= quantity < (groups + 1) * size
    ensures quantity / size == groups && (groups == 0 <==> quantity < size)
  {
    var rest := quantity - groups * size;
    assert quantity == groups * size + rest && 0 <= rest < size;
    var q := quantity / size;
    assert quantity == q * size + quantity % size;
    if q > groups { MulMono(size, 1, q - groups); }
    if q < groups { MulMono(size, 1, groups - q); }
  }

  lemma LineOffNonNegative(r: Rule, l: LinePrice)
    requires Sensible(r) && LineOk(l)
    ensures LineOff(r, l) >= 0
  {
    match r.kind
    case PercentOff => ApplyBpNonNegative(l.subtotal, r.percentOff);
    case TieredQuantity =>
      BestTierNonNegative(r.tiers, l.quantity);
      ApplyBpNonNegative(l.subtotal, BestTier(r.tiers, l.quantity));
    case BuyXGetY =>
      if FreeUnits(r, l) != 0 {
        FreeUnitsWorth(r, l);
        ApplyBpNonNegative(l.unit * FreeUnits(r, l), r.getDiscountBp);
      }
    case _ =>
  }

  /** The free units are never worth less than nothing. */
  lemma FreeUnitsWorth(r: Rule, l: LinePrice)
    requires r.kind == BuyXGetY && SoundGroups(r) && LineOk(l)
    ensures l.unit * FreeUnits(r, l) >= 0
  {
    var size := GroupSize(r);
    if FreeUnits(r, l) != 0 {
      SignOfGroups(l.quantity, size);
      var groups := Groups(l.quantity, size);
      if l.quantity > 0 {
        SignOfFactor(l.quantity, l.unit);
        assert FreeUnits(r, l) >= 0 by { SameSign(groups, r.getQuantity); }
        MulMono(l.unit, FreeUnits(r, l), FreeUnits(r, l));
      } else if l.quantity < 0 {
        SignOfFactor(-l.quantity, -l.unit);
        assert groups * r.getQuantity == r.getQuantity;
        SameSign(l.unit, r.getQuantity);
      }
    }
  }

  lemma SameSign(a: int, b: int)
    requires (a >= 0 && b >= 0) || (a <= 0 && b <= 0)
    ensures a * b >= 0
  {
    if a >= 0 && b >= 0 {
      MulMono(a, b, b);
    } else {
      MulMono(-a, -b, -b);
      assert (-a) * (-b) == a * b;
    }
  }

  lemma SignOfFactor(q: int, u: int)
    requires q > 0 && u * q >= 0
    ensures u >= 0
  {
    if u < 0 { MulMono(q, 1, -u); }
  }

  /** Groups of a quantity that is not below the size. */
  lemma SignOfGroups(quantity: int, size: int)
    requires size != 0 && quantity >= size
    ensures quantity >= 0 && size > 0 ==> Groups(quantity, size) >= 0
    ensures quantity >= 0 && size < 0 ==> Groups(quantity, size) <= 0
    ensures quantity == 0 ==> Groups(quantity, size) == 0
    ensures quantity < 0 ==> Groups(quantity, size) == if quantity == size then 1 else 0
  {
    if quantity < 0 {
      var a, b := -quantity, -size;
      assert 0 < a <= b;
      if a == b { GroupsAreQuotient(a, b, 1); } else { GroupsAreQuotient(a, b, 0); }
    }
  }

  /** `after` discounts `before` by exactly `discount`, line by line, keeping every line within bounds. */
  ghost predicate Discounts(before: seq<LinePrice>, after: seq<LinePrice>, discount: Minor) {
    && |after| == |before|
    && LinesOk(after)
    && SumSubtotal(after) == SumSubtotal(before)
    && SumDiscount(after) == SumDiscount(before) - discount
  }

  lemma {:induction false} CutLinesDiscounts(r: Rule, lines: seq<LinePrice>)
    requires Sensible(r) && LinesOk(lines)
    ensures Discounts(lines, CutLines(r, lines).lines, CutLines(r, lines).discount)
    decreases |lines|
  {
    if lines != [] {
      var n := |lines| - 1;
      var l := lines[n];
      assert LineOk(l);
      assert forall i :: 0 <= i < n ==> lines[..n][i] == lines[i];
      CutLinesDiscounts(r, lines[..n]);
      LineOffNonNegative(r, l);
      var c := CutLines(r, lines[..n]);
      var cut := CutLines(r, lines);
      assert cut.lines[..n] == c.lines && cut.lines[n] == TakeOff(l, AppliedOff(r, l));
      assert LineOk(cut.lines[n]);
      assert LinesOk(cut.lines);
    }
  }

  lemma ShareFits(amount: Minor, subtotal: Minor, remaining: Minor, l: LinePrice, last: bool)
    requires LineOk(l) && remaining > 0 && amount > 0
    ensures 0 <= Share(amount, subtotal, remaining, l, last) <= remaining
    ensures Share(amount, subtotal, remaining, l, last) <= l.total
  {
    MulMono(amount, l.subtotal, l.subtotal);
  }

  lemma {:induction false} SpreadDiscounts(amount: Minor, subtotal: Minor, lines: seq<LinePrice>, i: nat,
      remaining: Minor)
    requires i <= |lines| && LinesOk(lines) && (remaining > 0 ==> amount > 0)
    ensures var (out, left) := Spread(amount, subtotal, lines, i, remaining);
      Discounts(lines, out, remaining - left) && (remaining >= 0 ==> 0 <= left <= remaining) &&
        (remaining < 0 ==> left == remaining)
    decreases |lines| - i
  {
    if i < |lines| && remaining > 0 {
      var s := Share(amount, subtotal, remaining, lines[i], i + 1 == |lines|);
      assert LineOk(lines[i]);
      ShareFits(amount, subtotal, remaining, lines[i], i + 1 == |lines|);
      var next := lines[i := TakeOff(lines[i], s)];
      SumsAt(lines, i, TakeOff(lines[i], s));
      assert LinesOk(next);
      SpreadDiscounts(amount, subtotal, next, i + 1, remaining - s);
    }
  }

  lemma GiveBackReturns(lines: seq<LinePrice>, excess: Minor)
    requires LinesOk(lines) && excess > 0
    ensures 0 <= GiveBackAmount(lines, excess) <= excess
    ensures Discounts(lines, GiveBack(lines, excess), -GiveBackAmount(lines, excess))
  {
    var i := LastDiscounted(lines, |lines|);
    if i < |lines| {
      assert LineOk(lines[i]);
      SumsAt(lines, i, GiveBack(lines, excess)[i]);
    }
  }

  // ----- the whole stack

  /**
   The books of a quote in progress: lines in bounds, and what was announced as discount is what the
   lines gave up plus the shipping that was waived, less what a cap took back without finding a line for it.
   */
  ghost predicate Balanced(p: Promo, quoted: Minor) {
    && LinesOk(p.lines)
    && SumSubtotal(p.lines) == p.subtotal
    && 0 <= p.shipping && p.shipping + p.waived == quoted && 0 <= p.waived
    && 0 <= p.shortfall
    && -p.discountTotal == -SumDiscount(p.lines) + p.waived - p.shortfall
  }

  lemma CutByDiscounts(r: Rule, p: Promo, quoted: Minor)
    requires Sensible(r) && Balanced(p, quoted)
    ensures var cut := CutBy(r, p);
      && Discounts(p.lines, cut.lines, cut.discount - (p.shipping - ShippingAfter(r, p)))
      && 0 <= ShippingAfter(r, p) <= p.shipping
  {
    if LineByLine(r.kind) {
      CutLinesDiscounts(r, p.lines);
    } else if r.kind == AmountOff || r.kind == CartThreshold {
      SpreadDiscounts(r.amountOff, p.subtotal, p.lines, 0, Min(r.amountOff, p.subtotal));
    }
  }

  lemma {:induction false} CutIsNonNegative(r: Rule, lines: seq<LinePrice>)
    requires Sensible(r) && LinesOk(lines)
    ensures CutLines(r, lines).discount >= 0
    decreases |lines|
  {
    if lines != [] {
      var n := |lines| - 1;
      assert LineOk(lines[n]);
      assert forall i :: 0 <= i < n ==> lines[..n][i] == lines[i];
      CutIsNonNegative(r, lines[..n]);
      LineOffNonNegative(r, lines[n]);
    }
  }

  lemma CutByNonNegative(r: Rule, p: Promo, quoted: Minor)
    requires Sensible(r) && Balanced(p, quoted)
    ensures CutBy(r, p).discount >= 0
  {
    if LineByLine(r.kind) {
      CutIsNonNegative(r, p.lines);
    } else if r.kind == AmountOff || r.kind == CartThreshold {
      SpreadDiscounts(r.amountOff, p.subtotal, p.lines, 0, Min(r.amountOff, p.subtotal));
    }
  }

  lemma ApplyRuleBalances(p: Promo, r: Rule, quoted: Minor)
    requires Sensible(r) && Balanced(p, quoted)
    ensures Balanced(ApplyRule(p, r), quoted)
    ensures ApplyRule(p, r).subtotal == p.subtotal && ApplyRule(p, r).shortfall >= p.shortfall
  {
    hide LinesOk, CutBy, GiveBack, SumDiscount, SumSubtotal, GiveBackAmount;
    CutByDiscounts(r, p, quoted);
    CutByNonNegative(r, p, quoted);
    var cut := CutBy(r, p);
    if Capped(r, cut.discount) {
      GiveBackReturns(cut.lines, cut.discount - r.maxDiscount);
    }
  }

  lemma {:induction false} RulesBalance(p: Promo, rules: seq<Rule>, quoted: Minor)
    requires Balanced(p, quoted) && forall r :: r in rules ==> Sensible(r)
    ensures Balanced(ApplyRules(p, rules), quoted) && ApplyRules(p, rules).subtotal == p.subtotal
    decreases |rules|
  {
    hide Balanced, ApplyRule;
    if rules != [] {
      var n := |rules| - 1;
      RulesBalance(p, rules[..n], quoted);
      ApplyRuleBalances(ApplyRules(p, rules[..n]), rules[n], quoted);
    }
  }

  /** Exactly the carts whose list prices are in order (ListPricesSoundIff). */
  predicate SensibleCart(cart: seq<CartLine>) {
    forall i :: 0 <= i < |cart| ==> cart[i].unit * cart[i].quantity >= 0
  }

  lemma {:induction false} NoDiscountYet(lines: seq<LinePrice>)
    requires forall i :: 0 <= i < |lines| ==> lines[i].discount == 0
    ensures SumDiscount(lines) == 0
  {
    if lines != [] {
      var n := |lines| - 1;
      assert forall i :: 0 <= i < n ==> lines[..n][i] == lines[i];
      NoDiscountYet(lines[..n]);
    }
  }

  lemma ListPriceBalances(cart: seq<CartLine>, quoted: Minor)
    requires SensibleCart(cart) && quoted >= 0
    ensures Balanced(ListPrice(cart, quoted), quoted)
  {
    var lines := ListLines(cart);
    forall i | 0 <= i < |lines|
      ensures LineOk(lines[i])
    {
      assert cart[i].unit * cart[i].quantity >= 0;
    }
    NoDiscountYet(lines);
  }

  lemma {:induction false} TaxNonNegative(taxable: Minor, taxes: seq<TaxRule>)
    requires taxable >= 0 && forall t :: t in taxes ==> t.rate >= 0
    ensures TaxTotal(taxable, taxes) >= 0
  {
    if taxes != [] {
      var n := |taxes| - 1;
      TaxNonNegative(taxable, taxes[..n]);
      assert taxes[n] in taxes;
      ApplyBpNonNegative(taxable, taxes[n].rate);
    }
  }

  /** Never negative, never above list price plus shipping plus added tax, and every line explains itself. */
  lemma QuoteIsBounded(cart: seq<CartLine>, quoted: Minor, rules: seq<Rule>, taxes: seq<TaxRule>)
    requires SensibleCart(cart) && quoted >= 0
    requires forall r :: r in rules ==> Sensible(r)
    requires forall t :: t in taxes ==> t.rate >= 0
    ensures var q := Calculate(cart, quoted, rules, taxes);
      && (forall i :: 0 <= i < |q.lines| ==> LineOk(q.lines[i]))
      && 0 <= q.shippingTotal <= quoted && 0 <= q.taxTotal
      && 0 <= q.grandTotal <= q.subtotal + quoted + q.taxTotal
      && q.grandTotal == SumTotal(q.lines) + q.shippingTotal + q.taxTotal
  {
    hide ApplyRules, SumDiscount, SumSubtotal, SumTotal, TaxTotal, ListPrice;
    ListPriceBalances(cart, quoted);
    RulesBalance(ListPrice(cart, quoted), rules, quoted);
    var p := ApplyRules(ListPrice(cart, quoted), rules);
    TotalsExplained(p.lines);
    FloorIsIdle(p.lines);
    TaxNonNegative(SumTotal(p.lines) + p.shipping, taxes);
  }

  /** On lines in bounds the last clamp changes nothing. */
  lemma FloorIsIdle(lines: seq<LinePrice>)
    requires LinesOk(lines)
    ensures Floored(lines) == lines
  {
    forall i | 0 <= i < |lines|
      ensures Floored(lines)[i] == lines[i]
    {
      assert LineOk(lines[i]);
    }
  }
}
