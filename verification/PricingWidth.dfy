/** A bound on carts and rules under which no step of the pricing calculation leaves its 32 or 64 bits. */
module PricingWidth {
  import opened Basics
  import opened Pricing
  import opened PricingLaws
  import opened PricingBounds
  import opened PricingTotals

  /** The largest round figure whose square is below 2^63. */
  const LIMIT: int := 3_000_000_000

  const MAX_TAXES: nat := 1_000_000

  ghost predicate ModestCart(cart: seq<CartLine>, quoted: Minor) {
    && (forall i :: 0 <= i < |cart| ==> 0 <= cart[i].quantity <= INT32_MAX && cart[i].unit >= 0)
    && CartTotal(cart) <= LIMIT && 0 <= quoted <= LIMIT
  }

  predicate ModestRule(r: Rule) {
    && -LIMIT <= r.amountOff <= LIMIT
    && FitsInt32(r.buyQuantity) && 0 <= r.getQuantity && GroupSize(r) <= INT32_MAX
    && 0 <= r.percentOff <= 10000 && 0 <= r.getDiscountBp <= 10000
    && forall t :: t in r.tiers ==> 0 <= t.discountBp <= 10000
  }

  ghost predicate ModestTaxes(taxes: seq<TaxRule>) {
    |taxes| <= MAX_TAXES && forall t :: t in taxes ==> 0 <= t.rate <= 10000
  }

  // ----- what one rule computes

  /** A percentage of `amount` is taken without overflow and without meeting the clamp of apply_bp. */
  predicate RateFits(amount: Minor, bp: BasisPoints) {
    0 <= amount <= MAX_SAFE && FitsInt64(amount * bp) && FitsInt64(amount * bp + 5000)
  }

  /** Every product taken on a line fits. */
  ghost predicate LineFits(r: Rule, l: LinePrice) {
    && FitsInt64(l.total) && FitsInt64(l.discount)
    && FitsInt64(r.amountOff * l.subtotal)
    && RateFits(l.subtotal, r.percentOff)
    && (forall t :: t in r.tiers ==> RateFits(l.subtotal, t.discountBp))
    && FitsInt32(GroupSize(r)) && FitsInt32(FreeUnits(r, l))
    && (GroupSize(r) != 0 ==> FitsInt32(Groups(l.quantity, GroupSize(r))))
    && FitsInt64(l.unit * FreeUnits(r, l)) && RateFits(l.unit * FreeUnits(r, l), r.getDiscountBp)
  }

  ghost predicate StepFits(p: Promo, r: Rule) {
    && (forall i :: 0 <= i < |p.lines| ==> LineFits(r, p.lines[i]))
    && FitsInt64(p.subtotal) && FitsInt64(p.shipping) && FitsInt64(p.discountTotal)
    && FitsInt64(CutBy(r, p).discount) && FitsInt64(p.discountTotal - CutBy(r, p).discount)
  }

  lemma FreeWithinQuantity(r: Rule, l: LinePrice)
    requires r.getQuantity >= 0 && l.quantity >= 0
    ensures 0 <= FreeUnits(r, l) <= l.quantity
  {
    var size := GroupSize(r);
    if FreeUnits(r, l) != 0 {
      var groups := l.quantity / size;
      assert l.quantity == groups * size + l.quantity % size;
      assert groups * size == groups * r.buyQuantity + groups * r.getQuantity;
      MulMono(groups, 0, r.buyQuantity);
      MulMono(groups, 0, r.getQuantity);
    }
  }

  lemma SmallProduct(a: int, x: int)
    requires -LIMIT <= a <= LIMIT && 0 <= x <= LIMIT
    ensures FitsInt64(a * x)
  {
    if a >= 0 {
      MulMono(a, x, LIMIT);
      MulMono(LIMIT, a, LIMIT);
    } else {
      MulMono(-a, x, LIMIT);
      MulMono(LIMIT, -a, LIMIT);
      assert (-a) * x == -(a * x);
    }
  }

  lemma SmallRate(amount: Minor, bp: BasisPoints)
    requires 0 <= amount <= 2 * LIMIT && 0 <= bp <= 10000
    ensures RateFits(amount, bp)
  {
    MulMono(amount, bp, 10000);
  }

  lemma LineFitsIn(r: Rule, l: LinePrice)
    requires ModestRule(r) && LineOk(l) && 0 <= l.quantity <= INT32_MAX && l.unit >= 0 && l.subtotal <= LIMIT
    ensures LineFits(r, l)
  {
    hide FreeUnits, RateFits, Groups;
    SmallProduct(r.amountOff, l.subtotal);
    SmallRate(l.subtotal, r.percentOff);
    forall t | t in r.tiers ensures RateFits(l.subtotal, t.discountBp) { SmallRate(l.subtotal, t.discountBp); }
    FreeWithinQuantity(r, l);
    MulMono(l.unit, FreeUnits(r, l), l.quantity);
    SmallRate(l.unit * FreeUnits(r, l), r.getDiscountBp);
    if GroupSize(r) != 0 { FewGroups(l.quantity, GroupSize(r)); }
  }

  lemma FewGroups(quantity: int, size: int)
    requires 0 <= quantity <= INT32_MAX && size != 0
    ensures FitsInt32(Groups(quantity, size))
  {
    SmallQuotient(quantity, if size > 0 then size else -size);
  }

  lemma SmallQuotient(n: int, d: int)
    requires n >= 0 && d > 0
    ensures 0 <= n / d <= n
  {
    var q := n / d;
    assert n == q * d + n % d && q >= 0;
    MulMono(q, 1, d);
  }

  lemma {:induction false} LineWithinSum(lines: seq<LinePrice>, i: nat)
    requires LinesOk(lines) && i < |lines|
    ensures 0 <= lines[i].subtotal <= SumSubtotal(lines)
    decreases |lines|
  {
    var n := |lines| - 1;
    assert LineOk(lines[n]) && LineOk(lines[i]);
    assert LinesOk(lines[..n]);
    TotalsExplained(lines[..n]);
    if i < n { LineWithinSum(lines[..n], i); }
  }

  /** Goods as listed: quantities and prices of the cart, none of them negative. */
  ghost predicate Listed(lines: seq<LinePrice>) {
    forall i :: 0 <= i < |lines| ==> 0 <= lines[i].quantity <= INT32_MAX && lines[i].unit >= 0
  }

  lemma BalancedFits(p: Promo, r: Rule, quoted: Minor)
    requires Balanced(p, quoted) && Listed(p.lines) && p.subtotal <= LIMIT && quoted <= LIMIT && p.discountTotal <= 0 &&
      ModestRule(r)
    ensures StepFits(p, r)
  {
    hide SumSubtotal, SumDiscount, SumTotal, CutBy, LineFits, LineOk;
    forall i | 0 <= i < |p.lines|
      ensures LineFits(r, p.lines[i])
    {
      assert LineOk(p.lines[i]);
      LineWithinSum(p.lines, i);
      LineFitsIn(r, p.lines[i]);
    }
    TotalsExplained(p.lines);
    CutIsSmall(p, r, quoted);
  }

  lemma CutIsSmall(p: Promo, r: Rule, quoted: Minor)
    requires Balanced(p, quoted) && Sensible(r)
    ensures 0 <= CutBy(r, p).discount <= p.subtotal + quoted || CutBy(r, p).discount == 0
  {
    hide LinesOk, SumSubtotal, SumDiscount, CutBy;
    CutByDiscounts(r, p, quoted);
    CutByNonNegative(r, p, quoted);
    TotalsExplained(p.lines);
    TotalsExplained(CutBy(r, p).lines);
  }

  // ----- the whole calculation

  lemma {:induction false} TaxIsSmall(taxable: Minor, taxes: seq<TaxRule>)
    requires 0 <= taxable <= 2 * LIMIT && forall t :: t in taxes ==> 0 <= t.rate <= 10000
    ensures 0 <= TaxTotal(taxable, taxes) <= |taxes| * (2 * LIMIT)
    decreases |taxes|
  {
    if taxes != [] {
      var n := |taxes| - 1;
      assert taxes[n] in taxes;
      TaxIsSmall(taxable, taxes[..n]);
      RateIsSmall(taxable, taxes[n].rate);
    }
  }

  lemma RateIsSmall(taxable: Minor, rate: BasisPoints)
    requires 0 <= taxable <= 2 * LIMIT && 0 <= rate <= 10000
    ensures 0 <= ApplyBp(taxable, rate) <= taxable
  {
    hide RoundedTenThousandth;
    MulMono(taxable, rate, 10000);
    RoundingIsHalfUp(taxable * rate);
  }

  lemma ListIsListed(cart: seq<CartLine>, quoted: Minor)
    requires ModestCart(cart, quoted)
    ensures Listed(ListPrice(cart, quoted).lines)
  {
  }

  /**
   A cart worth at most LIMIT, a shipping quote and amounts off of at most LIMIT: at every rule, in whatever order
   they stand, each product and running sum fits in 64 bits and the group arithmetic in 32, and so on for the
   taxes and the grand total.
   */
  lemma NothingOverflows(cart: seq<CartLine>, quoted: Minor, rules: seq<Rule>, taxes: seq<TaxRule>)
    requires ModestCart(cart, quoted) && (forall r :: r in rules ==> ModestRule(r)) && ModestTaxes(taxes)
    ensures forall i :: 0 <= i < |rules| ==> StepFits(ApplyRules(ListPrice(cart, quoted), rules[..i]), rules[i])
    ensures var p := ApplyRules(ListPrice(cart, quoted), rules);
      var taxable := SumTotal(p.lines) + p.shipping;
      && 0 <= taxable <= 2 * LIMIT
      && (forall t :: t in taxes ==> RateFits(taxable, t.rate))
      && FitsInt64(TaxTotal(taxable, taxes)) && FitsInt64(taxable + TaxTotal(taxable, taxes))
  {
    hide ApplyRules, ListPrice, StepFits, SumTotal, TaxTotal, Listed, LinesOk, CartTotal, SumDiscount;
    var p0 := ListPrice(cart, quoted);
    ListFacts(cart, quoted);
    forall i | 0 <= i < |rules|
      ensures StepFits(ApplyRules(p0, rules[..i]), rules[i])
    {
      assert rules[i] in rules;
      PrefixFits(cart, quoted, rules[..i], rules[i]);
    }
    RulesBalance(p0, rules, quoted);
    var p := ApplyRules(p0, rules);
    TotalsExplained(p.lines);
    var taxable := SumTotal(p.lines) + p.shipping;
    TaxIsSmall(taxable, taxes);
    forall t | t in taxes ensures RateFits(taxable, t.rate) { SmallRate(taxable, t.rate); }
    MulMono(2 * LIMIT, |taxes|, MAX_TAXES);
  }

  lemma ListFacts(cart: seq<CartLine>, quoted: Minor)
    requires ModestCart(cart, quoted)
    ensures var p := ListPrice(cart, quoted);
      Balanced(p, quoted) && Listed(p.lines) && p.subtotal <= LIMIT && p.discountTotal == 0
  {
    hide SumSubtotal, CartTotal;
    forall i | 0 <= i < |cart|
      ensures cart[i].unit * cart[i].quantity >= 0
    {
      MulMono(cart[i].unit, 0, cart[i].quantity);
    }
    ListPriceBalances(cart, quoted);
    SubtotalIsCartTotal(cart);
    ListIsListed(cart, quoted);
  }

  lemma PrefixFits(cart: seq<CartLine>, quoted: Minor, front: seq<Rule>, r: Rule)
    requires ModestCart(cart, quoted) && (forall q :: q in front ==> ModestRule(q)) && ModestRule(r)
    ensures StepFits(ApplyRules(ListPrice(cart, quoted), front), r)
  {
    hide ApplyRules, ListPrice, StepFits, CartTotal;
    var p0 := ListPrice(cart, quoted);
    ListFacts(cart, quoted);
    RulesBalance(p0, front, quoted);
    RulesKeep(p0, front);
    BalancedFits(ApplyRules(p0, front), r, quoted);
  }
}
