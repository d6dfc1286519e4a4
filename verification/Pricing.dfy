/**
 The promotion and tax arithmetic of the pricing engine (services/pricing-engine/src/rules.cpp and
 rules.hpp), in minor units. Which rules match a cart is a parameter: the laws hold for every choice.
 */
module Pricing {
  import opened Basics

  type Minor = int
  type BasisPoints = int

  const MAX_SAFE: int := 922_337_203_685_477
  const INT64_MAX: int := 0x7fff_ffff_ffff_ffff
  const INT64_MIN: int := -0x8000_0000_0000_0000

  predicate FitsInt64(x: int) {
    INT64_MIN <= x <= INT64_MAX
  }

  /** C++ integer division, which truncates toward zero. */
  function TruncDiv(a: int, b: int): int
    requires b > 0
  {
    if a >= 0 then a / b else -((-a) / b)
  }

  function ApplyBp(amount: Minor, bp: BasisPoints): Minor {
    if amount > MAX_SAFE then MAX_SAFE
    else if amount < -MAX_SAFE then -MAX_SAFE
    else RoundedTenThousandth(amount * bp)
  }

  function RoundedTenThousandth(product: int): Minor {
    if product >= 0 then TruncDiv(product + 5000, 10000) else TruncDiv(product - 5000, 10000)
  }

  function NonNegative(v: Minor): Minor {
    if v < 0 then 0 else v
  }

  // ----- the quote while promotions are applied

  datatype LinePrice = LinePrice(quantity: int, unit: Minor, subtotal: Minor, discount: Minor, total: Minor)

  datatype PromotionType = PercentOff | AmountOff | CartThreshold | TieredQuantity | BuyXGetY | FreeShipping | Bundle

  datatype Tier = Tier(minQuantity: int, discountBp: BasisPoints)

  datatype Rule = Rule(
    kind: PromotionType,
    percentOff: BasisPoints,
    amountOff: Minor,
    buyQuantity: int,
    getQuantity: int,
    getDiscountBp: BasisPoints,
    tiers: seq<Tier>,
    exclusive: bool,
    maxDiscount: Minor)

  /** `subtotal` is the list-price sum; `waived` and `shortfall` only record what the code did. */
  datatype Promo = Promo(
    lines: seq<LinePrice>,
    subtotal: Minor,
    shipping: Minor,
    discountTotal: Minor,
    exclusive: bool,
    waived: Minor,
    shortfall: Minor)

  function TakeOff(l: LinePrice, off: Minor): LinePrice {
    l.(discount := l.discount - off, total := NonNegative(l.total - off))
  }

  /** The highest qualifying tier wins. */
  function BestTier(tiers: seq<Tier>, quantity: int): BasisPoints {
    if tiers == [] then 0
    else
      var best := BestTier(tiers[..|tiers| - 1], quantity);
      var t := tiers[|tiers| - 1];
      if quantity >= t.minQuantity && t.discountBp > best then t.discountBp else best
  }

  function GroupSize(r: Rule): int {
    r.buyQuantity + r.getQuantity
  }

  /** Complete groups in a quantity: the same truncating division, whatever the sign of the size. */
  function Groups(quantity: int, size: int): int
    requires size != 0
  {
    if size > 0 then TruncDiv(quantity, size) else TruncDiv(-quantity, -size)
  }

  predicate NoGroup(r: Rule, l: LinePrice) {
    r.buyQuantity <= 0 || l.quantity < GroupSize(r)
  }

  /** The line on which a buy-X-get-Y rule divides by a group size of zero. */
  predicate DividesByZero(r: Rule, l: LinePrice) {
    r.kind == BuyXGetY && !NoGroup(r, l) && GroupSize(r) == 0
  }

  /** The units a buy-X-get-Y rule discounts; where it divides by zero there is no meaningful value. */
  function FreeUnits(r: Rule, l: LinePrice): int {
    if NoGroup(r, l) || GroupSize(r) == 0 then 0 else Groups(l.quantity, GroupSize(r)) * r.getQuantity
  }

  /** The rule passes this line by. */
  predicate Skips(r: Rule, l: LinePrice) {
    match r.kind
    case TieredQuantity => BestTier(r.tiers, l.quantity) == 0
    case BuyXGetY => NoGroup(r, l)
    case _ => false
  }

  /** What a line-by-line rule takes off a line, before the line's own total caps it. */
  function LineOff(r: Rule, l: LinePrice): Minor {
    match r.kind
    case PercentOff => ApplyBp(l.subtotal, r.percentOff)
    case TieredQuantity => ApplyBp(l.subtotal, BestTier(r.tiers, l.quantity))
    case BuyXGetY => ApplyBp(l.unit * FreeUnits(r, l), r.getDiscountBp)
    case _ => 0
  }

  function AppliedOff(r: Rule, l: LinePrice): Minor {
    if Skips(r, l) then 0 else Min(LineOff(r, l), l.total)
  }

  function CutLine(r: Rule, l: LinePrice): LinePrice {
    if Skips(r, l) then l else TakeOff(l, AppliedOff(r, l))
  }

  predicate LineByLine(k: PromotionType) {
    k == PercentOff || k == TieredQuantity || k == BuyXGetY
  }

  /** The lines after a rule, and what it took off in all. */
  datatype Cut = Cut(lines: seq<LinePrice>, discount: Minor)

  function CutLines(r: Rule, lines: seq<LinePrice>): Cut {
    if lines == [] then Cut([], 0)
    else
      var c := CutLines(r, lines[..|lines| - 1]);
      var l := lines[|lines| - 1];
      Cut(c.lines + [CutLine(r, l)], c.discount + AppliedOff(r, l))
  }

  /** A proportional share of `amount`; the last line takes whatever remains. */
  function Share(amount: Minor, subtotal: Minor, remaining: Minor, l: LinePrice, last: bool): Minor {
    Min(if last then remaining else Min(remaining, TruncDiv(amount * l.subtotal, Max(subtotal, 1))), l.total)
  }

  /** Spreads `remaining` over the lines from `i` on; returns the lines and what could not be placed. */
  function Spread(amount: Minor, subtotal: Minor, lines: seq<LinePrice>, i: nat, remaining: Minor): (seq<LinePrice>,
      Minor)
    requires i <= |lines|
    decreases |lines| - i
  {
    if i == |lines| || remaining <= 0 then (lines, remaining)
    else
      var s := Share(amount, subtotal, remaining, lines[i], i + 1 == |lines|);
      Spread(amount, subtotal, lines[i := TakeOff(lines[i], s)], i + 1, remaining - s)
  }

  function CutAmount(r: Rule, subtotal: Minor, lines: seq<LinePrice>): Cut {
    var start := Min(r.amountOff, subtotal);
    var (out, left) := Spread(r.amountOff, subtotal, lines, 0, start);
    Cut(out, start - left)
  }

  /** The last line with a discount, or |lines| if there is none. */
  function LastDiscounted(lines: seq<LinePrice>, n: nat): (i: nat)
    requires n <= |lines|
    ensures i < n ==> lines[i].discount < 0
    ensures i <= n && (i == n ==> forall j :: 0 <= j < n ==> lines[j].discount >= 0)
    ensures forall j :: i < j < n ==> lines[j].discount >= 0
  {
    if n == 0 then 0
    else if lines[n - 1].discount < 0 then n - 1
    else var i := LastDiscounted(lines, n - 1); if i == n - 1 then n else i
  }

  function GiveBackAmount(lines: seq<LinePrice>, excess: Minor): Minor {
    var i := LastDiscounted(lines, |lines|);
    if i == |lines| then 0 else Min(excess, -lines[i].discount)
  }

  function GiveBack(lines: seq<LinePrice>, excess: Minor): seq<LinePrice> {
    var i := LastDiscounted(lines, |lines|);
    if i == |lines| then lines
    else
      var g := GiveBackAmount(lines, excess);
      lines[i := lines[i].(discount := lines[i].discount + g, total := lines[i].total + g)]
  }

  function CutBy(r: Rule, p: Promo): Cut {
    if LineByLine(r.kind) then CutLines(r, p.lines)
    else if r.kind == AmountOff || r.kind == CartThreshold then CutAmount(r, p.subtotal, p.lines)
    else if r.kind == FreeShipping then Cut(p.lines, p.shipping)
    else Cut(p.lines, 0)
  }

  function ShippingAfter(r: Rule, p: Promo): Minor {
    if r.kind == FreeShipping then 0 else p.shipping
  }

  predicate Capped(r: Rule, discount: Minor) {
    r.maxDiscount > 0 && discount > r.maxDiscount
  }

  function ApplyRule(p: Promo, r: Rule): Promo {
    if p.exclusive || r.kind == Bundle then p
    else
      var cut := CutBy(r, p);
      var waived := p.waived + (p.shipping - ShippingAfter(r, p));
      if cut.discount <= 0 then p.(lines := cut.lines, shipping := ShippingAfter(r, p), waived := waived)
      else if !Capped(r, cut.discount) then
        p.(lines := cut.lines, shipping := ShippingAfter(r, p), waived := waived,
           discountTotal := p.discountTotal - cut.discount, exclusive := r.exclusive)
      else
        var excess := cut.discount - r.maxDiscount;
        p.(lines := GiveBack(cut.lines, excess), shipping := ShippingAfter(r, p), waived := waived,
           discountTotal := p.discountTotal - r.maxDiscount, exclusive := r.exclusive,
           shortfall := p.shortfall + (excess - GiveBackAmount(cut.lines, excess)))
  }

  function ApplyRules(p: Promo, rules: seq<Rule>): Promo {
    if rules == [] then p else ApplyRule(ApplyRules(p, rules[..|rules| - 1]), rules[|rules| - 1])
  }

  // ----- list prices, tax and the grand total

  datatype CartLine = CartLine(quantity: int, unit: Minor)

  function ListLine(l: CartLine): LinePrice {
    LinePrice(l.quantity, l.unit, l.unit * l.quantity, 0, l.unit * l.quantity)
  }

  function ListLines(cart: seq<CartLine>): seq<LinePrice> {
    seq(|cart|, i requires 0 <= i < |cart| => ListLine(cart[i]))
  }

  function SumSubtotal(lines: seq<LinePrice>): Minor {
    if lines == [] then 0 else SumSubtotal(lines[..|lines| - 1]) + lines[|lines| - 1].subtotal
  }

  function SumTotal(lines: seq<LinePrice>): Minor {
    if lines == [] then 0 else SumTotal(lines[..|lines| - 1]) + lines[|lines| - 1].total
  }

  function SumDiscount(lines: seq<LinePrice>): Minor {
    if lines == [] then 0 else SumDiscount(lines[..|lines| - 1]) + lines[|lines| - 1].discount
  }

  function ListPrice(cart: seq<CartLine>, shippingQuote: Minor): Promo {
    var lines := ListLines(cart);
    Promo(lines, SumSubtotal(lines), shippingQuote, 0, false, 0, 0)
  }

  datatype TaxRule = TaxRule(rate: BasisPoints, inclusive: bool)

  /** Tax added on top; inclusive taxes are only reported. */
  function TaxTotal(taxable: Minor, taxes: seq<TaxRule>): Minor {
    if taxes == [] then 0
    else
      TaxTotal(taxable, taxes[..|taxes| - 1]) +
      if taxes[|taxes| - 1].inclusive then 0 else ApplyBp(taxable, taxes[|taxes| - 1].rate)
  }

  /** The last clamp: no line leaves the engine below zero. */
  function Floored(lines: seq<LinePrice>): seq<LinePrice> {
    seq(|lines|, i requires 0 <= i < |lines| => lines[i].(total := NonNegative(lines[i].total)))
  }

  datatype Quote = Quote(lines: seq<LinePrice>, subtotal: Minor, discountTotal: Minor, shippingTotal: Minor,
      taxTotal: Minor, grandTotal: Minor)

  /** The whole calculation for the rules that match, already in priority order. */
  function Calculate(cart: seq<CartLine>, shippingQuote: Minor, rules: seq<Rule>, taxes: seq<TaxRule>): Quote {
    var p := ApplyRules(ListPrice(cart, shippingQuote), rules);
    var lines := Floored(p.lines);
    var sum := SumTotal(lines);
    var tax := TaxTotal(sum + p.shipping, taxes);
    Quote(lines, p.subtotal, p.discountTotal, p.shipping, tax, NonNegative(sum + p.shipping + tax))
  }
}
