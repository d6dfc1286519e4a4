/** RuleSet::calculate as it runs: nested loops that rewrite line totals and running sums. */
module PricingEngine {
  import opened Basics
  import opened Pricing
  import opened PricingLaws
  import opened PricingBounds
  import opened PricingMeaning
  import opened PricingTotals

  /** A rule of the loaded set, with the answer `matches` gives for this cart. */
  datatype Candidate = Candidate(rule: Rule, matches: bool)

  function Matching(cs: seq<Candidate>): seq<Rule> {
    if cs == [] then [] else Matching(cs[..|cs| - 1]) + if cs[|cs| - 1].matches then [cs[|cs| - 1].rule] else []
  }

  method ListPrices(cart: seq<CartLine>) returns (lines: seq<LinePrice>, subtotal: Minor)
    ensures lines == ListLines(cart) && subtotal == SumSubtotal(lines)
  {
    lines, subtotal := [], 0;
    for i := 0 to |cart|
      invariant lines == ListLines(cart[..i]) && subtotal == SumSubtotal(lines)
    {
      var l := ListLine(cart[i]);
      assert ListLines(cart[..i + 1]) == lines + [l];
      assert (lines + [l])[..|lines|] == lines;
      lines, subtotal := lines + [l], subtotal + l.subtotal;
    }
    assert cart[..|cart|] == cart;
  }

  method TierLoop(tiers: seq<Tier>, quantity: int) returns (best: BasisPoints)
    ensures best == BestTier(tiers, quantity)
  {
    best := 0;
    for i := 0 to |tiers|
      invariant best == BestTier(tiers[..i], quantity)
    {
      assert tiers[..i + 1][..i] == tiers[..i];
      if quantity >= tiers[i].minQuantity && tiers[i].discountBp > best { best := tiers[i].discountBp; }
    }
    assert tiers[..|tiers|] == tiers;
  }

  /** One turn of a per-line loop: None where the division by the group size traps. */
  method CutOneLine(r: Rule, l: LinePrice) returns (after: Option<LinePrice>, applied: Minor)
    requires LineByLine(r.kind)
    ensures after.None? <==> DividesByZero(r, l)
    ensures after.Some? ==> after.value == CutLine(r, l) && applied == AppliedOff(r, l)
    ensures r.kind == PercentOff && r.percentOff >= 0 && Priced(l) ==>
      after.Some? && Lost(l, after.value, Rounded(l.subtotal, r.percentOff))
  {
    hide Rounded, LineOk, Priced;
    if r.kind == PercentOff && r.percentOff >= 0 && Priced(l) { PercentMeans(r, l); }
    var off := 0;
    if r.kind == PercentOff {
      off := ApplyBp(l.subtotal, r.percentOff);
    } else if r.kind == TieredQuantity {
      var best := TierLoop(r.tiers, l.quantity);
      if best == 0 { return Some(l), 0; }
      off := ApplyBp(l.subtotal, best);
    } else {
      if r.buyQuantity <= 0 || l.quantity < r.buyQuantity + r.getQuantity { return Some(l), 0; }
      var size := r.buyQuantity + r.getQuantity;
      if size == 0 { return None, 0; }
      var groups := Groups(l.quantity, size);
      var freeUnits := groups * r.getQuantity;
      off := ApplyBp(l.unit * freeUnits, r.getDiscountBp);
    }
    applied := Min(off, l.total);
    after := Some(TakeOff(l, applied));
  }

  /** PERCENT_OFF, TIERED_QUANTITY and BUY_X_GET_Y. */
  method CutLineByLine(r: Rule, start: seq<LinePrice>) returns (lines: seq<LinePrice>, discount: Minor, crashed: bool)
    requires LineByLine(r.kind)
    ensures crashed <==> RuleCrashes(r, start)
    ensures !crashed ==> Cut(lines, discount) == CutLines(r, start)
  {
    hide CutLine, AppliedOff, DividesByZero;
    lines, discount, crashed := start, 0, false;
    for i := 0 to |start|
      invariant |lines| == |start| && lines[i..] == start[i..]
      invariant Cut(lines[..i], discount) == CutLines(r, start[..i])
      invariant forall j :: 0 <= j < i ==> !DividesByZero(r, start[j])
    {
      var l := lines[i];
      assert l == lines[i..][0] == start[i];
      var after, applied := CutOneLine(r, l);
      if after.None? {
        crashed := true;
        return;
      }
      assert start[..i + 1][..i] == start[..i];
      assert lines[i := after.value][..i + 1] == lines[..i] + [after.value];
      lines, discount := lines[i := after.value], discount + applied;
      assert lines[i + 1..] == start[i + 1..];
    }
    assert start[..|start|] == start && lines[..|lines|] == lines;
  }

  /** AMOUNT_OFF and CART_THRESHOLD. */
  method CutAmountOff(r: Rule, subtotal: Minor, start: seq<LinePrice>) returns (lines: seq<LinePrice>, discount: Minor)
    ensures Cut(lines, discount) == CutAmount(r, subtotal, start)
  {
    var remaining := Min(r.amountOff, subtotal);
    discount := remaining;
    lines := start;
    var i := 0;
    while i < |lines| && remaining > 0
      invariant 0 <= i <= |lines|
      invariant Spread(r.amountOff, subtotal, lines, i, remaining) ==
        Spread(r.amountOff, subtotal, start, 0, Min(r.amountOff, subtotal))
    {
      var share := Share(r.amountOff, subtotal, remaining, lines[i], i + 1 == |lines|);
      lines := lines[i := TakeOff(lines[i], share)];
      remaining := remaining - share;
      i := i + 1;
    }
    discount := discount - remaining;
  }

  /** Hands a cap's excess to the last discounted line, searching from the back. */
  method HandBack(start: seq<LinePrice>, excess: Minor) returns (lines: seq<LinePrice>, given: Minor)
    ensures lines == GiveBack(start, excess) && given == GiveBackAmount(start, excess)
  {
    lines, given := start, 0;
    var n := |lines|;
    while n > 0
      invariant 0 <= n <= |lines| && lines == start && given == 0
      invariant forall j :: n <= j < |lines| ==> lines[j].discount >= 0
    {
      n := n - 1;
      if lines[n].discount < 0 {
        given := Min(excess, -lines[n].discount);
        lines := lines[n := lines[n].(discount := lines[n].discount + given, total := lines[n].total + given)];
        return;
      }
    }
  }

  method ApplyOne(p: Promo, r: Rule) returns (q: Promo, crashed: bool)
    requires !p.exclusive
    ensures crashed <==> RuleCrashes(r, p.lines)
    ensures !crashed ==> q == ApplyRule(p, r)
  {
    hide CutLines, CutAmount, GiveBack, GiveBackAmount;
    q, crashed := p, false;
    if r.kind == Bundle { return; }
    var lines, discount, shipping := p.lines, 0, p.shipping;
    match r.kind {
      case PercentOff | TieredQuantity | BuyXGetY =>
        lines, discount, crashed := CutLineByLine(r, p.lines);
        if crashed { return; }
      case AmountOff | CartThreshold => lines, discount := CutAmountOff(r, p.subtotal, p.lines);
      case FreeShipping => discount, shipping := p.shipping, 0;
      case Bundle =>
    }
    assert CutBy(r, p) == Cut(lines, discount);
    q := p.(lines := lines, shipping := shipping, waived := p.waived + (p.shipping - shipping));
    if discount <= 0 { return; }
    if r.maxDiscount > 0 && discount > r.maxDiscount {
      var excess := discount - r.maxDiscount;
      var given;
      lines, given := HandBack(lines, excess);
      discount := r.maxDiscount;
      q := q.(lines := lines, shortfall := q.shortfall + (excess - given));
    }
    q := q.(discountTotal := q.discountTotal - discount, exclusive := r.exclusive);
  }

  /** The promotion loop, in priority order; an exclusive rule that applied ends it. */
  method Promote(start: Promo, candidates: seq<Candidate>) returns (p: Promo, crashed: bool)
    ensures crashed <==> Crashes(start, Matching(candidates))
    ensures !crashed ==> p == ApplyRules(start, Matching(candidates))
  {
    hide ApplyRule, Crashes, RuleCrashes;
    p, crashed := start, false;
    NothingCrashes(start);
    for i := 0 to |candidates|
      invariant p == ApplyRules(start, Matching(candidates[..i])) && !Crashes(start, Matching(candidates[..i]))
    {
      ghost var front := Matching(candidates[..i]);
      MatchingNext(candidates, i);
      if candidates[i].matches {
        var r := candidates[i].rule;
        AppliedNext(start, front, r);
        ExclusiveStops(p, r);
        CrashNext(start, front, r);
        if !p.exclusive {
          p, crashed := ApplyOne(p, r);
          if crashed {
            MatchingSplits(candidates, i + 1);
            CrashStays(start, front + [r], Matching(candidates[i + 1..]));
            return;
          }
        }
      }
    }
    assert candidates[..|candidates|] == candidates;
  }

  lemma NothingCrashes(p: Promo)
    ensures !Crashes(p, [])
  {
  }

  lemma CrashNext(p: Promo, rules: seq<Rule>, r: Rule)
    ensures Crashes(p, rules + [r]) <==>
      Crashes(p, rules) || (!ApplyRules(p, rules).exclusive && RuleCrashes(r, ApplyRules(p, rules).lines))
  {
    hide ApplyRules, RuleCrashes;
    var more := rules + [r];
    assert more[..|rules|] == rules && more[|rules|] == r;
    assert forall i :: 0 <= i < |rules| ==> more[..i] == rules[..i] && more[i] == rules[i];
    if Crashes(p, rules) {
      var i :| 0 <= i < |rules| && !ApplyRules(p, rules[..i]).exclusive &&
        RuleCrashes(rules[i], ApplyRules(p, rules[..i]).lines);
      assert !ApplyRules(p, more[..i]).exclusive && RuleCrashes(more[i], ApplyRules(p, more[..i]).lines);
    }
  }

  lemma CrashStays(p: Promo, rules: seq<Rule>, more: seq<Rule>)
    requires Crashes(p, rules)
    ensures Crashes(p, rules + more)
  {
    hide ApplyRules, RuleCrashes;
    var i :| 0 <= i < |rules| && !ApplyRules(p, rules[..i]).exclusive &&
      RuleCrashes(rules[i], ApplyRules(p, rules[..i]).lines);
    assert (rules + more)[..i] == rules[..i] && (rules + more)[i] == rules[i];
  }

  lemma {:induction false} MatchingSplits(cs: seq<Candidate>, i: nat)
    requires i <= |cs|
    ensures Matching(cs) == Matching(cs[..i]) + Matching(cs[i..])
    decreases |cs|
  {
    if i < |cs| {
      var n := |cs| - 1;
      MatchingSplits(cs[..n], i);
      assert cs[..n][..i] == cs[..i] && cs[..n][i..] == cs[i..][..n - i] && cs[i..][n - i] == cs[n];
    } else {
      assert cs[..i] == cs && cs[i..] == [];
    }
  }

  lemma MatchingNext(cs: seq<Candidate>, i: nat)
    requires i < |cs|
    ensures Matching(cs[..i + 1]) == if cs[i].matches then Matching(cs[..i]) + [cs[i].rule] else Matching(cs[..i])
  {
    assert cs[..i + 1][..i] == cs[..i];
  }

  lemma AppliedNext(start: Promo, rules: seq<Rule>, r: Rule)
    ensures ApplyRules(start, rules + [r]) == ApplyRule(ApplyRules(start, rules), r)
  {
    assert (rules + [r])[..|rules|] == rules;
  }

  lemma ExclusiveStops(p: Promo, r: Rule)
    ensures p.exclusive ==> ApplyRule(p, r) == p
  {
  }

  /** Clamps and adds up the lines. */
  method SumLines(start: seq<LinePrice>) returns (lines: seq<LinePrice>, sum: Minor)
    ensures lines == Floored(start) && sum == SumTotal(lines)
  {
    lines, sum := start, 0;
    for i := 0 to |start|
      invariant |lines| == |start| && lines[..i] == Floored(start)[..i] && lines[i..] == start[i..]
      invariant sum == SumTotal(lines[..i])
    {
      assert lines[i] == lines[i..][0] == start[i];
      var l := lines[i].(total := NonNegative(lines[i].total));
      assert lines[i := l][..i + 1] == lines[..i] + [l];
      assert (lines[..i] + [l])[..i] == lines[..i];
      assert lines[i := l][i + 1..] == lines[i..][1..] && start[i..][1..] == start[i + 1..];
      lines, sum := lines[i := l], sum + l.total;
    }
    assert lines[..|lines|] == lines;
  }

  method AddTaxes(taxable: Minor, taxes: seq<TaxRule>) returns (tax: Minor)
    ensures tax == TaxTotal(taxable, taxes)
  {
    tax := 0;
    for i := 0 to |taxes|
      invariant tax == TaxTotal(taxable, taxes[..i])
    {
      assert taxes[..i + 1][..i] == taxes[..i];
      if !taxes[i].inclusive { tax := tax + ApplyBp(taxable, taxes[i].rate); }
    }
    assert taxes[..|taxes|] == taxes;
  }

  /** A cart, a stack of rules and taxes that the laws are about, within the range where no rate is clamped. */
  ghost predicate Ordinary(cart: seq<CartLine>, quoted: Minor, rules: seq<Rule>, taxes: seq<TaxRule>) {
    && SensibleCart(cart) && quoted >= 0 && (forall r :: r in rules ==> Sensible(r))
    && (forall t :: t in taxes ==> t.rate >= 0)
    && CartTotal(cart) + quoted <= MAX_SAFE
  }

  lemma OrdinaryAddsUp(cart: seq<CartLine>, quoted: Minor, rules: seq<Rule>, taxes: seq<TaxRule>)
    requires Ordinary(cart, quoted, rules, taxes)
    ensures var q := Calculate(cart, quoted, rules, taxes);
      && q.taxTotal == AddedTax(LineSum(q.lines) + q.shippingTotal, taxes)
      && q.grandTotal == LineSum(q.lines) + q.shippingTotal + q.taxTotal
  {
    hide Calculate;
    QuoteAddsUp(cart, quoted, rules, taxes);
  }

  /** None when the calculation divides by zero. */
  method CalculateQuote(cart: seq<CartLine>, shippingQuote: Minor, candidates: seq<Candidate>, taxes: seq<TaxRule>)
    returns (q: Option<Quote>)
    ensures q.None? <==> Crashes(ListPrice(cart, shippingQuote), Matching(candidates))
    ensures q.Some? ==> q.value == Calculate(cart, shippingQuote, Matching(candidates), taxes)
    ensures q.Some? && Ordinary(cart, shippingQuote, Matching(candidates), taxes) ==>
      && q.value.taxTotal == AddedTax(LineSum(q.value.lines) + q.value.shippingTotal, taxes)
      && q.value.grandTotal == LineSum(q.value.lines) + q.value.shippingTotal + q.value.taxTotal
  {
    hide Ordinary, AddedTax, LineSum, Matching;
    if Ordinary(cart, shippingQuote, Matching(candidates), taxes) {
      OrdinaryAddsUp(cart, shippingQuote, Matching(candidates), taxes);
    }
    var lines, subtotal := ListPrices(cart);
    var p, crashed := Promote(Promo(lines, subtotal, shippingQuote, 0, false, 0, 0), candidates);
    if crashed { return None; }
    var final, sum := SumLines(p.lines);
    var tax := AddTaxes(sum + p.shipping, taxes);
    q := Some(Quote(final, p.subtotal, p.discountTotal, p.shipping, tax, NonNegative(sum + p.shipping + tax)));
  }
}
