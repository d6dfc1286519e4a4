/**
 Which rules and carts keep a quote in bounds, exactly, and when the calculation is defined at all. The loader
 checks the range of percentages and tax rates only, and the server checks neither quantities nor prices.
 */
module PricingBounds {
  import opened Basics
  import opened Pricing
  import opened PricingLaws

  const INT32_MAX: int := 0x7fff_ffff
  const INT32_MIN: int := -0x8000_0000

  predicate FitsInt32(x: int) {
    INT32_MIN <= x <= INT32_MAX
  }

  /** The widths of the fields, with the one division defined. */
  predicate Loadable(r: Rule) {
    && FitsInt32(r.percentOff) && FitsInt32(r.buyQuantity) && FitsInt32(r.getQuantity) && FitsInt32(r.getDiscountBp)
    && (r.kind == BuyXGetY && r.buyQuantity > 0 ==> GroupSize(r) != 0)
  }

  /** The quote under this one rule: every line is its subtotal plus its discount, within 0 and the subtotal. */
  ghost predicate QuoteInBounds(cart: seq<CartLine>, quoted: Minor, r: Rule) {
    var q := Calculate(cart, quoted, [r], []);
    forall i :: 0 <= i < |q.lines| ==> LineOk(q.lines[i])
  }

  // ----- a line that shows it

  lemma WholePercent(k: int, bp: BasisPoints)
    requires -MAX_SAFE <= 10000 * k <= MAX_SAFE
    ensures ApplyBp(10000 * k, bp) == k * bp
  {
    assert 10000 * k * bp == 10000 * (k * bp);
    RoundWhole(k * bp);
  }

  lemma RoundWhole(m: int)
    ensures RoundedTenThousandth(10000 * m) == m
  {
  }

  lemma NegativeProduct(a: int, b: int)
    requires (a > 0 && b < 0) || (a < 0 && b > 0)
    ensures a * b < 0
  {
    if a > 0 { MulMono(a, 1, -b); } else { MulMono(b, 1, -a); }
  }

  /** One group of goods at 100.00, or at a price beyond the clamp where that alone shows it. */
  function Raised(r: Rule): CartLine {
    if r.kind == PercentOff then CartLine(1, 10000)
    else
      var quantity := if GroupSize(r) > 0 then GroupSize(r) else -GroupSize(r);
      CartLine(quantity, if GroupSize(r) > 0 && r.getQuantity < 0 && r.getDiscountBp <= 0 then MAX_SAFE + 1 else 10000)
  }

  lemma OneGroup(r: Rule)
    requires r.kind == BuyXGetY && r.buyQuantity > 0 && GroupSize(r) != 0
    ensures var l := ListLine(Raised(r));
      !NoGroup(r, l) && FreeUnits(r, l) == (if GroupSize(r) > 0 then r.getQuantity else -r.getQuantity)
  {
    var size := GroupSize(r);
    if size > 0 { GroupsAreQuotient(size, size, 1); } else { GroupsAreQuotient(-size, -size, 1); }
  }

  lemma GroupIsRaised(r: Rule)
    requires Loadable(r) && r.kind == BuyXGetY && !SoundGroups(r)
    ensures AppliedOff(r, ListLine(Raised(r))) < 0
  {
    hide ApplyBp, FreeUnits;
    var l := ListLine(Raised(r));
    OneGroup(r);
    var free := FreeUnits(r, l);
    if l.unit == 10000 {
      WholePercent(free, r.getDiscountBp);
      NegativeProduct(free, r.getDiscountBp);
    } else {
      BeyondClamp(free, r.getDiscountBp);
    }
    WorthSomething(l.unit, l.quantity);
  }

  lemma WorthSomething(unit: int, quantity: int)
    requires unit > 0 && quantity > 0
    ensures unit * quantity > 0
  {
    MulMono(unit, 1, quantity);
  }

  lemma BeyondClamp(free: int, bp: BasisPoints)
    requires free < 0
    ensures ApplyBp((MAX_SAFE + 1) * free, bp) < 0
  {
    MulMono(MAX_SAFE + 1, 1, -free);
    assert (MAX_SAFE + 1) * (-free) == -((MAX_SAFE + 1) * free);
  }

  lemma LineIsRaised(r: Rule)
    requires Loadable(r) && !Sensible(r)
    ensures LineByLine(r.kind) && AppliedOff(r, ListLine(Raised(r))) < 0
    ensures SensibleCart([Raised(r)]) && ListLine(Raised(r)).subtotal >= 0
  {
    if r.kind == PercentOff {
      WholePercent(1, r.percentOff);
    } else {
      GroupIsRaised(r);
      WorthSomething(Raised(r).unit, Raised(r).quantity);
    }
  }

  // ----- lifted to the quote

  lemma OneLineQuote(r: Rule, c: CartLine)
    requires LineByLine(r.kind) && AppliedOff(r, ListLine(c)) <= 0
    ensures Calculate([c], 0, [r], []).lines == Floored([CutLine(r, ListLine(c))])
  {
    hide CutLine, AppliedOff, SumSubtotal;
    var l := ListLine(c);
    assert ListLines([c]) == [l];
    assert [l][..0] == [] && [r][..0] == [];
    assert CutLines(r, []) == Cut([], 0);
    assert CutLines(r, [l]) == Cut([CutLine(r, l)], AppliedOff(r, l));
    var p := ListPrice([c], 0);
    assert ApplyRules(p, []) == p;
    assert ApplyRules(p, [r]) == ApplyRule(p, r);
  }

  /** The totals of a loaded rule set stay in bounds on every sensible cart if and only if the rule is sensible. */
  lemma RuleIsSensibleIff(r: Rule)
    requires Loadable(r)
    ensures (forall cart: seq<CartLine>, quoted: Minor :: SensibleCart(cart) && quoted >= 0 ==>
      QuoteInBounds(cart, quoted, r))
      <==> Sensible(r)
  {
    hide Calculate, Sensible, CutLine, AppliedOff, SensibleCart, Raised, ListLine, Floored;
    if Sensible(r) {
      forall cart: seq<CartLine>, quoted: Minor | SensibleCart(cart) && quoted >= 0
        ensures QuoteInBounds(cart, quoted, r)
      {
        QuoteIsBounded(cart, quoted, [r], []);
      }
    } else {
      LineIsRaised(r);
      OneLineQuote(r, Raised(r));
      RaisedIsOut(r);
      var q := Calculate([Raised(r)], 0, [r], []);
      assert !LineOk(q.lines[0]);
      assert !QuoteInBounds([Raised(r)], 0, r);
    }
  }

  lemma RaisedIsOut(r: Rule)
    requires AppliedOff(r, ListLine(Raised(r))) < 0 && ListLine(Raised(r)).subtotal >= 0
    ensures var lines := Floored([CutLine(r, ListLine(Raised(r)))]); |lines| == 1 && !LineOk(lines[0])
  {
    hide Raised, LineOff;
  }

  /** Buy 3 get -1 free, which loads: four at 1.00 cost 6.00. */
  lemma NegativeGetRaises()
    ensures var r := Rule(BuyXGetY, 0, 0, 3, -1, 10000, [], false, 0);
      Loadable(r) && CutLine(r, ListLine(CartLine(4, 100))) == LinePrice(4, 100, 400, 200, 600)
  {
    var r := Rule(BuyXGetY, 0, 0, 3, -1, 10000, [], false, 0);
    var l := ListLine(CartLine(4, 100));
    assert FreeUnits(r, l) == -2;
    assert ApplyBp(-200, 10000) == -200;
  }

  // ----- carts

  /** Whatever sensible rules follow, the lines of a quote are in bounds if and only if no list price is negative. */
  lemma ListPricesSoundIff(cart: seq<CartLine>, quoted: Minor)
    requires quoted >= 0
    ensures (forall rules: seq<Rule> :: (forall r :: r in rules ==> Sensible(r)) ==> StackInBounds(cart, quoted, rules))
      <==> SensibleCart(cart)
  {
    hide Calculate, Sensible;
    if SensibleCart(cart) {
      forall rules: seq<Rule> | forall r :: r in rules ==> Sensible(r)
        ensures StackInBounds(cart, quoted, rules)
      {
        QuoteIsBounded(cart, quoted, rules, []);
      }
    } else {
      var i :| 0 <= i < |cart| && cart[i].unit * cart[i].quantity < 0;
      BareQuote(cart, quoted);
      assert !LineOk(Calculate(cart, quoted, [], []).lines[i]);
      assert !StackInBounds(cart, quoted, []);
    }
  }

  ghost predicate StackInBounds(cart: seq<CartLine>, quoted: Minor, rules: seq<Rule>) {
    var q := Calculate(cart, quoted, rules, []);
    forall i :: 0 <= i < |q.lines| ==> LineOk(q.lines[i])
  }

  lemma BareQuote(cart: seq<CartLine>, quoted: Minor)
    ensures Calculate(cart, quoted, [], []).lines == Floored(ListLines(cart))
  {
  }

  // ----- when the calculation is defined

  ghost predicate RuleCrashes(r: Rule, lines: seq<LinePrice>) {
    exists i :: 0 <= i < |lines| && DividesByZero(r, lines[i])
  }

  /** Some rule that is reached divides by zero on some line. */
  ghost predicate Crashes(p: Promo, rules: seq<Rule>) {
    exists i :: 0 <= i < |rules| && !ApplyRules(p, rules[..i]).exclusive &&
      RuleCrashes(rules[i], ApplyRules(p, rules[..i]).lines)
  }

  /** A buy-X-get-Y rule that takes back exactly what it asks for. */
  predicate SizeZero(r: Rule) {
    r.kind == BuyXGetY && r.buyQuantity > 0 && GroupSize(r) == 0
  }

  ghost predicate SameQuantities(a: seq<LinePrice>, b: seq<LinePrice>) {
    |a| == |b| && forall i :: 0 <= i < |a| ==>
      a[i].quantity == b[i].quantity && a[i].unit == b[i].unit && a[i].subtotal == b[i].subtotal
  }

  lemma {:induction false} CutLinesKeeps(r: Rule, lines: seq<LinePrice>)
    ensures SameQuantities(lines, CutLines(r, lines).lines)
  {
    hide AppliedOff, Skips;
    if lines != [] { CutLinesKeeps(r, lines[..|lines| - 1]); }
  }

  lemma {:induction false} SpreadKeeps(a: Minor, s: Minor, lines: seq<LinePrice>, i: nat, remaining: Minor)
    requires i <= |lines|
    ensures SameQuantities(lines, Spread(a, s, lines, i, remaining).0)
    decreases |lines| - i
  {
    hide Share;
    if i < |lines| && remaining > 0 {
      var share := Share(a, s, remaining, lines[i], i + 1 == |lines|);
      SpreadKeeps(a, s, lines[i := TakeOff(lines[i], share)], i + 1, remaining - share);
    }
  }

  /** Rules change discounts, never goods; and the announced discount only goes down. */
  lemma RuleKeeps(p: Promo, r: Rule)
    ensures SameQuantities(p.lines, ApplyRule(p, r).lines)
    ensures p.discountTotal <= 0 ==> ApplyRule(p, r).discountTotal <= 0
  {
    hide CutLines, Spread, LastDiscounted;
    CutLinesKeeps(r, p.lines);
    SpreadKeeps(r.amountOff, p.subtotal, p.lines, 0, Min(r.amountOff, p.subtotal));
    assert SameQuantities(p.lines, CutBy(r, p).lines);
  }

  lemma {:induction false} RulesKeep(p: Promo, rules: seq<Rule>)
    ensures SameQuantities(p.lines, ApplyRules(p, rules).lines)
    ensures p.discountTotal <= 0 ==> ApplyRules(p, rules).discountTotal <= 0
    decreases |rules|
  {
    hide ApplyRule;
    if rules != [] {
      RulesKeep(p, rules[..|rules| - 1]);
      RuleKeeps(ApplyRules(p, rules[..|rules| - 1]), rules[|rules| - 1]);
    }
  }

  /**
   The calculation divides by zero if and only if it reaches a rule of size zero and some quantity is not negative.
   */
  lemma CrashesIff(cart: seq<CartLine>, quoted: Minor, rules: seq<Rule>)
    ensures var p := ListPrice(cart, quoted);
      Crashes(p, rules) <==>
        && (exists i :: 0 <= i < |rules| && !ApplyRules(p, rules[..i]).exclusive && SizeZero(rules[i]))
        && (exists j :: 0 <= j < |cart| && cart[j].quantity >= 0)
  {
    hide ApplyRules;
    var p := ListPrice(cart, quoted);
    forall i | 0 <= i < |rules|
      ensures RuleCrashes(rules[i], ApplyRules(p, rules[..i]).lines) <==>
        SizeZero(rules[i]) && exists j :: 0 <= j < |cart| && cart[j].quantity >= 0
    {
      RulesKeep(p, rules[..i]);
      var lines := ApplyRules(p, rules[..i]).lines;
      assert forall j :: 0 <= j < |cart| ==> lines[j].quantity == p.lines[j].quantity == cart[j].quantity;
      if SizeZero(rules[i]) && exists j :: 0 <= j < |cart| && cart[j].quantity >= 0 {
        var j :| 0 <= j < |cart| && cart[j].quantity >= 0;
        assert DividesByZero(rules[i], lines[j]);
      }
    }
  }
}
