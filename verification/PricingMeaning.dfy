/**
 What each kind of rule takes off and what is taxed, in terms of list prices, rates and the line totals before it,
 without reference to the functions that compute it.
 */
module PricingMeaning {
  import opened Basics
  import opened Pricing
  import opened PricingLaws
  import opened PricingBounds
  import opened PricingTotals

  /** A share of `amount` in ten-thousandths, rounded half-up. */
  function Rounded(amount: int, bp: int): int {
    (amount * bp + 5000) / 10000
  }

  /** Small enough for the clamp of apply_bp to stay out of it. */
  predicate Priced(l: LinePrice) {
    LineOk(l) && l.subtotal <= MAX_SAFE
  }

  ghost predicate AllPriced(lines: seq<LinePrice>) {
    forall i :: 0 <= i < |lines| ==> Priced(lines[i])
  }

  /** The line has lost `off`, or all it had left. */
  predicate Lost(l: LinePrice, after: LinePrice, off: int) {
    var taken := Min(off, l.total);
    after == l.(discount := l.discount - taken, total := l.total - taken)
  }

  lemma RoundedIsHalfUp(amount: int, bp: int)
    requires 0 <= amount <= MAX_SAFE && bp >= 0
    ensures amount * bp - 5000 < 10000 * Rounded(amount, bp) <= amount * bp + 5000
    ensures ApplyBp(amount, bp) == Rounded(amount, bp) && Rounded(amount, bp) >= 0
  {
    MulMono(amount, bp, bp);
  }

  // ----- one line

  /** A percentage is taken of the list price, whatever was discounted before, and never more than the line has left. */
  lemma PercentMeans(r: Rule, l: LinePrice)
    requires r.kind == PercentOff && r.percentOff >= 0 && Priced(l)
    ensures Lost(l, CutLine(r, l), Rounded(l.subtotal, r.percentOff)) && Rounded(l.subtotal, r.percentOff) >= 0
    ensures AppliedOff(r, l) == l.total - CutLine(r, l).total
  {
    RoundedIsHalfUp(l.subtotal, r.percentOff);
  }

  /** The rate of a tier rule: the largest that the quantity qualifies for, and nothing if there is none above zero. */
  ghost predicate IsTierRate(tiers: seq<Tier>, quantity: int, rate: int) {
    && rate >= 0
    && (forall t :: t in tiers && quantity >= t.minQuantity ==> t.discountBp <= rate)
    && (rate == 0 || exists t :: t in tiers && quantity >= t.minQuantity && t.discountBp == rate)
  }

  lemma TierMeans(r: Rule, l: LinePrice, rate: int)
    requires r.kind == TieredQuantity && Priced(l) && IsTierRate(r.tiers, l.quantity, rate)
    ensures Lost(l, CutLine(r, l), Rounded(l.subtotal, rate))
    ensures AppliedOff(r, l) == l.total - CutLine(r, l).total
  {
    BestTierNonNegative(r.tiers, l.quantity);
    BestTierIsMaximum(r.tiers, l.quantity);
    RoundedIsHalfUp(l.subtotal, rate);
  }

  /** `groups` complete groups give `groups * get` units at the rule's rate. */
  lemma BuyGetMeans(r: Rule, l: LinePrice, groups: int)
    requires r.kind == BuyXGetY && r.buyQuantity > 0 && r.getQuantity >= 0 && r.getDiscountBp >= 0 && Priced(l)
    requires l.quantity >= 0 && l.unit >= 0
    requires groups * (r.buyQuantity + r.getQuantity) <= l.quantity < (groups + 1) * (r.buyQuantity + r.getQuantity)
    ensures groups >= 0 && 0 <= l.unit * (groups * r.getQuantity) <= l.subtotal
    ensures Lost(l, CutLine(r, l), Rounded(l.unit * (groups * r.getQuantity), r.getDiscountBp))
    ensures AppliedOff(r, l) == l.total - CutLine(r, l).total
  {
    var size, free := r.buyQuantity + r.getQuantity, groups * r.getQuantity;
    GroupsAreQuotient(l.quantity, size, groups);
    FreeUnitsAreWholeGroups(r, l, groups);
    assert groups >= 0;
    FreeIsWithin(groups, r.buyQuantity, r.getQuantity, l.quantity);
    MulMono(l.unit, free, l.quantity);
    RoundedIsHalfUp(l.unit * free, r.getDiscountBp);
  }

  lemma FreeIsWithin(groups: int, buy: int, get: int, quantity: int)
    requires groups >= 0 && buy >= 0 && get >= 0 && groups * (buy + get) <= quantity
    ensures 0 <= groups * get <= quantity
  {
    MulMono(groups, get, buy + get);
  }

  /** Without a complete group, or without anything to buy, the line is passed by. */
  lemma NoGroupMeans(r: Rule, l: LinePrice)
    requires r.kind == BuyXGetY && (r.buyQuantity <= 0 || l.quantity < r.buyQuantity + r.getQuantity)
    ensures CutLine(r, l) == l && AppliedOff(r, l) == 0
  {
  }

  // ----- one rule

  /** A rule that is applied, not passed over. */
  predicate Live(p: Promo, r: Rule) {
    !p.exclusive && r.kind != Bundle
  }

  function TotalLoss(before: seq<LinePrice>, after: seq<LinePrice>): int
    requires |before| == |after|
  {
    if before == [] then 0
    else
      var n := |before| - 1;
      TotalLoss(before[..n], after[..n]) + (before[n].total - after[n].total)
  }

  lemma {:induction false} CutLinesMeans(r: Rule, lines: seq<LinePrice>)
    requires LineByLine(r.kind) && Sensible(r) && AllPriced(lines)
    ensures |CutLines(r, lines).lines| == |lines|
    ensures forall i :: 0 <= i < |lines| ==> CutLines(r, lines).lines[i] == CutLine(r, lines[i])
    ensures CutLines(r, lines).discount == TotalLoss(lines, CutLines(r, lines).lines)
    decreases |lines|
  {
    hide CutLine, AppliedOff, LineOk, Sensible, Priced;
    if lines != [] {
      var n := |lines| - 1;
      assert AllPriced(lines[..n]);
      CutLinesMeans(r, lines[..n]);
      CutLineLoses(r, lines[n]);
      assert CutLines(r, lines).lines[..n] == CutLines(r, lines[..n]).lines;
    }
  }

  lemma CutLineLoses(r: Rule, l: LinePrice)
    requires LineByLine(r.kind) && Sensible(r) && Priced(l)
    ensures AppliedOff(r, l) == l.total - CutLine(r, l).total
  {
    LineOffNonNegative(r, l);
  }

  /** An uncapped line-by-line rule: each line by itself, and the announced discount is what the lines lost. */
  lemma LineRuleMeans(p: Promo, r: Rule)
    requires Live(p, r) && LineByLine(r.kind) && Sensible(r) && r.maxDiscount <= 0 && AllPriced(p.lines)
    ensures var q := ApplyRule(p, r);
      && |q.lines| == |p.lines|
      && (forall i :: 0 <= i < |p.lines| ==> q.lines[i] == CutLine(r, p.lines[i]))
      && q.discountTotal == p.discountTotal - TotalLoss(p.lines, q.lines)
      && q.shipping == p.shipping
      && q.exclusive == (r.exclusive && TotalLoss(p.lines, q.lines) > 0)
  {
    hide CutLines, CutLine, LineOk, Sensible, GiveBack, GiveBackAmount;
    CutLinesMeans(r, p.lines);
    NoLoss(r, p.lines);
  }

  lemma NoLoss(r: Rule, lines: seq<LinePrice>)
    requires LineByLine(r.kind) && Sensible(r) && AllPriced(lines)
    ensures CutLines(r, lines).discount >= 0
  {
    assert forall i :: 0 <= i < |lines| ==> Priced(lines[i]);
    CutIsNonNegative(r, lines);
  }

  /** A cap limits what is announced; what the same rule would announce without it is the measure. */
  lemma CapMeans(p: Promo, r: Rule)
    requires Live(p, r) && r.maxDiscount > 0
    ensures var off := p.discountTotal - ApplyRule(p, r.(maxDiscount := 0)).discountTotal;
      && ApplyRule(p, r).discountTotal == p.discountTotal - Min(off, r.maxDiscount)
      && (off <= r.maxDiscount ==> ApplyRule(p, r) == ApplyRule(p, r.(maxDiscount := 0)))
  {
    hide CutLines, CutAmount, GiveBack, GiveBackAmount;
    SameCut(p, r);
  }

  lemma SameCut(p: Promo, r: Rule)
    ensures CutBy(r, p) == CutBy(r.(maxDiscount := 0), p)
  {
    SameCutLines(r, p.lines);
  }

  lemma {:induction false} SameCutLines(r: Rule, lines: seq<LinePrice>)
    ensures CutLines(r, lines) == CutLines(r.(maxDiscount := 0), lines)
    decreases |lines|
  {
    if lines != [] { SameCutLines(r, lines[..|lines| - 1]); }
  }

  /** Free shipping waives the whole quote, announces it, and touches no line. */
  lemma FreeShippingMeans(p: Promo, r: Rule)
    requires Live(p, r) && r.kind == FreeShipping && r.maxDiscount <= 0 && p.shipping >= 0
    ensures var q := ApplyRule(p, r);
      && q.lines == p.lines && q.shipping == 0 && q.discountTotal == p.discountTotal - p.shipping
      && q.exclusive == (r.exclusive && p.shipping > 0)
  {
  }

  /**
   An amount-off rule and a cart-threshold rule do the same: each line takes its room, in order, until the amount is
   used up.
   */
  lemma AmountRuleMeans(p: Promo, r: Rule)
    requires Live(p, r) && (r.kind == AmountOff || r.kind == CartThreshold) && r.maxDiscount <= 0 && LinesOk(p.lines)
    ensures var q, whole := ApplyRule(p, r), Max(0, Min(r.amountOff, p.subtotal));
      && |q.lines| == |p.lines|
      && (forall i :: 0 <= i < |p.lines| ==>
            Lost(p.lines[i], q.lines[i], ShareOf(r.amountOff, p.subtotal, p.lines, i, whole)))
      && q.discountTotal ==
            p.discountTotal - (if whole == 0 then 0 else Min(whole, RoomFrom(r.amountOff, p.subtotal, p.lines, 0)))
      && q.shipping == p.shipping
  {
    hide CutLines, GiveBack, GiveBackAmount, Spread, RoomFrom, LineOk;
    AmountOffPlacedIff(r, p.subtotal, p.lines);
    var start := Min(r.amountOff, p.subtotal);
    if start > 0 {
      RoomNonNegative(r.amountOff, p.subtotal, p.lines, 0);
      SpreadShares(r.amountOff, p.subtotal, p.lines, 0, start);
    } else {
      NothingSpread(r.amountOff, p.subtotal, p.lines, start);
    }
  }

  lemma NothingSpread(a: int, s: int, lines: seq<LinePrice>, start: int)
    requires start <= 0 && LinesOk(lines)
    ensures Spread(a, s, lines, 0, start) == (lines, start)
    ensures forall i :: 0 <= i < |lines| ==> ShareOf(a, s, lines, i, Max(0, start)) == 0 && Lost(lines[i], lines[i], 0)
  {
    forall i | 0 <= i < |lines|
      ensures ShareOf(a, s, lines, i, 0) == 0 && Lost(lines[i], lines[i], 0)
    {
      assert LineOk(lines[i]);
    }
  }

  /** The room of the lines before `i`. */
  function RoomBefore(a: int, s: int, lines: seq<LinePrice>, i: nat): int
    requires i <= |lines|
  {
    if i == 0 then 0 else RoomBefore(a, s, lines, i - 1) + Room(a, s, lines[i - 1], i == |lines|)
  }

  /** What is left of `whole` when line `i` is reached, up to the line's room. */
  function ShareOf(a: int, s: int, lines: seq<LinePrice>, i: nat, whole: int): int
    requires i < |lines|
  {
    if whole <= 0 then 0 else Max(0, Min(Room(a, s, lines[i], i + 1 == |lines|), whole - RoomBefore(a, s, lines, i)))
  }

  /** What line `j` takes when `remaining` is left at line `i`. */
  function ShareFrom(a: int, s: int, lines: seq<LinePrice>, i: nat, j: nat, remaining: int): int
    requires i <= j < |lines|
  {
    Max(0, Min(Room(a, s, lines[j], j + 1 == |lines|),
               remaining - (RoomBefore(a, s, lines, j) - RoomBefore(a, s, lines, i))))
  }

  /** From line `i` on, with `remaining` left: each line takes its room until it runs out, and the lines before stay. */
  lemma {:induction false} SpreadShares(a: int, s: int, lines: seq<LinePrice>, i: nat, remaining: int)
    requires i <= |lines| && a > 0 && remaining >= 0 && LinesOk(lines)
    ensures |Spread(a, s, lines, i, remaining).0| == |lines|
    ensures forall j :: 0 <= j < i ==> Spread(a, s, lines, i, remaining).0[j] == lines[j]
    ensures forall j :: i <= j < |lines| ==>
      Lost(lines[j], Spread(a, s, lines, i, remaining).0[j], ShareFrom(a, s, lines, i, j, remaining))
    decreases |lines| - i
  {
    hide Room, RoomBefore, Share, LineOk, ShareFrom;
    if i == |lines| {
    } else if remaining == 0 {
      NothingMore(a, s, lines, i);
    } else {
      var l, last := lines[i], i + 1 == |lines|;
      var share := Share(a, s, remaining, l, last);
      assert LineOk(l);
      RoomIsShare(a, s, l, last, remaining);
      ShareKeepsLine(l, share);
      var next := lines[i := TakeOff(l, share)];
      SpreadShares(a, s, next, i + 1, remaining - share);
      FirstShare(a, s, lines, i, remaining);
      forall j | i < j < |lines|
        ensures ShareFrom(a, s, next, i + 1, j, remaining - share) == ShareFrom(a, s, lines, i, j, remaining)
      {
        LaterShare(a, s, lines, i, j, remaining);
      }
    }
  }

  lemma ShareKeepsLine(l: LinePrice, share: int)
    requires LineOk(l) && 0 <= share <= l.total
    ensures LineOk(TakeOff(l, share)) && Lost(l, TakeOff(l, share), share)
  {
  }

  lemma FirstShare(a: int, s: int, lines: seq<LinePrice>, i: nat, remaining: int)
    requires i < |lines| && a > 0 && remaining > 0 && LinesOk(lines)
    ensures ShareFrom(a, s, lines, i, i, remaining) == Share(a, s, remaining, lines[i], i + 1 == |lines|)
  {
    hide Room, Share, RoomBefore;
    RoomIsShare(a, s, lines[i], i + 1 == |lines|, remaining);
  }

  lemma LaterShare(a: int, s: int, lines: seq<LinePrice>, i: nat, j: nat, remaining: int)
    requires i < j < |lines| && a > 0 && remaining > 0 && LinesOk(lines)
    ensures var share := Share(a, s, remaining, lines[i], i + 1 == |lines|);
      ShareFrom(a, s, lines[i := TakeOff(lines[i], share)], i + 1, j, remaining - share) ==
        ShareFrom(a, s, lines, i, j, remaining)
  {
    hide Room, Share;
    var share := Share(a, s, remaining, lines[i], i + 1 == |lines|);
    RoomIsShare(a, s, lines[i], i + 1 == |lines|, remaining);
    RoomBeforeKept(a, s, lines, i, TakeOff(lines[i], share), j);
    RoomGrows(a, s, lines, i + 1);
  }

  lemma RoomIsShare(a: int, s: int, l: LinePrice, last: bool, remaining: int)
    requires a > 0 && remaining > 0 && LineOk(l)
    ensures 0 <= Room(a, s, l, last) <= l.total
    ensures Share(a, s, remaining, l, last) == Min(remaining, Room(a, s, l, last))
  {
    FloorShare(a, l.subtotal, Max(s, 1));
  }

  lemma {:induction false} RoomBeforeKept(a: int, s: int, lines: seq<LinePrice>, i: nat, l: LinePrice, j: nat)
    requires i < j <= |lines|
    ensures RoomBefore(a, s, lines[i := l], j) - RoomBefore(a, s, lines[i := l], i + 1) ==
      RoomBefore(a, s, lines, j) - RoomBefore(a, s, lines, i + 1)
    decreases j
  {
    hide Room;
    if j > i + 1 { RoomBeforeKept(a, s, lines, i, l, j - 1); }
  }

  lemma {:induction false} RoomGrows(a: int, s: int, lines: seq<LinePrice>, i: nat)
    requires i <= |lines| && a > 0 && LinesOk(lines)
    ensures forall j :: i <= j <= |lines| ==> RoomBefore(a, s, lines, i) <= RoomBefore(a, s, lines, j)
    decreases |lines| - i
  {
    hide Room;
    if i < |lines| {
      RoomIsShare(a, s, lines[i], i + 1 == |lines|, 1);
      RoomGrows(a, s, lines, i + 1);
    }
  }

  lemma NothingMore(a: int, s: int, lines: seq<LinePrice>, i: nat)
    requires i < |lines| && a > 0 && LinesOk(lines)
    ensures Spread(a, s, lines, i, 0) == (lines, 0)
    ensures forall j :: i <= j < |lines| ==> Lost(lines[j], lines[j], ShareFrom(a, s, lines, i, j, 0))
  {
    hide Room;
    RoomGrows(a, s, lines, i);
    forall j | i <= j < |lines|
      ensures Lost(lines[j], lines[j], 0)
    {
      assert LineOk(lines[j]);
    }
  }

  // ----- the stack

  /** Once a rule marked exclusive has announced a discount, later rules change nothing. */
  lemma {:induction false} ExclusiveEnds(p: Promo, rules: seq<Rule>, more: seq<Rule>)
    requires ApplyRules(p, rules).exclusive
    ensures ApplyRules(p, rules + more) == ApplyRules(p, rules)
    decreases |more|
  {
    hide CutBy;
    if more == [] {
      assert rules + more == rules;
    } else {
      var n := |more| - 1;
      ExclusiveEnds(p, rules, more[..n]);
      assert (rules + more)[..|rules + more| - 1] == rules + more[..n];
    }
  }

  /** What makes the quote exclusive: an exclusive rule that is reached and announces a discount, and nothing else. */
  lemma ExclusiveIff(p: Promo, r: Rule)
    requires !p.exclusive
    ensures ApplyRule(p, r).exclusive <==> r.exclusive && ApplyRule(p, r).discountTotal < p.discountTotal
  {
    hide CutBy, GiveBack, GiveBackAmount;
  }

  function Percentages(amount: int, rules: seq<Rule>): int {
    if rules == [] then 0
    else Percentages(amount, rules[..|rules| - 1]) + Rounded(amount, rules[|rules| - 1].percentOff)
  }

  ghost predicate PlainPercentages(rules: seq<Rule>) {
    forall r :: r in rules ==> r.kind == PercentOff && r.percentOff >= 0 && r.maxDiscount <= 0 && !r.exclusive
  }

  /** Uncapped percentages add up on the list price: none compounds on another, whatever was discounted before them. */
  lemma {:induction false} PercentagesAdd(p: Promo, rules: seq<Rule>)
    requires !p.exclusive && AllPriced(p.lines) && PlainPercentages(rules)
    ensures var q := ApplyRules(p, rules);
      && !q.exclusive && q.shipping == p.shipping && |q.lines| == |p.lines| && AllPriced(q.lines)
      && (forall i :: 0 <= i < |p.lines| ==> Lost(p.lines[i], q.lines[i], Percentages(p.lines[i].subtotal, rules)))
    decreases |rules|
  {
    hide ApplyRule, CutLine, AppliedOff, LineOk, Rounded;
    if rules == [] {
      NothingLost(p.lines);
    } else {
      var n := |rules| - 1;
      var r := rules[n];
      assert r in rules;
      PercentagesAdd(p, rules[..n]);
      var mid := ApplyRules(p, rules[..n]);
      LineRuleMeans(mid, r);
      forall i | 0 <= i < |p.lines|
        ensures Priced(CutLine(r, mid.lines[i]))
        ensures Lost(p.lines[i], CutLine(r, mid.lines[i]), Percentages(p.lines[i].subtotal, rules))
      {
        PercentMeans(r, mid.lines[i]);
        LossesAdd(p.lines[i], mid.lines[i], CutLine(r, mid.lines[i]), Percentages(p.lines[i].subtotal, rules[..n]),
          Rounded(p.lines[i].subtotal, r.percentOff));
      }
    }
  }

  lemma NothingLost(lines: seq<LinePrice>)
    requires AllPriced(lines)
    ensures forall i :: 0 <= i < |lines| ==> Lost(lines[i], lines[i], 0)
  {
    forall i | 0 <= i < |lines|
      ensures Lost(lines[i], lines[i], 0)
    {
      assert Priced(lines[i]);
    }
  }

  lemma LossesAdd(l: LinePrice, mid: LinePrice, after: LinePrice, a: int, b: int)
    requires Priced(l) && Lost(l, mid, a) && Lost(mid, after, b) && b >= 0
    requires Priced(mid)
    ensures Lost(l, after, a + b) && Priced(after)
  {
  }

  /** So their order does not matter. */
  lemma PercentagesCommute(p: Promo, some: seq<Rule>, others: seq<Rule>)
    requires !p.exclusive && AllPriced(p.lines) && PlainPercentages(some) && multiset(some) == multiset(others)
    ensures ApplyRules(p, some).lines == ApplyRules(p, others).lines
  {
    hide ApplyRules, Percentages;
    forall r | r in others
      ensures r in some
    {
      assert r in multiset(others);
    }
    PercentagesAdd(p, some);
    PercentagesAdd(p, others);
    forall i | 0 <= i < |p.lines|
      ensures Percentages(p.lines[i].subtotal, some) == Percentages(p.lines[i].subtotal, others)
    {
      SameSum(p.lines[i].subtotal, some, others);
    }
  }

  lemma {:induction false} SameSum(amount: int, some: seq<Rule>, others: seq<Rule>)
    requires multiset(some) == multiset(others)
    ensures Percentages(amount, some) == Percentages(amount, others)
    decreases |some|
  {
    hide Rounded;
    if some == [] {
      assert |multiset(others)| == 0;
    } else {
      var n := |some| - 1;
      assert some[n] in multiset(some);
      var k :| 0 <= k < |others| && others[k] == some[n];
      assert some[..n] + some[n + 1..] == some[..n];
      WithoutOne(some, n);
      WithoutOne(others, k);
      SameSum(amount, some[..n], others[..k] + others[k + 1..]);
      TakenOut(amount, others, k);
    }
  }

  lemma WithoutOne(rules: seq<Rule>, k: nat)
    requires k < |rules|
    ensures multiset(rules[..k] + rules[k + 1..]) == multiset(rules) - multiset{rules[k]}
  {
    assert rules == rules[..k] + [rules[k]] + rules[k + 1..];
  }

  lemma {:induction false} TakenOut(amount: int, rules: seq<Rule>, k: nat)
    requires k < |rules|
    ensures Percentages(amount, rules) ==
      Percentages(amount, rules[..k] + rules[k + 1..]) + Rounded(amount, rules[k].percentOff)
    decreases |rules|
  {
    hide Rounded;
    var n := |rules| - 1;
    var rest := rules[..k] + rules[k + 1..];
    if k == n {
      assert rest == rules[..n];
    } else {
      assert rest[..|rest| - 1] == rules[..n][..k] + rules[..n][k + 1..] && rest[|rest| - 1] == rules[n];
      TakenOut(amount, rules[..n], k);
    }
  }

  // ----- tax and the grand total

  function LineSum(lines: seq<LinePrice>): int {
    if lines == [] then 0 else lines[0].total + LineSum(lines[1..])
  }

  /** Tax that is added: rates not already inside the price, each on the same base. */
  function AddedTax(base: int, taxes: seq<TaxRule>): int {
    if taxes == [] then 0
    else (if taxes[0].inclusive then 0 else Rounded(base, taxes[0].rate)) + AddedTax(base, taxes[1..])
  }

  lemma {:induction false} LineSumIs(lines: seq<LinePrice>)
    ensures SumTotal(lines) == LineSum(lines)
    decreases |lines|
  {
    if |lines| > 1 {
      var n := |lines| - 1;
      LineSumIs(lines[..n]);
      LineSumIs(lines[1..]);
      LineSumIs(lines[1..][..n - 1]);
      assert lines[..n][1..] == lines[1..][..n - 1];
    } else if lines != [] {
      assert lines[1..] == [] && lines[..0] == [];
    }
  }

  lemma {:induction false} AddedTaxIs(base: int, taxes: seq<TaxRule>)
    requires 0 <= base <= MAX_SAFE && forall t :: t in taxes ==> t.rate >= 0
    ensures TaxTotal(base, taxes) == AddedTax(base, taxes)
    decreases |taxes|
  {
    hide Rounded, ApplyBp;
    if taxes != [] {
      var n := |taxes| - 1;
      assert taxes[n] in taxes && taxes[0] in taxes;
      RoundedIsHalfUp(base, taxes[n].rate);
      AddedTaxIs(base, taxes[..n]);
      AddedAppends(base, taxes[..n], taxes[n]);
      assert taxes == taxes[..n] + [taxes[n]];
    }
  }

  lemma {:induction false} AddedAppends(base: int, taxes: seq<TaxRule>, t: TaxRule)
    ensures AddedTax(base, taxes + [t]) == AddedTax(base, taxes) + if t.inclusive then 0 else Rounded(base, t.rate)
    decreases |taxes|
  {
    hide Rounded;
    if taxes == [] {
      assert taxes + [t] == [t] && [t][1..] == [];
    } else {
      assert (taxes + [t])[1..] == taxes[1..] + [t];
      AddedAppends(base, taxes[1..], t);
    }
  }

  /**
   What is taxed is the sum of the discounted lines plus the shipping still charged; the grand total adds the tax to it.
   */
  lemma QuoteAddsUp(cart: seq<CartLine>, quoted: Minor, rules: seq<Rule>, taxes: seq<TaxRule>)
    requires SensibleCart(cart) && quoted >= 0 && forall r :: r in rules ==> Sensible(r)
    requires forall t :: t in taxes ==> t.rate >= 0
    requires CartTotal(cart) + quoted <= MAX_SAFE
    ensures var q := Calculate(cart, quoted, rules, taxes);
      var base := LineSum(q.lines) + q.shippingTotal;
      && q.subtotal == CartTotal(cart)
      && q.taxTotal == AddedTax(base, taxes)
      && q.grandTotal == base + q.taxTotal
      && |q.lines| == |cart|
  {
    hide ApplyRules, SumTotal, TaxTotal, ListPrice, SumSubtotal, SumDiscount;
    QuoteIsBounded(cart, quoted, rules, taxes);
    var q := Calculate(cart, quoted, rules, taxes);
    LineSumIs(q.lines);
    SubtotalIsCartTotal(cart);
    QuoteFacts(cart, quoted, rules, taxes);
    AddedTaxIs(SumTotal(q.lines) + q.shippingTotal, taxes);
  }

  lemma QuoteFacts(cart: seq<CartLine>, quoted: Minor, rules: seq<Rule>, taxes: seq<TaxRule>)
    requires SensibleCart(cart) && quoted >= 0 && forall r :: r in rules ==> Sensible(r)
    ensures var q := Calculate(cart, quoted, rules, taxes);
      && q.subtotal == SumSubtotal(ListLines(cart)) && |q.lines| == |cart|
      && q.taxTotal == TaxTotal(SumTotal(q.lines) + q.shippingTotal, taxes)
      && 0 <= SumTotal(q.lines) <= q.subtotal
  {
    hide SumTotal, TaxTotal, SumSubtotal, SumDiscount, ApplyRules;
    var p0 := ListPrice(cart, quoted);
    ListPriceBalances(cart, quoted);
    RulesBalance(p0, rules, quoted);
    TotalsExplained(ApplyRules(p0, rules).lines);
    FloorIsIdle(ApplyRules(p0, rules).lines);
    RulesKeep(p0, rules);
  }
}
