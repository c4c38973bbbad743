/** What one budget signal returns and leaves behind, stated on the graphs before and after the call. */
module AuroraReport {
  import opened Values
  import opened Rounding
  import opened AuroraTopUp
  import opened AuroraRuns

  /** The signal is refused exactly when its target is out of range, its brand unknown or its brand's
      budget missing or not positive, with the first of these as the reason. */
  lemma RefusedExactly(g: Graph, s: Signal)
    ensures Observe(g, s) == Refused(BadTarget) <==> s.target <= 0.0 || 2.0 < s.target
    ensures Observe(g, s) == Refused(BrandNotFound) <==> 0.0 < s.target <= 2.0 && s.brand !in g.brands
    ensures Observe(g, s) == Refused(NoBudget) <==>
      && 0.0 < s.target <= 2.0 && s.brand in g.brands
      && (g.brands[s.brand].budget.Some? ==> g.brands[s.brand].budget.value <= 0.0)
    ensures Observe(g, s).Refused? ==> TopUp(g, s) == g
  {
    hide HalfEven, Gap, Original, Spend;
    if !Accepted(g, s) { NoWrites(g, s, ROWS); }
  }

  /** The amount of one of the signal's rows, nothing when the row is missing. */
  function OwnRow(g: Graph, s: Signal, i: nat): real {
    if Row(s, i) in g.money then g.money[Row(s, i)] else 0.0
  }

  /** What the brand had spent without the signal's own five rows. */
  ghost function WithoutOwnRows(g: Graph, s: Signal): real {
    Spend(g, s.brand) - OwnRow(g, s, 1) - OwnRow(g, s, 2) - OwnRow(g, s, 3) - OwnRow(g, s, 4) - OwnRow(g, s, 5)
  }

  predicate IsClamped(x: real, r: real) { r == if x < 0.0 then 0.0 else x }

  lemma OriginalMeaning(g: Graph, s: Signal)
    ensures IsClamped(WithoutOwnRows(g, s), Original(g, s))
  {
    assert ExistingUpTo(g, s, 1) == OwnRow(g, s, 1);
    assert ExistingUpTo(g, s, 2) == ExistingUpTo(g, s, 1) + OwnRow(g, s, 2);
    assert ExistingUpTo(g, s, 3) == ExistingUpTo(g, s, 2) + OwnRow(g, s, 3);
    assert ExistingUpTo(g, s, 4) == ExistingUpTo(g, s, 3) + OwnRow(g, s, 4);
    assert ExistingUpTo(g, s, 5) == ExistingUpTo(g, s, 4) + OwnRow(g, s, 5);
  }

  /** The report's figures: both spends, both shares of the budget and the gap between the target and the
      spend before, each rounded to the nearest unit. */
  ghost predicate Reports(g: Graph, s: Signal, r: Report, budget: real, before: real, gap: real) {
    var after := Spend(TopUp(g, s), s.brand);
    && r.signal == s && r.budget == budget
    && IsHalfEven(before, r.beforeSpend) && IsHalfEven(after, r.afterSpend)
    && budget > 0.0
    && IsHalfEven(10000.0 * before / budget, r.beforePct) && IsHalfEven(10000.0 * after / budget, r.afterPct)
    && IsHalfEven(gap, r.gapFilled)
    && r.moneyIds == if gap > 0.0 then [Row(s, 1), Row(s, 2), Row(s, 3), Row(s, 4), Row(s, 5)] else []
  }

  /** The figures before rounding. */
  lemma ReportFigures(g: Graph, s: Signal, r: Report)
    requires Observe(g, s) == Observed(r)
    ensures Accepted(g, s) && Budget(g, s.brand) > 0.0
    ensures var budget, before, after := Budget(g, s.brand), Original(g, s), Spend(TopUp(g, s), s.brand);
      && r.signal == s && r.budget == budget && r.gapFilled == HalfEven(Gap(g, s))
      && r.beforeSpend == HalfEven(before) && r.beforePct == HalfEven(10000.0 * before / budget)
      && r.afterSpend == HalfEven(after) && r.afterPct == HalfEven(10000.0 * after / budget)
      && r.moneyIds == if Gap(g, s) > 0.0 then RowIds(s) else []
  {
    hide HalfEven, IsHalfEven, Original, Gap, Spend, TopUp;
  }

  lemma GapMeaning(g: Graph, s: Signal)
    requires Accepted(g, s)
    ensures s.brand in g.brands && g.brands[s.brand].budget == Some(Budget(g, s.brand))
    ensures IsClamped(g.brands[s.brand].budget.value * s.target - Original(g, s), Gap(g, s))
  {
    hide Original;
    var gap, goal := Gap(g, s), Target(g, s);
    assert IsClamped(goal - Original(g, s), gap);
  }

  /** Every accepted signal reports the brand's clamped spend without its own rows, the spend of the graph
      it leaves, and the gap up to its target. */
  lemma ReportMeaning(g: Graph, s: Signal) returns (before: real, gap: real)
    requires Observe(g, s).Observed?
    ensures IsClamped(WithoutOwnRows(g, s), before)
    ensures s.brand in g.brands && g.brands[s.brand].budget.Some?
    ensures IsClamped(g.brands[s.brand].budget.value * s.target - before, gap)
    ensures Reports(g, s, Observe(g, s).report, g.brands[s.brand].budget.value, before, gap)
  {
    before, gap := Original(g, s), Gap(g, s);
    OriginalMeaning(g, s);
    hide HalfEven, IsHalfEven, IsClamped, Accepted, Budget, Original, Gap, Observe, WithoutOwnRows, Spend, TopUp;
    ReportFigures(g, s, Observe(g, s).report);
    GapMeaning(g, s);
    assert RowIds(s) == [Row(s, 1), Row(s, 2), Row(s, 3), Row(s, 4), Row(s, 5)];
  }

  /** A brand without a name, or with an empty one, is reported under its id. */
  lemma ReportedName(g: Graph, s: Signal)
    requires Observe(g, s).Observed?
    ensures s.brand in g.brands
    ensures Observe(g, s).report.brandName
         == if g.brands[s.brand].name in {None, Some("")} then s.brand else g.brands[s.brand].name.value
  {
    hide HalfEven, IsHalfEven, Original, Gap, Spend, TopUp;
  }

  // ---------------------------------------------------------------------------------------------
  // A signal that finds none of its rows
  // ---------------------------------------------------------------------------------------------

  ghost predicate Fresh(g: Graph, s: Signal) {
    forall i | 1 <= i <= 5 :: Row(s, i) !in g.money
  }

  /** The links a row of the signal should have: to its brand, to the account and the period there are. */
  predicate Belongs(g: Graph, s: Signal, l: Link) {
    match l
    case CostedToBrand(_, brand) => brand == s.brand
    case BookedAgainst(_, account) => g.account == Some(account)
    case BelongsTo(_, period) => g.period == Some(period)
  }

  lemma RowLinksMeaning(g: Graph, s: Signal, i: nat, l: Link)
    ensures l in RowLinks(g, s, i) <==> l.money == Row(s, i) && Belongs(g, s, l)
  {}

  lemma FillRowLinks(g: Graph, h: Graph, s: Signal, plan: seq<int>, n: nat, l: Link)
    requires g.account == h.account && g.period == h.period && n >= 1 && Row(s, n) !in g.money
    ensures l in FillRow(g, h, s, plan, n).links
       <==> l in h.links || (n <= |plan| && l.money == Row(s, n) && Belongs(g, s, l))
  {
    RowLinksMeaning(h, s, n, l);
  }

  lemma OtherRowLinks(g: Graph, h: Graph, s: Signal, plan: seq<int>, n: nat, l: Link)
    requires l.money != Row(s, n)
    ensures l in FillRow(g, h, s, plan, n).links <==> l in h.links
  {
    RowLinksMeaning(h, s, n, l);
  }

  lemma {:induction false} FilledLinks(g: Graph, s: Signal, plan: seq<int>, n: nat, l: Link)
    requires WellFormed(g) && l.money.Row? && l.money.signal == s && l.money !in g.money
    ensures l in Filled(g, s, plan, n).links
       <==> 1 <= l.money.index <= n && l.money.index <= |plan| && Belongs(g, s, l)
  {
    if n == 0 {
    } else {
      hide FillRow, Belongs;
      var h := Filled(g, s, plan, n - 1);
      FilledLinks(g, s, plan, n - 1, l);
      FilledFrame(g, s, plan, n - 1);
      if l.money == Row(s, n) {
        FillRowLinks(g, h, s, plan, n, l);
      } else {
        OtherRowLinks(g, h, s, plan, n, l);
      }
    }
  }

  lemma {:induction false} FilledAmount(g: Graph, s: Signal, plan: seq<int>, n: nat, i: nat)
    requires 1 <= i <= n && i <= |plan| && Row(s, i) !in g.money
    ensures Row(s, i) in Filled(g, s, plan, n).money
    ensures Filled(g, s, plan, n).money[Row(s, i)] == plan[i - 1] as real
  {
    if n == i {
    } else {
      FilledAmount(g, s, plan, n - 1, i);
    }
  }

  /** A fresh signal leaves five rows when there is a gap and none otherwise; each is linked to the brand,
      the account and the period, and to nothing else. */
  lemma RowsLeft(g: Graph, s: Signal, i: nat)
    requires WellFormed(g) && Fresh(g, s) && Observe(g, s).Observed?
    ensures Row(s, i) in TopUp(g, s).money <==>
      Row(s, i) in g.money || (1 <= i <= 5 && Observe(g, s).report.moneyIds != [])
    ensures forall l: Link | l.money == Row(s, i) && 1 <= i <= 5 && Observe(g, s).report.moneyIds != [] ::
      l in TopUp(g, s).links <==> Belongs(g, s, l)
  {
    var plan := PlanFor(g, s);
    var _, _ := ReportMeaning(g, s);
    TopUpIsFilled(g, s);
    FilledRows(g, s, plan, ROWS, i);
    forall l: Link | l.money == Row(s, i) && 1 <= i <= 5 ensures
      l in Filled(g, s, plan, ROWS).links <==> i <= |plan| && Belongs(g, s, l)
    {
      FilledLinks(g, s, plan, ROWS, l);
    }
  }

  lemma FreshSpend(g: Graph, s: Signal)
    requires WellFormed(g) && Fresh(g, s) && Accepted(g, s)
    ensures Spend(TopUp(g, s), s.brand)
         == Spend(g, s.brand) + (if Gap(g, s) > 0.0 then HalfEven(Gap(g, s)) as real else 0.0)
  {
    var plan := PlanFor(g, s);
    TopUpIsFilled(g, s);
    FilledSpend(g, s, plan, ROWS, s.brand);
    FreshPlan(g, s, Gap(g, s));
  }

  lemma FreshRowsSum(g: Graph, s: Signal)
    requires WellFormed(g) && Fresh(g, s) && Accepted(g, s) && Gap(g, s) > 0.0
    ensures var h := TopUp(g, s);
      OwnRow(h, s, 1) + OwnRow(h, s, 2) + OwnRow(h, s, 3) + OwnRow(h, s, 4) + OwnRow(h, s, 5)
      == HalfEven(Gap(g, s)) as real
    ensures forall i | 1 <= i <= 4 :: OwnRow(TopUp(g, s), s, i) == HalfEven(Gap(g, s) / 5.0) as real
  {
    var plan, gap := PlanFor(g, s), Gap(g, s);
    TopUpIsFilled(g, s);
    forall i | 1 <= i <= 5 ensures OwnRow(TopUp(g, s), s, i) == Amount(gap, i) as real {
      FilledAmount(g, s, plan, ROWS, i);
    }
    RowsSumToRoundedGap(gap);
  }

  /** What a fresh signal reports as filled is the sum of the rows it leaves, the first four of them the
      rounded fifth of the gap, and moves the reported spend by that amount to within a penny. */
  lemma FreshReport(g: Graph, s: Signal)
    requires WellFormed(g) && Fresh(g, s) && Observe(g, s).Observed?
    ensures var r, h := Observe(g, s).report, TopUp(g, s);
      && OwnRow(h, s, 1) + OwnRow(h, s, 2) + OwnRow(h, s, 3) + OwnRow(h, s, 4) + OwnRow(h, s, 5)
         == r.gapFilled as real
      && OwnRow(h, s, 1) == OwnRow(h, s, 2) == OwnRow(h, s, 3) == OwnRow(h, s, 4)
      && Spend(h, s.brand) == Spend(g, s.brand) + r.gapFilled as real
      && (Spend(g, s.brand) >= 0.0 ==> -1 <= r.afterSpend - r.beforeSpend - r.gapFilled <= 1)
  {
    var before, gap := ReportMeaning(g, s);
    FreshSpend(g, s);
    OriginalMeaning(g, s);
    if Gap(g, s) > 0.0 {
      FreshRowsSum(g, s);
    } else {
      HalfEvenInteger(0);
      forall i | 1 <= i <= 5 ensures OwnRow(TopUp(g, s), s, i) == 0.0 { RowsLeft(g, s, i); }
    }
  }
}
