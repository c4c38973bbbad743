/** A budget signal that is retried only after other calls: exactly when it still lands on its target. */
module AuroraInterleaved {
  import opened Values
  import opened Rounding
  import opened AuroraTopUp
  import opened AuroraRuns

  // ---------------------------------------------------------------------------------------------
  // A retry from any graph that holds the first rows of its signal
  // ---------------------------------------------------------------------------------------------

  /** The graph holds the rows 1..i of the signal, at `p` pence each, and no other row of it. */
  ghost predicate Stopped(g: Graph, s: Signal, i: nat, p: int) {
    && (forall j | 1 <= j <= i :: Row(s, j) in g.money && g.money[Row(s, j)] == p as real)
    && (forall j | i < j <= ROWS :: Row(s, j) !in g.money)
  }

  /** What the rows 1..i came to. */
  function Own(i: nat, p: int): int {
    if i == 0 then 0 else Own(i - 1, p) + p
  }

  lemma {:induction false} StoppedTotal(g: Graph, s: Signal, i: nat, p: int, n: nat)
    requires Stopped(g, s, i, p) && n <= ROWS
    ensures ExistingUpTo(g, s, n) == Own(if n < i then n else i, p) as real
  {
    if n == 0 {
    } else {
      StoppedTotal(g, s, i, p, n - 1);
    }
  }

  lemma {:induction false} PlannedRest(g: Graph, s: Signal, i: nat, p: int, plan: seq<int>, n: nat)
    requires Stopped(g, s, i, p) && |plan| == ROWS && i <= n <= ROWS
    ensures Planned(g, s, plan, n) == Total(plan, n) - Total(plan, i)
  {
    if n == i {
      NothingMissing(g, s, plan, i);
    } else {
      PlannedRest(g, s, i, p, plan, n - 1);
    }
  }

  function Total(plan: seq<int>, n: nat): int
    requires n <= |plan|
  {
    if n == 0 then 0 else Total(plan, n - 1) + plan[n - 1]
  }

  lemma {:induction false} FirstRowsAlike(gap: real, i: nat)
    requires i < ROWS && gap > 0.0
    ensures Total(Plan(gap), i) == Own(i, PerRow(gap))
  {
    if i == 0 {
    } else {
      FirstRowsAlike(gap, i - 1);
    }
  }

  lemma PlanTotal(gap: real)
    requires gap > 0.0
    ensures Total(Plan(gap), ROWS) == HalfEven(gap)
  {
    var plan := Plan(gap);
    assert Total(plan, 1) == plan[0];
    assert Total(plan, 2) == plan[0] + plan[1];
    assert Total(plan, 3) == plan[0] + plan[1] + plan[2];
    assert Total(plan, 4) == plan[0] + plan[1] + plan[2] + plan[3];
    RowsSumToRoundedGap(gap);
  }

  /** What a retry that finds the first `i` rows spends: it replaces nothing, so the old rows keep the
      amount they were planned with and the remaining ones get the amounts of the new gap. */
  lemma RetrySpend(g: Graph, s: Signal, i: nat, p: int)
    requires WellFormed(g) && Accepted(g, s) && i < ROWS && Stopped(g, s, i, p)
    ensures Spend(TopUp(g, s), s.brand) == Spend(g, s.brand)
      + (if Gap(g, s) > 0.0 then (HalfEven(Gap(g, s)) - Own(i, PerRow(Gap(g, s)))) as real else 0.0)
    ensures Original(g, s) == Max(0.0, Spend(g, s.brand) - Own(i, p) as real)
  {
    PlannedSpend(g, s, s.brand);
    StoppedTotal(g, s, i, p, ROWS);
    var gap := Gap(g, s);
    if gap > 0.0 {
      PlannedRest(g, s, i, p, Plan(gap), ROWS);
      PlanTotal(gap);
      FirstRowsAlike(gap, i);
    } else {
      NoPlan(g, s, ROWS);
    }
  }

  /** The new gap is half a penny off a whole number of pence, and rounding it made up for a single row
      that was planned one penny higher or lower. */
  predicate RoundingMakesUp(i: nat, p: int, gap: real) {
    && i == 1
    && ((p == PerRow(gap) + 1 && HalfEven(gap) as real == gap - 0.5)
        || (p == PerRow(gap) - 1 && HalfEven(gap) as real == gap + 0.5))
  }

  /** A retry that still has a gap to fill ends within half a penny of its target exactly when the amount
      per row has not changed since the first attempt, or rounding happens to make up for the change. */
  lemma RetryLandsExactly(g: Graph, s: Signal, i: nat, p: int)
    requires WellFormed(g) && Accepted(g, s) && 1 <= i < ROWS && Stopped(g, s, i, p)
    requires Spend(g, s.brand) >= Own(i, p) as real && Gap(g, s) > 0.0
    ensures Spend(TopUp(g, s), s.brand)
         == Target(g, s) + (HalfEven(Gap(g, s)) as real - Gap(g, s)) + Own(i, p - PerRow(Gap(g, s))) as real
    ensures WithinHalfPenny(Spend(TopUp(g, s), s.brand), Target(g, s))
       <==> p == PerRow(Gap(g, s)) || RoundingMakesUp(i, p, Gap(g, s))
  {
    var gap := Gap(g, s);
    RetrySpend(g, s, i, p);
    OwnDifference(i, p, PerRow(gap));
    OwnSize(i, p - PerRow(gap));
    assert IsHalfEven(gap, HalfEven(gap));
  }

  lemma {:induction false} OwnDifference(i: nat, p: int, q: int)
    ensures Own(i, p) - Own(i, q) == Own(i, p - q)
  {
    if i == 0 {
    } else {
      OwnDifference(i - 1, p, q);
    }
  }

  lemma {:induction false} OwnSize(i: nat, d: int)
    ensures d == 0 || i == 0 ==> Own(i, d) == 0
    ensures i == 1 ==> Own(i, d) == d
    ensures d > 0 && i >= 2 ==> Own(i, d) >= 2
    ensures d < 0 && i >= 2 ==> Own(i, d) <= -2
  {
    if i == 0 {
    } else {
      OwnSize(i - 1, d);
    }
  }

  // ---------------------------------------------------------------------------------------------
  // Any other calls between the crash and the retry
  // ---------------------------------------------------------------------------------------------

  lemma StepKeepsRows(g: Graph, a: Attempt, s: Signal)
    requires WellFormed(g) && a.s != s
    ensures WellFormed(Step(g, a)) && Step(g, a).brands == g.brands
    ensures forall i: nat :: (Row(s, i) in Step(g, a).money <==> Row(s, i) in g.money)
                             && (Row(s, i) in g.money ==> Step(g, a).money[Row(s, i)] == g.money[Row(s, i)])
  {
    var k := Stop(g, a);
    StepIsPrefix(g, a);
    CrashedWellFormed(g, a.s, k);
    WritesOwned(g, a.s, k);
    OwnedMoney(g, a.s, Writes(g, a.s)[..k]);
    AppliedParts(g, Writes(g, a.s)[..k]);
  }

  /** Whatever other signals do, on any brand, stopping anywhere, the rows of this one stay. */
  lemma {:induction false} OthersKeepRows(g: Graph, h: seq<Attempt>, s: Signal, i: nat, p: int)
    requires WellFormed(g) && Stopped(g, s, i, p) && forall a <- h :: a.s != s
    ensures WellFormed(Run(g, h)) && Run(g, h).brands == g.brands && Stopped(Run(g, h), s, i, p)
    decreases |h|
  {
    if h == [] {
    } else {
      assert h[0] in h;
      StepKeepsRows(g, h[0], s);
      OthersKeepRows(Step(g, h[0]), h[1..], s, i, p);
    }
  }

  /** A first attempt that stops after `i` rows. */
  ghost function StopAfter(g: Graph, s: Signal, i: nat): Attempt
    requires i <= ROWS
  {
    Interrupted(s, |WritesUpTo(g, s, PlanFor(g, s), i)|)
  }

  lemma {:induction false} FilledAmounts(g: Graph, s: Signal, plan: seq<int>, n: nat, j: nat)
    requires 1 <= j <= n <= |plan| && forall i | 1 <= i <= n :: Row(s, i) !in g.money
    ensures Row(s, j) in Filled(g, s, plan, n).money && Filled(g, s, plan, n).money[Row(s, j)] == plan[j - 1] as real
  {
    if j == n {
    } else {
      FilledAmounts(g, s, plan, n - 1, j);
    }
  }

  lemma {:induction false} FlatGrows<T>(blocks: seq<seq<T>>, i: nat, n: nat)
    requires i <= n <= |blocks|
    ensures Flat(blocks, i) <= Flat(blocks, n)
  {
    if i == n {
    } else {
      FlatGrows(blocks, i, n - 1);
    }
  }

  lemma StopIsFilled(g: Graph, s: Signal, i: nat)
    requires WellFormed(g) && i <= ROWS
    ensures Step(g, StopAfter(g, s, i)) == Filled(g, s, PlanFor(g, s), i)
  {
    var plan := PlanFor(g, s);
    hide PlanFor, Filled, ApplyAll, Block, Flat;
    FlatGrows(Blocks(g, s, plan), i, ROWS);
    assert Writes(g, s)[..|WritesUpTo(g, s, plan, i)|] == WritesUpTo(g, s, plan, i);
    AppliedIsFilled(g, s, plan, i);
  }

  lemma FilledIsStopped(g: Graph, s: Signal, plan: seq<int>, i: nat, p: int)
    requires i < ROWS && |plan| == ROWS && forall j | 0 <= j < i :: plan[j] == p
    requires forall j | 1 <= j <= ROWS :: Row(s, j) !in g.money
    ensures Stopped(Filled(g, s, plan, i), s, i, p)
  {
    hide Filled;
    forall j | 1 <= j <= ROWS ensures Row(s, j) in Filled(g, s, plan, i).money <==> j <= i {
      FilledRows(g, s, plan, i, j);
    }
    forall j | 1 <= j <= i ensures Filled(g, s, plan, i).money[Row(s, j)] == p as real {
      FilledAmounts(g, s, plan, i, j);
    }
  }

  lemma StoppedAfterRows(g: Graph, s: Signal, i: nat)
    requires WellFormed(g) && Accepted(g, s) && Gap(g, s) > 0.0 && i < ROWS
    requires forall j | 1 <= j <= ROWS :: Row(s, j) !in g.money
    ensures var c := Step(g, StopAfter(g, s, i));
      WellFormed(c) && c.brands == g.brands && Stopped(c, s, i, PerRow(Gap(g, s)))
  {
    var plan, p := PlanFor(g, s), PerRow(Gap(g, s));
    assert |plan| == ROWS && forall j | 0 <= j < i :: plan[j] == p;
    hide PlanFor, Filled, Step, PerRow, Gap, Stopped;
    StopIsFilled(g, s, i);
    FilledFrame(g, s, plan, i);
    FilledIsStopped(g, s, plan, i, p);
  }

  lemma OwnNonNegative(g: Graph, s: Signal, i: nat)
    requires Accepted(g, s) && Gap(g, s) > 0.0
    ensures Own(i, PerRow(Gap(g, s))) >= 0
  {
    HalfEvenMonotone(0.0, Gap(g, s) / 5.0);
    HalfEvenInteger(0);
    OwnSize(i, PerRow(Gap(g, s)));
  }

  lemma PositiveTarget(g: Graph, s: Signal)
    requires Accepted(g, s)
    ensures Target(g, s) > 0.0
  {
    TargetBounds(Budget(g, s.brand), s.target);
  }

  lemma NoGapLeft(g: Graph, s: Signal, i: nat, p: int)
    requires WellFormed(g) && Accepted(g, s) && i < ROWS && Stopped(g, s, i, p) && Own(i, p) >= 0
    requires Gap(g, s) == 0.0
    ensures Spend(TopUp(g, s), s.brand) == Spend(g, s.brand)
    ensures WithinHalfPenny(Spend(TopUp(g, s), s.brand), Target(g, s)) <==> Spend(g, s.brand) <= Target(g, s) + 0.5
  {
    RetrySpend(g, s, i, p);
    PositiveTarget(g, s);
    hide TopUp, Spend, Stopped, Target;
  }

  /** A signal stops after `i` of its rows, any other calls run, and the signal is retried.  With a gap left
      to fill it lands on its target exactly when those calls left the amount per row as it was, or
      rounding happens to make up for the change; with none left it writes nothing, and has landed exactly
      when the spend is no more than half a penny over the target. */
  lemma InterleavedRetryExactly(g: Graph, s: Signal, i: nat, h: seq<Attempt>)
    requires WellFormed(g) && Accepted(g, s) && Gap(g, s) > 0.0 && 1 <= i < ROWS
    requires forall j | 1 <= j <= ROWS :: Row(s, j) !in g.money
    requires forall a <- h :: a.s != s
    ensures var now, p := Run(Step(g, StopAfter(g, s, i)), h), PerRow(Gap(g, s));
      && WellFormed(now) && Accepted(now, s) && Target(now, s) == Target(g, s)
      && (Spend(now, s.brand) >= Own(i, p) as real && Gap(now, s) > 0.0 ==>
            (WithinHalfPenny(Spend(TopUp(now, s), s.brand), Target(g, s))
             <==> PerRow(Gap(now, s)) == p || RoundingMakesUp(i, p, Gap(now, s))))
      && (Gap(now, s) == 0.0 ==>
            && Spend(TopUp(now, s), s.brand) == Spend(now, s.brand)
            && (WithinHalfPenny(Spend(TopUp(now, s), s.brand), Target(g, s))
                <==> Spend(now, s.brand) <= Target(g, s) + 0.5))
  {
    var c, p := Step(g, StopAfter(g, s, i)), PerRow(Gap(g, s));
    var now := Run(c, h);
    StoppedAfterRows(g, s, i);
    OthersKeepRows(c, h, s, i, p);
    SameTarget(g, now, s);
    OwnNonNegative(g, s, i);
    hide TopUp, Spend, Run, Step, Stopped, Gap, PerRow, Own;
    if Gap(now, s) == 0.0 {
      NoGapLeft(now, s, i, p);
    } else if Spend(now, s.brand) >= Own(i, p) as real && Gap(now, s) > 0.0 {
      RetryLandsExactly(now, s, i, p);
    }
  }

  // ---------------------------------------------------------------------------------------------
  // A run that overshoots
  // ---------------------------------------------------------------------------------------------

  const SAMPLE := Graph(map["B" := Brand(None, Some(10000.0))], map[], {}, None, None)

  lemma SamplePlan(a: Signal)
    requires a.brand == "B" && a.target == 1.0
    ensures WellFormed(SAMPLE) && Accepted(SAMPLE, a) && Target(SAMPLE, a) == 10000.0
    ensures Gap(SAMPLE, a) == 10000.0 && PerRow(10000.0) == 2000 && Spend(SAMPLE, "B") == 0.0
  {
    assert Costed(SAMPLE, "B") == {};
    NothingExisting(SAMPLE, a, ROWS);
    HalfEvenInteger(2000);
  }

  /** Two rows land, then the process stops: 4000 of the 10000 pence are spent. */
  lemma SampleFirst(a: Signal, c: Graph)
    requires a.brand == "B" && a.target == 1.0 && c == Step(SAMPLE, StopAfter(SAMPLE, a, 2))
    ensures WellFormed(c) && c.brands == SAMPLE.brands && Stopped(c, a, 2, 2000) && Spend(c, "B") == 4000.0
    ensures forall t: Signal | t != a :: Stopped(c, t, 0, 0)
  {
    SamplePlan(a);
    var plan := PlanFor(SAMPLE, a);
    assert plan[0] == plan[1] == 2000;
    hide Step, StopAfter, Filled, PlanFor;
    StoppedAfterRows(SAMPLE, a, 2);
    StopIsFilled(SAMPLE, a, 2);
    FilledFrame(SAMPLE, a, plan, 2);
    FilledSpend(SAMPLE, a, plan, 2, "B");
    PlannedTwo(SAMPLE, a, plan);
  }

  lemma PlannedTwo(g: Graph, s: Signal, plan: seq<int>)
    requires |plan| >= 2 && Row(s, 1) !in g.money && Row(s, 2) !in g.money
    ensures Planned(g, s, plan, 2) == plan[0] + plan[1]
  {
    assert Planned(g, s, plan, 1) == plan[0];
  }

  lemma SampleTarget(g: Graph, s: Signal)
    requires g.brands == SAMPLE.brands && s.brand == "B" && s.target == 1.0
    ensures Accepted(g, s) && Target(g, s) == 10000.0
  {
    SamplePlan(s);
    SameTarget(SAMPLE, g, s);
  }

  /** Another workflow that tops the brand up between the crash and the retry makes the retry
      overshoot: a target of 10000 pence ends at 12400. */
  lemma InterleavedRetryOvershoots(a: Signal, b: Signal)
    requires a.brand == b.brand == "B" && a.target == b.target == 1.0 && a != b
    ensures Accepted(SAMPLE, a) && Accepted(SAMPLE, b) && Target(SAMPLE, a) == Target(SAMPLE, b) == 10000.0
    ensures Settled(SAMPLE)
    ensures Spend(Run(SAMPLE, [StopAfter(SAMPLE, a, 2), Complete(b), Complete(a)]), "B") == 12400.0
  {
    SamplePlan(a);
    SamplePlan(b);
    var c := Step(SAMPLE, StopAfter(SAMPLE, a, 2));
    SampleFirst(a, c);
    var now := Step(c, Complete(b));
    RunThree(SAMPLE, StopAfter(SAMPLE, a, 2), Complete(b), Complete(a));
    SampleSecond(c, a, b, now);
    SampleThird(now, a);
  }

  /** The other workflow sees 4000 pence of spend that are not its own and adds the missing 6000. */
  lemma SampleSecond(c: Graph, a: Signal, b: Signal, now: Graph)
    requires a != b && b.brand == "B" && b.target == 1.0 && now == Step(c, Complete(b))
    requires WellFormed(c) && c.brands == SAMPLE.brands && Spend(c, "B") == 4000.0
    requires Stopped(c, a, 2, 2000) && Stopped(c, b, 0, 0)
    ensures WellFormed(now) && now.brands == SAMPLE.brands && Stopped(now, a, 2, 2000) && Spend(now, "B") == 10000.0
  {
    SampleTarget(c, b);
    RetrySpend(c, b, 0, 0);
    HalfEvenInteger(6000);
    hide Spend, Stopped, WellFormed;
    StepKeepsRows(c, Complete(b), a);
    SameRows(c, now, a, 2, 2000);
  }

  lemma SameRows(g: Graph, h: Graph, s: Signal, i: nat, p: int)
    requires Stopped(g, s, i, p)
    requires forall j: nat :: (Row(s, j) in h.money <==> Row(s, j) in g.money)
                              && (Row(s, j) in g.money ==> h.money[Row(s, j)] == g.money[Row(s, j)])
    ensures Stopped(h, s, i, p)
  {
  }

  /** The retry discounts its own 4000 pence, so it adds three more rows of a 4000 pence gap. */
  lemma SampleThird(now: Graph, a: Signal)
    requires a.brand == "B" && a.target == 1.0 && WellFormed(now) && now.brands == SAMPLE.brands
    requires Stopped(now, a, 2, 2000) && Spend(now, "B") == 10000.0
    ensures Spend(Step(now, Complete(a)), "B") == 12400.0
  {
    SampleTarget(now, a);
    assert Own(1, 2000) == 2000 && Own(2, 2000) == 4000;
    RetrySpend(now, a, 2, 2000);
    HalfEvenInteger(4000);
    HalfEvenInteger(800);
    assert Own(1, 800) == 800 && Own(2, 800) == 1600;
  }

  lemma RunThree(g: Graph, a: Attempt, b: Attempt, c: Attempt)
    ensures Run(g, [a, b, c]) == Step(Step(Step(g, a), b), c)
  {
    assert [a, b, c][1..] == [b, c] && [b, c][1..] == [c] && [c][1..] == [];
    assert Run(g, [a, b, c]) == Run(Step(g, a), [b, c]);
    assert Run(Step(g, a), [b, c]) == Run(Step(Step(g, a), b), [c]);
  }
}
