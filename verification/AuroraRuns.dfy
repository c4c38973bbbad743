/** Whole runs of the Aurora budget signal: any number of workflows, targets, retries and crashes. */
module AuroraRuns {
  import opened Values
  import opened Rounding
  import opened AuroraTopUp

  /** One call: it runs to its end, or the process stops once `after` of its writes have landed. */
  datatype Attempt = Complete(s: Signal) | Interrupted(s: Signal, after: nat)

  ghost function Step(g: Graph, a: Attempt): Graph {
    if a.Interrupted? && a.after <= |Writes(g, a.s)| then Crashed(g, a.s, a.after) else TopUp(g, a.s)
  }

  ghost function Run(g: Graph, h: seq<Attempt>): Graph
    decreases |h|
  {
    if h == [] then g else Run(Step(g, h[0]), h[1..])
  }

  /** A graph between calls: every signal has none of its rows or all five, each with its links. */
  ghost predicate Settled(g: Graph) {
    && WellFormed(g)
    && (forall s: Signal :: NoTornRow(g, s))
    && (forall s: Signal, i, j | 1 <= i <= ROWS && 1 <= j <= ROWS :: Row(s, i) in g.money ==> Row(s, j) in g.money)
  }

  lemma TopUpSettled(g: Graph, s: Signal)
    requires Settled(g)
    ensures Settled(TopUp(g, s)) && TopUp(g, s).brands == g.brands
  {
    var h, plan := TopUp(g, s), PlanFor(g, s);
    TopUpIsFilled(g, s);
    FilledFrame(g, s, plan, ROWS);
    forall t: Signal ensures NoTornRow(h, t) {
      forall i | 1 <= i <= ROWS ensures Whole(h, t, i) {
        assert Whole(g, t, i) by { assert NoTornRow(g, t); }
        if t == s { FilledWhole(g, s, plan, ROWS, i); } else { assert RowLinks(h, t, i) == RowLinks(g, t, i); }
      }
    }
    forall t: Signal, i, j | 1 <= i <= ROWS && 1 <= j <= ROWS && Row(t, i) in h.money ensures Row(t, j) in h.money {
      if t == s {
        FilledRows(g, s, plan, ROWS, i);
        FilledRows(g, s, plan, ROWS, j);
        assert plan == [] || |plan| == ROWS;
      }
    }
  }

  // ---------------------------------------------------------------------------------------------
  // Crashes that are retried leave no trace
  // ---------------------------------------------------------------------------------------------

  /** The next attempt on the signal's brand is this signal again. */
  predicate RetriedNext(s: Signal, h: seq<Attempt>) {
    h != [] && (if h[0].s.brand == s.brand then h[0].s == s else RetriedNext(s, h[1..]))
  }

  /** Every crash falls between two rows, and the brand's next call repeats the interrupted one; calls
      on other brands may come in between, crash and be retried in turn. */
  ghost predicate Disciplined(g: Graph, h: seq<Attempt>)
    decreases |h|
  {
    h != [] ==>
      && (h[0].Interrupted? ==> RetriedNext(h[0].s, h[1..]) && NoTornRow(Step(g, h[0]), h[0].s))
      && Disciplined(Step(g, h[0]), h[1..])
  }

  function WithoutCrashes(h: seq<Attempt>): seq<Attempt> {
    if h == [] then [] else (if h[0].Complete? then [h[0]] else []) + WithoutCrashes(h[1..])
  }

  /** Where a call stopped, capped at its last write. */
  ghost function Stop(g: Graph, a: Attempt): (k: nat)
    ensures k <= |Writes(g, a.s)|
  {
    if a.Interrupted? && a.after <= |Writes(g, a.s)| then a.after else |Writes(g, a.s)|
  }

  lemma StepIsPrefix(g: Graph, a: Attempt)
    ensures Step(g, a) == Crashed(g, a.s, Stop(g, a))
  {
    assert Writes(g, a.s)[..|Writes(g, a.s)|] == Writes(g, a.s);
  }

  /** A write of one signal: a new row of its own, or a link that starts from one, to its own brand. */
  predicate OwnWrite(g: Graph, s: Signal, w: Write) {
    match w
    case Upsert(id, _) => id.Row? && id.signal == s && id !in g.money
    case AddLink(l) => l.money.Row? && l.money.signal == s && (l.CostedToBrand? ==> l.brand == s.brand)
  }

  ghost predicate Owned(g: Graph, s: Signal, ws: seq<Write>) {
    forall w <- ws :: OwnWrite(g, s, w)
  }

  lemma {:induction false} FlatMembers<T>(blocks: seq<seq<T>>, n: nat, x: T)
    requires n <= |blocks| && x in Flat(blocks, n)
    ensures exists k :: 0 <= k < n && x in blocks[k]
  {
    if n == 0 || x in blocks[n - 1] {
    } else {
      FlatMembers(blocks, n - 1, x);
    }
  }

  lemma BlockOwned(g: Graph, s: Signal, plan: seq<int>, n: nat, w: Write)
    requires w in Block(g, s, plan, n)
    ensures OwnWrite(g, s, w)
  {
  }

  lemma WritesOwned(g: Graph, s: Signal, k: nat)
    requires k <= |Writes(g, s)|
    ensures Owned(g, s, Writes(g, s)[..k])
  {
    var plan := PlanFor(g, s);
    hide OwnWrite, PlanFor, Block, Flat;
    forall w | w in Writes(g, s)[..k] ensures OwnWrite(g, s, w) {
      var blocks := Blocks(g, s, plan);
      assert w in Flat(blocks, ROWS);
      FlatMembers(blocks, ROWS, w);
      var n :| 0 <= n < ROWS && w in blocks[n];
      BlockOwned(g, s, plan, n + 1, w);
    }
  }

  function MoneyOf(ws: seq<Write>): map<MoneyId, real> {
    if ws == [] then map[]
    else
      match ws[|ws| - 1]
      case Upsert(id, amount) => MoneyOf(ws[..|ws| - 1])[id := amount]
      case AddLink(_) => MoneyOf(ws[..|ws| - 1])
  }

  function LinksOf(ws: seq<Write>): set<Link> {
    set w | w in ws && w.AddLink? :: w.link
  }

  /** Applying writes adds their rows and their links. */
  lemma {:induction false} AppliedParts(g: Graph, ws: seq<Write>)
    ensures ApplyAll(g, ws) == g.(money := g.money + MoneyOf(ws), links := g.links + LinksOf(ws))
  {
    if ws == [] {
      assert g.money + map[] == g.money && g.links + {} == g.links;
    } else {
      var init, w := ws[..|ws| - 1], ws[|ws| - 1];
      AppliedParts(g, init);
      assert ws == init + [w];
      assert LinksOf(ws) == LinksOf(init) + (if w.AddLink? then {w.link} else {});
    }
  }

  lemma {:induction false} OwnedMoney(g: Graph, s: Signal, ws: seq<Write>)
    requires Owned(g, s, ws)
    ensures forall id <- MoneyOf(ws) :: id.Row? && id.signal == s && id !in g.money
  {
    if ws == [] {
    } else {
      var init, w := ws[..|ws| - 1], ws[|ws| - 1];
      assert ws == init + [w] && w in ws;
      OwnedMoney(g, s, init);
    }
  }

  /** What writes of another signal, on another brand, leave alone. */
  lemma ElsewhereUntouched(g: Graph, s: Signal, t: Signal, ws: seq<Write>)
    requires WellFormed(g) && Owned(g, s, ws) && s.brand != t.brand
    ensures var h := ApplyAll(g, ws);
      && h.brands == g.brands && h.account == g.account && h.period == g.period
      && Spend(h, t.brand) == Spend(g, t.brand)
      && forall i: nat :: (Row(t, i) in h.money <==> Row(t, i) in g.money)
                          && (Row(t, i) in g.money ==> h.money[Row(t, i)] == g.money[Row(t, i)])
  {
    var h := ApplyAll(g, ws);
    AppliedParts(g, ws);
    OwnedMoney(g, s, ws);
    assert Costed(h, t.brand) == Costed(g, t.brand);
    SumAgree(Costed(g, t.brand), g.money, h.money);
  }

  lemma {:induction false} SameExisting(g: Graph, h: Graph, t: Signal, n: nat)
    requires forall i: nat :: (Row(t, i) in h.money <==> Row(t, i) in g.money)
                              && (Row(t, i) in g.money ==> h.money[Row(t, i)] == g.money[Row(t, i)])
    ensures ExistingUpTo(h, t, n) == ExistingUpTo(g, t, n)
  {
    if n == 0 {
    } else {
      SameExisting(g, h, t, n - 1);
    }
  }

  /** A call plans the same writes before and after a call on another brand. */
  lemma SameWritesElsewhere(g: Graph, s: Signal, t: Signal, ws: seq<Write>)
    requires WellFormed(g) && Owned(g, s, ws) && s.brand != t.brand
    ensures Writes(ApplyAll(g, ws), t) == Writes(g, t)
  {
    var h := ApplyAll(g, ws);
    ElsewhereUntouched(g, s, t, ws);
    SameExisting(g, h, t, ROWS);
    SamePlan(g, h, t);
    var plan := PlanFor(g, t);
    forall k | 0 <= k < ROWS ensures Blocks(h, t, plan)[k] == Blocks(g, t, plan)[k] {
      assert RowLinks(h, t, k + 1) == RowLinks(g, t, k + 1);
    }
    assert Blocks(h, t, plan) == Blocks(g, t, plan);
  }

  lemma MergesCommute<K, V>(m: map<K, V>, a: map<K, V>, b: map<K, V>)
    requires a.Keys !! b.Keys
    ensures (m + a) + b == (m + b) + a
  {
  }

  lemma OwnedDisjoint(g: Graph, s: Signal, t: Signal, a: seq<Write>, b: seq<Write>)
    requires Owned(g, s, a) && Owned(g, t, b) && s != t
    ensures MoneyOf(a).Keys !! MoneyOf(b).Keys
  {
    OwnedMoney(g, s, a);
    OwnedMoney(g, t, b);
  }

  lemma OwnedCommute(g: Graph, s: Signal, t: Signal, a: seq<Write>, b: seq<Write>)
    requires Owned(g, s, a) && Owned(g, t, b) && s != t
    ensures ApplyAll(ApplyAll(g, a), b) == ApplyAll(ApplyAll(g, b), a)
  {
    OwnedDisjoint(g, s, t, a, b);
    hide Owned, ApplyAll, MoneyOf, LinksOf;
    AppliedParts(g, a);
    AppliedParts(g, b);
    AppliedParts(ApplyAll(g, a), b);
    AppliedParts(ApplyAll(g, b), a);
    MergesCommute(g.money, MoneyOf(a), MoneyOf(b));
    assert (g.links + LinksOf(a)) + LinksOf(b) == (g.links + LinksOf(b)) + LinksOf(a);
  }

  /** Calls on different brands commute, wherever each of them stops. */
  lemma OtherBrandsCommute(g: Graph, a: Attempt, b: Attempt)
    requires WellFormed(g) && a.s.brand != b.s.brand
    ensures Step(Step(g, a), b) == Step(Step(g, b), a)
    ensures Writes(Step(g, b), a.s) == Writes(g, a.s)
  {
    var x, y := Writes(g, a.s)[..Stop(g, a)], Writes(g, b.s)[..Stop(g, b)];
    WritesOwned(g, a.s, Stop(g, a));
    WritesOwned(g, b.s, Stop(g, b));
    StepIsPrefix(g, a);
    StepIsPrefix(g, b);
    SameWritesElsewhere(g, a.s, b.s, x);
    SameWritesElsewhere(g, b.s, a.s, y);
    StepIsPrefix(Step(g, a), b);
    StepIsPrefix(Step(g, b), a);
    OwnedCommute(g, a.s, b.s, x, y);
  }

  /** A graph between calls, some of which may have stopped cleanly. */
  ghost predicate Clean(g: Graph) {
    WellFormed(g) && forall s: Signal :: NoTornRow(g, s)
  }

  lemma TornWellFormed(g: Graph, s: Signal, i: nat, block: seq<Write>, j: nat)
    requires WellFormed(g) && i < ROWS && block == Block(g, s, PlanFor(g, s), i + 1) && j < |block|
    ensures WellFormed(ApplyAll(Filled(g, s, PlanFor(g, s), i), block[..j]))
  {
    var plan, h := PlanFor(g, s), Filled(g, s, PlanFor(g, s), i);
    FilledFrame(g, s, plan, i);
    FilledRows(g, s, plan, i, i + 1);
    if j > 0 {
      hide Filled, ApplyAll, RowLinks;
      PartialRow(g, h, s, i + 1, plan[i], j);
    } else {
      assert block[..0] == [];
    }
  }

  lemma CrashedWellFormed(g: Graph, s: Signal, k: nat)
    requires WellFormed(g) && k <= |Writes(g, s)|
    ensures WellFormed(Crashed(g, s, k))
  {
    var plan := PlanFor(g, s);
    hide Block, Filled, ApplyAll, PlanFor;
    var i := LocateCut(Blocks(g, s, plan), k, ROWS);
    AppliedIsFilled(g, s, plan, i);
    FilledFrame(g, s, plan, i);
    var before := WritesUpTo(g, s, plan, i);
    if |before| == k {
      assert Writes(g, s)[..k] == before;
    } else {
      var block := Block(g, s, plan, i + 1);
      var j := k - |before|;
      assert Writes(g, s)[..k] == WritesUpTo(g, s, plan, i + 1)[..k] == before + block[..j];
      ApplyConcat(g, before, block[..j]);
      TornWellFormed(g, s, i, block, j);
    }
  }

  /** A step tears no row of another signal. */
  lemma OthersStayWhole(g: Graph, a: Attempt, t: Signal)
    requires NoTornRow(g, t) && t != a.s
    ensures NoTornRow(Step(g, a), t)
  {
    var ws := Writes(g, a.s)[..Stop(g, a)];
    StepIsPrefix(g, a);
    WritesOwned(g, a.s, Stop(g, a));
    OwnedMoney(g, a.s, ws);
    AppliedParts(g, ws);
    forall i | 1 <= i <= ROWS ensures Whole(Step(g, a), t, i) {
      assert RowLinks(Step(g, a), t, i) == RowLinks(g, t, i);
      assert Whole(g, t, i);
    }
  }

  lemma StepStaysClean(g: Graph, a: Attempt)
    requires Clean(g) && (a.Interrupted? ==> NoTornRow(Step(g, a), a.s))
    ensures Clean(Step(g, a))
  {
    StepIsPrefix(g, a);
    CrashedWellFormed(g, a.s, Stop(g, a));
    forall t: Signal ensures NoTornRow(Step(g, a), t) {
      if t != a.s {
        OthersStayWhole(g, a, t);
      } else if a.Complete? {
        TopUpIsFilled(g, t);
        forall i | 1 <= i <= ROWS ensures Whole(TopUp(g, t), t, i) {
          assert NoTornRow(g, t);
          FilledWhole(g, t, PlanFor(g, t), ROWS, i);
        }
      }
    }
  }

  /** A crash that is retried before anything else happens to its brand leaves no trace. */
  lemma {:induction false} RetryAbsorbsCrash(g: Graph, crash: Attempt, h: seq<Attempt>)
    requires Clean(g) && crash.Interrupted? && NoTornRow(Step(g, crash), crash.s)
    requires RetriedNext(crash.s, h) && forall a <- h :: a.Complete?
    ensures Run(Step(g, crash), h) == Run(g, h)
    decreases |h|
  {
    var next := h[0];
    assert next in h;
    if next.s == crash.s {
      StepIsPrefix(g, crash);
      RetryConvergesExactly(g, crash.s, Stop(g, crash));
    } else {
      OtherBrandsCommute(g, crash, next);
      StepStaysClean(g, next);
      OthersStayWhole(Step(g, crash), next, crash.s);
      RetryAbsorbsCrash(Step(g, next), crash, h[1..]);
    }
  }

  lemma {:induction false} RetriedWithoutCrashes(g: Graph, s: Signal, h: seq<Attempt>)
    requires Disciplined(g, h) && RetriedNext(s, h)
    ensures RetriedNext(s, WithoutCrashes(h))
    decreases |h|
  {
    var rest := WithoutCrashes(h[1..]);
    if h[0].s.brand != s.brand || h[0].Interrupted? {
      RetriedWithoutCrashes(Step(g, h[0]), s, h[1..]);
    }
    if h[0].Complete? {
      assert WithoutCrashes(h) == [h[0]] + rest && WithoutCrashes(h)[1..] == rest;
    } else {
      assert WithoutCrashes(h) == rest;
    }
  }

  /** A run whose crashes are retried ends in the graph of the same run without the crashes. */
  lemma {:induction false} CrashesLeaveNoTrace(g: Graph, h: seq<Attempt>)
    requires Clean(g) && Disciplined(g, h)
    ensures Run(g, h) == Run(g, WithoutCrashes(h))
    decreases |h|
  {
    if h == [] {
    } else {
      var rest := WithoutCrashes(h[1..]);
      StepStaysClean(g, h[0]);
      CrashesLeaveNoTrace(Step(g, h[0]), h[1..]);
      if h[0].Complete? {
        assert WithoutCrashes(h) == [h[0]] + rest && WithoutCrashes(h)[1..] == rest;
      } else {
        assert WithoutCrashes(h) == rest;
        RetriedWithoutCrashes(Step(g, h[0]), h[0].s, h[1..]);
        OnlyCompleteRemain(h[1..]);
        RetryAbsorbsCrash(g, h[0], rest);
      }
    }
  }

  lemma {:induction false} OnlyCompleteRemain(h: seq<Attempt>)
    ensures forall a <- WithoutCrashes(h) :: a.Complete?
  {
    if h == [] {
    } else {
      OnlyCompleteRemain(h[1..]);
    }
  }

  // ---------------------------------------------------------------------------------------------
  // Rounding never accumulates
  // ---------------------------------------------------------------------------------------------

  /** What the rows 1..n that are missing from `g` add up to. */
  function Planned(g: Graph, s: Signal, plan: seq<int>, n: nat): int {
    if n == 0 then 0
    else Planned(g, s, plan, n - 1) + (if Row(s, n) in g.money || n > |plan| then 0 else plan[n - 1])
  }

  lemma {:induction false} FilledSpend(g: Graph, s: Signal, plan: seq<int>, n: nat, brand: string)
    requires WellFormed(g)
    ensures Spend(Filled(g, s, plan, n), brand)
         == Spend(g, brand) + (if brand == s.brand then Planned(g, s, plan, n) as real else 0.0)
  {
    if n == 0 {
    } else {
      hide Spend, WellFormed, WithRow;
      FilledSpend(g, s, plan, n - 1, brand);
      if Row(s, n) !in g.money && n <= |plan| {
        FilledFrame(g, s, plan, n - 1);
        FilledRows(g, s, plan, n - 1, n);
        SpendWithRow(Filled(g, s, plan, n - 1), s, n, plan[n - 1], brand);
      }
    }
  }

  /** Spend after one call that finds none of its rows, from spend `before`. */
  function AfterFirstCall(before: real, target: real): real {
    var gap := GapFrom(target, Max(0.0, before));
    before + (if gap > 0.0 then HalfEven(gap) as real else 0.0)
  }

  lemma {:induction false} NothingMissing(g: Graph, s: Signal, plan: seq<int>, n: nat)
    requires forall i | 1 <= i <= n :: Row(s, i) in g.money
    ensures Planned(g, s, plan, n) == 0
  {
    if n == 0 {
    } else {
      NothingMissing(g, s, plan, n - 1);
    }
  }

  lemma {:induction false} NothingExisting(g: Graph, s: Signal, n: nat)
    requires forall i | 1 <= i <= n :: Row(s, i) !in g.money
    ensures ExistingUpTo(g, s, n) == 0.0
  {
    if n == 0 {
    } else {
      NothingExisting(g, s, n - 1);
    }
  }

  lemma AllMissing(g: Graph, s: Signal, plan: seq<int>)
    requires forall i | 1 <= i <= ROWS :: Row(s, i) !in g.money
    requires |plan| == ROWS
    ensures Planned(g, s, plan, ROWS) == plan[0] + plan[1] + plan[2] + plan[3] + plan[4]
  {
    assert Planned(g, s, plan, 1) == plan[0];
    assert Planned(g, s, plan, 2) == plan[0] + plan[1];
    assert Planned(g, s, plan, 3) == plan[0] + plan[1] + plan[2];
    assert Planned(g, s, plan, 4) == plan[0] + plan[1] + plan[2] + plan[3];
  }

  lemma {:induction false} NoPlan(g: Graph, s: Signal, n: nat)
    ensures Planned(g, s, [], n) == 0
  {
    if n == 0 {
    } else {
      NoPlan(g, s, n - 1);
    }
  }

  lemma FreshPlan(g: Graph, s: Signal, gap: real)
    requires forall i | 1 <= i <= ROWS :: Row(s, i) !in g.money
    ensures Planned(g, s, Plan(gap), ROWS) == if gap > 0.0 then HalfEven(gap) else 0
  {
    if gap > 0.0 {
      AllMissing(g, s, Plan(gap));
      RowsSumToRoundedGap(gap);
    } else {
      NoPlan(g, s, ROWS);
    }
  }

  lemma PlannedSpend(g: Graph, s: Signal, brand: string)
    requires WellFormed(g)
    ensures Spend(TopUp(g, s), brand)
         == Spend(g, brand) + (if brand == s.brand then Planned(g, s, PlanFor(g, s), ROWS) as real else 0.0)
  {
    TopUpIsFilled(g, s);
    FilledSpend(g, s, PlanFor(g, s), ROWS, brand);
  }

  lemma FreshGap(g: Graph, s: Signal)
    requires Accepted(g, s) && forall i | 1 <= i <= ROWS :: Row(s, i) !in g.money
    ensures Gap(g, s) == GapFrom(Target(g, s), Max(0.0, Spend(g, s.brand)))
  {
    NothingExisting(g, s, ROWS);
    assert Original(g, s) == Max(0.0, Spend(g, s.brand));
  }

  /** A call moves only its own brand's spend, never down, and only if it finds none of its rows: then to
      within half a penny of its target, unless the brand had spent more already. */
  lemma CallSpend(g: Graph, s: Signal, brand: string)
    requires WellFormed(g) && Accepted(g, s)
    requires forall i | 1 <= i <= ROWS :: Row(s, i) in g.money <==> Row(s, 1) in g.money
    ensures brand != s.brand || Row(s, 1) in g.money ==> Spend(TopUp(g, s), brand) == Spend(g, brand)
    ensures brand == s.brand && Row(s, 1) !in g.money ==>
              Spend(TopUp(g, s), brand) == AfterFirstCall(Spend(g, brand), Target(g, s))
    ensures Spend(TopUp(g, s), brand) >= Spend(g, brand)
    ensures brand == s.brand && Row(s, 1) !in g.money && Spend(g, brand) >= 0.0 ==>
              WithinHalfPenny(Spend(TopUp(g, s), brand), Max(Spend(g, brand), Target(g, s)))
  {
    PlannedSpend(g, s, brand);
    if Row(s, 1) in g.money {
      NothingMissing(g, s, PlanFor(g, s), ROWS);
    } else {
      FreshGap(g, s);
      FreshPlan(g, s, Gap(g, s));
      NeverDown(Spend(g, s.brand), Target(g, s));
      if Spend(g, s.brand) >= 0.0 { FirstCallStaysClose(Spend(g, s.brand), Target(g, s), Spend(g, s.brand)); }
    }
  }

  lemma NeverDown(before: real, target: real)
    ensures AfterFirstCall(before, target) >= before
  {
    HalfEvenMonotone(0.0, GapFrom(target, Max(0.0, before)));
    HalfEvenInteger(0);
  }

  predicate WithinHalfPenny(a: real, b: real) { -0.5 <= a - b <= 0.5 }

  /** The peak once one more call has been made. */
  function Raised(g: Graph, s: Signal, brand: string, peak: real): real {
    if s.brand == brand && Accepted(g, s) then Max(peak, Target(g, s)) else peak
  }

  /** Highest of a starting figure and the targets asked of the brand by accepted calls. */
  function Peak(g: Graph, h: seq<Attempt>, brand: string, start: real): real {
    if h == [] then start
    else Peak(g, h[1..], brand,
              Raised(g, h[0].s, brand, start))
  }

  /** Every signal already in the graph asked for no more than `peak`. */
  ghost predicate Remembered(g: Graph, brand: string, peak: real) {
    forall s: Signal | s.brand == brand && Row(s, 1) in g.money && Accepted(g, s) :: Target(g, s) <= peak
  }

  lemma FirstCallStaysClose(before: real, target: real, peak: real)
    requires before >= 0.0 && WithinHalfPenny(before, peak)
    ensures AfterFirstCall(before, target) >= before
    ensures WithinHalfPenny(AfterFirstCall(before, target), Max(peak, target))
  {
    var gap := Max(0.0, target - before);
    if gap > 0.0 {
      HalfEvenMonotone(0.0, gap);
      HalfEvenInteger(0);
      if peak >= target { HalfEvenUnique(gap, 0); }
    }
  }

  lemma OnlyOwnRowsAppear(g: Graph, s: Signal, t: Signal)
    requires WellFormed(g) && Row(t, 1) in TopUp(g, s).money && t != s
    ensures Row(t, 1) in g.money
  {
    TopUpIsFilled(g, s);
    FilledFrame(g, s, PlanFor(g, s), ROWS);
  }

  lemma StaysRemembered(g: Graph, s: Signal, brand: string, peak: real)
    requires Settled(g) && Remembered(g, brand, peak)
    requires s.brand == brand && Accepted(g, s) ==> Target(g, s) <= peak
    ensures Remembered(TopUp(g, s), brand, peak)
  {
    var h := TopUp(g, s);
    TopUpSettled(g, s);
    forall t: Signal | t.brand == brand && Row(t, 1) in h.money && Accepted(h, t) ensures Target(h, t) <= peak {
      if t != s { OnlyOwnRowsAppear(g, s, t); }
      SameTarget(h, g, t);
    }
  }

  lemma RefusedCallChangesNothing(g: Graph, s: Signal)
    requires !Accepted(g, s)
    ensures Writes(g, s) == [] && TopUp(g, s) == g
  {
    NoWrites(g, s, ROWS);
  }

  lemma CallStaysClose(g: Graph, s: Signal, brand: string, peak: real)
    requires Settled(g) && Spend(g, brand) >= 0.0
    requires WithinHalfPenny(Spend(g, brand), peak) && Remembered(g, brand, peak)
    ensures Spend(TopUp(g, s), brand) >= Spend(g, brand)
    ensures WithinHalfPenny(Spend(TopUp(g, s), brand), Raised(g, s, brand, peak))
  {
    if !Accepted(g, s) {
      RefusedCallChangesNothing(g, s);
    } else {
      CallSpend(g, s, brand);
      if s.brand == brand && Row(s, 1) !in g.money {
        FirstCallStaysClose(Spend(g, brand), Target(g, s), peak);
      }
    }
  }

  lemma {:induction false} RunStaysClose(g: Graph, h: seq<Attempt>, brand: string, peak: real)
    requires Settled(g) && forall a <- h :: a.Complete?
    requires Spend(g, brand) >= 0.0 && WithinHalfPenny(Spend(g, brand), peak) && Remembered(g, brand, peak)
    ensures WithinHalfPenny(Spend(Run(g, h), brand), Peak(g, h, brand, peak))
    ensures Spend(Run(g, h), brand) >= Spend(g, brand)
    decreases |h|
  {
    if h == [] {
    } else {
      var s := h[0].s;
      assert h[0] in h;
      CallStaysClose(g, s, brand, peak);
      var next := Raised(g, s, brand, peak);
      TopUpSettled(g, s);
      StaysRemembered(g, s, brand, next);
      RunStaysClose(TopUp(g, s), h[1..], brand, next);
      PeakFrame(g, TopUp(g, s), h[1..], brand, next);
    }
  }

  lemma {:induction false} PeakFrame(g: Graph, k: Graph, h: seq<Attempt>, brand: string, start: real)
    requires g.brands == k.brands
    ensures Peak(g, h, brand, start) == Peak(k, h, brand, start)
  {
    if h == [] {
    } else {
      PeakFrame(g, k, h[1..], brand, Raised(g, h[0].s, brand, start));
    }
  }

  /** Any run of signals, on this brand and others, retried and crashed cleanly at will: the brand's
      spend ends within half a penny of the larger of what it was and the largest target completed. */
  lemma SpendTracksPeakTarget(g: Graph, h: seq<Attempt>, brand: string)
    requires Settled(g) && Disciplined(g, h) && Spend(g, brand) >= 0.0
    requires forall s: Signal | s.brand == brand :: Row(s, 1) !in g.money
    ensures WithinHalfPenny(Spend(Run(g, h), brand), Peak(g, WithoutCrashes(h), brand, Spend(g, brand)))
    ensures Spend(Run(g, h), brand) >= Spend(g, brand)
  {
    CrashesLeaveNoTrace(g, h);
    OnlyCompleteRemain(h);
    RunStaysClose(g, WithoutCrashes(h), brand, Spend(g, brand));
  }

  /** How far below zero a spend can be without any target showing it: targets are at most twice the
      budget, and what is less than half a penny is never filled. */
  function Slack(budget: real): real { Max(0.0, 0.5 - 2.0 * budget) }

  lemma FirstCallClose(before: real, target: real)
    requires target > 0.0 && before >= 0.0
    ensures WithinHalfPenny(AfterFirstCall(before, target), Max(before, target))
  {
    FirstCallStaysClose(before, target, before);
  }

  lemma TinyTargetUnfilled(before: real, target: real)
    requires before < 0.0 && 0.0 < target <= 0.5
    ensures AfterFirstCall(before, target) == before && Max(before, target) == target
  {
    HalfEvenUnique(target, 0);
  }

  ghost predicate NoRowsOf(g: Graph, brand: string) {
    forall s: Signal, i | s.brand == brand && 1 <= i <= ROWS :: Row(s, i) !in g.money
  }

  /** The guarantee of one call. */
  ghost predicate StaysClose(g: Graph, s: Signal)
    requires Accepted(g, s)
  {
    WithinHalfPenny(Spend(TopUp(g, s), s.brand), Max(Spend(g, s.brand), Target(g, s)))
  }

  lemma FirstCallSpend(g: Graph, s: Signal)
    requires WellFormed(g) && Accepted(g, s) && NoRowsOf(g, s.brand)
    ensures Spend(TopUp(g, s), s.brand) == AfterFirstCall(Spend(g, s.brand), Target(g, s))
    ensures 0.0 < Target(g, s) <= 2.0 * Budget(g, s.brand)
  {
    CallSpend(g, s, s.brand);
    TargetRange(g, s);
    hide Spend, TopUp, AfterFirstCall, Target, Budget;
  }

  lemma TargetRange(g: Graph, s: Signal)
    requires Accepted(g, s)
    ensures 0.0 < Target(g, s) <= 2.0 * Budget(g, s.brand)
  {
    hide Budget;
    var budget := Budget(g, s.brand);
    TargetBounds(budget, s.target);
    assert Target(g, s) == budget * s.target;
  }

  lemma SmallDebtHides(g: Graph, s: Signal)
    requires WellFormed(g) && Accepted(g, s) && NoRowsOf(g, s.brand)
    requires Spend(g, s.brand) >= -Slack(Budget(g, s.brand))
    ensures StaysClose(g, s)
  {
    FirstCallSpend(g, s);
    hide Spend, TopUp, AfterFirstCall, NoRowsOf, Target, Budget;
    var before, target := Spend(g, s.brand), Target(g, s);
    if before >= 0.0 { FirstCallClose(before, target); } else { TinyTargetUnfilled(before, target); }
  }

  lemma LargeDebtShows(g: Graph, brand: string) returns (s: Signal)
    requires WellFormed(g) && brand in g.brands && Budget(g, brand) > 0.0 && NoRowsOf(g, brand)
    requires Spend(g, brand) < -Slack(Budget(g, brand))
    ensures s.brand == brand && Accepted(g, s) && !StaysClose(g, s)
  {
    hide Spend, TopUp, AfterFirstCall, NoRowsOf, Budget;
    var target := if Budget(g, brand) >= 0.25 then 0.5 else 2.0 * Budget(g, brand);
    s := SignalFor(g, brand, target);
    FirstCallSpend(g, s);
    TinyTargetUnfilled(Spend(g, brand), target);
  }

  /** The clamp at zero hides a negative spend, so the guarantee of a first call holds for every signal the
      brand accepts exactly when its spend was not negative, or by no more than its targets can show. */
  lemma GuaranteeNeedsNonNegativeSpend(g: Graph, brand: string)
    requires WellFormed(g) && brand in g.brands && Budget(g, brand) > 0.0 && NoRowsOf(g, brand)
    ensures Spend(g, brand) >= -Slack(Budget(g, brand))
       <==> forall s: Signal | s.brand == brand && Accepted(g, s) :: StaysClose(g, s)
  {
    hide StaysClose, Spend, Slack, Budget, NoRowsOf, RefusalOf;
    if Spend(g, brand) >= -Slack(Budget(g, brand)) {
      forall s: Signal | s.brand == brand && Accepted(g, s) ensures StaysClose(g, s) { SmallDebtHides(g, s); }
    } else {
      var s := LargeDebtShows(g, brand);
    }
  }

  lemma TargetBounds(budget: real, pct: real)
    requires budget > 0.0 && 0.0 < pct <= 2.0
    ensures 0.0 < budget * pct <= 2.0 * budget
  {
    var rest := 2.0 - pct;
    assert budget * rest >= 0.0;
    assert budget * rest == 2.0 * budget - budget * pct;
  }

  /** Every target up to twice the budget is asked for by some signal. */
  lemma SignalFor(g: Graph, brand: string, target: real) returns (s: Signal)
    requires brand in g.brands && Budget(g, brand) > 0.0 && 0.0 < target <= 2.0 * Budget(g, brand)
    ensures s.brand == brand && Accepted(g, s) && Target(g, s) == target
  {
    var budget := Budget(g, brand);
    s := Signal("", brand, target / budget);
    Quotient(target, budget);
  }

  lemma NegativeTimes(a: real, b: real)
    requires a < 0.0 < b
    ensures a * b < 0.0
  {}

  lemma Quotient(target: real, budget: real)
    requires budget > 0.0 && 0.0 < target <= 2.0 * budget
    ensures 0.0 < target / budget <= 2.0 && budget * (target / budget) == target
  {
    var q := target / budget;
    assert q * budget == target;
    if q > 2.0 { NegativeTimes(2.0 - q, budget); }
    if q < 0.0 { NegativeTimes(q, budget); }
  }
}
