/** The Aurora budget signal: fills a brand's spend up to a target with five rounded rows.

    Money is exact and counted in pence.  A call is the list of graph writes it performs; a crash
    leaves a prefix of that list applied. */
module AuroraTopUp {
  import opened Values
  import opened Rounding

  // The digest in a row id is taken over exactly these three parts.
  datatype Signal = Signal(workflow: string, brand: string, target: real)

  datatype MoneyId = Row(signal: Signal, index: nat) | Other(name: string)

  datatype Link =
    | CostedToBrand(money: MoneyId, brand: string)
    | BookedAgainst(money: MoneyId, account: string)
    | BelongsTo(money: MoneyId, period: string)

  datatype Brand = Brand(name: Option<string>, budget: Option<real>)

  datatype Graph = Graph(
    brands: map<string, Brand>,
    money: map<MoneyId, real>,
    links: set<Link>,
    account: Option<string>,
    period: Option<string>)

  datatype Write = Upsert(id: MoneyId, amount: real) | AddLink(link: Link)

  datatype Refusal = BadTarget | BrandNotFound | NoBudget

  datatype Report = Report(
    signal: Signal, brandName: string, budget: real,
    beforeSpend: int, afterSpend: int, beforePct: int, afterPct: int,
    moneyIds: seq<MoneyId>, gapFilled: int)

  datatype Outcome = Refused(why: Refusal) | Observed(report: Report)

  const ROWS := 5

  // ---------------------------------------------------------------------------------------------
  // Reading the graph
  // ---------------------------------------------------------------------------------------------

  /** Links start only from rows that exist: `link` does nothing when an end is missing. */
  ghost predicate WellFormed(g: Graph) {
    forall l <- g.links :: l.money in g.money
  }

  ghost function Sum(ids: set<MoneyId>, money: map<MoneyId, real>): real
    requires ids <= money.Keys
  {
    if ids == {} then 0.0
    else
      var id :| id in ids;
      money[id] + Sum(ids - {id}, money)
  }

  lemma {:induction false} SumAdd(ids: set<MoneyId>, id: MoneyId, money: map<MoneyId, real>)
    requires ids <= money.Keys && id in money && id !in ids
    ensures Sum(ids + {id}, money) == Sum(ids, money) + money[id]
  {
    var all := ids + {id};
    var pick :| pick in all && Sum(all, money) == money[pick] + Sum(all - {pick}, money);
    if pick == id {
      assert all - {pick} == ids;
    } else {
      assert all - {pick} == (ids - {pick}) + {id};
      SumAdd(ids - {pick}, id, money);
      assert (ids - {pick}) + {pick} == ids;
      SumAdd(ids - {pick}, pick, money);
    }
  }

  lemma {:induction false} SumAgree(ids: set<MoneyId>, a: map<MoneyId, real>, b: map<MoneyId, real>)
    requires ids <= a.Keys && ids <= b.Keys
    requires forall id <- ids :: a[id] == b[id]
    ensures Sum(ids, a) == Sum(ids, b)
  {
    if ids == {} {
    } else {
      var pick :| pick in ids && Sum(ids, a) == a[pick] + Sum(ids - {pick}, a);
      SumAgree(ids - {pick}, a, b);
      SumAdd(ids - {pick}, pick, b);
      assert (ids - {pick}) + {pick} == ids;
    }
  }

  function Costed(g: Graph, brand: string): set<MoneyId> {
    set id | id in g.money && CostedToBrand(id, brand) in g.links
  }

  ghost function Spend(g: Graph, brand: string): real {
    Sum(Costed(g, brand), g.money)
  }

  function ExistingUpTo(g: Graph, s: Signal, n: nat): real {
    if n == 0 then 0.0
    else ExistingUpTo(g, s, n - 1) + (if Row(s, n) in g.money then g.money[Row(s, n)] else 0.0)
  }

  function Max(a: real, b: real): real { if a < b then b else a }

  function Budget(g: Graph, brand: string): real
    requires brand in g.brands
  {
    match g.brands[brand].budget case Some(b) => b case None => 0.0
  }

  function RefusalOf(g: Graph, s: Signal): Option<Refusal> {
    if !(0.0 < s.target <= 2.0) then Some(BadTarget)
    else if s.brand !in g.brands then Some(BrandNotFound)
    else if Budget(g, s.brand) <= 0.0 then Some(NoBudget)
    else None
  }

  predicate Accepted(g: Graph, s: Signal) { RefusalOf(g, s).None? }

  function Target(g: Graph, s: Signal): real
    requires Accepted(g, s)
  {
    Budget(g, s.brand) * s.target
  }

  /** Spend without this signal's own rows, so a retry sees the figure the first attempt saw. */
  ghost function Original(g: Graph, s: Signal): real {
    Max(0.0, Spend(g, s.brand) - ExistingUpTo(g, s, ROWS))
  }

  function GapFrom(target: real, original: real): real { Max(0.0, target - original) }

  ghost function Gap(g: Graph, s: Signal): real
    requires Accepted(g, s)
  {
    GapFrom(Target(g, s), Original(g, s))
  }

  // ---------------------------------------------------------------------------------------------
  // The five amounts
  // ---------------------------------------------------------------------------------------------

  function PerRow(gap: real): int { HalfEven(gap / 5.0) }

  function Amount(gap: real, i: nat): int {
    if i < ROWS then PerRow(gap) else HalfEven(gap - (4 * PerRow(gap)) as real)
  }

  /** What the row loop will write; nothing when there is no gap. */
  function Plan(gap: real): seq<int> {
    if gap <= 0.0 then [] else seq(ROWS, k requires 0 <= k < ROWS => Amount(gap, k + 1))
  }

  lemma RowsSumToRoundedGap(gap: real)
    ensures Amount(gap, 1) + Amount(gap, 2) + Amount(gap, 3) + Amount(gap, 4) + Amount(gap, 5) == HalfEven(gap)
  {
    HalfEvenEvenShift(gap, 2 * PerRow(gap));
  }

  lemma LastRowWithinTwoPence(gap: real)
    ensures -2 <= Amount(gap, ROWS) - PerRow(gap) <= 2
  {
    var p := PerRow(gap);
    var e := gap / 5.0 - p as real;
    var last := Amount(gap, ROWS);
    assert gap - (4 * p) as real == p as real + 5.0 * e;
  }

  /** The fifth row absorbs the rounding of the other four; for one band of tiny gaps that makes it a
      negative amount of money. */
  lemma LastRowNegativeExactly(gap: real)
    requires gap >= 0.0
    ensures Amount(gap, ROWS) < 0 <==> 2.5 < gap < 3.5
  {
    var p := PerRow(gap);
    LastRowWithinTwoPence(gap);
    HalfEvenMonotone(0.0, gap / 5.0);
    HalfEvenInteger(0);
    if p == 0 {
      HalfEvenMonotone(0.0, gap);
      assert gap / 5.0 <= 0.5;
    } else if p == 1 {
      assert 0.5 < gap / 5.0;
      var last := HalfEven(gap - 4.0);
      if gap < 3.5 { HalfEvenUnique(gap - 4.0, -1); }
    } else {
      assert p as real >= 2.0;
      assert gap / 5.0 >= 1.5;
    }
  }

  // ---------------------------------------------------------------------------------------------
  // A call as a list of writes
  // ---------------------------------------------------------------------------------------------

  function RowLinks(g: Graph, s: Signal, i: nat): seq<Link> {
    [CostedToBrand(Row(s, i), s.brand)]
    + (match g.account case Some(a) => [BookedAgainst(Row(s, i), a)] case None => [])
    + (match g.period case Some(p) => [BelongsTo(Row(s, i), p)] case None => [])
  }

  function LinkWrites(links: seq<Link>): seq<Write> {
    seq(|links|, k requires 0 <= k < |links| => AddLink(links[k]))
  }

  function RowWrites(g: Graph, s: Signal, i: nat, amount: int): seq<Write> {
    [Upsert(Row(s, i), amount as real)] + LinkWrites(RowLinks(g, s, i))
  }

  /** The writes for row `i`, with the amounts planned when the call began on graph `g`. */
  function Block(g: Graph, s: Signal, plan: seq<int>, i: nat): seq<Write> {
    if Row(s, i) in g.money || i == 0 || i > |plan| then [] else RowWrites(g, s, i, plan[i - 1])
  }

  function Blocks(g: Graph, s: Signal, plan: seq<int>): seq<seq<Write>> {
    seq(ROWS, k requires 0 <= k < ROWS => Block(g, s, plan, k + 1))
  }

  function Flat<T>(blocks: seq<seq<T>>, n: nat): seq<T>
    requires n <= |blocks|
  {
    if n == 0 then [] else Flat(blocks, n - 1) + blocks[n - 1]
  }

  function WritesUpTo(g: Graph, s: Signal, plan: seq<int>, n: nat): seq<Write>
    requires n <= ROWS
  {
    Flat(Blocks(g, s, plan), n)
  }

  ghost function PlanFor(g: Graph, s: Signal): seq<int> {
    if Accepted(g, s) then Plan(Gap(g, s)) else []
  }

  ghost function Writes(g: Graph, s: Signal): seq<Write> {
    WritesUpTo(g, s, PlanFor(g, s), ROWS)
  }

  function Apply(g: Graph, w: Write): Graph {
    match w
    case Upsert(id, amount) => g.(money := g.money[id := amount])
    case AddLink(l) => g.(links := g.links + {l})
  }

  function ApplyAll(g: Graph, ws: seq<Write>): Graph {
    if ws == [] then g else Apply(ApplyAll(g, ws[..|ws| - 1]), ws[|ws| - 1])
  }

  lemma {:induction false} ApplyConcat(g: Graph, a: seq<Write>, b: seq<Write>)
    ensures ApplyAll(g, a + b) == ApplyAll(ApplyAll(g, a), b)
  {
    if b == [] {
      assert a + b == a;
    } else {
      assert (a + b)[..|a + b| - 1] == a + b[..|b| - 1];
      ApplyConcat(g, a, b[..|b| - 1]);
    }
  }

  ghost function TopUp(g: Graph, s: Signal): Graph { ApplyAll(g, Writes(g, s)) }

  function RowIds(s: Signal): seq<MoneyId> { seq(ROWS, k requires 0 <= k < ROWS => Row(s, k + 1)) }

  /** The figures a complete call returns; spend in pence, percentages in hundredths of a percent. */
  ghost function Observe(g: Graph, s: Signal): Outcome {
    match RefusalOf(g, s)
    case Some(why) => Refused(why)
    case None =>
      var budget, after := Budget(g, s.brand), Spend(TopUp(g, s), s.brand);
      Observed(Report(
        s,
        match g.brands[s.brand].name case Some(n) => (if n == "" then s.brand else n) case None => s.brand,
        budget,
        HalfEven(Original(g, s)), HalfEven(after),
        HalfEven(10000.0 * Original(g, s) / budget), HalfEven(10000.0 * after / budget),
        if Gap(g, s) > 0.0 then RowIds(s) else [],
        HalfEven(Gap(g, s))))
  }

  // ---------------------------------------------------------------------------------------------
  // One whole row
  // ---------------------------------------------------------------------------------------------

  ghost predicate Whole(g: Graph, s: Signal, i: nat) {
    Row(s, i) in g.money ==> forall l <- RowLinks(g, s, i) :: l in g.links
  }

  /** No row of this signal was left with some of its links missing. */
  ghost predicate NoTornRow(g: Graph, s: Signal) {
    forall i | 1 <= i <= ROWS :: Whole(g, s, i)
  }

  function WithRow(g: Graph, s: Signal, i: nat, amount: int): Graph {
    g.(money := g.money[Row(s, i) := amount as real], links := g.links + set l | l in RowLinks(g, s, i))
  }

  lemma {:induction false} ApplyLinks(g: Graph, links: seq<Link>)
    ensures ApplyAll(g, LinkWrites(links)) == g.(links := g.links + set l | l in links)
  {
    if links == [] {
      assert g.links + (set l | l in links) == g.links;
    } else {
      var init, last := links[..|links| - 1], links[|links| - 1];
      assert LinkWrites(links)[..|links| - 1] == LinkWrites(init);
      ApplyLinks(g, init);
      assert links == init + [last];
      assert (g.links + set l | l in init) + {last} == g.links + set l | l in links;
    }
  }

  lemma AppliedRow(g: Graph, h: Graph, s: Signal, i: nat, amount: int)
    requires g.account == h.account && g.period == h.period
    ensures ApplyAll(h, RowWrites(g, s, i, amount)) == WithRow(h, s, i, amount)
  {
    var first := [Upsert(Row(s, i), amount as real)];
    ApplyConcat(h, first, LinkWrites(RowLinks(g, s, i)));
    assert first[..0] == [];
    assert ApplyAll(h, first) == Apply(h, first[0]);
    ApplyLinks(Apply(h, first[0]), RowLinks(g, s, i));
    assert RowLinks(g, s, i) == RowLinks(h, s, i);
  }

  lemma SpendWithRow(g: Graph, s: Signal, i: nat, amount: int, brand: string)
    requires WellFormed(g) && Row(s, i) !in g.money
    ensures Spend(WithRow(g, s, i, amount), brand)
         == Spend(g, brand) + (if brand == s.brand then amount as real else 0.0)
  {
    var h := WithRow(g, s, i, amount);
    assert Row(s, i) !in Costed(g, brand);
    if brand == s.brand {
      assert CostedToBrand(Row(s, i), brand) in RowLinks(g, s, i);
      assert Costed(h, brand) == Costed(g, brand) + {Row(s, i)};
      SumAdd(Costed(g, brand), Row(s, i), h.money);
    } else {
      assert Costed(h, brand) == Costed(g, brand);
    }
    SumAgree(Costed(g, brand), g.money, h.money);
  }

  lemma {:induction false} ExistingWithRow(g: Graph, s: Signal, t: Signal, i: nat, amount: int, n: nat)
    requires Row(s, i) !in g.money && i >= 1
    ensures ExistingUpTo(WithRow(g, s, i, amount), t, n)
         == ExistingUpTo(g, t, n) + (if s == t && i <= n then amount as real else 0.0)
  {
    if n == 0 {
    } else {
      ExistingWithRow(g, s, t, i, amount, n - 1);
    }
  }

  /** Writing one of the signal's own rows leaves its view of the original spend where it was. */
  lemma OriginalWithRow(g: Graph, s: Signal, i: nat, amount: int)
    requires WellFormed(g) && Row(s, i) !in g.money && 1 <= i <= ROWS
    ensures Original(WithRow(g, s, i, amount), s) == Original(g, s)
  {
    SpendWithRow(g, s, i, amount, s.brand);
    ExistingWithRow(g, s, s, i, amount, ROWS);
  }

  // ---------------------------------------------------------------------------------------------
  // Resuming after a crash
  // ---------------------------------------------------------------------------------------------

  function FillRow(g: Graph, h: Graph, s: Signal, plan: seq<int>, n: nat): Graph {
    if Row(s, n) in g.money || n == 0 || n > |plan| then h else WithRow(h, s, n, plan[n - 1])
  }

  /** The graph once the rows 1..n that were missing have been written whole. */
  function Filled(g: Graph, s: Signal, plan: seq<int>, n: nat): Graph {
    if n == 0 then g else FillRow(g, Filled(g, s, plan, n - 1), s, plan, n)
  }

  lemma {:induction false} FilledRows(g: Graph, s: Signal, plan: seq<int>, n: nat, i: nat)
    ensures Row(s, i) in Filled(g, s, plan, n).money
       <==> Row(s, i) in g.money || (1 <= i <= n && i <= |plan|)
  {
    if n == 0 {
    } else {
      FilledRows(g, s, plan, n - 1, i);
    }
  }

  /** What a top-up leaves alone: every other node, every other row, every old link. */
  ghost predicate SameOutside(g: Graph, h: Graph, s: Signal) {
    && g.brands == h.brands && g.account == h.account && g.period == h.period
    && (forall id <- g.money :: id in h.money && h.money[id] == g.money[id])
    && (forall id <- h.money :: id in g.money || (id.Row? && id.signal == s))
    && g.links <= h.links
    && (forall l <- h.links :: l in g.links || (l.money !in g.money && l.money.Row? && l.money.signal == s))
  }

  lemma WithRowFrame(g: Graph, h: Graph, s: Signal, n: nat, amount: int)
    requires WellFormed(h) && SameOutside(g, h, s) && Row(s, n) !in g.money
    ensures WellFormed(WithRow(h, s, n, amount)) && SameOutside(g, WithRow(h, s, n, amount), s)
  {
    assert forall l <- RowLinks(h, s, n) :: l.money == Row(s, n);
  }

  lemma {:induction false} FilledFrame(g: Graph, s: Signal, plan: seq<int>, n: nat)
    requires WellFormed(g)
    ensures WellFormed(Filled(g, s, plan, n)) && SameOutside(g, Filled(g, s, plan, n), s)
  {
    if n == 0 {
    } else {
      var h := Filled(g, s, plan, n - 1);
      FilledFrame(g, s, plan, n - 1);
      if Row(s, n) !in g.money && n <= |plan| { WithRowFrame(g, h, s, n, plan[n - 1]); }
    }
  }

  lemma WithRowWhole(g: Graph, s: Signal, n: nat, amount: int, i: nat)
    requires Row(s, n) !in g.money && Whole(g, s, i)
    ensures Whole(WithRow(g, s, n, amount), s, i)
  {
    var h := WithRow(g, s, n, amount);
    assert RowLinks(h, s, i) == RowLinks(g, s, i);
  }

  lemma {:induction false} FilledWhole(g: Graph, s: Signal, plan: seq<int>, n: nat, i: nat)
    requires Whole(g, s, i)
    ensures Whole(Filled(g, s, plan, n), s, i)
  {
    if n == 0 {
    } else {
      FilledWhole(g, s, plan, n - 1, i);
      FilledRows(g, s, plan, n - 1, n);
      if Row(s, n) !in g.money && n <= |plan| {
        WithRowWhole(Filled(g, s, plan, n - 1), s, n, plan[n - 1], i);
      }
    }
  }

  lemma {:induction false} FilledOriginal(g: Graph, s: Signal, plan: seq<int>, n: nat)
    requires WellFormed(g) && n <= ROWS
    ensures Original(Filled(g, s, plan, n), s) == Original(g, s)
  {
    if n == 0 {
    } else {
      var h := Filled(g, s, plan, n - 1);
      FilledOriginal(g, s, plan, n - 1);
      if Row(s, n) !in g.money && n <= |plan| {
        assert WellFormed(h) by { FilledFrame(g, s, plan, n - 1); }
        FilledRows(g, s, plan, n - 1, n);
        OriginalWithRow(h, s, n, plan[n - 1]);
      }
    }
  }

  lemma AppliedBlock(g: Graph, h: Graph, s: Signal, plan: seq<int>, n: nat)
    requires g.account == h.account && g.period == h.period
    ensures ApplyAll(h, Block(g, s, plan, n)) == FillRow(g, h, s, plan, n)
  {
    if !(Row(s, n) in g.money || n == 0 || n > |plan|) { AppliedRow(g, h, s, n, plan[n - 1]); }
  }

  lemma {:induction false} AppliedIsFilled(g: Graph, s: Signal, plan: seq<int>, n: nat)
    requires WellFormed(g) && n <= ROWS
    ensures ApplyAll(g, WritesUpTo(g, s, plan, n)) == Filled(g, s, plan, n)
  {
    if n == 0 {
    } else {
      var blocks := Blocks(g, s, plan);
      AppliedIsFilled(g, s, plan, n - 1);
      FilledFrame(g, s, plan, n - 1);
      ApplyConcat(g, Flat(blocks, n - 1), blocks[n - 1]);
      AppliedBlock(g, Filled(g, s, plan, n - 1), s, plan, n);
    }
  }

  lemma Associative<T>(a: seq<T>, b: seq<T>, c: seq<T>)
    ensures (a + b) + c == a + (b + c)
  {}

  lemma {:induction false} FlatEmpty<T>(b: seq<seq<T>>, m: nat)
    requires m <= |b| && forall k | 0 <= k < m :: b[k] == []
    ensures Flat(b, m) == []
  {
    if m == 0 {
    } else {
      FlatEmpty(b, m - 1);
    }
  }

  /** If `b` repeats `a` except that its first `n` blocks are empty, it is what remains of `a`. */
  lemma {:induction false} FlatRemaining<T>(a: seq<seq<T>>, b: seq<seq<T>>, n: nat, m: nat)
    requires n <= m <= |a| == |b|
    requires forall k | 0 <= k < |a| :: b[k] == if k < n then [] else a[k]
    ensures Flat(a, m) == Flat(a, n) + Flat(b, m)
  {
    if m == n {
      FlatEmpty(b, n);
    } else {
      FlatRemaining(a, b, n, m - 1);
      Associative(Flat(a, n), Flat(b, m - 1), a[m - 1]);
    }
  }

  lemma RemainingBlock(g: Graph, h: Graph, s: Signal, plan: seq<int>, n: nat, k: nat)
    requires g.account == h.account && g.period == h.period && k >= 1
    requires Row(s, k) in h.money <==> Row(s, k) in g.money || (k <= n && k <= |plan|)
    ensures Block(h, s, plan, k) == if k <= n then [] else Block(g, s, plan, k)
  {
    assert RowLinks(h, s, k) == RowLinks(g, s, k);
  }

  /** After any whole number of rows, the retry's writes are exactly the ones still to come. */
  lemma RemainingWrites(g: Graph, s: Signal, plan: seq<int>, n: nat)
    requires WellFormed(g) && n <= ROWS
    ensures WritesUpTo(g, s, plan, ROWS)
         == WritesUpTo(g, s, plan, n) + WritesUpTo(Filled(g, s, plan, n), s, plan, ROWS)
  {
    var h := Filled(g, s, plan, n);
    var a, b := Blocks(g, s, plan), Blocks(h, s, plan);
    FilledFrame(g, s, plan, n);
    forall k | 0 <= k < ROWS ensures b[k] == if k < n then [] else a[k] {
      FilledRows(g, s, plan, n, k + 1);
      RemainingBlock(g, h, s, plan, n, k + 1);
    }
    FlatRemaining(a, b, n, ROWS);
  }

  /** Every cut of a list of blocks is either between two of them or inside one. */
  lemma {:induction false} LocateCut<T>(blocks: seq<seq<T>>, k: nat, n: nat) returns (i: nat)
    requires n <= |blocks| && k <= |Flat(blocks, n)|
    ensures i <= n && Flat(blocks, i) <= Flat(blocks, n) && |Flat(blocks, i)| <= k
    ensures |Flat(blocks, i)| == k
      || (i < n && k < |Flat(blocks, i + 1)| && Flat(blocks, i + 1) <= Flat(blocks, n))
  {
    if k == |Flat(blocks, n)| {
      i := n;
    } else if k >= |Flat(blocks, n - 1)| {
      i := n - 1;
    } else {
      i := LocateCut(blocks, k, n - 1);
    }
  }

  ghost function Crashed(g: Graph, s: Signal, k: nat): Graph
    requires k <= |Writes(g, s)|
  {
    ApplyAll(g, Writes(g, s)[..k])
  }

  lemma {:induction false} NoWrites(g: Graph, s: Signal, n: nat)
    requires n <= ROWS
    ensures WritesUpTo(g, s, [], n) == []
  {
    if n == 0 {
    } else {
      NoWrites(g, s, n - 1);
    }
  }

  lemma TopUpIsFilled(g: Graph, s: Signal)
    requires WellFormed(g)
    ensures TopUp(g, s) == Filled(g, s, PlanFor(g, s), ROWS)
  {
    AppliedIsFilled(g, s, PlanFor(g, s), ROWS);
  }

  /** Two graphs that agree on the brands and on the original spend plan the same call. */
  lemma SamePlan(g: Graph, h: Graph, s: Signal)
    requires g.brands == h.brands && Original(g, s) == Original(h, s)
    ensures RefusalOf(h, s) == RefusalOf(g, s) && PlanFor(h, s) == PlanFor(g, s)
    ensures Accepted(g, s) ==> Gap(h, s) == Gap(g, s)
  {
    assert RefusalOf(h, s) == RefusalOf(g, s) by {
      if s.brand in g.brands { assert Budget(h, s.brand) == Budget(g, s.brand); }
    }
    if Accepted(g, s) {
      SameTarget(g, h, s);
      assert Gap(h, s) == GapFrom(Target(g, s), Original(g, s)) == Gap(g, s);
    }
  }

  lemma SameTarget(g: Graph, h: Graph, s: Signal)
    requires g.brands == h.brands && Accepted(g, s)
    ensures Accepted(h, s) && Target(h, s) == Target(g, s)
  {
    assert Budget(h, s.brand) == Budget(g, s.brand);
  }

  lemma ResumeBetweenRows(g: Graph, h: Graph, s: Signal, plan: seq<int>, i: nat)
    requires WellFormed(g) && i <= ROWS && plan == PlanFor(g, s) && h == Filled(g, s, plan, i)
    ensures RefusalOf(h, s) == RefusalOf(g, s) && Original(h, s) == Original(g, s)
    ensures Accepted(g, s) ==> Gap(h, s) == Gap(g, s)
    ensures Writes(g, s) == WritesUpTo(g, s, plan, i) + Writes(h, s)
  {
    FilledFrame(g, s, plan, i);
    FilledOriginal(g, s, plan, i);
    SamePlan(g, h, s);
    RemainingWrites(g, s, plan, i);
  }

  lemma PartialRow(g: Graph, p: Graph, s: Signal, n: nat, amount: int, j: nat)
    requires g.account == p.account && g.period == p.period
    requires 1 <= j < |RowWrites(g, s, n, amount)|
    requires WellFormed(p) && Row(s, n) !in p.money
    ensures var c := ApplyAll(p, RowWrites(g, s, n, amount)[..j]);
      WellFormed(c) && Row(s, n) in c.money && c.account == p.account && c.period == p.period
      && RowLinks(g, s, n)[|RowLinks(g, s, n)| - 1] !in c.links
  {
    var links := RowLinks(g, s, n);
    var first := [Upsert(Row(s, n), amount as real)];
    var some := links[..j - 1];
    assert RowWrites(g, s, n, amount)[..j] == first + LinkWrites(some);
    ApplyConcat(p, first, LinkWrites(some));
    assert first[..0] == [];
    assert ApplyAll(p, first) == Apply(p, first[0]);
    ApplyLinks(Apply(p, first[0]), some);
    assert forall l <- some :: l in links && l != links[|links| - 1];
    assert forall l <- links :: l.money == Row(s, n);
  }

  /** A crash inside a row leaves that row without its last link, now and after every retry. */
  lemma TornRowNeverHeals(g: Graph, s: Signal, k: nat, i: nat)
    requires WellFormed(g) && i < ROWS && k <= |Writes(g, s)|
    requires |WritesUpTo(g, s, PlanFor(g, s), i)| < k < |WritesUpTo(g, s, PlanFor(g, s), i + 1)|
    requires WritesUpTo(g, s, PlanFor(g, s), i + 1) <= Writes(g, s)
    ensures !NoTornRow(Crashed(g, s, k), s)
    ensures TopUp(Crashed(g, s, k), s) != TopUp(g, s)
  {
    var plan, n := PlanFor(g, s), i + 1;
    var before := WritesUpTo(g, s, plan, i);
    var block := Block(g, s, plan, n);
    var j := k - |before|;
    var c := Crashed(g, s, k);
    var links := RowLinks(g, s, n);
    var last := links[|links| - 1];
    assert Writes(g, s)[..k] == WritesUpTo(g, s, plan, n)[..k] == before + block[..j];
    ApplyConcat(g, before, block[..j]);
    AppliedIsFilled(g, s, plan, i);
    FilledFrame(g, s, plan, i);
    FilledRows(g, s, plan, i, n);
    PartialRow(g, Filled(g, s, plan, i), s, n, plan[n - 1], j);
    assert RowLinks(c, s, n) == links;
    assert last in links && last.money == Row(s, n);
    assert !Whole(c, s, n);
    TopUpIsFilled(c, s);
    FilledFrame(c, s, PlanFor(c, s), ROWS);
    assert last !in TopUp(c, s).links;
    TopUpIsFilled(g, s);
    FilledWhole(g, s, plan, ROWS, n);
    FilledRows(g, s, plan, ROWS, n);
    FilledFrame(g, s, plan, ROWS);
    assert RowLinks(TopUp(g, s), s, n) == links;
  }

  lemma SameFigures(g: Graph, c: Graph, s: Signal)
    requires c.brands == g.brands && RefusalOf(c, s) == RefusalOf(g, s)
    requires Accepted(g, s) ==> Gap(c, s) == Gap(g, s) && Original(c, s) == Original(g, s)
    requires TopUp(c, s) == TopUp(g, s)
    ensures Observe(c, s) == Observe(g, s)
  {}

  lemma ResumeAtBoundary(g: Graph, s: Signal, k: nat, i: nat)
    requires WellFormed(g) && NoTornRow(g, s) && k <= |Writes(g, s)| && i <= ROWS
    requires Writes(g, s)[..k] == WritesUpTo(g, s, PlanFor(g, s), i)
    ensures NoTornRow(Crashed(g, s, k), s) && TopUp(Crashed(g, s, k), s) == TopUp(g, s)
    ensures Writes(Crashed(g, s, k), s) == Writes(g, s)[k..] && Observe(Crashed(g, s, k), s) == Observe(g, s)
  {
    var plan, c := PlanFor(g, s), Crashed(g, s, k);
    AppliedIsFilled(g, s, plan, i);
    assert c == Filled(g, s, plan, i);
    forall n | 1 <= n <= ROWS ensures Whole(c, s, n) { FilledWhole(g, s, plan, i, n); }
    ResumeBetweenRows(g, c, s, plan, i);
    assert Writes(g, s) == Writes(g, s)[..k] + Writes(c, s);
    ApplyConcat(g, Writes(g, s)[..k], Writes(c, s));
    FilledFrame(g, s, plan, i);
    SameFigures(g, c, s);
  }

  /** A retry with the same arguments finishes an interrupted call, with the same writes, the same
      final graph and the same returned figures, exactly when the interruption left no torn row. */
  lemma RetryConvergesExactly(g: Graph, s: Signal, k: nat)
    requires WellFormed(g) && NoTornRow(g, s) && k <= |Writes(g, s)|
    ensures TopUp(Crashed(g, s, k), s) == TopUp(g, s) <==> NoTornRow(Crashed(g, s, k), s)
    ensures NoTornRow(Crashed(g, s, k), s) ==>
      Writes(Crashed(g, s, k), s) == Writes(g, s)[k..] && Observe(Crashed(g, s, k), s) == Observe(g, s)
  {
    var i := LocateCut(Blocks(g, s, PlanFor(g, s)), k, ROWS);
    if |WritesUpTo(g, s, PlanFor(g, s), i)| < k {
      TornRowNeverHeals(g, s, k, i);
    } else {
      ResumeAtBoundary(g, s, k, i);
    }
  }

  /** Calling again after a complete call writes nothing and returns the same figures. */
  lemma RepeatWritesNothing(g: Graph, s: Signal)
    requires WellFormed(g) && NoTornRow(g, s)
    ensures Writes(TopUp(g, s), s) == []
    ensures Observe(TopUp(g, s), s) == Observe(g, s)
  {
    var k := |Writes(g, s)|;
    assert Writes(g, s)[..k] == Writes(g, s);
    TopUpIsFilled(g, s);
    forall n | 1 <= n <= ROWS ensures Whole(TopUp(g, s), s, n) { FilledWhole(g, s, PlanFor(g, s), ROWS, n); }
    RetryConvergesExactly(g, s, k);
  }
}
