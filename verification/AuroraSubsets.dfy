/** A budget signal of which any of the five rows, not only the first ones, have been written whole: the
    retry converges all the same. */
module AuroraSubsets {
  import opened Values
  import opened AuroraTopUp

  /** The rows of `picked` that the call would write on graph `g`. */
  function Missing(g: Graph, s: Signal, plan: seq<int>, picked: set<nat>): set<nat> {
    set i | i in picked && 1 <= i <= |plan| && Row(s, i) !in g.money
  }

  /** The graph once those rows have been written whole, in whatever order. */
  function WithRows(g: Graph, s: Signal, plan: seq<int>, picked: set<nat>): Graph {
    var rows := Missing(g, s, plan, picked);
    g.(money := g.money + MoneyOf(s, plan, rows), links := g.links + LinksOf(g, s, rows))
  }

  function MoneyOf(s: Signal, plan: seq<int>, rows: set<nat>): map<MoneyId, real>
    requires forall i <- rows :: 1 <= i <= |plan|
  {
    map id | id in (set i | i in rows :: Row(s, i)) :: plan[id.index - 1] as real
  }

  function LinksOf(g: Graph, s: Signal, rows: set<nat>): set<Link> {
    set i, l | i in rows && l in RowLinks(g, s, i) :: l
  }

  function FirstRows(n: nat): (rows: set<nat>)
    ensures forall i: nat :: i in rows <==> 1 <= i <= n
  {
    if n == 0 then {} else FirstRows(n - 1) + {n}
  }

  lemma NoRows(g: Graph, s: Signal, plan: seq<int>)
    ensures WithRows(g, s, plan, {}) == g
  {
    assert Missing(g, s, plan, {}) == {};
    assert g.money + MoneyOf(s, plan, {}) == g.money;
    assert g.links + LinksOf(g, s, {}) == g.links;
  }

  lemma NotMissing(g: Graph, s: Signal, plan: seq<int>, picked: set<nat>, n: nat)
    requires n in picked || Row(s, n) in g.money || n == 0 || n > |plan|
    ensures WithRows(g, s, plan, picked + {n}) == WithRows(g, s, plan, picked)
  {
    assert Missing(g, s, plan, picked + {n}) == Missing(g, s, plan, picked);
  }

  lemma OneMoreRow(g: Graph, s: Signal, plan: seq<int>, picked: set<nat>, n: nat)
    requires n !in picked && Row(s, n) !in g.money && 1 <= n <= |plan|
    ensures Row(s, n) !in WithRows(g, s, plan, picked).money
    ensures WithRows(g, s, plan, picked + {n}) == WithRow(WithRows(g, s, plan, picked), s, n, plan[n - 1])
  {
    var rows := Missing(g, s, plan, picked);
    var h := WithRows(g, s, plan, picked);
    assert Missing(g, s, plan, picked + {n}) == rows + {n};
    assert RowLinks(h, s, n) == RowLinks(g, s, n);
    assert MoneyOf(s, plan, rows + {n}) == MoneyOf(s, plan, rows)[Row(s, n) := plan[n - 1] as real];
    assert LinksOf(g, s, rows + {n}) == LinksOf(g, s, rows) + set l | l in RowLinks(g, s, n);
    MergeLast(g.money, MoneyOf(s, plan, rows), Row(s, n), plan[n - 1] as real);
    UnionLast(g.links, LinksOf(g, s, rows), set l | l in RowLinks(g, s, n));
  }

  lemma MergeLast(m: map<MoneyId, real>, a: map<MoneyId, real>, id: MoneyId, x: real)
    ensures m + a[id := x] == (m + a)[id := x]
  {}

  lemma UnionLast(g: set<Link>, a: set<Link>, b: set<Link>)
    ensures g + (a + b) == (g + a) + b
  {}

  /** Filling the rows up to `n` is writing the first `n` rows. */
  lemma {:induction false} FilledIsWithRows(g: Graph, s: Signal, plan: seq<int>, n: nat)
    ensures Filled(g, s, plan, n) == WithRows(g, s, plan, FirstRows(n))
  {
    if n == 0 {
      assert FirstRows(0) == {};
      NoRows(g, s, plan);
    } else {
      FilledIsWithRows(g, s, plan, n - 1);
      hide WithRows, WithRow, FirstRows;
      if Row(s, n) in g.money || n > |plan| {
        NotMissing(g, s, plan, FirstRows(n - 1), n);
      } else {
        LastIsNew(n);
        OneMoreRow(g, s, plan, FirstRows(n - 1), n);
      }
    }
  }

  lemma LastIsNew(n: nat)
    requires n > 0
    ensures n !in FirstRows(n - 1)
  {}

  lemma AllRows(picked: set<nat>)
    requires forall i <- picked :: 1 <= i <= ROWS
    ensures picked + FirstRows(ROWS) == FirstRows(ROWS)
  {}

  /** Writing rows in two goes is writing them in one. */
  lemma TwoGoes(g: Graph, s: Signal, plan: seq<int>, a: set<nat>, b: set<nat>)
    ensures WithRows(WithRows(g, s, plan, a), s, plan, b) == WithRows(g, s, plan, a + b)
  {
    var h := WithRows(g, s, plan, a);
    var x, y := Missing(g, s, plan, a), Missing(h, s, plan, b);
    forall i: nat ensures Row(s, i) in h.money <==> Row(s, i) in g.money || i in x {
      RowWritten(g, s, plan, a, i);
    }
    assert Missing(g, s, plan, a + b) == x + y;
    forall i: nat ensures RowLinks(h, s, i) == RowLinks(g, s, i) {}
    hide Missing, RowLinks;
    MoneySplit(s, plan, x, y);
    LinksSplit(g, h, s, x, y);
    assert (g.money + MoneyOf(s, plan, x)) + MoneyOf(s, plan, y) == 
        g.money + (MoneyOf(s, plan, x) + MoneyOf(s, plan, y));
    UnionLast(g.links, LinksOf(g, s, x), LinksOf(g, s, y));
  }

  lemma RowWritten(g: Graph, s: Signal, plan: seq<int>, picked: set<nat>, i: nat)
    ensures Row(s, i) in WithRows(g, s, plan, picked).money <==>
      Row(s, i) in g.money || i in Missing(g, s, plan, picked)
  {
    var rows := Missing(g, s, plan, picked);
    assert Row(s, i) in (set k | k in rows :: Row(s, k)) <==> i in rows;
  }

  lemma MoneySplit(s: Signal, plan: seq<int>, x: set<nat>, y: set<nat>)
    requires forall i <- x + y :: 1 <= i <= |plan|
    ensures MoneyOf(s, plan, x + y) == MoneyOf(s, plan, x) + MoneyOf(s, plan, y)
  {
    assert (set i | i in x + y :: Row(s, i)) == (set i | i in x :: Row(s, i)) + (set i | i in y :: Row(s, i));
  }

  lemma LinksSplit(g: Graph, h: Graph, s: Signal, x: set<nat>, y: set<nat>)
    requires forall i: nat :: RowLinks(h, s, i) == RowLinks(g, s, i)
    ensures LinksOf(g, s, x + y) == LinksOf(g, s, x) + LinksOf(h, s, y)
    ensures LinksOf(h, s, y) == LinksOf(g, s, y)
  {}

  /** Whole rows leave the graph sound and the signal's view of the original spend as it was. */
  lemma {:induction false} RowsKeepView(g: Graph, s: Signal, plan: seq<int>, picked: set<nat>)
    requires WellFormed(g) && NoTornRow(g, s) && forall i <- picked :: 1 <= i <= ROWS
    ensures var h := WithRows(g, s, plan, picked);
      WellFormed(h) && NoTornRow(h, s) && Original(h, s) == Original(g, s) && h.brands == g.brands
    decreases picked
  {
    if picked == {} {
      NoRows(g, s, plan);
    } else {
      var n :| n in picked;
      var rest := picked - {n};
      RowsKeepView(g, s, plan, rest);
      assert picked == rest + {n};
      hide WithRows, WellFormed, NoTornRow, Original, WithRow;
      if Row(s, n) in g.money || n > |plan| {
        NotMissing(g, s, plan, rest, n);
      } else {
        OneMoreRow(g, s, plan, rest, n);
        RowKeepsView(WithRows(g, s, plan, rest), s, n, plan[n - 1]);
      }
    }
  }

  lemma RowKeepsView(g: Graph, s: Signal, n: nat, amount: int)
    requires WellFormed(g) && NoTornRow(g, s) && Row(s, n) !in g.money && 1 <= n <= ROWS
    ensures var h := WithRow(g, s, n, amount);
      WellFormed(h) && NoTornRow(h, s) && Original(h, s) == Original(g, s) && h.brands == g.brands
  {
    var h := WithRow(g, s, n, amount);
    WithRowFrame(g, g, s, n, amount);
    OriginalWithRow(g, s, n, amount);
    forall i | 1 <= i <= ROWS ensures Whole(h, s, i) {
      assert Whole(g, s, i);
      WithRowWhole(g, s, n, amount, i);
    }
    hide Original;
  }

  /** If any subset of the rows has been written whole, calling again with the same arguments ends in the
      graph of an uninterrupted call and returns its figures, and a further call writes nothing. */
  lemma AnySubsetConverges(g: Graph, s: Signal, picked: set<nat>)
    requires WellFormed(g) && NoTornRow(g, s) && forall i <- picked :: 1 <= i <= ROWS
    ensures var h := WithRows(g, s, PlanFor(g, s), picked);
      && TopUp(h, s) == TopUp(g, s)
      && Observe(h, s) == Observe(g, s)
      && Writes(TopUp(h, s), s) == []
  {
    var plan := PlanFor(g, s);
    var h := WithRows(g, s, plan, picked);
    RowsKeepView(g, s, plan, picked);
    hide WithRows, WellFormed, NoTornRow, Original, Filled, Observe, Writes, PlanFor;
    SamePlan(g, h, s);
    TopUpIsFilled(g, s);
    TopUpIsFilled(h, s);
    FilledIsWithRows(g, s, plan, ROWS);
    FilledIsWithRows(h, s, plan, ROWS);
    TwoGoes(g, s, plan, picked, FirstRows(ROWS));
    AllRows(picked);
    assert TopUp(h, s) == TopUp(g, s);
    SameFigures(g, h, s);
    RepeatWritesNothing(g, s);
  }
}
