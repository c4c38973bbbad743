/** `observe_budget_signal` itself: the loops and graph writes, proved against the call model. */
module AuroraService {
  import opened Values
  import opened Rounding
  import opened AuroraTopUp

  /** The entity graph as the signal code sees it.  `log` lists every write in order. */
  class EntityGraph {
    const brands: map<string, Brand>
    const account: Option<string>
    const period: Option<string>
    var money: map<MoneyId, real>
    var links: set<Link>
    ghost const origin: Graph
    ghost var log: seq<Write>

    ghost function Value(): Graph
      reads this
    {
      Graph(brands, money, links, account, period)
    }

    ghost predicate Valid()
      reads this
    {
      WellFormed(Value()) && Value() == ApplyAll(origin, log)
    }

    constructor (brands: map<string, Brand>, account: Option<string>, period: Option<string>)
      ensures Valid() && Value() == Graph(brands, map[], {}, account, period) && log == []
    {
      this.brands, this.account, this.period := brands, account, period;
      money, links, log := map[], {}, [];
      origin := Graph(brands, map[], {}, account, period);
    }

    method Put(id: MoneyId, amount: real)
      requires Valid()
      modifies this`money, this`log
      ensures Valid() && Value() == Apply(old(Value()), Upsert(id, amount))
      ensures log == old(log) + [Upsert(id, amount)]
    {
      money, log := money[id := amount], log + [Upsert(id, amount)];
      assert log[..|log| - 1] == old(log);
    }

    /** MERGE of a relationship; the caller has just written the money row. */
    method Join(link: Link)
      requires Valid() && link.money in money
      modifies this`links, this`log
      ensures Valid() && Value() == Apply(old(Value()), AddLink(link))
      ensures log == old(log) + [AddLink(link)]
    {
      links, log := links + {link}, log + [AddLink(link)];
      assert log[..|log| - 1] == old(log);
    }

    /** `sum(m.amount)` over the rows costed to the brand. */
    method QuerySpend(brand: string) returns (total: real)
      ensures total == Spend(Value(), brand)
    {
      var left := set id | id in money && CostedToBrand(id, brand) in links;
      ghost var all := left;
      assert all == Costed(Value(), brand);
      total := 0.0;
      while left != {}
        invariant left <= all
        invariant Sum(all, money) == total + Sum(left, money)
      {
        var id :| id in left;
        assert (left - {id}) + {id} == left;
        SumAdd(left - {id}, id, money);
        total, left := total + money[id], left - {id};
      }
    }
  }

  method ExistingRows(graph: EntityGraph, s: Signal) returns (ids: set<MoneyId>, total: real)
    ensures forall i | 1 <= i <= ROWS :: Row(s, i) in ids <==> Row(s, i) in graph.money
    ensures total == ExistingUpTo(graph.Value(), s, ROWS)
  {
    ids, total := {}, 0.0;
    for i := 1 to ROWS + 1
      invariant forall j: nat :: Row(s, j) in ids <==> 1 <= j < i && Row(s, j) in graph.money
      invariant total == ExistingUpTo(graph.Value(), s, i - 1)
    {
      if Row(s, i) in graph.money {
        ids, total := ids + {Row(s, i)}, total + graph.money[Row(s, i)];
      }
    }
  }

  /** One pass of the row loop: the row, then its links. */
  method WriteRow(graph: EntityGraph, s: Signal, i: nat, amount: int)
    requires graph.Valid()
    modifies graph
    ensures graph.Valid() && graph.log == old(graph.log) + RowWrites(old(graph.Value()), s, i, amount)
  {
    ghost var before := graph.Value();
    graph.Put(Row(s, i), amount as real);
    graph.Join(CostedToBrand(Row(s, i), s.brand));
    match graph.account {
      case Some(a) => graph.Join(BookedAgainst(Row(s, i), a));
      case None =>
    }
    match graph.period {
      case Some(p) => graph.Join(BelongsTo(Row(s, i), p));
      case None =>
    }
    assert graph.log == old(graph.log) + RowWrites(before, s, i, amount);
  }

  /** One turn of the row loop: skipped when the row exists or there is nothing to fill. */
  method WriteMissingRow(graph: EntityGraph, s: Signal, existing: set<MoneyId>, gap: real, i: nat, amount: int,
                         ghost before: Graph, ghost plan: seq<int>)
    requires graph.Valid() && 1 <= i <= ROWS
    requires Row(s, i) in existing <==> Row(s, i) in before.money
    requires before.account == graph.account && before.period == graph.period
    requires if gap > 0.0 then |plan| == ROWS && amount == plan[i - 1] else plan == []
    modifies graph
    ensures graph.Valid() && graph.log == old(graph.log) + Block(before, s, plan, i)
  {
    if Row(s, i) !in existing && gap > 0.0 {
      assert RowWrites(graph.Value(), s, i, amount) == RowWrites(before, s, i, amount);
      WriteRow(graph, s, i, amount);
    }
  }

  method RowAmount(gap: real, perRow: int, i: nat) returns (amount: int)
    requires 1 <= i <= ROWS && perRow == (if gap > 0.0 then PerRow(gap) else 0)
    ensures if gap > 0.0 then |Plan(gap)| == ROWS && amount == Plan(gap)[i - 1] else Plan(gap) == []
  {
    amount := if i < ROWS then perRow else HalfEven(gap - (4 * perRow) as real);
  }

  method WriteRows(graph: EntityGraph, s: Signal, existing: set<MoneyId>, gap: real, perRow: int, ghost plan: seq<int>)
    requires graph.Valid() && plan == Plan(gap) && perRow == (if gap > 0.0 then PerRow(gap) else 0)
    requires forall i | 1 <= i <= ROWS :: Row(s, i) in existing <==> Row(s, i) in graph.money
    modifies graph
    ensures graph.Valid()
    ensures graph.log == old(graph.log) + WritesUpTo(old(graph.Value()), s, plan, ROWS)
  {
    ghost var before := graph.Value();
    ghost var blocks := Blocks(before, s, plan);
    for i := 1 to ROWS + 1
      invariant graph.Valid()
      invariant graph.log == old(graph.log) + Flat(blocks, i - 1)
    {
      var amount := RowAmount(gap, perRow, i);
      WriteMissingRow(graph, s, existing, gap, i, amount, before, plan);
      assert blocks[i - 1] == Block(before, s, plan, i);
      ConcatLonger(old(graph.log), Flat(blocks, i - 1), blocks[i - 1]);
    }
  }

  lemma ConcatLonger(a: seq<Write>, b: seq<Write>, c: seq<Write>)
    ensures (a + b) + c == a + (b + c)
  {}

  /** From reading the spend to reading it again: what the signal saw and what it left. */
  method FillGap(graph: EntityGraph, s: Signal, budget: real) returns (original: real, gap: real, after: real)
    requires graph.Valid() && Accepted(graph.Value(), s) && budget == Budget(graph.Value(), s.brand)
    modifies graph
    ensures graph.Valid()
    ensures original == Original(old(graph.Value()), s) && gap == Gap(old(graph.Value()), s)
    ensures graph.log == old(graph.log) + Writes(old(graph.Value()), s)
    ensures graph.Value() == TopUp(old(graph.Value()), s)
    ensures after == Spend(TopUp(old(graph.Value()), s), s.brand)
  {
    ghost var before := graph.Value();
    var existing, existingTotal := ExistingRows(graph, s);
    var currentSpend := graph.QuerySpend(s.brand);
    original := Max(0.0, currentSpend - existingTotal);
    gap := Max(0.0, budget * s.target - original);
    assert original == Original(before, s) && gap == Gap(before, s) && PlanFor(before, s) == Plan(gap);
    var perRow := if gap != 0.0 then HalfEven(gap / 5.0) else 0;
    WriteRows(graph, s, existing, gap, perRow, Plan(gap));
    ApplyConcat(graph.origin, old(graph.log), Writes(before, s));
    after := graph.QuerySpend(s.brand);
  }

  method ObserveBudgetSignal(graph: EntityGraph, workflow: string, brandId: string, target: real)
    returns (r: Outcome)
    requires graph.Valid()
    modifies graph
    ensures graph.Valid()
    ensures var s := Signal(workflow, brandId, target);
      && r == Observe(old(graph.Value()), s)
      && graph.Value() == TopUp(old(graph.Value()), s)
      && graph.log == old(graph.log) + Writes(old(graph.Value()), s)
  {
    var s := Signal(workflow, brandId, target);
    ghost var before := graph.Value();
    if !(0.0 < target <= 2.0) { NoWrites(before, s, ROWS); return Refused(BadTarget); }
    if brandId !in graph.brands { NoWrites(before, s, ROWS); return Refused(BrandNotFound); }
    var brand := graph.brands[brandId];
    var budget := match brand.budget case Some(b) => b case None => 0.0;
    if budget <= 0.0 { NoWrites(before, s, ROWS); return Refused(NoBudget); }

    var original, gap, after := FillGap(graph, s, budget);
    hide TopUp, Writes, Original, Gap, Spend, HalfEven;
    r := Observed(Report(
      s,
      match brand.name case Some(n) => (if n == "" then brandId else n) case None => brandId,
      budget,
      HalfEven(original), HalfEven(after),
      HalfEven(10000.0 * original / budget), HalfEven(10000.0 * after / budget),
      if gap > 0.0 then RowIds(s) else [],
      HalfEven(gap)));
  }
}
