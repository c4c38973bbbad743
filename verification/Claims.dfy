/** data/synthetic/generate.py: labelled expense claims.  The generator picks a label first and then an
    amount that is meant to show it; the amount is rounded, and rounding must not cross a policy band. */
module Claims {
  import opened Rounding

  datatype Category = Meals | Travel | Accommodation | Entertainment | Miscellaneous
  datatype Market = UK | US | DE | IN
  datatype Label = Green | Amber | Red

  const CATEGORIES := [Meals, Travel, Accommodation, Entertainment, Miscellaneous]
  const MARKETS := [UK, US, DE, IN]

  /** The cap of a claim, per head for entertainment, in units of currency. */
  function Cap(category: Category, market: Market): nat {
    match category
    case Meals => (match market case UK => 40 case US => 50 case DE => 45 case IN => 2500)
    case Travel => (match market case UK => 900 case US => 1200 case DE => 950 case IN => 60000)
    case Accommodation => (match market case UK => 280 case US => 380 case DE => 240 case IN => 16000)
    case Entertainment => (match market case UK => 110 case US => 130 case DE => 100 case IN => 5500)
    case Miscellaneous => (match market case UK => 1500 case US => 2000 case DE => 1600 case IN => 80000)
  }

  /** Amounts are kept in the unit they are rounded to: whole rupees, or hundredths. */
  function Grid(market: Market): nat { if market == IN then 1 else 100 }

  /** What the random generator supplies for one claim. */
  datatype Draw = Draw(factor: real, attendees: nat)

  /** The red claims whose breach is alcohol, at an amount within the cap. */
  predicate AlcoholBreach(category: Category, market: Market, target: Label) {
    target == Red && (category == Meals || category == Entertainment) && (market == DE || market == IN)
  }

  /** The interval `rng.uniform` is called with. */
  function Range(category: Category, market: Market, target: Label): (real, real) {
    match target
    case Green =>
      (match category
       case Meals => (0.55, 0.92)
       case Travel => (0.55, 0.92)
       case Accommodation => (0.6, 0.92)
       case Entertainment => (0.6, 0.92)
       case Miscellaneous => (0.5, 0.92))
    case Amber => (1.0, 1.1)
    case Red =>
      if AlcoholBreach(category, market, target) then (if category == Meals then (0.6, 0.9) else (0.7, 0.95))
      else if category == Travel then (1.15, 1.55)
      else (1.15, 1.45)
  }

  predicate Possible(category: Category, market: Market, target: Label, d: Draw) {
    && Range(category, market, target).0 <= d.factor <= Range(category, market, target).1
    && (if category == Entertainment then 2 <= d.attendees <= 4 else d.attendees == 1)
  }

  /** The cap in grid steps. */
  function Unit(category: Category, market: Market): nat {
    Cap(category, market) * Grid(market)
  }

  /** The cap of the whole claim, in grid steps. */
  function Limit(category: Category, market: Market, d: Draw): nat {
    Unit(category, market) * d.attendees
  }

  /** The random factor times the cap of the claim. */
  function Product(factor: real, limit: nat): real {
    factor * limit as real
  }

  function Unrounded(category: Category, market: Market, d: Draw): real {
    Product(d.factor, Limit(category, market, d))
  }

  /** The amount the claim carries, after `_round_to_pence`. */
  function Amount(category: Category, market: Market, d: Draw): int {
    HalfEven(Unrounded(category, market, d))
  }

  /** The policy's bands: within the cap, up to 110% of it, beyond. */
  function Band(amount: int, limit: int): Label {
    if amount <= limit then Green
    else if 10 * amount <= 11 * limit then Amber
    else Red
  }

  lemma UnitOnGrid(category: Category, market: Market)
    ensures Unit(category, market) >= 2500
    ensures Unit(category, market) % 10 == 0
  {
    var cap := Cap(category, market);
    if market == IN {
      assert cap >= 2500 && cap % 10 == 0;
    } else {
      assert cap >= 40;
      assert Unit(category, market) == 10 * (10 * cap);
    }
  }

  lemma MultipleOnGrid(unit: nat, n: nat)
    requires unit >= 2500 && unit % 10 == 0 && n >= 1
    ensures unit * n >= 2500
    ensures unit * n % 10 == 0
  {
    var tens := unit / 10;
    assert unit * n == (10 * tens) * n == 10 * (tens * n);
    assert unit * (n - 1) >= 0;
  }

  /** Cap and 110% of the cap lie on the grid, and the bands are many grid steps wide. */
  lemma LimitOnGrid(category: Category, market: Market, d: Draw)
    requires 1 <= d.attendees
    ensures Limit(category, market, d) >= 2500
    ensures Limit(category, market, d) % 10 == 0
  {
    hide Unit;
    UnitOnGrid(category, market);
    MultipleOnGrid(Unit(category, market), d.attendees);
  }

  lemma Nonnegative(a: real, c: real)
    requires 0.0 <= a && 0.0 <= c
    ensures 0.0 <= a * c
  {}

  /** A bound on the factor bounds the unrounded amount. */
  lemma ProductBounds(u: real, limit: nat)
    ensures u <= 0.95 ==> Product(u, limit) <= 0.95 * limit as real
    ensures 1.0 <= u ==> limit as real <= Product(u, limit)
    ensures u <= 1.1 ==> Product(u, limit) <= 1.1 * limit as real
    ensures 1.15 <= u ==> 1.15 * limit as real <= Product(u, limit)
  {
    var c := limit as real;
    if u <= 0.95 { Nonnegative(0.95 - u, c); }
    if 1.0 <= u { Nonnegative(u - 1.0, c); }
    if u <= 1.1 { Nonnegative(1.1 - u, c); }
    if 1.15 <= u { Nonnegative(u - 1.15, c); }
  }

  lemma GreenRounds(x: real, limit: nat)
    requires limit >= 2500 && x <= 0.95 * limit as real
    ensures HalfEven(x) < limit
  {}

  lemma AmberRounds(x: real, limit: nat)
    requires limit % 10 == 0 && limit as real <= x <= 1.1 * limit as real
    ensures limit <= HalfEven(x) && 10 * HalfEven(x) <= 11 * limit
    ensures HalfEven(x) > limit <==> x > limit as real + 0.5
  {
    HalfEvenMonotone(limit as real, x);
    HalfEvenInteger(limit);
    var top := 11 * (limit / 10);
    assert 1.1 * limit as real == top as real;
    HalfEvenMonotone(x, top as real);
    HalfEvenInteger(top);
  }

  lemma RedRounds(x: real, limit: nat)
    requires limit >= 2500 && x >= 1.15 * limit as real
    ensures 10 * HalfEven(x) > 11 * limit
  {}

  /** Every claim of every category and market shows its label, whatever is drawn: greens stay below the
      cap, reds beyond 110% unless their breach is alcohol, ambers between cap and 110%, both included. */
  lemma AmountShowsLabel(category: Category, market: Market, target: Label, d: Draw)
    requires Possible(category, market, target, d)
    ensures target == Green ==> Amount(category, market, d) < Limit(category, market, d)
    ensures target == Red ==> Band(Amount(category, market, d), Limit(category, market, d))
                              == if AlcoholBreach(category, market, target) then Green else Red
    ensures target == Amber ==>
              && Limit(category, market, d) <= Amount(category, market, d)
              && Band(Amount(category, market, d), Limit(category, market, d)) != Red
  {
    hide Limit, Product, HalfEven, IsHalfEven;
    LimitOnGrid(category, market, d);
    ProductBounds(d.factor, Limit(category, market, d));
    var limit, x := Limit(category, market, d), Unrounded(category, market, d);
    if target == Green || AlcoholBreach(category, market, target) {
      FactorBelow(category, market, target, d);
      GreenRounds(x, limit);
    } else if target == Amber {
      AmberRounds(x, limit);
    } else {
      RedRounds(x, limit);
    }
  }

  lemma FactorBelow(category: Category, market: Market, target: Label, d: Draw)
    requires Possible(category, market, target, d)
    requires target == Green || AlcoholBreach(category, market, target)
    ensures d.factor <= 0.95
  {}

  /** "Above the cap", as the amber reasoning text claims, is not quite so: a draw within half a grid step
      of the cap rounds onto it.  It is above exactly when the unrounded amount clears that half step. */
  lemma AmberIsAboveCapExactly(category: Category, market: Market, d: Draw)
    requires Possible(category, market, Amber, d)
    ensures Band(Amount(category, market, d), Limit(category, market, d)) == Amber
       <==> Unrounded(category, market, d) > Limit(category, market, d) as real + 0.5
  {
    hide Limit, Product, HalfEven, IsHalfEven;
    LimitOnGrid(category, market, d);
    ProductBounds(d.factor, Limit(category, market, d));
    AmberRounds(Unrounded(category, market, d), Limit(category, market, d));
  }

  lemma AmberCanEqualCap(market: Market)
    ensures Possible(Travel, market, Amber, Draw(1.0, 1))
    ensures Amount(Travel, market, Draw(1.0, 1)) == Limit(Travel, market, Draw(1.0, 1))
  {
    HalfEvenInteger(Limit(Travel, market, Draw(1.0, 1)));
  }

  // ---------------------------------------------------------------- the walk of run

  /** `_label_for_index`. */
  function LabelAt(i: nat): Label { LabelInBlock(i % 10) }

  function LabelInBlock(rest: nat): Label {
    if rest <= 6 then Green else if rest <= 8 then Amber else Red
  }

  function CategoryAt(i: nat): Category { CATEGORIES[i % 5] }

  function MarketAt(i: nat): Market { MARKETS[i % 4] }

  datatype Claim = Claim(category: Category, market: Market, target: Label, amount: int, attendees: nat)

  function ClaimAt(i: nat, d: Draw): Claim {
    Claim(CategoryAt(i), MarketAt(i), LabelAt(i), Amount(CategoryAt(i), MarketAt(i), d), d.attendees)
  }

  /** `run`, given what its random generator draws. */
  method Run(count: nat, draws: seq<Draw>) returns (rows: seq<Claim>)
    requires |draws| == count
    ensures |rows| == count
    ensures forall i | 0 <= i < count :: rows[i] == ClaimAt(i, draws[i])
    ensures forall l: Label :: Total(rows, l) == Expected(count, l)
    ensures count == 300 ==> Total(rows, Green) == 210 && Total(rows, Amber) == 60 && Total(rows, Red) == 30
  {
    rows := [];
    for i := 0 to count
      invariant |rows| == i
      invariant forall j | 0 <= j < i :: rows[j] == ClaimAt(j, draws[j])
      invariant forall l: Label :: Total(rows, l) == Expected(i, l)
    {
      var target := LabelAt(i);
      var category := CATEGORIES[i % |CATEGORIES|];
      var market := MARKETS[i % |MARKETS|];
      var claim := Claim(category, market, target, Amount(category, market, draws[i]), draws[i].attendees);
      assert (rows + [claim])[..i] == rows;
      ExpectedStep(i);
      rows := rows + [claim];
    }
  }

  function Total(rows: seq<Claim>, target: Label): nat {
    if rows == [] then 0
    else Total(rows[..|rows| - 1], target) + (if rows[|rows| - 1].target == target then 1 else 0)
  }

  function Min(a: int, b: int): int { if a < b then a else b }

  function Max(a: int, b: int): int { if a < b then b else a }

  /** Seven greens, two ambers and a red in each block of ten, in that order. */
  function Expected(count: nat, target: Label): int {
    InBlock(count / 10, count % 10, target)
  }

  function InBlock(blocks: nat, rest: nat, target: Label): int {
    match target
    case Green => 7 * blocks + Min(rest, 7)
    case Amber => 2 * blocks + Min(Max(rest - 7, 0), 2)
    case Red => blocks
  }

  lemma NextInBlock(i: nat)
    ensures i % 10 < 9 ==> (i + 1) / 10 == i / 10 && (i + 1) % 10 == i % 10 + 1
    ensures i % 10 == 9 ==> (i + 1) / 10 == i / 10 + 1 && (i + 1) % 10 == 0
  {}

  lemma BlockStep(blocks: nat, rest: nat, l: Label)
    requires rest < 10
    ensures (if rest == 9 then InBlock(blocks + 1, 0, l) else InBlock(blocks, rest + 1, l))
         == InBlock(blocks, rest, l) + (if LabelInBlock(rest) == l then 1 else 0)
  {}

  lemma ExpectedStep(i: nat)
    ensures forall l: Label :: Expected(i + 1, l) == Expected(i, l) + (if LabelAt(i) == l then 1 else 0)
  {
    NextInBlock(i);
    hide InBlock;
    forall l: Label ensures Expected(i + 1, l) == Expected(i, l) + (if LabelAt(i) == l then 1 else 0) {
      BlockStep(i / 10, i % 10, l);
    }
  }

  /** Labels and categories walk in step, so amber claims are only ever accommodation or entertainment
      and red ones only miscellaneous. */
  lemma LabelsMeetFewCategories(i: nat)
    ensures LabelAt(i) == Amber ==> CategoryAt(i) == Accommodation || CategoryAt(i) == Entertainment
    ensures LabelAt(i) == Red ==> CategoryAt(i) == Miscellaneous
  {
    assert i % 5 == (i % 10) % 5;
  }

  /** So no alcohol breach is ever generated, and the band of every generated amount is its gold label,
      except for the ambers that round onto the cap. */
  lemma GeneratedBandIsLabel(i: nat, d: Draw)
    requires Possible(CategoryAt(i), MarketAt(i), LabelAt(i), d)
    ensures var c := ClaimAt(i, d);
      var limit := Limit(c.category, c.market, d);
      Band(c.amount, limit) == c.target || (c.target == Amber && c.amount == limit)
  {
    LabelsMeetFewCategories(i);
    AmountShowsLabel(CategoryAt(i), MarketAt(i), LabelAt(i), d);
    hide CategoryAt, MarketAt, LabelAt, Amount, Limit;
  }

  ghost predicate Covers(count: nat, category: Category, market: Market) {
    exists i: nat :: i < count && CategoryAt(i) == category && MarketAt(i) == market
  }

  lemma LastCell(i: nat)
    requires CategoryAt(i) == Miscellaneous && MarketAt(i) == IN
    ensures i >= 19
  {
    assert i % 5 == 4 && i % 4 == 3;
  }

  /** The comment says that all 5x4 cells always appear; they do exactly from 20 claims on. */
  lemma AllCellsExactly(count: nat)
    ensures (forall category, market :: Covers(count, category, market)) <==> count >= 20
  {
    if count >= 20 {
      forall category, market ensures Covers(count, category, market) {
        var i := CellIndex(category, market);
        assert CategoryAt(i) == category && MarketAt(i) == market;
      }
    } else {
      forall i: nat | i < count ensures !(CategoryAt(i) == Miscellaneous && MarketAt(i) == IN) {
        if CategoryAt(i) == Miscellaneous && MarketAt(i) == IN { LastCell(i); }
      }
      assert !Covers(count, Miscellaneous, IN);
    }
  }

  function Position(category: Category): (a: nat)
    ensures a < 5 && CATEGORIES[a] == category
  {
    match category
    case Meals => 0
    case Travel => 1
    case Accommodation => 2
    case Entertainment => 3
    case Miscellaneous => 4
  }

  function Region(market: Market): (b: nat)
    ensures b < 4 && MARKETS[b] == market
  {
    match market case UK => 0 case US => 1 case DE => 2 case IN => 3
  }

  /** The index of a cell in the first twenty claims, by the Chinese remainder theorem. */
  function CellIndex(category: Category, market: Market): (i: nat)
    ensures i < 20 && CategoryAt(i) == category && MarketAt(i) == market
  {
    var a, b := Position(category), Region(market);
    var i := a + 5 * ((b - a) % 4);
    assert i % 5 == a;
    assert i % 4 == b;
    i
  }
}
