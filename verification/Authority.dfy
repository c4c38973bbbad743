/** The authority resolver: the first well-formed matching rule of an ordered matrix wins. */
module Authority {
  import opened Values

  datatype Number = NaN | Num(x: real)

  datatype Band = Band(min: Option<real>, max: Option<real>)

  datatype Rule = Rule(
    id: string, action: string, category: string, band: Option<Band>, unit: string, geography: string,
    requester: string, approver: string, escalation: seq<string>, basis: string)

  datatype Request = Request(
    action: string, value: Option<Number>, category: Option<string>, requester: Option<string>,
    unit: Option<string>, geography: Option<string>)

  datatype Response =
    | Unmatched
    | Matched(approver: string, threshold: Option<real>, escalation: seq<string>, id: string, basis: string)

  const WILDCARD := "*"

  predicate FieldMatches(rule: string, asked: Option<string>) {
    if rule == WILDCARD then true
    else if asked.None? || asked.value == "" then false
    else rule == asked.value
  }

  predicate Unbounded(b: Band) { b.min.None? && b.max.None? }

  predicate ValueInBand(band: Option<Band>, value: Option<Number>) {
    if band.None? || Unbounded(band.value) then true
    else if value.None? || value.value.NaN? then false
    else
      && (band.value.min.Some? ==> value.value.x >= band.value.min.value)
      && (band.value.max.Some? ==> value.value.x <= band.value.max.value)
  }

  predicate WellFormed(r: Rule) {
    && r.id != "" && r.action != "" && r.approver != "" && r.band.Some?
    && (r.band.value.min.Some? && r.band.value.max.Some? ==> r.band.value.min.value <= r.band.value.max.value)
  }

  predicate Applies(r: Rule, q: Request) {
    && WellFormed(r) && r.action == q.action
    && FieldMatches(r.category, q.category) && FieldMatches(r.unit, q.unit)
    && FieldMatches(r.geography, q.geography) && FieldMatches(r.requester, q.requester)
    && ValueInBand(r.band, q.value)
  }

  function Answer(r: Rule): Response
    requires WellFormed(r)
  {
    Matched(r.approver, r.band.value.max, r.escalation, r.id, r.basis)
  }

  function Resolve(m: seq<Rule>, q: Request): Response {
    if m == [] then Unmatched else if Applies(m[0], q) then Answer(m[0]) else Resolve(m[1..], q)
  }

  /** The index scan with early return. */
  method ResolveScan(m: seq<Rule>, q: Request) returns (r: Response)
    ensures r == Resolve(m, q)
  {
    for i := 0 to |m|
      invariant Resolve(m, q) == Resolve(m[i..], q)
    {
      if WellFormed(m[i]) && m[i].action == q.action && FieldMatches(m[i].category, q.category)
        && FieldMatches(m[i].unit, q.unit) && FieldMatches(m[i].geography, q.geography)
        && FieldMatches(m[i].requester, q.requester) && ValueInBand(m[i].band, q.value)
      {
        return Matched(m[i].approver, m[i].band.value.max, m[i].escalation, m[i].id, m[i].basis);
      }
    }
    r := Unmatched;
  }

  datatype Verdict = NoRule | IsApprover(ruleId: string) | InEscalation(ruleId: string) | NotAuthorised(ruleId: string)

  predicate Allowed(v: Verdict) { v.IsApprover? || v.InEscalation? }

  function CheckAuthority(m: seq<Rule>, q: Request, role: string): Verdict {
    match Resolve(m, q)
    case Unmatched => NoRule
    case Matched(approver, _, escalation, id, _) =>
      if approver == role then IsApprover(id)
      else if role in escalation then InEscalation(id)
      else NotAuthorised(id)
  }

  // ---------------------------------------------------------------------------------------------
  // What resolving means
  // ---------------------------------------------------------------------------------------------

  lemma {:induction false} ResolveMeaning(m: seq<Rule>, q: Request)
    ensures Resolve(m, q).Unmatched? <==> forall r <- m :: !Applies(r, q)
    ensures Resolve(m, q).Matched? ==>
      exists i :: 0 <= i < |m| && Applies(m[i], q) && Resolve(m, q) == Answer(m[i])
                  && forall j | 0 <= j < i :: !Applies(m[j], q)
  {
    if m == [] {
    } else {
      ResolveMeaning(m[1..], q);
      assert forall r <- m :: r == m[0] || r in m[1..];
      if Applies(m[0], q) {
        assert Resolve(m, q) == Answer(m[0]);
      } else if Resolve(m[1..], q).Matched? {
        var i :| 0 <= i < |m[1..]| && Applies(m[1..][i], q) && Resolve(m[1..], q) == Answer(m[1..][i])
          && forall j | 0 <= j < i :: !Applies(m[1..][j], q);
        forall j | 0 <= j < i + 1 ensures !Applies(m[j], q) { if j > 0 { assert m[j] == m[1..][j - 1]; } }
        assert m[i + 1] == m[1..][i];
      }
    }
  }

  predicate Suits(rule: string, asked: Option<string>) {
    rule == "*" || (rule != "" && asked == Some(rule))
  }

  /** The rule is complete and consistent, names the action, and its other fields are "*" or what was asked;
      its band has no bounds, or the value is a number between them, the bounds included. */
  predicate Governs(r: Rule, q: Request) {
    && r.id != "" && r.approver != "" && r.action != "" && r.action == q.action && r.band.Some?
    && Suits(r.category, q.category) && Suits(r.unit, q.unit)
    && Suits(r.geography, q.geography) && Suits(r.requester, q.requester)
    && match r.band.value
       case Band(None, None) => true
       case Band(Some(low), None) => q.value.Some? && q.value.value.Num? && low <= q.value.value.x
       case Band(None, Some(high)) => q.value.Some? && q.value.value.Num? && q.value.value.x <= high
       case Band(Some(low), Some(high)) => q.value.Some? && q.value.value.Num? && low <= q.value.value.x <= high
  }

  lemma AppliesExactly(r: Rule, q: Request)
    ensures Applies(r, q) <==> Governs(r, q)
  {}

  /** A match is the first rule that governs the request: its approver, its upper bound as threshold, its
      escalation chain, its id and its basis.  There is none exactly when no rule governs. */
  lemma ResolveFields(m: seq<Rule>, q: Request) returns (i: nat)
    ensures Resolve(m, q).Unmatched? <==> forall r <- m :: !Governs(r, q)
    ensures Resolve(m, q).Matched? ==>
      && i < |m| && Governs(m[i], q) && (forall j | 0 <= j < i :: !Governs(m[j], q))
      && Resolve(m, q).approver == m[i].approver
      && Resolve(m, q).threshold == m[i].band.value.max
      && Resolve(m, q).escalation == m[i].escalation
      && Resolve(m, q).id == m[i].id && Resolve(m, q).basis == m[i].basis
  {
    ResolveMeaning(m, q);
    forall r ensures Applies(r, q) <==> Governs(r, q) { AppliesExactly(r, q); }
    hide Resolve, Governs, Applies;
    i := 0;
    if Resolve(m, q).Matched? {
      i :| 0 <= i < |m| && Applies(m[i], q) && Resolve(m, q) == Answer(m[i])
        && forall j | 0 <= j < i :: !Applies(m[j], q);
      assert Governs(m[i], q);
      GovernsHasBand(m[i], q);
    }
  }

  /** The check asks the first rule that governs, and reports its id: allowed as its approver, or else in its
      escalation chain. */
  lemma CheckFields(m: seq<Rule>, q: Request, role: string) returns (i: nat)
    ensures CheckAuthority(m, q, role) == NoRule <==> forall r <- m :: !Governs(r, q)
    ensures CheckAuthority(m, q, role) != NoRule ==>
      && i < |m| && Governs(m[i], q) && (forall j | 0 <= j < i :: !Governs(m[j], q))
      && CheckAuthority(m, q, role) ==
           if m[i].approver == role then IsApprover(m[i].id)
           else if role in m[i].escalation then InEscalation(m[i].id)
           else NotAuthorised(m[i].id)
  {
    i := ResolveFields(m, q);
    hide Resolve, Governs;
  }

  lemma GovernsHasBand(r: Rule, q: Request)
    requires Governs(r, q)
    ensures r.band.Some?
  {}

  lemma {:induction false} ResolveConcat(a: seq<Rule>, b: seq<Rule>, q: Request)
    ensures Resolve(a + b, q) == if Resolve(a, q).Matched? then Resolve(a, q) else Resolve(b, q)
  {
    if a == [] {
      assert a + b == b;
    } else {
      ResolveConcat(a[1..], b, q);
      assert (a + b)[1..] == a[1..] + b;
    }
  }

  // ---------------------------------------------------------------------------------------------
  // Rewrites that preserve every answer
  // ---------------------------------------------------------------------------------------------

  function WellFormedOnly(m: seq<Rule>): seq<Rule> {
    if m == [] then [] else (if WellFormed(m[0]) then [m[0]] else []) + WellFormedOnly(m[1..])
  }

  lemma {:induction false} MalformedRulesAreSkipped(m: seq<Rule>, q: Request)
    ensures Resolve(WellFormedOnly(m), q) == Resolve(m, q)
  {
    if m == [] {
    } else {
      MalformedRulesAreSkipped(m[1..], q);
      ResolveConcat(if WellFormed(m[0]) then [m[0]] else [], WellFormedOnly(m[1..]), q);
      assert [m[0]][1..] == [];
    }
  }

  lemma AppendingAfterMatch(m: seq<Rule>, more: seq<Rule>, q: Request)
    requires Resolve(m, q).Matched?
    ensures Resolve(m + more, q) == Resolve(m, q)
  {
    ResolveConcat(m, more, q);
  }

  predicate FieldCovers(a: string, b: string) { a == WILDCARD || a == b }

  predicate BandCovers(a: Band, b: Band) {
    || Unbounded(a)
    || (&& !Unbounded(b)
        && (a.min.Some? ==> b.min.Some? && a.min.value <= b.min.value)
        && (a.max.Some? ==> b.max.Some? && b.max.value <= a.max.value))
  }

  /** Rule `a` covers rule `b`, field by field. */
  predicate Subsumes(a: Rule, b: Rule)
    requires WellFormed(a) && WellFormed(b)
  {
    && a.action == b.action
    && FieldCovers(a.category, b.category) && FieldCovers(a.unit, b.unit)
    && FieldCovers(a.geography, b.geography) && FieldCovers(a.requester, b.requester)
    && BandCovers(a.band.value, b.band.value)
  }

  /** A non-wildcard field that is empty never matches anything. */
  predicate Satisfiable(r: Rule) {
    r.category != "" && r.unit != "" && r.geography != "" && r.requester != ""
  }

  /** A value for a field that matches `b`, and matches `a` only if `a` covers `b`. */
  function Probe(a: string, b: string): string {
    if b != WILDCARD then b else if a == WILDCARD then "x" else a + "x"
  }

  lemma ProbeDecides(a: string, b: string)
    requires b != ""
    ensures FieldMatches(b, Some(Probe(a, b))) && (FieldMatches(a, Some(Probe(a, b))) <==> FieldCovers(a, b))
  {
    if b == WILDCARD && a != WILDCARD { assert |a + "x"| == |a| + 1; }
  }

  function Least(x: real, y: Option<real>): real { if y.Some? && y.value < x then y.value else x }

  function Greatest(x: real, y: Option<real>): real { if y.Some? && y.value > x then y.value else x }

  /** Likewise a value for the band. */
  function ProbeValue(a: Band, b: Band): Option<Number> {
    if Unbounded(b) then None
    else if a.min.Some? && (b.min.None? || b.min.value < a.min.value) then
      Some(Num(if b.min.Some? then b.min.value else Least(a.min.value - 1.0, b.max)))
    else if a.max.Some? && (b.max.None? || b.max.value > a.max.value) then
      Some(Num(if b.max.Some? then b.max.value else Greatest(a.max.value + 1.0, b.min)))
    else Some(Num(if b.min.Some? then b.min.value else b.max.value))
  }

  lemma ProbeValueDecides(a: Band, b: Band)
    requires b.min.Some? && b.max.Some? ==> b.min.value <= b.max.value
    ensures ValueInBand(Some(b), ProbeValue(a, b))
    ensures ValueInBand(Some(a), ProbeValue(a, b)) <==> BandCovers(a, b)
  {}

  /** Field-by-field covering is exactly the semantic notion: every request `b` applies to, `a` applies to. */
  lemma SubsumptionIsExact(a: Rule, b: Rule)
    requires WellFormed(a) && WellFormed(b)
    ensures (forall q :: Applies(b, q) ==> Applies(a, q)) <==> Subsumes(a, b) || !Satisfiable(b)
  {
    if Satisfiable(b) {
      var q := Request(b.action, ProbeValue(a.band.value, b.band.value),
                       Some(Probe(a.category, b.category)), Some(Probe(a.requester, b.requester)),
                       Some(Probe(a.unit, b.unit)), Some(Probe(a.geography, b.geography)));
      ProbeDecides(a.category, b.category);
      ProbeDecides(a.requester, b.requester);
      ProbeDecides(a.unit, b.unit);
      ProbeDecides(a.geography, b.geography);
      ProbeValueDecides(a.band.value, b.band.value);
      assert Applies(b, q) && (Applies(a, q) <==> Subsumes(a, b));
    }
  }

  /** A rule that an earlier well-formed rule covers, or that can never match, is dead: deleting it
      changes no answer. */
  predicate Dead(earlier: seq<Rule>, r: Rule) {
    || !WellFormed(r) || !Satisfiable(r)
    || exists i :: 0 <= i < |earlier| && WellFormed(earlier[i]) && Subsumes(earlier[i], r)
  }

  lemma DeletingDeadRule(before: seq<Rule>, r: Rule, after: seq<Rule>, q: Request)
    requires Dead(before, r)
    ensures Resolve(before + after, q) == Resolve(before + [r] + after, q)
  {
    ResolveConcat(before, after, q);
    ResolveConcat(before, [r] + after, q);
    ResolveConcat([r], after, q);
    assert before + [r] + after == before + ([r] + after);
    assert [r][1..] == [];
    if Applies(r, q) {
      var i :| 0 <= i < |before| && WellFormed(before[i]) && Subsumes(before[i], r);
      SubsumptionIsExact(before[i], r);
      ResolveMeaning(before, q);
      assert before[i] in before;
    }
  }

  /** Drop every dead rule in one pass. */
  function Prune(kept: seq<Rule>, m: seq<Rule>): seq<Rule>
    decreases |m|
  {
    if m == [] then kept
    else if Dead(kept, m[0]) then Prune(kept, m[1..])
    else Prune(kept + [m[0]], m[1..])
  }

  lemma {:induction false} PruningPreservesAnswers(kept: seq<Rule>, m: seq<Rule>, q: Request)
    ensures Resolve(Prune(kept, m), q) == Resolve(kept + m, q)
    decreases |m|
  {
    if m == [] {
      assert kept + m == kept;
    } else {
      assert kept + m == kept + [m[0]] + m[1..];
      if Dead(kept, m[0]) {
        DeletingDeadRule(kept, m[0], m[1..], q);
        PruningPreservesAnswers(kept, m[1..], q);
      } else {
        PruningPreservesAnswers(kept + [m[0]], m[1..], q);
      }
    }
  }

  // ---------------------------------------------------------------------------------------------
  // When order does not matter
  // ---------------------------------------------------------------------------------------------

  /** No request has two different rules apply to it. */
  ghost predicate Exclusive(m: seq<Rule>) {
    forall a, b, q | a in m && b in m && Applies(a, q) && Applies(b, q) :: a == b
  }

  /** Two arrangements of the same mutually exclusive rules, repeats allowed, answer alike. */
  lemma ExclusiveRulesCommute(m: seq<Rule>, n: seq<Rule>, q: Request)
    requires Exclusive(m) && forall r :: r in m <==> r in n
    ensures Resolve(m, q) == Resolve(n, q)
  {
    ResolveMeaning(m, q);
    ResolveMeaning(n, q);
    if Resolve(m, q).Matched? {
      var i :| 0 <= i < |m| && Applies(m[i], q) && Resolve(m, q) == Answer(m[i]);
      assert m[i] in n;
      var j :| 0 <= j < |n| && Applies(n[j], q) && Resolve(n, q) == Answer(n[j]);
      assert n[j] in m;
    } else {
      assert forall r <- n :: r in m;
    }
  }

  /** Two adjacent rules may be swapped for a request exactly when one of them does not apply to it or
      they give the same answer, whatever stands after them. */
  lemma SwapExactly(a: Rule, b: Rule, rest: seq<Rule>, q: Request)
    ensures Resolve([a, b] + rest, q) == Resolve([b, a] + rest, q)
       <==> !Applies(a, q) || !Applies(b, q) || Answer(a) == Answer(b)
  {
    assert ([a, b] + rest)[1..] == [b] + rest && ([b] + rest)[1..] == rest;
    assert ([b, a] + rest)[1..] == [a] + rest && ([a] + rest)[1..] == rest;
  }

  // ---------------------------------------------------------------------------------------------
  // The authority check
  // ---------------------------------------------------------------------------------------------

  /** A role is allowed exactly when the first rule that applies names it as approver or escalation. */
  lemma AllowedExactly(m: seq<Rule>, q: Request, role: string)
    ensures Allowed(CheckAuthority(m, q, role)) <==>
      exists i :: 0 <= i < |m| && Applies(m[i], q) && (forall j | 0 <= j < i :: !Applies(m[j], q))
                  && (m[i].approver == role || role in m[i].escalation)
  {
    ResolveMeaning(m, q);
    if Resolve(m, q).Matched? {
      var i :| 0 <= i < |m| && Applies(m[i], q) && Resolve(m, q) == Answer(m[i])
               && forall j | 0 <= j < i :: !Applies(m[j], q);
      forall k | 0 <= k < |m| && Applies(m[k], q) && (forall j | 0 <= j < k :: !Applies(m[j], q)) ensures k == i {}
    }
  }

  /** The check inherits every rewrite: malformed rules, dead rules, and order among exclusive rules. */
  lemma CheckInherits(m: seq<Rule>, n: seq<Rule>, q: Request, role: string)
    ensures CheckAuthority(WellFormedOnly(m), q, role) == CheckAuthority(m, q, role)
    ensures CheckAuthority(Prune([], m), q, role) == CheckAuthority(m, q, role)
    ensures Exclusive(m) && (forall r :: r in m <==> r in n) ==>
              CheckAuthority(m, q, role) == CheckAuthority(n, q, role)
    ensures !CheckAuthority(m, q, role).NoRule? ==> CheckAuthority(m + n, q, role) == CheckAuthority(m, q, role)
  {
    MalformedRulesAreSkipped(m, q);
    PruningPreservesAnswers([], m, q);
    assert [] + m == m;
    if Exclusive(m) && (forall r :: r in m <==> r in n) { ExclusiveRulesCommute(m, n, q); }
    if Resolve(m, q).Matched? { AppendingAfterMatch(m, n, q); }
  }
}
