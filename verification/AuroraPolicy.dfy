/** `apply_approved_policy`: an at-most-once, conflict-detecting write of a freeze decision, on top of
    the graph's own deduplicating `record_decision`. */
module AuroraPolicy {
  import opened Values

  datatype Decision = Decision(
    id: string, workflow: string, phase: string, role: string, verdict: string, reason: string,
    attributes: map<string, Json>, decidedOn: seq<string>)

  datatype Approval = Approval(
    decision: Option<string>, decisionId: Option<string>, actorRole: Option<string>, resolvedBy: Json)

  datatype Action = Action(
    id: Json, kind: Option<string>, verdict: Option<string>, reason: Option<string>,
    attributes: map<string, Json>, decidedOn: seq<string>)

  datatype Authority = Authority(allowed: bool, ruleId: Json, reason: string)

  /** `check` is the governance kernel's answer, by role, for a policy_set of category po; `newId` is
      the id the graph would mint. */
  datatype Call = Call(
    workflow: string, brand: string, approval: Approval, action: Action,
    check: string -> Authority, newId: string)

  datatype Error =
    | NotApproved | NoDecisionId | WrongAction | OutOfScope | WrongTarget
    | Unauthorised(reason: string) | Conflict

  datatype Outcome =
    | Raised(error: Error)
    | Applied(duplicate: bool, decisionId: string, approvalId: string, ruleId: Json, brand: string, verdict: string)

  const PHASE := "policy_set"
  const FREEZE := "freeze"

  function OrEmpty(o: Option<string>): string { match o case Some(s) => s case None => "" }

  function RoleOf(c: Call): string { Lower(Strip(OrEmpty(c.approval.actorRole))) }

  function ApprovalId(c: Call): string { Strip(OrEmpty(c.approval.decisionId)) }

  /** The checks before the graph is read, in order. */
  function Guard(c: Call): Option<Error> {
    if c.approval.decision != Some("approve") then Some(NotApproved)
    else if ApprovalId(c) == "" then Some(NoDecisionId)
    else if OrEmpty(c.action.kind) != PHASE || OrEmpty(c.action.verdict) != FREEZE then Some(WrongAction)
    else if Get(c.action.attributes, "scope") != Str("po") then Some(OutOfScope)
    else if c.action.decidedOn != [c.brand] then Some(WrongTarget)
    else if !c.check(RoleOf(c)).allowed then Some(Unauthorised(c.check(RoleOf(c)).reason))
    else None
  }

  predicate HasKey(d: Decision, workflow: string, phase: string, role: string) {
    d.workflow == workflow && d.phase == phase && d.role == role
  }

  /** The first decision with the given key. */
  function FindKey(ds: seq<Decision>, workflow: string, phase: string, role: string): Option<Decision> {
    if ds == [] then None
    else if HasKey(ds[0], workflow, phase, role) then Some(ds[0])
    else FindKey(ds[1..], workflow, phase, role)
  }

  predicate Matches(d: Decision, workflow: string, role: string) {
    HasKey(d, workflow, PHASE, role)
  }

  /** The graph query: the first policy_set decision of the workflow and role. */
  function Find(ds: seq<Decision>, workflow: string, role: string): Option<Decision> {
    FindKey(ds, workflow, PHASE, role)
  }

  function NewDecision(c: Call): Decision {
    Decision(
      c.newId, c.workflow, PHASE, RoleOf(c), FREEZE,
      if OrEmpty(c.action.reason) == "" then "Approved Aurora purchase-order freeze" else OrEmpty(c.action.reason),
      c.action.attributes + map[
        "action_id" := c.action.id,
        "approval_decision_id" := Str(ApprovalId(c)),
        "approved_by" := c.approval.resolvedBy,
        "governing_rule_id" := c.check(RoleOf(c)).ruleId,
        "target_brand_id" := Str(c.brand)],
      [c.brand])
  }

  predicate SameApproval(d: Decision, c: Call) {
    d.verdict == FREEZE && Get(d.attributes, "approval_decision_id") == Str(ApprovalId(c))
  }

  /** The reply when the read found a decision already recorded. */
  function Replay(d: Decision, c: Call): Outcome {
    if !SameApproval(d, c) then Raised(Conflict)
    else Applied(true, d.id, ApprovalId(c), Get(d.attributes, "governing_rule_id"), c.brand, FREEZE)
  }

  /** `record_decision` and the reply built from it: the first writer of (workflow, phase, role) wins,
      later ones silently get its id. */
  function Record(ds: seq<Decision>, c: Call): (seq<Decision>, Outcome) {
    var reply := (id: string) => Applied(false, id, ApprovalId(c), c.check(RoleOf(c)).ruleId, c.brand, FREEZE);
    match Find(ds, c.workflow, RoleOf(c))
    case Some(d) => (ds, reply(d.id))
    case None => (ds + [NewDecision(c)], reply(c.newId))
  }

  /** A call whose read and write see the same graph. */
  function Step(ds: seq<Decision>, c: Call): (seq<Decision>, Outcome) {
    match Guard(c)
    case Some(e) => (ds, Raised(e))
    case None =>
      match Find(ds, c.workflow, RoleOf(c))
      case Some(d) => (ds, Replay(d, c))
      case None => Record(ds, c)
  }

  /** One move of an interleaved run: a whole call, or the write half of a call whose read, made
      earlier, found nothing. */
  datatype Move = Whole(c: Call) | LateWrite(c: Call)

  function Take(ds: seq<Decision>, m: Move): (seq<Decision>, Outcome) {
    if m.LateWrite? && Guard(m.c).None? then Record(ds, m.c) else Step(ds, m.c)
  }

  function Run(ds: seq<Decision>, h: seq<Move>): seq<Decision> {
    if h == [] then ds else Take(Run(ds, h[..|h| - 1]), h[|h| - 1]).0
  }

  lemma {:induction false} FindMeaning(ds: seq<Decision>, workflow: string, role: string)
    ensures Find(ds, workflow, role).None? <==> forall d <- ds :: !Matches(d, workflow, role)
    ensures Find(ds, workflow, role).Some? ==>
      Find(ds, workflow, role).value in ds && Matches(Find(ds, workflow, role).value, workflow, role)
  {
    if ds == [] {
    } else {
      FindMeaning(ds[1..], workflow, role);
      assert ds == [ds[0]] + ds[1..];
      assert forall d :: d in ds <==> d == ds[0] || d in ds[1..];
      assert Matches(ds[0], workflow, role) <==> HasKey(ds[0], workflow, PHASE, role);
      hide HasKey;
    }
  }

  lemma {:induction false} FindStable(ds: seq<Decision>, more: seq<Decision>, workflow: string, role: string)
    requires Find(ds, workflow, role).Some?
    ensures Find(ds + more, workflow, role) == Find(ds, workflow, role)
  {
    if Matches(ds[0], workflow, role) {
    } else {
      FindStable(ds[1..], more, workflow, role);
      assert (ds + more)[1..] == ds[1..] + more;
    }
  }

  lemma {:induction false} FindLast(ds: seq<Decision>, d: Decision, workflow: string, role: string)
    requires Find(ds, workflow, role).None? && Matches(d, workflow, role)
    ensures Find(ds + [d], workflow, role) == Some(d)
  {
    if ds == [] {
    } else {
      FindLast(ds[1..], d, workflow, role);
      assert (ds + [d])[1..] == ds[1..] + [d];
    }
  }

  // ---------------------------------------------------------------------------------------------
  // Every run, interleaved or not
  // ---------------------------------------------------------------------------------------------

  ghost predicate AtMostOne(ds: seq<Decision>) {
    forall i, j | 0 <= i < j < |ds| && ds[i].phase == PHASE :: !Matches(ds[j], ds[i].workflow, ds[i].role)
  }

  /** A text field of the call, trimmed; blank when it is missing. */
  predicate TrimmedTo(o: Option<string>, s: string) {
    match o case Some(text) => Strip(text) == s case None => s == ""
  }

  /** The approval says approve and has an id, the action is a freeze of purchase orders on this brand and
      no other target, and the kernel allows the actor's role. */
  ghost predicate Permitted(c: Call) {
    && c.approval.decision == Some("approve")
    && c.approval.decisionId.Some? && Strip(c.approval.decisionId.value) != ""
    && c.action.kind == Some("policy_set")
    && c.action.verdict == Some("freeze")
    && "scope" in c.action.attributes && c.action.attributes["scope"] == Str("po")
    && c.action.decidedOn == [c.brand]
    && (forall role | TrimmedTo(c.approval.actorRole, role) :: c.check(Lower(role)).allowed)
  }

  lemma GuardExactly(c: Call)
    ensures Guard(c).None? <==> Permitted(c)
  {
    assert forall role :: TrimmedTo(c.approval.actorRole, role) <==> role == Strip(OrEmpty(c.approval.actorRole));
    assert Strip("") == "";
  }

  /** The decision records this call: its workflow, the actor's role, the freeze, the approval it rests on, the
      rule that allowed it and the brand, next to the action's own attributes. */
  ghost predicate Records(d: Decision, c: Call) {
    && d.id == c.newId && d.workflow == c.workflow
    && d.phase == "policy_set" && d.verdict == "freeze" && d.decidedOn == [c.brand]
    && (exists role :: TrimmedTo(c.approval.actorRole, role) && d.role == Lower(role))
    && (exists id :: TrimmedTo(c.approval.decisionId, id) && Get(d.attributes, "approval_decision_id") == Str(id))
    && Get(d.attributes, "governing_rule_id") == c.check(d.role).ruleId
    && Get(d.attributes, "target_brand_id") == Str(c.brand)
    && Get(d.attributes, "approved_by") == c.approval.resolvedBy
    && Get(d.attributes, "action_id") == c.action.id
    && Get(d.attributes, "scope") == Get(c.action.attributes, "scope")
    && (c.action.reason in {None, Some("")} ==> d.reason == "Approved Aurora purchase-order freeze")
    && (c.action.reason !in {None, Some("")} ==> c.action.reason == Some(d.reason))
  }

  lemma NewDecisionRecords(c: Call)
    ensures Records(NewDecision(c), c)
  {
    var d := NewDecision(c);
    assert TrimmedTo(c.approval.actorRole, Strip(OrEmpty(c.approval.actorRole))) by { assert Strip("") == ""; }
    assert TrimmedTo(c.approval.decisionId, ApprovalId(c)) by { assert Strip("") == ""; }
    assert d.role == Lower(Strip(OrEmpty(c.approval.actorRole)));
    AttributeKeys(c);
    assert d.reason ==
      if c.action.reason in {None, Some("")} then "Approved Aurora purchase-order freeze" else c.action.reason.value;
    hide NewDecision, Strip, Lower;
  }

  lemma AttributeKeys(c: Call)
    ensures var a := NewDecision(c).attributes;
      && Get(a, "approval_decision_id") == Str(ApprovalId(c))
      && Get(a, "governing_rule_id") == c.check(RoleOf(c)).ruleId
      && Get(a, "target_brand_id") == Str(c.brand)
      && Get(a, "approved_by") == c.approval.resolvedBy
      && Get(a, "action_id") == c.action.id
      && Get(a, "scope") == Get(c.action.attributes, "scope")
  {
  }

  /** The decision was written by a call that may set the policy, and is the record of that call. */
  ghost predicate Justified(d: Decision, c: Call) {
    Permitted(c) && Records(d, c) && c.check(d.role).allowed
  }

  /** A call is answered "applied", and a decision is added, only for a permitted call; and a permitted call
      is refused only because another approval, or another verdict, holds its place. */
  lemma AppliedExactly(ds: seq<Decision>, c: Call)
    ensures var (after, reply) := Step(ds, c);
      && (reply.Applied? <==> Permitted(c) && forall d | Find(ds, c.workflow, RoleOf(c)) == Some(d) ::
            d.verdict == "freeze" && Get(d.attributes, "approval_decision_id") == Str(ApprovalId(c)))
      && (after != ds ==> Permitted(c) && |after| == |ds| + 1 && after[..|ds|] == ds && Records(after[|ds|], c))
      && (reply.Applied? ==>
            && reply.brand == c.brand && reply.verdict == "freeze"
            && TrimmedTo(c.approval.decisionId, reply.approvalId)
            && (reply.duplicate <==> after == ds)
            && exists d <- after :: d.id == reply.decisionId && Get(d.attributes, "governing_rule_id") == reply.ruleId
                                    && Get(d.attributes, "approval_decision_id") == Str(reply.approvalId))
  {
    GuardExactly(c);
    NewDecisionRecords(c);
    AttributeKeys(c);
    FindMeaning(ds, c.workflow, RoleOf(c));
    assert Strip("") == "";
    var (after, reply) := Step(ds, c);
    if reply.Applied? && after != ds {
      assert after[|ds|] == NewDecision(c) && NewDecision(c) in after;
    }
    hide Strip, NewDecision, Permitted, Records;
  }

  /** A move, even one whose read was too early, only ever appends the record of its own permitted call, in a
      place nobody holds; and it is answered "applied" only for such a call. */
  lemma MoveEffect(ds: seq<Decision>, m: Move)
    ensures var after := Take(ds, m).0;
      after == ds || (after == ds + [NewDecision(m.c)] && Justified(NewDecision(m.c), m.c)
                      && forall d <- ds :: !Matches(d, m.c.workflow, RoleOf(m.c)))
    ensures Take(ds, m).1.Applied? ==> Permitted(m.c)
  {
    FindMeaning(ds, m.c.workflow, RoleOf(m.c));
    GuardExactly(m.c);
    NewDecisionRecords(m.c);
    assert NewDecision(m.c).role == RoleOf(m.c);
    hide Permitted, Records, NewDecision;
  }

  /** Decisions are only ever appended. */
  lemma {:induction false} RunAppends(ds: seq<Decision>, h: seq<Move>)
    ensures ds <= Run(ds, h)
  {
    if h == [] {
    } else {
      RunAppends(ds, h[..|h| - 1]);
    }
  }

  lemma AppendKeepsAtMostOne(ds: seq<Decision>, d: Decision)
    requires AtMostOne(ds) && d.phase == PHASE
    requires forall e <- ds :: !Matches(e, d.workflow, d.role)
    ensures AtMostOne(ds + [d])
  {
    var all := ds + [d];
    forall i, j | 0 <= i < j < |all| && all[i].phase == PHASE ensures !Matches(all[j], all[i].workflow, all[i].role) {
      assert all[i] == ds[i] && all[i] in ds;
    }
  }

  lemma {:induction false} RunAtMostOne(ds: seq<Decision>, h: seq<Move>)
    requires forall d <- ds :: d.phase != PHASE
    ensures AtMostOne(Run(ds, h))
  {
    if h == [] {
    } else {
      var before, m := Run(ds, h[..|h| - 1]), h[|h| - 1];
      RunAtMostOne(ds, h[..|h| - 1]);
      MoveEffect(before, m);
      if Run(ds, h) != before { AppendKeepsAtMostOne(before, NewDecision(m.c)); }
    }
  }

  lemma {:induction false} RunJustified(ds: seq<Decision>, h: seq<Move>, d: Decision) returns (k: nat)
    requires d in Run(ds, h) && d !in ds
    ensures k < |h| && Justified(d, h[k].c)
  {
    var before, m := Run(ds, h[..|h| - 1]), h[|h| - 1];
    MoveEffect(before, m);
    if d in before {
      k := RunJustified(ds, h[..|h| - 1], d);
    } else {
      k := |h| - 1;
    }
  }

  /** From a graph with no policy_set decision, through any interleaving of calls: each workflow and
      role has at most one, and each was written by a call that passed the authority check and names
      only that call's brand. */
  lemma EveryDecisionIsUniqueAndAuthorised(ds: seq<Decision>, h: seq<Move>)
    requires forall d <- ds :: d.phase != PHASE
    ensures AtMostOne(Run(ds, h)) && ds <= Run(ds, h)
    ensures forall d <- Run(ds, h) | d.phase == PHASE :: exists k :: 0 <= k < |h| && Justified(d, h[k].c)
  {
    RunAtMostOne(ds, h);
    RunAppends(ds, h);
    forall d <- Run(ds, h) | d.phase == PHASE ensures exists k :: 0 <= k < |h| && Justified(d, h[k].c) {
      var k := RunJustified(ds, h, d);
    }
  }

  /** Once a call has been applied, whatever else runs in between: an authorised call for the same
      workflow and role gets the same decision back when its approval is the same and a conflict when
      it is not, and neither changes the graph. */
  lemma AppliedCallIsStable(ds: seq<Decision>, c: Call, h: seq<Move>, again: Call)
    requires Step(ds, c).1.Applied?
    requires again.workflow == c.workflow && RoleOf(again) == RoleOf(c) && Guard(again).None?
    ensures var now := Run(Step(ds, c).0, h);
      var (after, reply) := Step(now, again);
      && after == now
      && (ApprovalId(again) == ApprovalId(c) ==>
            reply == Applied(true, Step(ds, c).1.decisionId, ApprovalId(c), Step(ds, c).1.ruleId, again.brand, FREEZE))
      && (ApprovalId(again) != ApprovalId(c) ==> reply == Raised(Conflict))
  {
    var ds1 := Step(ds, c).0;
    var now := Run(ds1, h);
    AppliedIsRecorded(ds, c);
    RunAppends(ds1, h);
    assert now == ds1 + now[|ds1|..];
    FindStable(ds1, now[|ds1|..], c.workflow, RoleOf(c));
  }

  /** An applied call leaves the decision it reports in the graph. */
  lemma AppliedIsRecorded(ds: seq<Decision>, c: Call)
    requires Step(ds, c).1.Applied?
    ensures var (after, reply) := Step(ds, c);
      && Guard(c).None? && Find(after, c.workflow, RoleOf(c)).Some?
      && SameApproval(Find(after, c.workflow, RoleOf(c)).value, c)
      && Find(after, c.workflow, RoleOf(c)).value.id == reply.decisionId
      && Get(Find(after, c.workflow, RoleOf(c)).value.attributes, "governing_rule_id") == reply.ruleId
  {
    if Find(ds, c.workflow, RoleOf(c)).None? { FindLast(ds, NewDecision(c), c.workflow, RoleOf(c)); }
  }

  /** The read and the write are separate graph operations.  When another call's decision lands between
      them, this call still reports "applied", not a duplicate, for its own approval id: the report is
      true of the graph exactly when no decision under another approval got there first. */
  lemma LateWriteReportsTruthExactly(ds: seq<Decision>, c: Call)
    requires Guard(c).None?
    ensures var (after, reply) := Take(ds, LateWrite(c));
      && reply.Applied? && !reply.duplicate && reply.approvalId == ApprovalId(c)
      && Find(after, c.workflow, RoleOf(c)).Some?
      && Find(after, c.workflow, RoleOf(c)).value.id == reply.decisionId
      && (SameApproval(Find(after, c.workflow, RoleOf(c)).value, c)
          <==> Find(ds, c.workflow, RoleOf(c)).None? || SameApproval(Find(ds, c.workflow, RoleOf(c)).value, c))
  {
    if Find(ds, c.workflow, RoleOf(c)).None? { FindLast(ds, NewDecision(c), c.workflow, RoleOf(c)); }
  }

  /** Two approvals racing for one workflow and role: both are told "applied", one decision exists. */
  lemma RacingApprovalsBothReportApplied(a: Call, b: Call)
    requires Guard(a).None? && Guard(b).None?
    requires a.workflow == b.workflow && RoleOf(a) == RoleOf(b) && ApprovalId(a) != ApprovalId(b)
    ensures var one := Take([], LateWrite(a)); var two := Take(one.0, LateWrite(b));
      && one.1.Applied? && two.1.Applied? && !two.1.duplicate
      && two.0 == [NewDecision(a)] && two.1.approvalId != ApprovalId(a)
  {
    FindLast([], NewDecision(a), a.workflow, RoleOf(a));
    assert [] + [NewDecision(a)] == [NewDecision(a)];
  }

  // ---------------------------------------------------------------------------------------------
  // The code
  // ---------------------------------------------------------------------------------------------

  class DecisionGraph {
    var decisions: seq<Decision>

    constructor ()
      ensures decisions == []
    { decisions := []; }

    method QueryKey(workflow: string, phase: string, role: string) returns (found: Option<Decision>)
      ensures found == FindKey(decisions, workflow, phase, role)
    {
      for i := 0 to |decisions|
        invariant FindKey(decisions, workflow, phase, role) == FindKey(decisions[i..], workflow, phase, role)
      {
        if HasKey(decisions[i], workflow, phase, role) { return Some(decisions[i]); }
      }
      found := None;
    }

    method QueryOne(workflow: string, role: string) returns (found: Option<Decision>)
      ensures found == Find(decisions, workflow, role)
    {
      found := QueryKey(workflow, PHASE, role);
    }

    method RecordDecision(d: Decision) returns (id: string)
      modifies this
      ensures match FindKey(old(decisions), d.workflow, d.phase, d.role)
        case Some(e) => decisions == old(decisions) && id == e.id
        case None => decisions == old(decisions) + [d] && id == d.id
    {
      var existing := QueryKey(d.workflow, d.phase, d.role);
      match existing {
        case Some(e) => id := e.id;
        case None => decisions, id := decisions + [d], d.id;
      }
    }
  }

  method ApplyApprovedPolicy(graph: DecisionGraph, c: Call) returns (r: Outcome)
    modifies graph
    ensures (graph.decisions, r) == Step(old(graph.decisions), c)
  {
    if c.approval.decision != Some("approve") { return Raised(NotApproved); }
    var decisionId := Strip(OrEmpty(c.approval.decisionId));
    if decisionId == "" { return Raised(NoDecisionId); }
    var role := Lower(Strip(OrEmpty(c.approval.actorRole)));
    if OrEmpty(c.action.kind) != PHASE || OrEmpty(c.action.verdict) != FREEZE { return Raised(WrongAction); }
    if Get(c.action.attributes, "scope") != Str("po") { return Raised(OutOfScope); }
    if c.action.decidedOn != [c.brand] { return Raised(WrongTarget); }
    var authority := c.check(role);
    if !authority.allowed { return Raised(Unauthorised(authority.reason)); }

    var existing := graph.QueryOne(c.workflow, role);
    if existing.Some? {
      var d := existing.value;
      if d.verdict != FREEZE || Get(d.attributes, "approval_decision_id") != Str(decisionId) {
        return Raised(Conflict);
      }
      return Applied(true, d.id, decisionId, Get(d.attributes, "governing_rule_id"), c.brand, FREEZE);
    }
    var id := graph.RecordDecision(NewDecision(c));
    r := Applied(false, id, decisionId, authority.ruleId, c.brand, FREEZE);
  }
}
