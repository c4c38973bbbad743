/** tools/workflow_visibility_proof.py: what `_evidence` demands of one workflow detail, and the
    evidence it keeps once the volatile fields are dropped. */
module VisibilityEvidence {
  import opened Values
  import opened VisibilityTools
  import opened VisibilityReconcile

  // ---------------------------------------------------------------- the contract of a workflow type

  datatype Phase = Phase(name: string, kind: string)

  /** A domain's own phases, the phases its regional overlays add, and the roles that may decide. */
  datatype Contract = Contract(phases: seq<Phase>, overlays: seq<seq<Phase>>, personaRoles: set<string>)

  function AllPhases(contract: Contract): set<Phase> {
    (set p | p in contract.phases) + (set extra, p | extra in contract.overlays && p in extra :: p)
  }

  function DeclaredPhases(contract: Contract): set<string> {
    set p | p in AllPhases(contract) :: p.name
  }

  function DeclaredOf(contract: Contract, kind: string): set<string> {
    set p | p in AllPhases(contract) && p.kind == kind :: p.name
  }

  // ---------------------------------------------------------------- checks of one row

  const TERMINAL_LABELS := map["completed" := "workflow.completed", "failed" := "workflow.failed",
                               "rejected" := "workflow.rejected"]
  const TERMINAL_PHASE_STATUSES := {"completed", "failed", "rejected", "skipped"}

  /** What the checks of a single timeline row read of it; `title` is its label. */
  datatype Row = Row(id: Json, kind: Json, title: Json, status: Json, phase: Json, coveredPhases: Json,
                     agentRunId: Json, completedAt: Json, toolCalls: Json, personaRole: Json, actor: Json,
                     verdict: Json, reason: Json, error: Json, details: Json,
                     childWorkflowId: Json, childWorkflowType: Json)

  function ReadRow(v: Json): Row {
    Row(Field(v, "id"), Field(v, "kind"), Field(v, "label"), Field(v, "status"), Field(v, "phase"),
        Field(v, "coveredPhases"), Field(v, "agentRunId"), Field(v, "completedAt"), Field(v, "toolCalls"),
        Field(v, "personaRole"), Field(v, "actor"), Field(v, "verdict"), Field(v, "reason"), Field(v, "error"),
        Field(v, "details"), Field(v, "childWorkflowId"), Field(v, "childWorkflowType"))
  }

  predicate Visible(v: Json) {
    if v.Str? then Strip(v.s) != ""
    else v != Null && !EqEmptyList(v) && !EqEmptyDict(v)
  }

  /** `a or b`. */
  function Or(a: Json, b: Json): Json {
    if Truthy(a) then a else b
  }

  predicate IsOneOf(v: Json, values: set<string>) {
    v.Str? && v.s in values
  }

  predicate ValidRow(row: Row) {
    Visible(row.id) && Visible(row.kind) && Visible(row.title)
  }

  /** `_covered_phases` does not raise. */
  predicate CoverageListed(covered: Json) {
    covered == Null || (covered.List? && forall p <- covered.items :: Visible(p))
  }

  predicate CoverageDeclared(repr: Json -> string, declared: set<string>, covered: Json) {
    covered.List? ==> forall p <- covered.items :: Text(repr, p) in declared
  }

  /** One pass of `_validate_phase_references`. */
  predicate ReferencesDeclared(repr: Json -> string, declared: set<string>, row: Row) {
    && (row.kind == Str("phase") ==> TextOrEmpty(repr, row.title) in declared)
    && (row.phase != Null ==> Text(repr, row.phase) in declared)
    && CoverageListed(row.coveredPhases)
    && CoverageDeclared(repr, declared, row.coveredPhases)
  }

  /** One pass of `_validate_reasoning`. */
  predicate ReasoningRowOk(repr: Json -> string, declared: set<string>, row: Row) {
    && Visible(row.agentRunId)
    && Visible(row.completedAt)
    && CoverageListed(row.coveredPhases)
    && (Visible(row.phase) || (row.coveredPhases.List? && row.coveredPhases.items != []))
    && (Visible(row.phase) ==> Text(repr, row.phase) in declared)
    && CoverageDeclared(repr, declared, row.coveredPhases)
    && row.toolCalls.List?
  }

  /** Python can look the value up in a set; a list or an object raises instead. */
  predicate Hashable(v: Json) { !v.List? && !v.Obj? }

  /** One pass of `_validate_hitl_decisions`. */
  predicate DecisionOk(repr: Json -> string, contract: Contract, row: Row) {
    var hitl := DeclaredOf(contract, "hitl");
    var phase := if row.phase == Null && IsOneOf(row.title, hitl) then row.title else row.phase;
    var persona := Or(row.personaRole, row.actor);
    row.kind == Str("decision") ==>
      && (row.phase == Null ==> Hashable(row.title))
      && Hashable(phase)
      && (IsOneOf(phase, hitl) ==>
            && Visible(persona) && Visible(row.verdict) && Visible(row.reason)
            && Text(repr, persona) in contract.personaRoles)
  }

  /** The source's `_row_value`: the row's own value of a key, or else the one in its details. */
  function RowValue(own: Json, details: Json, key: string): Json {
    if own != Null then own else Field(details, key)
  }

  /** One pass of `_validate_optional_rows`. */
  predicate OptionalRowOk(repr: Json -> string, row: Row) {
    var title := TextOrEmpty(repr, row.title);
    if title == "workflow.sub_spawned" then
      && Visible(RowValue(row.childWorkflowId, row.details, "childWorkflowId"))
      && Visible(RowValue(row.childWorkflowType, row.details, "childWorkflowType"))
    else if row.kind == Str("output") && !Visible(row.details) then false
    else if title == "workflow.retry_scheduled" then
      && Visible(Field(row.details, "attempt"))
      && Visible(Or(Field(row.details, "reason"), Field(row.details, "error")))
    else if title == "workflow.exception.detected" then
      Visible(Or(Or(Or(row.reason, row.error), Field(row.details, "reason")), Field(row.details, "error")))
    else true
  }

  predicate RowOk(repr: Json -> string, contract: Contract, row: Row) {
    && ValidRow(row)
    && ReferencesDeclared(repr, DeclaredPhases(contract), row)
    && (row.kind == Str("phase") ==> IsOneOf(row.status, TERMINAL_PHASE_STATUSES))
    && (row.kind == Str("reasoning") ==> ReasoningRowOk(repr, DeclaredPhases(contract), row))
    && DecisionOk(repr, contract, row)
    && OptionalRowOk(repr, row)
  }

  // ---------------------------------------------------------------- one workflow detail

  /** The row carries a terminal label that the workflow's status allows. */
  predicate EndsAs(repr: Json -> string, workflow: Json, row: Json) {
    var status := TextOrEmpty(repr, Field(workflow, "status"));
    && status in TERMINAL_LABELS
    && (Field(row, "label") == Str(TERMINAL_LABELS[status])
        || (status == "failed" && Field(row, "label") == Str("workflow.rejected")))
  }

  predicate LifecycleOk(repr: Json -> string, workflow: Json, timeline: seq<Json>) {
    var ends := Having(timeline, "label", TERMINAL_LABELS.Values);
    && |Having(timeline, "label", {"workflow.started"})| == 1
    && |ends| == 1
    && EndsAs(repr, workflow, ends[0])
  }

  /** Row `i` is the only one whose `key` is one of the values. */
  ghost predicate OnlyAt(rows: seq<Json>, key: string, values: set<string>, i: nat) {
    i < |rows| && forall j | 0 <= j < |rows| :: IsOneOf(Field(rows[j], key), values) <==> j == i
  }

  /** The timeline starts once and ends once, and its end is the one the workflow's status announces,
      except that a failed workflow may also end as rejected. */
  ghost predicate Lifecycle(repr: Json -> string, workflow: Json, rows: seq<Json>) {
    && (exists i: nat :: OnlyAt(rows, "label", {"workflow.started"}, i))
    && (exists i: nat :: OnlyAt(rows, "label", TERMINAL_LABELS.Values, i) && EndsAs(repr, workflow, rows[i]))
  }

  ghost predicate HasKind(rows: seq<Json>, kind: string) {
    exists i :: 0 <= i < |rows| && Field(rows[i], "kind") == Str(kind)
  }

  /** Everything `_evidence` demands before the tools. */
  ghost predicate TimelineOk(repr: Json -> string, contract: Contract, workflow: Json, timeline: seq<Json>) {
    && (forall row <- timeline :: row.Obj? && RowOk(repr, contract, ReadRow(row)))
    && Lifecycle(repr, workflow, timeline)
    && HasKind(timeline, "phase")
    && (DeclaredOf(contract, "agent") != {} ==> HasKind(timeline, "reasoning"))
  }

  ghost predicate ToolsOk(repr: Json -> string, mcpCalls: Json, timeline: seq<Json>) {
    && mcpCalls.List?
    && ToolsReconciled(repr, mcpCalls.items, ReasoningCalls(Having(timeline, "kind", {"reasoning"})),
                       ToolRows(repr, timeline))
  }

  /** The details `_evidence` does not raise on. */
  ghost predicate Accepted(repr: Json -> string, contract: Contract, detail: Json) {
    var timeline := Field(detail, "timeline");
    && Field(detail, "workflow").Obj?
    && timeline.List?
    && TimelineOk(repr, contract, Field(detail, "workflow"), timeline.items)
    && ToolsOk(repr, Field(detail, "mcpCalls"), timeline.items)
  }

  lemma {:induction false} HavingNone(rows: seq<Json>, key: string, values: set<string>)
    ensures Having(rows, key, values) == [] <==> forall j | 0 <= j < |rows| :: !IsOneOf(Field(rows[j], key), values)
  {
    hide Field;
    if rows == [] {
    } else {
      HavingNone(rows[1..], key, values);
      assert forall j | 0 < j < |rows| :: rows[j] == rows[1..][j - 1];
      assert forall j | 0 <= j < |rows| - 1 :: rows[1..][j] == rows[j + 1];
    }
  }

  /** A filter that leaves one row singles out one index. */
  lemma {:induction false} HavingOne(rows: seq<Json>, key: string, values: set<string>) returns (i: nat)
    requires |Having(rows, key, values)| == 1
    ensures OnlyAt(rows, key, values, i)
  {
    hide Field;
    assert forall j | 0 < j < |rows| :: rows[j] == rows[1..][j - 1];
    if IsOneOf(Field(rows[0], key), values) {
      i := 0;
      HavingNone(rows[1..], key, values);
    } else {
      i := HavingOne(rows[1..], key, values);
      i := i + 1;
    }
  }

  lemma {:induction false} OnlyAtLeavesOne(rows: seq<Json>, key: string, values: set<string>, i: nat)
    requires OnlyAt(rows, key, values, i)
    ensures Having(rows, key, values) == [rows[i]]
  {
    hide Field;
    assert forall j | 0 <= j < |rows| - 1 :: rows[1..][j] == rows[j + 1];
    if i == 0 {
      HavingNone(rows[1..], key, values);
    } else {
      OnlyAtLeavesOne(rows[1..], key, values, i - 1);
    }
  }

  /** Counting rows, as the code does, is the same as there being exactly one of each. */
  lemma LifecycleExactly(repr: Json -> string, workflow: Json, rows: seq<Json>)
    ensures LifecycleOk(repr, workflow, rows) <==> Lifecycle(repr, workflow, rows)
  {
    hide EndsAs, Having, TERMINAL_LABELS, IsOneOf;
    var ends := Having(rows, "label", TERMINAL_LABELS.Values);
    if LifecycleOk(repr, workflow, rows) {
      var s := HavingOne(rows, "label", {"workflow.started"});
      var t := HavingOne(rows, "label", TERMINAL_LABELS.Values);
      OnlyAtLeavesOne(rows, "label", TERMINAL_LABELS.Values, t);
    }
    if s: nat :| OnlyAt(rows, "label", {"workflow.started"}, s) {
      OnlyAtLeavesOne(rows, "label", {"workflow.started"}, s);
    }
    if t: nat :| OnlyAt(rows, "label", TERMINAL_LABELS.Values, t) && EndsAs(repr, workflow, rows[t]) {
      OnlyAtLeavesOne(rows, "label", TERMINAL_LABELS.Values, t);
    }
  }

  lemma KindFound(rows: seq<Json>, kind: string)
    ensures Having(rows, "kind", {kind}) != [] <==> HasKind(rows, kind)
  {
    HavingNone(rows, "kind", {kind});
    hide Field, Having;
  }

  // ---------------------------------------------------------------- the checks as the code makes them

  /** `_covered_phases`: `None` stands for the error it raises. */
  function CoveredPhases(repr: Json -> string, covered: Json): (r: Option<seq<string>>)
    ensures r.Some? <==> CoverageListed(covered)
    ensures r.Some? ==> forall declared ::
      (forall p <- r.value :: p in declared) <==> CoverageDeclared(repr, declared, covered)
    ensures r.Some? ==> (r.value != [] <==> covered.List? && covered.items != [])
  {
    if covered == Null then Some([])
    else if !covered.List? || exists p <- covered.items :: !Visible(p) then None
    else
      var texts := seq(|covered.items|, i requires 0 <= i < |covered.items| => Text(repr, covered.items[i]));
      assert forall i | 0 <= i < |covered.items| :: Text(repr, covered.items[i]) in texts by {
        assert forall i | 0 <= i < |covered.items| :: texts[i] == Text(repr, covered.items[i]);
      }
      Some(texts)
  }

  /** `_validate_phase_references`. */
  method ValidatePhaseReferences(repr: Json -> string, timeline: seq<Json>, declared: set<string>) returns (ok: bool)
    ensures ok <==> forall row <- timeline :: ReferencesDeclared(repr, declared, ReadRow(row))
  {
    hide Visible, Text, TextOrEmpty, Field, CoverageListed, CoverageDeclared;
    for i := 0 to |timeline|
      invariant forall row <- timeline[..i] :: ReferencesDeclared(repr, declared, ReadRow(row))
    {
      var row := ReadRow(timeline[i]);
      assert timeline[i] in timeline && timeline[..i + 1] == timeline[..i] + [timeline[i]];
      var references := [];
      if row.kind == Str("phase") {
        references := references + [TextOrEmpty(repr, row.title)];
      }
      if row.phase != Null {
        references := references + [Text(repr, row.phase)];
      }
      var covered := CoveredPhases(repr, row.coveredPhases);
      if covered.None? {
        return false;
      }
      references := references + covered.value;
      if exists p <- references :: p !in declared {
        return false;
      }
    }
    assert timeline[..|timeline|] == timeline;
    return true;
  }

  /** `_validate_reasoning` on the rows of that kind. */
  method ValidateReasoning(repr: Json -> string, rows: seq<Json>, declared: set<string>) returns (ok: bool)
    ensures ok <==> forall row <- rows :: ReasoningRowOk(repr, declared, ReadRow(row))
  {
    hide Visible, Text, Field, CoverageListed, CoverageDeclared;
    for i := 0 to |rows|
      invariant forall row <- rows[..i] :: ReasoningRowOk(repr, declared, ReadRow(row))
    {
      var row := ReadRow(rows[i]);
      assert rows[i] in rows && rows[..i + 1] == rows[..i] + [rows[i]];
      if !Visible(row.agentRunId) || !Visible(row.completedAt) {
        return false;
      }
      var covered := CoveredPhases(repr, row.coveredPhases);
      if covered.None? || (!Visible(row.phase) && covered.value == []) {
        return false;
      }
      var references := (if Visible(row.phase) then [Text(repr, row.phase)] else []) + covered.value;
      if exists p <- references :: p !in declared {
        return false;
      }
      if !row.toolCalls.List? {
        return false;
      }
    }
    assert rows[..|rows|] == rows;
    return true;
  }

  /** `_validate_hitl_decisions`. */
  method ValidateDecisions(repr: Json -> string, timeline: seq<Json>, contract: Contract) returns (ok: bool)
    ensures ok <==> forall row <- timeline :: DecisionOk(repr, contract, ReadRow(row))
  {
    hide Visible, Text, Field, Or, DeclaredOf;
    var hitl := DeclaredOf(contract, "hitl");
    for i := 0 to |timeline|
      invariant forall row <- timeline[..i] :: DecisionOk(repr, contract, ReadRow(row))
    {
      var row := ReadRow(timeline[i]);
      assert timeline[i] in timeline && timeline[..i + 1] == timeline[..i] + [timeline[i]];
      if row.kind != Str("decision") {
        continue;
      }
      var phase := row.phase;
      if phase == Null {
        if !Hashable(row.title) {
          return false;
        }
        if IsOneOf(row.title, hitl) {
          phase := row.title;
        }
      }
      if !Hashable(phase) {
        return false;
      }
      if !IsOneOf(phase, hitl) {
        continue;
      }
      var persona := Or(row.personaRole, row.actor);
      if !Visible(persona) || !Visible(row.verdict) || !Visible(row.reason) {
        return false;
      }
      if Text(repr, persona) !in contract.personaRoles {
        return false;
      }
    }
    assert timeline[..|timeline|] == timeline;
    return true;
  }

  /** `_validate_optional_rows`. */
  method ValidateOptionalRows(repr: Json -> string, timeline: seq<Json>) returns (ok: bool)
    ensures ok <==> forall row <- timeline :: OptionalRowOk(repr, ReadRow(row))
  {
    hide Visible, TextOrEmpty, Field, Or, RowValue;
    for i := 0 to |timeline|
      invariant forall row <- timeline[..i] :: OptionalRowOk(repr, ReadRow(row))
    {
      var row := ReadRow(timeline[i]);
      assert timeline[i] in timeline && timeline[..i + 1] == timeline[..i] + [timeline[i]];
      var title := TextOrEmpty(repr, row.title);
      if title == "workflow.sub_spawned" {
        if !Visible(RowValue(row.childWorkflowId, row.details, "childWorkflowId")) {
          return false;
        }
        if !Visible(RowValue(row.childWorkflowType, row.details, "childWorkflowType")) {
          return false;
        }
      } else if row.kind == Str("output") && !Visible(row.details) {
        return false;
      } else if title == "workflow.retry_scheduled" {
        if !Visible(Field(row.details, "attempt")) {
          return false;
        }
        if !Visible(Or(Field(row.details, "reason"), Field(row.details, "error"))) {
          return false;
        }
      } else if title == "workflow.exception.detected" {
        var own := Or(row.reason, row.error);
        if !Visible(Or(Or(own, Field(row.details, "reason")), Field(row.details, "error"))) {
          return false;
        }
      }
    }
    assert timeline[..|timeline|] == timeline;
    return true;
  }

  lemma RowsCovered(repr: Json -> string, contract: Contract, timeline: seq<Json>)
    ensures var declared := DeclaredPhases(contract);
      (forall row <- timeline :: RowOk(repr, contract, ReadRow(row))) <==>
        && (forall row <- timeline :: ValidRow(ReadRow(row)))
        && (forall row <- timeline :: ReferencesDeclared(repr, declared, ReadRow(row)))
        && (forall row <- Having(timeline, "kind", {"phase"}) :: IsOneOf(Field(row, "status"), TERMINAL_PHASE_STATUSES))
        && (forall row <- Having(timeline, "kind", {"reasoning"}) :: ReasoningRowOk(repr, declared, ReadRow(row)))
        && (forall row <- timeline :: DecisionOk(repr, contract, ReadRow(row)))
        && (forall row <- timeline :: OptionalRowOk(repr, ReadRow(row)))
  {
    HavingMeaning(timeline, "kind", {"phase"});
    HavingMeaning(timeline, "kind", {"reasoning"});
    assert forall row :: ReadRow(row).kind == Field(row, "kind") && ReadRow(row).status == Field(row, "status");
    hide ReadRow, Field, Having, ValidRow, ReferencesDeclared, ReasoningRowOk, DecisionOk, OptionalRowOk;
    hide DeclaredPhases;
  }

  lemma {:induction false} HavingMeaning(rows: seq<Json>, key: string, values: set<string>)
    ensures forall row :: row in Having(rows, key, values) <==> row in rows && IsOneOf(Field(row, key), values)
  {
    if rows == [] {
    } else {
      HavingMeaning(rows[1..], key, values);
      assert rows == [rows[0]] + rows[1..];
    }
  }

  /** The part of `_evidence` before the tools, in the order of the code. */
  method CheckTimeline(repr: Json -> string, contract: Contract, workflow: Json, timeline: seq<Json>) returns (ok: bool)
    ensures ok <==> TimelineOk(repr, contract, workflow, timeline)
  {
    LifecycleExactly(repr, workflow, timeline);
    KindFound(timeline, "phase");
    KindFound(timeline, "reasoning");
    RowsCovered(repr, contract, timeline);
    hide RowOk, ValidRow, ReferencesDeclared, ReasoningRowOk, DecisionOk, OptionalRowOk, ReadRow, Field;
    hide Having, Lifecycle, HasKind, DeclaredOf, DeclaredPhases, EndsAs;
    if timeline == [] {
      EmptyHasNoPhase();
      return false;
    }
    if exists row <- timeline :: !row.Obj? || !ValidRow(ReadRow(row)) {
      return false;
    }
    var started := Having(timeline, "label", {"workflow.started"});
    if |started| != 1 {
      return false;
    }
    var ends := Having(timeline, "label", TERMINAL_LABELS.Values);
    if |ends| != 1 || !EndsAs(repr, workflow, ends[0]) {
      return false;
    }
    var declared := DeclaredPhases(contract);
    var phaseRows := Having(timeline, "kind", {"phase"});
    if phaseRows == [] {
      return false;
    }
    var referenced := ValidatePhaseReferences(repr, timeline, declared);
    if !referenced || exists row <- phaseRows :: !IsOneOf(Field(row, "status"), TERMINAL_PHASE_STATUSES) {
      return false;
    }
    var reasoningRows := Having(timeline, "kind", {"reasoning"});
    if DeclaredOf(contract, "agent") != {} && reasoningRows == [] {
      return false;
    }
    var reasoned := ValidateReasoning(repr, reasoningRows, declared);
    if !reasoned {
      return false;
    }
    var decided := ValidateDecisions(repr, timeline, contract);
    if !decided {
      return false;
    }
    ok := ValidateOptionalRows(repr, timeline);
  }

  lemma EmptyHasNoPhase()
    ensures !HasKind([], "phase")
  {
  }

  // ---------------------------------------------------------------- evidence

  const VOLATILE_TIMELINE_FIELDS :=
    {"ts", "timestamp", "startedAt", "started_at", "completedAt", "completed_at"}
  const VOLATILE_DURATION_FIELDS := {"durationMs", "duration_ms", "latencyMs", "latency_ms"}
  const VOLATILE_WORKFLOW_FIELDS :=
    {"createdAt", "created_at", "updatedAt", "updated_at", "startedAt", "started_at", "completedAt", "completed_at"}
  const VOLATILE_CALL_FIELDS := {"timestamp"}

  /** `_without_volatile`. */
  function WithoutVolatile(v: Json, fields: set<string>): Record {
    Fields(v) - fields
  }

  /** A tool row keeps its duration: it was reconciled with the call. */
  function StableRow(row: Json): Record {
    WithoutVolatile(row, VOLATILE_TIMELINE_FIELDS
                         + (if Field(row, "kind") == Str("tool") then {} else VOLATILE_DURATION_FIELDS))
  }

  function Items(v: Json): seq<Json> {
    if v.List? then v.items else []
  }

  function StableRows(rows: seq<Json>): seq<Record> {
    seq(|rows|, i requires 0 <= i < |rows| => StableRow(rows[i]))
  }

  function StableCalls(calls: seq<Json>): seq<Record> {
    seq(|calls|, i requires 0 <= i < |calls| => WithoutVolatile(calls[i], VOLATILE_CALL_FIELDS))
  }

  datatype Evidence = Evidence(workflow: Record, timeline: seq<Record>, mcpCalls: seq<Record>)

  /** The evidence kept of a detail. */
  function EvidenceOf(detail: Json): Evidence {
    Evidence(WithoutVolatile(Field(detail, "workflow"), VOLATILE_WORKFLOW_FIELDS),
             StableRows(Items(Field(detail, "timeline"))),
             StableCalls(Items(Field(detail, "mcpCalls"))))
  }

  /** `_evidence`: `None` stands for the error it raises. */
  method CollectEvidence(repr: Json -> string, contract: Contract, detail: Json) returns (r: Option<Evidence>)
    ensures r == if Accepted(repr, contract, detail) then Some(EvidenceOf(detail)) else None
  {
    hide TimelineOk, ToolsReconciled, ToolRows, ReasoningCalls, Having, StableRows, StableCalls, WithoutVolatile;
    var workflow, timeline := Field(detail, "workflow"), Field(detail, "timeline");
    if !workflow.Obj? || !timeline.List? {
      return None;
    }
    var ok := CheckTimeline(repr, contract, workflow, timeline.items);
    if !ok {
      return None;
    }
    var reasoningRows := Having(timeline.items, "kind", {"reasoning"});
    var calls := ValidateTools(repr, Field(detail, "mcpCalls"), timeline.items, reasoningRows);
    if calls.None? {
      return None;
    }
    r := Some(Evidence(WithoutVolatile(workflow, VOLATILE_WORKFLOW_FIELDS), StableRows(timeline.items),
                       StableCalls(calls.value)));
  }
}
