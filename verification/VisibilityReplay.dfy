/** tools/workflow_visibility_proof.py: what an accepted workflow and an accepted replay are, with every
    field named. */
module VisibilityReplay {
  import opened Values
  import opened VisibilityTools
  import opened VisibilityReconcile
  import opened VisibilityEvidence
  import opened VisibilityVolatile
  import opened VisibilityParity
  import opened VisibilityEquality

  // ---------------------------------------------------------------- which fields the comparison keeps

  predicate IsTimeField(key: string) {
    || key == "ts" || key == "timestamp" || key == "startedAt" || key == "started_at"
    || key == "completedAt" || key == "completed_at"
  }

  predicate IsDurationField(key: string) {
    key == "durationMs" || key == "duration_ms" || key == "latencyMs" || key == "latency_ms"
  }

  predicate IsWorkflowTimeField(key: string) {
    || key == "createdAt" || key == "created_at" || key == "updatedAt" || key == "updated_at"
    || key == "startedAt" || key == "started_at" || key == "completedAt" || key == "completed_at"
  }

  lemma TimeFields(key: string)
    ensures key in VOLATILE_TIMELINE_FIELDS <==> IsTimeField(key)
  {}

  lemma DurationFields(key: string)
    ensures key in VOLATILE_DURATION_FIELDS <==> IsDurationField(key)
  {}

  lemma WorkflowTimeFields(key: string)
    ensures key in VOLATILE_WORKFLOW_FIELDS <==> IsWorkflowTimeField(key)
  {}

  predicate IsVolatileIn(row: Json, key: string) {
    IsTimeField(key) || (IsDurationField(key) && Field(row, "kind") != Str("tool"))
  }

  /** The evidence of a row keeps a field, with its value, unless it is one of six times, or one of four
      durations of a row that is no tool row. */
  lemma RowKeeps(row: Json, key: string)
    ensures key in StableRow(row) <==> key in Fields(row) && !IsVolatileIn(row, key)
    ensures key in StableRow(row) ==> StableRow(row)[key] == Fields(row)[key]
  {
    TimeFields(key);
    DurationFields(key);
    hide VOLATILE_TIMELINE_FIELDS, VOLATILE_DURATION_FIELDS, IsTimeField, IsDurationField, Field, Fields;
  }

  /** What the evidence keeps of the workflow and of a tool call. */
  lemma WorkflowAndCallsKeep(workflow: Json, call: Json, key: string)
    ensures key in WithoutVolatile(workflow, VOLATILE_WORKFLOW_FIELDS)
       <==> key in Fields(workflow) && !IsWorkflowTimeField(key)
    ensures key in WithoutVolatile(call, VOLATILE_CALL_FIELDS) <==> key in Fields(call) && key != "timestamp"
  {
    WorkflowTimeFields(key);
    hide VOLATILE_WORKFLOW_FIELDS, IsWorkflowTimeField;
  }

  // ---------------------------------------------------------------- one field of one row changed

  /** The detail with one field of timeline row `i` set. */
  function WithRowField(detail: Json, i: nat, key: string, value: Json): Json
    requires detail.Obj? && i < |Items(Field(detail, "timeline"))|
  {
    var rows := Items(Field(detail, "timeline"));
    Obj(detail.fields["timeline" := List(rows[i := WithField(rows[i], key, value)])])
  }

  function WithField(row: Json, key: string, value: Json): Json {
    Obj(Fields(row)[key := value])
  }

  lemma OnlyTimelineSet(detail: Json, i: nat, key: string, value: Json)
    requires detail.Obj? && i < |Items(Field(detail, "timeline"))|
    ensures var rows, now := Items(Field(detail, "timeline")), WithRowField(detail, i, key, value);
      && Field(now, "workflow") == Field(detail, "workflow") && Field(now, "mcpCalls") == Field(detail, "mcpCalls")
      && Field(now, "timeline") == List(rows[i := WithField(rows[i], key, value)])
  {
    assert "workflow" != "timeline" && "mcpCalls" != "timeline" by {
      assert "workflow"[0] != "timeline"[0] && "mcpCalls"[0] != "timeline"[0];
    }
    hide WithField;
  }

  lemma KindIsStable(row: Json, key: string, value: Json)
    requires IsVolatileIn(row, key)
    ensures key != "kind" && Field(WithField(row, key, value), "kind") == Field(row, "kind")
  {}

  lemma RestampedRow(row: Json, key: string, value: Json)
    requires row.Obj? && IsVolatileIn(row, key)
    requires key == "completedAt" && Field(row, "kind") == Str("reasoning") ==>
      Visible(value) && Visible(Field(row, "completedAt"))
    ensures SameRow(row, WithField(row, key, value))
  {
    var now := WithField(row, key, value);
    KindIsStable(row, key, value);
    var s, t := StableRow(row), StableRow(now);
    forall k ensures (k in s <==> k in t) && (k in s ==> s[k] == t[k]) {
      RowKeeps(row, k);
      RowKeeps(now, k);
      hide StableRow, IsTimeField, IsDurationField;
    }
    hide StableRow, Visible, IsTimeField, IsDurationField;
    assert s == t;
    assert key != "completedAt" ==> Field(now, "completedAt") == Field(row, "completedAt");
  }

  lemma RestampedDetail(detail: Json, i: nat, key: string, value: Json)
    requires detail.Obj? && Field(detail, "timeline").List? && i < |Items(Field(detail, "timeline"))|
    requires SameRow(Items(Field(detail, "timeline"))[i], WithField(Items(Field(detail, "timeline"))[i], key, value))
    ensures SameButVolatile(detail, WithRowField(detail, i, key, value))
  {
    OnlyTimelineSet(detail, i, key, value);
    hide Field, Fields, StableRow, Visible, WithField, WithRowField, VOLATILE_WORKFLOW_FIELDS, VOLATILE_CALL_FIELDS;
  }

  /** A verified snapshot passes against a replay of itself in which a row was stamped with another time: any
      value in any of its six time fields, or in a duration field when it is no tool row.  A reasoning row
      must keep a visible `completedAt`. */
  lemma RestampedReplayPasses(repr: Json -> string, contracts: Contracts, live: seq<Json>, n: nat, i: nat,
                              key: string, value: Json)
    requires Verified(repr, contracts, live) && n < |live|
    requires Field(live[n], "timeline").List? && i < |Items(Field(live[n], "timeline"))|
    requires Items(Field(live[n], "timeline"))[i].Obj?
    requires IsVolatileIn(Items(Field(live[n], "timeline"))[i], key)
    requires key == "completedAt" && Field(Items(Field(live[n], "timeline"))[i], "kind") == Str("reasoning") ==>
      Visible(value) && Visible(Field(Items(Field(live[n], "timeline"))[i], "completedAt"))
    ensures live[n].Obj?
    ensures var replay := live[n := WithRowField(live[n], i, key, value)];
      Parity(repr, contracts, Snapshot("live", live), Snapshot("replay", replay))
  {
    assert live[n].Obj?;
    var replay := live[n := WithRowField(live[n], i, key, value)];
    hide Verified, Parity, IsVolatileIn, Field, Visible, SameRow, WithField, WithRowField;
    RestampedRow(Items(Field(live[n], "timeline"))[i], key, value);
    RestampedDetail(live[n], i, key, value);
    forall k | 0 <= k < |live| ensures SameButVolatile(live[k], replay[k]) {
      if k != n { SameButVolatileReflexive(live[k]); }
    }
    FaithfulReplayPasses(repr, contracts, live, replay, replay);
  }

  lemma SameButVolatileReflexive(a: Json)
    ensures SameButVolatile(a, a)
  {}

  lemma NormalFieldChanged(row: Json, key: string, value: Json)
    requires row.Obj? && !IsVolatileIn(row, key) && key != "kind"
    requires key in row.fields ==> !PyEq(row.fields[key], value)
    ensures StableRow(Norm(row)) != StableRow(Norm(WithField(row, key, value)))
  {
    var now := WithField(row, key, value);
    assert Field(now, "kind") == Field(row, "kind");
    NormField(row, "kind");
    NormField(now, "kind");
    NormKeepsShape(Field(row, "kind"));
    assert IsVolatileIn(Norm(row), key) == IsVolatileIn(row, key) == IsVolatileIn(Norm(now), key);
    NormFields(row);
    NormFields(now);
    hide Norm, StableRow, IsVolatileIn;
    RowKeeps(Norm(row), key);
    RowKeeps(Norm(now), key);
  }

  lemma NormFields(row: Json)
    requires row.Obj?
    ensures Fields(Norm(row)).Keys == row.fields.Keys
    ensures forall k <- row.fields :: Fields(Norm(row))[k] == Norm(row.fields[k])
  {}

  lemma ChangedDetail(detail: Json, i: nat, key: string, value: Json)
    requires detail.Obj? && i < |Items(Field(detail, "timeline"))| && Items(Field(detail, "timeline"))[i].Obj?
    requires var row := Items(Field(detail, "timeline"))[i];
      && !IsVolatileIn(row, key) && key != "kind"
      && (key in row.fields ==> !PyEq(row.fields[key], value))
    ensures !SameButVolatile(Norm(detail), Norm(WithRowField(detail, i, key, value)))
  {
    var now := WithRowField(detail, i, key, value);
    OnlyTimelineSet(detail, i, key, value);
    NormField(detail, "timeline");
    NormField(now, "timeline");
    NormKeepsShape(Field(detail, "timeline"));
    NormKeepsShape(Field(now, "timeline"));
    NormalFieldChanged(Items(Field(detail, "timeline"))[i], key, value);
    hide Norm, Field, StableRow, WithField, WithRowField, IsVolatileIn, PyEq;
    var rows, nows := Items(Field(Norm(detail), "timeline")), Items(Field(Norm(now), "timeline"));
    assert !SameRow(rows[i], nows[i]);
  }

  /** A replay that changes any other field of a row of an inspected workflow to a value Python can tell
      apart is refused: another duration of a tool row, another status, another agent run. */
  lemma ChangedReplayFails(repr: Json -> string, contracts: Contracts, live: seq<Json>, n: nat, i: nat,
                           key: string, value: Json)
    requires n < |live| && live[n].Obj? && Inspected(contracts, live[n])
    requires i < |Items(Field(live[n], "timeline"))| && Items(Field(live[n], "timeline"))[i].Obj?
    requires var row := Items(Field(live[n], "timeline"))[i];
      && !IsVolatileIn(row, key) && key != "kind"
      && (key in row.fields ==> !PyEq(row.fields[key], value))
    ensures var replay := live[n := WithRowField(live[n], i, key, value)];
      !Parity(repr, contracts, Snapshot("live", live), Snapshot("replay", replay))
  {
    var now := WithRowField(live[n], i, key, value);
    var replay := live[n := now];
    ChangedDetail(live[n], i, key, value);
    OnlyTimelineSet(live[n], i, key, value);
    assert TypeOf(now) == TypeOf(live[n]) && IdOf(repr, now) == IdOf(repr, live[n]);
    hide SameButVolatile, Norm, TypeOf, IdOf, WithRowField, Field, IsVolatileIn, PyEq;
    if Parity(repr, contracts, Snapshot("live", live), Snapshot("replay", replay)) {
      var e := AcceptedReplayDiffersInVolatileFieldsOnly(
        repr, contracts, Snapshot("live", live), Snapshot("replay", replay), live[n]);
      assert replay[n] == now && now in replay && NoClash(repr, contracts, replay);
      if e != now { DistinctDoNotClash(repr, contracts, replay, e, now); }
      assert false;
    }
  }

  /** In particular the duration of a tool row, which the reconciliation has tied to the call. */
  lemma ToolDurationIsCompared(repr: Json -> string, contracts: Contracts, live: seq<Json>, n: nat, i: nat,
                               value: Json)
    requires n < |live| && live[n].Obj? && Inspected(contracts, live[n])
    requires i < |Items(Field(live[n], "timeline"))| && Items(Field(live[n], "timeline"))[i].Obj?
    requires var row := Items(Field(live[n], "timeline"))[i];
      && "kind" in row.fields && row.fields["kind"] == Str("tool")
      && "durationMs" in row.fields && !PyEq(row.fields["durationMs"], value)
    ensures var replay := live[n := WithRowField(live[n], i, "durationMs", value)];
      !Parity(repr, contracts, Snapshot("live", live), Snapshot("replay", replay))
  {
    assert !IsTimeField("durationMs") && "durationMs" != "kind";
    hide Parity, WithRowField, Inspected, PyEq, IsTimeField;
    ChangedReplayFails(repr, contracts, live, n, i, "durationMs", value);
  }

  // ---------------------------------------------------------------- an accepted workflow

  /** Nothing a reader would see: no value, an empty list or object, or a text of white space only. */
  predicate Blank(v: Json) {
    v == Null || v == List([]) || v == Obj(map[]) || (v.Str? && AllSpace(v.s))
  }

  lemma VisibleExactly(v: Json)
    ensures Visible(v) <==> !Blank(v)
  {
    if v.Str? { var _, _ := StripMeaning(v.s); }
  }

  predicate Shows(row: Json, key: string) {
    row.Obj? && key in row.fields && !Blank(row.fields[key])
  }

  lemma ShowsExactly(row: Json, key: string)
    ensures row.Obj? ==> (Visible(Field(row, key)) <==> Shows(row, key))
  {
    VisibleExactly(Field(row, key));
    hide Visible;
  }

  predicate HasText(row: Json, key: string, text: string) {
    row.Obj? && key in row.fields && row.fields[key] == Str(text)
  }

  /** Row `i` is the only one of the timeline for which the condition holds. */
  ghost predicate OnlyRow(rows: seq<Json>, i: nat, condition: Json -> bool) {
    i < |rows| && forall j | 0 <= j < |rows| :: condition(rows[j]) <==> j == i
  }

  predicate IsEnd(row: Json) {
    || HasText(row, "label", "workflow.completed")
    || HasText(row, "label", "workflow.failed")
    || HasText(row, "label", "workflow.rejected")
  }

  lemma TerminalLabels(row: Json)
    ensures IsOneOf(Field(row, "label"), TERMINAL_LABELS.Values) <==> IsEnd(row)
    ensures IsOneOf(Field(row, "label"), {"workflow.started"}) <==> HasText(row, "label", "workflow.started")
  {
    assert TERMINAL_LABELS.Values == {"workflow.completed", "workflow.failed", "workflow.rejected"} by {
      TerminalValues();
    }
    hide TERMINAL_LABELS;
  }

  lemma TerminalValues()
    ensures TERMINAL_LABELS.Values == {"workflow.completed", "workflow.failed", "workflow.rejected"}
  {
    var m := TERMINAL_LABELS;
    assert m.Keys == {"completed", "failed", "rejected"};
    assert m["completed"] in m.Values && m["failed"] in m.Values && m["rejected"] in m.Values;
  }

  lemma TerminalLabelOf(status: string)
    ensures status in TERMINAL_LABELS <==> status == "completed" || status == "failed" || status == "rejected"
    ensures status in TERMINAL_LABELS ==> TERMINAL_LABELS[status] == "workflow." + status
  {}

  predicate IsStart(row: Json) { HasText(row, "label", "workflow.started") }

  lemma OnlyEnds(rows: seq<Json>, first: nat, last: nat)
    requires OnlyAt(rows, "label", {"workflow.started"}, first)
    requires OnlyAt(rows, "label", TERMINAL_LABELS.Values, last)
    ensures OnlyRow(rows, first, IsStart) && OnlyRow(rows, last, IsEnd)
  {
    hide TERMINAL_LABELS, IsOneOf, IsEnd, HasText, Field;
    forall j | 0 <= j < |rows| ensures (IsEnd(rows[j]) <==> j == last) && (IsStart(rows[j]) <==> j == first) {
      TerminalLabels(rows[j]);
    }
  }

  lemma EndFits(repr: Json -> string, workflow: Json, row: Json)
    requires row.Obj? && EndsAs(repr, workflow, row)
    ensures var status := TextOrEmpty(repr, Field(workflow, "status"));
      && (status == "completed" || status == "failed" || status == "rejected")
      && (HasText(row, "label", "workflow." + status)
          || (status == "failed" && HasText(row, "label", "workflow.rejected")))
  {
    TerminalLabelOf(TextOrEmpty(repr, Field(workflow, "status")));
    hide TERMINAL_LABELS, TextOrEmpty;
  }

  /** An accepted workflow started once and ended once, in the row that its status names; only a failed one
      may end as rejected. */
  lemma AcceptedEnds(repr: Json -> string, contract: Contract, detail: Json) returns (first: nat, last: nat)
    requires Accepted(repr, contract, detail)
    ensures var rows := Items(Field(detail, "timeline"));
      && OnlyRow(rows, first, IsStart) && OnlyRow(rows, last, IsEnd)
      && var status := TextOrEmpty(repr, Field(Field(detail, "workflow"), "status"));
         && (status == "completed" || status == "failed" || status == "rejected")
         && (HasText(rows[last], "label", "workflow." + status)
             || (status == "failed" && HasText(rows[last], "label", "workflow.rejected")))
  {
    var rows, workflow := Items(Field(detail, "timeline")), Field(detail, "workflow");
    assert Lifecycle(repr, workflow, rows) && forall row <- rows :: row.Obj?;
    hide Accepted, TERMINAL_LABELS, EndsAs, OnlyAt, TextOrEmpty, HasText, IsEnd, Field, Items;
    first :| OnlyAt(rows, "label", {"workflow.started"}, first);
    last :| OnlyAt(rows, "label", TERMINAL_LABELS.Values, last) && EndsAs(repr, workflow, rows[last]);
    OnlyEnds(rows, first, last);
    EndFits(repr, workflow, rows[last]);
  }

  predicate IsPhaseOf(contract: Contract, name: string, kind: string) {
    || Phase(name, kind) in contract.phases
    || exists extra <- contract.overlays :: Phase(name, kind) in extra
  }

  predicate IsPhase(contract: Contract, name: string) {
    || (exists p <- contract.phases :: p.name == name)
    || exists extra <- contract.overlays :: exists p <- extra :: p.name == name
  }

  lemma DeclaredExactly(contract: Contract, name: string, kind: string)
    ensures name in DeclaredOf(contract, kind) <==> IsPhaseOf(contract, name, kind)
    ensures name in DeclaredPhases(contract) <==> IsPhase(contract, name)
  {
    if name in DeclaredOf(contract, kind) {
      var p :| p in AllPhases(contract) && p.kind == kind && p.name == name;
      assert p == Phase(name, kind);
    }
    if IsPhaseOf(contract, name, kind) {
      assert Phase(name, kind) in AllPhases(contract);
      assert Phase(name, kind).name in DeclaredOf(contract, kind);
    }
  }

  lemma HasTextExactly(row: Json, key: string, text: string)
    ensures row.Obj? ==> (Field(row, key) == Str(text) <==> HasText(row, key, text))
  {}

  lemma RowHead(repr: Json -> string, contract: Contract, row: Json)
    requires row.Obj? && RowOk(repr, contract, ReadRow(row))
    ensures Shows(row, "id") && Shows(row, "kind") && Shows(row, "label")
  {
    ShowsExactly(row, "id");
    ShowsExactly(row, "kind");
    ShowsExactly(row, "label");
    hide Visible, Shows, ReferencesDeclared, DecisionOk, OptionalRowOk, ReasoningRowOk, Field;
  }

  lemma PhaseStatuses(v: Json)
    ensures IsOneOf(v, TERMINAL_PHASE_STATUSES) <==>
      v == Str("completed") || v == Str("failed") || v == Str("rejected") || v == Str("skipped")
  {}

  lemma PhaseRow(repr: Json -> string, contract: Contract, row: Json)
    requires row.Obj? && RowOk(repr, contract, ReadRow(row)) && HasText(row, "kind", "phase")
    ensures HasText(row, "status", "completed") || HasText(row, "status", "failed")
         || HasText(row, "status", "rejected") || HasText(row, "status", "skipped")
    ensures IsPhase(contract, TextOrEmpty(repr, Field(row, "label")))
  {
    HasTextExactly(row, "kind", "phase");
    PhaseStatuses(Field(row, "status"));
    HasTextExactly(row, "status", "completed");
    HasTextExactly(row, "status", "failed");
    HasTextExactly(row, "status", "rejected");
    HasTextExactly(row, "status", "skipped");
    DeclaredExactly(contract, TextOrEmpty(repr, Field(row, "label")), "phase");
    hide HasText, IsOneOf, ValidRow, DecisionOk, OptionalRowOk, ReasoningRowOk, Field, DeclaredPhases, IsPhase;
    hide TextOrEmpty, CoverageListed, CoverageDeclared;
  }

  lemma ReasoningRow(repr: Json -> string, contract: Contract, row: Json)
    requires row.Obj? && RowOk(repr, contract, ReadRow(row)) && HasText(row, "kind", "reasoning")
    ensures Shows(row, "agentRunId") && Shows(row, "completedAt")
    ensures "toolCalls" in row.fields && row.fields["toolCalls"].List?
    ensures Shows(row, "phase") || Shows(row, "coveredPhases")
    ensures Shows(row, "phase") ==> IsPhase(contract, Text(repr, Field(row, "phase")))
  {
    HasTextExactly(row, "kind", "reasoning");
    assert ReasoningRowOk(repr, DeclaredPhases(contract), ReadRow(row));
    ShowsExactly(row, "agentRunId");
    ShowsExactly(row, "completedAt");
    ShowsExactly(row, "phase");
    ShowsExactly(row, "coveredPhases");
    var covered := Field(row, "coveredPhases");
    assert covered.List? && covered.items != [] ==> Visible(covered);
    assert "toolCalls" in row.fields;
    DeclaredExactly(contract, Text(repr, Field(row, "phase")), "phase");
    hide HasText, Visible, Shows, RowOk, CoverageListed, CoverageDeclared, DeclaredPhases, IsPhase, Text;
  }

  /** A decision row stands for the gate its `phase` names, or its label when that is missing and is a gate. */
  predicate DecidesFor(contract: Contract, row: Json, gate: string) {
    && IsPhaseOf(contract, gate, "hitl")
    && (HasText(row, "phase", gate) || (Field(row, "phase") == Null && HasText(row, "label", gate)))
  }

  /** Who decided: the `personaRole`, or the `actor` when there is none. */
  function Person(row: Json): Json {
    if Truthy(Field(row, "personaRole")) then Field(row, "personaRole") else Field(row, "actor")
  }

  lemma DecisionRow(repr: Json -> string, contract: Contract, row: Json, gate: string)
    requires row.Obj? && RowOk(repr, contract, ReadRow(row))
    requires HasText(row, "kind", "decision") && DecidesFor(contract, row, gate)
    ensures Shows(row, "verdict") && Shows(row, "reason")
    ensures !Blank(Person(row)) && Text(repr, Person(row)) in contract.personaRoles
  {
    HasTextExactly(row, "kind", "decision");
    HasTextExactly(row, "phase", gate);
    HasTextExactly(row, "label", gate);
    ShowsExactly(row, "verdict");
    ShowsExactly(row, "reason");
    DeclaredExactly(contract, gate, "hitl");
    VisibleExactly(Person(row));
    assert DecisionOk(repr, contract, ReadRow(row));
    hide HasText, Visible, Blank, Shows, RowOk, DeclaredOf, IsPhaseOf, Text, Field;
  }

  /** A phase named by any row, or listed as covered by it, is declared. */
  lemma RowPhases(repr: Json -> string, contract: Contract, row: Json)
    requires row.Obj? && RowOk(repr, contract, ReadRow(row))
    ensures "phase" in row.fields && row.fields["phase"] != Null ==> IsPhase(contract, Text(repr, row.fields["phase"]))
    ensures "coveredPhases" in row.fields && row.fields["coveredPhases"] != Null ==>
      && row.fields["coveredPhases"].List?
      && forall p <- row.fields["coveredPhases"].items :: !Blank(p) && IsPhase(contract, Text(repr, p))
  {
    assert ReferencesDeclared(repr, DeclaredPhases(contract), ReadRow(row));
    forall name ensures name in DeclaredPhases(contract) <==> IsPhase(contract, name) {
      DeclaredExactly(contract, name, "phase");
    }
    forall v ensures Visible(v) <==> !Blank(v) { VisibleExactly(v); }
    hide RowOk, Visible, Blank, DeclaredPhases, IsPhase, Text, TextOrEmpty;
  }

  /** A key of the row itself, or of its details where the row has none. */
  function OwnOrDetail(row: Json, key: string): Json {
    if Field(row, key) != Null then Field(row, key) else Field(Field(row, "details"), key)
  }

  /** The first truthy one of the values, or the last. */
  function FirstTruthy(values: seq<Json>): Json
    requires values != []
  {
    if |values| == 1 || Truthy(values[0]) then values[0] else FirstTruthy(values[1..])
  }

  /** What rows of four further sorts must show. */
  predicate SpecialRow(repr: Json -> string, row: Json) {
    var title, details := TextOrEmpty(repr, Field(row, "label")), Field(row, "details");
    && (title == "workflow.sub_spawned" ==>
          !Blank(OwnOrDetail(row, "childWorkflowId")) && !Blank(OwnOrDetail(row, "childWorkflowType")))
    && (HasText(row, "kind", "output") && title != "workflow.sub_spawned" ==> !Blank(details))
    && (title == "workflow.retry_scheduled" ==>
          && !Blank(Field(details, "attempt"))
          && !Blank(FirstTruthy([Field(details, "reason"), Field(details, "error")])))
    && (title == "workflow.exception.detected" ==>
          !Blank(FirstTruthy([Field(row, "reason"), Field(row, "error"),
                              Field(details, "reason"), Field(details, "error")])))
  }

  lemma FirstTruthyIsOr(a: Json, b: Json, c: Json, d: Json)
    ensures FirstTruthy([a, b]) == Or(a, b)
    ensures FirstTruthy([a, b, c, d]) == Or(Or(Or(a, b), c), d)
  {
    hide Truthy;
    assert [a, b, c, d][1..] == [b, c, d] && [b, c, d][1..] == [c, d] && [c, d][1..] == [d] && [a, b][1..] == [b];
    assert FirstTruthy([d]) == d && FirstTruthy([b]) == b;
    assert FirstTruthy([c, d]) == Or(c, d);
    assert FirstTruthy([b, c, d]) == Or(b, Or(c, d));
  }

  lemma SpecialRowShows(repr: Json -> string, row: Json)
    requires row.Obj? && OptionalRowOk(repr, ReadRow(row))
    ensures SpecialRow(repr, row)
  {
    var details := Field(row, "details");
    HasTextExactly(row, "kind", "output");
    FirstTruthyIsOr(Field(details, "reason"), Field(details, "error"), Null, Null);
    FirstTruthyIsOr(Field(row, "reason"), Field(row, "error"), Field(details, "reason"), Field(details, "error"));
    forall v ensures Visible(v) <==> !Blank(v) { VisibleExactly(v); }
    hide Visible, Blank, Or, FirstTruthy, TextOrEmpty, Field, HasText;
  }

  /** Every row of an accepted workflow shows an id, a kind and a label, and names declared phases only.  A phase
      row ended in one of four ways.  A reasoning row shows its agent run, its end, a phase and its tool calls.
      A decision at a human gate shows a verdict, a reason and a person in one of the roles.  Lineage, output,
      retry and exception rows show what they are about. */
  lemma AcceptedRow(repr: Json -> string, contract: Contract, detail: Json, row: Json)
    requires Accepted(repr, contract, detail) && row in Items(Field(detail, "timeline"))
    ensures Shows(row, "id") && Shows(row, "kind") && Shows(row, "label")
    ensures HasText(row, "kind", "phase") ==>
      && IsPhase(contract, TextOrEmpty(repr, Field(row, "label")))
      && (HasText(row, "status", "completed") || HasText(row, "status", "failed")
          || HasText(row, "status", "rejected") || HasText(row, "status", "skipped"))
    ensures HasText(row, "kind", "reasoning") ==>
      && Shows(row, "agentRunId") && Shows(row, "completedAt")
      && "toolCalls" in row.fields && row.fields["toolCalls"].List?
      && (Shows(row, "phase") || Shows(row, "coveredPhases"))
      && (Shows(row, "phase") ==> IsPhase(contract, Text(repr, Field(row, "phase"))))
    ensures HasText(row, "kind", "decision") ==>
      forall gate | DecidesFor(contract, row, gate) ::
        && Shows(row, "verdict") && Shows(row, "reason")
        && !Blank(Person(row)) && Text(repr, Person(row)) in contract.personaRoles
    ensures "phase" in row.fields && row.fields["phase"] != Null ==> IsPhase(contract, Text(repr, row.fields["phase"]))
    ensures "coveredPhases" in row.fields && row.fields["coveredPhases"] != Null ==>
      && row.fields["coveredPhases"].List?
      && forall p <- row.fields["coveredPhases"].items :: !Blank(p) && IsPhase(contract, Text(repr, p))
    ensures SpecialRow(repr, row)
  {
    assert row.Obj? && RowOk(repr, contract, ReadRow(row));
    assert OptionalRowOk(repr, ReadRow(row));
    hide *;
    RowHead(repr, contract, row);
    RowPhases(repr, contract, row);
    SpecialRowShows(repr, row);
    if HasText(row, "kind", "phase") { PhaseRow(repr, contract, row); }
    if HasText(row, "kind", "reasoning") { ReasoningRow(repr, contract, row); }
    if HasText(row, "kind", "decision") {
      forall gate | DecidesFor(contract, row, gate)
        ensures Shows(row, "verdict") && Shows(row, "reason")
        ensures !Blank(Person(row)) && Text(repr, Person(row)) in contract.personaRoles
      {
        DecisionRow(repr, contract, row, gate);
      }
    }
  }

  // ---------------------------------------------------------------- a verified snapshot

  /** The detail is of a workflow type that has a contract. */
  predicate IsOfType(detail: Json, kind: string) {
    HasText(Field(detail, "workflow"), "type", kind)
  }

  lemma InspectedExactly(contracts: Contracts, detail: Json)
    ensures Inspected(contracts, detail) <==> exists kind <- contracts :: IsOfType(detail, kind)
    ensures forall kind :: IsOfType(detail, kind) <==> TypeOf(detail) == Str(kind)
  {}

  function WorkflowId(repr: Json -> string, detail: Json): string {
    TextOrEmpty(repr, Field(Field(detail, "workflow"), "id"))
  }

  lemma SeenType(contracts: Contracts, d: Json, kind: string)
    requires Inspected(contracts, d) && TypeOf(d).s == kind
    ensures IsOfType(d, kind)
  {}

  /** A verified snapshot has a detail of every type that has a contract, of which there is one. */
  lemma VerifiedTypes(repr: Json -> string, contracts: Contracts, details: seq<Json>)
    requires Verified(repr, contracts, details)
    ensures |contracts| > 0
    ensures forall kind <- contracts :: exists d <- details :: IsOfType(d, kind)
  {
    hide Clean, IsOfType, TypeOf;
    forall kind <- contracts ensures exists d <- details :: IsOfType(d, kind) {
      var i :| 0 <= i < |details| && Inspected(contracts, details[i]) && TypeOf(details[i]).s == kind;
      SeenType(contracts, details[i], kind);
    }
  }

  lemma VerifiedDetail(repr: Json -> string, contracts: Contracts, d: Json, kind: string)
    requires DetailOk(repr, contracts, d) && kind in contracts && IsOfType(d, kind)
    ensures Inspected(contracts, d) && Accepted(repr, contracts[kind], d) && WorkflowId(repr, d) != ""
  {
    InspectedExactly(contracts, d);
    hide Accepted, IsOfType, TextOrEmpty;
  }

  /** Each detail of such a type is accepted under its contract and has an id that no other such detail has. */
  lemma VerifiedDetails(repr: Json -> string, contracts: Contracts, details: seq<Json>, i: nat, kind: string)
    requires Verified(repr, contracts, details) && i < |details|
    requires kind in contracts && IsOfType(details[i], kind)
    ensures Accepted(repr, contracts[kind], details[i]) && WorkflowId(repr, details[i]) != ""
    ensures forall j, other | 0 <= j < |details| && j != i && other in contracts && IsOfType(details[j], other) ::
      WorkflowId(repr, details[j]) != WorkflowId(repr, details[i])
  {
    assert forall d <- details :: DetailOk(repr, contracts, d);
    assert forall d :: IdOf(repr, d) == WorkflowId(repr, d);
    assert NoClash(repr, contracts, details);
    hide Verified, DetailOk, Accepted, IsOfType, WorkflowId, IdOf, Inspected;
    VerifiedDetail(repr, contracts, details[i], kind);
    forall j, other | 0 <= j < |details| && j != i && other in contracts && IsOfType(details[j], other)
      ensures WorkflowId(repr, details[j]) != WorkflowId(repr, details[i])
    {
      VerifiedDetail(repr, contracts, details[j], other);
      var a, b := details[if i < j then i else j], details[if i < j then j else i];
      assert !VisibilityParity.Clash(repr, contracts, a, b);
    }
  }

  lemma {:induction false} WithoutSpansMeaning(repr: Json -> string, rows: seq<Json>, row: Json)
    ensures row in WithoutSpans(repr, rows) <==> row in rows && !("span:" <= TextOrEmpty(repr, Field(row, "id")))
  {
    if rows == [] {
    } else {
      WithoutSpansMeaning(repr, rows[1..], row);
      assert rows == [rows[0]] + rows[1..];
      hide TextOrEmpty, Field;
    }
  }

  /** The rows that stand for tool calls: those of kind tool whose id is no span. */
  lemma ToolRowsExactly(repr: Json -> string, timeline: seq<Json>, row: Json)
    ensures row in ToolRows(repr, timeline) <==>
      row in timeline && Field(row, "kind") == Str("tool") && !("span:" <= TextOrEmpty(repr, Field(row, "id")))
  {
    HavingMeaning(timeline, "kind", {"tool"});
    WithoutSpansMeaning(repr, Having(timeline, "kind", {"tool"}), row);
    hide TextOrEmpty, Field, Having, WithoutSpans;
  }
}
