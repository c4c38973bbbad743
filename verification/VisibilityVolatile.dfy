/** tools/workflow_visibility_proof.py: what is volatile cannot matter.  Changing, adding or removing
    volatile fields changes neither the verdict of `_evidence` nor the evidence it keeps, as long as
    reasoning rows keep a visible `completedAt`. */
module VisibilityVolatile {
  import opened Values
  import opened VisibilityTools
  import opened VisibilityReconcile
  import opened VisibilityEvidence

  const VOLATILE_ROW_FIELDS := VOLATILE_TIMELINE_FIELDS + VOLATILE_DURATION_FIELDS

  /** Fields the reconciler reads of a tool record. */
  predicate IsToolKey(key: string) {
    || key in CALL_ID_FIELDS
    || key in NAME_FIELDS
    || key in REQUEST
    || key in RESPONSE
    || key in DURATION
    || key in CODE_FIELDS
    || key in ["id", "success", "status"]
  }

  lemma ToolKeysAreStable(key: string)
    requires IsToolKey(key)
    ensures key !in VOLATILE_TIMELINE_FIELDS && key !in VOLATILE_CALL_FIELDS
  {
  }

  lemma WorkflowKeysAreStable()
    ensures "status" !in VOLATILE_WORKFLOW_FIELDS
    ensures "type" !in VOLATILE_WORKFLOW_FIELDS
    ensures "id" !in VOLATILE_WORKFLOW_FIELDS
  {
  }

  // ---------------------------------------------------------------- sameness

  ghost predicate SameRow(a: Json, b: Json) {
    && (a.Obj? <==> b.Obj?)
    && StableRow(a) == StableRow(b)
    && (Field(a, "kind") == Str("reasoning") ==>
          (Visible(Field(a, "completedAt")) <==> Visible(Field(b, "completedAt"))))
  }

  ghost predicate SameRows(a: seq<Json>, b: seq<Json>) {
    |a| == |b| && forall i | 0 <= i < |a| :: SameRow(a[i], b[i])
  }

  ghost predicate SameCall(a: Json, b: Json) {
    (a.Obj? <==> b.Obj?) && WithoutVolatile(a, VOLATILE_CALL_FIELDS) == WithoutVolatile(b, VOLATILE_CALL_FIELDS)
  }

  ghost predicate SameCalls(a: seq<Json>, b: seq<Json>) {
    |a| == |b| && forall i | 0 <= i < |a| :: SameCall(a[i], b[i])
  }

  ghost predicate SameWorkflow(a: Json, b: Json) {
    && (a.Obj? <==> b.Obj?)
    && WithoutVolatile(a, VOLATILE_WORKFLOW_FIELDS) == WithoutVolatile(b, VOLATILE_WORKFLOW_FIELDS)
  }

  /** Two details that differ in volatile fields only. */
  ghost predicate SameButVolatile(a: Json, b: Json) {
    && (a.Obj? <==> b.Obj?)
    && SameWorkflow(Field(a, "workflow"), Field(b, "workflow"))
    && (Field(a, "timeline").List? <==> Field(b, "timeline").List?)
    && SameRows(Items(Field(a, "timeline")), Items(Field(b, "timeline")))
    && (Field(a, "mcpCalls").List? <==> Field(b, "mcpCalls").List?)
    && SameCalls(Items(Field(a, "mcpCalls")), Items(Field(b, "mcpCalls")))
  }

  /** The two records agree on a field: both lack it, or both hold the same value. */
  ghost predicate SameField(a: Record, b: Record, key: string) {
    (key in a <==> key in b) && Get(a, key) == Get(b, key)
  }

  lemma StableFieldKept(a: Record, b: Record, fields: set<string>, key: string)
    requires a - fields == b - fields
    requires key !in fields
    ensures SameField(a, b, key)
  {
    assert key in a <==> key in a - fields;
    assert key in b <==> key in b - fields;
  }

  // ---------------------------------------------------------------- rows

  lemma RowFieldKept(a: Json, b: Json, key: string)
    requires SameRow(a, b)
    requires key !in VOLATILE_ROW_FIELDS
    ensures Field(a, key) == Field(b, key)
  {
    var fields := VOLATILE_ROW_FIELDS;
    assert StableRow(a) - VOLATILE_DURATION_FIELDS == Fields(a) - fields;
    assert StableRow(b) - VOLATILE_DURATION_FIELDS == Fields(b) - fields;
    StableFieldKept(Fields(a), Fields(b), fields, key);
  }

  lemma RowHeadKept(a: Json, b: Json)
    requires SameRow(a, b)
    ensures Field(a, "id") == Field(b, "id")
    ensures Field(a, "kind") == Field(b, "kind")
    ensures Field(a, "label") == Field(b, "label")
    ensures Field(a, "status") == Field(b, "status")
    ensures Field(a, "phase") == Field(b, "phase")
    ensures Field(a, "details") == Field(b, "details")
  {
    RowFieldKept(a, b, "id");
    RowFieldKept(a, b, "kind");
    RowFieldKept(a, b, "label");
    RowFieldKept(a, b, "status");
    RowFieldKept(a, b, "phase");
    RowFieldKept(a, b, "details");
    hide SameRow, Field;
  }

  lemma RowPeopleKept(a: Json, b: Json)
    requires SameRow(a, b)
    ensures Field(a, "personaRole") == Field(b, "personaRole")
    ensures Field(a, "actor") == Field(b, "actor")
    ensures Field(a, "verdict") == Field(b, "verdict")
    ensures Field(a, "reason") == Field(b, "reason")
    ensures Field(a, "error") == Field(b, "error")
  {
    RowFieldKept(a, b, "personaRole");
    RowFieldKept(a, b, "actor");
    RowFieldKept(a, b, "verdict");
    RowFieldKept(a, b, "reason");
    RowFieldKept(a, b, "error");
    hide SameRow, Field;
  }

  lemma RowAgentKept(a: Json, b: Json)
    requires SameRow(a, b)
    ensures Field(a, "coveredPhases") == Field(b, "coveredPhases")
    ensures Field(a, "agentRunId") == Field(b, "agentRunId")
    ensures Field(a, "toolCalls") == Field(b, "toolCalls")
    ensures Field(a, "childWorkflowId") == Field(b, "childWorkflowId")
    ensures Field(a, "childWorkflowType") == Field(b, "childWorkflowType")
  {
    RowFieldKept(a, b, "coveredPhases");
    RowFieldKept(a, b, "agentRunId");
    RowFieldKept(a, b, "toolCalls");
    RowFieldKept(a, b, "childWorkflowId");
    RowFieldKept(a, b, "childWorkflowType");
    hide SameRow, Field;
  }

  /** Of what the row checks read, only `completedAt` can change. */
  lemma RowReadKept(a: Json, b: Json)
    requires SameRow(a, b)
    ensures ReadRow(a).(completedAt := Null) == ReadRow(b).(completedAt := Null)
  {
    hide SameRow, Field;
    RowHeadKept(a, b);
    RowPeopleKept(a, b);
    RowAgentKept(a, b);
  }

  /** No check of a single row tells two such rows apart. */
  lemma RowChecksKept(repr: Json -> string, contract: Contract, a: Row, b: Row)
    requires a.(completedAt := Null) == b.(completedAt := Null)
    requires a.kind == Str("reasoning") ==> (Visible(a.completedAt) <==> Visible(b.completedAt))
    ensures RowOk(repr, contract, a) == RowOk(repr, contract, b)
  {
    hide Visible, Text, TextOrEmpty, DeclaredPhases, DeclaredOf, Or, IsOneOf, Hashable, RowValue, Field;
    hide CoverageListed, CoverageDeclared;
  }

  // ---------------------------------------------------------------- timelines

  lemma {:induction false} HavingKept(a: seq<Json>, b: seq<Json>, key: string, values: set<string>)
    requires SameRows(a, b)
    requires key !in VOLATILE_ROW_FIELDS
    ensures SameRows(Having(a, key, values), Having(b, key, values))
  {
    hide SameRow, VOLATILE_ROW_FIELDS;
    if a == [] {
    } else {
      assert SameRow(a[0], b[0]);
      RowFieldKept(a[0], b[0], key);
      HavingKept(a[1..], b[1..], key, values);
    }
  }

  lemma {:induction false} WithoutSpansKept(repr: Json -> string, a: seq<Json>, b: seq<Json>)
    requires SameRows(a, b)
    ensures SameRows(WithoutSpans(repr, a), WithoutSpans(repr, b))
  {
    hide SameRow;
    if a == [] {
    } else {
      assert SameRow(a[0], b[0]);
      RowHeadKept(a[0], b[0]);
      WithoutSpansKept(repr, a[1..], b[1..]);
    }
  }

  lemma WithoutSpansOnlyDrops(repr: Json -> string, rows: seq<Json>)
    ensures forall row | row in WithoutSpans(repr, rows) :: row in rows
  {
  }

  lemma {:induction false} ReasoningCallsKept(a: seq<Json>, b: seq<Json>)
    requires SameRows(a, b)
    ensures ReasoningCalls(a) == ReasoningCalls(b)
  {
    hide SameRow;
    if a == [] {
    } else {
      assert SameRow(a[0], b[0]);
      RowAgentKept(a[0], b[0]);
      ReasoningCallsKept(a[1..], b[1..]);
    }
  }

  lemma LifecycleKept(repr: Json -> string, v: Json, w: Json, a: seq<Json>, b: seq<Json>)
    requires Field(v, "status") == Field(w, "status")
    requires SameRows(a, b)
    ensures LifecycleOk(repr, v, a) == LifecycleOk(repr, w, b)
  {
    hide SameRow, Field, Having, TextOrEmpty;
    LabelIsStable();
    HavingKept(a, b, "label", {"workflow.started"});
    HavingKept(a, b, "label", TERMINAL_LABELS.Values);
    var x, y := Having(a, "label", TERMINAL_LABELS.Values), Having(b, "label", TERMINAL_LABELS.Values);
    if |x| == 1 {
      assert SameRow(x[0], y[0]);
      RowHeadKept(x[0], y[0]);
    }
  }

  lemma LabelIsStable()
    ensures "label" !in VOLATILE_ROW_FIELDS && "kind" !in VOLATILE_ROW_FIELDS
  {
  }

  lemma RowOkKept(repr: Json -> string, contract: Contract, a: Json, b: Json)
    requires SameRow(a, b)
    ensures (a.Obj? && RowOk(repr, contract, ReadRow(a))) <==> (b.Obj? && RowOk(repr, contract, ReadRow(b)))
  {
    RowReadKept(a, b);
    assert Field(a, "completedAt") == ReadRow(a).completedAt && Field(b, "completedAt") == ReadRow(b).completedAt;
    RowChecksKept(repr, contract, ReadRow(a), ReadRow(b));
  }

  lemma RowsKept(repr: Json -> string, contract: Contract, a: seq<Json>, b: seq<Json>)
    requires SameRows(a, b)
    requires forall row <- a :: row.Obj? && RowOk(repr, contract, ReadRow(row))
    ensures forall row <- b :: row.Obj? && RowOk(repr, contract, ReadRow(row))
  {
    hide SameRow, RowOk, ReadRow;
    forall row | row in b ensures row.Obj? && RowOk(repr, contract, ReadRow(row)) {
      var i :| 0 <= i < |b| && b[i] == row;
      assert a[i] in a;
      RowOkKept(repr, contract, a[i], b[i]);
    }
  }

  lemma KindStays(a: seq<Json>, b: seq<Json>, kind: string)
    requires SameRows(a, b) && HasKind(a, kind)
    ensures HasKind(b, kind)
  {
    hide SameRow, Field;
    var i :| 0 <= i < |a| && Field(a[i], "kind") == Str(kind);
    RowHeadKept(a[i], b[i]);
  }

  lemma SameRowsSymmetric(a: seq<Json>, b: seq<Json>)
    requires SameRows(a, b)
    ensures SameRows(b, a)
  {
    hide Field, StableRow, Visible;
    forall i | 0 <= i < |b| ensures SameRow(b[i], a[i]) {
      assert SameRow(a[i], b[i]);
      RowHeadKept(a[i], b[i]);
    }
  }

  lemma TimelinePassesOn(repr: Json -> string, contract: Contract, v: Json, w: Json, a: seq<Json>, b: seq<Json>)
    requires Field(v, "status") == Field(w, "status")
    requires SameRows(a, b) && TimelineOk(repr, contract, v, a)
    ensures TimelineOk(repr, contract, w, b)
  {
    hide SameRows, Field, RowOk, ReadRow, Lifecycle, LifecycleOk, HasKind, DeclaredOf;
    LifecycleKept(repr, v, w, a, b);
    LifecycleExactly(repr, v, a);
    LifecycleExactly(repr, w, b);
    RowsKept(repr, contract, a, b);
    KindStays(a, b, "phase");
    if HasKind(a, "reasoning") { KindStays(a, b, "reasoning"); }
  }

  lemma TimelineKept(repr: Json -> string, contract: Contract, v: Json, w: Json, a: seq<Json>, b: seq<Json>)
    requires SameWorkflow(v, w)
    requires SameRows(a, b)
    ensures TimelineOk(repr, contract, v, a) == TimelineOk(repr, contract, w, b)
  {
    WorkflowKeysAreStable();
    StableFieldKept(Fields(v), Fields(w), VOLATILE_WORKFLOW_FIELDS, "status");
    hide SameRows, TimelineOk;
    SameRowsSymmetric(a, b);
    if TimelineOk(repr, contract, v, a) { TimelinePassesOn(repr, contract, v, w, a, b); }
    if TimelineOk(repr, contract, w, b) { TimelinePassesOn(repr, contract, w, v, b, a); }
  }

  // ---------------------------------------------------------------- tool records

  /** The reconciler cannot tell the two records apart. */
  ghost predicate SameReads(a: Record, b: Record) {
    forall key | IsToolKey(key) :: SameField(a, b, key)
  }

  ghost predicate SameRecord(v: Json, w: Json) {
    (v.Obj? <==> w.Obj?) && SameReads(Fields(v), Fields(w))
  }

  ghost predicate SameRecords(a: seq<Json>, b: seq<Json>) {
    |a| == |b| && forall i | 0 <= i < |a| :: SameRecord(a[i], b[i])
  }

  lemma SameCallReads(v: Json, w: Json)
    requires SameCall(v, w)
    ensures SameRecord(v, w)
  {
    hide IsToolKey, VOLATILE_CALL_FIELDS;
    forall key | IsToolKey(key) ensures SameField(Fields(v), Fields(w), key) {
      ToolKeysAreStable(key);
      StableFieldKept(Fields(v), Fields(w), VOLATILE_CALL_FIELDS, key);
    }
  }

  lemma SameToolRowReads(v: Json, w: Json)
    requires SameRow(v, w)
    requires Field(v, "kind") == Str("tool")
    ensures SameRecord(v, w)
  {
    RowHeadKept(v, w);
    hide IsToolKey, VOLATILE_TIMELINE_FIELDS, VOLATILE_DURATION_FIELDS;
    assert Fields(v) - VOLATILE_TIMELINE_FIELDS == Fields(w) - VOLATILE_TIMELINE_FIELDS by {
      assert VOLATILE_TIMELINE_FIELDS + {} == VOLATILE_TIMELINE_FIELDS;
    }
    forall key | IsToolKey(key) ensures SameField(Fields(v), Fields(w), key) {
      ToolKeysAreStable(key);
      StableFieldKept(Fields(v), Fields(w), VOLATILE_TIMELINE_FIELDS, key);
    }
  }

  lemma {:induction false} FirstPresentKept(a: Record, b: Record, fields: seq<string>)
    requires forall f | f in fields :: SameField(a, b, f)
    ensures FirstPresent(a, fields) == FirstPresent(b, fields)
    ensures FirstKnown(a, fields) == FirstKnown(b, fields)
  {
    if fields == [] {
    } else {
      assert fields[0] in fields;
      FirstPresentKept(a, b, fields[1..]);
    }
  }

  lemma IdentityKept(repr: Json -> string, v: Json, w: Json)
    requires SameRecord(v, w)
    ensures ToolCallId(repr, v) == ToolCallId(repr, w)
    ensures ToolName(repr, v) == ToolName(repr, w)
    ensures Field(v, "id") == Field(w, "id")
  {
    hide Trimmed, CALL_ID_FIELDS, NAME_FIELDS;
    FirstPresentKept(Fields(v), Fields(w), CALL_ID_FIELDS);
    FirstPresentKept(Fields(v), Fields(w), NAME_FIELDS);
    assert IsToolKey("id");
  }

  lemma GroupsAreRead(aliases: seq<string>)
    requires aliases in ALIAS_GROUPS
    ensures forall f | f in aliases :: IsToolKey(f)
  {
    hide REQUEST, RESPONSE, DURATION;
  }

  lemma GroupKept(a: Record, b: Record, c: Record, d: Record, aliases: seq<string>)
    requires forall f | f in aliases :: SameField(a, c, f) && SameField(b, d, f)
    ensures Carries(a, aliases) ==> Carries(c, aliases)
    ensures AliasesMatch(a, b, aliases) ==> AliasesMatch(c, d, aliases)
  {
    hide PyEq;
    if Carries(a, aliases) {
      var f :| f in aliases && f in a;
      assert SameField(a, c, f);
    }
    if AliasesMatch(a, b, aliases) {
      forall f, g | f in aliases && g in aliases && f in c && g in d ensures PyEq(c[f], d[g]) {
        assert SameField(a, c, f) && SameField(b, d, g);
      }
    }
  }

  lemma ValuesAgreeKept(call: Record, reasoning: Record, row: Record, call': Record, row': Record)
    requires SameReads(call, call') && SameReads(row, row')
    requires ValuesAgree(call, reasoning, row)
    ensures ValuesAgree(call', reasoning, row')
  {
    hide IsToolKey, Carries, AliasesMatch, ALIAS_GROUPS, DURATION;
    forall aliases | aliases in ALIAS_GROUPS
      ensures Carries(call', aliases) && AliasesMatch(call', call', aliases)
      ensures AliasesMatch(call', reasoning, aliases) && AliasesMatch(call', row', aliases)
    {
      GroupsAreRead(aliases);
      GroupKept(call, call, call', call', aliases);
      GroupKept(call, reasoning, call', reasoning, aliases);
      GroupKept(call, row, call', row', aliases);
    }
    DurationIsAGroup();
    GroupsAreRead(DURATION);
    GroupKept(row, row, row', row', DURATION);
  }

  lemma StatusKept(a: Record, b: Record)
    requires SameReads(a, b)
    ensures Comparable(a) == Comparable(b)
    ensures forall c :: ReportsCode(a, c) == ReportsCode(b, c)
    ensures forall ok :: ReportsOutcome(a, ok) == ReportsOutcome(b, ok)
  {
    assert IsToolKey(CODE_FIELDS[0]) && IsToolKey(CODE_FIELDS[1]);
    assert IsToolKey("success") && IsToolKey("status");
    assert SameField(a, b, CODE_FIELDS[0]) && SameField(a, b, CODE_FIELDS[1]);
    assert SameField(a, b, "success") && SameField(a, b, "status");
    hide IsToolKey, CODE_FIELDS, StatusOutcome, CodeOutcome;
  }

  lemma StatusesAgreeKept(call: Record, reasoning: Record, row: Record, call': Record, row': Record)
    requires SameReads(call, call') && SameReads(row, row')
    requires StatusesAgree(call, reasoning, row)
    ensures StatusesAgree(call', reasoning, row')
  {
    hide SameReads, Comparable, ReportsCode, ReportsOutcome;
    StatusKept(call, call');
    StatusKept(row, row');
    var x :| ReportsOutcome(call, x);
    assert ReportsOutcome(call', x);
    var y :| ReportsOutcome(row, y);
    assert ReportsOutcome(row', y);
  }

  lemma AgreeKept(repr: Json -> string, call: Json, reasoning: Json, row: Json, call': Json, row': Json)
    requires SameRecord(call, call') && SameRecord(row, row')
    requires Agree(repr, call, reasoning, row)
    ensures Agree(repr, call', reasoning, row')
  {
    hide SameReads, ValuesAgree, StatusesAgree, ToolName, Fields;
    IdentityKept(repr, call, call');
    IdentityKept(repr, row, row');
    ValuesAgreeKept(Fields(call), Fields(reasoning), Fields(row), Fields(call'), Fields(row'));
    StatusesAgreeKept(Fields(call), Fields(reasoning), Fields(row), Fields(call'), Fields(row'));
  }

  lemma IndexableKept(repr: Json -> string, a: seq<Json>, b: seq<Json>, timelineRows: bool)
    requires SameRecords(a, b)
    requires Indexable(repr, a, timelineRows)
    ensures Indexable(repr, b, timelineRows)
    ensures forall i | 0 <= i < |a| :: ToolCallId(repr, a[i]) == ToolCallId(repr, b[i])
  {
    forall i | 0 <= i < |a|
      ensures ToolCallId(repr, a[i]) == ToolCallId(repr, b[i]) && Field(a[i], "id") == Field(b[i], "id")
    {
      assert SameRecord(a[i], b[i]);
      IdentityKept(repr, a[i], b[i]);
    }
    hide ToolCallId, SameReads, Field, TextOrEmpty;
  }

  lemma SameIdsKept(repr: Json -> string, a: seq<Json>, b: seq<Json>)
    requires |a| == |b| && forall i | 0 <= i < |a| :: ToolCallId(repr, a[i]) == ToolCallId(repr, b[i])
    ensures SameIds(repr, a, b)
  {
    hide ToolCallId;
    forall id ensures HasId(repr, a, id) <==> HasId(repr, b, id) {
      if i :| 0 <= i < |a| && ToolCallId(repr, a[i]) == id { assert ToolCallId(repr, b[i]) == id; }
      if i :| 0 <= i < |b| && ToolCallId(repr, b[i]) == id { assert ToolCallId(repr, a[i]) == id; }
    }
  }

  /** Reconciliation does not see volatile fields of calls and timeline rows. */
  lemma ReconciledKept(repr: Json -> string, calls: seq<Json>, reasoning: seq<Json>, rows: seq<Json>,
                       calls': seq<Json>, rows': seq<Json>)
    requires SameRecords(calls, calls') && SameRecords(rows, rows')
    requires ToolsReconciled(repr, calls, reasoning, rows)
    ensures ToolsReconciled(repr, calls', reasoning, rows')
  {
    hide SameReads, ToolCallId, Agree, Indexable, HasId, SameRecord;
    IndexableKept(repr, calls, calls', false);
    IndexableKept(repr, rows, rows', true);
    SameIdsKept(repr, calls, calls');
    SameIdsKept(repr, rows, rows');
    forall c', r, t' | c' in calls' && r in reasoning && t' in rows' && Matched(repr, c', r, t')
      ensures Agree(repr, c', r, t')
    {
      var i :| 0 <= i < |calls'| && calls'[i] == c';
      var k :| 0 <= k < |rows'| && rows'[k] == t';
      assert calls[i] in calls && rows[k] in rows && Matched(repr, calls[i], r, rows[k]);
      AgreeKept(repr, calls[i], r, rows[k], c', t');
    }
  }

  lemma SameRecordsSymmetric(a: seq<Json>, b: seq<Json>)
    requires SameRecords(a, b)
    ensures SameRecords(b, a)
  {
    forall i | 0 <= i < |b| ensures SameRecord(b[i], a[i]) {
      assert SameRecord(a[i], b[i]);
    }
  }

  lemma ToolRowsKept(repr: Json -> string, a: seq<Json>, b: seq<Json>)
    requires SameRows(a, b)
    ensures SameRecords(ToolRows(repr, a), ToolRows(repr, b))
  {
    hide SameRow, SameRecord, Field;
    LabelIsStable();
    HavingKept(a, b, "kind", {"tool"});
    HavingMeaning(a, "kind", {"tool"});
    var x, y := Having(a, "kind", {"tool"}), Having(b, "kind", {"tool"});
    WithoutSpansKept(repr, x, y);
    WithoutSpansOnlyDrops(repr, x);
    var tools, tools' := ToolRows(repr, a), ToolRows(repr, b);
    forall i | 0 <= i < |tools| ensures SameRecord(tools[i], tools'[i]) {
      assert tools[i] in x;
      SameToolRowReads(tools[i], tools'[i]);
    }
  }

  lemma ToolsKept(repr: Json -> string, c: Json, d: Json, a: seq<Json>, b: seq<Json>)
    requires c.List? <==> d.List?
    requires SameCalls(Items(c), Items(d))
    requires SameRows(a, b)
    ensures ToolsOk(repr, c, a) == ToolsOk(repr, d, b)
  {
    hide SameRow, SameCall, SameRecord, ToolRows, ToolsReconciled;
    LabelIsStable();
    HavingKept(a, b, "kind", {"reasoning"});
    var reasoning := ReasoningCalls(Having(a, "kind", {"reasoning"}));
    ReasoningCallsKept(Having(a, "kind", {"reasoning"}), Having(b, "kind", {"reasoning"}));
    ToolRowsKept(repr, a, b);
    var calls, calls' := Items(c), Items(d);
    forall i | 0 <= i < |calls| ensures SameRecord(calls[i], calls'[i]) { SameCallReads(calls[i], calls'[i]); }
    SameRecordsSymmetric(calls, calls');
    SameRecordsSymmetric(ToolRows(repr, a), ToolRows(repr, b));
    if ToolsReconciled(repr, calls, reasoning, ToolRows(repr, a)) {
      ReconciledKept(repr, calls, reasoning, ToolRows(repr, a), calls', ToolRows(repr, b));
    }
    if ToolsReconciled(repr, calls', reasoning, ToolRows(repr, b)) {
      ReconciledKept(repr, calls', reasoning, ToolRows(repr, b), calls, ToolRows(repr, a));
    }
  }

  // ---------------------------------------------------------------- the main result

  /** Details that differ in volatile fields only get the same verdict and leave the same evidence. */
  lemma VolatileFieldsDoNotMatter(repr: Json -> string, contract: Contract, a: Json, b: Json)
    requires SameButVolatile(a, b)
    ensures Accepted(repr, contract, a) <==> Accepted(repr, contract, b)
    ensures EvidenceOf(a) == EvidenceOf(b)
  {
    hide SameRow, SameCall, SameWorkflow, Field, TimelineOk, ToolsOk, StableRow, WithoutVolatile;
    var v, w := Field(a, "workflow"), Field(b, "workflow");
    var s, t := Items(Field(a, "timeline")), Items(Field(b, "timeline"));
    TimelineKept(repr, contract, v, w, s, t);
    ToolsKept(repr, Field(a, "mcpCalls"), Field(b, "mcpCalls"), s, t);
    WorkflowShape(v, w);
    RowsLeaveSameEvidence(s, t);
    CallsLeaveSameEvidence(Items(Field(a, "mcpCalls")), Items(Field(b, "mcpCalls")));
  }

  lemma WorkflowShape(v: Json, w: Json)
    requires SameWorkflow(v, w)
    ensures v.Obj? <==> w.Obj?
    ensures WithoutVolatile(v, VOLATILE_WORKFLOW_FIELDS) == WithoutVolatile(w, VOLATILE_WORKFLOW_FIELDS)
  {
  }

  lemma RowsLeaveSameEvidence(a: seq<Json>, b: seq<Json>)
    requires SameRows(a, b)
    ensures StableRows(a) == StableRows(b)
  {
    hide StableRow;
    assert forall i | 0 <= i < |a| :: SameRow(a[i], b[i]);
  }

  lemma CallsLeaveSameEvidence(a: seq<Json>, b: seq<Json>)
    requires SameCalls(a, b)
    ensures StableCalls(a) == StableCalls(b)
  {
    hide WithoutVolatile;
    assert forall i | 0 <= i < |a| :: SameCall(a[i], b[i]);
  }
}
