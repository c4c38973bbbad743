/** tools/workflow_visibility_proof.py: evidence is compared with Python's `==`, which does not tell
    1 from 1.0 or True at any depth.  What an accepted comparison says about the two details. */
module VisibilityEquality {
  import opened Values
  import opened VisibilityTools
  import opened VisibilityReconcile
  import opened VisibilityEvidence
  import opened VisibilityVolatile
  import opened VisibilityParity

  lemma NormField(v: Json, key: string)
    ensures Field(Norm(v), key) == Norm(Field(v, key))
    ensures Norm(v).Obj? <==> v.Obj?
  {
  }

  lemma NormKeepsShape(v: Json)
    ensures Norm(v).Obj? <==> v.Obj?
    ensures Norm(v).List? <==> v.List?
    ensures |Items(Norm(v))| == |Items(v)| && forall i | 0 <= i < |Items(v)| :: Items(Norm(v))[i] == Norm(Items(v)[i])
    ensures forall s :: Norm(v) == Str(s) <==> v == Str(s)
  {
  }

  lemma NormVisible(v: Json)
    ensures Visible(Norm(v)) == Visible(v)
  {
    LiteralComparisons(v);
    LiteralComparisons(Norm(v));
    NormKeepsShape(v);
    if v.Obj? { assert Norm(v).fields.Keys == v.fields.Keys; }
  }

  /** Dropping fields and normalizing commute. */
  lemma NormWithout(v: Json, fields: set<string>)
    ensures Norm(Obj(WithoutVolatile(v, fields))) == Obj(WithoutVolatile(Norm(v), fields))
  {
    var left, right := Norm(Obj(WithoutVolatile(v, fields))).fields, WithoutVolatile(Norm(v), fields);
    assert left.Keys == right.Keys;
    assert forall k | k in left :: left[k] == right[k];
  }

  lemma NormStableRow(v: Json)
    ensures Norm(Obj(StableRow(v))) == Obj(StableRow(Norm(v)))
  {
    NormField(v, "kind");
    NormKeepsShape(Field(v, "kind"));
    hide Field, WithoutVolatile, VOLATILE_TIMELINE_FIELDS, VOLATILE_DURATION_FIELDS;
    NormWithout(v, VOLATILE_TIMELINE_FIELDS
                   + (if Field(v, "kind") == Str("tool") then {} else VOLATILE_DURATION_FIELDS));
  }

  /** Rows that are equal to Python once stripped are those whose normal forms are equal once stripped. */
  lemma RowsEqual(a: seq<Json>, b: seq<Json>)
    ensures SameList(StableRows(a), StableRows(b)) <==>
      |a| == |b| && forall i | 0 <= i < |a| :: StableRow(Norm(a[i])) == StableRow(Norm(b[i]))
  {
    hide StableRow, Norm;
    if |a| == |b| {
      forall i | 0 <= i < |a|
        ensures PyEq(Obj(StableRows(a)[i]), Obj(StableRows(b)[i])) <==> StableRow(Norm(a[i])) == StableRow(Norm(b[i]))
      {
        NormStableRow(a[i]);
        NormStableRow(b[i]);
      }
      assert |StableRows(a)| == |a| && |StableRows(b)| == |b|;
    }
  }

  lemma CallsEqual(a: seq<Json>, b: seq<Json>)
    ensures SameList(StableCalls(a), StableCalls(b)) <==>
      |a| == |b| && forall i | 0 <= i < |a| ::
        WithoutVolatile(Norm(a[i]), VOLATILE_CALL_FIELDS) == WithoutVolatile(Norm(b[i]), VOLATILE_CALL_FIELDS)
  {
    hide WithoutVolatile, Norm, VOLATILE_CALL_FIELDS;
    if |a| == |b| {
      forall i | 0 <= i < |a|
        ensures PyEq(Obj(StableCalls(a)[i]), Obj(StableCalls(b)[i])) <==>
          WithoutVolatile(Norm(a[i]), VOLATILE_CALL_FIELDS) == WithoutVolatile(Norm(b[i]), VOLATILE_CALL_FIELDS)
      {
        NormWithout(a[i], VOLATILE_CALL_FIELDS);
        NormWithout(b[i], VOLATILE_CALL_FIELDS);
      }
      assert |StableCalls(a)| == |a| && |StableCalls(b)| == |b|;
    }
  }

  lemma WorkflowsEqual(v: Json, w: Json)
    requires v.Obj? && w.Obj?
    ensures PyEq(Obj(WithoutVolatile(v, VOLATILE_WORKFLOW_FIELDS)), Obj(WithoutVolatile(w, VOLATILE_WORKFLOW_FIELDS)))
       <==> SameWorkflow(Norm(v), Norm(w))
  {
    NormKeepsShape(v);
    NormKeepsShape(w);
    hide WithoutVolatile, Norm, VOLATILE_WORKFLOW_FIELDS;
    NormWithout(v, VOLATILE_WORKFLOW_FIELDS);
    NormWithout(w, VOLATILE_WORKFLOW_FIELDS);
  }

  /** What acceptance fixes about the shape of a detail. */
  ghost predicate Shaped(detail: Json) {
    && detail.Obj?
    && Field(detail, "workflow").Obj?
    && Field(detail, "timeline").List?
    && Field(detail, "mcpCalls").List?
    && (forall row <- Field(detail, "timeline").items :: row.Obj?)
    && (forall row <- Field(detail, "timeline").items | Field(row, "kind") == Str("reasoning") ::
          Visible(Field(row, "completedAt")))
    && (forall call <- Field(detail, "mcpCalls").items :: call.Obj?)
  }

  lemma RowShaped(repr: Json -> string, contract: Contract, row: Json)
    requires RowOk(repr, contract, ReadRow(row))
    ensures Field(row, "kind") == Str("reasoning") ==> Visible(Field(row, "completedAt"))
  {
    hide Field, Visible, ValidRow, ReferencesDeclared, DecisionOk, OptionalRowOk, CoverageListed, CoverageDeclared;
  }

  lemma AcceptedIsShaped(repr: Json -> string, contract: Contract, detail: Json)
    requires Accepted(repr, contract, detail)
    ensures Shaped(detail)
  {
    var rows, calls := Field(detail, "timeline").items, Field(detail, "mcpCalls").items;
    assert detail.Obj? by { assert Field(detail, "workflow") != Null; }
    hide Field, Visible, RowOk, ReadRow, Having, ToolRows, ReasoningCalls, ToolCallId, Agree, SameIds;
    forall row | row in rows ensures Field(row, "kind") == Str("reasoning") ==> Visible(Field(row, "completedAt")) {
      RowShaped(repr, contract, row);
    }
    forall call | call in calls ensures call.Obj? {
      var i :| 0 <= i < |calls| && calls[i] == call;
      assert Identified(repr, calls[i], false);
    }
  }

  lemma RowsSameNormal(a: seq<Json>, b: seq<Json>)
    requires |a| == |b|
    requires forall row <- a + b :: row.Obj?
    requires forall row <- a + b | Field(row, "kind") == Str("reasoning") :: Visible(Field(row, "completedAt"))
    ensures (forall i | 0 <= i < |a| :: StableRow(Norm(a[i])) == StableRow(Norm(b[i])))
       <==> forall i | 0 <= i < |a| :: SameRow(Norm(a[i]), Norm(b[i]))
  {
    hide StableRow, Visible, Field;
    forall i | 0 <= i < |a|
      ensures StableRow(Norm(a[i])) == StableRow(Norm(b[i])) <==> SameRow(Norm(a[i]), Norm(b[i]))
    {
      assert a[i] in a + b && b[i] in a + b;
      if StableRow(Norm(a[i])) == StableRow(Norm(b[i])) {
        KindKept(Norm(a[i]), Norm(b[i]));
        RowNormal(a[i]);
        RowNormal(b[i]);
        hide Norm;
      }
    }
  }

  lemma RowNormal(row: Json)
    ensures Norm(row).Obj? <==> row.Obj?
    ensures Field(Norm(row), "kind") == Str("reasoning") <==> Field(row, "kind") == Str("reasoning")
    ensures Visible(Field(Norm(row), "completedAt")) == Visible(Field(row, "completedAt"))
  {
    NormField(row, "kind");
    NormKeepsShape(Field(row, "kind"));
    NormField(row, "completedAt");
    NormVisible(Field(row, "completedAt"));
  }

  /** What Python compares of two details. */
  predicate EqualEvidence(a: Json, b: Json) {
    var (x, y) := (EvidenceOf(a), EvidenceOf(b));
    PyEq(Obj(x.workflow), Obj(y.workflow)) && SameList(x.timeline, y.timeline) && SameList(x.mcpCalls, y.mcpCalls)
  }

  /** Two accepted details leave equal evidence, as Python compares it, exactly when they differ in volatile
      fields only once every number and truth value is replaced by the one Python takes it for. */
  lemma EqualEvidenceExactly(a: Json, b: Json)
    requires Shaped(a) && Shaped(b)
    ensures EqualEvidence(a, b) <==> SameButVolatile(Norm(a), Norm(b))
  {
    NormalParts(a);
    NormalParts(b);
    hide Norm, Field, SameWorkflow, SameRow, SameCall, StableRows, StableCalls, WithoutVolatile, Visible, PyEq;
    WorkflowsEqual(Field(a, "workflow"), Field(b, "workflow"));
    var s, t := Field(a, "timeline").items, Field(b, "timeline").items;
    RowsEqual(s, t);
    if |s| == |t| { RowsSameNormal(s, t); }
    var c, d := Field(a, "mcpCalls").items, Field(b, "mcpCalls").items;
    CallsEqual(c, d);
    if |c| == |d| { CallsSameNormal(c, d); }
  }

  lemma CallsSameNormal(a: seq<Json>, b: seq<Json>)
    requires |a| == |b| && forall call <- a + b :: call.Obj?
    ensures (forall i | 0 <= i < |a| ::
               WithoutVolatile(Norm(a[i]), VOLATILE_CALL_FIELDS) == WithoutVolatile(Norm(b[i]), VOLATILE_CALL_FIELDS))
       <==> forall i | 0 <= i < |a| :: SameCall(Norm(a[i]), Norm(b[i]))
  {
    hide WithoutVolatile, VOLATILE_CALL_FIELDS;
    forall i | 0 <= i < |a| ensures Norm(a[i]).Obj? && Norm(b[i]).Obj? {
      assert a[i] in a + b && b[i] in a + b;
    }
  }

  lemma NormalParts(v: Json)
    requires Shaped(v)
    ensures Norm(v).Obj?
    ensures Field(Norm(v), "workflow") == Norm(Field(v, "workflow"))
    ensures Field(Norm(v), "timeline").List? && Field(Norm(v), "mcpCalls").List?
    ensures var rows := Field(v, "timeline").items;
      |Items(Field(Norm(v), "timeline"))| == |rows|
      && forall i | 0 <= i < |rows| :: Items(Field(Norm(v), "timeline"))[i] == Norm(rows[i])
    ensures var calls := Field(v, "mcpCalls").items;
      |Items(Field(Norm(v), "mcpCalls"))| == |calls|
      && forall i | 0 <= i < |calls| :: Items(Field(Norm(v), "mcpCalls"))[i] == Norm(calls[i])
  {
    NormField(v, "workflow");
    NormField(v, "timeline");
    NormField(v, "mcpCalls");
    NormKeepsShape(Field(v, "timeline"));
    NormKeepsShape(Field(v, "mcpCalls"));
    hide Norm, Field;
  }

  /** An accepted replay differs from the live snapshot in volatile fields only, workflow by workflow, up
      to the numbers and truth values Python takes for each other. */
  lemma AcceptedReplayDiffersInVolatileFieldsOnly(repr: Json -> string, contracts: Contracts, live: Snapshot,
                                                  replay: Snapshot, d: Json)
    returns (e: Json)
    requires Parity(repr, contracts, live, replay)
    requires d in live.details && Inspected(contracts, d)
    ensures e in replay.details && Paired(repr, contracts, d, e)
    ensures SameButVolatile(Norm(d), Norm(e))
  {
    hide IdOf, TypeOf, Accepted, SameButVolatile, Norm, EvidenceOf, SameList, PyEq, NoClash;
    assert HasWorkflow(repr, contracts, live.details, IdOf(repr, d));
    assert HasWorkflow(repr, contracts, replay.details, IdOf(repr, d));
    e :| e in replay.details && Inspected(contracts, e) && IdOf(repr, e) == IdOf(repr, d);
    assert Paired(repr, contracts, d, e);
    assert DetailOk(repr, contracts, d) && DetailOk(repr, contracts, e);
    AcceptedIsShaped(repr, contracts[TypeOf(d).s], d);
    AcceptedIsShaped(repr, contracts[TypeOf(e).s], e);
    EqualEvidenceExactly(d, e);
  }
}
