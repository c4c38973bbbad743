/** tools/workflow_visibility_proof.py: what three reconciled records say, field by field. */
module VisibilityStatuses {
  import opened Values
  import opened VisibilityTools
  import opened VisibilityReconcile

  // ---------------------------------------------------------------- statuses

  predicate CodeIs(code: int, ok: bool) { (200 <= code < 400) == ok }

  predicate WordIs(s: string, ok: bool) {
    var word := Lower(Strip(s));
    if ok then word == "ok" || word == "success" || word == "succeeded" || word == "completed"
    else word == "error" || word == "failed" || word == "failure" || word == "rejected"
  }

  /** A `status` value that says how the call ended: a code, a flag or one of eight words. */
  predicate StatusIs(v: Json, ok: bool) {
    match v
    case Int(code) => CodeIs(code, ok)
    case Bool(b) => b == ok
    case Str(s) => WordIs(s, ok)
    case _ => false
  }

  predicate CodeFieldIs(r: Record, field: string, ok: bool) {
    field in r ==> r[field].Int? && CodeIs(r[field].n, ok)
  }

  /** Every status field of the record can be read, and all of them say the same. */
  predicate Says(r: Record, ok: bool) {
    && CodeFieldIs(r, "statusCode", ok)
    && CodeFieldIs(r, "status_code", ok)
    && ("success" in r ==> r["success"] == Bool(ok))
    && ("status" in r ==> StatusIs(r["status"], ok))
  }

  predicate Speaks(r: Record) {
    "statusCode" in r || "status_code" in r || "success" in r || "status" in r
  }

  predicate Shows(r: Record, field: string, code: int) {
    field in r && r[field] == Int(code)
  }

  predicate ShowsCode(r: Record, code: int) {
    Shows(r, "statusCode", code) || Shows(r, "status_code", code) || Shows(r, "status", code)
  }

  /** No code of one record differs from a code of the other. */
  ghost predicate SameCodes(a: Record, b: Record) {
    forall c, d | ShowsCode(a, c) && ShowsCode(b, d) :: c == d
  }

  lemma CodeFields()
    ensures CODE_FIELDS[0] == "statusCode" && CODE_FIELDS[1] == "status_code"
  {}

  lemma CodesShown(r: Record, code: int)
    ensures ReportsCode(r, code) <==> ShowsCode(r, code)
  {
    CodeFields();
    hide CODE_FIELDS;
  }

  lemma StatusRead(v: Json, ok: bool)
    ensures StatusOutcome(v) == Some(ok) <==> StatusIs(v, ok)
  {
    hide Lower, Strip;
    if v.Str? { WordRead(Lower(Strip(v.s))); }
  }

  lemma WordRead(word: string)
    ensures word in SUCCESS_STATUSES <==>
      word == "ok" || word == "success" || word == "succeeded" || word == "completed"
    ensures word in FAILURE_STATUSES <==>
      word == "error" || word == "failed" || word == "failure" || word == "rejected"
    ensures !(word in SUCCESS_STATUSES && word in FAILURE_STATUSES)
  {}

  lemma OutcomesShown(r: Record, ok: bool)
    ensures ReportsOutcome(r, ok) <==>
      || ("statusCode" in r && r["statusCode"].Int? && CodeIs(r["statusCode"].n, ok))
      || ("status_code" in r && r["status_code"].Int? && CodeIs(r["status_code"].n, ok))
      || ("success" in r && r["success"] == Bool(ok))
      || ("status" in r && StatusIs(r["status"], ok))
  {
    CodeFields();
    StatusRead(Get(r, "status"), ok);
    hide CODE_FIELDS, StatusOutcome, WordIs;
  }

  lemma ReadableExactly(r: Record)
    ensures Comparable(r) <==>
      && ("statusCode" in r ==> r["statusCode"].Int?)
      && ("status_code" in r ==> r["status_code"].Int?)
      && ("success" in r ==> r["success"].Bool?)
      && ("status" in r ==> StatusIs(r["status"], true) || StatusIs(r["status"], false))
  {
    CodeFields();
    StatusRead(Get(r, "status"), true);
    StatusRead(Get(r, "status"), false);
    hide CODE_FIELDS, StatusOutcome, StatusIs;
    if "status" in r && StatusOutcome(r["status"]).Some? {
      assert StatusOutcome(r["status"]).value == true || StatusOutcome(r["status"]).value == false;
    }
  }

  lemma NotBoth(v: Json)
    ensures !(StatusIs(v, true) && StatusIs(v, false))
  {
    hide Lower, Strip;
  }

  /** The record has a normalized status exactly when its fields agree with each other. */
  lemma NormalizableExactly(r: Record)
    ensures Normalizable(r) <==> SameCodes(r, r) && (Says(r, true) || Says(r, false))
    ensures Normalizable(r) ==> forall ok :: ReportsOutcome(r, ok) <==> Says(r, ok) && Speaks(r)
  {
    ReadableExactly(r);
    OutcomesShown(r, true);
    OutcomesShown(r, false);
    if "status" in r { NotBoth(r["status"]); }
    hide ReportsCode, ShowsCode, Comparable, StatusIs, ReportsOutcome;
    forall c ensures ReportsCode(r, c) <==> ShowsCode(r, c) { CodesShown(r, c); }
  }

  lemma CodesMatchShown(a: Record, b: Record)
    ensures CodesMatch(a, b) <==> SameCodes(a, b)
  {
    hide ReportsCode, ShowsCode;
    forall c ensures ReportsCode(a, c) <==> ShowsCode(a, c) { CodesShown(a, c); }
    forall c ensures ReportsCode(b, c) <==> ShowsCode(b, c) { CodesShown(b, c); }
  }

  /** The statuses of a call, its reasoning record and its timeline row are accepted exactly when all their
      status fields can be read and tell one outcome, the call and the row tell it, no record shows two
      codes, and neither other record shows a code that the call contradicts. */
  lemma StatusesExactly(call: Record, reasoning: Record, row: Record)
    ensures StatusesAgree(call, reasoning, row) <==>
      && (exists ok :: Says(call, ok) && Says(reasoning, ok) && Says(row, ok))
      && Speaks(call) && Speaks(row)
      && SameCodes(call, call) && SameCodes(reasoning, reasoning) && SameCodes(row, row)
      && SameCodes(call, reasoning) && SameCodes(call, row)
  {
    NormalizableExactly(call);
    NormalizableExactly(reasoning);
    NormalizableExactly(row);
    CodesMatchShown(call, reasoning);
    CodesMatchShown(call, row);
    hide Normalizable, ReportsOutcome, Says, SameCodes, CodesMatch;
    SaidOnce(call);
    SaidOnce(reasoning);
    SaidOnce(row);
  }

  lemma SaidOnce(r: Record)
    ensures !Speaks(r) ==> Says(r, true) && Says(r, false)
    ensures Speaks(r) ==> !(Says(r, true) && Says(r, false))
  {
    if "status" in r { NotBoth(r["status"]); }
    hide StatusIs;
  }

  /** Every accepted call has one outcome, told by its own record and by its partners in the other two
      collections: every code any of them shows is from 200 to 399 exactly when the call succeeded. */
  lemma AcceptedRecordsSay(repr: Json -> string, calls: seq<Json>, reasoning: seq<Json>, rows: seq<Json>, i: nat)
    returns (j: nat, k: nat, ok: bool)
    requires ToolsReconciled(repr, calls, reasoning, rows) && i < |calls|
    ensures j < |reasoning| && k < |rows|
    ensures ToolCallId(repr, calls[i]) == ToolCallId(repr, reasoning[j]) == ToolCallId(repr, rows[k]) != ""
    ensures Says(Fields(calls[i]), ok) && Says(Fields(reasoning[j]), ok) && Says(Fields(rows[k]), ok)
    ensures Speaks(Fields(calls[i])) && Speaks(Fields(rows[k]))
    ensures forall r <- [calls[i], reasoning[j], rows[k]], code | ShowsCode(Fields(r), code) ::
              200 <= code < 400 <==> ok
  {
    j, k := AcceptedCallHasPartners(repr, calls, reasoning, rows, i);
    AcceptedToolsAreInBijection(repr, calls, reasoning, rows);
    StatusesExactly(Fields(calls[i]), Fields(reasoning[j]), Fields(rows[k]));
    hide ToolsReconciled, ToolCallId, StatusesAgree, ValuesAgree, NamesAgree, SameCodes, Fields, Says, ShowsCode;
    ok :| Says(Fields(calls[i]), ok) && Says(Fields(reasoning[j]), ok) && Says(Fields(rows[k]), ok);
    forall r | r in [calls[i], reasoning[j], rows[k]] ensures
      forall code | ShowsCode(Fields(r), code) :: 200 <= code < 400 <==> ok
    {
      CodesSay(Fields(r), ok);
    }
  }

  lemma CodesSay(r: Record, ok: bool)
    requires Says(r, ok)
    ensures forall code | ShowsCode(r, code) :: 200 <= code < 400 <==> ok
  {}

  /** A code outside 200 to 399 in any status field of the call is never accepted next to a row that claims
      success: not 404, not 500, not 199. */
  lemma FailedCallRefusesSuccess(repr: Json -> string, call: Json, reasoning: Json, row: Json, code: int)
    requires ShowsCode(Fields(call), code) && !(200 <= code < 400)
    requires "success" in Fields(row) && Fields(row)["success"] == Bool(true)
    ensures !Agree(repr, call, reasoning, row)
  {
    StatusesExactly(Fields(call), Fields(reasoning), Fields(row));
    hide StatusesAgree, ValuesAgree, NamesAgree, SameCodes, Fields;
  }

  // ---------------------------------------------------------------- values, ids and names

  ghost predicate SameValues(a: Record, b: Record, aliases: seq<string>) {
    forall f, g | f in aliases && g in aliases && f in a && g in b :: PyEq(a[f], b[g])
  }

  /** The call shows the value under one of the aliases, and every alias of it in the three records shows an
      equal one. */
  ghost predicate OneValue(call: Record, reasoning: Record, row: Record, aliases: seq<string>) {
    && (exists f <- aliases :: f in call)
    && SameValues(call, call, aliases) && SameValues(call, reasoning, aliases) && SameValues(call, row, aliases)
  }

  lemma ValuesExactly(call: Record, reasoning: Record, row: Record)
    ensures ValuesAgree(call, reasoning, row) <==>
      && OneValue(call, reasoning, row, ["request", "args", "arguments"])
      && OneValue(call, reasoning, row, ["response", "result"])
      && OneValue(call, reasoning, row, ["durationMs", "duration_ms", "latencyMs", "latency_ms"])
      && ("durationMs" in row || "duration_ms" in row || "latencyMs" in row || "latency_ms" in row)
  {
    assert REQUEST == ["request", "args", "arguments"] && RESPONSE == ["response", "result"];
    assert DURATION == ["durationMs", "duration_ms", "latencyMs", "latency_ms"];
    CarriesDuration(row);
    ThreeGroups();
    GroupExactly(call, reasoning, row, REQUEST);
    GroupExactly(call, reasoning, row, RESPONSE);
    GroupExactly(call, reasoning, row, DURATION);
    hide Carries, AliasesMatch, OneValue, REQUEST, RESPONSE, DURATION, ALIAS_GROUPS;
  }

  lemma ThreeGroups()
    ensures forall aliases :: aliases in ALIAS_GROUPS <==>
      aliases == REQUEST || aliases == RESPONSE || aliases == DURATION
  {
    hide REQUEST, RESPONSE, DURATION;
  }

  lemma CarriesDuration(row: Record)
    ensures Carries(row, DURATION) <==>
      "durationMs" in row || "duration_ms" in row || "latencyMs" in row || "latency_ms" in row
  {
    assert forall f :: f in DURATION <==>
      f == "durationMs" || f == "duration_ms" || f == "latencyMs" || f == "latency_ms";
    hide DURATION;
  }

  lemma GroupExactly(call: Record, reasoning: Record, row: Record, aliases: seq<string>)
    ensures OneValue(call, reasoning, row, aliases) <==>
      && Carries(call, aliases) && AliasesMatch(call, call, aliases)
      && AliasesMatch(call, reasoning, aliases) && AliasesMatch(call, row, aliases)
  {
    hide PyEq;
    assert SameValues(call, call, aliases) <==> AliasesMatch(call, call, aliases);
    assert SameValues(call, reasoning, aliases) <==> AliasesMatch(call, reasoning, aliases);
    assert SameValues(call, row, aliases) <==> AliasesMatch(call, row, aliases);
  }

  /** Which field holds the id, and which the tool's name: a present id field wins even when it is null, a
      null name field gives way to the next. */
  lemma IdAndName(repr: Json -> string, v: Json)
    ensures var f := Fields(v);
      && ToolCallId(repr, v) == Trimmed(repr,
           if "toolCallId" in f then f["toolCallId"]
           else if "tool_call_id" in f then f["tool_call_id"]
           else if "callId" in f then f["callId"]
           else Get(f, "call_id"))
      && ToolName(repr, v) == Trimmed(repr,
           if Get(f, "tool") != Null then f["tool"]
           else if Get(f, "name") != Null then f["name"]
           else if Get(f, "toolName") != Null then f["toolName"]
           else Get(f, "tool_name"))
  {
    assert CALL_ID_FIELDS == ["toolCallId", "tool_call_id", "callId", "call_id"];
    assert NAME_FIELDS == ["tool", "name", "toolName", "tool_name"];
    FirstOfFour(Fields(v), "toolCallId", "tool_call_id", "callId", "call_id");
    FirstOfFour(Fields(v), "tool", "name", "toolName", "tool_name");
    hide Trimmed, CALL_ID_FIELDS, NAME_FIELDS, FirstPresent, FirstKnown, Fields;
  }

  lemma FirstOfFour(f: Record, a: string, b: string, c: string, d: string)
    ensures FirstPresent(f, [a, b, c, d]) ==
      if a in f then f[a] else if b in f then f[b] else if c in f then f[c] else Get(f, d)
    ensures FirstKnown(f, [a, b, c, d]) ==
      if Get(f, a) != Null then f[a] else if Get(f, b) != Null then f[b]
      else if Get(f, c) != Null then f[c] else Get(f, d)
  {
    assert [a, b, c, d][1..] == [b, c, d] && [b, c, d][1..] == [c, d] && [c, d][1..] == [d] && [d][1..] == [];
    assert FirstPresent(f, [d]) == Get(f, d) && FirstKnown(f, [d]) == Get(f, d);
    assert FirstPresent(f, [c, d]) == if c in f then f[c] else Get(f, d);
    assert FirstKnown(f, [c, d]) == if Get(f, c) != Null then f[c] else Get(f, d);
  }
}
