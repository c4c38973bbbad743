/** tools/workflow_visibility_proof.py: status codes are compared with the call's only.  When the
    reasoning record and the timeline row of an accepted call can still report different codes. */
module VisibilityCodes {
  import opened Values
  import opened VisibilityTools
  import opened VisibilityReconcile
  import opened VisibilityVolatile

  const STATUS_FIELDS := {"statusCode", "status_code", "success", "status"}

  /** The same record, reporting one status code and nothing else about success. */
  function Restatus(v: Json, code: int): Json {
    Obj((Fields(v) - STATUS_FIELDS)["status" := Int(code)])
  }

  /** A record reports one code and the outcome that goes with it. */
  ghost predicate ReportsOnly(r: Record, code: int) {
    && Normalizable(r)
    && (forall c :: ReportsCode(r, c) <==> c == code)
    && (forall ok :: ReportsOutcome(r, ok) <==> ok == CodeOutcome(code))
  }

  lemma RestatusReports(v: Json, code: int)
    ensures ReportsOnly(Fields(Restatus(v, code)), code)
  {
    var r := Fields(Restatus(v, code));
    assert CODE_FIELDS[0] !in r && CODE_FIELDS[1] !in r && "success" !in r;
    assert Get(r, "status") == Int(code);
    assert Get(r, CODE_FIELDS[0]) == Get(r, CODE_FIELDS[1]) == Get(r, "success") == Null;
    hide CODE_FIELDS, STATUS_FIELDS, Restatus;
  }

  /** The fields that identify a record, name its tool or carry its values. */
  predicate IsOtherKey(key: string) {
    || key in CALL_ID_FIELDS
    || key in NAME_FIELDS
    || key in REQUEST
    || key in RESPONSE
    || key in DURATION
    || key == "id"
  }

  lemma OtherKeysAreNotStatus(key: string)
    requires IsOtherKey(key)
    ensures key !in STATUS_FIELDS
  {
  }

  lemma RestatusKeeps(v: Json, code: int)
    ensures forall key | IsOtherKey(key) :: SameField(Fields(v), Fields(Restatus(v, code)), key)
  {
    hide IsOtherKey;
    forall key | IsOtherKey(key) ensures SameField(Fields(v), Fields(Restatus(v, code)), key) {
      OtherKeysAreNotStatus(key);
      assert key != "status";
      hide STATUS_FIELDS;
    }
  }

  lemma RestatusIdentity(repr: Json -> string, v: Json, code: int)
    ensures ToolCallId(repr, Restatus(v, code)) == ToolCallId(repr, v)
    ensures ToolName(repr, Restatus(v, code)) == ToolName(repr, v)
    ensures Field(Restatus(v, code), "id") == Field(v, "id")
  {
    RestatusKeeps(v, code);
    assert IsOtherKey("id");
    hide Trimmed, CALL_ID_FIELDS, NAME_FIELDS, Restatus;
    FirstPresentKept(Fields(v), Fields(Restatus(v, code)), CALL_ID_FIELDS);
    FirstPresentKept(Fields(v), Fields(Restatus(v, code)), NAME_FIELDS);
  }

  lemma GroupsAreOther(aliases: seq<string>)
    requires aliases in ALIAS_GROUPS
    ensures forall f | f in aliases :: IsOtherKey(f)
  {
    hide REQUEST, RESPONSE, DURATION;
  }

  lemma RestatusValues(call: Json, reasoning: Json, row: Json, a: int, b: int)
    requires ValuesAgree(Fields(call), Fields(reasoning), Fields(row))
    ensures ValuesAgree(Fields(call), Fields(Restatus(reasoning, a)), Fields(Restatus(row, b)))
  {
    RestatusKeeps(reasoning, a);
    RestatusKeeps(row, b);
    hide IsOtherKey, Carries, AliasesMatch, ALIAS_GROUPS, DURATION, Restatus, Fields;
    var c, r, t := Fields(call), Fields(reasoning), Fields(row);
    var r', t' := Fields(Restatus(reasoning, a)), Fields(Restatus(row, b));
    forall aliases | aliases in ALIAS_GROUPS ensures AliasesMatch(c, r', aliases) && AliasesMatch(c, t', aliases) {
      GroupsAreOther(aliases);
      GroupKept(c, r, c, r', aliases);
      GroupKept(c, t, c, t', aliases);
    }
    DurationIsAGroup();
    GroupsAreOther(DURATION);
    GroupKept(t, t, t', t', DURATION);
  }

  lemma OnlyCodesAgree(call: Record, r: Record, t: Record, a: int, b: int, ok: bool)
    requires Normalizable(call) && ReportsOutcome(call, ok) && forall c :: !ReportsCode(call, c)
    requires ReportsOnly(r, a) && ReportsOnly(t, b) && CodeOutcome(a) == CodeOutcome(b) == ok
    ensures StatusesAgree(call, r, t)
  {
    hide ReportsCode, ReportsOutcome, Comparable;
    assert ReportsOutcome(t, ok);
    assert forall x | ReportsOutcome(call, x) :: x == ok;
  }

  lemma RestatusAgrees(repr: Json -> string, call: Json, reasoning: Json, row: Json, a: int, b: int, ok: bool)
    requires Agree(repr, call, reasoning, row)
    requires ReportsOutcome(Fields(call), ok) && CodeOutcome(a) == CodeOutcome(b) == ok
    requires forall c :: !ReportsCode(Fields(call), c)
    ensures Agree(repr, call, Restatus(reasoning, a), Restatus(row, b))
  {
    hide ReportsCode, ReportsOutcome, Normalizable, ValuesAgree, ToolName, Restatus, Fields, CodeOutcome;
    RestatusReports(reasoning, a);
    RestatusReports(row, b);
    OnlyCodesAgree(Fields(call), Fields(Restatus(reasoning, a)), Fields(Restatus(row, b)), a, b, ok);
    hide StatusesAgree;
    RestatusIdentity(repr, reasoning, a);
    RestatusIdentity(repr, row, b);
    RestatusValues(call, reasoning, row, a, b);
  }

  /** One call, with its reasoning record and its timeline row, passes the reconciler. */
  ghost predicate AcceptedTogether(repr: Json -> string, call: Json, reasoning: Json, row: Json) {
    ToolsReconciled(repr, [call], [reasoning], [row])
  }

  lemma AcceptedMeans(repr: Json -> string, call: Json, reasoning: Json, row: Json)
    ensures AcceptedTogether(repr, call, reasoning, row) <==>
      && Identified(repr, call, false) && Identified(repr, reasoning, false) && Identified(repr, row, true)
      && Matched(repr, call, reasoning, row)
      && Agree(repr, call, reasoning, row)
  {
    hide Identified, Agree, ToolCallId;
    var c, r, t := [call], [reasoning], [row];
    forall id, s: seq<Json> | |s| == 1 ensures HasId(repr, s, id) <==> ToolCallId(repr, s[0]) == id {
      if ToolCallId(repr, s[0]) == id { assert HasId(repr, s, id); }
    }
    assert SameIds(repr, c, r) <==> ToolCallId(repr, call) == ToolCallId(repr, reasoning) by {
      assert HasId(repr, c, ToolCallId(repr, call));
    }
    assert SameIds(repr, c, t) <==> ToolCallId(repr, call) == ToolCallId(repr, row) by {
      assert HasId(repr, c, ToolCallId(repr, call));
    }
    assert c[0] in c && r[0] in r && t[0] in t;
  }

  lemma RestatusAccepted(repr: Json -> string, call: Json, reasoning: Json, row: Json, a: int, b: int, ok: bool)
    requires AcceptedTogether(repr, call, reasoning, row)
    requires ReportsOutcome(Fields(call), ok) && CodeOutcome(a) == CodeOutcome(b) == ok
    requires forall c :: !ReportsCode(Fields(call), c)
    ensures AcceptedTogether(repr, call, Restatus(reasoning, a), Restatus(row, b))
  {
    AcceptedMeans(repr, call, reasoning, row);
    AcceptedMeans(repr, call, Restatus(reasoning, a), Restatus(row, b));
    RestatusAgrees(repr, call, reasoning, row, a, b, ok);
    RestatusIdentity(repr, reasoning, a);
    RestatusIdentity(repr, row, b);
    hide AcceptedTogether, Agree, ToolCallId, Field, ReportsCode, ReportsOutcome;
  }

  /** For a call that is accepted at all: no reasoning record and timeline row accepted with it report
      different codes exactly when the call reports a code itself. */
  lemma CodesMatchExactly(repr: Json -> string, call: Json)
    requires exists reasoning, row :: AcceptedTogether(repr, call, reasoning, row)
    ensures (forall reasoning, row | AcceptedTogether(repr, call, reasoning, row) ::
               CodesMatch(Fields(reasoning), Fields(row)))
       <==> exists c :: ReportsCode(Fields(call), c)
  {
    hide AcceptedTogether, Fields, ReportsCode;
    if c :| ReportsCode(Fields(call), c) {
      forall reasoning, row | AcceptedTogether(repr, call, reasoning, row)
        ensures CodesMatch(Fields(reasoning), Fields(row))
      {
        AcceptedStatuses(repr, call, reasoning, row);
        CodesAgreeWithTheCalls(Fields(call), Fields(reasoning), Fields(row), c);
      }
    } else {
      var reasoning, row :| AcceptedTogether(repr, call, reasoning, row);
      var r, t := DifferentCodes(repr, call, reasoning, row);
    }
  }

  lemma AcceptedStatuses(repr: Json -> string, call: Json, reasoning: Json, row: Json)
    requires AcceptedTogether(repr, call, reasoning, row)
    ensures StatusesAgree(Fields(call), Fields(reasoning), Fields(row))
  {
    AcceptedMeans(repr, call, reasoning, row);
  }

  /** Records for a call without a code that are accepted with it although their codes differ. */
  lemma DifferentCodes(repr: Json -> string, call: Json, reasoning: Json, row: Json) returns (r: Json, t: Json)
    requires AcceptedTogether(repr, call, reasoning, row)
    requires forall c :: !ReportsCode(Fields(call), c)
    ensures AcceptedTogether(repr, call, r, t) && !CodesMatch(Fields(r), Fields(t))
  {
    AcceptedStatuses(repr, call, reasoning, row);
    hide AcceptedTogether, Fields, ReportsCode, ReportsOutcome, Restatus;
    var ok :| ReportsOutcome(Fields(call), ok);
    var a, b := if ok then 200 else 500, if ok then 204 else 503;
    r, t := Restatus(reasoning, a), Restatus(row, b);
    RestatusAccepted(repr, call, reasoning, row, a, b, ok);
    RestatusReports(reasoning, a);
    RestatusReports(row, b);
    assert ReportsCode(Fields(r), a) && ReportsCode(Fields(t), b);
  }

  // ---------------------------------------------------------------- a concrete case

  const CALL := map["toolCallId" := Str("t"), "tool" := Str("mail"), "request" := Null, "response" := Null,
                    "durationMs" := Int(5), "success" := Bool(true)]
  const THOUGHT := map["toolCallId" := Str("t"), "tool" := Str("mail"), "status" := Int(200)]
  const ROW := map["toolCallId" := Str("t"), "tool" := Str("mail"), "id" := Str("t"), "durationMs" := Int(5),
                   "status" := Int(204)]

  lemma SampleIdentity(repr: Json -> string, v: Record)
    requires v == CALL || v == THOUGHT || v == ROW
    ensures ToolCallId(repr, Obj(v)) == "t" && ToolName(repr, Obj(v)) == "mail"
  {
    assert CALL_ID_FIELDS[0] == "toolCallId" && NAME_FIELDS[0] == "tool";
    assert FirstPresent(v, CALL_ID_FIELDS) == Str("t");
    assert FirstKnown(v, NAME_FIELDS) == Str("mail");
    assert Strip("t") == "t" && Strip("mail") == "mail";
  }

  lemma SampleStatuses()
    ensures StatusesAgree(CALL, THOUGHT, ROW)
    ensures ReportsCode(THOUGHT, 200) && ReportsCode(ROW, 204)
  {
    assert ReportsOutcome(CALL, true);
    assert ReportsOutcome(ROW, true);
  }

  /** Of the aliases only `f` occurs, in the call and with one value everywhere. */
  ghost predicate OneAlias(aliases: seq<string>, f: string) {
    && f in aliases && f in CALL
    && (forall g <- aliases | g in CALL || g in THOUGHT || g in ROW :: g == f)
    && (f in THOUGHT ==> THOUGHT[f] == CALL[f])
    && (f in ROW ==> ROW[f] == CALL[f])
  }

  lemma SampleRequest()
    ensures OneAlias(REQUEST, "request")
  {
    assert REQUEST[0] == "request";
  }

  lemma SampleResponse()
    ensures OneAlias(RESPONSE, "response")
  {
    assert RESPONSE[0] == "response";
  }

  lemma SampleDuration()
    ensures OneAlias(DURATION, "durationMs") && Carries(ROW, DURATION)
  {
    assert DURATION[0] == "durationMs" && DURATION[0] in ROW;
  }

  lemma SampleGroup(aliases: seq<string>, f: string)
    requires OneAlias(aliases, f)
    ensures Carries(CALL, aliases)
    ensures AliasesMatch(CALL, CALL, aliases) && AliasesMatch(CALL, THOUGHT, aliases)
        && AliasesMatch(CALL, ROW, aliases)
  {
    hide CALL, THOUGHT, ROW, Norm;
  }

  lemma SampleValues()
    ensures ValuesAgree(CALL, THOUGHT, ROW)
  {
    hide CALL, THOUGHT, ROW, REQUEST, RESPONSE, DURATION, OneAlias, Carries, AliasesMatch;
    SampleRequest();
    SampleResponse();
    SampleDuration();
    SampleGroup(REQUEST, "request");
    SampleGroup(RESPONSE, "response");
    SampleGroup(DURATION, "durationMs");
  }

  /** A call that only reports success, accepted with a record of code 200 and a row of code 204. */
  lemma CodesMayDiffer(repr: Json -> string)
    ensures AcceptedTogether(repr, Obj(CALL), Obj(THOUGHT), Obj(ROW))
    ensures !CodesMatch(THOUGHT, ROW)
  {
    SampleStatuses();
    SampleValues();
    assert Field(Obj(ROW), "id") == Str("t");
    hide CALL, THOUGHT, ROW, ReportsCode, StatusesAgree, ValuesAgree, ToolCallId, ToolName, Field;
    SampleIdentity(repr, CALL);
    SampleIdentity(repr, THOUGHT);
    SampleIdentity(repr, ROW);
    AcceptedMeans(repr, Obj(CALL), Obj(THOUGHT), Obj(ROW));
  }
}
