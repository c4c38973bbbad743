/** tools/workflow_visibility_proof.py: a tool call is recorded three times, by the agent's reasoning
    row, in `mcpCalls` and as a timeline row, under many field aliases.  The reconciler accepts a
    workflow only when the three accounts tell the same story. */
module VisibilityTools {
  import opened Values

  type Record = map<string, Json>

  /** `str(v)`; `repr` is Python's text for every value that is not already a string. */
  function Text(repr: Json -> string, v: Json): string {
    if v.Str? then v.s else repr(v)
  }

  /** `str(v or "")`. */
  function TextOrEmpty(repr: Json -> string, v: Json): string {
    if Truthy(v) then Text(repr, v) else ""
  }

  /** The source's `_mapping`: anything but an object reads as an empty one. */
  function Fields(v: Json): Record {
    if v.Obj? then v.fields else map[]
  }

  function Field(v: Json, key: string): Json {
    Get(Fields(v), key)
  }

  // ---------------------------------------------------------------- identity and name

  const CALL_ID_FIELDS := ["toolCallId", "tool_call_id", "callId", "call_id"]
  const NAME_FIELDS := ["tool", "name", "toolName", "tool_name"]

  function FirstPresent(record: Record, fields: seq<string>): Json {
    if fields == [] then Null
    else if fields[0] in record then record[fields[0]]
    else FirstPresent(record, fields[1..])
  }

  function FirstKnown(record: Record, fields: seq<string>): Json {
    if fields == [] then Null
    else if Get(record, fields[0]) != Null then record[fields[0]]
    else FirstKnown(record, fields[1..])
  }

  /** `str(value).strip()`, or "" where the source has `None`: a missing or blank value. */
  function Trimmed(repr: Json -> string, v: Json): string {
    if v == Null then "" else Strip(Text(repr, v))
  }

  /** The persistent id of a tool record; "" means the source finds none. */
  function ToolCallId(repr: Json -> string, v: Json): string {
    Trimmed(repr, FirstPresent(Fields(v), CALL_ID_FIELDS))
  }

  function ToolName(repr: Json -> string, v: Json): string {
    Trimmed(repr, FirstKnown(Fields(v), NAME_FIELDS))
  }

  predicate Identified(repr: Json -> string, v: Json, timelineRows: bool) {
    && v.Obj?
    && ToolCallId(repr, v) != ""
    && (timelineRows ==> TextOrEmpty(repr, Field(v, "id")) == ToolCallId(repr, v))
  }

  /** Every record is an object with a persistent id, and no id is used twice. */
  predicate Indexable(repr: Json -> string, records: seq<Json>, timelineRows: bool) {
    && (forall i | 0 <= i < |records| :: Identified(repr, records[i], timelineRows))
    && (forall i, j | 0 <= i < j < |records| :: ToolCallId(repr, records[i]) != ToolCallId(repr, records[j]))
  }

  ghost predicate Indexes(repr: Json -> string, records: seq<Json>, index: map<string, (nat, Record)>) {
    && (forall i | 0 <= i < |records| ::
          ToolCallId(repr, records[i]) in index
          && index[ToolCallId(repr, records[i])] == (i, Fields(records[i])))
    && (forall id | id in index ::
          index[id].0 < |records| && ToolCallId(repr, records[index[id].0]) == id)
  }

  /** `_tool_records_by_id`: `None` stands for the error it raises. */
  method ToolRecordsById(repr: Json -> string, records: seq<Json>, timelineRows: bool)
    returns (index: Option<map<string, (nat, Record)>>)
    ensures index.Some? <==> Indexable(repr, records, timelineRows)
    ensures index.Some? ==> Indexes(repr, records, index.value)
  {
    hide ToolCallId, TextOrEmpty, Field;
    var indexed: map<string, (nat, Record)> := map[];
    for i := 0 to |records|
      invariant Indexable(repr, records[..i], timelineRows)
      invariant Indexes(repr, records[..i], indexed)
    {
      var identifier := ToolCallId(repr, records[i]);
      assert records[..i + 1][i] == records[i];
      if !records[i].Obj? || identifier == "" {
        return None;
      }
      if timelineRows && TextOrEmpty(repr, Field(records[i], "id")) != identifier {
        return None;
      }
      if identifier in indexed {
        ghost var j := indexed[identifier].0;
        assert ToolCallId(repr, records[j]) == ToolCallId(repr, records[i]);
        return None;
      }
      indexed := indexed[identifier := (i, records[i].fields)];
    }
    assert records[..|records|] == records;
    index := Some(indexed);
  }

  // ---------------------------------------------------------------- status

  const CODE_FIELDS := ["statusCode", "status_code"]
  const SUCCESS_STATUSES := {"ok", "success", "succeeded", "completed"}
  const FAILURE_STATUSES := {"error", "failed", "failure", "rejected"}

  function CodeOutcome(code: int): bool { 200 <= code < 400 }

  /** What a `status` value says about success, if it can be compared at all. */
  function StatusOutcome(v: Json): Option<bool> {
    match v
    case Int(code) => Some(CodeOutcome(code))
    case Bool(b) => Some(b)
    case Str(s) =>
      var word := Lower(Strip(s));
      if word in SUCCESS_STATUSES then Some(true)
      else if word in FAILURE_STATUSES then Some(false)
      else None
    case _ => None
  }

  predicate CodeComparable(record: Record, field: string) {
    field in record ==> record[field].Int?
  }

  lemma NullStatus()
    ensures StatusOutcome(Null) == None
  {}

  /** Every status field that is present has a type the source can compare. */
  predicate Comparable(record: Record) {
    && CodeComparable(record, CODE_FIELDS[0])
    && CodeComparable(record, CODE_FIELDS[1])
    && ("success" in record ==> record["success"].Bool?)
    && ("status" in record ==> StatusOutcome(record["status"]).Some?)
  }

  /** Some field of the record gives this status code. */
  predicate ReportsCode(record: Record, code: int) {
    || Get(record, CODE_FIELDS[0]) == Int(code)
    || Get(record, CODE_FIELDS[1]) == Int(code)
    || Get(record, "status") == Int(code)
  }

  predicate CodeSays(v: Json, ok: bool) {
    v.Int? && CodeOutcome(v.n) == ok
  }

  /** Some field of the record says that the call succeeded, or that it failed. */
  predicate ReportsOutcome(record: Record, ok: bool) {
    || CodeSays(Get(record, CODE_FIELDS[0]), ok)
    || CodeSays(Get(record, CODE_FIELDS[1]), ok)
    || Get(record, "success") == Bool(ok)
    || StatusOutcome(Get(record, "status")) == Some(ok)
  }

  ghost predicate Consistent(record: Record) {
    && (forall c, d | ReportsCode(record, c) && ReportsCode(record, d) :: c == d)
    && !(ReportsOutcome(record, true) && ReportsOutcome(record, false))
  }

  /** A normalized status: the one code and the one outcome reported, where there are any. */
  ghost predicate StatusMeans(record: Record, code: Option<int>, outcome: Option<bool>) {
    && (forall c :: ReportsCode(record, c) <==> code == Some(c))
    && (forall ok :: ReportsOutcome(record, ok) <==> outcome == Some(ok))
  }

  lemma AtMostOne<T>(values: seq<T>)
    ensures |set v | v in values| <= 1 <==> forall v, w | v in values && w in values :: v == w
  {
    var s := set v | v in values;
    assert forall v :: v in s <==> v in values;
    if values != [] {
      var v := values[0];
      assert v in s && |s - {v}| == |s| - 1;
      if |s| <= 1 {
        assert s - {v} == {};
        assert forall w :: w in s ==> w == v;
      }
      if forall w | w in values :: w == v {
        assert s == {v};
      }
    }
  }

  /** The codes the first `n` code fields hold, in order. */
  function CodesRead(record: Record, n: nat): (codes: seq<int>)
    requires n <= |CODE_FIELDS|
    requires forall i | 0 <= i < n :: CodeComparable(record, CODE_FIELDS[i])
  {
    if n == 0 then [] else
      assert CodeComparable(record, CODE_FIELDS[n - 1]);
      var code := Get(record, CODE_FIELDS[n - 1]);
      CodesRead(record, n - 1) + (if CODE_FIELDS[n - 1] in record then [code.n] else [])
  }

  function OutcomesOf(codes: seq<int>): seq<bool> {
    seq(|codes|, i requires 0 <= i < |codes| => CodeOutcome(codes[i]))
  }

  /** The first loop of `_normalized_tool_status`. */
  method ReadCodes(record: Record) returns (r: Option<(seq<int>, seq<bool>)>)
    ensures r.Some? <==> CodeComparable(record, CODE_FIELDS[0]) && CodeComparable(record, CODE_FIELDS[1])
    ensures r.Some? ==> r.value.0 == CodesRead(record, 2) && r.value.1 == OutcomesOf(r.value.0)
  {
    var codes: seq<int>, outcomes: seq<bool> := [], [];
    for i := 0 to |CODE_FIELDS|
      invariant forall j | 0 <= j < i :: CodeComparable(record, CODE_FIELDS[j])
      invariant codes == CodesRead(record, i)
      invariant outcomes == OutcomesOf(codes)
    {
      var field := CODE_FIELDS[i];
      if field in record {
        if !record[field].Int? {
          return None;
        }
        codes := codes + [record[field].n];
        outcomes := outcomes + [CodeOutcome(record[field].n)];
      }
    }
    r := Some((codes, outcomes));
  }

  lemma CodesReadMeaning(record: Record)
    requires CodeComparable(record, CODE_FIELDS[0]) && CodeComparable(record, CODE_FIELDS[1])
    ensures forall c :: c in CodesRead(record, 2) <==>
              Get(record, CODE_FIELDS[0]) == Int(c) || Get(record, CODE_FIELDS[1]) == Int(c)
    ensures forall ok :: ok in OutcomesOf(CodesRead(record, 2)) <==>
              CodeSays(Get(record, CODE_FIELDS[0]), ok) || CodeSays(Get(record, CODE_FIELDS[1]), ok)
  {
    var first := CodesRead(record, 1);
    var codes := CodesRead(record, 2);
    assert CodesRead(record, 0) == [];
    assert forall c :: c in first <==> Get(record, CODE_FIELDS[0]) == Int(c);
    assert forall c :: c in codes <==> c in first || Get(record, CODE_FIELDS[1]) == Int(c);
    forall ok ensures ok in OutcomesOf(codes) <==> exists c :: c in codes && CodeOutcome(c) == ok {
      if c :| c in codes && CodeOutcome(c) == ok {
        var i :| 0 <= i < |codes| && codes[i] == c;
        assert OutcomesOf(codes)[i] == ok;
      }
    }
  }

  function First<T>(values: seq<T>): Option<T> {
    if values == [] then None else Some(values[0])
  }

  lemma Summary(record: Record, codes: seq<int>, outcomes: seq<bool>)
    requires forall c :: c in codes <==> ReportsCode(record, c)
    requires forall ok :: ok in outcomes <==> ReportsOutcome(record, ok)
    ensures |set c | c in codes| <= 1 && |set ok | ok in outcomes| <= 1 <==> Consistent(record)
    ensures Consistent(record) ==> StatusMeans(record, First(codes), First(outcomes))
  {
    hide ReportsCode, ReportsOutcome;
    AtMostOne(codes);
    AtMostOne(outcomes);
    if Consistent(record) {
      assert forall ok | ok in outcomes :: ok == outcomes[0];
      forall c | c in codes ensures c == codes[0] {
        assert ReportsCode(record, c) && codes[0] in codes;
      }
    } else if forall v, w | v in outcomes && w in outcomes :: v == w {
      assert !(true in outcomes && false in outcomes);
    }
  }

  /** `_normalized_tool_status`: `None` stands for the error it raises. */
  method NormalizedToolStatus(record: Record) returns (r: Option<(Option<int>, Option<bool>)>)
    ensures r.Some? <==> Comparable(record) && Consistent(record)
    ensures r.Some? ==> StatusMeans(record, r.value.0, r.value.1)
  {
    hide StatusOutcome, CodesRead;
    NullStatus();
    var read := ReadCodes(record);
    if read.None? {
      return None;
    }
    var (codes, outcomes) := read.value;
    if "success" in record {
      if !record["success"].Bool? {
        return None;
      }
      outcomes := outcomes + [record["success"].b];
    }
    if "status" in record {
      var reported := StatusOutcome(record["status"]);
      if reported.None? {
        return None;
      }
      if record["status"].Int? {
        codes := codes + [record["status"].n];
      }
      outcomes := outcomes + [reported.value];
    }
    CodesReadMeaning(record);
    assert forall c :: c in codes <==> ReportsCode(record, c);
    assert forall ok :: ok in outcomes <==> ReportsOutcome(record, ok);
    Summary(record, codes, outcomes);
    if |set c | c in codes| > 1 || |set ok | ok in outcomes| > 1 {
      return None;
    }
    r := Some((First(codes), First(outcomes)));
  }
}
