/** tools/workflow_visibility_proof.py: the three-way reconciliation of `_validate_tools`, and what
    its acceptance means. */
module VisibilityReconcile {
  import opened Values
  import opened VisibilityTools

  // ---------------------------------------------------------------- agreement of three records

  const REQUEST := ["request", "args", "arguments"]
  const RESPONSE := ["response", "result"]
  const DURATION := ["durationMs", "duration_ms", "latencyMs", "latency_ms"]
  const ALIAS_GROUPS := [REQUEST, RESPONSE, DURATION]

  predicate Carries(record: Record, aliases: seq<string>) {
    exists f <- aliases :: f in record
  }

  /** Whatever aliases the two records use for one value, they hold the same value. */
  ghost predicate AliasesMatch(a: Record, b: Record, aliases: seq<string>) {
    forall f, g | f in aliases && g in aliases && f in a && g in b :: PyEq(a[f], b[g])
  }

  ghost predicate OutcomesMatch(a: Record, b: Record) {
    forall x, y | ReportsOutcome(a, x) && ReportsOutcome(b, y) :: x == y
  }

  ghost predicate CodesMatch(a: Record, b: Record) {
    forall x, y | ReportsCode(a, x) && ReportsCode(b, y) :: x == y
  }

  ghost predicate Normalizable(record: Record) {
    Comparable(record) && Consistent(record)
  }

  ghost predicate ValuesAgree(call: Record, reasoning: Record, row: Record) {
    && (forall aliases <- ALIAS_GROUPS ::
          && Carries(call, aliases)
          && AliasesMatch(call, call, aliases)
          && AliasesMatch(call, reasoning, aliases)
          && AliasesMatch(call, row, aliases))
    && Carries(row, DURATION)
  }

  ghost predicate StatusesAgree(call: Record, reasoning: Record, row: Record) {
    && Normalizable(call) && Normalizable(reasoning) && Normalizable(row)
    && (exists ok :: ReportsOutcome(call, ok))
    && (exists ok :: ReportsOutcome(row, ok))
    && OutcomesMatch(call, reasoning) && OutcomesMatch(call, row)
    && CodesMatch(call, reasoning) && CodesMatch(call, row)
  }

  predicate NamesAgree(repr: Json -> string, call: Json, reasoning: Json, row: Json) {
    && ToolName(repr, call) != ""
    && ToolName(repr, reasoning) == ToolName(repr, call)
    && ToolName(repr, row) == ToolName(repr, call)
  }

  ghost predicate Agree(repr: Json -> string, call: Json, reasoning: Json, row: Json) {
    && ValuesAgree(Fields(call), Fields(reasoning), Fields(row))
    && StatusesAgree(Fields(call), Fields(reasoning), Fields(row))
    && NamesAgree(repr, call, reasoning, row)
  }

  /** `_tool_values`, without the field names its messages use. */
  function ToolValues(record: Record, aliases: seq<string>): seq<Json> {
    if aliases == [] then []
    else (if aliases[0] in record then [record[aliases[0]]] else []) + ToolValues(record, aliases[1..])
  }

  lemma {:induction false} ToolValuesMeaning(record: Record, aliases: seq<string>)
    ensures forall v :: v in ToolValues(record, aliases) <==> exists f :: f in aliases && f in record && record[f] == v
    ensures ToolValues(record, aliases) != [] <==> Carries(record, aliases)
  {
    if aliases == [] {
    } else {
      ToolValuesMeaning(record, aliases[1..]);
      assert aliases == [aliases[0]] + aliases[1..];
    }
  }

  predicate AllEqual(values: seq<Json>, canonical: Json) {
    forall v <- values :: PyEq(v, canonical)
  }

  /** Comparing every alias with the call's first one is comparing every pair of aliases. */
  lemma CanonicalSuffices(call: Record, other: Record, aliases: seq<string>)
    requires Carries(call, aliases)
    ensures ToolValues(call, aliases) != []
    ensures AllEqual(ToolValues(call, aliases)[1..], ToolValues(call, aliases)[0])
       <==> AliasesMatch(call, call, aliases)
    ensures AliasesMatch(call, call, aliases) ==>
              (AllEqual(ToolValues(other, aliases), ToolValues(call, aliases)[0])
               <==> AliasesMatch(call, other, aliases))
  {
    hide Norm;
    ToolValuesMeaning(call, aliases);
    ToolValuesMeaning(other, aliases);
    var mine, theirs := ToolValues(call, aliases), ToolValues(other, aliases);
    assert mine == [mine[0]] + mine[1..];
    assert mine[0] in mine;
    var first :| first in aliases && first in call && call[first] == mine[0];
    if AllEqual(mine[1..], mine[0]) {
      forall f, g | f in aliases && g in aliases && f in call && g in call ensures PyEq(call[f], call[g]) {
        assert call[f] in mine && call[g] in mine;
      }
    }
    if AliasesMatch(call, call, aliases) {
      forall v | v in mine ensures PyEq(v, mine[0]) {
        var f :| f in aliases && f in call && call[f] == v;
        assert PyEq(call[f], call[first]);
      }
      assert forall v | v in mine[1..] :: v in mine;
      if AllEqual(theirs, mine[0]) {
        forall f, g | f in aliases && g in aliases && f in call && g in other ensures PyEq(call[f], other[g]) {
          assert call[f] in mine && other[g] in theirs;
        }
      }
      if AliasesMatch(call, other, aliases) {
        forall v | v in theirs ensures PyEq(v, mine[0]) {
          var g :| g in aliases && g in other && other[g] == v;
          assert PyEq(call[first], other[g]);
        }
      }
    }
  }

  /** The first half of the per-call body of `_validate_tools`: requests, responses and durations. */
  method CheckValues(call: Record, reasoning: Record, row: Record) returns (ok: bool)
    ensures ok <==> ValuesAgree(call, reasoning, row)
  {
    hide ToolValues, PyEq, ALIAS_GROUPS, DURATION;
    var canonical: seq<Json> := [];
    for g := 0 to |ALIAS_GROUPS|
      invariant |canonical| == g
      invariant forall h | 0 <= h < g ::
          && Carries(call, ALIAS_GROUPS[h]) && AliasesMatch(call, call, ALIAS_GROUPS[h])
          && ToolValues(call, ALIAS_GROUPS[h]) != []
          && canonical[h] == ToolValues(call, ALIAS_GROUPS[h])[0]
    {
      var aliases := ALIAS_GROUPS[g];
      var values := ToolValues(call, aliases);
      ToolValuesMeaning(call, aliases);
      if values == [] {
        return false;
      }
      CanonicalSuffices(call, call, aliases);
      if !AllEqual(values[1..], values[0]) {
        return false;
      }
      canonical := canonical + [values[0]];
    }
    for g := 0 to |ALIAS_GROUPS|
      invariant forall h | 0 <= h < g :: AliasesMatch(call, reasoning, ALIAS_GROUPS[h])
    {
      CanonicalSuffices(call, reasoning, ALIAS_GROUPS[g]);
      if !AllEqual(ToolValues(reasoning, ALIAS_GROUPS[g]), canonical[g]) {
        return false;
      }
    }
    for g := 0 to |ALIAS_GROUPS|
      invariant forall h | 0 <= h < g :: AliasesMatch(call, row, ALIAS_GROUPS[h])
      invariant forall h | 0 <= h < g && ALIAS_GROUPS[h] == DURATION :: Carries(row, DURATION)
    {
      var values := ToolValues(row, ALIAS_GROUPS[g]);
      ToolValuesMeaning(row, ALIAS_GROUPS[g]);
      if ALIAS_GROUPS[g] == DURATION && values == [] {
        return false;
      }
      CanonicalSuffices(call, row, ALIAS_GROUPS[g]);
      if !AllEqual(values, canonical[g]) {
        return false;
      }
    }
    DurationIsAGroup();
    return true;
  }

  lemma DurationIsAGroup()
    ensures DURATION in ALIAS_GROUPS
  {
    assert ALIAS_GROUPS[2] == DURATION;
  }

  /** The second half: statuses. */
  method CheckStatuses(call: Record, reasoning: Record, row: Record) returns (ok: bool)
    ensures ok <==> StatusesAgree(call, reasoning, row)
  {
    hide ReportsCode, ReportsOutcome, Comparable, Consistent;
    var mine := NormalizedToolStatus(call);
    if mine.None? || mine.value.1.None? {
      return false;
    }
    assert ReportsOutcome(call, mine.value.1.value);
    var thought := NormalizedToolStatus(reasoning);
    if thought.None? {
      return false;
    }
    ClashExactly(call, reasoning, mine.value, thought.value);
    if Clash(mine.value, thought.value) {
      return false;
    }
    var shown := NormalizedToolStatus(row);
    if shown.None? || shown.value.1.None? {
      return false;
    }
    ClashExactly(call, row, mine.value, shown.value);
    if Clash(mine.value, shown.value) {
      return false;
    }
    assert ReportsOutcome(row, shown.value.1.value);
    return true;
  }

  predicate Clash(mine: (Option<int>, Option<bool>), theirs: (Option<int>, Option<bool>)) {
    || (theirs.0.Some? && mine.0.Some? && theirs.0 != mine.0)
    || (theirs.1.Some? && theirs.1 != mine.1)
  }

  lemma ClashExactly(call: Record, other: Record, mine: (Option<int>, Option<bool>),
                     theirs: (Option<int>, Option<bool>))
    requires StatusMeans(call, mine.0, mine.1) && mine.1.Some?
    requires StatusMeans(other, theirs.0, theirs.1)
    ensures Clash(mine, theirs) <==> !(OutcomesMatch(call, other) && CodesMatch(call, other))
  {
    hide ReportsCode, ReportsOutcome;
    assert ReportsOutcome(call, mine.1.value);
    if theirs.1.Some? { assert ReportsOutcome(other, theirs.1.value); }
    if mine.0.Some? { assert ReportsCode(call, mine.0.value); }
    if theirs.0.Some? { assert ReportsCode(other, theirs.0.value); }
  }

  method CheckCall(repr: Json -> string, call: Json, reasoning: Json, row: Json) returns (ok: bool)
    ensures ok <==> Agree(repr, call, reasoning, row)
  {
    hide ValuesAgree, StatusesAgree, ToolName;
    ok := CheckValues(Fields(call), Fields(reasoning), Fields(row));
    if ok {
      ok := CheckStatuses(Fields(call), Fields(reasoning), Fields(row));
    }
    ok := ok && NamesAgree(repr, call, reasoning, row);
  }

  // ---------------------------------------------------------------- the three collections

  /** The rows whose `key` is one of the given strings. */
  function Having(rows: seq<Json>, key: string, values: set<string>): seq<Json> {
    if rows == [] then []
    else
      var v := Field(rows[0], key);
      (if v.Str? && v.s in values then [rows[0]] else []) + Having(rows[1..], key, values)
  }

  /** `reasoning_tool_calls`: the tool calls of the reasoning rows, in order. */
  function ReasoningCalls(reasoningRows: seq<Json>): seq<Json> {
    if reasoningRows == [] then []
    else
      var calls := Field(reasoningRows[0], "toolCalls");
      (if calls.List? then calls.items else []) + ReasoningCalls(reasoningRows[1..])
  }

  predicate IsSpan(repr: Json -> string, row: Json) {
    "span:" <= TextOrEmpty(repr, Field(row, "id"))
  }

  function WithoutSpans(repr: Json -> string, rows: seq<Json>): seq<Json> {
    if rows == [] then []
    else (if IsSpan(repr, rows[0]) then [] else [rows[0]]) + WithoutSpans(repr, rows[1..])
  }

  /** `canonical_tool_rows`. */
  function ToolRows(repr: Json -> string, timeline: seq<Json>): seq<Json> {
    WithoutSpans(repr, Having(timeline, "kind", {"tool"}))
  }

  ghost predicate HasId(repr: Json -> string, records: seq<Json>, id: string) {
    exists i :: 0 <= i < |records| && ToolCallId(repr, records[i]) == id
  }

  ghost predicate SameIds(repr: Json -> string, a: seq<Json>, b: seq<Json>) {
    forall id :: HasId(repr, a, id) <==> HasId(repr, b, id)
  }

  ghost predicate Matched(repr: Json -> string, call: Json, reasoning: Json, row: Json) {
    ToolCallId(repr, call) == ToolCallId(repr, reasoning) == ToolCallId(repr, row)
  }

  /** What `_validate_tools` accepts. */
  ghost predicate ToolsReconciled(repr: Json -> string, calls: seq<Json>, reasoning: seq<Json>, rows: seq<Json>) {
    && Indexable(repr, reasoning, false)
    && Indexable(repr, calls, false)
    && Indexable(repr, rows, true)
    && SameIds(repr, calls, reasoning)
    && SameIds(repr, calls, rows)
    && (forall c, r, t | c in calls && r in reasoning && t in rows && Matched(repr, c, r, t) :: Agree(repr, c, r, t))
  }

  lemma IndexKeys(repr: Json -> string, records: seq<Json>, index: map<string, (nat, Record)>)
    requires Indexes(repr, records, index)
    ensures forall id :: id in index <==> HasId(repr, records, id)
  {
    hide ToolCallId;
    forall id ensures id in index <==> HasId(repr, records, id) {
      if id in index { assert ToolCallId(repr, records[index[id].0]) == id; }
    }
  }

  /** In an indexed collection an id names one record. */
  lemma OneRecordPerId(repr: Json -> string, records: seq<Json>, index: map<string, (nat, Record)>, r: Json)
    requires Indexes(repr, records, index)
    requires r in records
    ensures ToolCallId(repr, r) in index && records[index[ToolCallId(repr, r)].0] == r
  {
    hide ToolCallId;
    var i :| 0 <= i < |records| && records[i] == r;
  }

  /** `_validate_tools`: `None` stands for the error it raises. */
  method ValidateTools(repr: Json -> string, mcpCalls: Json, timeline: seq<Json>, reasoningRows: seq<Json>)
    returns (r: Option<seq<Json>>)
    ensures r.Some? <==>
              mcpCalls.List?
              && ToolsReconciled(repr, mcpCalls.items, ReasoningCalls(reasoningRows), ToolRows(repr, timeline))
    ensures r.Some? ==> r.value == mcpCalls.items
  {
    hide ToolCallId, Identified, Indexable, Agree, SameIds, Indexes;
    if !mcpCalls.List? {
      return None;
    }
    var calls := mcpCalls.items;
    var reasoning: seq<Json> := [];
    for i := 0 to |reasoningRows|
      invariant reasoning + ReasoningCalls(reasoningRows[i..]) == ReasoningCalls(reasoningRows)
    {
      var listed := Field(reasoningRows[i], "toolCalls");
      assert reasoningRows[i..][1..] == reasoningRows[i + 1..];
      reasoning := reasoning + (if listed.List? then listed.items else []);
    }
    assert reasoning == ReasoningCalls(reasoningRows) by {
      assert reasoningRows[|reasoningRows|..] == [];
      assert reasoning + [] == reasoning;
    }
    var rows := ToolRows(repr, timeline);
    var reasoningById := ToolRecordsById(repr, reasoning, false);
    var callsById := ToolRecordsById(repr, calls, false);
    var rowsById := ToolRecordsById(repr, rows, true);
    if reasoningById.None? || callsById.None? || rowsById.None? {
      return None;
    }
    IndexKeys(repr, reasoning, reasoningById.value);
    IndexKeys(repr, calls, callsById.value);
    IndexKeys(repr, rows, rowsById.value);
    SameKeys(repr, calls, reasoning, callsById.value, reasoningById.value);
    SameKeys(repr, calls, rows, callsById.value, rowsById.value);
    if callsById.value.Keys != reasoningById.value.Keys || callsById.value.Keys != rowsById.value.Keys {
      return None;
    }
    var ok := CheckCalls(repr, calls, reasoning, rows, callsById.value, reasoningById.value, rowsById.value);
    r := if ok then Some(calls) else None;
  }

  lemma SameKeys(repr: Json -> string, a: seq<Json>, b: seq<Json>,
                 aById: map<string, (nat, Record)>, bById: map<string, (nat, Record)>)
    requires forall id :: id in aById <==> HasId(repr, a, id)
    requires forall id :: id in bById <==> HasId(repr, b, id)
    ensures aById.Keys == bById.Keys <==> SameIds(repr, a, b)
  {
    hide HasId;
    if SameIds(repr, a, b) {
      assert forall id :: id in aById.Keys <==> id in bById.Keys;
    } else {
      var id :| HasId(repr, a, id) != HasId(repr, b, id);
      assert (id in aById.Keys) != (id in bById.Keys);
    }
  }

  /** The loop over the ids.  Their order only decides which mismatch is reported first. */
  method CheckCalls(repr: Json -> string, calls: seq<Json>, reasoning: seq<Json>, rows: seq<Json>,
                    callsById: map<string, (nat, Record)>, reasoningById: map<string, (nat, Record)>,
                    rowsById: map<string, (nat, Record)>)
    returns (ok: bool)
    requires Indexes(repr, calls, callsById) && Indexes(repr, reasoning, reasoningById) && Indexes(repr, rows, rowsById)
    requires callsById.Keys == reasoningById.Keys == rowsById.Keys
    ensures ok <==> forall c, r, t | c in calls && r in reasoning && t in rows && Matched(repr, c, r, t) ::
              Agree(repr, c, r, t)
  {
    hide ToolCallId, Agree;
    var pending := callsById.Keys;
    while pending != {}
      invariant pending <= callsById.Keys
      invariant forall c, r, t | c in calls && r in reasoning && t in rows && Matched(repr, c, r, t)
                  && ToolCallId(repr, c) !in pending :: Agree(repr, c, r, t)
    {
      var id :| id in pending;
      var call, thought, row := calls[callsById[id].0], reasoning[reasoningById[id].0], rows[rowsById[id].0];
      assert Matched(repr, call, thought, row);
      var agree := CheckCall(repr, call, thought, row);
      if !agree {
        return false;
      }
      forall c, r, t | c in calls && r in reasoning && t in rows && Matched(repr, c, r, t)
                       && ToolCallId(repr, c) !in pending - {id}
        ensures Agree(repr, c, r, t)
      {
        if ToolCallId(repr, c) == id {
          OneRecordPerId(repr, calls, callsById, c);
          OneRecordPerId(repr, reasoning, reasoningById, r);
          OneRecordPerId(repr, rows, rowsById, t);
        }
      }
      pending := pending - {id};
    }
    forall c | c in calls ensures ToolCallId(repr, c) !in pending {}
    return true;
  }

  // ---------------------------------------------------------------- what acceptance means

  ghost function Ids(repr: Json -> string, records: seq<Json>): seq<string> {
    seq(|records|, i requires 0 <= i < |records| => ToolCallId(repr, records[i]))
  }

  lemma {:induction false} DistinctCounts(a: seq<string>, x: string)
    requires forall i, j | 0 <= i < j < |a| :: a[i] != a[j]
    ensures multiset(a)[x] == if x in a then 1 else 0
  {
    if a == [] {
    } else {
      assert a == [a[0]] + a[1..];
      DistinctCounts(a[1..], x);
    }
  }

  lemma IdMembers(repr: Json -> string, records: seq<Json>)
    ensures forall id :: id in Ids(repr, records) <==> HasId(repr, records, id)
  {
    hide ToolCallId;
    var ids := Ids(repr, records);
    forall id ensures id in ids <==> HasId(repr, records, id) {
      if i :| 0 <= i < |records| && ToolCallId(repr, records[i]) == id { assert ids[i] == id; }
    }
  }

  lemma IdsSameBag(repr: Json -> string, a: seq<Json>, b: seq<Json>)
    requires forall i, j | 0 <= i < j < |a| :: ToolCallId(repr, a[i]) != ToolCallId(repr, a[j])
    requires forall i, j | 0 <= i < j < |b| :: ToolCallId(repr, b[i]) != ToolCallId(repr, b[j])
    requires SameIds(repr, a, b)
    ensures multiset(Ids(repr, a)) == multiset(Ids(repr, b))
    ensures |a| == |b|
  {
    hide ToolCallId;
    var x, y := Ids(repr, a), Ids(repr, b);
    IdMembers(repr, a);
    IdMembers(repr, b);
    forall id ensures multiset(x)[id] == multiset(y)[id] {
      DistinctCounts(x, id);
      DistinctCounts(y, id);
    }
    assert |multiset(x)| == |x| && |multiset(y)| == |y|;
  }

  /** Accepting the tools of a workflow means that the three collections are in bijection by their
      non-empty ids... */
  lemma AcceptedToolsAreInBijection(repr: Json -> string, calls: seq<Json>, reasoning: seq<Json>, rows: seq<Json>)
    requires ToolsReconciled(repr, calls, reasoning, rows)
    ensures |calls| == |reasoning| == |rows|
    ensures multiset(Ids(repr, calls)) == multiset(Ids(repr, reasoning)) == multiset(Ids(repr, rows))
    ensures forall i | 0 <= i < |calls| :: ToolCallId(repr, calls[i]) != ""
  {
    hide ToolCallId, Agree;
    IdsSameBag(repr, calls, reasoning);
    IdsSameBag(repr, calls, rows);
  }

  /** ...and that the partners of each call agree with it on every value, outcome and name. */
  lemma AcceptedCallHasPartners(repr: Json -> string, calls: seq<Json>, reasoning: seq<Json>, rows: seq<Json>, i: nat)
    returns (j: nat, k: nat)
    requires ToolsReconciled(repr, calls, reasoning, rows)
    requires i < |calls|
    ensures j < |reasoning| && k < |rows|
    ensures forall x | 0 <= x < |reasoning| :: ToolCallId(repr, reasoning[x]) == ToolCallId(repr, calls[i]) <==> x == j
    ensures forall x | 0 <= x < |rows| :: ToolCallId(repr, rows[x]) == ToolCallId(repr, calls[i]) <==> x == k
    ensures Agree(repr, calls[i], reasoning[j], rows[k])
  {
    hide ToolCallId, Agree;
    var id := ToolCallId(repr, calls[i]);
    assert HasId(repr, calls, id);
    assert HasId(repr, reasoning, id) && HasId(repr, rows, id);
    j :| 0 <= j < |reasoning| && ToolCallId(repr, reasoning[j]) == id;
    k :| 0 <= k < |rows| && ToolCallId(repr, rows[k]) == id;
    assert Matched(repr, calls[i], reasoning[j], rows[k]);
  }

  /** All the outcomes the three records report are one outcome, and a code that any of them reports
      does not contradict it. */
  lemma AgreementIsOneOutcome(repr: Json -> string, call: Json, reasoning: Json, row: Json) returns (ok: bool)
    requires Agree(repr, call, reasoning, row)
    ensures forall r <- [call, reasoning, row], x | ReportsOutcome(Fields(r), x) :: x == ok
    ensures forall r <- [call, reasoning, row], c | ReportsCode(Fields(r), c) :: CodeOutcome(c) == ok
    ensures ReportsOutcome(Fields(call), ok) && ReportsOutcome(Fields(row), ok)
  {
    hide Fields, Comparable, ValuesAgree, NamesAgree, Lower, Strip;
    ok :| ReportsOutcome(Fields(call), ok);
    forall r, c | r in [call, reasoning, row] && ReportsCode(Fields(r), c)
      ensures ReportsOutcome(Fields(r), CodeOutcome(c))
    {}
  }

  /** Any two aliases of one value, in any two of the three records, hold the same value. */
  lemma AgreementIsOneValue(repr: Json -> string, call: Json, reasoning: Json, row: Json, aliases: seq<string>)
    requires Agree(repr, call, reasoning, row)
    requires aliases in ALIAS_GROUPS
    ensures forall a <- [call, reasoning, row], b <- [call, reasoning, row] ::
        AliasesMatch(Fields(a), Fields(b), aliases)
  {
    hide Fields, Norm, StatusesAgree, NamesAgree, ALIAS_GROUPS, DURATION;
    var c := Fields(call);
    var h :| h in aliases && h in c;
    forall a, b | a in [call, reasoning, row] && b in [call, reasoning, row]
      ensures AliasesMatch(Fields(a), Fields(b), aliases)
    {
      assert AliasesMatch(c, Fields(a), aliases) && AliasesMatch(c, Fields(b), aliases);
      forall f, g | f in aliases && g in aliases && f in Fields(a) && g in Fields(b)
        ensures PyEq(Fields(a)[f], Fields(b)[g])
      {
        assert PyEq(c[h], Fields(a)[f]) && PyEq(c[h], Fields(b)[g]);
      }
    }
  }

  lemma CodesAgreeWithTheCalls(call: Record, reasoning: Record, row: Record, code: int)
    requires StatusesAgree(call, reasoning, row)
    requires ReportsCode(call, code)
    ensures forall r <- [call, reasoning, row], c | ReportsCode(r, c) :: c == code
  {
    hide ReportsCode, ReportsOutcome, Comparable;
  }
}
