/** tools/workflow_visibility_proof.py: `verify_details` over one snapshot and `verify_live_and_replay`
    over two. */
module VisibilityParity {
  import opened Values
  import opened VisibilityTools
  import opened VisibilityReconcile
  import opened VisibilityEvidence
  import opened VisibilityVolatile

  type Contracts = map<string, Contract>

  function TypeOf(detail: Json): Json {
    Field(Field(detail, "workflow"), "type")
  }

  /** `str(workflow.get("id") or "")`. */
  function IdOf(repr: Json -> string, detail: Json): string {
    TextOrEmpty(repr, Field(Field(detail, "workflow"), "id"))
  }

  /** The details the loop does not skip: those whose type has a contract. */
  predicate Inspected(contracts: Contracts, detail: Json) {
    TypeOf(detail).Str? && TypeOf(detail).s in contracts
  }

  /** The detail raises nothing on its own. */
  ghost predicate DetailOk(repr: Json -> string, contracts: Contracts, detail: Json) {
    && detail.Obj?
    && Field(detail, "workflow").Obj?
    && Hashable(TypeOf(detail))
    && (Inspected(contracts, detail) ==>
          IdOf(repr, detail) != "" && Accepted(repr, contracts[TypeOf(detail).s], detail))
  }

  ghost predicate Clash(repr: Json -> string, contracts: Contracts, a: Json, b: Json) {
    Inspected(contracts, a) && Inspected(contracts, b) && IdOf(repr, a) == IdOf(repr, b)
  }

  ghost predicate NoClash(repr: Json -> string, contracts: Contracts, details: seq<Json>) {
    forall i, j | 0 <= i < j < |details| :: !Clash(repr, contracts, details[i], details[j])
  }

  ghost predicate Seen(contracts: Contracts, details: seq<Json>, kind: string) {
    exists i :: 0 <= i < |details| && Inspected(contracts, details[i]) && TypeOf(details[i]).s == kind
  }

  ghost predicate Clean(repr: Json -> string, contracts: Contracts, details: seq<Json>) {
    && (forall d <- details :: DetailOk(repr, contracts, d))
    && NoClash(repr, contracts, details)
  }

  /** The snapshots `verify_details` accepts. */
  ghost predicate Verified(repr: Json -> string, contracts: Contracts, details: seq<Json>) {
    && contracts != map[]
    && Clean(repr, contracts, details)
    && (forall kind <- contracts :: Seen(contracts, details, kind))
  }

  datatype Entry = Entry(workflowType: string, evidence: Evidence)

  function EntryOf(detail: Json): Entry
    requires TypeOf(detail).Str?
  {
    Entry(TypeOf(detail).s, EvidenceOf(detail))
  }

  ghost predicate Records(repr: Json -> string, contracts: Contracts, details: seq<Json>, index: map<string, Entry>) {
    && (forall d | d in details && Inspected(contracts, d) ::
          IdOf(repr, d) in index && index[IdOf(repr, d)] == EntryOf(d))
    && (forall id | id in index :: exists d :: d in details && Inspected(contracts, d) && IdOf(repr, d) == id)
  }

  /** `verify_details`: `None` stands for the error it raises. */
  method VerifyDetails(repr: Json -> string, contracts: Contracts, details: seq<Json>)
    returns (r: Option<map<string, Entry>>)
    ensures r.Some? <==> Verified(repr, contracts, details)
    ensures r.Some? ==> Records(repr, contracts, details, r.value)
  {
    hide IdOf, TypeOf, Accepted, EvidenceOf, Clean, Records, Seen, Field;
    if contracts == map[] {
      return None;
    }
    var evidenceById: map<string, Entry> := map[];
    var inspectedTypes: set<string> := {};
    NothingYet(repr, contracts);
    for i := 0 to |details|
      invariant Clean(repr, contracts, details[..i])
      invariant Records(repr, contracts, details[..i], evidenceById)
      invariant inspectedTypes <= contracts.Keys
      invariant forall kind <- contracts :: kind in inspectedTypes <==> Seen(contracts, details[..i], kind)
    {
      var detail := details[i];
      assert details[..i + 1] == details[..i] + [detail];
      SeenGrows(contracts, details[..i], detail);
      CleanGrows(repr, contracts, details[..i], detail, evidenceById);
      CleanPrefix(repr, contracts, details, i + 1);
      if !detail.Obj? || !Field(detail, "workflow").Obj? || !Hashable(TypeOf(detail)) {
        return None;
      }
      if !Inspected(contracts, detail) {
        continue;
      }
      var id := IdOf(repr, detail);
      if id == "" || id in evidenceById {
        return None;
      }
      inspectedTypes := inspectedTypes + {TypeOf(detail).s};
      var evidence := CollectEvidence(repr, contracts[TypeOf(detail).s], detail);
      if evidence.None? {
        return None;
      }
      evidenceById := evidenceById[id := Entry(TypeOf(detail).s, evidence.value)];
    }
    assert details[..|details|] == details;
    if exists kind <- contracts :: kind !in inspectedTypes {
      return None;
    }
    r := Some(evidenceById);
  }

  lemma NothingYet(repr: Json -> string, contracts: Contracts)
    ensures Clean(repr, contracts, []) && Records(repr, contracts, [], map[])
    ensures forall kind :: !Seen(contracts, [], kind)
  {
  }

  /** What one more detail does to a clean prefix: it must be fine by itself and, unless it is skipped,
      bring a new id. */
  lemma CleanGrows(repr: Json -> string, contracts: Contracts, details: seq<Json>, d: Json, index: map<string, Entry>)
    requires Clean(repr, contracts, details)
    requires Records(repr, contracts, details, index)
    ensures Clean(repr, contracts, details + [d]) <==>
              DetailOk(repr, contracts, d) && (Inspected(contracts, d) ==> IdOf(repr, d) !in index)
    ensures !Inspected(contracts, d) ==> Records(repr, contracts, details + [d], index)
    ensures Inspected(contracts, d) && IdOf(repr, d) !in index ==>
              Records(repr, contracts, details + [d], index[IdOf(repr, d) := EntryOf(d)])
  {
    hide IdOf, DetailOk, EntryOf, TypeOf;
    var more := details + [d];
    assert d in more && more[|details|] == d;
    assert forall x :: x in more <==> x in details || x == d;
    if Inspected(contracts, d) && IdOf(repr, d) in index {
      var e :| e in details && Inspected(contracts, e) && IdOf(repr, e) == IdOf(repr, d);
      var k :| 0 <= k < |details| && details[k] == e;
      assert Clash(repr, contracts, more[k], more[|details|]);
    } else {
      forall i, j | 0 <= i < j < |more| ensures !Clash(repr, contracts, more[i], more[j]) {
        assert more[i] == details[i] && details[i] in details;
        if j < |details| { assert more[j] == details[j]; }
      }
    }
  }

  lemma CleanPrefix(repr: Json -> string, contracts: Contracts, details: seq<Json>, n: nat)
    requires n <= |details|
    ensures Clean(repr, contracts, details) ==> Clean(repr, contracts, details[..n])
  {
    hide DetailOk, Clash;
  }

  lemma SeenGrows(contracts: Contracts, details: seq<Json>, d: Json)
    ensures forall kind :: Seen(contracts, details + [d], kind) <==>
              Seen(contracts, details, kind) || (Inspected(contracts, d) && TypeOf(d).s == kind)
  {
    hide TypeOf;
    forall kind
      ensures Seen(contracts, details + [d], kind) <==>
                Seen(contracts, details, kind) || (Inspected(contracts, d) && TypeOf(d).s == kind)
    {
      var more := details + [d];
      assert more[|details|] == d;
      if i :| 0 <= i < |details| && Inspected(contracts, details[i]) && TypeOf(details[i]).s == kind {
        assert more[i] == details[i];
      }
    }
  }

  // ---------------------------------------------------------------- live against replay

  datatype Snapshot = Snapshot(sourceMode: string, details: seq<Json>)

  /** Python's `==` on two lists of dicts. */
  predicate SameList(a: seq<Record>, b: seq<Record>) {
    |a| == |b| && forall i | 0 <= i < |a| :: PyEq(Obj(a[i]), Obj(b[i]))
  }

  /** Python's `==` on two entries. */
  predicate SameEntry(a: Entry, b: Entry) {
    && a.workflowType == b.workflowType
    && PyEq(Obj(a.evidence.workflow), Obj(b.evidence.workflow))
    && SameList(a.evidence.timeline, b.evidence.timeline)
    && SameList(a.evidence.mcpCalls, b.evidence.mcpCalls)
  }

  ghost predicate HasWorkflow(repr: Json -> string, contracts: Contracts, details: seq<Json>, id: string) {
    exists d :: d in details && Inspected(contracts, d) && IdOf(repr, d) == id
  }

  ghost predicate Paired(repr: Json -> string, contracts: Contracts, d: Json, e: Json) {
    Inspected(contracts, d) && Inspected(contracts, e) && IdOf(repr, d) == IdOf(repr, e)
  }

  /** What `verify_live_and_replay` accepts: both sides verify, they hold the same workflow ids, and
      the two details of each id leave equal evidence. */
  ghost predicate Parity(repr: Json -> string, contracts: Contracts, live: Snapshot, replay: Snapshot) {
    && live.sourceMode == "live"
    && replay.sourceMode == "replay"
    && Verified(repr, contracts, live.details)
    && Verified(repr, contracts, replay.details)
    && (forall id ::
          HasWorkflow(repr, contracts, live.details, id) <==> HasWorkflow(repr, contracts, replay.details, id))
    && (forall d, e | d in live.details && e in replay.details && Paired(repr, contracts, d, e) ::
          SameEntry(EntryOf(d), EntryOf(e)))
  }

  lemma RecordKeys(repr: Json -> string, contracts: Contracts, details: seq<Json>, index: map<string, Entry>)
    requires Records(repr, contracts, details, index)
    ensures forall id :: id in index <==> HasWorkflow(repr, contracts, details, id)
  {
    hide IdOf, TypeOf, EvidenceOf;
  }

  /** `verify_live_and_replay`: `None` stands for the error it raises. */
  method VerifyLiveAndReplay(repr: Json -> string, contracts: Contracts, live: Snapshot, replay: Snapshot)
    returns (r: Option<map<string, Entry>>)
    ensures r.Some? <==> Parity(repr, contracts, live, replay)
    ensures r.Some? ==> Records(repr, contracts, replay.details, r.value)
  {
    hide Verified, Records, SameEntry, HasWorkflow, Paired, EvidenceOf, TypeOf, IdOf;
    if live.sourceMode != "live" || replay.sourceMode != "replay" {
      return None;
    }
    var lived := VerifyDetails(repr, contracts, live.details);
    if lived.None? {
      return None;
    }
    var replayed := VerifyDetails(repr, contracts, replay.details);
    if replayed.None? {
      return None;
    }
    RecordKeys(repr, contracts, live.details, lived.value);
    RecordKeys(repr, contracts, replay.details, replayed.value);
    if lived.value.Keys != replayed.value.Keys {
      DifferentKeys(lived.value, replayed.value);
      return None;
    }
    var pending := lived.value.Keys;
    while pending != {}
      invariant pending <= lived.value.Keys
      invariant forall id | id in lived.value && id !in pending :: SameEntry(lived.value[id], replayed.value[id])
    {
      var id :| id in pending;
      assert id in replayed.value;
      if !SameEntry(lived.value[id], replayed.value[id]) {
        EntryMismatch(repr, contracts, live.details, replay.details, lived.value, replayed.value, id);
        return None;
      }
      pending := pending - {id};
    }
    PairsMatch(repr, contracts, live.details, replay.details, lived.value, replayed.value);
    r := replayed;
  }

  lemma DifferentKeys(a: map<string, Entry>, b: map<string, Entry>)
    requires a.Keys != b.Keys
    ensures exists id :: (id in a) != (id in b)
  {
    if a.Keys <= b.Keys {
      assert !(b.Keys <= a.Keys);
      var id :| id in b.Keys && id !in a.Keys;
      assert (id in a) != (id in b);
    } else {
      var id :| id in a.Keys && id !in b.Keys;
      assert (id in a) != (id in b);
    }
  }

  lemma EntryMismatch(repr: Json -> string, contracts: Contracts, live: seq<Json>, replay: seq<Json>,
                      a: map<string, Entry>, b: map<string, Entry>, id: string)
    requires Records(repr, contracts, live, a) && Records(repr, contracts, replay, b)
    requires id in a && id in b && !SameEntry(a[id], b[id])
    ensures exists d, e ::
              d in live && e in replay && Paired(repr, contracts, d, e) && !SameEntry(EntryOf(d), EntryOf(e))
  {
    hide SameEntry, EvidenceOf, TypeOf, IdOf;
    var d :| d in live && Inspected(contracts, d) && IdOf(repr, d) == id;
    var e :| e in replay && Inspected(contracts, e) && IdOf(repr, e) == id;
    assert Paired(repr, contracts, d, e);
  }

  lemma PairsMatch(repr: Json -> string, contracts: Contracts, live: seq<Json>, replay: seq<Json>,
                   a: map<string, Entry>, b: map<string, Entry>)
    requires Records(repr, contracts, live, a) && Records(repr, contracts, replay, b)
    requires forall id | id in a :: id in b && SameEntry(a[id], b[id])
    ensures forall d, e | d in live && e in replay && Paired(repr, contracts, d, e) :: SameEntry(EntryOf(d), EntryOf(e))
  {
    hide SameEntry, EvidenceOf, TypeOf, IdOf;
  }

  // ---------------------------------------------------------------- order does not matter

  lemma {:induction false} OccursTwice(s: seq<Json>, v: Json) returns (i: nat, j: nat)
    requires multiset(s)[v] >= 2
    ensures i < j < |s| && s[i] == v == s[j]
  {
    assert s == [s[0]] + s[1..];
    if s[0] == v {
      assert multiset(s[1..])[v] >= 1;
      assert v in s[1..];
      i := 0;
      j :| 0 < j < |s| && s[j] == v;
    } else {
      i, j := OccursTwice(s[1..], v);
      i, j := i + 1, j + 1;
    }
  }

  lemma CountsTwo(s: seq<Json>, i: nat, j: nat)
    requires i < j < |s| && s[i] == s[j]
    ensures multiset(s)[s[i]] >= 2
  {
    assert s == s[..j] + [s[j]] + s[j + 1..];
    assert s[..j][i] == s[i];
    assert s[i] in multiset(s[..j]);
  }

  lemma NoClashReordered(repr: Json -> string, contracts: Contracts, a: seq<Json>, b: seq<Json>)
    requires multiset(a) == multiset(b)
    requires NoClash(repr, contracts, a)
    ensures NoClash(repr, contracts, b)
  {
    hide Inspected, IdOf;
    forall i, j | 0 <= i < j < |b| ensures !Clash(repr, contracts, b[i], b[j]) {
      if b[i] == b[j] {
        CountsTwo(b, i, j);
        var x, y := OccursTwice(a, b[i]);
      } else {
        assert b[i] in multiset(a) && b[j] in multiset(a);
        var x :| 0 <= x < |a| && a[x] == b[i];
        var y :| 0 <= y < |a| && a[y] == b[j];
        assert !Clash(repr, contracts, a[if x < y then x else y], a[if x < y then y else x]);
      }
    }
  }

  lemma SameMembers(a: seq<Json>, b: seq<Json>)
    requires multiset(a) == multiset(b)
    ensures forall d :: d in a <==> d in b
  {
    forall d ensures d in a <==> d in b {
      assert d in a <==> d in multiset(a);
      assert d in b <==> d in multiset(b);
    }
  }

  lemma VerifiedReordered(repr: Json -> string, contracts: Contracts, a: seq<Json>, b: seq<Json>)
    requires multiset(a) == multiset(b)
    requires Verified(repr, contracts, a)
    ensures Verified(repr, contracts, b)
  {
    hide DetailOk, NoClash, TypeOf;
    SameMembers(a, b);
    NoClashReordered(repr, contracts, a, b);
    forall kind | kind in contracts ensures Seen(contracts, b, kind) {
      var i :| 0 <= i < |a| && Inspected(contracts, a[i]) && TypeOf(a[i]).s == kind;
      assert a[i] in a && a[i] in b;
    }
  }

  /** `verify_details` gives the same verdict and the same map whatever the order of the details. */
  lemma OrderDoesNotMatter(repr: Json -> string, contracts: Contracts, a: seq<Json>, b: seq<Json>,
                           index: map<string, Entry>)
    requires multiset(a) == multiset(b)
    ensures Verified(repr, contracts, a) <==> Verified(repr, contracts, b)
    ensures Records(repr, contracts, a, index) <==> Records(repr, contracts, b, index)
  {
    hide Verified, Inspected, IdOf, EntryOf;
    SameMembers(a, b);
    if Verified(repr, contracts, a) { VerifiedReordered(repr, contracts, a, b); }
    if Verified(repr, contracts, b) { VerifiedReordered(repr, contracts, b, a); }
  }

  /** A snapshot determines its map. */
  lemma RecordsUnique(repr: Json -> string, contracts: Contracts, details: seq<Json>,
                      a: map<string, Entry>, b: map<string, Entry>)
    requires Records(repr, contracts, details, a) && Records(repr, contracts, details, b)
    ensures a == b
  {
    hide Inspected, IdOf, EntryOf;
    assert forall id | id in a :: id in b && a[id] == b[id];
    assert forall id | id in b :: id in a;
  }

  lemma ParityReordered(repr: Json -> string, contracts: Contracts, live: Snapshot, replay: Snapshot,
                        live': Snapshot, replay': Snapshot)
    requires live.sourceMode == live'.sourceMode && replay.sourceMode == replay'.sourceMode
    requires multiset(live.details) == multiset(live'.details)
    requires multiset(replay.details) == multiset(replay'.details)
    ensures Parity(repr, contracts, live, replay) <==> Parity(repr, contracts, live', replay')
  {
    hide Verified, Inspected, IdOf, EntryOf, SameEntry, Records;
    SameMembers(live.details, live'.details);
    SameMembers(replay.details, replay'.details);
    OrderDoesNotMatter(repr, contracts, live.details, live'.details, map[]);
    OrderDoesNotMatter(repr, contracts, replay.details, replay'.details, map[]);
    assert forall id ::
        HasWorkflow(repr, contracts, live.details, id) <==> HasWorkflow(repr, contracts, live'.details, id);
    assert forall id ::
        HasWorkflow(repr, contracts, replay.details, id) <==> HasWorkflow(repr, contracts, replay'.details, id);
    hide HasWorkflow, Paired;
  }

  // ---------------------------------------------------------------- volatile fields do not matter

  ghost predicate VolatileVariant(a: seq<Json>, b: seq<Json>) {
    |a| == |b| && forall i | 0 <= i < |a| :: SameButVolatile(a[i], b[i])
  }

  lemma DetailKept(repr: Json -> string, contracts: Contracts, a: Json, b: Json)
    requires SameButVolatile(a, b)
    ensures TypeOf(a) == TypeOf(b) && IdOf(repr, a) == IdOf(repr, b)
    ensures EvidenceOf(a) == EvidenceOf(b)
    ensures DetailOk(repr, contracts, a) <==> DetailOk(repr, contracts, b)
  {
    WorkflowKeysAreStable();
    var v, w := Fields(Field(a, "workflow")), Fields(Field(b, "workflow"));
    assert v - VOLATILE_WORKFLOW_FIELDS == w - VOLATILE_WORKFLOW_FIELDS;
    StableFieldKept(v, w, VOLATILE_WORKFLOW_FIELDS, "id");
    StableFieldKept(v, w, VOLATILE_WORKFLOW_FIELDS, "type");
    hide Accepted, EvidenceOf, TextOrEmpty, SameRows, SameCalls;
    if Inspected(contracts, a) {
      VolatileFieldsDoNotMatter(repr, contracts[TypeOf(a).s], a, b);
    } else {
      VolatileFieldsDoNotMatter(repr, Contract([], [], {}), a, b);
    }
  }

  lemma VolatileVariantSymmetric(a: seq<Json>, b: seq<Json>)
    requires VolatileVariant(a, b)
    ensures VolatileVariant(b, a)
  {
    forall i | 0 <= i < |a| ensures SameButVolatile(b[i], a[i]) {
      assert SameButVolatile(a[i], b[i]);
      SameButVolatileSymmetric(a[i], b[i]);
    }
  }

  lemma SameButVolatileSymmetric(a: Json, b: Json)
    requires SameButVolatile(a, b)
    ensures SameButVolatile(b, a)
  {
    hide Field, StableRow, WithoutVolatile, Visible;
    var s, t := Items(Field(a, "timeline")), Items(Field(b, "timeline"));
    forall i | 0 <= i < |t| ensures SameRow(t[i], s[i]) {
      assert SameRow(s[i], t[i]);
      RowHeadKept(s[i], t[i]);
    }
    var c, d := Items(Field(a, "mcpCalls")), Items(Field(b, "mcpCalls"));
    forall i | 0 <= i < |d| ensures SameCall(d[i], c[i]) {
      assert SameCall(c[i], d[i]);
    }
  }

  lemma DetailsKept(repr: Json -> string, contracts: Contracts, a: seq<Json>, b: seq<Json>)
    requires VolatileVariant(a, b)
    ensures forall i | 0 <= i < |a| :: TypeOf(a[i]) == TypeOf(b[i]) && IdOf(repr, a[i]) == IdOf(repr, b[i])
    ensures forall i | 0 <= i < |a| :: EvidenceOf(a[i]) == EvidenceOf(b[i])
    ensures forall i | 0 <= i < |a| :: DetailOk(repr, contracts, a[i]) <==> DetailOk(repr, contracts, b[i])
  {
    hide SameButVolatile, DetailOk, TypeOf, IdOf, EvidenceOf;
    forall i | 0 <= i < |a|
      ensures TypeOf(a[i]) == TypeOf(b[i]) && IdOf(repr, a[i]) == IdOf(repr, b[i])
      ensures EvidenceOf(a[i]) == EvidenceOf(b[i])
      ensures DetailOk(repr, contracts, a[i]) <==> DetailOk(repr, contracts, b[i])
    {
      DetailKept(repr, contracts, a[i], b[i]);
    }
  }

  lemma VerifiedVariant(repr: Json -> string, contracts: Contracts, a: seq<Json>, b: seq<Json>)
    requires VolatileVariant(a, b)
    requires Verified(repr, contracts, a)
    ensures Verified(repr, contracts, b)
  {
    hide SameButVolatile, DetailOk, TypeOf, IdOf, EvidenceOf;
    DetailsKept(repr, contracts, a, b);
    forall i, j | 0 <= i < j < |b| ensures !Clash(repr, contracts, b[i], b[j]) {
      assert !Clash(repr, contracts, a[i], a[j]);
    }
    forall kind | kind in contracts ensures Seen(contracts, b, kind) {
      var i :| 0 <= i < |a| && Inspected(contracts, a[i]) && TypeOf(a[i]).s == kind;
      assert Inspected(contracts, b[i]);
    }
  }

  lemma RecordsVariant(repr: Json -> string, contracts: Contracts, a: seq<Json>, b: seq<Json>,
                       index: map<string, Entry>)
    requires VolatileVariant(a, b)
    requires Records(repr, contracts, a, index)
    ensures Records(repr, contracts, b, index)
  {
    hide SameButVolatile, DetailOk, TypeOf, IdOf, EvidenceOf;
    DetailsKept(repr, contracts, a, b);
    forall d | d in b && Inspected(contracts, d) ensures IdOf(repr, d) in index && index[IdOf(repr, d)] == EntryOf(d) {
      var i :| 0 <= i < |b| && b[i] == d;
      assert a[i] in a && Inspected(contracts, a[i]);
    }
    forall id | id in index ensures exists d :: d in b && Inspected(contracts, d) && IdOf(repr, d) == id {
      var d :| d in a && Inspected(contracts, d) && IdOf(repr, d) == id;
      var i :| 0 <= i < |a| && a[i] == d;
      assert b[i] in b && Inspected(contracts, b[i]);
    }
  }

  lemma HasWorkflowVariant(repr: Json -> string, contracts: Contracts, a: seq<Json>, b: seq<Json>, id: string)
    requires VolatileVariant(a, b)
    requires HasWorkflow(repr, contracts, a, id)
    ensures HasWorkflow(repr, contracts, b, id)
  {
    hide SameButVolatile, DetailOk, TypeOf, IdOf, EvidenceOf;
    DetailsKept(repr, contracts, a, b);
    var d :| d in a && Inspected(contracts, d) && IdOf(repr, d) == id;
    var i :| 0 <= i < |a| && a[i] == d;
    assert b[i] in b && Inspected(contracts, b[i]);
  }

  lemma EntriesVariant(repr: Json -> string, contracts: Contracts, live: seq<Json>, replay: seq<Json>,
                       live': seq<Json>, replay': seq<Json>)
    requires VolatileVariant(live, live') && VolatileVariant(replay, replay')
    requires forall d, e | d in live && e in replay && Paired(repr, contracts, d, e) ::
        SameEntry(EntryOf(d), EntryOf(e))
    ensures forall d, e | d in live' && e in replay' && Paired(repr, contracts, d, e) ::
        SameEntry(EntryOf(d), EntryOf(e))
  {
    hide SameButVolatile, DetailOk, TypeOf, IdOf, EvidenceOf, SameEntry;
    DetailsKept(repr, contracts, live, live');
    DetailsKept(repr, contracts, replay, replay');
    forall d', e' | d' in live' && e' in replay' && Paired(repr, contracts, d', e')
      ensures SameEntry(EntryOf(d'), EntryOf(e'))
    {
      var i :| 0 <= i < |live'| && live'[i] == d';
      var j :| 0 <= j < |replay'| && replay'[j] == e';
      assert live[i] in live && replay[j] in replay && Paired(repr, contracts, live[i], replay[j]);
    }
  }

  /** Rewriting volatile fields on either side cannot turn an accepted pair into a rejected one... */
  lemma ParityVariant(repr: Json -> string, contracts: Contracts, live: Snapshot, replay: Snapshot,
                      live': Snapshot, replay': Snapshot)
    requires live.sourceMode == live'.sourceMode && replay.sourceMode == replay'.sourceMode
    requires VolatileVariant(live.details, live'.details) && VolatileVariant(replay.details, replay'.details)
    requires Parity(repr, contracts, live, replay)
    ensures Parity(repr, contracts, live', replay')
  {
    hide VolatileVariant, Verified, HasWorkflow, Paired, SameEntry, EntryOf;
    VerifiedVariant(repr, contracts, live.details, live'.details);
    VerifiedVariant(repr, contracts, replay.details, replay'.details);
    VolatileVariantSymmetric(live.details, live'.details);
    VolatileVariantSymmetric(replay.details, replay'.details);
    forall id
      ensures HasWorkflow(repr, contracts, live'.details, id) <==> HasWorkflow(repr, contracts, replay'.details, id)
    {
      if HasWorkflow(repr, contracts, live'.details, id) {
        HasWorkflowVariant(repr, contracts, live'.details, live.details, id);
        HasWorkflowVariant(repr, contracts, replay.details, replay'.details, id);
      }
      if HasWorkflow(repr, contracts, replay'.details, id) {
        HasWorkflowVariant(repr, contracts, replay'.details, replay.details, id);
        HasWorkflowVariant(repr, contracts, live.details, live'.details, id);
      }
    }
    EntriesVariant(repr, contracts, live.details, replay.details, live'.details, replay'.details);
  }

  /** ...nor the other way round; and the map that is returned does not change either. */
  lemma VolatileFieldsCannotChangeTheVerdict(repr: Json -> string, contracts: Contracts, live: Snapshot,
                                             replay: Snapshot, live': Snapshot, replay': Snapshot,
                                             index: map<string, Entry>)
    requires live.sourceMode == live'.sourceMode && replay.sourceMode == replay'.sourceMode
    requires VolatileVariant(live.details, live'.details) && VolatileVariant(replay.details, replay'.details)
    ensures Parity(repr, contracts, live, replay) <==> Parity(repr, contracts, live', replay')
    ensures Records(repr, contracts, replay.details, index) <==> Records(repr, contracts, replay'.details, index)
  {
    hide VolatileVariant, Parity, Records;
    VolatileVariantSymmetric(live.details, live'.details);
    VolatileVariantSymmetric(replay.details, replay'.details);
    if Parity(repr, contracts, live, replay) { ParityVariant(repr, contracts, live, replay, live', replay'); }
    if Parity(repr, contracts, live', replay') { ParityVariant(repr, contracts, live', replay', live, replay); }
    if Records(repr, contracts, replay.details, index) {
      RecordsVariant(repr, contracts, replay.details, replay'.details, index);
    }
    if Records(repr, contracts, replay'.details, index) {
      RecordsVariant(repr, contracts, replay'.details, replay.details, index);
    }
  }

  // ---------------------------------------------------------------- what the evidence is worth

  /** A replay of the same run, in any order and with volatile fields of its own, passes. */
  lemma FaithfulReplayPasses(repr: Json -> string, contracts: Contracts, live: seq<Json>, copy: seq<Json>,
                             replay: seq<Json>)
    requires Verified(repr, contracts, live)
    requires VolatileVariant(live, copy) && multiset(copy) == multiset(replay)
    ensures Parity(repr, contracts, Snapshot("live", live), Snapshot("replay", replay))
  {
    hide VolatileVariant, Verified, SameEntry, EntryOf, IdOf, Inspected, HasWorkflow;
    var lived := Snapshot("live", live);
    SameSnapshotPasses(repr, contracts, live);
    VolatileVariantReflexive(live);
    ParityVariant(repr, contracts, lived, Snapshot("replay", live), lived, Snapshot("replay", copy));
    hide Parity;
    ParityReordered(repr, contracts, lived, Snapshot("replay", copy), lived, Snapshot("replay", replay));
  }

  lemma VolatileVariantReflexive(a: seq<Json>)
    ensures VolatileVariant(a, a)
  {
  }

  lemma SameEntryReflexive(a: Entry)
    ensures SameEntry(a, a)
  {
    hide Norm;
  }

  lemma DistinctDoNotClash(repr: Json -> string, contracts: Contracts, details: seq<Json>, d: Json, e: Json)
    requires NoClash(repr, contracts, details)
    requires d in details && e in details && d != e
    ensures !Clash(repr, contracts, d, e)
  {
    hide TypeOf, IdOf;
    var i :| 0 <= i < |details| && details[i] == d;
    var j :| 0 <= j < |details| && details[j] == e;
    assert !Clash(repr, contracts, details[if i < j then i else j], details[if i < j then j else i]);
  }

  lemma SameSnapshotPasses(repr: Json -> string, contracts: Contracts, details: seq<Json>)
    requires Verified(repr, contracts, details)
    ensures Parity(repr, contracts, Snapshot("live", details), Snapshot("replay", details))
  {
    hide SameEntry, EvidenceOf, DetailOk, TypeOf, IdOf;
    forall d, e | d in details && e in details && Paired(repr, contracts, d, e)
      ensures SameEntry(EntryOf(d), EntryOf(e))
    {
      if d != e {
        DistinctDoNotClash(repr, contracts, details, d, e);
      }
      SameEntryReflexive(EntryOf(d));
    }
    assert forall id ::
        HasWorkflow(repr, contracts, Snapshot("live", details).details, id)
        <==> HasWorkflow(repr, contracts, Snapshot("replay", details).details, id);
  }

  /** For accepted details the evidence pins everything but the volatile fields. */
  lemma EvidencePinsDetail(repr: Json -> string, contract: Contract, a: Json, b: Json)
    requires Accepted(repr, contract, a) && Accepted(repr, contract, b)
    ensures EvidenceOf(a) == EvidenceOf(b) <==> SameButVolatile(a, b)
  {
    if SameButVolatile(a, b) {
      VolatileFieldsDoNotMatter(repr, contract, a, b);
    }
    if EvidenceOf(a) == EvidenceOf(b) {
      RowsPinned(repr, contract, a, b);
      CallsPinned(repr, contract, a, b);
      hide Field, TimelineOk, ToolsOk, SameRows, SameCalls, StableRows, StableCalls, WithoutVolatile;
      assert a.Obj? && b.Obj?;
    }
  }

  lemma RowsPinned(repr: Json -> string, contract: Contract, a: Json, b: Json)
    requires Accepted(repr, contract, a) && Accepted(repr, contract, b)
    requires EvidenceOf(a) == EvidenceOf(b)
    ensures SameRows(Items(Field(a, "timeline")), Items(Field(b, "timeline")))
  {
    var s, t := Items(Field(a, "timeline")), Items(Field(b, "timeline"));
    hide StableRow, Visible, LifecycleOk, RowOk, ToolsOk, Having, Field;
    assert StableRows(s) == StableRows(t);
    assert |StableRows(s)| == |s| && |StableRows(t)| == |t|;
    forall i | 0 <= i < |s| ensures SameRow(s[i], t[i]) {
      assert s[i] in s && t[i] in t;
      assert StableRows(s)[i] == StableRow(s[i]) && StableRows(t)[i] == StableRow(t[i]);
      RowPinned(repr, contract, s[i], t[i]);
    }
  }

  lemma RowPinned(repr: Json -> string, contract: Contract, v: Json, w: Json)
    requires v.Obj? && w.Obj?
    requires RowOk(repr, contract, ReadRow(v)) && RowOk(repr, contract, ReadRow(w))
    requires StableRow(v) == StableRow(w)
    ensures SameRow(v, w)
  {
    KindKept(v, w);
    hide StableRow, Visible, ValidRow, ReferencesDeclared, DecisionOk, OptionalRowOk, Field, CoverageListed;
    hide CoverageDeclared;
  }

  lemma KindKept(v: Json, w: Json)
    requires StableRow(v) == StableRow(w)
    ensures Field(v, "kind") == Field(w, "kind")
  {
    LabelIsStable();
    hide VOLATILE_TIMELINE_FIELDS, VOLATILE_DURATION_FIELDS;
    assert StableRow(v) - VOLATILE_DURATION_FIELDS == Fields(v) - VOLATILE_ROW_FIELDS;
    assert StableRow(w) - VOLATILE_DURATION_FIELDS == Fields(w) - VOLATILE_ROW_FIELDS;
    StableFieldKept(Fields(v), Fields(w), VOLATILE_ROW_FIELDS, "kind");
  }

  lemma CallsPinned(repr: Json -> string, contract: Contract, a: Json, b: Json)
    requires Accepted(repr, contract, a) && Accepted(repr, contract, b)
    requires EvidenceOf(a) == EvidenceOf(b)
    ensures SameCalls(Items(Field(a, "mcpCalls")), Items(Field(b, "mcpCalls")))
  {
    var c, d := Items(Field(a, "mcpCalls")), Items(Field(b, "mcpCalls"));
    hide TimelineOk, Having, Field, WithoutVolatile, ToolRows, ReasoningCalls, ToolCallId, Agree, SameIds;
    assert StableCalls(c) == StableCalls(d);
    assert |StableCalls(c)| == |c| && |StableCalls(d)| == |d|;
    forall i | 0 <= i < |c| ensures SameCall(c[i], d[i]) {
      assert StableCalls(c)[i] == WithoutVolatile(c[i], VOLATILE_CALL_FIELDS);
      assert StableCalls(d)[i] == WithoutVolatile(d[i], VOLATILE_CALL_FIELDS);
      assert Identified(repr, c[i], false) && Identified(repr, d[i], false);
    }
  }
}
