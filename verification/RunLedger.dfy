/** The travel proof's consecutive-run ledger: a two-record window, cleared and rewritten on every
    run, against a scan of the whole run history. */
module RunLedger {
  import opened Values

  /** `fromisoformat` on time-zone-aware text, as an instant; nothing for malformed or naive text. */
  type Clock = string -> Option<int>

  /** A Python condition: a value, or an exception on the way to it. */
  datatype Check = Yes | No | Raises

  function Holds(b: bool): Check { if b then Yes else No }

  /** `a and b`, left to right. */
  function And(a: bool, b: Check): Check { if a then b else No }

  function OrEmptyDict(v: Json): Json { if Truthy(v) then v else Obj(map[]) }

  predicate Ordered(clock: Clock, a: Json, b: Json) {
    a.Str? && b.Str? && clock(a.s).Some? && clock(b.s).Some? && clock(a.s).value < clock(b.s).value
  }

  predicate ResultsPass(fields: map<string, Json>) {
    && Get(fields, "live_result") == Str("PASS") && Get(fields, "replay_result") == Str("PASS")
    && Get(fields, "substrate_result") == Str("PASS") && Get(fields, "demo_result") == Str("PASS")
  }

  predicate QuietRun(fields: map<string, Json>) {
    Get(fields, "seller_review") == Str("PENDING") && EqEmptyList(Get(fields, "browserErrors"))
  }

  /** `(fields.get("teardown") or {}).get("orphan_ports") == {}`. */
  function NoOrphans(fields: map<string, Json>): Check {
    var teardown := OrEmptyDict(Get(fields, "teardown"));
    if teardown.Obj? then Holds(EqEmptyDict(Get(teardown.fields, "orphan_ports"))) else Raises
  }

  /** `manifest_is_clean`. */
  function ManifestIsClean(m: map<string, Json>): Check {
    var live := OrEmptyDict(Get(m, "live_summary"));
    if !live.Obj? then Raises
    else
      var browser := OrEmptyDict(Get(live.fields, "browser"));
      And(ResultsPass(m) && QuietRun(m),
          if !browser.Obj? then Raises
          else And(EqZero(Get(browser.fields, "dropped_workflow_events")) && EqEmptyList(Get(m, "failures")),
                   NoOrphans(m)))
  }

  /** Everything `record_is_clean` asks before it looks at `teardown`. */
  predicate CleanButTeardown(clock: Clock, r: map<string, Json>) {
    && Get(r, "run_id").Str? && Get(r, "run_id").s != ""
    && Ordered(clock, Get(r, "started_at"), Get(r, "completed_at"))
    && Get(r, "source_commit").Str? && Get(r, "source_commit").s != ""
    && Get(r, "runtime_fingerprint").Obj?
    && ResultsPass(r) && QuietRun(r)
    && EqZero(Get(r, "dropped_workflow_events")) && EqEmptyList(Get(r, "failures"))
  }

  /** `record_is_clean`. */
  function RecordIsClean(clock: Clock, v: Json): Check {
    if v.Obj? then And(CleanButTeardown(clock, v.fields), NoOrphans(v.fields)) else No
  }

  /** How far a run got: before the proof root was cleared, while it ran, after the ledger was written
      but before the manifest, or to the end. */
  datatype Fate = DiedEarly | DiedRunning | DiedAfterLedger | Finished

  datatype Run = Run(
    id: string, startedAt: string, completedAt: string, commit: string,
    fingerprint: map<string, Json>, manifest: map<string, Json>, fate: Fate)

  /** The manifest fields a record repeats under their own names. */
  const COPIED := {"live_result", "replay_result", "substrate_result", "demo_result",
                   "seller_review", "browserErrors", "failures", "teardown"}

  function DroppedEvents(m: map<string, Json>): Json {
    match OrEmptyDict(Get(m, "live_summary"))
    case Obj(live) =>
      (match OrEmptyDict(Get(live, "browser")) case Obj(b) => Get(b, "dropped_workflow_events") case _ => Null)
    case _ => Null
  }

  /** The fields a record does not copy. */
  function OwnFields(r: Run): map<string, Json> {
    map["run_id" := Str(r.id), "started_at" := Str(r.startedAt), "completed_at" := Str(r.completedAt),
        "source_commit" := Str(r.commit), "runtime_fingerprint" := Obj(r.fingerprint),
        "dropped_workflow_events" := DroppedEvents(r.manifest)]
  }

  /** The record `clean_run_record` builds once its conditions hold. */
  function RecordOf(r: Run): Json {
    Obj((map k | k in COPIED :: Get(r.manifest, k)) + OwnFields(r))
  }

  /** No copied key is one of the record's own: they differ in length or in the second letter. */
  lemma CopiedKey(k: string)
    requires k in COPIED
    ensures |k| == 8 || |k| == 11 || |k| == 16 || (|k| == 13 && k[1] != 'o')
  {}

  lemma RecordCopy(r: Run, k: string)
    requires k in COPIED
    ensures Get(RecordOf(r).fields, k) == Get(r.manifest, k)
  {
    CopiedKey(k);
    var own := OwnFields(r);
    assert |"run_id"| == 6 && |"started_at"| == 10 && |"completed_at"| == 12;
    assert "source_commit"[1] == 'o' && |"runtime_fingerprint"| == 19 && |"dropped_workflow_events"| == 23;
    assert k !in own;
  }

  lemma RecordCopies(r: Run)
    ensures forall k <- COPIED :: Get(RecordOf(r).fields, k) == Get(r.manifest, k)
  {
    forall k <- COPIED ensures Get(RecordOf(r).fields, k) == Get(r.manifest, k) { RecordCopy(r, k); }
  }

  lemma OwnFieldKept(r: Run, k: string)
    requires k in OwnFields(r)
    ensures Get(RecordOf(r).fields, k) == OwnFields(r)[k]
  {
    hide OwnFields, COPIED;
  }

  lemma OwnTimes(r: Run)
    ensures Get(OwnFields(r), "run_id") == Str(r.id)
    ensures Get(OwnFields(r), "started_at") == Str(r.startedAt)
    ensures Get(OwnFields(r), "completed_at") == Str(r.completedAt)
  {
  }

  lemma OwnOrigin(r: Run)
    ensures Get(OwnFields(r), "source_commit") == Str(r.commit)
    ensures Get(OwnFields(r), "runtime_fingerprint") == Obj(r.fingerprint)
    ensures Get(OwnFields(r), "dropped_workflow_events") == DroppedEvents(r.manifest)
  {
  }

  lemma RecordIdentity(r: Run)
    ensures var f := RecordOf(r).fields;
      && Get(f, "run_id") == Str(r.id) && Get(f, "started_at") == Str(r.startedAt)
      && Get(f, "completed_at") == Str(r.completedAt) && Get(f, "source_commit") == Str(r.commit)
      && Get(f, "runtime_fingerprint") == Obj(r.fingerprint)
      && Get(f, "dropped_workflow_events") == DroppedEvents(r.manifest)
  {
    OwnTimes(r);
    OwnOrigin(r);
    assert {"run_id", "started_at", "completed_at"} <= OwnFields(r).Keys;
    assert {"source_commit", "runtime_fingerprint", "dropped_workflow_events"} <= OwnFields(r).Keys;
    forall k | k in OwnFields(r) ensures Get(RecordOf(r).fields, k) == OwnFields(r)[k] { OwnFieldKept(r, k); }
    hide OwnFields, RecordOf, DroppedEvents;
  }

  predicate InOrder(clock: Clock, r: Run) { Ordered(clock, Str(r.startedAt), Str(r.completedAt)) }

  /** The last record of a travel ledger with a non-empty record list. */
  function LastRecord(ledger: Json): Option<Json> {
    if ledger.Obj? && Get(ledger.fields, "vertical") == Str("travel") then
      match Get(ledger.fields, "records")
      case List(records) => if records == [] then None else Some(records[|records| - 1])
      case _ => None
    else None
  }

  /** What reading the previous ledger's last record for cleanliness does. */
  function LastRecordCheck(clock: Clock, ledger: Json): Check {
    match LastRecord(ledger) case Some(v) => RecordIsClean(clock, v) case None => No
  }

  predicate SameIdentity(clock: Clock, previous: Json, r: Run)
    requires previous.Obj?
  {
    && Get(previous.fields, "source_commit") == Str(r.commit)
    && Get(previous.fields, "runtime_fingerprint") == Obj(r.fingerprint)
    && Get(previous.fields, "run_id") != Str(r.id)
    && Ordered(clock, Get(previous.fields, "completed_at"), Str(r.startedAt))
  }

  /** The ledger's new records; nothing when building them raises. */
  function Records(clock: Clock, ledger: Json, r: Run): Option<seq<Json>> {
    match ManifestIsClean(r.manifest)
    case Raises => None
    case No => Some([])
    case Yes =>
      if !InOrder(clock, r) then Some([])
      else
        match LastRecordCheck(clock, ledger)
        case Raises => None
        case No => Some([RecordOf(r)])
        case Yes =>
          var previous := LastRecord(ledger).value;
          Some(if SameIdentity(clock, previous, r) then [previous, RecordOf(r)] else [RecordOf(r)])
  }

  function Ledger(records: seq<Json>): Json {
    Obj(map["schema_version" := Int(1), "vertical" := Str("travel"),
            "required_successful_runs" := Int(2), "records" := List(records)])
  }

  datatype Evidence = Evidence(pass: bool, pair: seq<Json>)

  /** `consecutive_run_manifest_evidence`; nothing when a record check raises. */
  function EvidenceOf(clock: Clock, records: seq<Json>): Option<Evidence> {
    if |records| != 2 then Some(Evidence(false, []))
    else
      var a, b := RecordIsClean(clock, records[0]), RecordIsClean(clock, records[1]);
      if a.Raises? || (a.Yes? && b.Raises?) then None
      else if a.Yes? && b.Yes?
        && Get(records[0].fields, "source_commit") == Get(records[1].fields, "source_commit")
        && Get(records[0].fields, "runtime_fingerprint") == Get(records[1].fields, "runtime_fingerprint")
        && Get(records[0].fields, "run_id") != Get(records[1].fields, "run_id")
        && Ordered(clock, Get(records[0].fields, "completed_at"), Get(records[1].fields, "started_at"))
      then Some(Evidence(true, records))
      else Some(Evidence(false, []))
  }

  /** The proof directory: the ledger file (Null when missing or unreadable) and the verdict published
      in the manifest. */
  datatype Bundle = Bundle(ledger: Json, evidence: Option<Evidence>)

  /** One run of `main`: read the ledger, clear the directory, work, write the ledger, write the manifest. */
  function Step(clock: Clock, b: Bundle, r: Run): Bundle {
    if r.fate.DiedEarly? then b
    else if r.fate.DiedRunning? then Bundle(Null, None)
    else
      match Records(clock, b.ledger, r)
      case None => Bundle(Null, None)
      case Some(records) =>
        match EvidenceOf(clock, records)
        case None => Bundle(Null, None)
        case Some(e) => Bundle(Ledger(records), if r.fate.Finished? then Some(e) else None)
  }

  function RunAll(clock: Clock, b: Bundle, h: seq<Run>): Bundle {
    if h == [] then b else Step(clock, RunAll(clock, b, h[..|h| - 1]), h[|h| - 1])
  }

  // ---------------------------------------------------------------------------------------------
  // The specification: scan the history
  // ---------------------------------------------------------------------------------------------

  /** The runs that got far enough to clear the directory. */
  function Effective(h: seq<Run>): seq<Run> {
    if h == [] then []
    else Effective(h[..|h| - 1]) + (if h[|h| - 1].fate.DiedEarly? then [] else [h[|h| - 1]])
  }

  /** The run reached the point where its ledger is on disk. */
  predicate Completes(r: Run) {
    (r.fate.Finished? || r.fate.DiedAfterLedger?) && !ManifestIsClean(r.manifest).Raises?
  }

  predicate CleanRun(clock: Clock, r: Run) {
    Completes(r) && ManifestIsClean(r.manifest).Yes? && InOrder(clock, r) && r.id != "" && r.commit != ""
  }

  /** Two consecutive clean runs of one commit and fingerprint, one strictly after the other. */
  predicate GoodPair(clock: Clock, a: Run, b: Run) {
    && CleanRun(clock, a) && CleanRun(clock, b)
    && a.commit == b.commit && a.fingerprint == b.fingerprint && a.id != b.id
    && Ordered(clock, Str(a.completedAt), Str(b.startedAt))
  }

  function ScanVerdict(clock: Clock, h: seq<Run>, r: Run): Evidence {
    var e := Effective(h);
    if e != [] && GoodPair(clock, e[|e| - 1], r) then Evidence(true, [RecordOf(e[|e| - 1]), RecordOf(r)])
    else Evidence(false, [])
  }

  // ---------------------------------------------------------------------------------------------
  // Refinement
  // ---------------------------------------------------------------------------------------------

  lemma RecordKeepsTeardown(r: Run)
    ensures NoOrphans(RecordOf(r).fields) == NoOrphans(r.manifest)
  {
    RecordCopies(r);
    assert "teardown" in COPIED;
    hide RecordOf, COPIED;
  }

  lemma RecordKeepsResults(r: Run)
    ensures ResultsPass(RecordOf(r).fields) == ResultsPass(r.manifest)
    ensures QuietRun(RecordOf(r).fields) == QuietRun(r.manifest)
    ensures EqEmptyList(Get(RecordOf(r).fields, "failures")) == EqEmptyList(Get(r.manifest, "failures"))
  {
    RecordCopies(r);
    assert "live_result" in COPIED && "replay_result" in COPIED && "substrate_result" in COPIED;
    assert "demo_result" in COPIED && "seller_review" in COPIED && "browserErrors" in COPIED && "failures" in COPIED;
    hide RecordOf, COPIED, EqEmptyList;
  }

  /** A record built from a clean manifest passes the reader's check unless its id or commit is empty. */
  lemma RecordRoundTrip(clock: Clock, r: Run)
    requires ManifestIsClean(r.manifest).Yes? && InOrder(clock, r)
    ensures RecordIsClean(clock, RecordOf(r)) == Holds(r.id != "" && r.commit != "")
  {
    assert NoOrphans(r.manifest) == Yes && ResultsPass(r.manifest) && QuietRun(r.manifest);
    assert EqZero(DroppedEvents(r.manifest)) && EqEmptyList(Get(r.manifest, "failures"));
    hide RecordOf, NoOrphans, ResultsPass, QuietRun, DroppedEvents, ManifestIsClean, EqZero, EqEmptyList, Get;
    RecordKeepsTeardown(r);
    RecordKeepsResults(r);
    RecordIdentity(r);
  }

  /** The ledger on disk is what run `q` leaves behind. */
  predicate LeftBy(clock: Clock, ledger: Json, q: Run) {
    LastRecord(ledger) ==
      if Completes(q) && ManifestIsClean(q.manifest).Yes? && InOrder(clock, q) then Some(RecordOf(q)) else None
  }

  /** What the ledger offers the next run is run `q`, if that was clean. */
  predicate Offers(clock: Clock, ledger: Json, q: Run) {
    && LastRecordCheck(clock, ledger) == Holds(CleanRun(clock, q))
    && (CleanRun(clock, q) ==> LastRecord(ledger) == Some(RecordOf(q)))
  }

  lemma LeftByOffers(clock: Clock, ledger: Json, q: Run)
    requires LeftBy(clock, ledger, q)
    ensures Offers(clock, ledger, q)
  {
    if Completes(q) && ManifestIsClean(q.manifest).Yes? && InOrder(clock, q) { RecordRoundTrip(clock, q); }
  }

  lemma BuiltRecords(clock: Clock, ledger: Json, r: Run)
    requires !LastRecordCheck(clock, ledger).Raises?
    ensures Records(clock, ledger, r).None? <==> ManifestIsClean(r.manifest).Raises?
    ensures Records(clock, ledger, r).Some? ==>
      EvidenceOf(clock, Records(clock, ledger, r).value).Some?
  {
    if ManifestIsClean(r.manifest).Yes? && InOrder(clock, r) { RecordRoundTrip(clock, r); }
  }

  lemma StepLeaves(clock: Clock, b: Bundle, r: Run)
    requires !r.fate.DiedEarly? && !LastRecordCheck(clock, b.ledger).Raises?
    ensures Offers(clock, Step(clock, b, r).ledger, r)
  {
    BuiltRecords(clock, b.ledger, r);
    LeftByOffers(clock, Step(clock, b, r).ledger, r);
  }

  lemma LastStepLeaves(clock: Clock, b: Bundle, h: seq<Run>)
    requires h != [] && !h[|h| - 1].fate.DiedEarly?
    requires !LastRecordCheck(clock, RunAll(clock, b, h[..|h| - 1]).ledger).Raises?
    ensures Offers(clock, RunAll(clock, b, h).ledger, h[|h| - 1])
  {
    StepLeaves(clock, RunAll(clock, b, h[..|h| - 1]), h[|h| - 1]);
  }

  lemma {:induction false} LastEffectiveAt(h: seq<Run>) returns (n: nat)
    requires Effective(h) != []
    ensures n < |h| && h[n] == Effective(h)[|Effective(h)| - 1] && !h[n].fate.DiedEarly?
    ensures Effective(h[..n]) == Effective(h)[..|Effective(h)| - 1]
    ensures forall k | n < k < |h| :: h[k].fate.DiedEarly?
  {
    if h[|h| - 1].fate.DiedEarly? {
      var init := h[..|h| - 1];
      n := LastEffectiveAt(init);
      assert init[..n] == h[..n];
    } else {
      n := |h| - 1;
    }
  }

  lemma {:induction false} EarlyDeathsKeep(clock: Clock, b: Bundle, h: seq<Run>, n: nat)
    requires n <= |h| && forall k | n <= k < |h| :: h[k].fate.DiedEarly?
    ensures RunAll(clock, b, h) == RunAll(clock, b, h[..n])
  {
    if n == |h| {
      assert h[..n] == h;
    } else {
      EarlyDeathsKeep(clock, b, h[..|h| - 1], n);
      assert h[..|h| - 1][..n] == h[..n];
    }
  }

  /** After any history with an effective run, the ledger offers the next run exactly the last such run,
      whatever was there before; only a clean first run is lost, to a ledger that makes the reader raise. */
  lemma LedgerIsLastRun(clock: Clock, b: Bundle, h: seq<Run>)
    requires Effective(h) != []
    ensures Offers(clock, RunAll(clock, b, h).ledger, Effective(h)[|Effective(h)| - 1])
       <==> |Effective(h)| >= 2 || !LastRecordCheck(clock, b.ledger).Raises? || !CleanRun(clock, Effective(h)[0])
  {
    var n := LastEffectiveAt(h);
    if |Effective(h)| >= 2 || !LastRecordCheck(clock, b.ledger).Raises? {
      NeverRaisesLater(clock, b, h[..n]);
      LedgerOfRunAt(clock, b, h, n);
    } else {
      LostFirstRun(clock, b, h, n);
    }
  }

  lemma RaisingStepOffersNothing(clock: Clock, b: Bundle, r: Run)
    requires !r.fate.DiedEarly? && LastRecordCheck(clock, b.ledger).Raises?
    ensures LastRecord(Step(clock, b, r).ledger) == None
  {
    // The run dies in the reader, or does not read the ledger at all.
    assert Step(clock, b, r).ledger == Null || LastRecord(Step(clock, b, r).ledger) == None;
  }

  /** The only effective run so far met a ledger that makes the reader raise. */
  lemma LostFirstRun(clock: Clock, b: Bundle, h: seq<Run>, n: nat)
    requires n < |h| && !h[n].fate.DiedEarly? && forall k | n < k < |h| :: h[k].fate.DiedEarly?
    requires Effective(h[..n]) == [] && LastRecordCheck(clock, b.ledger).Raises?
    ensures LastRecord(RunAll(clock, b, h).ledger) == None
    ensures Offers(clock, RunAll(clock, b, h).ledger, h[n]) <==> !CleanRun(clock, h[n])
  {
    EarlyDeathsKeep(clock, b, h, n + 1);
    assert h[..n + 1][..n] == h[..n];
    OnlyEarlyDeaths(clock, b, h[..n]);
    assert RunAll(clock, b, h[..n + 1]) == Step(clock, b, h[n]);
    RaisingStepOffersNothing(clock, b, h[n]);
  }

  lemma LedgerOfRunAt(clock: Clock, b: Bundle, h: seq<Run>, n: nat)
    requires n < |h| && !h[n].fate.DiedEarly? && forall k | n < k < |h| :: h[k].fate.DiedEarly?
    requires !LastRecordCheck(clock, RunAll(clock, b, h[..n]).ledger).Raises?
    ensures Offers(clock, RunAll(clock, b, h).ledger, h[n])
  {
    assert h[..n + 1][..n] == h[..n];
    LastStepLeaves(clock, b, h[..n + 1]);
    EarlyDeathsKeep(clock, b, h, n + 1);
  }

  /** Whatever the starting ledger, once a run has been effective the ledger can be read safely. */
  lemma {:induction false} NeverRaisesLater(clock: Clock, b: Bundle, h: seq<Run>)
    requires Effective(h) != [] || !LastRecordCheck(clock, b.ledger).Raises?
    ensures !LastRecordCheck(clock, RunAll(clock, b, h).ledger).Raises?
  {
    if h == [] {
    } else {
      var init, r := h[..|h| - 1], h[|h| - 1];
      var before := RunAll(clock, b, init);
      if r.fate.DiedEarly? {
        NeverRaisesLater(clock, b, init);
      } else if LastRecordCheck(clock, before.ledger).Raises? {
        RaisingStepOffersNothing(clock, before, r);
      } else {
        StepLeaves(clock, before, r);
      }
    }
  }

  /** The two ways of comparing a previous record with this run agree. */
  lemma PairEvidence(clock: Clock, previous: Json, r: Run)
    requires RecordIsClean(clock, previous).Yes? && SameIdentity(clock, previous, r)
    requires ManifestIsClean(r.manifest).Yes? && InOrder(clock, r)
    ensures EvidenceOf(clock, [previous, RecordOf(r)])
         == Some(if r.id != "" && r.commit != "" then Evidence(true, [previous, RecordOf(r)]) else Evidence(false, []))
  {
    RecordRoundTrip(clock, r);
    RecordIdentity(r);
  }

  lemma VerdictFromLedger(clock: Clock, b: Bundle, r: Run)
    requires r.fate.Finished? && !LastRecordCheck(clock, b.ledger).Raises?
    requires !ManifestIsClean(r.manifest).Raises?
    ensures Step(clock, b, r).evidence == Some(
      if LastRecordCheck(clock, b.ledger).Yes? && CleanRun(clock, r)
         && SameIdentity(clock, LastRecord(b.ledger).value, r)
      then Evidence(true, [LastRecord(b.ledger).value, RecordOf(r)]) else Evidence(false, []))
  {
    var records := Records(clock, b.ledger, r);
    if ManifestIsClean(r.manifest).Yes? && InOrder(clock, r) && LastRecordCheck(clock, b.ledger).Yes?
       && SameIdentity(clock, LastRecord(b.ledger).value, r) {
      PairEvidence(clock, LastRecord(b.ledger).value, r);
    } else {
      assert records.Some? && |records.value| < 2;
    }
  }

  lemma IdentityOfRecord(clock: Clock, q: Run, r: Run)
    ensures SameIdentity(clock, RecordOf(q), r) <==>
      q.commit == r.commit && q.fingerprint == r.fingerprint && q.id != r.id
      && Ordered(clock, Str(q.completedAt), Str(r.startedAt))
  {
    RecordIdentity(q);
  }

  lemma CleanPredecessor(clock: Clock, b: Bundle, q: Run, r: Run)
    requires r.fate.Finished? && Completes(r) && Offers(clock, b.ledger, q) && CleanRun(clock, q)
    ensures Step(clock, b, r).evidence == Some(
      if GoodPair(clock, q, r) then Evidence(true, [RecordOf(q), RecordOf(r)]) else Evidence(false, []))
  {
    var previous := LastRecord(b.ledger).value;
    VerdictFromLedger(clock, b, r);
    IdentityOfRecord(clock, q, r);
    assert GoodPair(clock, q, r) <==> CleanRun(clock, r) && SameIdentity(clock, previous, r);
  }

  lemma UncleanPredecessor(clock: Clock, b: Bundle, q: Run, r: Run)
    requires r.fate.Finished? && Completes(r) && Offers(clock, b.ledger, q) && !CleanRun(clock, q)
    ensures Step(clock, b, r).evidence == Some(Evidence(false, []))
  {
    VerdictFromLedger(clock, b, r);
  }

  /** Whether the starting ledger can be told from the history.  With two effective runs behind it, it
      always can.  With one, it must not have cost that run its place in a good pair; with none, it must
      neither stop this run in the reader nor pair up with it. */
  predicate StartIsForgotten(clock: Clock, start: Json, h: seq<Run>, r: Run) {
    var e := Effective(h);
    var check := LastRecordCheck(clock, start);
    if |e| >= 2 then true
    else if |e| == 1 then check.Raises? ==> !GoodPair(clock, e[0], r)
    else
      && (check.Raises? ==> !(ManifestIsClean(r.manifest).Yes? && InOrder(clock, r)))
      && (check.Yes? ==> !(CleanRun(clock, r) && SameIdentity(clock, LastRecord(start).value, r)))
  }

  /** The two-record ledger publishes the verdict of a scan over the whole history, for every run that
      finishes with a manifest that can be judged, exactly when the starting ledger is forgotten. */
  lemma LedgerRefinesHistoryScan(clock: Clock, b: Bundle, h: seq<Run>, r: Run)
    requires !r.fate.DiedEarly?
    ensures RunAll(clock, b, h + [r]).evidence == Some(ScanVerdict(clock, h, r))
       <==> r.fate.Finished? && Completes(r) && StartIsForgotten(clock, b.ledger, h, r)
  {
    assert (h + [r])[..|h + [r]| - 1] == h;
    var before := RunAll(clock, b, h);
    assert RunAll(clock, b, h + [r]) == Step(clock, before, r);
    if !(r.fate.Finished? && Completes(r)) {
      UnfinishedRunPublishesNothing(clock, before, r);
    } else if Effective(h) == [] {
      OnlyEarlyDeaths(clock, b, h);
      FirstRunVerdict(clock, b, h, r);
    } else {
      LaterRunVerdict(clock, b, h, r);
    }
  }

  lemma FirstRunVerdict(clock: Clock, b: Bundle, h: seq<Run>, r: Run)
    requires r.fate.Finished? && Completes(r) && Effective(h) == []
    ensures Step(clock, b, r).evidence == Some(ScanVerdict(clock, h, r)) <==> StartIsForgotten(clock, b.ledger, h, r)
  {
    if LastRecordCheck(clock, b.ledger).Raises? {
      if !(ManifestIsClean(r.manifest).Yes? && InOrder(clock, r)) {
        assert Records(clock, b.ledger, r) == Some([]);
      }
    } else {
      VerdictFromLedger(clock, b, r);
    }
  }

  lemma LaterRunVerdict(clock: Clock, b: Bundle, h: seq<Run>, r: Run)
    requires r.fate.Finished? && Completes(r) && Effective(h) != []
    ensures Step(clock, RunAll(clock, b, h), r).evidence == Some(ScanVerdict(clock, h, r))
       <==> StartIsForgotten(clock, b.ledger, h, r)
  {
    hide Step, RunAll, LastRecordCheck, GoodPair, CleanRun, RecordOf, Completes;
    if |Effective(h)| >= 2 || !LastRecordCheck(clock, b.ledger).Raises? {
      KeptRunVerdict(clock, b, h, r);
    } else {
      LostRunVerdict(clock, b, h, r);
    }
  }

  lemma KeptRunVerdict(clock: Clock, b: Bundle, h: seq<Run>, r: Run)
    requires r.fate.Finished? && Completes(r) && Effective(h) != []
    requires |Effective(h)| >= 2 || !LastRecordCheck(clock, b.ledger).Raises?
    ensures Step(clock, RunAll(clock, b, h), r).evidence == Some(ScanVerdict(clock, h, r))
  {
    var q, before := Effective(h)[|Effective(h)| - 1], RunAll(clock, b, h);
    LedgerIsLastRun(clock, b, h);
    hide Step, RunAll, Offers, Completes, RecordOf, LastRecordCheck;
    if CleanRun(clock, q) { CleanPredecessor(clock, before, q, r); } else { UncleanPredecessor(clock, before, q, r); }
  }

  lemma LostRunVerdict(clock: Clock, b: Bundle, h: seq<Run>, r: Run)
    requires r.fate.Finished? && Completes(r) && |Effective(h)| == 1 && LastRecordCheck(clock, b.ledger).Raises?
    ensures Step(clock, RunAll(clock, b, h), r).evidence == Some(Evidence(false, []))
  {
    var n := LastEffectiveAt(h);
    var before := RunAll(clock, b, h);
    LostFirstRun(clock, b, h, n);
    assert LastRecordCheck(clock, before.ledger) == No;
    hide Step, RunAll, CleanRun;
    VerdictFromLedger(clock, before, r);
  }

  lemma {:induction false} OnlyEarlyDeaths(clock: Clock, b: Bundle, h: seq<Run>)
    requires Effective(h) == []
    ensures RunAll(clock, b, h) == b
  {
    if h == [] {
    } else {
      OnlyEarlyDeaths(clock, b, h[..|h| - 1]);
    }
  }

  /** A run that does not finish, or whose manifest cannot be judged, publishes no verdict. */
  lemma UnfinishedRunPublishesNothing(clock: Clock, b: Bundle, r: Run)
    requires !r.fate.DiedEarly? && !(r.fate.Finished? && Completes(r))
    ensures Step(clock, b, r).evidence == None
  {}

  /** The reader is meant to shrug off malformed ledgers, but a last record that is clean except for a
      truthy, non-object `teardown` makes it raise.  Such a starting ledger costs the first clean run
      its place: the pair it forms with the second run passes exactly when the reader did not raise. */
  lemma PoisonedLedgerCostsAPair(clock: Clock, b: Bundle, q: Run, r: Run)
    requires q.fate.Finished? && r.fate.Finished? && GoodPair(clock, q, r)
    ensures RunAll(clock, b, [q, r]).evidence == Some(Evidence(true, [RecordOf(q), RecordOf(r)]))
       <==> !LastRecordCheck(clock, b.ledger).Raises?
  {
    assert [q, r] == [q] + [r] && [q, r][..1] == [q] && [q][..0] == [];
    assert Effective([q]) == [q];
    LedgerRefinesHistoryScan(clock, b, [q], r);
  }

  /** Replacing `teardown` does not touch the rest of the check. */
  lemma TeardownApart(clock: Clock, fields: map<string, Json>, teardown: Json)
    ensures CleanButTeardown(clock, fields["teardown" := teardown]) == CleanButTeardown(clock, fields)
  {
    var f := fields["teardown" := teardown];
    forall k | k != "teardown" ensures Get(f, k) == Get(fields, k) {}
    assert |"teardown"| == 8 && |"failures"| == 8 && "failures"[0] == 'f';
    hide Get, Ordered, EqZero, EqEmptyList;
  }

  /** The reader raises exactly on records whose `teardown` is truthy and not an object, and which would
      be clean with a proper one in its place. */
  lemma PoisonExactly(clock: Clock, v: Json)
    ensures RecordIsClean(clock, v).Raises? <==>
      && v.Obj?
      && Truthy(Get(v.fields, "teardown")) && !Get(v.fields, "teardown").Obj?
      && RecordIsClean(clock, Obj(v.fields["teardown" := Obj(map["orphan_ports" := Obj(map[])])])).Yes?
  {
    if v.Obj? {
      var mended := Obj(map["orphan_ports" := Obj(map[])]);
      TeardownApart(clock, v.fields, mended);
      assert Get(mended.fields, "orphan_ports") == Obj(map[]);
      assert NoOrphans(v.fields["teardown" := mended]) == Yes;
      hide CleanButTeardown;
    }
  }

  /** Such ledgers exist: any record that reads as clean, with a non-empty list put in `teardown`. */
  lemma PoisonExists(clock: Clock, fields: map<string, Json>, junk: Json)
    requires RecordIsClean(clock, Obj(fields)).Yes?
    ensures RecordIsClean(clock, Obj(fields["teardown" := List([junk])])).Raises?
  {
    TeardownApart(clock, fields, List([junk]));
    assert NoOrphans(fields["teardown" := List([junk])]) == Raises;
    hide CleanButTeardown;
  }

  // ---------------------------------------------------------------------------------------------
  // The code
  // ---------------------------------------------------------------------------------------------

  class ProofRoot {
    var ledger: Json
    var evidence: Option<Evidence>

    ghost function Value(): Bundle
      reads this
    {
      Bundle(ledger, evidence)
    }

    constructor (ledger: Json)
      ensures Value() == Bundle(ledger, None)
    { this.ledger, evidence := ledger, None; }

    method Clear()
      modifies this
      ensures Value() == Bundle(Null, None)
    { ledger, evidence := Null, None; }

    /** `main`; `r` holds the facts of the run, including the point where the process dies. */
    method RunProof(clock: Clock, r: Run)
      modifies this
      ensures Value() == Step(clock, old(Value()), r)
    {
      var previous := if ledger.Obj? then ledger else Null;
      if r.fate.DiedEarly? { return; }
      Clear();
      if r.fate.DiedRunning? { return; }
      var records := Records(clock, previous, r);
      if records.None? { return; }
      var e := EvidenceOf(clock, records.value);
      if e.None? { return; }
      ledger := Ledger(records.value);
      if r.fate.DiedAfterLedger? { return; }
      evidence := e;
    }
  }
}
