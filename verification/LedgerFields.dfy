/** What a published PASS means, in the fields the travel proof writes and reads. */
module LedgerFields {
  import opened Values
  import opened RunLedger

  predicate Has(fields: map<string, Json>, key: string, value: Json) {
    key in fields && fields[key] == value
  }

  /** Python's `fields[key] == value`, for a key that is there. */
  predicate HasEqual(fields: map<string, Json>, key: string, value: Json) {
    key in fields && PyEq(fields[key], value)
  }

  predicate AllPass(fields: map<string, Json>) {
    && Has(fields, "live_result", Str("PASS"))
    && Has(fields, "replay_result", Str("PASS"))
    && Has(fields, "substrate_result", Str("PASS"))
    && Has(fields, "demo_result", Str("PASS"))
  }

  predicate NothingWrong(fields: map<string, Json>) {
    && Has(fields, "seller_review", Str("PENDING"))
    && HasEqual(fields, "browserErrors", List([]))
    && HasEqual(fields, "failures", List([]))
  }

  predicate NoPortsLeft(fields: map<string, Json>) {
    && "teardown" in fields && fields["teardown"].Obj?
    && HasEqual(fields["teardown"].fields, "orphan_ports", Obj(map[]))
  }

  /** The manifest of a good run: four results PASS, the review pending, no error, no failure, no event
      dropped by the browser and no port left open. */
  predicate CleanManifest(m: map<string, Json>) {
    && AllPass(m) && NothingWrong(m) && NoPortsLeft(m)
    && "live_summary" in m && m["live_summary"].Obj?
    && "browser" in m["live_summary"].fields && m["live_summary"].fields["browser"].Obj?
    && HasEqual(m["live_summary"].fields["browser"].fields, "dropped_workflow_events", Int(0))
  }

  predicate Before(clock: Clock, earlier: string, later: string) {
    clock(earlier).Some? && clock(later).Some? && clock(earlier).value < clock(later).value
  }

  /** A ledger record of a good run. */
  predicate CleanRecord(clock: Clock, f: map<string, Json>) {
    && AllPass(f) && NothingWrong(f) && NoPortsLeft(f) && HasEqual(f, "dropped_workflow_events", Int(0))
    && "run_id" in f && f["run_id"].Str? && f["run_id"].s != ""
    && "source_commit" in f && f["source_commit"].Str? && f["source_commit"].s != ""
    && "runtime_fingerprint" in f && f["runtime_fingerprint"].Obj?
    && "started_at" in f && f["started_at"].Str? && "completed_at" in f && f["completed_at"].Str?
    && Before(clock, f["started_at"].s, f["completed_at"].s)
  }

  lemma HasExactly(f: map<string, Json>, key: string, text: string)
    ensures Get(f, key) == Str(text) <==> Has(f, key, Str(text))
  {}

  lemma HasEqualExactly(f: map<string, Json>, key: string)
    ensures EqZero(Get(f, key)) <==> HasEqual(f, key, Int(0))
    ensures EqEmptyList(Get(f, key)) <==> HasEqual(f, key, List([]))
    ensures EqEmptyDict(Get(f, key)) <==> HasEqual(f, key, Obj(map[]))
  {
    LiteralComparisons(Get(f, key));
  }

  lemma ResultsExactly(f: map<string, Json>)
    ensures ResultsPass(f) <==> AllPass(f)
  {
    HasExactly(f, "live_result", "PASS");
    HasExactly(f, "replay_result", "PASS");
    HasExactly(f, "substrate_result", "PASS");
    HasExactly(f, "demo_result", "PASS");
    hide Get, Has;
  }

  lemma QuietExactly(f: map<string, Json>)
    ensures QuietRun(f) && EqEmptyList(Get(f, "failures")) <==> NothingWrong(f)
  {
    HasExactly(f, "seller_review", "PENDING");
    HasEqualExactly(f, "browserErrors");
    HasEqualExactly(f, "failures");
    hide Get, Has, HasEqual, EqEmptyList;
  }

  lemma OrphansExactly(f: map<string, Json>)
    ensures NoOrphans(f).Yes? <==> NoPortsLeft(f)
  {
    var teardown := OrEmptyDict(Get(f, "teardown"));
    if teardown.Obj? { HasEqualExactly(teardown.fields, "orphan_ports"); }
    hide EqEmptyDict, PyEq;
  }

  lemma DroppedExactly(m: map<string, Json>)
    ensures var live := OrEmptyDict(Get(m, "live_summary"));
      live.Obj? && OrEmptyDict(Get(live.fields, "browser")).Obj?
      && EqZero(Get(OrEmptyDict(Get(live.fields, "browser")).fields, "dropped_workflow_events"))
      <==>
      && "live_summary" in m && m["live_summary"].Obj?
      && "browser" in m["live_summary"].fields && m["live_summary"].fields["browser"].Obj?
      && HasEqual(m["live_summary"].fields["browser"].fields, "dropped_workflow_events", Int(0))
  {
    var live := OrEmptyDict(Get(m, "live_summary"));
    if live.Obj? && OrEmptyDict(Get(live.fields, "browser")).Obj? {
      HasEqualExactly(OrEmptyDict(Get(live.fields, "browser")).fields, "dropped_workflow_events");
    }
    hide EqZero, PyEq;
  }

  /** A manifest is clean exactly when its own fields say so. */
  lemma ManifestExactly(m: map<string, Json>)
    ensures ManifestIsClean(m).Yes? <==> CleanManifest(m)
  {
    ResultsExactly(m);
    QuietExactly(m);
    OrphansExactly(m);
    DroppedExactly(m);
    hide ResultsPass, AllPass, QuietRun, NothingWrong, NoOrphans, NoPortsLeft, EqZero, EqEmptyList, HasEqual;
  }

  lemma IdentityExactly(clock: Clock, f: map<string, Json>)
    ensures
      && Get(f, "run_id").Str? && Get(f, "run_id").s != ""
      && Ordered(clock, Get(f, "started_at"), Get(f, "completed_at"))
      && Get(f, "source_commit").Str? && Get(f, "source_commit").s != ""
      && Get(f, "runtime_fingerprint").Obj?
      <==>
      && "run_id" in f && f["run_id"].Str? && f["run_id"].s != ""
      && "source_commit" in f && f["source_commit"].Str? && f["source_commit"].s != ""
      && "runtime_fingerprint" in f && f["runtime_fingerprint"].Obj?
      && "started_at" in f && f["started_at"].Str? && "completed_at" in f && f["completed_at"].Str?
      && Before(clock, f["started_at"].s, f["completed_at"].s)
  {}

  /** A record is clean exactly when its own fields say so. */
  lemma RecordExactly(clock: Clock, v: Json)
    ensures RecordIsClean(clock, v).Yes? <==> v.Obj? && CleanRecord(clock, v.fields)
  {
    if v.Obj? {
      ResultsExactly(v.fields);
      QuietExactly(v.fields);
      OrphansExactly(v.fields);
      HasEqualExactly(v.fields, "dropped_workflow_events");
      IdentityExactly(clock, v.fields);
      hide ResultsPass, AllPass, QuietRun, NothingWrong, NoOrphans, NoPortsLeft, EqZero, EqEmptyList, EqEmptyDict,
        HasEqual, Get, Ordered, Before;
    }
  }

  // ---------------------------------------------------------------------------------------------
  // A published pair
  // ---------------------------------------------------------------------------------------------

  /** Two good records of one commit and one fingerprint, with different ids, the first complete strictly
      before the second starts. */
  predicate CleanPair(clock: Clock, a: map<string, Json>, b: map<string, Json>) {
    && CleanRecord(clock, a) && CleanRecord(clock, b)
    && a["source_commit"] == b["source_commit"]
    && a["runtime_fingerprint"] == b["runtime_fingerprint"]
    && a["run_id"] != b["run_id"]
    && Before(clock, a["completed_at"].s, b["started_at"].s)
  }

  lemma EvidenceMeaning(clock: Clock, records: seq<Json>, pair: seq<Json>)
    requires EvidenceOf(clock, records) == Some(Evidence(true, pair))
    ensures pair == records && |pair| == 2 && pair[0].Obj? && pair[1].Obj?
    ensures CleanPair(clock, pair[0].fields, pair[1].fields)
  {
    RecordExactly(clock, records[0]);
    RecordExactly(clock, records[1]);
    hide RecordIsClean, AllPass, NothingWrong, NoPortsLeft, HasEqual;
  }

  /** Whatever the ledger was at the start, a PASS published at any point of any history shows a clean pair. */
  lemma {:induction false} PublishedPairIsClean(clock: Clock, b: Bundle, h: seq<Run>, pair: seq<Json>)
    requires b.evidence == None && RunAll(clock, b, h).evidence == Some(Evidence(true, pair))
    ensures |pair| == 2 && pair[0].Obj? && pair[1].Obj? && CleanPair(clock, pair[0].fields, pair[1].fields)
  {
    hide CleanPair, EvidenceOf, Records;
    if h == [] {
      assert false;
    } else {
      var init, r := h[..|h| - 1], h[|h| - 1];
      if r.fate.DiedEarly? {
        PublishedPairIsClean(clock, b, init, pair);
      } else {
        EvidenceMeaning(clock, Records(clock, RunAll(clock, b, init).ledger, r).value, pair);
      }
    }
  }

  /** A run good enough to be one of the two. */
  predicate GoodRun(clock: Clock, r: Run) {
    && (r.fate.Finished? || r.fate.DiedAfterLedger?)
    && CleanManifest(r.manifest) && Before(clock, r.startedAt, r.completedAt) && r.id != "" && r.commit != ""
  }

  lemma GoodRunExactly(clock: Clock, r: Run)
    ensures CleanRun(clock, r) <==> GoodRun(clock, r)
  {
    ManifestExactly(r.manifest);
    hide ManifestIsClean, CleanManifest;
  }

  /** From an empty directory, the last run of a history publishes PASS exactly when it finished, it and the
      last run before it that did not die early are good, share commit and fingerprint, have different ids,
      and the earlier was complete strictly before the later started. */
  lemma PassExactly(clock: Clock, h: seq<Run>, r: Run)
    requires !r.fate.DiedEarly?
    ensures var published := RunAll(clock, Bundle(Null, None), h + [r]).evidence;
      published.Some? && published.value.pass <==>
        && r.fate.Finished? && Effective(h) != []
        && var q := Effective(h)[|Effective(h)| - 1];
        && GoodRun(clock, q) && GoodRun(clock, r)
        && q.commit == r.commit && q.fingerprint == r.fingerprint && q.id != r.id
        && Before(clock, q.completedAt, r.startedAt)
  {
    var start := Bundle(Null, None);
    assert (h + [r])[..|h + [r]| - 1] == h;
    GoodRunExactly(clock, r);
    if Effective(h) != [] { GoodRunExactly(clock, Effective(h)[|Effective(h)| - 1]); }
    assert LastRecordCheck(clock, start.ledger) == No;
    hide RunAll, Effective, LastRecordCheck, ManifestIsClean, CleanManifest, RecordOf, Step, GoodRun;
    LedgerRefinesHistoryScan(clock, start, h, r);
    if !(r.fate.Finished? && Completes(r)) {
      UnfinishedPublishesNothing(clock, start, h, r);
    }
  }

  lemma UnfinishedPublishesNothing(clock: Clock, b: Bundle, h: seq<Run>, r: Run)
    requires !r.fate.DiedEarly? && !(r.fate.Finished? && Completes(r))
    ensures RunAll(clock, b, h + [r]).evidence == None
  {
    assert (h + [r])[..|h + [r]| - 1] == h;
    UnfinishedRunPublishesNothing(clock, RunAll(clock, b, h), r);
  }

  /** A ledger of another vertical, or anything that is no ledger at all, is as good as none. */
  lemma ForeignLedgerIgnored(clock: Clock, ledger: Json, published: Option<Evidence>, r: Run)
    requires !r.fate.DiedEarly?
    requires ledger.Obj? ==> !Has(ledger.fields, "vertical", Str("travel"))
    ensures Step(clock, Bundle(ledger, published), r) == Step(clock, Bundle(Null, None), r)
  {
    if ledger.Obj? { HasExactly(ledger.fields, "vertical", "travel"); }
    assert LastRecord(ledger) == None == LastRecord(Null);
    hide RecordIsClean, ManifestIsClean, EvidenceOf;
  }
}
