/** What the backfill's three totals count: entries read, entries rewritten, files rewritten. */
module AuditTotals {
  import opened Values
  import opened AuditChain

  predicate Below(i: nat, n: nat) { i < n }

  /** The places of a list of length `n`. */
  function Indices(n: nat): set<nat> {
    set i: nat | i < n && Below(i, n)
  }

  lemma {:induction false} IndexCount(n: nat)
    ensures |Indices(n)| == n
  {
    if n == 0 {
      assert Indices(0) == {};
    } else {
      IndexCount(n - 1);
      forall i: nat ensures i in Indices(n) <==> i in Indices(n - 1) || i == n - 1 {
        assert Below(i, n) <==> Below(i, n - 1) || i == n - 1;
      }
      assert Indices(n) == Indices(n - 1) + {n - 1};
    }
  }

  /** The chosen places of the first `n` logs, each with the number of its log. */
  function Places(chosen: nat -> set<nat>, n: nat): set<(nat, nat)> {
    set k: nat, i | k < n && i in chosen(k) :: (k, i)
  }

  lemma InPlaces(chosen: nat -> set<nat>, n: nat, p: (nat, nat))
    ensures p in Places(chosen, n) <==> p.0 < n && p.1 in chosen(p.0)
  {
    if p.0 < n && p.1 in chosen(p.0) {
      assert (p.0, p.1) in Places(chosen, n);
    }
  }

  lemma {:induction false} TaggedCount(k: nat, s: set<nat>, tagged: set<(nat, nat)>)
    requires forall p :: p in tagged <==> p.0 == k && p.1 in s
    ensures |tagged| == |s|
  {
    if s == {} {
      assert tagged == {};
    } else {
      var x :| x in s;
      TaggedCount(k, s - {x}, tagged - {(k, x)});
      assert (k, x) in tagged;
    }
  }

  lemma PlacesNext(chosen: nat -> set<nat>, n: nat)
    ensures |Places(chosen, n + 1)| == |Places(chosen, n)| + |chosen(n)|
  {
    var all, before := Places(chosen, n + 1), Places(chosen, n);
    var here := all - before;
    forall p ensures (p in before ==> p in all) && (p in here <==> p.0 == n && p.1 in chosen(n)) {
      InPlaces(chosen, n + 1, p);
      InPlaces(chosen, n, p);
    }
    TaggedCount(n, chosen(n), here);
    assert all == before + here;
  }

  predicate DiffersAt(was: seq<Entry>, now: seq<Entry>, i: nat) {
    i < |was| && i < |now| && was[i] != now[i]
  }

  /** The places of a log where the backfilled one has another entry. */
  function Differing(was: seq<Entry>, now: seq<Entry>): set<nat> {
    set i: nat | i < |was| && DiffersAt(was, now, i)
  }

  /** The same, among the first `n` places. */
  function DifferingBelow(was: seq<Entry>, now: seq<Entry>, n: nat): set<nat> {
    set i: nat | i < n && DiffersAt(was, now, i)
  }

  lemma DifferingNext(was: seq<Entry>, now: seq<Entry>, n: nat)
    ensures DifferingBelow(was, now, n + 1)
         == DifferingBelow(was, now, n) + (if DiffersAt(was, now, n) then {n} else {})
  {
    hide DiffersAt;
  }

  lemma KeptExactly(h: Hashing, es: seq<Entry>, i: nat)
    requires i < |es|
    ensures Kept(h, es, i) <==> !DiffersAt(es, Chain(h, es), i)
  {
    ChainAt(h, es, |es|, i);
  }

  lemma {:induction false} ChangedCountsUpTo(h: Hashing, es: seq<Entry>, n: nat)
    requires n <= |es|
    ensures Changed(h, es, n) == |DifferingBelow(es, Chain(h, es), n)|
  {
    var now := Chain(h, es);
    hide DiffersAt, Chain, Kept;
    if n == 0 {
      assert DifferingBelow(es, now, 0) == {};
    } else {
      ChangedCountsUpTo(h, es, n - 1);
      KeptExactly(h, es, n - 1);
      DifferingNext(es, now, n - 1);
    }
  }

  /** The backfill of a log counts exactly the entries it leaves different. */
  lemma ChangedCounts(h: Hashing, es: seq<Entry>)
    ensures Changed(h, es, |es|) == |Differing(es, Chain(h, es))|
  {
    ChangedCountsUpTo(h, es, |es|);
    assert Differing(es, Chain(h, es)) == DifferingBelow(es, Chain(h, es), |es|);
  }

  /** The entries of the log at path `k`, none when there is no such log. */
  function Lines(files: map<string, Blob>, paths: seq<string>, k: nat): seq<Entry> {
    if k < |paths| && paths[k] in files && files[paths[k]].Log? then files[paths[k]].entries else []
  }

  function EntryPlaces(files: map<string, Blob>, paths: seq<string>, n: nat): set<(nat, nat)> {
    Places(k => Indices(|Lines(files, paths, k)|), n)
  }

  function ChangedPlaces(was: map<string, Blob>, now: map<string, Blob>, paths: seq<string>, n: nat): set<(nat, nat)> {
    Places(k => Differing(Lines(was, paths, k), Lines(now, paths, k)), n)
  }

  function ChangedFiles(was: map<string, Blob>, now: map<string, Blob>, paths: seq<string>, n: nat): set<nat> {
    set k: nat | k < n && Lines(now, paths, k) != Lines(was, paths, k)
  }

  lemma EntryPlacesNext(files: map<string, Blob>, paths: seq<string>, n: nat)
    ensures |EntryPlaces(files, paths, n + 1)| == |EntryPlaces(files, paths, n)| + |Lines(files, paths, n)|
  {
    hide Lines, Indices, Places;
    PlacesNext(k => Indices(|Lines(files, paths, k)|), n);
    IndexCount(|Lines(files, paths, n)|);
  }

  lemma ChangedPlacesNext(was: map<string, Blob>, now: map<string, Blob>, paths: seq<string>, n: nat)
    ensures |ChangedPlaces(was, now, paths, n + 1)|
         == |ChangedPlaces(was, now, paths, n)| + |Differing(Lines(was, paths, n), Lines(now, paths, n))|
  {
    hide Lines, Differing, Places;
    PlacesNext(k => Differing(Lines(was, paths, k), Lines(now, paths, k)), n);
  }

  lemma ChangedFilesNext(was: map<string, Blob>, now: map<string, Blob>, paths: seq<string>, n: nat)
    ensures |ChangedFiles(was, now, paths, n + 1)|
         == |ChangedFiles(was, now, paths, n)| + (if Lines(now, paths, n) != Lines(was, paths, n) then 1 else 0)
  {
    hide Lines;
    assert ChangedFiles(was, now, paths, n + 1) == ChangedFiles(was, now, paths, n)
      + (if Lines(now, paths, n) != Lines(was, paths, n) then {n} else {});
  }

  predicate AllLogs(files: map<string, Blob>, paths: seq<string>) {
    forall p <- paths :: p in files && files[p].Log?
  }

  lemma NextTotals(h: Hashing, was: map<string, Blob>, now: map<string, Blob>, paths: seq<string>, n: nat)
    requires n < |paths| && AllLogs(was, paths[..n + 1])
    requires Lines(now, paths, n) == Chain(h, Lines(was, paths, n))
    ensures AllLogs(was, paths[..n])
    ensures var t, es, fs := TotalsUpTo(h, was, paths, n), Lines(was, paths, n), Lines(now, paths, n);
      TotalsUpTo(h, was, paths, n + 1)
      == Totals(t.entries + |es|, t.changes + |Differing(es, fs)|, t.rewritten + (if fs != es then 1 else 0))
  {
    hide Changed, Chain, Differing;
    var es := Lines(was, paths, n);
    assert paths[n] in paths[..n + 1] && forall p <- paths[..n] :: p in paths[..n + 1];
    ChangedCounts(h, es);
    NoChangesMeansIntact(h, es);
  }

  /** The totals over the first `n` paths are the sizes of the three sets. */
  predicate Counted(h: Hashing, was: map<string, Blob>, now: map<string, Blob>, paths: seq<string>, n: nat) {
    && n <= |paths| && AllLogs(was, paths[..n])
    && var t := TotalsUpTo(h, was, paths, n);
    && t.entries == |EntryPlaces(was, paths, n)|
    && t.changes == |ChangedPlaces(was, now, paths, n)|
    && t.rewritten == |ChangedFiles(was, now, paths, n)|
  }

  lemma CountedNext(h: Hashing, was: map<string, Blob>, now: map<string, Blob>, paths: seq<string>, n: nat)
    requires n < |paths| && AllLogs(was, paths[..n + 1]) && Counted(h, was, now, paths, n)
    requires Lines(now, paths, n) == Chain(h, Lines(was, paths, n))
    ensures Counted(h, was, now, paths, n + 1)
  {
    hide EntryPlaces, ChangedPlaces, ChangedFiles, Differing, Chain, Lines, TotalsUpTo, AllLogs;
    NextTotals(h, was, now, paths, n);
    EntryPlacesNext(was, paths, n);
    ChangedPlacesNext(was, now, paths, n);
    ChangedFilesNext(was, now, paths, n);
  }

  lemma {:induction false} TotalsCountUpTo(h: Hashing, was: map<string, Blob>, now: map<string, Blob>,
                                           paths: seq<string>, n: nat)
    requires n <= |paths| && AllLogs(was, paths)
    requires forall k | 0 <= k < n :: Lines(now, paths, k) == Chain(h, Lines(was, paths, k))
    ensures Counted(h, was, now, paths, n)
  {
    hide Lines, Chain;
    if n == 0 {
      assert EntryPlaces(was, paths, 0) == {} && ChangedPlaces(was, now, paths, 0) == {};
      assert ChangedFiles(was, now, paths, 0) == {};
    } else {
      TotalsCountUpTo(h, was, now, paths, n - 1);
      hide Counted;
      CountedNext(h, was, now, paths, n - 1);
    }
  }

  /** A run over any paths that are all logs reports how many entries they hold, in how many places the files
      it leaves differ from those it found, and how many files differ. */
  lemma TotalsCount(h: Hashing, was: map<string, Blob>, paths: seq<string>)
    requires AllLogs(was, paths)
    ensures var now := After(h, was, paths, |paths|);
      TotalsUpTo(h, was, paths, |paths|) == Totals(
        |EntryPlaces(was, paths, |paths|)|,
        |ChangedPlaces(was, now, paths, |paths|)|,
        |ChangedFiles(was, now, paths, |paths|)|)
  {
    var now := After(h, was, paths, |paths|);
    assert paths[..|paths|] == paths;
    forall k | 0 <= k < |paths| ensures Lines(now, paths, k) == Chain(h, Lines(was, paths, k)) {
      assert paths[k] in paths;
    }
    hide After, Chain, Lines, EntryPlaces, ChangedPlaces, ChangedFiles, TotalsUpTo;
    TotalsCountUpTo(h, was, now, paths, |paths|);
  }
}
