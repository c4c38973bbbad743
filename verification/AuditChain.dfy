/** The audit hash chain: the backfill script rewrites any log into the one valid chain over its
    payloads, and the logger's own verifier accepts exactly such chains. */
module AuditChain {
  import opened Values

  type Entry = map<string, Json>

  /** The digest and the hash the first entry must name: SHA-256 over canonical JSON and sixty-four
      zeros in the system; nothing below depends on which. */
  datatype Hashing = Hashing(digest: Entry -> string, genesis: string)

  const PREV := "prev_hash"
  const HASH := "entry_hash"

  /** `_canonical_entry_hash`: everything but the entry's own hash. */
  function Canonical(h: Hashing, e: Entry): string { h.digest(e - {HASH}) }

  function Payload(e: Entry): Entry { e - {PREV, HASH} }

  /** The entry as the backfill rewrites it after hash `prev`. */
  function Seal(h: Hashing, e: Entry, prev: string): Entry {
    var linked := e[PREV := Str(prev)];
    linked[HASH := Str(Canonical(h, linked))]
  }

  /** The hash the chain has reached after the first `n` entries. */
  function HashAfter(h: Hashing, es: seq<Entry>, n: nat): string
    requires n <= |es|
  {
    if n == 0 then h.genesis else Canonical(h, es[n - 1][PREV := Str(HashAfter(h, es, n - 1))])
  }

  function TailHash(h: Hashing, es: seq<Entry>): string { HashAfter(h, es, |es|) }

  /** Entry `i` as the backfill rewrites it. */
  function Sealed(h: Hashing, es: seq<Entry>, i: nat): Entry
    requires i < |es|
  {
    Seal(h, es[i], HashAfter(h, es, i))
  }

  function ChainUpTo(h: Hashing, es: seq<Entry>, n: nat): (c: seq<Entry>)
    requires n <= |es|
    ensures |c| == n
  {
    if n == 0 then [] else ChainUpTo(h, es, n - 1) + [Sealed(h, es, n - 1)]
  }

  function Chain(h: Hashing, es: seq<Entry>): seq<Entry> { ChainUpTo(h, es, |es|) }

  lemma {:induction false} ChainAt(h: Hashing, es: seq<Entry>, n: nat, i: nat)
    requires i < n <= |es|
    ensures ChainUpTo(h, es, n)[i] == Sealed(h, es, i)
  {
    if i == n - 1 {
    } else {
      ChainAt(h, es, n - 1, i);
    }
  }

  /** The backfill would leave entry `i` as it is. */
  predicate Kept(h: Hashing, es: seq<Entry>, i: nat)
    requires i < |es|
  {
    Sealed(h, es, i) == es[i]
  }

  // ---------------------------------------------------------------------------------------------
  // The verifier
  // ---------------------------------------------------------------------------------------------

  /** Entry `i` names its predecessor's stored hash and stores its own. */
  predicate GoodAt(h: Hashing, es: seq<Entry>, i: nat)
    requires i < |es|
  {
    && Get(es[i], PREV) == (if i == 0 then Str(h.genesis) else Get(es[i - 1], HASH))
    && Get(es[i], HASH) == Str(Canonical(h, es[i]))
  }

  ghost predicate IntactUpTo(h: Hashing, es: seq<Entry>, n: nat)
    requires n <= |es|
  {
    forall i | 0 <= i < n :: GoodAt(h, es, i)
  }

  ghost predicate Intact(h: Hashing, es: seq<Entry>) { IntactUpTo(h, es, |es|) }

  /** `verify_chain`: the index of the first bad entry, or nothing. */
  method VerifyChain(h: Hashing, es: seq<Entry>) returns (brokenAt: Option<nat>)
    ensures brokenAt.None? <==> Intact(h, es)
    ensures brokenAt.Some? ==>
      brokenAt.value < |es| && !GoodAt(h, es, brokenAt.value) && IntactUpTo(h, es, brokenAt.value)
  {
    var expected := Str(h.genesis);
    for i := 0 to |es|
      invariant expected == if i == 0 then Str(h.genesis) else Get(es[i - 1], HASH)
      invariant IntactUpTo(h, es, i)
    {
      assert es[i][HASH := Null] - {HASH} == es[i] - {HASH};
      if Get(es[i], PREV) != expected || Get(es[i], HASH) != Str(Canonical(h, es[i][HASH := Null])) {
        assert !GoodAt(h, es, i);
        return Some(i);
      }
      expected := Get(es[i], HASH);
    }
    brokenAt := None;
  }

  // ---------------------------------------------------------------------------------------------
  // Backfill produces the one valid chain
  // ---------------------------------------------------------------------------------------------

  lemma SealFacts(h: Hashing, e: Entry, prev: string)
    ensures var s := Seal(h, e, prev);
      && Get(s, PREV) == Str(prev)
      && Canonical(h, s) == Canonical(h, e[PREV := Str(prev)])
      && Get(s, HASH) == Str(Canonical(h, s)) && Payload(s) == Payload(e)
  {
    var linked := e[PREV := Str(prev)];
    assert linked[HASH := Str(Canonical(h, linked))] - {HASH} == linked - {HASH};
  }

  ghost predicate SamePayloads(es: seq<Entry>, fs: seq<Entry>) {
    |es| == |fs| && forall i {:trigger Payload(es[i])} {:trigger Payload(fs[i])} | 0 <= i < |es| ::
      Payload(es[i]) == Payload(fs[i])
  }

  lemma SealedStoresHash(h: Hashing, es: seq<Entry>, i: nat)
    requires i < |es|
    ensures var s := Sealed(h, es, i);
      && Get(s, PREV) == Str(HashAfter(h, es, i)) && Payload(s) == Payload(es[i])
      && Get(s, HASH) == Str(Canonical(h, s)) == Str(HashAfter(h, es, i + 1))
  {
    SealFacts(h, es[i], HashAfter(h, es, i));
  }

  lemma SealedIsGood(h: Hashing, es: seq<Entry>, i: nat)
    requires i < |es|
    ensures GoodAt(h, Chain(h, es), i) && Payload(Chain(h, es)[i]) == Payload(es[i])
  {
    ChainAt(h, es, |es|, i);
    SealedStoresHash(h, es, i);
    if i > 0 {
      ChainAt(h, es, |es|, i - 1);
      SealedStoresHash(h, es, i - 1);
    }
  }

  lemma BackfilledIsIntact(h: Hashing, es: seq<Entry>)
    ensures Intact(h, Chain(h, es)) && SamePayloads(Chain(h, es), es)
  {
    forall i | 0 <= i < |es| ensures GoodAt(h, Chain(h, es), i) && Payload(Chain(h, es)[i]) == Payload(es[i]) {
      SealedIsGood(h, es, i);
    }
  }

  /** The same in the stored fields: each entry names the hash stored before it, stores the digest of
      everything but that digest, and carries the payload it had. */
  lemma BackfilledFields(h: Hashing, es: seq<Entry>, i: nat)
    requires i < |es|
    ensures var c := Chain(h, es);
      && "prev_hash" in c[i] && "entry_hash" in c[i]
      && c[i]["prev_hash"] == (if i == 0 then Str(h.genesis) else Get(c[i - 1], "entry_hash"))
      && c[i]["entry_hash"] == Str(h.digest(c[i] - {"entry_hash"}))
      && c[i] - {"prev_hash", "entry_hash"} == es[i] - {"prev_hash", "entry_hash"}
  {
    BackfilledIsIntact(h, es);
    var c := Chain(h, es);
    assert GoodAt(h, c, i) && Payload(c[i]) == Payload(es[i]);
    if i > 0 { assert GoodAt(h, c, i - 1); }
    hide Chain;
  }

  lemma GoodIsKept(h: Hashing, es: seq<Entry>, m: nat)
    requires m < |es| && GoodAt(h, es, m)
    requires (if m == 0 then Str(h.genesis) else Get(es[m - 1], HASH)) == Str(HashAfter(h, es, m))
    ensures Kept(h, es, m) && Get(es[m], HASH) == Str(HashAfter(h, es, m + 1))
  {
    assert es[m][PREV := Str(HashAfter(h, es, m))] == es[m];
    assert es[m][HASH := Str(Canonical(h, es[m]))] == es[m];
  }

  /** Wherever the chain is good it stores the running hash, and the backfill rewrites nothing. */
  lemma {:induction false} IntactStoresHash(h: Hashing, es: seq<Entry>, n: nat)
    requires n <= |es| && IntactUpTo(h, es, n)
    ensures (if n == 0 then Str(h.genesis) else Get(es[n - 1], HASH)) == Str(HashAfter(h, es, n))
    ensures forall i | 0 <= i < n :: Kept(h, es, i)
  {
    if n == 0 {
    } else {
      IntactStoresHash(h, es, n - 1);
      GoodIsKept(h, es, n - 1);
    }
  }

  lemma AllKept(h: Hashing, es: seq<Entry>)
    ensures Chain(h, es) == es <==> forall i | 0 <= i < |es| :: Kept(h, es, i)
  {
    forall i | 0 <= i < |es| ensures Kept(h, es, i) <==> Chain(h, es)[i] == es[i] { ChainAt(h, es, |es|, i); }
  }

  /** The valid chains are exactly the fixed points of the backfill. */
  lemma IntactIsFixedPoint(h: Hashing, es: seq<Entry>)
    ensures Intact(h, es) <==> Chain(h, es) == es
  {
    BackfilledIsIntact(h, es);
    AllKept(h, es);
    if Intact(h, es) { IntactStoresHash(h, es, |es|); }
  }

  lemma SamePayloadSameLink(e: Entry, f: Entry, prev: string)
    requires Payload(e) == Payload(f)
    ensures e[PREV := Str(prev)] - {HASH} == f[PREV := Str(prev)] - {HASH}
  {
    forall k | k !in {PREV, HASH} ensures k in e <==> k in f {
      assert k in e <==> k in Payload(e);
      assert k in f <==> k in Payload(f);
    }
    forall k | k in e && k !in {PREV, HASH} ensures e[k] == f[k] {
      assert e[k] == Payload(e)[k] && f[k] == Payload(f)[k];
    }
  }

  lemma {:induction false} HashOfPayloads(h: Hashing, es: seq<Entry>, fs: seq<Entry>, n: nat)
    requires SamePayloads(es, fs) && n <= |es|
    ensures HashAfter(h, es, n) == HashAfter(h, fs, n)
  {
    if n == 0 {
    } else {
      HashOfPayloads(h, es, fs, n - 1);
      SamePayloadSameLink(es[n - 1], fs[n - 1], HashAfter(h, es, n - 1));
    }
  }

  lemma SamePayloadSameSeal(h: Hashing, e: Entry, f: Entry, prev: string)
    requires Payload(e) == Payload(f)
    ensures Seal(h, e, prev) == Seal(h, f, prev)
  {
    SamePayloadSameLink(e, f, prev);
    var a, b := e[PREV := Str(prev)], f[PREV := Str(prev)];
    var mark := Str(Canonical(h, a));
    assert a[HASH := mark] == (a - {HASH})[HASH := mark];
    assert b[HASH := mark] == (b - {HASH})[HASH := mark];
  }

  /** The result depends on the payload sequence alone, whatever hashes the log carried before. */
  lemma ChainDependsOnPayloads(h: Hashing, es: seq<Entry>, fs: seq<Entry>)
    requires SamePayloads(es, fs)
    ensures Chain(h, es) == Chain(h, fs)
  {
    forall i | 0 <= i < |es| ensures Chain(h, es)[i] == Chain(h, fs)[i] {
      ChainAt(h, es, |es|, i);
      ChainAt(h, fs, |fs|, i);
      HashOfPayloads(h, es, fs, i);
      SamePayloadSameSeal(h, es[i], fs[i], HashAfter(h, es, i));
    }
  }

  lemma BackfillIdempotent(h: Hashing, es: seq<Entry>)
    ensures Chain(h, Chain(h, es)) == Chain(h, es)
  {
    BackfilledIsIntact(h, es);
    IntactIsFixedPoint(h, Chain(h, es));
  }

  /** Any two valid chains over the same payloads are the same chain. */
  lemma OneValidChain(h: Hashing, es: seq<Entry>, fs: seq<Entry>)
    requires Intact(h, es) && Intact(h, fs) && SamePayloads(es, fs)
    ensures es == fs
  {
    ChainDependsOnPayloads(h, es, fs);
    IntactIsFixedPoint(h, es);
    IntactIsFixedPoint(h, fs);
  }

  /** Everything before the entry the verifier complains about is left as it was, and that entry is
      rewritten. */
  lemma ValidPrefixUntouched(h: Hashing, es: seq<Entry>, k: nat)
    requires k < |es| && IntactUpTo(h, es, k) && !GoodAt(h, es, k)
    ensures Chain(h, es)[..k] == es[..k] && Chain(h, es)[k] != es[k]
  {
    IntactStoresHash(h, es, k);
    forall i | 0 <= i < k ensures Chain(h, es)[i] == es[i] { ChainAt(h, es, |es|, i); assert Kept(h, es, i); }
    ChainAt(h, es, |es|, k);
    SealedStoresHash(h, es, k);
  }

  lemma {:induction false} ChainOfPrefix(h: Hashing, es: seq<Entry>, more: seq<Entry>, n: nat)
    requires n <= |es|
    ensures HashAfter(h, es + more, n) == HashAfter(h, es, n)
    ensures ChainUpTo(h, es + more, n) == ChainUpTo(h, es, n)
  {
    if n == 0 {
    } else {
      ChainOfPrefix(h, es, more, n - 1);
    }
  }

  /** The live logger appends exactly what a backfill of the longer log would write. */
  lemma AppendingKeepsIntact(h: Hashing, es: seq<Entry>, e: Entry)
    requires Intact(h, es)
    ensures Chain(h, es + [e]) == es + [Seal(h, e, TailHash(h, es))]
    ensures Intact(h, es + [Seal(h, e, TailHash(h, es))])
  {
    IntactIsFixedPoint(h, es);
    ChainOfPrefix(h, es, [e], |es|);
    BackfilledIsIntact(h, es + [e]);
  }

  // ---------------------------------------------------------------------------------------------
  // Tamper evidence
  // ---------------------------------------------------------------------------------------------

  /** Two different contents with one digest. */
  predicate Collide(h: Hashing, a: Entry, b: Entry) {
    a != b && h.digest(a) == h.digest(b)
  }

  /** The hashed contents of two logs collide at one place. */
  ghost predicate Collision(h: Hashing, es: seq<Entry>, fs: seq<Entry>, n: nat)
    requires n <= |es| && n <= |fs|
  {
    exists i :: 0 <= i < n && Collide(h, es[i] - {HASH}, fs[i] - {HASH})
  }

  /** Two good stretches of equal length that store the same last hash are equal entry by entry, or show
      a collision of the digest. */
  lemma {:induction false} LastHashDeterminesPrefix(h: Hashing, es: seq<Entry>, fs: seq<Entry>, n: nat)
    requires n <= |es| && n <= |fs| && IntactUpTo(h, es, n) && IntactUpTo(h, fs, n)
    requires n > 0 ==> Get(es[n - 1], HASH) == Get(fs[n - 1], HASH)
    ensures es[..n] == fs[..n] || Collision(h, es, fs, n)
  {
    if n == 0 {
    } else {
      var m := n - 1;
      assert GoodAt(h, es, m) && GoodAt(h, fs, m);
      if !Collide(h, es[m] - {HASH}, fs[m] - {HASH}) {
        assert es[m] - {HASH} == fs[m] - {HASH};
        SameLink(es[m], fs[m]);
        LastHashDeterminesPrefix(h, es, fs, m);
        assert es[..n] == es[..m] + [es[m]] && fs[..n] == fs[..m] + [fs[m]];
      }
    }
  }

  lemma SameLink(e: Entry, f: Entry)
    requires e - {HASH} == f - {HASH} && HASH in e && HASH in f && e[HASH] == f[HASH]
    ensures e == f && Get(e, PREV) == Get(f, PREV)
  {
    assert e == (e - {HASH})[HASH := e[HASH]];
    assert f == (f - {HASH})[HASH := f[HASH]];
  }

  /** The last hash pins down a whole valid chain of a given length, exactly up to collisions between what
      the two logs hash at the same place. */
  lemma LastHashDeterminesChain(h: Hashing, es: seq<Entry>, fs: seq<Entry>)
    requires Intact(h, es) && Intact(h, fs) && |es| == |fs| > 0
    requires Get(es[|es| - 1], HASH) == Get(fs[|fs| - 1], HASH)
    ensures es == fs <==> !Collision(h, es, fs, |es|)
  {
    LastHashDeterminesPrefix(h, es, fs, |es|);
    assert es[..|es|] == es && fs[..|fs|] == fs;
  }

  lemma ChainStoresTail(h: Hashing, es: seq<Entry>)
    requires es != []
    ensures Get(Chain(h, es)[|es| - 1], HASH) == Str(TailHash(h, es))
  {
    SealedStoresHash(h, es, |es| - 1);
  }

  /** Edit, swap or replace any payload and reseal: the final hash moves, unless the edit hits a collision.
      So the payloads are the same exactly when the final hash is and the resealed logs show none. */
  lemma EditMovesFinalHash(h: Hashing, es: seq<Entry>, fs: seq<Entry>)
    requires |es| == |fs|
    ensures SamePayloads(es, fs) <==>
      TailHash(h, es) == TailHash(h, fs) && !Collision(h, Chain(h, es), Chain(h, fs), |es|)
  {
    if SamePayloads(es, fs) {
      HashOfPayloads(h, es, fs, |es|);
      ChainDependsOnPayloads(h, es, fs);
    } else if TailHash(h, es) == TailHash(h, fs) {
      ChainStoresTail(h, es);
      ChainStoresTail(h, fs);
      BackfilledIsIntact(h, es);
      BackfilledIsIntact(h, fs);
      LastHashDeterminesChain(h, Chain(h, es), Chain(h, fs));
      if Chain(h, es) == Chain(h, fs) { PayloadsThrough(es, Chain(h, es), fs); }
    }
  }

  lemma PayloadsThrough(es: seq<Entry>, c: seq<Entry>, fs: seq<Entry>)
    requires SamePayloads(c, es) && SamePayloads(c, fs)
    ensures SamePayloads(es, fs)
  {
    forall i | 0 <= i < |es| ensures Payload(es[i]) == Payload(fs[i]) { assert Payload(c[i]) == Payload(es[i]); }
  }

  /** What the chain hashes at place `i`. */
  function Linked(h: Hashing, es: seq<Entry>, i: nat): Entry
    requires i < |es|
  {
    es[i][PREV := Str(HashAfter(h, es, i))] - {HASH}
  }

  /** The chain over the first `n` entries comes back to the hash it started from. */
  ghost predicate Returns(h: Hashing, es: seq<Entry>, n: nat)
    requires n <= |es|
  {
    exists i :: 1 <= i <= n && HashAfter(h, es, i) == h.genesis
  }

  /** Something hashed in one chain collides with something hashed in the other, anywhere. */
  ghost predicate CrossCollision(h: Hashing, es: seq<Entry>, n: nat, fs: seq<Entry>, m: nat)
    requires n <= |es| && m <= |fs|
  {
    exists i, j :: 0 <= i < n && 0 <= j < m && Collide(h, Linked(h, es, i), Linked(h, fs, j))
  }

  /** Dropping entries from the front or the back cannot go unnoticed either: chains of different lengths
      never end in the same hash, unless the digest collides or produces the genesis value. */
  lemma {:induction false} LengthIsPinned(h: Hashing, es: seq<Entry>, n: nat, fs: seq<Entry>, m: nat)
    requires n <= |es| && m <= |fs| && HashAfter(h, es, n) == HashAfter(h, fs, m)
    ensures n == m || CrossCollision(h, es, n, fs, m) || Returns(h, es, n) || Returns(h, fs, m)
  {
    if n == 0 || m == 0 {
    } else {
      var x, y := Linked(h, es, n - 1), Linked(h, fs, m - 1);
      if !Collide(h, x, y) {
        assert x[PREV] == Str(HashAfter(h, es, n - 1)) && y[PREV] == Str(HashAfter(h, fs, m - 1));
        LengthIsPinned(h, es, n - 1, fs, m - 1);
      }
    }
  }

  // ---------------------------------------------------------------------------------------------
  // The script
  // ---------------------------------------------------------------------------------------------

  /** How many of the first `n` entries the backfill has to rewrite. */
  function Changed(h: Hashing, es: seq<Entry>, n: nat): nat
    requires n <= |es|
  {
    if n == 0 then 0 else Changed(h, es, n - 1) + (if Kept(h, es, n - 1) then 0 else 1)
  }

  /** The script reports no change exactly for the logs the verifier accepts. */
  lemma NoChangesMeansIntact(h: Hashing, es: seq<Entry>)
    ensures Changed(h, es, |es|) == 0 <==> Intact(h, es)
    ensures Changed(h, es, |es|) == 0 <==> Chain(h, es) == es
  {
    ChangedZero(h, es, |es|);
    AllKept(h, es);
    IntactIsFixedPoint(h, es);
  }

  lemma {:induction false} ChangedZero(h: Hashing, es: seq<Entry>, n: nat)
    requires n <= |es|
    ensures Changed(h, es, n) == 0 <==> forall i | 0 <= i < n :: Kept(h, es, i)
  {
    if n == 0 {
    } else {
      ChangedZero(h, es, n - 1);
    }
  }

  /** The script's change test is whether the entry differs from its rewritten form. */
  lemma SealedUnchanged(h: Hashing, e: Entry, prev: string)
    ensures Seal(h, e, prev) == e <==>
      Get(e, PREV) == Str(prev) && Get(e, HASH) == Str(Canonical(h, e[PREV := Str(prev)]))
  {}

  lemma ReplaceNext(done: seq<Entry>, rest: seq<Entry>, e: Entry)
    requires rest != []
    ensures (done + rest)[|done|] == rest[0] && (done + rest)[|done| := e] == (done + [e]) + rest[1..]
  {}

  /** One turn of the chain loop, between the entries already rewritten and those still to come. */
  method Reseal(h: Hashing, entries: array<Entry>, i: nat, expected: string,
                ghost done: seq<Entry>, ghost rest: seq<Entry>)
    returns (recomputed: string, changed: bool)
    requires i < entries.Length && i == |done| && entries[..] == done + rest
    modifies entries
    ensures entries[..] == (done + [Seal(h, rest[0], expected)]) + rest[1..]
    ensures recomputed == Canonical(h, rest[0][PREV := Str(expected)])
    ensures changed <==> Seal(h, rest[0], expected) != rest[0]
  {
    ReplaceNext(done, rest, Seal(h, rest[0], expected));
    assert entries[i] == entries[..][i] == rest[0];
    SealedUnchanged(h, entries[i], expected);
    var priorPrev, priorHash := Get(entries[i], PREV), Get(entries[i], HASH);
    entries[i] := entries[i][PREV := Str(expected)];
    recomputed := Canonical(h, entries[i]);
    entries[i] := entries[i][HASH := Str(recomputed)];
    changed := priorPrev != Str(expected) || priorHash != Str(recomputed);
    assert entries[..] == (done + rest)[i := Seal(h, rest[0], expected)];
  }

  /** The chain loop of `_backfill_blob`, over the entries in place. */
  method ChainInPlace(h: Hashing, entries: array<Entry>) returns (changes: nat)
    modifies entries
    ensures entries[..] == Chain(h, old(entries[..]))
    ensures changes == Changed(h, old(entries[..]), entries.Length)
  {
    ghost var was := entries[..];
    var expected := h.genesis;
    changes := 0;
    for i := 0 to entries.Length
      invariant expected == HashAfter(h, was, i)
      invariant entries[..] == ChainUpTo(h, was, i) + was[i..]
      invariant changes == Changed(h, was, i)
    {
      var recomputed, changed := Reseal(h, entries, i, expected, ChainUpTo(h, was, i), was[i..]);
      NextEntry(h, was, i);
      if changed { changes := changes + 1; }
      expected := recomputed;
    }
  }

  lemma NextEntry(h: Hashing, es: seq<Entry>, i: nat)
    requires i < |es|
    ensures es[i..][0] == es[i] && es[i..][1..] == es[i + 1..]
    ensures HashAfter(h, es, i + 1) == Canonical(h, es[i][PREV := Str(HashAfter(h, es, i))])
    ensures ChainUpTo(h, es, i + 1) == ChainUpTo(h, es, i) + [Seal(h, es[i], HashAfter(h, es, i))]
    ensures Changed(h, es, i + 1) ==
      Changed(h, es, i) + (if Seal(h, es[i], HashAfter(h, es, i)) == es[i] then 0 else 1)
  {}

  /** A ledger file: some line is not a JSON object, or a list of entries. */
  datatype Blob = Malformed | Log(entries: seq<Entry>)

  datatype Totals = Totals(entries: nat, changes: nat, rewritten: nat)

  /** The files after the first `n` paths have been processed. */
  function After(h: Hashing, files: map<string, Blob>, paths: seq<string>, n: nat): map<string, Blob>
    requires n <= |paths|
  {
    map p | p in files :: if p in paths[..n] && files[p].Log? then Log(Chain(h, files[p].entries)) else files[p]
  }

  lemma AfterNext(h: Hashing, files: map<string, Blob>, paths: seq<string>, n: nat)
    requires n < |paths| && paths[n] in files && paths[n] !in paths[..n] && files[paths[n]].Log?
    ensures After(h, files, paths, n)[paths[n]] == files[paths[n]]
    ensures After(h, files, paths, n + 1)
         == After(h, files, paths, n)[paths[n] := Log(Chain(h, files[paths[n]].entries))]
  {
    assert paths[..n + 1] == paths[..n] + [paths[n]];
  }

  function TotalsUpTo(h: Hashing, files: map<string, Blob>, paths: seq<string>, n: nat): Totals
    requires n <= |paths| && forall p <- paths[..n] :: p in files && files[p].Log?
  {
    if n == 0 then Totals(0, 0, 0)
    else
      assert forall p <- paths[..n - 1] :: p in paths[..n];
      assert paths[n - 1] in paths[..n];
      var t, es := TotalsUpTo(h, files, paths, n - 1), files[paths[n - 1]].entries;
      var c := Changed(h, es, |es|);
      Totals(t.entries + |es|, t.changes + c, t.rewritten + (if c == 0 then 0 else 1))
  }

  lemma TotalsNext(h: Hashing, files: map<string, Blob>, paths: seq<string>, n: nat)
    requires n < |paths| && forall p <- paths[..n] :: p in files && files[p].Log?
    requires paths[n] in files && files[paths[n]].Log?
    ensures forall p <- paths[..n + 1] :: p in files && files[p].Log?
    ensures var t, es := TotalsUpTo(h, files, paths, n), files[paths[n]].entries;
      var c := Changed(h, es, |es|);
      TotalsUpTo(h, files, paths, n + 1)
      == Totals(t.entries + |es|, t.changes + c, t.rewritten + (if c == 0 then 0 else 1))
  {
    assert paths[..n + 1] == paths[..n] + [paths[n]];
  }

  lemma NothingDone(h: Hashing, files: map<string, Blob>, paths: seq<string>)
    ensures After(h, files, paths, 0) == files && TotalsUpTo(h, files, paths, 0) == Totals(0, 0, 0)
  {
    assert paths[..0] == [];
  }

  lemma NotYetDone(paths: seq<string>, n: nat)
    requires n < |paths| && forall i, j | 0 <= i < j < |paths| :: paths[i] != paths[j]
    ensures paths[n] in paths && paths[n] !in paths[..n]
  {
  }

  class LedgerRoot {
    var files: map<string, Blob>

    constructor (files: map<string, Blob>)
      ensures this.files == files
    { this.files := files; }

    /** `_backfill_blob`; nothing is returned when a line does not parse. */
    method BackfillBlob(h: Hashing, path: string, dryRun: bool) returns (r: Option<(nat, nat)>)
      requires path in files
      modifies this
      ensures path in files && (r.None? <==> old(files)[path].Malformed?)
      ensures r.None? ==> files == old(files)
      ensures r.Some? ==>
        var es := old(files[path]).entries;
        r.value == (|es|, Changed(h, es, |es|))
        && files == if dryRun then old(files) else old(files)[path := Log(Chain(h, es))]
    {
      if files[path].Malformed? { return None; }
      var es := files[path].entries;
      var entries := new Entry[|es|](i requires 0 <= i < |es| => es[i]);
      assert entries[..] == es;
      var changes := ChainInPlace(h, entries);
      if changes == 0 {
        NoChangesMeansIntact(h, es);
        assert files == files[path := Log(es)];
        return Some((|es|, 0));
      }
      if !dryRun { files := files[path := Log(entries[..])]; }
      r := Some((|es|, changes));
    }

    /** One turn of the loop in `main`, with its running totals. */
    method BackfillNext(h: Hashing, paths: seq<string>, dryRun: bool, n: nat, t: Totals, ghost was: map<string, Blob>)
      returns (next: Option<Totals>)
      requires n < |paths| && paths[n] in was && paths[n] !in paths[..n]
      requires forall p <- paths[..n] :: p in was && was[p].Log?
      requires files == (if dryRun then was else After(h, was, paths, n)) && t == TotalsUpTo(h, was, paths, n)
      modifies this
      ensures next.None? <==> was[paths[n]].Malformed?
      ensures next.None? ==> files == old(files)
      ensures next.Some? ==>
        && (forall p <- paths[..n + 1] :: p in was && was[p].Log?)
        && files == (if dryRun then was else After(h, was, paths, n + 1))
        && next.value == TotalsUpTo(h, was, paths, n + 1)
    {
      assert files[paths[n]] == was[paths[n]];
      var one := BackfillBlob(h, paths[n], dryRun);
      if one.None? { return None; }
      AfterNext(h, was, paths, n);
      TotalsNext(h, was, paths, n);
      var (entries, changes) := one.value;
      next := Some(Totals(t.entries + entries, t.changes + changes, t.rewritten + (if changes == 0 then 0 else 1)));
    }

    /** `main`: the sorted, distinct paths under the root, until one does not parse. */
    method BackfillAll(h: Hashing, paths: seq<string>, dryRun: bool) returns (r: Option<Totals>)
      requires forall p <- paths :: p in files
      requires forall i, j | 0 <= i < j < |paths| :: paths[i] != paths[j]
      modifies this
      ensures r.Some? <==> forall p <- paths :: old(files)[p].Log?
      ensures r.Some? ==> r.value == TotalsUpTo(h, old(files), paths, |paths|)
      ensures dryRun ==> files == old(files)
      ensures !dryRun && r.Some? ==> files == After(h, old(files), paths, |paths|)
      ensures !dryRun && r.None? ==>
        exists n :: 0 <= n < |paths| && old(files)[paths[n]].Malformed? && files == After(h, old(files), paths, n)
    {
      ghost var was := files;
      var t := Totals(0, 0, 0);
      NothingDone(h, was, paths);
      hide After, TotalsUpTo;
      for n := 0 to |paths|
        invariant forall p <- paths[..n] :: p in was && was[p].Log?
        invariant files == if dryRun then was else After(h, was, paths, n)
        invariant t == TotalsUpTo(h, was, paths, n)
      {
        NotYetDone(paths, n);
        var next := BackfillNext(h, paths, dryRun, n, t, was);
        if next.None? { return None; }
        t := next.value;
      }
      assert paths[..|paths|] == paths;
      r := Some(t);
    }
  }

  /** A run cut short after any file and started again ends where an uninterrupted run ends. */
  lemma InterruptedRunConverges(h: Hashing, files: map<string, Blob>, paths: seq<string>, n: nat)
    requires n <= |paths|
    ensures After(h, After(h, files, paths, n), paths, |paths|) == After(h, files, paths, |paths|)
  {
    forall p | p in files && p in paths[..n] && files[p].Log? { BackfillIdempotent(h, files[p].entries); }
    assert paths[..|paths|] == paths;
    assert forall p <- paths[..n] :: p in paths;
  }

  /** A second run over the same paths reports no change and rewrites no file. */
  lemma {:induction false} SecondRunIsNoOp(h: Hashing, files: map<string, Blob>, paths: seq<string>, n: nat)
    requires n <= |paths| && forall p <- paths :: p in files && files[p].Log?
    ensures var after := After(h, files, paths, |paths|);
      && (forall p <- paths[..n] :: p in after && after[p].Log?)
      && TotalsUpTo(h, after, paths, n).changes == 0 && TotalsUpTo(h, after, paths, n).rewritten == 0
  {
    var after := After(h, files, paths, |paths|);
    assert paths[..|paths|] == paths;
    forall p <- paths[..n] ensures p in after && after[p].Log? { assert p in paths; }
    if n == 0 {
    } else {
      SecondRunIsNoOp(h, files, paths, n - 1);
      var es := files[paths[n - 1]].entries;
      assert after[paths[n - 1]] == Log(Chain(h, es));
      BackfilledIsIntact(h, es);
      NoChangesMeansIntact(h, Chain(h, es));
    }
  }
}
