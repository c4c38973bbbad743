/** Pack ownership and persona trees: independent implementations of the same checks. */
module PackWiring {
  import opened Values

  datatype PersonaTree = Persona(role: string, manages: seq<PersonaTree>)

  datatype OrgFunction = OrgFunction(name: string, owns: seq<string>, hierarchy: PersonaTree)

  /** A domain: the function back-reference, and everything else about it. */
  datatype Domain = Domain(function_: string, rest: Json)

  /** The items of the functions dictionary, in order. */
  type Functions = seq<(string, OrgFunction)>

  // ---------------------------------------------------------------------------------------------
  // Ownership
  // ---------------------------------------------------------------------------------------------

  /** One function's claims on domains, up to its `n`th, with the function's name. */
  function ClaimsOf(f: OrgFunction, n: nat): seq<(string, string)>
    requires n <= |f.owns|
  {
    seq(n, k requires 0 <= k < n => (f.owns[k], f.name))
  }

  /** Every claim of a function on a domain, in iteration order. */
  function Claims(fs: Functions): seq<(string, string)> {
    if fs == [] then [] else Claims(fs[..|fs| - 1]) + ClaimsOf(fs[|fs| - 1].1, |fs[|fs| - 1].1.owns|)
  }

  ghost predicate NoDuplicates(claims: seq<(string, string)>) {
    forall i, j | 0 <= i < j < |claims| :: claims[i].0 != claims[j].0
  }

  function Claimed(claims: seq<(string, string)>): set<string> { set c | c in claims :: c.0 }

  /** Each domain is claimed exactly once, and nothing else is claimed. */
  ghost predicate ExactlyOneOwner(fs: Functions, domains: set<string>) {
    NoDuplicates(Claims(fs)) && Claimed(Claims(fs)) == domains
  }

  predicate Owns(f: OrgFunction, d: string) { d in f.owns }

  /** A claim is a function that lists the domain, under the function's own name. */
  lemma {:induction false} ClaimsMeaning(fs: Functions, d: string, name: string)
    ensures (d, name) in Claims(fs) <==> exists i :: 0 <= i < |fs| && Owns(fs[i].1, d) && fs[i].1.name == name
  {
    if fs == [] {
    } else {
      var m := |fs| - 1;
      var f := fs[m].1;
      ClaimsMeaning(fs[..m], d, name);
      assert (d, name) in ClaimsOf(f, |f.owns|) <==> Owns(f, d) && f.name == name by {
        if Owns(f, d) {
          var k :| 0 <= k < |f.owns| && f.owns[k] == d;
          assert ClaimsOf(f, |f.owns|)[k] == (d, f.name);
        }
      }
      if i :| 0 <= i < |fs| && Owns(fs[i].1, d) && fs[i].1.name == name {
        assert i < m ==> fs[..m][i] == fs[i];
      }
      if i :| 0 <= i < m && Owns(fs[..m][i].1, d) && fs[..m][i].1.name == name { assert fs[i] == fs[..m][i]; }
      hide Owns;
    }
  }

  predicate Distinct(owns: seq<string>) { forall k, l | 0 <= k < l < |owns| :: owns[k] != owns[l] }

  predicate Apart(f: OrgFunction, g: OrgFunction) { forall d <- f.owns :: !Owns(g, d) }

  lemma NoDuplicatesParts(a: seq<(string, string)>, b: seq<(string, string)>)
    ensures NoDuplicates(a + b) <==> NoDuplicates(a) && NoDuplicates(b) && Claimed(a) !! Claimed(b)
  {
    var c := a + b;
    assert forall i | 0 <= i < |a| :: c[i] == a[i] && a[i].0 in Claimed(a);
    assert forall j | 0 <= j < |b| :: c[|a| + j] == b[j] && b[j].0 in Claimed(b);
    if NoDuplicates(c) {
      forall i, j | 0 <= i < j < |b| ensures b[i].0 != b[j].0 { assert c[|a| + i].0 != c[|a| + j].0; }
      forall i, j | 0 <= i < j < |a| ensures a[i].0 != a[j].0 { assert c[i].0 != c[j].0; }
    }
  }

  lemma ClaimsOfMeaning(f: OrgFunction)
    ensures NoDuplicates(ClaimsOf(f, |f.owns|)) <==> Distinct(f.owns)
    ensures forall d :: d in Claimed(ClaimsOf(f, |f.owns|)) <==> Owns(f, d)
  {
    var c := ClaimsOf(f, |f.owns|);
    assert forall k | 0 <= k < |f.owns| :: c[k] == (f.owns[k], f.name);
    forall d | Owns(f, d) ensures d in Claimed(c) {
      var k :| 0 <= k < |f.owns| && f.owns[k] == d;
      assert c[k] in c;
    }
    if NoDuplicates(c) {
      forall k, l | 0 <= k < l < |f.owns| ensures f.owns[k] != f.owns[l] { assert c[k].0 != c[l].0; }
    }
  }

  lemma ClaimedMeaning(fs: Functions)
    ensures forall d :: d in Claimed(Claims(fs)) <==> exists i :: 0 <= i < |fs| && Owns(fs[i].1, d)
  {
    forall d ensures d in Claimed(Claims(fs)) <==> exists i :: 0 <= i < |fs| && Owns(fs[i].1, d) {
      if d in Claimed(Claims(fs)) {
        var c :| c in Claims(fs) && c.0 == d;
        ClaimsMeaning(fs, d, c.1);
      }
      if i :| 0 <= i < |fs| && Owns(fs[i].1, d) {
        ClaimsMeaning(fs, d, fs[i].1.name);
        assert (d, fs[i].1.name) in Claims(fs);
      }
    }
  }

  lemma {:induction false} NoDuplicatesMeaning(fs: Functions)
    ensures NoDuplicates(Claims(fs)) <==>
      && (forall i | 0 <= i < |fs| :: Distinct(fs[i].1.owns))
      && (forall i, j | 0 <= i < j < |fs| :: Apart(fs[i].1, fs[j].1))
  {
    if fs == [] {
    } else {
      var m := |fs| - 1;
      var f := fs[m].1;
      NoDuplicatesMeaning(fs[..m]);
      NoDuplicatesParts(Claims(fs[..m]), ClaimsOf(f, |f.owns|));
      ClaimsOfMeaning(f);
      ClaimedMeaning(fs[..m]);
      hide NoDuplicates, Claimed, Distinct, ClaimsOf;
      assert forall i | 0 <= i < m :: fs[..m][i] == fs[i];
      assert Claimed(Claims(fs[..m])) !! Claimed(ClaimsOf(f, |f.owns|)) <==>
        forall i | 0 <= i < m :: Apart(fs[i].1, f);
    }
  }

  /** Exactly one owner, in the functions' own lists: no function lists a domain twice, no two functions list the
      same one, and the domains are those that some function lists. */
  lemma ExactlyOneOwnerMeaning(fs: Functions, domains: set<string>)
    ensures ExactlyOneOwner(fs, domains) <==>
      && (forall i | 0 <= i < |fs| :: Distinct(fs[i].1.owns))
      && (forall i, j | 0 <= i < j < |fs| :: Apart(fs[i].1, fs[j].1))
      && (forall d :: d in domains <==> exists i :: 0 <= i < |fs| && Owns(fs[i].1, d))
  {
    NoDuplicatesMeaning(fs);
    ClaimedMeaning(fs);
    hide NoDuplicates, Claimed, Claims, Distinct, Apart, Owns;
    if forall d :: d in domains <==> exists i :: 0 <= i < |fs| && Owns(fs[i].1, d) {
      assert Claimed(Claims(fs)) == domains;
    }
  }

  lemma {:induction false} ClaimsPrefix(fs: Functions, i: nat)
    requires i <= |fs|
    ensures Claims(fs[..i]) <= Claims(fs)
  {
    if i == |fs| {
      assert fs[..i] == fs;
    } else {
      ClaimsPrefix(fs[..|fs| - 1], i);
      assert fs[..|fs| - 1][..i] == fs[..i];
    }
  }

  /** The claims seen when the loops stand at function `i`, claim `j`. */
  function Seen(fs: Functions, i: nat, j: nat): seq<(string, string)>
    requires i < |fs| && j <= |fs[i].1.owns|
  {
    Claims(fs[..i]) + ClaimsOf(fs[i].1, j)
  }

  lemma SeenFacts(fs: Functions, i: nat, j: nat)
    requires i < |fs| && j <= |fs[i].1.owns|
    ensures Seen(fs, i, j) <= Claims(fs)
    ensures j == 0 ==> Seen(fs, i, j) == Claims(fs[..i])
    ensures j < |fs[i].1.owns| ==> Seen(fs, i, j + 1) == Seen(fs, i, j) + [(fs[i].1.owns[j], fs[i].1.name)]
    ensures j == |fs[i].1.owns| ==> Seen(fs, i, j) == Claims(fs[..i + 1])
  {
    var f := fs[i].1;
    ClaimsPrefix(fs, i + 1);
    assert fs[..i + 1][..i] == fs[..i];
    assert ClaimsOf(f, j) <= ClaimsOf(f, |f.owns|);
    if j < |f.owns| { assert ClaimsOf(f, j + 1) == ClaimsOf(f, j) + [(f.owns[j], f.name)]; }
  }

  /** The owners dictionary after some claims without a duplicate. */
  ghost predicate Records(owners: map<string, string>, claims: seq<(string, string)>) {
    owners.Keys == Claimed(claims) && forall c <- claims :: c.0 in owners && owners[c.0] == c.1
  }

  lemma RecordOne(owners: map<string, string>, claims: seq<(string, string)>, c: (string, string))
    requires Records(owners, claims) && NoDuplicates(claims) && c.0 !in owners
    ensures Records(owners[c.0 := c.1], claims + [c]) && NoDuplicates(claims + [c])
  {
    assert forall d <- claims :: d.0 in Claimed(claims);
    assert Claimed(claims + [c]) == Claimed(claims) + {c.0};
    assert forall i | 0 <= i < |claims| :: claims[i] in claims;
  }

  lemma DuplicateFound(claims: seq<(string, string)>, c: (string, string), all: seq<(string, string)>)
    requires c.0 in Claimed(claims) && claims + [c] <= all
    ensures !NoDuplicates(all)
  {
    var d :| d in claims && d.0 == c.0;
    var i :| 0 <= i < |claims| && claims[i] == d;
    assert all[i] == d && all[|claims|] == c;
  }

  /** `wire_domain_functions`; nothing when it raises. */
  method WireDomainFunctions(domains: map<string, Domain>, fs: Functions) returns (r: Option<map<string, Domain>>)
    ensures r.Some? <==> ExactlyOneOwner(fs, domains.Keys)
    ensures r.Some? ==> r.value.Keys == domains.Keys
    ensures r.Some? ==> forall d <- domains ::
      r.value[d].rest == domains[d].rest && (d, r.value[d].function_) in Claims(fs)
  {
    var owners: map<string, string> := map[];
    for i := 0 to |fs|
      invariant Records(owners, Claims(fs[..i])) && NoDuplicates(Claims(fs[..i]))
    {
      var f := fs[i].1;
      SeenFacts(fs, i, 0);
      for j := 0 to |f.owns|
        invariant Records(owners, Seen(fs, i, j)) && NoDuplicates(Seen(fs, i, j))
      {
        SeenFacts(fs, i, j);
        SeenFacts(fs, i, j + 1);
        if f.owns[j] in owners {
          DuplicateFound(Seen(fs, i, j), (f.owns[j], f.name), Claims(fs));
          return None;
        }
        RecordOne(owners, Seen(fs, i, j), (f.owns[j], f.name));
        owners := owners[f.owns[j] := f.name];
      }
      SeenFacts(fs, i, |f.owns|);
    }
    assert fs[..|fs|] == fs;
    if owners.Keys != domains.Keys { return None; }
    r := Some(map d | d in domains :: domains[d].(function_ := owners[d]));
    forall d <- domains ensures (d, owners[d]) in Claims(fs) {
      assert d in Claimed(Claims(fs));
      var c :| c in Claims(fs) && c.0 == d;
      assert c == (d, owners[d]);
    }
  }

  /** The owner wired to a domain is the only one there is. */
  lemma OwnerIsUnique(fs: Functions, domains: set<string>, d: string, a: string, b: string)
    requires ExactlyOneOwner(fs, domains) && (d, a) in Claims(fs) && (d, b) in Claims(fs)
    ensures a == b
  {
    var cs := Claims(fs);
    var i :| 0 <= i < |cs| && cs[i] == (d, a);
    var j :| 0 <= j < |cs| && cs[j] == (d, b);
    assert i == j;
  }

  function Occurrences(claims: seq<(string, string)>, d: string): nat {
    if claims == [] then 0
    else Occurrences(claims[..|claims| - 1], d) + (if claims[|claims| - 1].0 == d then 1 else 0)
  }

  lemma {:induction false} OccurrencesClaimed(claims: seq<(string, string)>, d: string)
    ensures Occurrences(claims, d) > 0 <==> d in Claimed(claims)
  {
    if claims == [] {
    } else {
      var m := |claims| - 1;
      OccurrencesClaimed(claims[..m], d);
      assert claims == claims[..m] + [claims[m]];
      assert Claimed(claims) == Claimed(claims[..m]) + {claims[m].0} by {
        forall x ensures x in Claimed(claims) <==> x in Claimed(claims[..m]) + {claims[m].0} {
          if x in Claimed(claims) { var c :| c in claims && c.0 == x; assert c in claims[..m] || c == claims[m]; }
          if x in Claimed(claims[..m]) { var c :| c in claims[..m] && c.0 == x; assert c in claims; }
          assert claims[m] in claims;
        }
      }
    }
  }

  ghost predicate AtMostOnce(claims: seq<(string, string)>) { forall d: string :: Occurrences(claims, d) <= 1 }

  lemma OneMoreClaim(claims: seq<(string, string)>, c: (string, string))
    ensures AtMostOnce(claims + [c]) <==> AtMostOnce(claims) && c.0 !in Claimed(claims)
    ensures NoDuplicates(claims + [c]) <==> NoDuplicates(claims) && c.0 !in Claimed(claims)
  {
    var all := claims + [c];
    assert all[..|all| - 1] == claims;
    OccurrencesClaimed(claims, c.0);
    if AtMostOnce(all) {
      assert Occurrences(all, c.0) <= 1;
      forall d: string ensures Occurrences(claims, d) <= 1 { assert Occurrences(all, d) <= 1; }
    }
    if AtMostOnce(claims) && c.0 !in Claimed(claims) {
      forall d: string ensures Occurrences(all, d) <= 1 { assert Occurrences(claims, d) <= 1; }
    }
    if NoDuplicates(all) {
      assert forall i | 0 <= i < |claims| :: all[i] == claims[i] && all[i].0 != all[|claims|].0;
    }
    if c.0 !in Claimed(claims) { assert forall i | 0 <= i < |claims| :: claims[i] in claims; }
  }

  /** Having no duplicates is being counted at most once. */
  lemma {:induction false} OccurrencesUnique(claims: seq<(string, string)>)
    ensures NoDuplicates(claims) <==> AtMostOnce(claims)
  {
    if claims == [] {
    } else {
      var m := |claims| - 1;
      assert claims == claims[..m] + [claims[m]];
      OccurrencesUnique(claims[..m]);
      OneMoreClaim(claims[..m], claims[m]);
    }
  }

  predicate KeysMatch(fs: Functions) { forall i | 0 <= i < |fs| :: fs[i].0 == fs[i].1.name }

  ghost predicate Counts(owners: map<string, seq<string>>, claims: seq<(string, string)>) {
    && owners.Keys == Claimed(claims)
    && forall d <- owners :: |owners[d]| == Occurrences(claims, d)
  }

  lemma CountOne(owners: map<string, seq<string>>, claims: seq<(string, string)>, c: (string, string), key: string)
    requires Counts(owners, claims)
    ensures Counts(owners[c.0 := (if c.0 in owners then owners[c.0] else []) + [key]], claims + [c])
  {
    assert (claims + [c])[..|claims|] == claims;
    OccurrencesClaimed(claims, c.0);
    assert c in claims + [c];
    assert Claimed(claims + [c]) == Claimed(claims) + {c.0} by {
      forall x ensures x in Claimed(claims + [c]) <==> x in Claimed(claims) + {c.0} {
        if x in Claimed(claims) { var e :| e in claims && e.0 == x; assert e in claims + [c]; }
      }
    }
  }

  lemma CountsDecide(owners: map<string, seq<string>>, claims: seq<(string, string)>)
    requires Counts(owners, claims)
    ensures NoDuplicates(claims) <==> forall d <- owners :: |owners[d]| <= 1
  {
    OccurrencesUnique(claims);
    if forall d <- owners :: |owners[d]| <= 1 {
      forall d: string ensures Occurrences(claims, d) <= 1 { OccurrencesClaimed(claims, d); }
    }
  }

  /** The ownership clause of `validate_pack`: `setdefault(...).append(...)` and the checks after it. */
  method ValidateOwnership(domains: set<string>, fs: Functions) returns (ok: bool)
    ensures ok <==> KeysMatch(fs) && ExactlyOneOwner(fs, domains)
  {
    var owners: map<string, seq<string>> := map[];
    for i := 0 to |fs|
      invariant Counts(owners, Claims(fs[..i]))
      invariant forall k | 0 <= k < i :: fs[k].0 == fs[k].1.name
    {
      var (key, f) := fs[i];
      if key != f.name { return false; }
      SeenFacts(fs, i, 0);
      for j := 0 to |f.owns|
        invariant Counts(owners, Seen(fs, i, j))
      {
        SeenFacts(fs, i, j);
        CountOne(owners, Seen(fs, i, j), (f.owns[j], f.name), key);
        owners := owners[f.owns[j] := (if f.owns[j] in owners then owners[f.owns[j]] else []) + [key]];
      }
      SeenFacts(fs, i, |f.owns|);
    }
    assert fs[..|fs|] == fs;
    CountsDecide(owners, Claims(fs));
    var duplicates := set d | d in owners && |owners[d]| > 1;
    assert duplicates == {} <==> forall d <- owners :: |owners[d]| <= 1 by {
      if duplicates == {} { assert forall d <- owners :: d !in duplicates; }
    }
    ok := owners.Keys == domains && duplicates == {};
  }

  /** Building a pack wires its domains and loading it validates it: the clause accepts exactly the
      packs that wire, once the dictionary keys are the functions' names. */
  method WireThenValidate(domains: map<string, Domain>, fs: Functions) returns (wired: bool, valid: bool)
    ensures valid <==> wired && KeysMatch(fs)
  {
    var w := WireDomainFunctions(domains, fs);
    valid := ValidateOwnership(domains.Keys, fs);
    wired := w.Some?;
  }

  // ---------------------------------------------------------------------------------------------
  // Persona trees
  // ---------------------------------------------------------------------------------------------

  const LEGACY := "__legacy__"

  /** `validate_persona` inside `validate_pack`: a SKILL.md under some root, and a registration. */
  predicate ValidatePersona(node: PersonaTree, hasSkill: string -> bool, registered: set<string>) {
    node.role == LEGACY ||
    (hasSkill(node.role) && node.role in registered
     && forall i | 0 <= i < |node.manages| :: ValidatePersona(node.manages[i], hasSkill, registered))
  }

  /** `_walk_persona_tree`: only the SKILL.md. */
  predicate WalkPersonaTree(node: PersonaTree, hasSkill: string -> bool) {
    node.role == LEGACY ||
    (hasSkill(node.role) && forall i | 0 <= i < |node.manages| :: WalkPersonaTree(node.manages[i], hasSkill))
  }

  /** The roles a walk looks at: a legacy node is skipped with everything below it. */
  function Visited(node: PersonaTree): set<string> {
    if node.role == LEGACY then {}
    else {node.role} + set i, r | 0 <= i < |node.manages| && r in Visited(node.manages[i]) :: r
  }

  /** Each walk accepts exactly when its test holds of every role it looks at. */
  lemma {:induction false} WalksMeanEveryRole(node: PersonaTree, hasSkill: string -> bool, registered: set<string>)
    ensures WalkPersonaTree(node, hasSkill) <==> forall r <- Visited(node) :: hasSkill(r)
    ensures ValidatePersona(node, hasSkill, registered) <==>
      forall r <- Visited(node) :: hasSkill(r) && r in registered
  {
    if node.role == LEGACY {
    } else {
      assert node.role in Visited(node);
      forall i | 0 <= i < |node.manages|
        ensures WalkPersonaTree(node.manages[i], hasSkill) <==> forall r <- Visited(node.manages[i]) :: hasSkill(r)
        ensures ValidatePersona(node.manages[i], hasSkill, registered) <==>
          forall r <- Visited(node.manages[i]) :: hasSkill(r) && r in registered
        ensures Visited(node.manages[i]) <= Visited(node)
      {
        WalksMeanEveryRole(node.manages[i], hasSkill, registered);
      }
      forall r <- Visited(node)
        ensures r == node.role || exists i :: 0 <= i < |node.manages| && r in Visited(node.manages[i]) {}
    }
  }

  /** Every hierarchy that pack validation accepts passes the boot-time validator; the difference is
      exactly the registrations. */
  lemma PackValidationImpliesHierarchyValidation(fs: Functions, hasSkill: string -> bool, registered: set<string>)
    ensures (forall i | 0 <= i < |fs| :: ValidatePersona(fs[i].1.hierarchy, hasSkill, registered)) <==>
      && (forall i | 0 <= i < |fs| :: WalkPersonaTree(fs[i].1.hierarchy, hasSkill))
      && (forall i | 0 <= i < |fs| :: Visited(fs[i].1.hierarchy) <= registered)
  {
    forall i | 0 <= i < |fs|
      ensures ValidatePersona(fs[i].1.hierarchy, hasSkill, registered) <==>
        WalkPersonaTree(fs[i].1.hierarchy, hasSkill) && Visited(fs[i].1.hierarchy) <= registered
    {
      WalksMeanEveryRole(fs[i].1.hierarchy, hasSkill, registered);
    }
  }
}
