/** `start_or_get_orchestration`: any number of clients interleaving reads and creates on one instance
    store.  A create with an explicit id is atomic: it raises when the instance exists; it may also
    raise without creating, or after creating.  A status read may raise too. */
module Orchestration {
  import opened Values

  type Id = string

  datatype Fate = Fine | RaiseBefore | RaiseAfter

  /** Where one client is: the status read, the create, the read after a failed create, or done. */
  datatype Client =
    | Reading
    | Creating
    | Rereading
    | Returned(id: Id, started: bool, status: Option<string>)
    | CreateError
    | ReadError

  /** `log` lists every creation with the client that made it. */
  datatype System = System(store: map<Id, string>, log: seq<(Id, nat)>, clients: seq<Client>)

  /** A client takes its next step, or an instance's status moves on. */
  datatype Event = Move(i: nat, fate: Fate, minted: Id) | Progress(id: Id, status: string)

  /** Each client's requested id; empty means none. */
  type Requests = seq<Id>

  predicate Done(c: Client) { c.Returned? || c.CreateError? || c.ReadError? }

  predicate Shaped(reqs: Requests, s: System) { |s.clients| == |reqs| }

  function Create(s: System, id: Id, i: nat): System {
    s.(store := s.store[id := "Pending"], log := s.log + [(id, i)])
  }

  function At(s: System, i: nat, c: Client): System
    requires i < |s.clients|
  {
    s.(clients := s.clients[i := c])
  }

  /** Without a requested id the create makes a new one, outside any exception handler. */
  function CreateAnonymous(s: System, i: nat, fate: Fate, minted: Id): System
    requires i < |s.clients|
  {
    if minted in s.store || fate.RaiseBefore? then At(s, i, CreateError)
    else if fate.RaiseAfter? then At(Create(s, minted, i), i, CreateError)
    else At(Create(s, minted, i), i, Returned(minted, true, None))
  }

  function ReadStep(s: System, i: nat, id: Id, fate: Fate, absent: Client): System
    requires i < |s.clients|
  {
    if !fate.Fine? then At(s, i, ReadError)
    else if id in s.store then At(s, i, Returned(id, false, Some(s.store[id])))
    else At(s, i, absent)
  }

  function CreateStep(s: System, i: nat, id: Id, fate: Fate): System
    requires i < |s.clients|
  {
    if id in s.store || fate.RaiseBefore? then At(s, i, Rereading)
    else if fate.RaiseAfter? then At(Create(s, id, i), i, Rereading)
    else At(Create(s, id, i), i, Returned(id, true, None))
  }

  function Apply(reqs: Requests, s: System, e: Event): System
    requires Shaped(reqs, s)
  {
    match e
    case Progress(id, status) => if id in s.store then s.(store := s.store[id := status]) else s
    case Move(i, fate, minted) =>
      if i >= |reqs| then s
      else
        match s.clients[i]
        case Reading =>
          if reqs[i] == "" then CreateAnonymous(s, i, fate, minted) else ReadStep(s, i, reqs[i], fate, Creating)
        case Creating => CreateStep(s, i, reqs[i], fate)
        case Rereading => ReadStep(s, i, reqs[i], fate, CreateError)
        case _ => s
  }

  function Run(reqs: Requests, s: System, t: seq<Event>): (r: System)
    requires Shaped(reqs, s)
    ensures Shaped(reqs, r)
  {
    if t == [] then s else Apply(reqs, Run(reqs, s, t[..|t| - 1]), t[|t| - 1])
  }

  function Start(reqs: Requests, store: map<Id, string>): System {
    System(store, [], seq(|reqs|, i => Reading))
  }

  // ---------------------------------------------------------------------------------------------
  // The invariant of every interleaving
  // ---------------------------------------------------------------------------------------------

  /** Creations are distinct, were not there at the start, and account for the whole store. */
  ghost predicate LogSound(initial: set<Id>, ids: set<Id>, log: seq<(Id, nat)>) {
    && initial <= ids
    && (forall k | 0 <= k < |log| :: log[k].0 in ids && log[k].0 !in initial)
    && (forall id <- ids :: id in initial || exists k :: 0 <= k < |log| && log[k].0 == id)
    && (forall k, l | 0 <= k < l < |log| :: log[k].0 != log[l].0)
  }

  ghost predicate ClientSound(reqs: Requests, s: System, i: nat)
    requires i < |reqs| == |s.clients|
  {
    match s.clients[i]
    case Reading => forall k | 0 <= k < |s.log| :: s.log[k].1 != i
    case Creating => reqs[i] != "" && forall k | 0 <= k < |s.log| :: s.log[k].1 != i
    case Rereading => reqs[i] != ""
    case Returned(id, started, _) =>
      && id in s.store && (reqs[i] != "" ==> id == reqs[i])
      && (started ==> (id, i) in s.log)
    case _ => true
  }

  ghost predicate Inv(reqs: Requests, initial: map<Id, string>, s: System) {
    && Shaped(reqs, s) && LogSound(initial.Keys, s.store.Keys, s.log)
    && forall i | 0 <= i < |reqs| :: ClientSound(reqs, s, i)
  }

  lemma OneMoreCreation(initial: set<Id>, ids: set<Id>, log: seq<(Id, nat)>, id: Id, i: nat)
    requires LogSound(initial, ids, log) && id !in ids
    ensures LogSound(initial, ids + {id}, log + [(id, i)])
  {
    var more := log + [(id, i)];
    assert more[|log|].0 == id;
    forall x <- ids + {id} ensures x in initial || exists k :: 0 <= k < |more| && more[k].0 == x {
      if x != id && x !in initial {
        var k :| 0 <= k < |log| && log[k].0 == x;
        assert more[k].0 == x;
      }
    }
  }

  /** A step creates at most one instance, one that was absent, by the client that moves. */
  lemma StepEffect(reqs: Requests, s: System, e: Event)
    requires Shaped(reqs, s)
    ensures var n := Apply(reqs, s, e);
      || (n.store.Keys == s.store.Keys && n.log == s.log)
      || exists id :: e.Move? && id !in s.store && n.store.Keys == s.store.Keys + {id} && n.log == s.log + [(id, e.i)]
  {
    if e.Move? && e.i < |reqs| {
      var id := if reqs[e.i] == "" then e.minted else reqs[e.i];
      assert id !in s.store ==> Create(s, id, e.i).store.Keys == s.store.Keys + {id};
    }
  }

  lemma StepKeepsClients(reqs: Requests, s: System, e: Event, j: nat)
    requires Shaped(reqs, s) && j < |reqs| && ClientSound(reqs, s, j)
    ensures ClientSound(reqs, Apply(reqs, s, e), j)
  {
    var n := Apply(reqs, s, e);
    StepEffect(reqs, s, e);
    assert forall x <- s.log :: x in n.log;
    if e.Move? && e.i == j && n.log != s.log { assert n.log[|s.log|] in n.log; }
  }

  lemma {:induction false} RunInv(reqs: Requests, initial: map<Id, string>, t: seq<Event>)
    ensures Inv(reqs, initial, Run(reqs, Start(reqs, initial), t))
  {
    if t == [] {
    } else {
      var before, e := Run(reqs, Start(reqs, initial), t[..|t| - 1]), t[|t| - 1];
      RunInv(reqs, initial, t[..|t| - 1]);
      StepEffect(reqs, before, e);
      var after := Apply(reqs, before, e);
      if after.log != before.log {
        var id :| id !in before.store && after.store.Keys == before.store.Keys + {id}
            && after.log == before.log + [(id, e.i)];
        OneMoreCreation(initial.Keys, before.store.Keys, before.log, id, e.i);
      }
      forall j | 0 <= j < |reqs| ensures ClientSound(reqs, after, j) { StepKeepsClients(reqs, before, e, j); }
    }
  }

  // ---------------------------------------------------------------------------------------------
  // What every interleaving guarantees
  // ---------------------------------------------------------------------------------------------

  predicate Started(s: System, i: nat)
    requires i < |s.clients|
  {
    s.clients[i].Returned? && s.clients[i].started
  }

  /** An id is created at most once, never if it was there before; at most one client is told that it
      started it; and every normal return names the requested id, whose instance exists. */
  lemma AtMostOneStarts(reqs: Requests, initial: map<Id, string>, t: seq<Event>)
    ensures var s := Run(reqs, Start(reqs, initial), t);
      && (forall k, l | 0 <= k < l < |s.log| :: s.log[k].0 != s.log[l].0)
      && (forall k | 0 <= k < |s.log| :: s.log[k].0 !in initial)
      && (forall i, j | 0 <= i < |reqs| && 0 <= j < |reqs| && Started(s, i) && Started(s, j) ::
            s.clients[i].id == s.clients[j].id ==> i == j)
      && (forall i | 0 <= i < |reqs| && s.clients[i].Returned? ::
            s.clients[i].id in s.store && (reqs[i] != "" ==> s.clients[i].id == reqs[i]))
  {
    var s := Run(reqs, Start(reqs, initial), t);
    RunInv(reqs, initial, t);
    forall i, j | 0 <= i < |reqs| && 0 <= j < |reqs| && Started(s, i) && Started(s, j)
      && s.clients[i].id == s.clients[j].id
      ensures i == j
    {
      assert ClientSound(reqs, s, i) && ClientSound(reqs, s, j);
      var k :| 0 <= k < |s.log| && s.log[k] == (s.clients[i].id, i);
      var l :| 0 <= l < |s.log| && s.log[l] == (s.clients[j].id, j);
      assert k == l;
    }
    forall i | 0 <= i < |reqs| && s.clients[i].Returned?
      ensures s.clients[i].id in s.store && (reqs[i] != "" ==> s.clients[i].id == reqs[i])
    {
      assert ClientSound(reqs, s, i);
    }
  }

  /** When a create error reaches a client that asked for an id, its second read had just found no
      instance. */
  lemma {:induction false} ErrorEscapesOnlyWhenAbsent(reqs: Requests, initial: map<Id, string>, t: seq<Event>, i: nat)
    returns (k: nat)
    requires i < |reqs| && reqs[i] != "" && Run(reqs, Start(reqs, initial), t).clients[i].CreateError?
    ensures k < |t| && t[k].Move? && t[k].i == i && t[k].fate.Fine?
    ensures Run(reqs, Start(reqs, initial), t[..k]).clients[i].Rereading?
    ensures reqs[i] !in Run(reqs, Start(reqs, initial), t[..k]).store
  {
    var m := |t| - 1;
    if t == [] {
      assert false;
    }
    if Run(reqs, Start(reqs, initial), t[..m]).clients[i].CreateError? {
      k := ErrorEscapesOnlyWhenAbsent(reqs, initial, t[..m], i);
      assert t[..m][..k] == t[..k];
    } else {
      k := m;
    }
  }

  predicate Failed(c: Client) { c.CreateError? || c.ReadError? }

  /** Why a client's step ends in an error: a status read that raised, a create without an id that raised
      or hit an id in use, or a second read that found no instance to explain the failed create. */
  predicate Fails(reqs: Requests, s: System, i: nat, fate: Fate, minted: Id)
    requires i < |reqs| == |s.clients|
  {
    match s.clients[i]
    case Reading => !fate.Fine? || (reqs[i] == "" && minted in s.store)
    case Rereading => !fate.Fine? || reqs[i] !in s.store
    case _ => false
  }

  /** Every error has one of these causes, at one step of the client that got it; so a status read that
      raises ends its client even when the instance is there. */
  lemma {:induction false} EveryErrorHasItsCause(reqs: Requests, initial: map<Id, string>, t: seq<Event>, i: nat)
    returns (k: nat)
    requires i < |reqs| && Failed(Run(reqs, Start(reqs, initial), t).clients[i])
    ensures k < |t| && t[k].Move? && t[k].i == i
    ensures var before := Run(reqs, Start(reqs, initial), t[..k]);
      && !Done(before.clients[i])
      && Fails(reqs, before, i, t[k].fate, t[k].minted)
      && (Run(reqs, Start(reqs, initial), t).clients[i].ReadError? <==> !t[k].fate.Fine? && reqs[i] != "")
  {
    var m := |t| - 1;
    if t == [] {
      assert false;
    }
    var before := Run(reqs, Start(reqs, initial), t[..m]);
    assert Run(reqs, Start(reqs, initial), t) == Apply(reqs, before, t[m]);
    if Failed(before.clients[i]) {
      FailureStays(reqs, before, t[m], i);
      k := EveryErrorHasItsCause(reqs, initial, t[..m], i);
      assert t[..m][..k] == t[..k];
    } else {
      k := m;
      AskedForAnId(reqs, initial, t[..m], i);
      FailingStep(reqs, before, t[m], i);
    }
    hide Apply, Run, Start, Fails;
  }

  lemma FailureStays(reqs: Requests, s: System, e: Event, i: nat)
    requires i < |reqs| == |s.clients| && Failed(s.clients[i])
    ensures Apply(reqs, s, e).clients[i] == s.clients[i]
  {
  }

  lemma FailingStep(reqs: Requests, s: System, e: Event, i: nat)
    requires i < |reqs| == |s.clients| && !Failed(s.clients[i]) && Failed(Apply(reqs, s, e).clients[i])
    requires s.clients[i].Creating? || s.clients[i].Rereading? ==> reqs[i] != ""
    ensures e.Move? && e.i == i && !Done(s.clients[i]) && Fails(reqs, s, i, e.fate, e.minted)
    ensures Apply(reqs, s, e).clients[i].ReadError? <==> !e.fate.Fine? && reqs[i] != ""
  {
  }

  /** Only a client with a requested id gets past its first step. */
  lemma AskedForAnId(reqs: Requests, initial: map<Id, string>, t: seq<Event>, i: nat)
    requires i < |reqs|
    ensures var c := Run(reqs, Start(reqs, initial), t).clients[i]; c.Creating? || c.Rereading? ==> reqs[i] != ""
  {
    RunInv(reqs, initial, t);
    assert ClientSound(reqs, Run(reqs, Start(reqs, initial), t), i);
  }

  /** And each cause is enough. */
  lemma CausesFail(reqs: Requests, s: System, i: nat, fate: Fate, minted: Id)
    requires i < |reqs| == |s.clients| && !Done(s.clients[i])
    ensures Failed(Apply(reqs, s, Move(i, fate, minted)).clients[i]) <==> Fails(reqs, s, i, fate, minted)
  {
  }

  function StepsLeft(c: Client): nat {
    match c case Reading => 3 case Creating => 2 case Rereading => 1 case _ => 0
  }

  /** Every client is done after at most three steps of its own, whatever the others do. */
  lemma MovesTerminate(reqs: Requests, s: System, e: Event, i: nat)
    requires Shaped(reqs, s) && i < |reqs|
    ensures var n := Apply(reqs, s, e).clients[i];
      if e.Move? && e.i == i && !Done(s.clients[i]) then StepsLeft(n) < StepsLeft(s.clients[i])
      else n == s.clients[i]
    ensures Done(s.clients[i]) <==> StepsLeft(s.clients[i]) == 0
  {}

  // ---------------------------------------------------------------------------------------------
  // Without faults there is exactly one winner
  // ---------------------------------------------------------------------------------------------

  ghost predicate FaultFree(reqs: Requests, initial: map<Id, string>, t: seq<Event>) {
    forall k | 0 <= k < |t| :: t[k].Move? ==> t[k].fate.Fine? && t[k].i < |reqs| && reqs[t[k].i] != ""
  }

  ghost predicate Faultless(reqs: Requests, s: System) {
    && Shaped(reqs, s)
    && (forall i | 0 <= i < |reqs| :: !s.clients[i].CreateError? && !s.clients[i].ReadError?)
    && (forall i | 0 <= i < |reqs| :: s.clients[i].Rereading? ==> reqs[i] in s.store)
    && (forall k | 0 <= k < |s.log| ::
        0 <= s.log[k].1 < |reqs| && s.clients[s.log[k].1] == Returned(s.log[k].0, true, None))
  }

  lemma {:induction false} RunFaultless(reqs: Requests, initial: map<Id, string>, t: seq<Event>)
    requires FaultFree(reqs, initial, t)
    ensures Faultless(reqs, Run(reqs, Start(reqs, initial), t))
  {
    if t == [] {
    } else {
      var m := |t| - 1;
      assert FaultFree(reqs, initial, t[..m]) by { assert forall k | 0 <= k < m :: t[..m][k] == t[k]; }
      RunFaultless(reqs, initial, t[..m]);
      FaultlessStep(reqs, Run(reqs, Start(reqs, initial), t[..m]), t[m]);
    }
  }

  lemma FaultlessStep(reqs: Requests, s: System, e: Event)
    requires Faultless(reqs, s)
    requires e.Move? ==> e.fate.Fine? && e.i < |reqs| && reqs[e.i] != ""
    ensures Faultless(reqs, Apply(reqs, s, e))
  {
    if e.Move? {
      var n := Apply(reqs, s, e);
      assert forall j | 0 <= j < |reqs| && j != e.i :: n.clients[j] == s.clients[j];
      forall k | 0 <= k < |n.log|
        ensures 0 <= n.log[k].1 < |reqs| && n.clients[n.log[k].1] == Returned(n.log[k].0, true, None)
      {
        if k < |s.log| { assert n.log[k] == s.log[k]; }
      }
    }
  }

  /** If nothing fails and everyone asking for an absent id has finished, exactly one of them is told it
      started the instance, and nobody gets an error. */
  lemma ExactlyOneWinner(reqs: Requests, initial: map<Id, string>, t: seq<Event>, i: nat) returns (w: nat)
    requires FaultFree(reqs, initial, t) && i < |reqs| && reqs[i] != "" && reqs[i] !in initial
    requires forall j | 0 <= j < |reqs| :: Done(Run(reqs, Start(reqs, initial), t).clients[j])
    ensures w < |reqs| && reqs[w] == reqs[i]
    ensures Run(reqs, Start(reqs, initial), t).clients[w] == Returned(reqs[i], true, None)
    ensures forall j | 0 <= j < |reqs| && reqs[j] == reqs[i] && j != w ::
      var c := Run(reqs, Start(reqs, initial), t).clients[j];
      c.Returned? && c.id == reqs[i] && !c.started
  {
    var s := Run(reqs, Start(reqs, initial), t);
    RunInv(reqs, initial, t);
    RunFaultless(reqs, initial, t);
    AtMostOneStarts(reqs, initial, t);
    assert ClientSound(reqs, s, i) && s.clients[i].Returned?;
    var k :| 0 <= k < |s.log| && s.log[k].0 == reqs[i];
    w := s.log[k].1;
    NamedWinners(reqs, initial, t, w);
    forall j | 0 <= j < |reqs| && reqs[j] == reqs[i] && j != w
      ensures s.clients[j].Returned? && s.clients[j].id == reqs[i] && !s.clients[j].started
    {
      assert Done(s.clients[j]);
    }
  }

  /** A client that started an instance in a fault-free run asked for it by name. */
  lemma {:induction false} NamedWinners(reqs: Requests, initial: map<Id, string>, t: seq<Event>, w: nat)
    requires FaultFree(reqs, initial, t) && w < |reqs|
    requires Run(reqs, Start(reqs, initial), t).clients[w].Returned?
    ensures Run(reqs, Start(reqs, initial), t).clients[w].id == reqs[w]
  {
    if t == [] {
    } else {
      var m := |t| - 1;
      assert FaultFree(reqs, initial, t[..m]) by { assert forall k | 0 <= k < m :: t[..m][k] == t[k]; }
      if Run(reqs, Start(reqs, initial), t[..m]).clients[w].Returned? { NamedWinners(reqs, initial, t[..m], w); }
    }
  }

  /** What a normal return tells is what client `i` found at this step: it created an absent instance, and
      has no status to report, or it read the status of an instance that was there. */
  predicate TrueAt(reqs: Requests, before: System, after: System, minted: Id, i: nat, c: Client)
    requires i < |reqs|
  {
    && c.Returned?
    && if c.started then
         && c.id == (if reqs[i] == "" then minted else reqs[i]) && c.status == None
         && c.id !in before.store && c.id in after.store && after.log == before.log + [(c.id, i)]
       else
         && reqs[i] != "" && c.id == reqs[i]
         && c.id in before.store && c.status == Some(before.store[c.id]) && after.store == before.store
  }

  /** Step `k` of the run is client `i`'s, and the return is true there. */
  predicate TrueReturn(reqs: Requests, s: System, t: seq<Event>, k: nat, i: nat, c: Client)
    requires Shaped(reqs, s) && i < |reqs|
  {
    && k < |t| && t[k].Move? && t[k].i == i && t[k].fate.Fine?
    && TrueAt(reqs, Run(reqs, s, t[..k]), Run(reqs, s, t[..k + 1]), t[k].minted, i, c)
  }

  lemma ReturningStep(reqs: Requests, s: System, e: Event, i: nat)
    requires i < |reqs| == |s.clients| && !s.clients[i].Returned? && Apply(reqs, s, e).clients[i].Returned?
    requires s.clients[i].Creating? || s.clients[i].Rereading? ==> reqs[i] != ""
    ensures e.Move? && e.i == i && e.fate.Fine?
    ensures TrueAt(reqs, s, Apply(reqs, s, e), e.minted, i, Apply(reqs, s, e).clients[i])
  {
  }

  /** In every interleaving, whatever a client that had not returned is told in the end was true at one of
      its own steps. */
  lemma {:induction false} EveryReturnIsTrue(reqs: Requests, s: System, t: seq<Event>, i: nat) returns (k: nat)
    requires i < |reqs| && Shaped(reqs, s) && s.clients[i].Reading?
    requires Run(reqs, s, t).clients[i].Returned?
    ensures TrueReturn(reqs, s, t, k, i, Run(reqs, s, t).clients[i])
  {
    if t == [] {
      assert false;
    } else {
      var m := |t| - 1;
      var before := Run(reqs, s, t[..m]);
      assert Run(reqs, s, t) == Apply(reqs, before, t[m]);
      if before.clients[i].Returned? {
        ReturnStays(reqs, before, t[m], i);
        k := EveryReturnIsTrue(reqs, s, t[..m], i);
        assert t[..m][..k] == t[..k] && t[..m][..k + 1] == t[..k + 1];
      } else {
        k := m;
        PastFirstStep(reqs, s, t[..m], i);
        ReturningStep(reqs, before, t[m], i);
        assert t[..k + 1] == t;
      }
      hide Apply, Run, TrueAt;
    }
  }

  lemma ReturnStays(reqs: Requests, s: System, e: Event, i: nat)
    requires i < |reqs| == |s.clients| && s.clients[i].Returned?
    ensures Apply(reqs, s, e).clients[i] == s.clients[i]
  {
  }

  lemma {:induction false} PastFirstStep(reqs: Requests, s: System, t: seq<Event>, i: nat)
    requires i < |reqs| && Shaped(reqs, s) && s.clients[i].Reading?
    ensures var c := Run(reqs, s, t).clients[i]; c.Creating? || c.Rereading? ==> reqs[i] != ""
  {
    if t == [] {
    } else {
      PastFirstStep(reqs, s, t[..|t| - 1], i);
    }
  }

  // ---------------------------------------------------------------------------------------------
  // The code of one client
  // ---------------------------------------------------------------------------------------------

  datatype Status = Status(runtime: Option<string>) | StatusRaised

  /** The id a create is for: the requested one, or a new one. */
  function IdFor(reqs: Requests, i: nat, minted: Id): Id
    requires i < |reqs|
  {
    if reqs[i] == "" then minted else reqs[i]
  }

  /** Client `i` created one instance that was absent, and nothing else happened to the store. */
  predicate Created(reqs: Requests, was: System, now: System, i: nat, minted: Id)
    requires i < |reqs|
  {
    var id := IdFor(reqs, i, minted);
    id !in was.store && now.store == was.store[id := "Pending"] && now.log == was.log + [(id, i)]
  }

  predicate Untouched(was: System, now: System) {
    now.store == was.store && now.log == was.log
  }

  class DurableHost {
    const reqs: Requests
    var sys: System

    ghost predicate Valid()
      reads this
    {
      Shaped(reqs, sys)
    }

    constructor (reqs: Requests, store: map<Id, string>)
      ensures Valid() && this.reqs == reqs && sys == Start(reqs, store)
    {
      this.reqs, sys := reqs, Start(reqs, store);
    }

    /** Anything the other clients and the runtime may do between two steps of client `i`. */
    method OthersRun(i: nat, others: seq<Event>)
      requires Valid() && forall e <- others :: e.Move? ==> e.i != i
      modifies this`sys
      ensures Valid() && sys == Run(reqs, old(sys), others)
      ensures i < |reqs| ==> sys.clients[i] == old(sys).clients[i]
    {
      ghost var before := sys;
      for k := 0 to |others|
        invariant Valid() && sys == Run(reqs, before, others[..k])
        invariant i < |reqs| ==> sys.clients[i] == before.clients[i]
      {
        assert others[..k + 1][..k] == others[..k] && others[k] in others;
        sys := Apply(reqs, sys, others[k]);
      }
      assert others[..|others|] == others;
    }

    method GetStatus(i: nat, fate: Fate) returns (r: Status)
      requires Valid() && i < |reqs| && reqs[i] != "" && (sys.clients[i].Reading? || sys.clients[i].Rereading?)
      modifies this`sys
      ensures Valid() && sys == Apply(reqs, old(sys), Move(i, fate, ""))
      ensures r == if !fate.Fine? then StatusRaised
                   else Status(if reqs[i] in old(sys).store then Some(old(sys).store[reqs[i]]) else None)
    {
      r := if !fate.Fine? then StatusRaised
           else Status(if reqs[i] in sys.store then Some(sys.store[reqs[i]]) else None);
      sys := Apply(reqs, sys, Move(i, fate, ""));
    }

    /** `start_new`: the new instance's id, or nothing when it raises. */
    method StartNew(i: nat, fate: Fate, minted: Id) returns (r: Option<Id>)
      requires Valid() && i < |reqs|
      requires if reqs[i] == "" then sys.clients[i].Reading? else sys.clients[i].Creating?
      modifies this`sys
      ensures Valid() && sys == Apply(reqs, old(sys), Move(i, fate, minted))
      ensures r.Some? ==> Created(reqs, old(sys), sys, i, minted) && r.value == IdFor(reqs, i, minted)
      ensures r.None? ==> Untouched(old(sys), sys) || (fate.RaiseAfter? && Created(reqs, old(sys), sys, i, minted))
      ensures r.Some? <==> fate.Fine? && IdFor(reqs, i, minted) !in old(sys).store
      ensures IdFor(reqs, i, minted) in old(sys).store ==> Untouched(old(sys), sys)
      ensures forall j | 0 <= j < |reqs| && j != i :: sys.clients[j] == old(sys).clients[j]
    {
      var id := if reqs[i] == "" then minted else reqs[i];
      r := if fate.Fine? && id !in sys.store then Some(id) else None;
      sys := Apply(reqs, sys, Move(i, fate, minted));
    }
  }

  lemma {:induction false} RunConcat(reqs: Requests, s: System, a: seq<Event>, b: seq<Event>)
    requires Shaped(reqs, s)
    ensures Run(reqs, s, a + b) == Run(reqs, Run(reqs, s, a), b)
  {
    if b == [] {
      assert a + b == a;
    } else {
      assert (a + b)[..|a + b| - 1] == a + b[..|b| - 1];
      RunConcat(reqs, s, a, b[..|b| - 1]);
    }
  }

  lemma RunOne(reqs: Requests, s: System, e: Event)
    requires Shaped(reqs, s)
    ensures Run(reqs, s, [e]) == Apply(reqs, s, e)
  {
    assert [e][..0] == [];
  }

  lemma ReturnIsTrue(reqs: Requests, s: System, t: seq<Event>, i: nat)
    requires i < |reqs| && Shaped(reqs, s) && s.clients[i].Reading?
    ensures var c := Run(reqs, s, t).clients[i]; c.Returned? ==> exists k :: TrueReturn(reqs, s, t, k, i, c)
  {
    if Run(reqs, s, t).clients[i].Returned? { var k := EveryReturnIsTrue(reqs, s, t, i); }
  }

  /** Client `i`, with the others' events between its steps: one run of the machine, at whose end the
      machine holds the outcome the code returns. */
  method StartOrGet(host: DurableHost, i: nat, fates: seq<Fate>, minted: Id, gap1: seq<Event>, gap2: seq<Event>)
    returns (r: Client, ghost t: seq<Event>)
    requires host.Valid() && i < |host.reqs| && host.sys.clients[i].Reading? && |fates| == 3
    requires forall e <- gap1 + gap2 :: e.Move? ==> e.i != i
    modifies host
    ensures host.Valid() && Done(r) && host.sys.clients[i] == r
    ensures host.sys == Run(host.reqs, old(host.sys), t)
    ensures r.Returned? ==> exists k :: TrueReturn(host.reqs, old(host.sys), t, k, i, r)
  {
    hide Run, TrueReturn;
    ghost var s0 := host.sys;
    if host.reqs[i] == "" {
      var made := host.StartNew(i, fates[0], minted);
      t := [Move(i, fates[0], minted)];
      RunOne(host.reqs, s0, t[0]);
      r := match made case Some(id) => Returned(id, true, None) case None => CreateError;
      ReturnIsTrue(host.reqs, s0, t, i);
      return;
    }
    var id := host.reqs[i];
    var existing := host.GetStatus(i, fates[0]);
    t := [Move(i, fates[0], "")];
    RunOne(host.reqs, s0, t[0]);
    if existing.StatusRaised? { r := ReadError; return; }
    if existing.runtime.Some? {
      r := Returned(id, false, existing.runtime);
      ReturnIsTrue(host.reqs, s0, t, i);
      return;
    }
    host.OthersRun(i, gap1);
    RunConcat(host.reqs, s0, t, gap1);
    t := t + gap1;
    ghost var s1 := host.sys;
    var made := host.StartNew(i, fates[1], minted);
    RunConcat(host.reqs, s0, t, [Move(i, fates[1], minted)]);
    RunOne(host.reqs, s1, Move(i, fates[1], minted));
    t := t + [Move(i, fates[1], minted)];
    if made.Some? {
      r := Returned(made.value, true, None);
      ReturnIsTrue(host.reqs, s0, t, i);
      return;
    }
    host.OthersRun(i, gap2);
    RunConcat(host.reqs, s0, t, gap2);
    t := t + gap2;
    ghost var s2 := host.sys;
    var raced := host.GetStatus(i, fates[2]);
    RunConcat(host.reqs, s0, t, [Move(i, fates[2], "")]);
    RunOne(host.reqs, s2, Move(i, fates[2], ""));
    t := t + [Move(i, fates[2], "")];
    if raced.StatusRaised? { r := ReadError; return; }
    if raced.runtime.Some? {
      r := Returned(id, false, raced.runtime);
      ReturnIsTrue(host.reqs, s0, t, i);
      return;
    }
    r := CreateError;
  }
}
