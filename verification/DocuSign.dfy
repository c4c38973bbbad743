/** The DocuSign mock: envelopes whose recipients sign in routing order or decline. */
module DocuSign {
  import opened Values

  datatype RecipientStatus = Pending | Signed | Declined

  datatype EnvelopeStatus = Sent | InProgress | Completed | EnvelopeDeclined

  datatype Recipient = Recipient(
    id: string, name: string, email: string, order: real, status: RecipientStatus, signedAt: Option<string>)

  datatype Action =
    | Created | EnvelopeSent | RecipientSigned | RecipientDeclined
    | CompletedEvent | DeclinedEvent | RoutingUpdated

  datatype Audit = Audit(ts: string, actor: string, action: Action)

  datatype Envelope = Envelope(
    id: string, status: EnvelopeStatus, updatedAt: string, recipients: seq<Recipient>, audit: seq<Audit>)

  /** `recomputeStatus`. */
  function StatusOf(rs: seq<Recipient>): EnvelopeStatus {
    if exists r <- rs :: r.status.Declined? then EnvelopeDeclined
    else if forall r <- rs :: r.status.Signed? then Completed
    else if exists r <- rs :: r.status.Signed? then InProgress
    else Sent
  }

  // ---------------------------------------------------------------------------------------------
  // Choosing the recipient
  // ---------------------------------------------------------------------------------------------

  function FindId(rs: seq<Recipient>, id: string): Option<nat> {
    FirstWhere(rs, (r: Recipient) => r.id == id, 0)
  }

  function FirstPending(rs: seq<Recipient>): Option<nat> {
    FirstWhere(rs, (r: Recipient) => r.status.Pending?, 0)
  }

  /** `Array.find`: the first index from `i` on that satisfies `p`. */
  function FirstWhere(rs: seq<Recipient>, p: Recipient -> bool, i: nat): (k: Option<nat>)
    requires i <= |rs|
    ensures k.Some? ==> i <= k.value < |rs| && p(rs[k.value]) && forall j | i <= j < k.value :: !p(rs[j])
    ensures k.None? ==> forall j | i <= j < |rs| :: !p(rs[j])
    decreases |rs| - i
  {
    if i == |rs| then None else if p(rs[i]) then Some(i) else FirstWhere(rs, p, i + 1)
  }

  /** Position `a` comes before `b` in a stable sort by routing order. */
  predicate Before(rs: seq<Recipient>, a: nat, b: nat)
    requires a < |rs| && b < |rs|
  {
    rs[a].order < rs[b].order || (rs[a].order == rs[b].order && a < b)
  }

  /** The head of the pending recipients, stably sorted by routing order. */
  predicate IsNext(rs: seq<Recipient>, k: nat) {
    k < |rs| && rs[k].status.Pending? && forall j | 0 <= j < |rs| && rs[j].status.Pending? && j != k :: Before(rs, k, j)
  }

  function NextUpTo(rs: seq<Recipient>, n: nat): (k: Option<nat>)
    requires n <= |rs|
    ensures k.Some? ==> IsNext(rs[..n], k.value)
    ensures k.None? ==> forall j | 0 <= j < n :: !rs[j].status.Pending?
  {
    if n == 0 then None
    else
      var best := NextUpTo(rs, n - 1);
      if !rs[n - 1].status.Pending? then best
      else if best.None? || rs[n - 1].order < rs[best.value].order then Some(n - 1)
      else best
  }

  function Next(rs: seq<Recipient>): (k: Option<nat>)
    ensures k.Some? ==> IsNext(rs, k.value)
    ensures k.None? ==> forall j | 0 <= j < |rs| :: !rs[j].status.Pending?
  {
    assert rs[..|rs|] == rs;
    NextUpTo(rs, |rs|)
  }

  // ---------------------------------------------------------------------------------------------
  // The handlers on one envelope
  // ---------------------------------------------------------------------------------------------

  datatype Reply = Ok(status: EnvelopeStatus, recipient: nat) | NoPendingRecipient | RecipientNotPending

  /** An empty `who` means none was named. */
  datatype Op = Sign(who: string, ts: string) | Decline(who: string, ts: string)

  function Mark(rs: seq<Recipient>, k: nat, status: RecipientStatus, ts: string): seq<Recipient>
    requires k < |rs|
  {
    rs[k := rs[k].(status := status, signedAt := Some(ts))]
  }

  function SignAt(e: Envelope, k: nat, ts: string): Envelope
    requires k < |e.recipients|
  {
    var rs := Mark(e.recipients, k, Signed, ts);
    e.(recipients := rs, status := StatusOf(rs), updatedAt := ts,
       audit := e.audit + [Audit(ts, e.recipients[k].email, RecipientSigned)]
                + (if StatusOf(rs).Completed? then [Audit(ts, "system", CompletedEvent)] else []))
  }

  function DeclineAt(e: Envelope, k: nat, ts: string): Envelope
    requires k < |e.recipients|
  {
    var rs := Mark(e.recipients, k, Declined, ts);
    e.(recipients := rs, status := StatusOf(rs), updatedAt := ts,
       audit := e.audit + [Audit(ts, e.recipients[k].email, RecipientDeclined), Audit(ts, "system", DeclinedEvent)])
  }

  function Target(e: Envelope, op: Op): (k: Option<nat>)
    ensures k.Some? ==> k.value < |e.recipients|
  {
    if op.who != "" then FindId(e.recipients, op.who)
    else if op.Sign? then Next(e.recipients)
    else FirstPending(e.recipients)
  }

  function Step(e: Envelope, op: Op): (Envelope, Reply) {
    match Target(e, op)
    case None => (e, NoPendingRecipient)
    case Some(k) =>
      if op.Decline? then (DeclineAt(e, k, op.ts), Ok(DeclineAt(e, k, op.ts).status, k))
      else if !e.recipients[k].status.Pending? then (e, RecipientNotPending)
      else (SignAt(e, k, op.ts), Ok(SignAt(e, k, op.ts).status, k))
  }

  function Run(e: Envelope, ops: seq<Op>): Envelope {
    if ops == [] then e else Step(Run(e, ops[..|ops| - 1]), ops[|ops| - 1]).0
  }

  /** Which status stands for which recipients. */
  lemma StatusMeaning(rs: seq<Recipient>)
    ensures StatusOf(rs) == EnvelopeDeclined <==> exists i :: 0 <= i < |rs| && rs[i].status == Declined
    ensures StatusOf(rs) == Completed <==> forall i | 0 <= i < |rs| :: rs[i].status == Signed
    ensures StatusOf(rs) == InProgress <==>
      && (exists i :: 0 <= i < |rs| && rs[i].status == Signed) && (exists i :: 0 <= i < |rs| && rs[i].status == Pending)
      && forall i | 0 <= i < |rs| :: rs[i].status != Declined
    ensures StatusOf(rs) == Sent <==> rs != [] && forall i | 0 <= i < |rs| :: rs[i].status == Pending
  {
    assert forall i | 0 <= i < |rs| :: rs[i] in rs;
    if rs != [] { assert rs[0] in rs; }
  }

  /** Whom a call is for: the first recipient of that id, or, when nobody is named, for a signature the pending
      one of the lowest routing order, earlier ones first, and for a decline the first pending one. */
  predicate Chosen(rs: seq<Recipient>, op: Op, k: nat) {
    && k < |rs|
    && if op.who != "" then rs[k].id == op.who && forall j | 0 <= j < k :: rs[j].id != op.who
       else
         && rs[k].status == Pending
         && if op.Sign? then
              forall j | 0 <= j < |rs| && rs[j].status == Pending && j != k ::
                rs[k].order < rs[j].order || (rs[k].order == rs[j].order && k < j)
            else forall j | 0 <= j < k :: rs[j].status != Pending
  }

  lemma TargetMeaning(e: Envelope, op: Op)
    ensures forall k: nat :: Target(e, op) == Some(k) <==> Chosen(e.recipients, op, k)
    ensures Target(e, op) == None <==> forall k | 0 <= k < |e.recipients| ::
      if op.who != "" then e.recipients[k].id != op.who else e.recipients[k].status != Pending
  {
    hide NextUpTo, FirstWhere;
    var target := Target(e, op);
    assert target.Some? ==> Chosen(e.recipients, op, target.value);
    forall k: nat | Chosen(e.recipients, op, k) ensures target == Some(k) {
      assert target.Some?;
      ChosenUnique(e.recipients, op, k, target.value);
    }
  }

  lemma ChosenUnique(rs: seq<Recipient>, op: Op, a: nat, b: nat)
    requires Chosen(rs, op, a) && Chosen(rs, op, b)
    ensures a == b
  {}

  /** A call is refused when it chooses nobody, or would sign a recipient who is not pending.  Otherwise it sets
      the status and the time of the chosen one, of nobody else, and replies with the new status. */
  lemma CallMeaning(e: Envelope, op: Op)
    ensures var (n, r) := Step(e, op);
      && (r == NoPendingRecipient <==> forall k: nat :: !Chosen(e.recipients, op, k))
      && (r == RecipientNotPending <==>
            op.Sign? && exists k: nat :: Chosen(e.recipients, op, k) && e.recipients[k].status != Pending)
      && (r.Ok? ==>
            && Chosen(e.recipients, op, r.recipient) && r.status == n.status && n.id == e.id && n.updatedAt == op.ts
            && |n.recipients| == |e.recipients|
            && (forall i | 0 <= i < |e.recipients| && i != r.recipient :: n.recipients[i] == e.recipients[i])
            && var was := e.recipients[r.recipient];
               n.recipients[r.recipient] == Recipient(
                 was.id, was.name, was.email, was.order, if op.Sign? then Signed else Declined, Some(op.ts)))
  {
    TargetMeaning(e, op);
    hide Target, Chosen, StatusOf;
    match Target(e, op)
    case Some(k) => assert Chosen(e.recipients, op, k);
    case None =>
      forall k: nat ensures !Chosen(e.recipients, op, k) { assert Target(e, op) != Some(k); }
  }

  // ---------------------------------------------------------------------------------------------
  // What every run keeps
  // ---------------------------------------------------------------------------------------------

  function Count(audit: seq<Audit>, action: Action): nat {
    if audit == [] then 0
    else Count(audit[..|audit| - 1], action) + (if audit[|audit| - 1].action == action then 1 else 0)
  }

  lemma {:induction false} CountConcat(a: seq<Audit>, b: seq<Audit>, action: Action)
    ensures Count(a + b, action) == Count(a, action) + Count(b, action)
  {
    if b == [] {
      assert a + b == a;
    } else {
      assert (a + b)[..|a + b| - 1] == a + b[..|b| - 1];
      CountConcat(a, b[..|b| - 1], action);
    }
  }

  predicate Inv(e: Envelope) {
    && e.recipients != [] && e.status == StatusOf(e.recipients)
    && Count(e.audit, CompletedEvent) <= 1
    && (Count(e.audit, CompletedEvent) == 1 ==> NonePending(e.recipients))
  }

  lemma CountOne(a: Audit, action: Action)
    ensures Count([a], action) == if a.action == action then 1 else 0
  {
    assert [a][..0] == [];
  }

  lemma SignAudit(e: Envelope, k: nat, ts: string)
    requires k < |e.recipients|
    ensures Count(SignAt(e, k, ts).audit, CompletedEvent)
         == Count(e.audit, CompletedEvent) + (if SignAt(e, k, ts).status.Completed? then 1 else 0)
  {
    var signed, ended := Audit(ts, e.recipients[k].email, RecipientSigned), Audit(ts, "system", CompletedEvent);
    CountConcat(e.audit, [signed], CompletedEvent);
    CountConcat(e.audit + [signed], [ended], CompletedEvent);
    CountOne(signed, CompletedEvent);
    CountOne(ended, CompletedEvent);
    assert e.audit + [signed] + [] == e.audit + [signed];
  }

  lemma DeclineAudit(e: Envelope, k: nat, ts: string)
    requires k < |e.recipients|
    ensures Count(DeclineAt(e, k, ts).audit, CompletedEvent) == Count(e.audit, CompletedEvent)
  {
    var declined, ended := Audit(ts, e.recipients[k].email, RecipientDeclined), Audit(ts, "system", DeclinedEvent);
    CountConcat(e.audit, [declined, ended], CompletedEvent);
    assert [declined, ended] == [declined] + [ended];
    CountConcat([declined], [ended], CompletedEvent);
    CountOne(declined, CompletedEvent);
    CountOne(ended, CompletedEvent);
  }

  /** What one call adds to the audit. */
  function Entries(e: Envelope, op: Op): seq<Audit> {
    match Step(e, op).1
    case Ok(status, k) =>
      if k >= |e.recipients| then []
      else if op.Decline? then
        [Audit(op.ts, e.recipients[k].email, RecipientDeclined), Audit(op.ts, "system", DeclinedEvent)]
      else
        [Audit(op.ts, e.recipients[k].email, RecipientSigned)]
        + (if status.Completed? then [Audit(op.ts, "system", CompletedEvent)] else [])
    case _ => []
  }

  lemma CompletionsCounted(e: Envelope, op: Op)
    ensures Count(Step(e, op).0.audit, CompletedEvent) == Count(e.audit, CompletedEvent)
      + (if op.Sign? && Step(e, op).1.Ok? && Step(e, op).0.status.Completed? then 1 else 0)
  {
    var k := Target(e, op);
    if k.Some? {
      if op.Sign? { SignAudit(e, k.value, op.ts); } else { DeclineAudit(e, k.value, op.ts); }
    }
  }

  /** A call only appends to the audit: nothing when it is refused, otherwise who acted and, for a decline
      or for the signature that completes the envelope, what became of it. */
  lemma AuditGrowth(e: Envelope, op: Op)
    ensures Step(e, op).0.audit == e.audit + Entries(e, op)
    ensures !Step(e, op).1.Ok? <==> Entries(e, op) == []
    ensures Count(Step(e, op).0.audit, CompletedEvent) == Count(e.audit, CompletedEvent)
      + (if op.Sign? && Step(e, op).1.Ok? && Step(e, op).0.status.Completed? then 1 else 0)
  {
    CompletionsCounted(e, op);
  }

  predicate NonePending(rs: seq<Recipient>) { forall r <- rs :: !r.status.Pending? }

  lemma NonePendingStays(e: Envelope, op: Op)
    requires NonePending(e.recipients)
    ensures NonePending(Step(e, op).0.recipients)
    ensures op.Sign? ==> !Step(e, op).1.Ok?
  {
    var n := Step(e, op).0;
    forall r <- n.recipients ensures !r.status.Pending? {
      var j :| 0 <= j < |n.recipients| && n.recipients[j] == r;
      assert e.recipients[j] in e.recipients;
    }
    var k := Target(e, op);
    if k.Some? { assert e.recipients[k.value] in e.recipients; }
  }

  lemma StatusIsCurrent(e: Envelope, op: Op)
    requires e.status == StatusOf(e.recipients)
    ensures Step(e, op).0.status == StatusOf(Step(e, op).0.recipients)
    ensures |Step(e, op).0.recipients| == |e.recipients|
  {}

  lemma StepKeepsInv(e: Envelope, op: Op)
    requires Inv(e)
    ensures Inv(Step(e, op).0)
  {
    CompletionsCounted(e, op);
    StatusIsCurrent(e, op);
    if NonePending(e.recipients) { NonePendingStays(e, op); }
  }

  /** The stored status is always the status of the recipients, and completion is audited at most once. */
  lemma {:induction false} RunKeepsInv(e: Envelope, ops: seq<Op>)
    requires Inv(e)
    ensures Inv(Run(e, ops))
  {
    if ops == [] {
    } else {
      RunKeepsInv(e, ops[..|ops| - 1]);
      StepKeepsInv(Run(e, ops[..|ops| - 1]), ops[|ops| - 1]);
    }
  }

  /** `envelope.completed` is written by exactly those calls that leave every recipient signed. */
  lemma CompletionAuditedExactly(e: Envelope, op: Op)
    ensures Count(Step(e, op).0.audit, CompletedEvent) > Count(e.audit, CompletedEvent)
       <==> op.Sign? && Step(e, op).1.Ok? && forall r <- Step(e, op).0.recipients :: r.status.Signed?
  {
    CompletionsCounted(e, op);
    if op.Sign? && Step(e, op).1.Ok? {
      assert Step(e, op).0.status == StatusOf(Step(e, op).0.recipients);
    }
  }

  lemma RecipientsMoveForward(e: Envelope, op: Op, i: nat)
    requires i < |e.recipients|
    ensures |Step(e, op).0.recipients| == |e.recipients|
    ensures var (a, b) := (e.recipients[i].status, Step(e, op).0.recipients[i].status);
      a == b || b.Declined? || (a.Pending? && b.Signed?)
  {}

  /** The changes of status one call can make: forward from sent over in progress to completed, or from
      anything to declined. */
  predicate Moves(was: EnvelopeStatus, now: EnvelopeStatus) {
    match was
    case Sent => true
    case InProgress => !now.Sent?
    case Completed => now.Completed? || now.EnvelopeDeclined?
    case EnvelopeDeclined => now.EnvelopeDeclined?
  }

  lemma DeclinedStays(e: Envelope, op: Op)
    requires Inv(e) && e.status.EnvelopeDeclined?
    ensures Step(e, op).0.status.EnvelopeDeclined?
  {
    StatusIsCurrent(e, op);
    var n := Step(e, op).0;
    var r :| r in e.recipients && r.status.Declined?;
    var i :| 0 <= i < |e.recipients| && e.recipients[i] == r;
    RecipientsMoveForward(e, op, i);
    assert n.recipients[i] in n.recipients;
    hide Step;
  }

  lemma CompletedStays(e: Envelope, op: Op)
    requires Inv(e) && e.status.Completed?
    ensures Step(e, op).0.status.Completed? || Step(e, op).0.status.EnvelopeDeclined?
  {
    StatusIsCurrent(e, op);
    var n := Step(e, op).0;
    forall r <- n.recipients ensures !r.status.Pending? {
      var i :| 0 <= i < |n.recipients| && n.recipients[i] == r;
      RecipientsMoveForward(e, op, i);
      assert e.recipients[i] in e.recipients;
    }
    hide Step;
  }

  lemma StartedStays(e: Envelope, op: Op)
    requires Inv(e) && e.status.InProgress?
    ensures !Step(e, op).0.status.Sent?
  {
    StatusIsCurrent(e, op);
    var n := Step(e, op).0;
    var r :| r in e.recipients && r.status.Signed?;
    var i :| 0 <= i < |e.recipients| && e.recipients[i] == r;
    RecipientsMoveForward(e, op, i);
    assert n.recipients[i] in n.recipients;
    hide Step;
  }

  lemma SuccessMoves(e: Envelope, op: Op)
    requires Step(e, op).1.Ok?
    ensures op.Decline? ==> Step(e, op).0.status.EnvelopeDeclined?
    ensures op.Sign? ==> !Step(e, op).0.status.Sent?
  {
    var n, k := Step(e, op).0, Target(e, op).value;
    assert n.recipients[k] in n.recipients;
  }

  lemma SignDeclinesNothing(e: Envelope, op: Op)
    requires e.status == StatusOf(e.recipients) && op.Sign? && Step(e, op).0.status.EnvelopeDeclined?
    ensures e.status.EnvelopeDeclined?
  {
    var n := Step(e, op).0;
    var r :| r in n.recipients && r.status.Declined?;
    var i :| 0 <= i < |n.recipients| && n.recipients[i] == r;
    assert e.recipients[i] in e.recipients;
  }

  /** A call makes only those: a decline that succeeds declines the envelope and nothing else does, a signature
      moves it off "sent", and a refused call changes nothing at all. */
  lemma StatusMoves(e: Envelope, op: Op)
    requires Inv(e)
    ensures Moves(e.status, Step(e, op).0.status)
    ensures Step(e, op).1.Ok? && op.Decline? ==> Step(e, op).0.status.EnvelopeDeclined?
    ensures Step(e, op).1.Ok? && op.Sign? ==> !Step(e, op).0.status.Sent?
    ensures op.Sign? && Step(e, op).0.status.EnvelopeDeclined? ==> e.status.EnvelopeDeclined?
    ensures !Step(e, op).1.Ok? ==> Step(e, op).0 == e
  {
    assert !Step(e, op).1.Ok? ==> Step(e, op).0 == e;
    hide Step;
    if e.status.EnvelopeDeclined? { DeclinedStays(e, op); }
    if e.status.Completed? { CompletedStays(e, op); }
    if e.status.InProgress? { StartedStays(e, op); }
    if Step(e, op).1.Ok? { SuccessMoves(e, op); }
    if op.Sign? && Step(e, op).0.status.EnvelopeDeclined? { SignDeclinesNothing(e, op); }
  }

  /** A declined envelope stays declined; a completed one can only become declined. */
  lemma {:induction false} TerminalStatuses(e: Envelope, ops: seq<Op>)
    requires Inv(e)
    ensures e.status.EnvelopeDeclined? ==> Run(e, ops).status.EnvelopeDeclined?
    ensures e.status.Completed? ==> Run(e, ops).status.Completed? || Run(e, ops).status.EnvelopeDeclined?
  {
    if ops == [] {
    } else {
      var before := Run(e, ops[..|ops| - 1]);
      TerminalStatuses(e, ops[..|ops| - 1]);
      RunKeepsInv(e, ops[..|ops| - 1]);
      StatusMoves(before, ops[|ops| - 1]);
    }
  }

  /** A successful call repairs the stored status even when something else, such as a PATCH of the
      recipients, had left it stale. */
  lemma SuccessRestoresStatus(e: Envelope, op: Op)
    requires Step(e, op).1.Ok?
    ensures Step(e, op).0.status == StatusOf(Step(e, op).0.recipients)
  {}

  // ---------------------------------------------------------------------------------------------
  // Signing in order
  // ---------------------------------------------------------------------------------------------

  /** `p` lists all positions in the stable order of routing order. */
  ghost predicate StableOrder(rs: seq<Recipient>, p: seq<nat>) {
    && |p| == |rs| && (forall i | 0 <= i < |p| :: p[i] < |rs|)
    && (forall i, j | 0 <= i < j < |p| :: Before(rs, p[i], p[j]))
    && (forall k | 0 <= k < |rs| :: k in p)
  }

  predicate Fresh(e: Envelope) {
    e.recipients != [] && e.status.Sent? && forall i | 0 <= i < |e.recipients| :: e.recipients[i].status.Pending?
  }

  /** After `k` calls exactly the first `k` of the order are signed. */
  ghost predicate SignedPrefix(e: Envelope, now: Envelope, p: seq<nat>, k: nat) {
    && k <= |p| && |now.recipients| == |e.recipients|
    && (forall i | 0 <= i < |e.recipients| ::
          now.recipients[i].order == e.recipients[i].order
          && (if i in p[..k] then now.recipients[i].status.Signed? else now.recipients[i].status.Pending?))
  }

  lemma NextInOrder(e: Envelope, now: Envelope, p: seq<nat>, k: nat)
    requires StableOrder(e.recipients, p) && SignedPrefix(e, now, p, k) && k < |p|
    ensures Next(now.recipients) == Some(p[k])
  {
    var rs := now.recipients;
    LaterIsNew(e.recipients, p, k);
    assert rs[p[k]].status.Pending?;
    forall j | 0 <= j < |rs| && rs[j].status.Pending? && j != p[k] ensures Before(rs, p[k], j) {
      assert j in p && j !in p[..k];
      var i :| 0 <= i < |p| && p[i] == j;
      assert i >= k by { assert forall l | 0 <= l < k :: p[l] in p[..k]; }
      assert Before(e.recipients, p[k], p[i]);
    }
    NextUnique(rs, p[k], Next(rs).value);
  }

  lemma NextUnique(rs: seq<Recipient>, a: nat, b: nat)
    requires IsNext(rs, a) && IsNext(rs, b)
    ensures a == b
  {}

  lemma LaterIsNew(rs: seq<Recipient>, p: seq<nat>, k: nat)
    requires StableOrder(rs, p) && k < |p|
    ensures p[k] !in p[..k]
  {
    assert forall i | 0 <= i < k :: Before(rs, p[i], p[k]);
  }

  lemma SignNextInOrder(e: Envelope, now: Envelope, p: seq<nat>, k: nat, ts: string)
    requires StableOrder(e.recipients, p) && SignedPrefix(e, now, p, k) && k < |p|
    ensures var (n, reply) := Step(now, Sign("", ts));
      SignedPrefix(e, n, p, k + 1) && reply.Ok? && reply.recipient == p[k]
  {
    NextInOrder(e, now, p, k);
    assert p[..k + 1] == p[..k] + [p[k]];
  }

  lemma PrefixStatus(e: Envelope, now: Envelope, p: seq<nat>, k: nat)
    requires e.recipients != [] && StableOrder(e.recipients, p) && SignedPrefix(e, now, p, k)
    ensures StatusOf(now.recipients) == if k == 0 then Sent else if k == |p| then Completed else InProgress
  {
    var rs := now.recipients;
    assert p[..|p|] == p;
    forall r <- rs ensures !r.status.Declined? && (k == 0 ==> r.status.Pending?) && (k == |p| ==> r.status.Signed?) {
      var i :| 0 <= i < |rs| && rs[i] == r;
    }
    if k > 0 { assert p[0] in p[..k] && rs[p[0]] in rs; }
    if k < |p| {
      LaterIsNew(e.recipients, p, k);
      assert rs[p[k]] in rs;
    }
  }

  /** Sign calls that name nobody sign the recipients of a fresh envelope in stable routing order,
      complete it with the last of them and not before, and are refused from then on. */
  lemma {:induction false} UnnamedSignsFollowRouting(e: Envelope, p: seq<nat>, ts: seq<string>)
    requires Fresh(e) && StableOrder(e.recipients, p)
    ensures var now := Run(e, seq(|ts|, i requires 0 <= i < |ts| => Sign("", ts[i])));
      && SignedPrefix(e, now, p, if |ts| < |p| then |ts| else |p|)
      && (now.status.Completed? <==> |ts| >= |p|)
      && (forall t :: var reply := Step(now, Sign("", t)).1;
            if |ts| < |p| then reply.Ok? && reply.recipient == p[|ts|] else reply.NoPendingRecipient?)
  {
    var ops := seq(|ts|, i requires 0 <= i < |ts| => Sign("", ts[i]));
    var k := if |ts| < |p| then |ts| else |p|;
    var now := Run(e, ops);
    if ts != [] {
      var before := seq(|ts| - 1, i requires 0 <= i < |ts| - 1 => Sign("", ts[..|ts| - 1][i]));
      assert ops[..|ops| - 1] == before;
      UnnamedSignsFollowRouting(e, p, ts[..|ts| - 1]);
      if |ts| <= |p| { SignNextInOrder(e, Run(e, before), p, |ts| - 1, ts[|ts| - 1]); }
    } else {
      assert p[..0] == [];
    }
    assert SignedPrefix(e, now, p, k);
    StatusAlong(e, p, now, ops, k);
    hide SignedPrefix, Run, Step, StableOrder, Fresh;
    forall t ensures var reply := Step(now, Sign("", t)).1;
      if |ts| < |p| then reply.Ok? && reply.recipient == p[|ts|] else reply.NoPendingRecipient?
    {
      if |ts| < |p| { SignNextInOrder(e, now, p, k, t); } else { NothingLeftToSign(e, now, p, t); }
    }
  }

  lemma NothingLeftToSign(e: Envelope, now: Envelope, p: seq<nat>, ts: string)
    requires Fresh(e) && StableOrder(e.recipients, p) && SignedPrefix(e, now, p, |p|)
    ensures Step(now, Sign("", ts)).1.NoPendingRecipient?
  {
    assert p[..|p|] == p;
  }

  lemma StatusAlong(e: Envelope, p: seq<nat>, now: Envelope, ops: seq<Op>, k: nat)
    requires Fresh(e) && StableOrder(e.recipients, p) && now == Run(e, ops) && SignedPrefix(e, now, p, k)
    ensures now.status.Completed? <==> k == |p|
  {
    PrefixStatus(e, now, p, k);
    assert p[..0] == [];
    PrefixStatus(e, e, p, 0);
    RunStatus(e, ops);
  }

  lemma {:induction false} RunStatus(e: Envelope, ops: seq<Op>)
    requires e.status == StatusOf(e.recipients)
    ensures Run(e, ops).status == StatusOf(Run(e, ops).recipients)
  {
    if ops == [] {
    } else {
      RunStatus(e, ops[..|ops| - 1]);
    }
  }

  /** Every recipient list has a stable order. */
  lemma {:induction false} StableOrderExists(rs: seq<Recipient>) returns (p: seq<nat>)
    ensures StableOrder(rs, p)
  {
    if rs == [] {
      p := [];
    } else {
      var m := |rs| - 1;
      var q := StableOrderExists(rs[..m]);
      var at := InsertionPoint(rs, q, m);
      p := q[..at] + [m] + q[at..];
      forall i, j | 0 <= i < j < |p| ensures Before(rs, p[i], p[j]) {
        if i != at && j != at {
          var a, b := if i < at then i else i - 1, if j < at then j else j - 1;
          assert Before(rs[..m], q[a], q[b]);
        }
      }
      forall k | 0 <= k < |rs| ensures k in p {
        if k == m { assert p[at] == m; } else { assert k in q[..at] + q[at..] by { assert q == q[..at] + q[at..]; } }
      }
    }
  }

  lemma {:induction false} InsertionPoint(rs: seq<Recipient>, q: seq<nat>, m: nat) returns (at: nat)
    requires m < |rs| && forall i | 0 <= i < |q| :: q[i] < m
    requires forall i, j | 0 <= i < j < |q| :: Before(rs[..m], q[i], q[j])
    ensures at <= |q| && (forall i | 0 <= i < at :: Before(rs, q[i], m))
    ensures forall i | at <= i < |q| :: Before(rs, m, q[i])
  {
    at := 0;
    while at < |q| && rs[q[at]].order <= rs[m].order
      invariant at <= |q| && forall i | 0 <= i < at :: rs[q[i]].order <= rs[m].order
    {
      at := at + 1;
    }
    if at < |q| {
      forall i | at <= i < |q| ensures Before(rs, m, q[i]) {
        if i > at { assert Before(rs[..m], q[at], q[i]); }
      }
    }
  }

  // ---------------------------------------------------------------------------------------------
  // The service
  // ---------------------------------------------------------------------------------------------

  /** A recipient in a create request: the id and routing order may be missing. */
  datatype NewRecipient = NewRecipient(id: Option<string>, name: string, email: string, order: Option<real>)

  function Initial(id: string, rs: seq<NewRecipient>, ts: string): Envelope {
    Envelope(
      id, Sent, ts,
      seq(|rs|, i requires 0 <= i < |rs| => Recipient(
        match rs[i].id case Some(r) => r case None => "r" + Decimal(i + 1),
        rs[i].name, rs[i].email,
        match rs[i].order case Some(o) => o case None => (i + 1) as real,
        Pending, None)),
      [Audit(ts, "system", Created), Audit(ts, "system", EnvelopeSent)])
  }

  /** A created envelope carries the requested recipients in order: a missing id is "r1", "r2" and so on, a
      missing routing order the position counted from one. */
  lemma CreatedFields(id: string, rs: seq<NewRecipient>, ts: string)
    ensures var e := Initial(id, rs, ts);
      && e.id == id && e.status == Sent && e.updatedAt == ts && |e.recipients| == |rs|
      && e.audit == [Audit(ts, "system", Created), Audit(ts, "system", EnvelopeSent)]
      && forall i | 0 <= i < |rs| ::
        && e.recipients[i].name == rs[i].name && e.recipients[i].email == rs[i].email
        && e.recipients[i].status == Pending && e.recipients[i].signedAt == None
        && (if rs[i].id.Some? then rs[i].id == Some(e.recipients[i].id) else e.recipients[i].id == "r" + Decimal(i + 1))
        && (if rs[i].order.Some? then rs[i].order == Some(e.recipients[i].order)
            else e.recipients[i].order == 1.0 + i as real)
  {}

  lemma CreatedEnvelopeSound(id: string, rs: seq<NewRecipient>, ts: string)
    requires rs != []
    ensures Inv(Initial(id, rs, ts)) && Fresh(Initial(id, rs, ts))
  {
    var e := Initial(id, rs, ts);
    assert e.audit[..1] == [e.audit[0]] && [e.audit[0]][..0] == [];
    assert Count(e.audit, CompletedEvent) == Count([e.audit[0]], CompletedEvent) == 0;
    assert e.recipients[0] in e.recipients;
  }

  /** The audit entries a seeded envelope starts with, for its first `n` recipients. */
  function SeedAudit(rs: seq<Recipient>, ts: string, n: nat): seq<Audit>
    requires n <= |rs|
  {
    if n == 0 then [Audit(ts, "system", Created), Audit(ts, "system", EnvelopeSent)]
    else
      var r := rs[n - 1];
      SeedAudit(rs, ts, n - 1)
      + (if r.signedAt.None? || r.status.Pending? then []
         else [Audit(r.signedAt.value, r.email, if r.status.Signed? then RecipientSigned else RecipientDeclined)])
  }

  function Seed(id: string, status: EnvelopeStatus, rs: seq<Recipient>, ts: string): Envelope {
    Envelope(id, status, ts, rs,
             SeedAudit(rs, ts, |rs|)
             + (if status.Completed? then [Audit(ts, "system", CompletedEvent)]
                else if status.EnvelopeDeclined? then [Audit(ts, "system", DeclinedEvent)] else []))
  }

  lemma {:induction false} SeedAuditCount(rs: seq<Recipient>, ts: string, n: nat)
    requires n <= |rs|
    ensures Count(SeedAudit(rs, ts, n), CompletedEvent) == 0
  {
    if n == 0 {
      var a, b := Audit(ts, "system", Created), Audit(ts, "system", EnvelopeSent);
      assert [a, b] == [a] + [b];
      CountConcat([a], [b], CompletedEvent);
      CountOne(a, CompletedEvent);
      CountOne(b, CompletedEvent);
    } else {
      var r := rs[n - 1];
      SeedAuditCount(rs, ts, n - 1);
      if r.signedAt.None? || r.status.Pending? {
        assert SeedAudit(rs, ts, n) == SeedAudit(rs, ts, n - 1);
      } else {
        var last := Audit(r.signedAt.value, r.email, if r.status.Signed? then RecipientSigned else RecipientDeclined);
        CountConcat(SeedAudit(rs, ts, n - 1), [last], CompletedEvent);
        CountOne(last, CompletedEvent);
      }
    }
  }

  /** A seeded envelope satisfies the invariant exactly when its written-in status is the one its
      recipients imply, as it is for all six seeds. */
  lemma SeedSound(id: string, status: EnvelopeStatus, rs: seq<Recipient>, ts: string)
    requires rs != []
    ensures Inv(Seed(id, status, rs, ts)) <==> status == StatusOf(rs)
  {
    SeedAuditCount(rs, ts, |rs|);
    var ended := Seed(id, status, rs, ts).audit[|SeedAudit(rs, ts, |rs|)|..];
    assert Seed(id, status, rs, ts).audit == SeedAudit(rs, ts, |rs|) + ended;
    CountConcat(SeedAudit(rs, ts, |rs|), ended, CompletedEvent);
    EndingCount(status, ts, ended);
    hide Count, SeedAudit, StatusOf;
  }

  lemma EndingCount(status: EnvelopeStatus, ts: string, ended: seq<Audit>)
    requires ended == if status.Completed? then [Audit(ts, "system", CompletedEvent)]
                      else if status.EnvelopeDeclined? then [Audit(ts, "system", DeclinedEvent)] else []
    ensures Count(ended, CompletedEvent) == if status.Completed? then 1 else 0
  {
    if ended != [] { CountOne(ended[0], CompletedEvent); }
  }

  /** The patterns of recipients in the six seeds: two pending (twice), one signed of two (twice), a single
      signed one and a single declined one.  With the statuses written there, all satisfy the invariant. */
  lemma SixSeeds(id: string, ts: string, p: Recipient, q: Recipient, s: Recipient, d: Recipient)
    requires p.status.Pending? && q.status.Pending? && s.status.Signed? && d.status.Declined?
    ensures Inv(Seed(id, Sent, [p, q], ts)) && Inv(Seed(id, InProgress, [s, p], ts))
    ensures Inv(Seed(id, Completed, [s], ts)) && Inv(Seed(id, EnvelopeDeclined, [d], ts))
  {
    assert [p, q][0] == p && [p, q][1] == q && [s, p][0] == s && [s, p][1] == p && [d][0] == d;
    hide Inv, Seed;
    SeedSound(id, Sent, [p, q], ts);
    SeedSound(id, InProgress, [s, p], ts);
    SeedSound(id, Completed, [s], ts);
    SeedSound(id, EnvelopeDeclined, [d], ts);
  }

  /** The updates of the sign handler, in order. */
  method SignRecipient(was: Envelope, k: nat, ts: string) returns (e: Envelope)
    requires k < |was.recipients|
    ensures e == SignAt(was, k, ts)
  {
    var target := was.recipients[k];
    e := was.(recipients := was.recipients[k := target.(status := Signed, signedAt := Some(ts))], updatedAt := ts,
              audit := was.audit + [Audit(ts, target.email, RecipientSigned)]);
    e := e.(status := StatusOf(e.recipients));
    assert e.audit + [] == e.audit;
    if e.status.Completed? { e := e.(audit := e.audit + [Audit(ts, "system", CompletedEvent)]); }
  }

  /** The updates of the decline handler, in order. */
  method DeclineRecipient(was: Envelope, k: nat, ts: string) returns (e: Envelope)
    requires k < |was.recipients|
    ensures e == DeclineAt(was, k, ts)
  {
    var target := was.recipients[k];
    var declined, ended := Audit(ts, target.email, RecipientDeclined), Audit(ts, "system", DeclinedEvent);
    e := was.(recipients := was.recipients[k := target.(status := Declined, signedAt := Some(ts))], updatedAt := ts,
              audit := was.audit + [declined]);
    e := e.(status := StatusOf(e.recipients));
    e := e.(audit := e.audit + [ended]);
    assert was.audit + [declined] + [ended] == was.audit + [declined, ended];
  }

  class Service {
    var envelopes: map<string, Envelope>

    constructor ()
      ensures envelopes == map[]
    { envelopes := map[]; }

    ghost predicate Valid()
      reads this
    {
      forall id <- envelopes :: Inv(envelopes[id])
    }

    /** POST /api/envelopes; `id` is the random id. */
    method Create(id: string, subject: string, contract: string, rs: seq<NewRecipient>, ts: string)
      returns (r: Option<EnvelopeStatus>)
      requires Valid()
      modifies this
      ensures Valid()
      ensures subject == "" || contract == "" || rs == [] ==> r.None? && envelopes == old(envelopes)
      ensures !(subject == "" || contract == "" || rs == []) ==>
        r == Some(Sent) && envelopes == old(envelopes)[id := Initial(id, rs, ts)]
    {
      if subject == "" || contract == "" || rs == [] { return None; }
      CreatedEnvelopeSound(id, rs, ts);
      envelopes := envelopes[id := Initial(id, rs, ts)];
      r := Some(Sent);
    }

    /** The filter, stable sort and head of the sign handler. */
    method NextPending(rs: seq<Recipient>) returns (k: Option<nat>)
      ensures k == Next(rs)
    {
      k := None;
      for i := 0 to |rs|
        invariant k == NextUpTo(rs, i)
        invariant k.Some? ==> k.value < i
      {
        if rs[i].status.Pending? && (k.None? || rs[i].order < rs[k.value].order) { k := Some(i); }
      }
    }

    /** POST /api/envelopes/:id/sign; nothing when there is no such envelope. */
    method SignEnvelope(id: string, who: string, ts: string) returns (r: Option<Reply>)
      requires Valid()
      modifies this
      ensures Valid()
      ensures id !in old(envelopes) ==> r.None? && envelopes == old(envelopes)
      ensures id in old(envelopes) ==>
        r == Some(Step(old(envelopes)[id], Sign(who, ts)).1)
        && envelopes == old(envelopes)[id := Step(old(envelopes)[id], Sign(who, ts)).0]
    {
      if id !in envelopes { return None; }
      var e := envelopes[id];
      StepKeepsInv(e, Sign(who, ts));
      var target: Option<nat>;
      if who != "" { target := FindId(e.recipients, who); } else { target := NextPending(e.recipients); }
      if target.None? { assert envelopes == envelopes[id := e]; return Some(NoPendingRecipient); }
      var k := target.value;
      if !e.recipients[k].status.Pending? { assert envelopes == envelopes[id := e]; return Some(RecipientNotPending); }
      e := SignRecipient(e, k, ts);
      envelopes := envelopes[id := e];
      r := Some(Ok(e.status, k));
    }

    /** POST /api/envelopes/:id/decline. */
    method DeclineEnvelope(id: string, who: string, ts: string) returns (r: Option<Reply>)
      requires Valid()
      modifies this
      ensures Valid()
      ensures id !in old(envelopes) ==> r.None? && envelopes == old(envelopes)
      ensures id in old(envelopes) ==>
        r == Some(Step(old(envelopes)[id], Decline(who, ts)).1)
        && envelopes == old(envelopes)[id := Step(old(envelopes)[id], Decline(who, ts)).0]
    {
      if id !in envelopes { return None; }
      var e := envelopes[id];
      StepKeepsInv(e, Decline(who, ts));
      var target := if who != "" then FindId(e.recipients, who) else FirstPending(e.recipients);
      if target.None? { assert envelopes == envelopes[id := e]; return Some(NoPendingRecipient); }
      var k := target.value;
      e := DeclineRecipient(e, k, ts);
      envelopes := envelopes[id := e];
      r := Some(Ok(e.status, k));
    }
  }
}
