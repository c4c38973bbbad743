/** The SAP finance mock: invoices, the GL documents that posting them creates, and their ids. */
module SapLedger {
  import opened Values

  datatype Posting = Unposted | Posted(glId: string)

  datatype Invoice = Invoice(
    id: string, vendor: string, currency: string, amount: real, posting: Posting, createdAt: string,
    description: string)

  datatype GLDoc = GLDoc(id: string, invoice: string, postedAt: string, amount: real, currency: string)

  /** The arrays and sequence counters of the server. */
  datatype Books = Books(vendors: set<string>, invoices: seq<Invoice>, docs: seq<GLDoc>, invSeq: nat, glSeq: nat)

  function InvoiceId(n: nat): string { "INV-" + Decimal(n) }

  function GLId(n: nat): string { "GL-" + Decimal(n) }

  lemma InvoiceIdInjective(a: nat, b: nat)
    ensures InvoiceId(a) == InvoiceId(b) <==> a == b
  {
    if InvoiceId(a) == InvoiceId(b) {
      assert InvoiceId(a)[4..] == Decimal(a) && InvoiceId(b)[4..] == Decimal(b);
      DecimalInjective(a, b);
    }
  }

  lemma GLIdInjective(a: nat, b: nat)
    ensures GLId(a) == GLId(b) <==> a == b
  {
    if GLId(a) == GLId(b) {
      assert GLId(a)[3..] == Decimal(a) && GLId(b)[3..] == Decimal(b);
      DecimalInjective(a, b);
    }
  }

  /** `invoices.find`. */
  function FindInvoice(invoices: seq<Invoice>, id: string): (k: Option<nat>)
    ensures k.Some? ==> k.value < |invoices| && invoices[k.value].id == id
    ensures k.None? <==> forall i | 0 <= i < |invoices| :: invoices[i].id != id
  {
    if invoices == [] then None
    else if invoices[0].id == id then Some(0)
    else match FindInvoice(invoices[1..], id) case Some(k) => Some(k + 1) case None => None
  }

  // ---------------------------------------------------------------------------------------------
  // The two handlers
  // ---------------------------------------------------------------------------------------------

  datatype Op =
    | Create(vendor: string, currency: string, amount: Option<real>, description: string, ts: string)
    | Post(id: string, ts: string)

  datatype Reply =
    | MissingFields | VendorNotFound | Created(id: string)
    | InvoiceNotFound | AlreadyPosted(glId: string) | PostedAs(glId: string)

  function NewInvoice(b: Books, op: Op): Invoice
    requires op.Create? && op.amount.Some?
  {
    Invoice(InvoiceId(9000 + b.invSeq), op.vendor, op.currency, op.amount.value, Unposted, op.ts, op.description)
  }

  function DocFor(b: Books, k: nat, ts: string): GLDoc
    requires k < |b.invoices|
  {
    GLDoc(GLId(b.glSeq), b.invoices[k].id, ts, b.invoices[k].amount, b.invoices[k].currency)
  }

  function PostAt(b: Books, k: nat, ts: string): Books
    requires k < |b.invoices|
  {
    b.(invoices := b.invoices[k := b.invoices[k].(posting := Posted(GLId(b.glSeq)))],
       docs := b.docs + [DocFor(b, k, ts)], glSeq := b.glSeq + 1)
  }

  function Step(b: Books, op: Op): (Books, Reply) {
    match op
    case Create(vendor, currency, amount, _, _) =>
      if vendor == "" || currency == "" || amount.None? then (b, MissingFields)
      else if vendor !in b.vendors then (b, VendorNotFound)
      else (b.(invoices := b.invoices + [NewInvoice(b, op)], invSeq := b.invSeq + 1),
            Created(InvoiceId(9000 + b.invSeq)))
    case Post(id, ts) =>
      match FindInvoice(b.invoices, id)
      case None => (b, InvoiceNotFound)
      case Some(k) =>
        if b.invoices[k].posting.Posted? then (b, AlreadyPosted(b.invoices[k].posting.glId))
        else (PostAt(b, k, ts), PostedAs(GLId(b.glSeq)))
  }

  function Run(b: Books, ops: seq<Op>): Books {
    if ops == [] then b else Step(Run(b, ops[..|ops| - 1]), ops[|ops| - 1]).0
  }

  // ---------------------------------------------------------------------------------------------
  // The ledger invariant
  // ---------------------------------------------------------------------------------------------

  ghost predicate InvoiceIdBelow(id: string, limit: nat) { exists n: nat :: n < limit && id == InvoiceId(n) }

  ghost predicate GLIdBelow(id: string, limit: nat) { exists n: nat :: n < limit && id == GLId(n) }

  /** The ids in use come from the counters, below their current values. */
  ghost predicate IdsBelow(b: Books) {
    && (forall v <- b.invoices :: InvoiceIdBelow(v.id, 9000 + b.invSeq))
    && (forall d <- b.docs :: GLIdBelow(d.id, b.glSeq))
  }

  ghost predicate IdsUnique(b: Books) {
    && (forall i, j | 0 <= i < j < |b.invoices| :: b.invoices[i].id != b.invoices[j].id)
    && (forall i, j | 0 <= i < j < |b.docs| :: b.docs[i].id != b.docs[j].id)
  }

  /** GL document `d` is the document of posted invoice `v`. */
  predicate Pairs(d: GLDoc, v: Invoice) {
    v.posting == Posted(d.id) && d.invoice == v.id && d.amount == v.amount && d.currency == v.currency
  }

  ghost predicate HasDoc(docs: seq<GLDoc>, v: Invoice) { exists d :: d in docs && Pairs(d, v) }

  ghost predicate HasInvoice(invoices: seq<Invoice>, d: GLDoc) { exists v :: v in invoices && Pairs(d, v) }

  ghost predicate PostedHaveDocs(invoices: seq<Invoice>, docs: seq<GLDoc>) {
    forall v <- invoices :: v.posting.Posted? ==> HasDoc(docs, v)
  }

  ghost predicate DocsHaveInvoices(invoices: seq<Invoice>, docs: seq<GLDoc>) {
    forall d <- docs :: HasInvoice(invoices, d)
  }

  ghost predicate OneDocEach(docs: seq<GLDoc>) {
    forall i, j | 0 <= i < j < |docs| :: docs[i].invoice != docs[j].invoice
  }

  /** Posted invoices and GL documents correspond one to one, with equal amount and currency. */
  ghost predicate OneToOne(b: Books) {
    PostedHaveDocs(b.invoices, b.docs) && DocsHaveInvoices(b.invoices, b.docs) && OneDocEach(b.docs)
  }

  function InvoiceTotal(vs: seq<Invoice>, currency: string): real {
    if vs == [] then 0.0
    else
      var v := vs[|vs| - 1];
      InvoiceTotal(vs[..|vs| - 1], currency) + (if v.posting.Posted? && v.currency == currency then v.amount else 0.0)
  }

  function DocTotal(ds: seq<GLDoc>, currency: string): real {
    if ds == [] then 0.0
    else DocTotal(ds[..|ds| - 1], currency) + (if ds[|ds| - 1].currency == currency then ds[|ds| - 1].amount else 0.0)
  }

  /** Per currency, the GL carries exactly what has been posted. */
  ghost predicate Balanced(b: Books) {
    forall currency: string :: DocTotal(b.docs, currency) == InvoiceTotal(b.invoices, currency)
  }

  ghost predicate Inv(b: Books) { IdsBelow(b) && IdsUnique(b) && OneToOne(b) && Balanced(b) }

  lemma {:induction false} TotalAfterPosting(vs: seq<Invoice>, k: nat, posting: Posting, currency: string)
    requires k < |vs| && vs[k].posting.Unposted? && posting.Posted?
    ensures InvoiceTotal(vs[k := vs[k].(posting := posting)], currency)
         == InvoiceTotal(vs, currency) + (if vs[k].currency == currency then vs[k].amount else 0.0)
  {
    var m := |vs| - 1;
    var ws := vs[k := vs[k].(posting := posting)];
    if k == m {
      assert ws[..m] == vs[..m];
    } else {
      TotalAfterPosting(vs[..m], k, posting, currency);
      assert ws[..m] == vs[..m][k := vs[k].(posting := posting)];
    }
  }

  lemma InvoiceIdIsNew(invoices: seq<Invoice>, limit: nat)
    requires forall v <- invoices :: InvoiceIdBelow(v.id, limit)
    ensures forall v <- invoices :: v.id != InvoiceId(limit) && InvoiceIdBelow(v.id, limit + 1)
    ensures InvoiceIdBelow(InvoiceId(limit), limit + 1)
  {
    forall v <- invoices ensures v.id != InvoiceId(limit) && InvoiceIdBelow(v.id, limit + 1) {
      var n: nat :| n < limit && v.id == InvoiceId(n);
      InvoiceIdInjective(n, limit);
    }
  }

  lemma GLIdIsNew(docs: seq<GLDoc>, limit: nat)
    requires forall d <- docs :: GLIdBelow(d.id, limit)
    ensures forall d <- docs :: d.id != GLId(limit) && GLIdBelow(d.id, limit + 1)
    ensures GLIdBelow(GLId(limit), limit + 1)
  {
    forall d <- docs ensures d.id != GLId(limit) && GLIdBelow(d.id, limit + 1) {
      var n: nat :| n < limit && d.id == GLId(n);
      GLIdInjective(n, limit);
    }
  }

  lemma CreateKeepsIds(b: Books, op: Op)
    requires IdsBelow(b) && IdsUnique(b) && op.Create? && Step(b, op).1.Created?
    ensures IdsBelow(Step(b, op).0) && IdsUnique(Step(b, op).0)
  {
    InvoiceIdIsNew(b.invoices, 9000 + b.invSeq);
    assert forall i | 0 <= i < |b.invoices| :: b.invoices[i] in b.invoices;
  }

  lemma CreateKeepsPairs(b: Books, op: Op)
    requires OneToOne(b) && op.Create? && Step(b, op).1.Created?
    ensures OneToOne(Step(b, op).0)
  {
    var n := Step(b, op).0;
    forall d <- n.docs ensures HasInvoice(n.invoices, d) {
      var v :| v in b.invoices && Pairs(d, v);
      assert v in n.invoices;
    }
  }

  lemma CreateKeepsBalance(b: Books, op: Op)
    requires Balanced(b) && op.Create? && Step(b, op).1.Created?
    ensures Balanced(Step(b, op).0)
  {
    var n := Step(b, op).0;
    assert n.invoices[..|n.invoices| - 1] == b.invoices;
    forall currency: string ensures DocTotal(n.docs, currency) == InvoiceTotal(n.invoices, currency) {
      assert DocTotal(b.docs, currency) == InvoiceTotal(b.invoices, currency);
    }
  }

  lemma PostKeepsIds(b: Books, k: nat, ts: string)
    requires IdsBelow(b) && IdsUnique(b) && k < |b.invoices|
    ensures IdsBelow(PostAt(b, k, ts)) && IdsUnique(PostAt(b, k, ts))
  {
    var n := PostAt(b, k, ts);
    GLIdIsNew(b.docs, b.glSeq);
    forall v <- n.invoices ensures InvoiceIdBelow(v.id, 9000 + n.invSeq) {
      var i :| 0 <= i < |n.invoices| && n.invoices[i] == v;
      assert b.invoices[i] in b.invoices && b.invoices[i].id == v.id;
    }
    assert forall j | 0 <= j < |b.docs| :: b.docs[j] in b.docs;
  }

  lemma PostedDocs(b: Books, k: nat, ts: string, v: Invoice)
    requires OneToOne(b) && k < |b.invoices| && v in PostAt(b, k, ts).invoices && v.posting.Posted?
    ensures HasDoc(PostAt(b, k, ts).docs, v)
  {
    var n := PostAt(b, k, ts);
    var i :| 0 <= i < |n.invoices| && n.invoices[i] == v;
    if i == k {
      assert DocFor(b, k, ts) in n.docs && Pairs(DocFor(b, k, ts), v);
    } else {
      assert v == b.invoices[i] && v in b.invoices;
      var d :| d in b.docs && Pairs(d, v);
      assert d in n.docs;
    }
  }

  lemma PostedInvoices(b: Books, k: nat, ts: string, d: GLDoc)
    requires IdsUnique(b) && OneToOne(b) && k < |b.invoices| && b.invoices[k].posting.Unposted? && d in b.docs
    ensures HasInvoice(PostAt(b, k, ts).invoices, d) && d.invoice != b.invoices[k].id
  {
    var v :| v in b.invoices && Pairs(d, v);
    var i :| 0 <= i < |b.invoices| && b.invoices[i] == v;
    assert i != k && PostAt(b, k, ts).invoices[i] == v;
  }

  lemma OneMoreDoc(docs: seq<GLDoc>, d: GLDoc)
    requires OneDocEach(docs) && forall e <- docs :: e.invoice != d.invoice
    ensures OneDocEach(docs + [d])
  {
    assert forall j | 0 <= j < |docs| :: docs[j] in docs;
  }

  lemma PostKeepsPairs(b: Books, k: nat, ts: string)
    requires IdsUnique(b) && OneToOne(b) && k < |b.invoices| && b.invoices[k].posting.Unposted?
    ensures OneToOne(PostAt(b, k, ts))
  {
    var n := PostAt(b, k, ts);
    var d := DocFor(b, k, ts);
    assert PostedHaveDocs(n.invoices, n.docs) by {
      forall v <- n.invoices | v.posting.Posted? ensures HasDoc(n.docs, v) { PostedDocs(b, k, ts, v); }
    }
    forall e <- b.docs ensures HasInvoice(n.invoices, e) && e.invoice != d.invoice { PostedInvoices(b, k, ts, e); }
    OneMoreDoc(b.docs, d);
    assert DocsHaveInvoices(n.invoices, n.docs) by {
      assert n.invoices[k] in n.invoices && Pairs(d, n.invoices[k]);
    }
  }

  lemma PostKeepsBalance(b: Books, k: nat, ts: string)
    requires Balanced(b) && k < |b.invoices| && b.invoices[k].posting.Unposted?
    ensures Balanced(PostAt(b, k, ts))
  {
    var n := PostAt(b, k, ts);
    assert n.docs[..|n.docs| - 1] == b.docs;
    forall currency: string ensures DocTotal(n.docs, currency) == InvoiceTotal(n.invoices, currency) {
      TotalAfterPosting(b.invoices, k, Posted(GLId(b.glSeq)), currency);
      assert DocTotal(b.docs, currency) == InvoiceTotal(b.invoices, currency);
    }
  }

  lemma StepKeepsInv(b: Books, op: Op)
    requires Inv(b)
    ensures Inv(Step(b, op).0)
  {
    if op.Create? {
      if Step(b, op).1.Created? { CreateKeepsIds(b, op); CreateKeepsPairs(b, op); CreateKeepsBalance(b, op); }
    } else if Step(b, op).1.PostedAs? {
      var k := FindInvoice(b.invoices, op.id).value;
      PostKeepsIds(b, k, op.ts);
      PostKeepsPairs(b, k, op.ts);
      PostKeepsBalance(b, k, op.ts);
    }
  }

  /** Over every sequence of creates and posts: unique ids, a one-to-one match of posted invoices and GL
      documents, and equal totals in every currency. */
  lemma {:induction false} RunKeepsInv(b: Books, ops: seq<Op>)
    requires Inv(b)
    ensures IdsBelow(Run(b, ops)) && IdsUnique(Run(b, ops))
    ensures OneToOne(Run(b, ops)) && Balanced(Run(b, ops))
  {
    if ops == [] {
    } else {
      RunKeepsInv(b, ops[..|ops| - 1]);
      StepKeepsInv(Run(b, ops[..|ops| - 1]), ops[|ops| - 1]);
    }
  }

  // ---------------------------------------------------------------------------------------------
  // Posting is final
  // ---------------------------------------------------------------------------------------------

  lemma StepKeepsPosted(b: Books, op: Op, k: nat)
    requires k < |b.invoices| && b.invoices[k].posting.Posted?
    ensures k < |Step(b, op).0.invoices| && Step(b, op).0.invoices[k] == b.invoices[k]
    ensures b.docs <= Step(b, op).0.docs
  {}

  lemma {:induction false} RunKeepsPosted(b: Books, ops: seq<Op>, k: nat)
    requires k < |b.invoices| && b.invoices[k].posting.Posted?
    ensures k < |Run(b, ops).invoices| && Run(b, ops).invoices[k] == b.invoices[k]
    ensures b.docs <= Run(b, ops).docs
  {
    if ops == [] {
    } else {
      RunKeepsPosted(b, ops[..|ops| - 1], k);
      StepKeepsPosted(Run(b, ops[..|ops| - 1]), ops[|ops| - 1], k);
    }
  }

  /** Once a post has succeeded, every later post of that invoice is refused with the same GL id and
      changes nothing, and the invoice keeps the amount and currency it was posted with. */
  lemma NoSecondPosting(b: Books, id: string, ts: string, ops: seq<Op>, again: string)
    requires Inv(b) && Step(b, Post(id, ts)).1.PostedAs?
    ensures var now := Run(Step(b, Post(id, ts)).0, ops);
      && Step(now, Post(id, again)) == (now, AlreadyPosted(Step(b, Post(id, ts)).1.glId))
      && FindInvoice(now.invoices, id) == FindInvoice(b.invoices, id)
      && var k := FindInvoice(b.invoices, id).value;
         now.invoices[k].amount == b.invoices[k].amount && now.invoices[k].currency == b.invoices[k].currency
  {
    var after := Step(b, Post(id, ts)).0;
    var k := FindInvoice(b.invoices, id).value;
    var now := Run(after, ops);
    StepKeepsInv(b, Post(id, ts));
    RunKeepsInv(after, ops);
    RunKeepsPosted(after, ops, k);
    assert now.invoices[k].id == id;
    var found := FindInvoice(now.invoices, id);
    assert found.value == k;
  }

  // ---------------------------------------------------------------------------------------------
  // From the request to the GL
  // ---------------------------------------------------------------------------------------------

  /** When a create is refused, and what it leaves when it is not: one more invoice, unposted and under a new
      id, with the vendor, currency, amount and description of the request. */
  lemma CreateMeaning(b: Books, vendor: string, currency: string, amount: Option<real>, description: string, ts: string)
    requires IdsBelow(b)
    ensures var (n, r) := Step(b, Create(vendor, currency, amount, description, ts));
      && (r == MissingFields <==> vendor == "" || currency == "" || amount == None)
      && (r == VendorNotFound <==> vendor != "" && currency != "" && amount != None && vendor !in b.vendors)
      && (!r.Created? ==> n == b)
      && (r.Created? ==>
            && amount.Some? && n.docs == b.docs && |n.invoices| == |b.invoices| + 1 && b.invoices <= n.invoices
            && (forall v <- b.invoices :: v.id != r.id)
            && var made := n.invoices[|b.invoices|];
               && made.id == r.id && made.vendor == vendor && made.currency == currency
               && made.amount == amount.value && made.description == description && made.createdAt == ts
               && made.posting == Unposted)
      && (r.Created? || r == MissingFields || r == VendorNotFound)
  {
    InvoiceIdIsNew(b.invoices, 9000 + b.invSeq);
  }

  lemma StepKeepsUnposted(b: Books, op: Op, k: nat)
    requires k < |b.invoices| && (op.Post? ==> op.id != b.invoices[k].id)
    ensures k < |Step(b, op).0.invoices| && Step(b, op).0.invoices[k] == b.invoices[k]
  {}

  lemma {:induction false} RunKeepsUnposted(b: Books, ops: seq<Op>, k: nat)
    requires k < |b.invoices| && forall op <- ops :: op.Post? ==> op.id != b.invoices[k].id
    ensures k < |Run(b, ops).invoices| && Run(b, ops).invoices[k] == b.invoices[k]
  {
    if ops == [] {
    } else {
      var m := |ops| - 1;
      assert ops[m] in ops;
      RunKeepsUnposted(b, ops[..m], k);
      StepKeepsUnposted(Run(b, ops[..m]), ops[m], k);
    }
  }

  /** Posting the one unposted invoice of an id appends one GL document, with the amount and currency the
      invoice has, and marks the invoice with the document's id. */
  lemma PostMeaning(b: Books, k: nat, ts: string)
    requires IdsBelow(b) && IdsUnique(b) && k < |b.invoices| && b.invoices[k].posting.Unposted?
    ensures var (n, r) := Step(b, Post(b.invoices[k].id, ts)); var v := b.invoices[k];
      && r.PostedAs? && n.docs == b.docs + [GLDoc(r.glId, v.id, ts, v.amount, v.currency)]
      && |n.invoices| == |b.invoices|
      && (forall i | 0 <= i < |b.invoices| && i != k :: n.invoices[i] == b.invoices[i])
      && n.invoices[k] == Invoice(v.id, v.vendor, v.currency, v.amount, Posted(r.glId), v.createdAt, v.description)
      && forall d <- b.docs :: d.id != r.glId
  {
    assert FindInvoice(b.invoices, b.invoices[k].id).value == k;
    GLIdIsNew(b.docs, b.glSeq);
  }

  /** Create an invoice, let any other requests come in between, post it: the GL gains one document, and it
      carries the amount and the currency of the request that created the invoice. */
  lemma CreateThenPost(b: Books, request: Op, between: seq<Op>, ts: string)
    requires Inv(b) && request.Create? && Step(b, request).1.Created?
    requires forall op <- between :: op.Post? ==> op.id != Step(b, request).1.id
    ensures var id := Step(b, request).1.id;
      var now := Run(Step(b, request).0, between);
      var (n, r) := Step(now, Post(id, ts));
      && r.PostedAs? && request.amount.Some?
      && n.docs == now.docs + [GLDoc(r.glId, id, ts, request.amount.value, request.currency)]
  {
    var after := Step(b, request).0;
    var k := |b.invoices|;
    CreateMeaning(b, request.vendor, request.currency, request.amount, request.description, request.ts);
    StepKeepsInv(b, request);
    RunKeepsInv(after, between);
    RunKeepsUnposted(after, between, k);
    hide Step, Run, Inv, IdsBelow, IdsUnique, OneToOne, Balanced;
    PostMeaning(Run(after, between), k, ts);
  }

  // ---------------------------------------------------------------------------------------------
  // The seeds
  // ---------------------------------------------------------------------------------------------

  /** The documents derived from the seeded invoices: one for each posted one. */
  function SeedDocs(vs: seq<Invoice>): seq<GLDoc> {
    if vs == [] then []
    else
      var v := vs[|vs| - 1];
      SeedDocs(vs[..|vs| - 1])
      + (if v.posting.Posted? then [GLDoc(v.posting.glId, v.id, v.createdAt, v.amount, v.currency)] else [])
  }

  /** How the seed table numbers its invoices and their GL documents. */
  predicate SeedTable(vs: seq<Invoice>) {
    forall i | 0 <= i < |vs| ::
      vs[i].id == InvoiceId(9001 + i) && (vs[i].posting.Posted? ==> vs[i].posting == Posted(GLId(7001 + i)))
  }

  /** The books of a server whose seed table holds these invoices; the source has fifteen. */
  function Initial(vendors: set<string>, vs: seq<Invoice>): Books { Books(vendors, vs, SeedDocs(vs), |vs| + 1, 8000) }

  /** A table one row longer keeps the invariant, with room left below the GL counter. */
  lemma {:induction false} SeedsSound(vendors: set<string>, vs: seq<Invoice>)
    requires SeedTable(vs) && |vs| <= 900
    ensures Inv(Initial(vendors, vs))
    ensures forall d <- SeedDocs(vs) :: GLIdBelow(d.id, 7001 + |vs|)
  {
    if vs == [] {
    } else {
      var m := |vs| - 1;
      var a, b := Initial(vendors, vs[..m]), Initial(vendors, vs);
      SeedsSound(vendors, vs[..m]);
      SeedStep(vendors, vs, m);
      OneMoreSeed(a, b, vs[m], m);
    }
  }

  lemma SeedStep(vendors: set<string>, vs: seq<Invoice>, m: nat)
    requires SeedTable(vs) && |vs| == m + 1
    ensures var a, b, v := Initial(vendors, vs[..m]), Initial(vendors, vs), vs[m];
      && a.invSeq == m + 1 && b.invSeq == m + 2 && b.glSeq == 8000
      && b.invoices == a.invoices + [v] && v.id == InvoiceId(9001 + m)
      && if v.posting.Posted?
         then v.posting.glId == GLId(7001 + m)
              && b.docs == a.docs + [GLDoc(v.posting.glId, v.id, v.createdAt, v.amount, v.currency)]
         else b.docs == a.docs
  {
    assert vs == vs[..m] + [vs[m]];
  }

  lemma OneMoreSeed(a: Books, b: Books, v: Invoice, m: nat)
    requires m < 900 && Inv(a) && a.invSeq == m + 1 && b.invSeq == m + 2 && b.glSeq == 8000
    requires b.invoices == a.invoices + [v] && v.id == InvoiceId(9001 + m)
    requires if v.posting.Posted?
      then v.posting.glId == GLId(7001 + m)
           && b.docs == a.docs + [GLDoc(v.posting.glId, v.id, v.createdAt, v.amount, v.currency)]
      else b.docs == a.docs
    requires forall d <- a.docs :: GLIdBelow(d.id, 7001 + m)
    ensures Inv(b) && forall d <- b.docs :: GLIdBelow(d.id, 7002 + m)
  {
    InvoiceIdIsNew(a.invoices, 9001 + m);
    assert IdsBelow(b) && IdsUnique(b) && forall d <- b.docs :: GLIdBelow(d.id, 7002 + m) by { SeedIds(a, b, v, m); }
    assert OneToOne(b) by { SeedPairs(a, b, v); }
    assert Balanced(b) by { SeedBalance(a, b, v); }
  }

  lemma GLIdBelowMore(id: string, limit: nat, more: nat)
    requires GLIdBelow(id, limit) && limit <= more
    ensures GLIdBelow(id, more)
  {}

  lemma UniqueWithOneMore(a: Books, b: Books, v: Invoice, d: GLDoc)
    requires IdsUnique(a) && b.invoices == a.invoices + [v] && (b.docs == a.docs || b.docs == a.docs + [d])
    requires (forall w <- a.invoices :: w.id != v.id) && forall e <- a.docs :: e.id != d.id
    ensures IdsUnique(b)
  {
    assert forall i | 0 <= i < |a.invoices| :: a.invoices[i] in a.invoices;
    assert forall i | 0 <= i < |a.docs| :: a.docs[i] in a.docs;
  }

  lemma SeedIds(a: Books, b: Books, v: Invoice, m: nat)
    requires m < 900 && IdsUnique(a) && v.id == InvoiceId(9001 + m)
    requires forall w <- a.invoices :: w.id != v.id && InvoiceIdBelow(w.id, 9002 + m)
    requires forall d <- a.docs :: GLIdBelow(d.id, 7001 + m)
    requires b.invoices == a.invoices + [v] && b.invSeq == m + 2 && b.glSeq == 8000
    requires if v.posting.Posted?
      then v.posting.glId == GLId(7001 + m)
           && b.docs == a.docs + [GLDoc(v.posting.glId, v.id, v.createdAt, v.amount, v.currency)]
      else b.docs == a.docs
    ensures IdsBelow(b) && IdsUnique(b) && forall d <- b.docs :: GLIdBelow(d.id, 7002 + m)
  {
    GLIdIsNew(a.docs, 7001 + m);
    UniqueWithOneMore(a, b, v, GLDoc(GLId(7001 + m), v.id, v.createdAt, v.amount, v.currency));
    assert InvoiceIdBelow(v.id, 9002 + m);
    forall d <- b.docs ensures GLIdBelow(d.id, 7002 + m) && GLIdBelow(d.id, 8000) {
      GLIdBelowMore(d.id, 7002 + m, 8000);
    }
  }

  lemma SeedPairs(a: Books, b: Books, v: Invoice)
    requires OneToOne(a) && b.invoices == a.invoices + [v] && forall w <- a.invoices :: w.id != v.id
    requires if v.posting.Posted?
      then b.docs == a.docs + [GLDoc(v.posting.glId, v.id, v.createdAt, v.amount, v.currency)]
      else b.docs == a.docs
    ensures OneToOne(b)
  {
    forall d <- a.docs ensures HasInvoice(b.invoices, d) && d.invoice != v.id {
      var w :| w in a.invoices && Pairs(d, w);
      assert w in b.invoices;
    }
    if v.posting.Posted? { OneMoreDoc(a.docs, b.docs[|a.docs|]); }
    assert DocsHaveInvoices(b.invoices, b.docs) by { assert v in b.invoices; }
    assert PostedHaveDocs(b.invoices, b.docs) by {
      forall w <- b.invoices | w.posting.Posted? ensures HasDoc(b.docs, w) { SeedHasDoc(a, b, v, w); }
    }
  }

  lemma SeedHasDoc(a: Books, b: Books, v: Invoice, w: Invoice)
    requires PostedHaveDocs(a.invoices, a.docs) && b.invoices == a.invoices + [v] && w in b.invoices
      && w.posting.Posted?
    requires if v.posting.Posted?
      then b.docs == a.docs + [GLDoc(v.posting.glId, v.id, v.createdAt, v.amount, v.currency)]
      else b.docs == a.docs
    ensures HasDoc(b.docs, w)
  {
    if w in a.invoices {
      var d :| d in a.docs && Pairs(d, w);
      assert d in b.docs;
    } else {
      assert Pairs(b.docs[|a.docs|], w) && b.docs[|a.docs|] in b.docs;
    }
  }

  lemma SeedBalance(a: Books, b: Books, v: Invoice)
    requires Balanced(a) && b.invoices == a.invoices + [v]
    requires if v.posting.Posted?
      then b.docs == a.docs + [GLDoc(v.posting.glId, v.id, v.createdAt, v.amount, v.currency)]
      else b.docs == a.docs
    ensures Balanced(b)
  {
    assert b.invoices[..|b.invoices| - 1] == a.invoices;
    if v.posting.Posted? { assert b.docs[..|b.docs| - 1] == a.docs; }
    forall currency: string ensures DocTotal(b.docs, currency) == InvoiceTotal(b.invoices, currency) {
      assert DocTotal(a.docs, currency) == InvoiceTotal(a.invoices, currency);
    }
  }

  // ---------------------------------------------------------------------------------------------
  // The service
  // ---------------------------------------------------------------------------------------------

  class Server {
    const vendors: set<string>
    var invoices: seq<Invoice>
    var glDocs: seq<GLDoc>
    var invSeq: nat
    var glSeq: nat

    ghost function Value(): Books
      reads this
    {
      Books(vendors, invoices, glDocs, invSeq, glSeq)
    }

    ghost predicate Valid()
      reads this
    {
      Inv(Value())
    }

    constructor (vendors: set<string>, seeds: seq<Invoice>)
      requires SeedTable(seeds) && |seeds| <= 900
      ensures Valid() && Value() == Initial(vendors, seeds)
    {
      this.vendors, invoices, invSeq, glSeq := vendors, seeds, |seeds| + 1, 8000;
      glDocs := SeedDocs(seeds);
      new;
      SeedsSound(vendors, seeds);
    }

    method AddInvoice(vendor: string, currency: string, amount: Option<real>, description: string, ts: string)
      returns (r: Reply)
      modifies this`invoices, this`invSeq
      ensures (Value(), r) == Step(old(Value()), Create(vendor, currency, amount, description, ts))
    {
      if vendor == "" || currency == "" || amount.None? { return MissingFields; }
      if vendor !in vendors { return VendorNotFound; }
      var id := InvoiceId(9000 + invSeq);
      invSeq := invSeq + 1;
      invoices := invoices + [Invoice(id, vendor, currency, amount.value, Unposted, ts, description)];
      r := Created(id);
    }

    method MarkPosted(id: string, ts: string) returns (r: Reply)
      modifies this`invoices, this`glDocs, this`glSeq
      ensures (Value(), r) == Step(old(Value()), Post(id, ts))
    {
      var found := FindInvoice(invoices, id);
      if found.None? { return InvoiceNotFound; }
      var k := found.value;
      if invoices[k].posting.Posted? { return AlreadyPosted(invoices[k].posting.glId); }
      var glId := GLId(glSeq);
      glSeq := glSeq + 1;
      invoices := invoices[k := invoices[k].(posting := Posted(glId))];
      glDocs := glDocs + [GLDoc(glId, invoices[k].id, ts, invoices[k].amount, invoices[k].currency)];
      r := PostedAs(glId);
    }

    /** POST /api/invoices. */
    method CreateInvoice(vendor: string, currency: string, amount: Option<real>, description: string, ts: string)
      returns (r: Reply)
      requires Valid()
      modifies this`invoices, this`invSeq
      ensures Valid() && (Value(), r) == Step(old(Value()), Create(vendor, currency, amount, description, ts))
    {
      StepKeepsInv(Value(), Create(vendor, currency, amount, description, ts));
      r := AddInvoice(vendor, currency, amount, description, ts);
    }

    /** POST /api/invoices/:id/post. */
    method PostInvoice(id: string, ts: string) returns (r: Reply)
      requires Valid()
      modifies this`invoices, this`glDocs, this`glSeq
      ensures Valid() && (Value(), r) == Step(old(Value()), Post(id, ts))
    {
      StepKeepsInv(Value(), Post(id, ts));
      r := MarkPosted(id, ts);
    }
  }
}
