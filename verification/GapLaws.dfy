/** How the identities move: over any run of pending, posted, voided and direct transfers, a book's
    gap changes by exactly what the run posts across the book's border. */
module GapLaws {
  import opened Prelude
  import opened Ledger
  import opened ChartOfAccounts

  /** A request to the accounting service. A refused one changes nothing. */
  datatype Request = Record(t: Transfer) | Decide(id: TransferId, amount: nat, outcome: Phase)

  function Serve(tb: Tb, r: Request): Tb {
    match r
    case Record(t) =>
      (match Create(tb, t) case Ok(tb') => tb' case Err(_) => tb)
    case Decide(id, amount, outcome) =>
      (match Resolve(tb, id, amount, outcome) case Ok(tb') => tb' case Err(_) => tb)
  }

  function ServeAll(tb: Tb, rs: seq<Request>): Tb
    decreases |rs|
  {
    if rs == [] then tb else ServeAll(Serve(tb, rs[0]), rs[1..])
  }

  /** What a request posts: a new direct transfer, or a pending one it resolves. */
  function PostedBy(tb: Tb, r: Request): seq<Transfer> {
    match r
    case Record(t) =>
      if Create(tb, t).Ok? && !Has(tb.log, t.id) && t.phase == Posted then [t] else []
    case Decide(id, amount, outcome) =>
      if Resolve(tb, id, amount, outcome).Ok? && outcome == Posted
      then [tb.log[IndexOf(tb.log, id)].(phase := Posted)] else []
  }

  function PostedDuring(tb: Tb, rs: seq<Request>): seq<Transfer>
    decreases |rs|
  {
    if rs == [] then [] else PostedBy(tb, rs[0]) + PostedDuring(Serve(tb, rs[0]), rs[1..])
  }

  lemma CrossingMoves(regs: seq<Registration>, tb: Tb, r: Request, ledger: nat, book: Book)
    ensures Sum(Serve(tb, r).log, Crossing(regs, ledger, book))
         == Sum(tb.log, Crossing(regs, ledger, book)) + Sum(PostedBy(tb, r), Crossing(regs, ledger, book))
  {
    var w := Crossing(regs, ledger, book);
    match r
    case Record(t) =>
      if Create(tb, t).Ok? && !Has(tb.log, t.id) {
        SumConcat(tb.log, [t], w);
        SumOne(t, w);
      }
    case Decide(id, amount, outcome) =>
      if Resolve(tb, id, amount, outcome).Ok? {
        var i := IndexOf(tb.log, id);
        var t := tb.log[i].(phase := outcome);
        SumUpdate(tb.log, i, t, w);
        SumOne(t, w);
      }
  }

  /** One request moves a gap by what it posts across the book's border. */
  lemma GapFollowsPosting(regs: seq<Registration>, tb: Tb, r: Request, ledger: nat, book: Book)
    ensures Gap(regs, ledger, book, ByRegistryCode(Serve(tb, r)))
         == Gap(regs, ledger, book, ByRegistryCode(tb)) + Sum(PostedBy(tb, r), Crossing(regs, ledger, book))
  {
    CrossingMoves(regs, tb, r, ledger, book);
    GapIsCrossFlow(regs, tb, ledger, book);
    GapIsCrossFlow(regs, Serve(tb, r), ledger, book);
  }

  /** Pending a transfer and voiding one never move a gap. */
  lemma PendAndVoidKeepGaps(
      regs: seq<Registration>, tb: Tb, t: Transfer, id: TransferId, amount: nat, ledger: nat, book: Book)
    requires t.phase == Pending
    ensures Gap(regs, ledger, book, ByRegistryCode(Serve(tb, Record(t)))) == Gap(regs, ledger, book, ByRegistryCode(tb))
    ensures Gap(regs, ledger, book, ByRegistryCode(Serve(tb, Decide(id, amount, Voided))))
         == Gap(regs, ledger, book, ByRegistryCode(tb))
  {
    GapFollowsPosting(regs, tb, Record(t), ledger, book);
    GapFollowsPosting(regs, tb, Decide(id, amount, Voided), ledger, book);
  }

  /** Posting a pending transfer moves a gap exactly as posting it directly would have. */
  lemma PostMovesGap(regs: seq<Registration>, tb: Tb, id: TransferId, amount: nat, ledger: nat, book: Book)
    requires Resolve(tb, id, amount, Posted).Ok?
    ensures
      var t := tb.log[IndexOf(tb.log, id)].(phase := Posted);
      Gap(regs, ledger, book, ByRegistryCode(Resolve(tb, id, amount, Posted).value))
      == Gap(regs, ledger, book, ByRegistryCode(tb)) + Crossing(regs, ledger, book)(t)
  {
    GapFollowsPosting(regs, tb, Decide(id, amount, Posted), ledger, book);
    SumOne(tb.log[IndexOf(tb.log, id)].(phase := Posted), Crossing(regs, ledger, book));
  }

  /** Main law, over every run: a gap moves by what the run posts across the book's border. */
  lemma {:induction false} GapFollowsPostings(
      regs: seq<Registration>, tb: Tb, rs: seq<Request>, ledger: nat, book: Book)
    ensures Gap(regs, ledger, book, ByRegistryCode(ServeAll(tb, rs)))
         == Gap(regs, ledger, book, ByRegistryCode(tb)) + Sum(PostedDuring(tb, rs), Crossing(regs, ledger, book))
    decreases |rs|
  {
    if rs != [] {
      GapFollowsPosting(regs, tb, rs[0], ledger, book);
      GapFollowsPostings(regs, Serve(tb, rs[0]), rs[1..], ledger, book);
      SumConcat(PostedBy(tb, rs[0]), PostedDuring(Serve(tb, rs[0]), rs[1..]), Crossing(regs, ledger, book));
    }
  }

  /** Books that were balanced stay so exactly when a run's postings balance across every border. */
  lemma IdentitiesHoldIff(regs: seq<Registration>, tb: Tb, rs: seq<Request>)
    requires AllIdentitiesHold(regs, ByRegistryCode(tb))
    ensures AllIdentitiesHold(regs, ByRegistryCode(ServeAll(tb, rs)))
       <==> forall r, book :: r in regs ==> Sum(PostedDuring(tb, rs), Crossing(regs, r.ledger, book)) == 0
  {
    forall r, book | r in regs
      ensures Gap(regs, r.ledger, book, ByRegistryCode(ServeAll(tb, rs)))
           == Sum(PostedDuring(tb, rs), Crossing(regs, r.ledger, book))
    {
      GapFollowsPostings(regs, tb, rs, r.ledger, book);
      assert Gap(regs, r.ledger, book, ByRegistryCode(tb)) == 0;
    }
  }

  // ── Staying within the books ──

  lemma CreateStaysInBook(tb: Tb, t: Transfer)
    requires Disciplined(tb) && Create(tb, t).Ok? && SameBook(tb, t)
    ensures Disciplined(Create(tb, t).value) && Create(tb, t).value.accounts == tb.accounts
  {
  }

  /** Resolving a transfer never takes it to other accounts. */
  lemma ResolveStaysInBook(tb: Tb, id: TransferId, amount: nat, outcome: Phase)
    requires Disciplined(tb) && Resolve(tb, id, amount, outcome).Ok?
    ensures
      var tb' := Resolve(tb, id, amount, outcome).value;
      Disciplined(tb') && tb'.accounts == tb.accounts
  {
    var tb' := Resolve(tb, id, amount, outcome).value;
    forall t | t in tb'.log ensures SameBook(tb', t) {
      var k :| 0 <= k < |tb'.log| && tb'.log[k] == t;
      assert tb.log[k] in tb.log;
    }
  }

  /** Whatever is pended, posted, voided or sent, in any order: if every transfer recorded stays
      within a book, every identity holds throughout. */
  lemma {:induction false} IdentitiesSurviveRuns(regs: seq<Registration>, tb: Tb, rs: seq<Request>)
    requires Provisioned(regs, tb) && Disciplined(tb)
    requires forall r :: r in rs && r.Record? ==> SameBook(tb, r.t)
    ensures Disciplined(ServeAll(tb, rs)) && ServeAll(tb, rs).accounts == tb.accounts
    ensures AllIdentitiesHold(regs, ByRegistryCode(ServeAll(tb, rs)))
    decreases |rs|
  {
    if rs == [] {
      DisciplinedIsBalanced(regs, tb);
    } else {
      ServeStaysInBook(tb, rs[0]);
      forall r | r in rs[1..] && r.Record? ensures SameBook(Serve(tb, rs[0]), r.t) {
        assert r in rs;
      }
      IdentitiesSurviveRuns(regs, Serve(tb, rs[0]), rs[1..]);
    }
  }

  lemma ServeStaysInBook(tb: Tb, r: Request)
    requires Disciplined(tb) && (r.Record? ==> SameBook(tb, r.t))
    ensures Disciplined(Serve(tb, r)) && Serve(tb, r).accounts == tb.accounts
  {
    match r
    case Record(t) =>
      if Create(tb, t).Ok? {
        CreateStaysInBook(tb, t);
      }
    case Decide(id, amount, outcome) =>
      if Resolve(tb, id, amount, outcome).Ok? {
        ResolveStaysInBook(tb, id, amount, outcome);
      }
  }
}
