/** The CLIENT and FIRM identities of the chart of accounts, and what they mean for a ledger. The
    programs that check them are in `CoaCheckers`. */
module ChartOfAccounts {
  import opened Prelude
  import opened Ledger

  /** A row of the account registry. */
  datatype Registration = Registration(id: nat, code: nat, ledger: nat)

  datatype Book = ClientBook | FirmBook

  predicate IsAssetCode(code: nat) { code == CLIENT_ASSET || code == FIRM_ASSET }

  function AssetCode(book: Book): nat { if book.ClientBook? then CLIENT_ASSET else FIRM_ASSET }

  function ClaimCodes(book: Book): set<nat> {
    if book.ClientBook? then {CLIENT_PAYABLE, DEPOSIT_SUSPENSE}
    else {FIRM_OPS, FIRM_SET, FIRM_FEE, FIRM_LIQ}
  }

  predicate InBook(book: Book, code: nat) { code == AssetCode(book) || code in ClaimCodes(book) }

  // ── Balances and their sums over the registry ──

  function Signed(asset: bool, debits: int, credits: int): int {
    if asset then debits - credits else credits - debits
  }

  /** Balance signed by the class of the registry's code. */
  function ByRegistryCode(tb: Tb): Registration -> int {
    (r: Registration) => Signed(IsAssetCode(r.code), DebitsPosted(tb, r.id), CreditsPosted(tb, r.id))
  }

  /** Balance signed by the class of the ledger's own code; an unknown account counts zero. */
  function ByLedgerCode(tb: Tb): Registration -> int {
    (r: Registration) =>
      if r.id in tb.accounts
      then Signed(IsAssetCode(tb.accounts[r.id].code), DebitsPosted(tb, r.id), CreditsPosted(tb, r.id))
      else 0
  }

  function SumBal(regs: seq<Registration>, ledger: nat, codes: set<nat>, bal: Registration -> int): int {
    if regs == [] then 0
    else
      var r := regs[|regs| - 1];
      SumBal(regs[..|regs| - 1], ledger, codes, bal)
      + (if r.ledger == ledger && r.code in codes then bal(r) else 0)
  }

  /** Assets minus claims of one book in one ledger. */
  function Gap(regs: seq<Registration>, ledger: nat, book: Book, bal: Registration -> int): int {
    SumBal(regs, ledger, {AssetCode(book)}, bal) - SumBal(regs, ledger, ClaimCodes(book), bal)
  }

  ghost predicate AllIdentitiesHold(regs: seq<Registration>, bal: Registration -> int) {
    forall r, book :: r in regs ==> Gap(regs, r.ledger, book, bal) == 0
  }

  /** What provisioning establishes: one registration per ledger account, with its code and ledger. */
  ghost predicate Provisioned(regs: seq<Registration>, tb: Tb) {
    && (forall i, j :: 0 <= i < j < |regs| ==> regs[i].id != regs[j].id)
    && (forall r :: r in regs ==> r.id in tb.accounts && tb.accounts[r.id] == Account(r.code, r.ledger))
    && (forall a :: a in tb.accounts ==> exists r :: r in regs && r.id == a)
  }

  // ── What the identities amount to ──

  /** How many registrations of the book and ledger name this account. */
  function Hits(regs: seq<Registration>, ledger: nat, book: Book, account: nat): int {
    if regs == [] then 0
    else
      var r := regs[|regs| - 1];
      Hits(regs[..|regs| - 1], ledger, book, account)
      + (if r.id == account && r.ledger == ledger && InBook(book, r.code) then 1 else 0)
  }

  /** A posted transfer's net debit to the book. */
  function Crossing(regs: seq<Registration>, ledger: nat, book: Book): Transfer -> int {
    (t: Transfer) =>
      if t.phase == Posted
      then t.amount * (Hits(regs, ledger, book, t.debit) - Hits(regs, ledger, book, t.credit))
      else 0
  }

  function NetDebit(account: nat): Transfer -> int {
    (t: Transfer) =>
      if t.phase == Posted
      then (if t.debit == account then t.amount else 0) - (if t.credit == account then t.amount else 0)
      else 0
  }

  lemma {:induction false} SumMinus(log: seq<Transfer>, account: nat)
    ensures Sum(log, NetDebit(account)) == Sum(log, DebitsIn(Posted, account)) - Sum(log, CreditsIn(Posted, account))
  {
    if log != [] {
      SumMinus(log[..|log| - 1], account);
    }
  }

  /** The same for one transfer. */
  lemma CrossingOne(t: Transfer, regs: seq<Registration>, ledger: nat, book: Book)
    requires regs != []
    ensures var r := regs[|regs| - 1];
      Crossing(regs, ledger, book)(t)
      == Crossing(regs[..|regs| - 1], ledger, book)(t)
         + (if r.ledger == ledger && InBook(book, r.code) then NetDebit(r.id)(t) else 0)
  {
    var r, init := regs[|regs| - 1], regs[..|regs| - 1];
    var d, c := Hits(init, ledger, book, t.debit), Hits(init, ledger, book, t.credit);
    var own := r.ledger == ledger && InBook(book, r.code);
    var x: int := if own && r.id == t.debit then 1 else 0;
    var y: int := if own && r.id == t.credit then 1 else 0;
    assert Hits(regs, ledger, book, t.debit) == d + x && Hits(regs, ledger, book, t.credit) == c + y;
    if t.phase == Posted {
      Distribute(t.amount, d, x, c, y);
      Times(t.amount, own && r.id == t.debit);
      Times(t.amount, own && r.id == t.credit);
    }
  }

  lemma Times(m: int, b: bool)
    ensures m * (if b then 1 else 0) == if b then m else 0
  {
  }

  lemma Distribute(m: int, d: int, x: int, c: int, y: int)
    ensures m * ((d + x) - (c + y)) == m * (d - c) + m * x - m * y
  {
  }

  lemma {:induction false} CrossingStep(log: seq<Transfer>, regs: seq<Registration>, ledger: nat, book: Book)
    requires regs != []
    ensures var r := regs[|regs| - 1];
      Sum(log, Crossing(regs, ledger, book))
      == Sum(log, Crossing(regs[..|regs| - 1], ledger, book))
         + (if r.ledger == ledger && InBook(book, r.code) then Sum(log, NetDebit(r.id)) else 0)
  {
    if log != [] {
      CrossingStep(log[..|log| - 1], regs, ledger, book);
      CrossingOne(log[|log| - 1], regs, ledger, book);
    }
  }

  /** Main law: whatever was recorded, in whatever order, a book is out of balance by exactly
      the net amount posted across its border. */
  lemma {:induction false} GapIsCrossFlow(regs: seq<Registration>, tb: Tb, ledger: nat, book: Book)
    ensures Gap(regs, ledger, book, ByRegistryCode(tb)) == Sum(tb.log, Crossing(regs, ledger, book))
  {
    if regs == [] {
      NoCrossing(tb.log, regs, ledger, book);
    } else {
      GapIsCrossFlow(regs[..|regs| - 1], tb, ledger, book);
      CrossingStep(tb.log, regs, ledger, book);
      SumMinus(tb.log, regs[|regs| - 1].id);
    }
  }

  lemma {:induction false} NoCrossing(log: seq<Transfer>, regs: seq<Registration>, ledger: nat, book: Book)
    requires forall t :: t in log ==> Crossing(regs, ledger, book)(t) == 0
    ensures Sum(log, Crossing(regs, ledger, book)) == 0
  {
    if log != [] {
      forall t | t in log[..|log| - 1] ensures t in log { }
      NoCrossing(log[..|log| - 1], regs, ledger, book);
    }
  }

  lemma {:induction false} HitsIsMembership(regs: seq<Registration>, ledger: nat, book: Book, account: nat)
    requires forall i, j :: 0 <= i < j < |regs| ==> regs[i].id != regs[j].id
    ensures Hits(regs, ledger, book, account)
         == if exists r :: r in regs && r.id == account && r.ledger == ledger && InBook(book, r.code) then 1 else 0
  {
    if regs != [] {
      var n := |regs| - 1;
      HitsIsMembership(regs[..n], ledger, book, account);
      assert regs == regs[..n] + [regs[n]];
      forall r | r in regs[..n] ensures r.id != regs[n].id { }
    }
  }

  /** Both accounts of the transfer lie in one ledger and in the same books. */
  predicate SameBook(tb: Tb, t: Transfer) {
    && t.debit in tb.accounts && t.credit in tb.accounts
    && tb.accounts[t.debit].ledger == tb.accounts[t.credit].ledger
    && (InBook(ClientBook, tb.accounts[t.debit].code) <==> InBook(ClientBook, tb.accounts[t.credit].code))
    && (InBook(FirmBook, tb.accounts[t.debit].code) <==> InBook(FirmBook, tb.accounts[t.credit].code))
  }

  ghost predicate Disciplined(tb: Tb) {
    forall t :: t in tb.log ==> SameBook(tb, t)
  }

  lemma AccountHits(regs: seq<Registration>, tb: Tb, ledger: nat, book: Book, a: nat)
    requires Provisioned(regs, tb) && a in tb.accounts
    ensures Hits(regs, ledger, book, a)
         == if tb.accounts[a].ledger == ledger && InBook(book, tb.accounts[a].code) then 1 else 0
  {
    HitsIsMembership(regs, ledger, book, a);
    var r :| r in regs && r.id == a;
    if tb.accounts[a].ledger == ledger && InBook(book, tb.accounts[a].code) {
      assert r.ledger == ledger && InBook(book, r.code);
    }
  }

  /** A ledger that only ever moved money inside a book satisfies every identity. */
  lemma DisciplinedIsBalanced(regs: seq<Registration>, tb: Tb)
    requires Provisioned(regs, tb) && Disciplined(tb)
    ensures AllIdentitiesHold(regs, ByRegistryCode(tb))
  {
    forall r, book | r in regs ensures Gap(regs, r.ledger, book, ByRegistryCode(tb)) == 0 {
      forall t | t in tb.log ensures Crossing(regs, r.ledger, book)(t) == 0 {
        AccountHits(regs, tb, r.ledger, book, t.debit);
        AccountHits(regs, tb, r.ledger, book, t.credit);
      }
      NoCrossing(tb.log, regs, r.ledger, book);
      GapIsCrossFlow(regs, tb, r.ledger, book);
    }
  }

  /** One posting shifts a book's gap by its amount exactly when it enters or leaves the book. */
  lemma OnePostingShifts(regs: seq<Registration>, tb: Tb, t: Transfer, ledger: nat, book: Book)
    requires Provisioned(regs, tb) && Create(tb, t).Ok? && !Has(tb.log, t.id) && t.phase == Posted
    ensures
      var inDebit := t.ledger == ledger && InBook(book, tb.accounts[t.debit].code);
      var inCredit := t.ledger == ledger && InBook(book, tb.accounts[t.credit].code);
      Gap(regs, ledger, book, ByRegistryCode(Create(tb, t).value))
      == Gap(regs, ledger, book, ByRegistryCode(tb))
         + (if inDebit && !inCredit then t.amount else if inCredit && !inDebit then 0 - t.amount else 0)
  {
    var tb' := Create(tb, t).value;
    GapIsCrossFlow(regs, tb, ledger, book);
    GapIsCrossFlow(regs, tb', ledger, book);
    SumConcat(tb.log, [t], Crossing(regs, ledger, book));
    SumOne(t, Crossing(regs, ledger, book));
    AccountHits(regs, tb, ledger, book, t.debit);
    AccountHits(regs, tb, ledger, book, t.credit);
  }
}
