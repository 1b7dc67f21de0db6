/** What the ledger answers to each request and what the answer changes, what the balances and the
    identities over them count, and what the opening capital posts, in the fields' own terms. */
module LedgerRules {
  import opened Prelude
  import opened Ledger
  import opened ChartOfAccounts
  import opened Provisioning

  // ── Answers ──

  lemma Known(log: seq<Transfer>, u: Transfer)
    requires UniqueIds(log) && u in log
    ensures IndexOf(log, u.id) < |log| && log[IndexOf(log, u.id)] == u
  {
    var k :| 0 <= k < |log| && log[k] == u;
  }

  /** A request under a recorded id is granted exactly when all its fields are the recorded ones, and
      changes nothing. */
  lemma RepeatedRequest(tb: Tb, t: Transfer, u: Transfer)
    requires UniqueIds(tb.log) && u in tb.log && u.id == t.id
    ensures Create(tb, t).Ok?
       <==> t.debit == u.debit && t.credit == u.credit && t.amount == u.amount && t.ledger == u.ledger
            && t.twoPhase == u.twoPhase
    ensures Create(tb, t).Ok? ==> Create(tb, t).value == tb
  {
    Known(tb.log, u);
  }

  /** A new request is granted exactly when it names two different accounts, both known and both in
      its ledger, and is then the last of the log. */
  lemma NewRequest(tb: Tb, t: Transfer)
    requires forall u :: u in tb.log ==> u.id != t.id
    ensures Create(tb, t).Ok?
       <==> t.debit != t.credit && t.debit in tb.accounts && t.credit in tb.accounts
            && tb.accounts[t.debit].ledger == t.ledger && tb.accounts[t.credit].ledger == t.ledger
    ensures Create(tb, t).Ok? ==> Create(tb, t).value == Tb(tb.accounts, tb.log + [t])
  {
  }

  /** Booking pending asks for an open two-phase transfer; on an account with the no-overdraft flag it
      needs cover by posted credits less posted and pending debits. */
  lemma PendingRequest(tb: Tb, capped: set<nat>, id: TransferId, debit: nat, credit: nat, amount: nat, ledger: nat)
    requires forall u :: u in tb.log ==> u.id != id
    ensures
      var r := ExecutePending(tb, capped, id, debit, credit, amount, ledger);
      && (r.Ok? <==>
          && debit != credit && debit in tb.accounts && credit in tb.accounts
          && tb.accounts[debit].ledger == ledger && tb.accounts[credit].ledger == ledger
          && (debit in capped ==>
                amount <= CreditsPosted(tb, debit) - DebitsPosted(tb, debit) - DebitsPending(tb, debit)))
      && (r.Ok? ==>
            r.value == Tb(tb.accounts, tb.log + [Transfer(id, debit, credit, amount, ledger, true, Pending)]))
  {
    NewRequest(tb, Transfer(id, debit, credit, amount, ledger, true, Pending));
    assert !Has(tb.log, id);
  }

  /** Booking directly asks for a posted transfer, flag or no flag. */
  lemma DirectRequest(tb: Tb, id: TransferId, debit: nat, credit: nat, amount: nat, ledger: nat)
    requires forall u :: u in tb.log ==> u.id != id
    ensures
      var r := Execute(tb, id, debit, credit, amount, ledger);
      r.Ok? ==> r.value == Tb(tb.accounts, tb.log + [Transfer(id, debit, credit, amount, ledger, false, Posted)])
  {
    NewRequest(tb, Transfer(id, debit, credit, amount, ledger, false, Posted));
  }

  /** Posting and voiding work exactly on a recorded two-phase transfer that is still pending, for its
      full amount, and change its phase and nothing else. */
  lemma ResolvingRequest(tb: Tb, id: TransferId, amount: nat)
    requires UniqueIds(tb.log)
    ensures
      (exists u :: u in tb.log && u.id == id && u.twoPhase && u.phase == Pending && u.amount == amount)
      <==> PostPending(tb, id, amount).Ok?
    ensures PostPending(tb, id, amount).Ok? <==> VoidPending(tb, id, amount).Ok?
    ensures PostPending(tb, id, amount).Ok? ==>
      exists i ::
        && 0 <= i < |tb.log| && tb.log[i].id == id
        && PostPending(tb, id, amount).value == Tb(tb.accounts, tb.log[i := tb.log[i].(phase := Posted)])
        && VoidPending(tb, id, amount).value == Tb(tb.accounts, tb.log[i := tb.log[i].(phase := Voided)])
  {
    if u :| u in tb.log && u.id == id && u.twoPhase && u.phase == Pending && u.amount == amount {
      Known(tb.log, u);
    }
    if PostPending(tb, id, amount).Ok? {
      var i := IndexOf(tb.log, id);
      assert tb.log[i] in tb.log && tb.log[i].id == id;
    }
  }

  // ── Balances ──

  /** What one more transfer adds to each balance of an account. */
  lemma BalancesGrow(accounts: map<nat, Account>, log: seq<Transfer>, t: Transfer, a: nat)
    ensures
      var before, after := Tb(accounts, log), Tb(accounts, log + [t]);
      && DebitsPosted(after, a) == DebitsPosted(before, a) + (if t.phase == Posted && t.debit == a then t.amount else 0)
      && CreditsPosted(after, a)
         == CreditsPosted(before, a) + (if t.phase == Posted && t.credit == a then t.amount else 0)
      && DebitsPending(after, a)
         == DebitsPending(before, a) + (if t.phase == Pending && t.debit == a then t.amount else 0)
  {
    assert (log + [t])[..|log|] == log;
  }

  lemma BalancesStartAtZero(accounts: map<nat, Account>, a: nat)
    ensures
      var tb := Tb(accounts, []);
      DebitsPosted(tb, a) == 0 && CreditsPosted(tb, a) == 0 && DebitsPending(tb, a) == 0
  {
  }

  // ── Identities ──

  /** Posted debits less posted credits of the accounts registered in this ledger under these codes. */
  function NetDebits(regs: seq<Registration>, tb: Tb, ledger: nat, codes: set<nat>): int {
    if regs == [] then 0
    else
      var r := regs[|regs| - 1];
      NetDebits(regs[..|regs| - 1], tb, ledger, codes)
      + if r.ledger == ledger && r.code in codes then DebitsPosted(tb, r.id) - CreditsPosted(tb, r.id) else 0
  }

  lemma {:induction false} GapIsNetDebits(regs: seq<Registration>, tb: Tb, ledger: nat)
    ensures Gap(regs, ledger, ClientBook, ByRegistryCode(tb)) == NetDebits(regs, tb, ledger, {1, 100, 101})
    ensures Gap(regs, ledger, FirmBook, ByRegistryCode(tb)) == NetDebits(regs, tb, ledger, {50, 200, 201, 202, 203})
  {
    if regs != [] {
      GapIsNetDebits(regs[..|regs| - 1], tb, ledger);
    }
  }

  /** The identities hold exactly when in every ledger the customers' accounts net to nothing, and so
      do the firm's. */
  lemma IdentitiesMean(regs: seq<Registration>, tb: Tb)
    ensures AllIdentitiesHold(regs, ByRegistryCode(tb))
       <==> forall r :: r in regs ==>
              && NetDebits(regs, tb, r.ledger, {1, 100, 101}) == 0
              && NetDebits(regs, tb, r.ledger, {50, 200, 201, 202, 203}) == 0
  {
    hide Gap, NetDebits;
    forall ledger
      ensures Gap(regs, ledger, ClientBook, ByRegistryCode(tb)) == NetDebits(regs, tb, ledger, {1, 100, 101})
      ensures Gap(regs, ledger, FirmBook, ByRegistryCode(tb)) == NetDebits(regs, tb, ledger, {50, 200, 201, 202, 203})
    {
      GapIsNetDebits(regs, tb, ledger);
    }
    forall r, book | r in regs
      ensures Gap(regs, r.ledger, book, ByRegistryCode(tb))
           == NetDebits(regs, tb, r.ledger, if book == ClientBook then {1, 100, 101} else {50, 200, 201, 202, 203})
    {
    }
  }

  // ── Opening capital ──

  /** The capital of a currency is posted at once, from the ledger's system account 50 to its system
      account 200, for the whole amount; without either account nothing is posted. */
  lemma InjectionMeans(rows: seq<RegRow>, idOf: Key -> nat, c: Capital)
    requires Derived(rows, idOf)
    ensures Injection(rows, c).Some?
       <==> RegRow(Key(50, c.ledger, 0), idOf(Key(50, c.ledger, 0))) in rows
            && RegRow(Key(200, c.ledger, 0), idOf(Key(200, c.ledger, 0))) in rows
    ensures Injection(rows, c).Some? ==>
      Injection(rows, c).value
      == Transfer(TransferId(Source(CapitalKind, c.currency), CapitalInjection, 0), idOf(Key(50, c.ledger, 0)),
                  idOf(Key(200, c.ledger, 0)), c.amount, c.ledger, false, Posted)
  {
    hide Derived;
    SystemAccountMeans(rows, idOf, 50, c.ledger);
    SystemAccountMeans(rows, idOf, 200, c.ledger);
  }

  lemma {:induction false} SystemAccountMeans(rows: seq<RegRow>, idOf: Key -> nat, code: nat, ledger: nat)
    requires Derived(rows, idOf)
    ensures
      var key := Key(code, ledger, 0);
      SystemAccount(rows, code, ledger) == if RegRow(key, idOf(key)) in rows then Some(idOf(key)) else None
  {
    if rows != [] {
      assert Derived(rows[1..], idOf);
      SystemAccountMeans(rows[1..], idOf, code, ledger);
      assert rows == [rows[0]] + rows[1..];
    }
  }
}
