/** Accounts opened with the no-overdraft flag, as customer payables are when an administrator opens
    them by hand: a debit without cover is refused. What this keeps over every run, when it makes no
    difference, and how documents that do not otherwise meet compete for cover. */
module Cover {
  import opened Prelude
  import opened Ledger
  import opened GapLaws

  /** No flagged account is overdrawn. */
  ghost predicate Solvent(tb: Tb, capped: set<nat>) {
    forall a :: a in capped ==> Free(tb, a) >= 0
  }

  /** What one transfer adds to the amount free on an account. */
  function Adds(account: nat): Transfer -> int {
    (t: Transfer) =>
      (if t.phase == Posted && t.credit == account then t.amount else 0)
      - (if t.phase != Voided && t.debit == account then t.amount else 0)
  }

  lemma {:induction false} FreeIsSum(tb: Tb, account: nat)
    ensures Free(tb, account) == Sum(tb.log, Adds(account))
    decreases |tb.log|
  {
    if tb.log != [] {
      FreeIsSum(tb.(log := tb.log[..|tb.log| - 1]), account);
    }
  }

  lemma CreateMovesFree(tb: Tb, t: Transfer, account: nat)
    requires Create(tb, t).Ok? && !Has(tb.log, t.id)
    ensures Free(Create(tb, t).value, account) == Free(tb, account) + Adds(account)(t)
  {
    FreeIsSum(tb, account);
    FreeIsSum(Create(tb, t).value, account);
    SumConcat(tb.log, [t], Adds(account));
    SumOne(t, Adds(account));
  }

  /** Voiding gives the debited account its amount back, posting gives it to the credited one, and
      neither takes anything from any account. */
  lemma ResolveMovesFree(tb: Tb, id: TransferId, amount: nat, outcome: Phase, account: nat)
    requires Resolve(tb, id, amount, outcome).Ok?
    ensures
      var t, after := tb.log[IndexOf(tb.log, id)], Resolve(tb, id, amount, outcome).value;
      && Free(after, account) >= Free(tb, account)
      && (outcome == Voided && t.debit == account ==> Free(after, account) == Free(tb, account) + amount)
      && (outcome == Posted && t.credit == account ==> Free(after, account) == Free(tb, account) + amount)
  {
    var i := IndexOf(tb.log, id);
    FreeIsSum(tb, account);
    FreeIsSum(Resolve(tb, id, amount, outcome).value, account);
    SumUpdate(tb.log, i, tb.log[i].(phase := outcome), Adds(account));
  }

  // ── What the flag keeps ──

  function ServeCapped(tb: Tb, capped: set<nat>, r: Request): Tb {
    match r
    case Record(t) =>
      (match CreateCapped(tb, capped, t) case Ok(tb') => tb' case Err(_) => tb)
    case Decide(id, amount, outcome) => Serve(tb, r)
  }

  function ServeAllCapped(tb: Tb, capped: set<nat>, rs: seq<Request>): Tb
    decreases |rs|
  {
    if rs == [] then tb else ServeAllCapped(ServeCapped(tb, capped, rs[0]), capped, rs[1..])
  }

  lemma CreateKeepsSolvent(tb: Tb, capped: set<nat>, t: Transfer)
    requires Solvent(tb, capped) && CreateCapped(tb, capped, t).Ok?
    ensures Solvent(CreateCapped(tb, capped, t).value, capped)
  {
    if !Has(tb.log, t.id) {
      forall a | a in capped ensures Free(CreateCapped(tb, capped, t).value, a) >= 0 {
        CreateMovesFree(tb, t, a);
      }
    }
  }

  lemma ResolveKeepsSolvent(tb: Tb, capped: set<nat>, id: TransferId, amount: nat, outcome: Phase)
    requires Solvent(tb, capped) && Resolve(tb, id, amount, outcome).Ok?
    ensures Solvent(Resolve(tb, id, amount, outcome).value, capped)
  {
    forall a | a in capped ensures Free(Resolve(tb, id, amount, outcome).value, a) >= 0 {
      ResolveMovesFree(tb, id, amount, outcome, a);
    }
  }

  /** Whatever is asked of the ledger, in any order: no flagged account is ever overdrawn. */
  lemma {:induction false} NeverOverdrawn(tb: Tb, capped: set<nat>, rs: seq<Request>)
    requires Solvent(tb, capped)
    ensures Solvent(ServeAllCapped(tb, capped, rs), capped)
    decreases |rs|
  {
    if rs != [] {
      match rs[0] {
        case Record(t) =>
          if CreateCapped(tb, capped, t).Ok? {
            CreateKeepsSolvent(tb, capped, t);
          }
        case Decide(id, amount, outcome) =>
          if Resolve(tb, id, amount, outcome).Ok? {
            ResolveKeepsSolvent(tb, capped, id, amount, outcome);
          }
      }
      NeverOverdrawn(ServeCapped(tb, capped, rs[0]), capped, rs[1..]);
    }
  }

  // ── When the flag makes no difference ──

  /** The flag changes the answer to a request exactly when the request would be recorded and its
      flagged account lacks cover. */
  lemma FlagRefusesIff(tb: Tb, capped: set<nat>, t: Transfer)
    ensures CreateCapped(tb, capped, t) != Create(tb, t)
       <==> Create(tb, t).Ok? && !Has(tb.log, t.id) && t.debit in capped && t.amount > Free(tb, t.debit)
  {
  }

  /** No request of the run lacks cover when its turn comes. */
  predicate RunCovered(tb: Tb, capped: set<nat>, rs: seq<Request>)
    decreases |rs|
  {
    rs == [] || ((rs[0].Record? && Create(tb, rs[0].t).Ok? ==> Covers(tb, capped, rs[0].t))
                 && RunCovered(Serve(tb, rs[0]), capped, rs[1..]))
  }

  /** Both ledgers answer alike all along. */
  predicate Alike(tb: Tb, capped: set<nat>, rs: seq<Request>)
    decreases |rs|
  {
    rs == [] || (ServeCapped(tb, capped, rs[0]) == Serve(tb, rs[0]) && Alike(Serve(tb, rs[0]), capped, rs[1..]))
  }

  /** A ledger with flagged accounts behaves as one without exactly over the runs that never lack
      cover. */
  lemma {:induction false} AlikeIffCovered(tb: Tb, capped: set<nat>, rs: seq<Request>)
    ensures Alike(tb, capped, rs) <==> RunCovered(tb, capped, rs)
    ensures Alike(tb, capped, rs) ==> ServeAllCapped(tb, capped, rs) == ServeAll(tb, rs)
    decreases |rs|
  {
    if rs != [] {
      AlikeIffCovered(Serve(tb, rs[0]), capped, rs[1..]);
      if rs[0].Record? && Create(tb, rs[0].t).Ok? && !Covers(tb, capped, rs[0].t) {
        assert |Serve(tb, rs[0]).log| == |tb.log| + 1;
      }
    }
  }

  // ── Competing for cover ──

  /** Two requests of different documents, each of which would be granted alone, on one flagged
      account: after the first, the second is granted exactly when there is cover for both. */
  lemma CompeteForCover(tb: Tb, capped: set<nat>, x: Transfer, y: Transfer)
    requires x.debit == y.debit && x.debit in capped && x.phase == Pending && x.id != y.id
    requires !Has(tb.log, x.id) && !Has(tb.log, y.id)
    requires CreateCapped(tb, capped, x).Ok? && CreateCapped(tb, capped, y).Ok?
    ensures CreateCapped(CreateCapped(tb, capped, x).value, capped, y).Ok?
       <==> x.amount + y.amount <= Free(tb, x.debit)
  {
    var after := CreateCapped(tb, capped, x).value;
    CreateMovesFree(tb, x, x.debit);
    IndexOfConcat(tb.log, [x], y.id);
    assert IndexOf([x], y.id) == 1;
  }
}
