/** Many withdrawals on one ledger, beside every other business document, in any interleaving:
    a customer's pending debits are exactly the open locks of that customer's withdrawals. */
module WithdrawSystem {
  import opened Prelude
  import opened Ledger
  import opened LedgerViews
  import opened ChartOfAccounts
  import GapLaws
  import opened WithdrawModel
  import opened WithdrawInvariant
  import opened WithdrawOutcomes
  import opened Cover
  import opened WithdrawLocality

  // ── The whole system ──

  /** The withdrawal table, in insertion order, the shared ledger, and its flagged accounts. */
  datatype System = System(rows: seq<Withdrawal>, tb: Tb, capped: set<nat>)

  datatype Call =
    | Request(terms: Terms, dbOk: bool)
    | OnWithdrawal(no: string, op: Op)
    | CreateElsewhere(t: Transfer)
    | ResolveElsewhere(id: TransferId, amount: nat, outcome: Phase)

  function RowOf(rows: seq<Withdrawal>, no: string): (i: nat)
    ensures i <= |rows|
    ensures i < |rows| ==> rows[i].terms.no == no
    ensures i == |rows| ==> forall k :: 0 <= k < |rows| ==> rows[k].terms.no != no
  {
    if rows == [] then 0
    else if rows[|rows| - 1].terms.no == no then |rows| - 1
    else
      var i := RowOf(rows[..|rows| - 1], no);
      if i == |rows| - 1 then |rows| else i
  }

  /** The table refuses a number it already has before anything is locked. */
  function Perform(sys: System, c: Call): System {
    match c
    case Request(t, dbOk) =>
      if RowOf(sys.rows, t.no) < |sys.rows| then sys
      else
        (match CreateWithdrawal(t, sys.tb, sys.capped, dbOk)
         case Stored(w, tb) => sys.(rows := sys.rows + [w], tb := tb)
         case NotCreated(tb) => sys.(tb := tb))
    case OnWithdrawal(no, op) =>
      var i := RowOf(sys.rows, no);
      if i == |sys.rows| then sys
      else
        var o := Step(sys.rows[i], sys.tb, op);
        sys.(rows := sys.rows[i := o.w], tb := o.tb)
    case CreateElsewhere(t) =>
      (match CreateCapped(sys.tb, sys.capped, t) case Ok(tb) => sys.(tb := tb) case Err(_) => sys)
    case ResolveElsewhere(id, amount, outcome) =>
      (match Resolve(sys.tb, id, amount, outcome) case Ok(tb) => sys.(tb := tb) case Err(_) => sys)
  }

  function PerformAll(sys: System, calls: seq<Call>): System
    decreases |calls|
  {
    if calls == [] then sys else PerformAll(Perform(sys, calls[0]), calls[1..])
  }

  /** A request draws a number the ledger has not seen (ReusedNumberHoldsNothing says why), in a
      currency whose firm accounts exist (SucceedsIffFeeCollectable says why) and are not flagged;
      everything else on the ledger belongs to other kinds of documents. */
  predicate Regular(sys: System, c: Call) {
    match c
    case Request(t, _) =>
      View(sys.tb, t.Src()).log == [] && CanCollect(t, sys.tb.accounts) && t.firmAsset !in sys.capped
    case OnWithdrawal(_, _) => true
    case CreateElsewhere(t) => t.id.source.kind != WithdrawKind
    case ResolveElsewhere(id, _, _) => id.source.kind != WithdrawKind
  }

  predicate RegularRun(sys: System, calls: seq<Call>)
    decreases |calls|
  {
    calls == [] || (Regular(sys, calls[0]) && RegularRun(Perform(sys, calls[0]), calls[1..]))
  }

  ghost predicate RowsFit(rows: seq<Withdrawal>, tb: Tb) {
    forall i :: 0 <= i < |rows| ==> Inv(rows[i], View(tb, rows[i].terms.Src()))
  }

  predicate DistinctNos(rows: seq<Withdrawal>) {
    forall i, j :: 0 <= i < j < |rows| ==> rows[i].terms.no != rows[j].terms.no
  }

  ghost predicate SysInv(sys: System) {
    UniqueIds(sys.tb.log) && DistinctNos(sys.rows) && RowsFit(sys.rows, sys.tb)
  }

  /** Rows of other documents do not notice local work. */
  lemma RowsUntouched(rows: seq<Withdrawal>, a: Tb, b: Tb, v: Tb, src: Source)
    requires RowsFit(rows, a) && LocalTo(a, b, v, src)
    requires forall i :: 0 <= i < |rows| ==> rows[i].terms.Src() != src
    ensures RowsFit(rows, b)
  {
    forall i | 0 <= i < |rows| ensures Inv(rows[i], View(b, rows[i].terms.Src())) {
      assert View(b, rows[i].terms.Src()) == View(a, rows[i].terms.Src());
    }
  }

  lemma RowReplaced(rows: seq<Withdrawal>, a: Tb, b: Tb, v: Tb, k: nat, w: Withdrawal)
    requires k < |rows| && RowsFit(rows, a) && DistinctNos(rows) && LocalTo(a, b, v, rows[k].terms.Src())
    requires w.terms == rows[k].terms && Inv(w, v)
    ensures RowsFit(rows[k := w], b) && DistinctNos(rows[k := w])
  {
    var after := rows[k := w];
    forall i | 0 <= i < |after| ensures Inv(after[i], View(b, after[i].terms.Src())) {
      if i != k {
        assert rows[i].terms.no != rows[k].terms.no;
        assert View(b, rows[i].terms.Src()) == View(a, rows[i].terms.Src());
      }
    }
  }

  // ── Money held ──

  function HeldWeight(account: nat): Transfer -> int {
    (t: Transfer) =>
      if t.id.source.kind == WithdrawKind && t.phase == Pending && t.debit == account then t.amount else 0
  }

  function OtherWeight(account: nat): Transfer -> int {
    (t: Transfer) =>
      if t.id.source.kind != WithdrawKind && t.phase == Pending && t.debit == account then t.amount else 0
  }

  function HeldBy(w: Withdrawal, account: nat): nat {
    if w.terms.payable == account && LockPhase(w) == Pending then w.terms.net + w.terms.fee else 0
  }

  function Held(rows: seq<Withdrawal>, account: nat): nat {
    if rows == [] then 0 else Held(rows[..|rows| - 1], account) + HeldBy(rows[|rows| - 1], account)
  }

  lemma {:induction false} HeldUpdate(rows: seq<Withdrawal>, k: nat, w: Withdrawal, account: nat)
    requires k < |rows|
    ensures Held(rows[k := w], account) == Held(rows, account) - HeldBy(rows[k], account) + HeldBy(w, account)
  {
    var n := |rows| - 1;
    if k == n {
      assert rows[k := w][..n] == rows[..n];
    } else {
      assert rows[k := w][..n] == rows[..n][k := w];
      HeldUpdate(rows[..n], k, w, account);
    }
  }

  lemma HeldAppend(rows: seq<Withdrawal>, w: Withdrawal, account: nat)
    ensures Held(rows + [w], account) == Held(rows, account) + HeldBy(w, account)
  {
    assert (rows + [w])[..|rows|] == rows;
  }

  lemma SumTwo(x: Transfer, y: Transfer, wt: Transfer -> int)
    ensures Sum([x, y], wt) == wt(x) + wt(y)
  {
    assert [x, y] == [x] + [y];
    SumConcat([x], [y], wt);
    SumOne(x, wt);
    SumOne(y, wt);
  }

  lemma LocksHold(t: Terms, phase: Phase, account: nat)
    ensures Sum(Locks(t, phase), HeldWeight(account))
         == if phase == Pending && t.payable == account then t.net + t.fee else 0
  {
    SumOne(NetLock(t, phase), HeldWeight(account));
    SumTwo(NetLock(t, phase), FeeLock(t, phase), HeldWeight(account));
  }

  lemma BooksHold(w: Withdrawal, account: nat)
    ensures Sum(Books(w), HeldWeight(account)) == HeldBy(w, account)
  {
    LocksHold(w.terms, LockPhase(w), account);
    if LockPhase(w) == Posted && w.terms.fee > 0 {
      assert Settlement(w.terms) == Locks(w.terms, Posted) + [FirmFee(w.terms)];
      SumConcat(Locks(w.terms, Posted), [FirmFee(w.terms)], HeldWeight(account));
      SumOne(FirmFee(w.terms), HeldWeight(account));
    }
  }

  // ── Every call keeps the books and the rows together ──

  ghost predicate Conserved(sys: System, account: nat) {
    Sum(sys.tb.log, HeldWeight(account)) == Held(sys.rows, account)
  }

  lemma RequestConserves(sys: System, t: Terms, dbOk: bool, account: nat)
    requires SysInv(sys) && Conserved(sys, account) && Regular(sys, Request(t, dbOk))
    ensures var s := Perform(sys, Request(t, dbOk)); SysInv(s) && Conserved(s, account)
  {
    hide Inv, Sum, CreateWithdrawal, Held, SysInv, Conserved, View;
    if RowOf(sys.rows, t.no) == |sys.rows| {
      var c := CreationConserves(sys, t, dbOk, account);
    }
  }

  lemma CreationConserves(sys: System, t: Terms, dbOk: bool, account: nat) returns (c: Creation)
    requires SysInv(sys) && Conserved(sys, account) && Regular(sys, Request(t, dbOk))
    requires RowOf(sys.rows, t.no) == |sys.rows|
    ensures c == CreateWithdrawal(t, sys.tb, sys.capped, dbOk)
    ensures var s := if c.Stored? then sys.(rows := sys.rows + [c.w], tb := c.tb) else sys.(tb := c.tb);
      SysInv(s) && Conserved(s, account)
  {
    hide Inv, Sum, CreateWithdrawal, CreateGiven, Held, NetCovered, FeeCovered;
    c := CreateWithdrawal(t, sys.tb, sys.capped, dbOk);
    var netOk, feeOk := NetCovered(t, sys.tb, sys.capped), FeeCovered(t, sys.tb, sys.capped);
    var v := CreateGiven(t, View(sys.tb, t.Src()), netOk, feeOk, dbOk);
    CreationIsGiven(t, sys.tb, sys.capped, dbOk);
    CreationIsWork(t, sys.tb, netOk, feeOk, dbOk, HeldWeight(account));
    RowsUntouched(sys.rows, sys.tb, c.tb, v.tb, t.Src());
    FreshCreation(t, View(sys.tb, t.Src()), netOk, feeOk, dbOk, account);
    if c.Stored? {
      HeldAppend(sys.rows, c.w, account);
      assert View(c.tb, t.Src()) == v.tb;
    }
  }

  lemma FreshCreation(t: Terms, tb: Tb, netOk: bool, feeOk: bool, dbOk: bool, account: nat)
    requires tb.log == [] && CanCollect(t, tb.accounts)
    ensures
      var c := CreateGiven(t, tb, netOk, feeOk, dbOk);
      && (c.Stored? ==> Inv(c.w, c.tb) && c.w.terms == t)
      && Sum(tb.log, HeldWeight(account)) == 0
      && Sum(c.tb.log, HeldWeight(account)) == if c.Stored? then HeldBy(c.w, account) else 0
  {
    FreshGiven(t, tb, netOk, feeOk, dbOk);
    LocksHold(t, Pending, account);
    LocksHold(t, Voided, account);
    SumOne(NetLock(t, Voided), HeldWeight(account));
    hide CreateGiven;
  }

  lemma StepConserves(sys: System, k: nat, op: Op, account: nat)
    requires SysInv(sys) && Conserved(sys, account) && k < |sys.rows|
    ensures
      var o := Step(sys.rows[k], sys.tb, op);
      var s := sys.(rows := sys.rows[k := o.w], tb := o.tb);
      SysInv(s) && Conserved(s, account)
  {
    hide Step, Inv, Sum;
    var w := sys.rows[k];
    var o, v := Step(w, sys.tb, op), Step(w, View(sys.tb, w.terms.Src()), op);
    StepIsWork(w, sys.tb, op, HeldWeight(account));
    StepKeepsInv(w, View(sys.tb, w.terms.Src()), op);
    RowReplaced(sys.rows, sys.tb, o.tb, v.tb, k, o.w);
    HeldUpdate(sys.rows, k, o.w, account);
    InvHolds(w, View(sys.tb, w.terms.Src()), account);
    InvHolds(v.w, v.tb, account);
  }

  lemma InvHolds(w: Withdrawal, tb: Tb, account: nat)
    requires Inv(w, tb)
    ensures Sum(tb.log, HeldWeight(account)) == HeldBy(w, account)
  {
    BooksHold(w, account);
  }

  lemma ElsewhereConserves(sys: System, c: Call, account: nat)
    requires SysInv(sys) && Conserved(sys, account) && Regular(sys, c) && (c.CreateElsewhere? || c.ResolveElsewhere?)
    ensures var s := Perform(sys, c); SysInv(s) && Conserved(s, account)
  {
    var wt := HeldWeight(account);
    match c
    case CreateElsewhere(t) =>
      CreateLocal(sys.tb, t);
      if Create(sys.tb, t).Ok? {
        RowsUntouched(sys.rows, sys.tb, Create(sys.tb, t).value, View(Create(sys.tb, t).value, t.id.source),
            t.id.source);
        SumConcat(sys.tb.log, [t], wt);
        SumOne(t, wt);
      }
    case ResolveElsewhere(id, amount, outcome) =>
      ResolveLocal(sys.tb, id, amount, outcome);
      var r := Resolve(sys.tb, id, amount, outcome);
      if r.Ok? {
        var i := IndexOf(sys.tb.log, id);
        RowsUntouched(sys.rows, sys.tb, r.value, View(r.value, id.source), id.source);
        SumUpdate(sys.tb.log, i, sys.tb.log[i].(phase := outcome), wt);
      }
  }

  lemma PerformConserves(sys: System, c: Call, account: nat)
    requires SysInv(sys) && Conserved(sys, account) && Regular(sys, c)
    ensures var s := Perform(sys, c); SysInv(s) && Conserved(s, account)
  {
    hide SysInv, Conserved, CreateWithdrawal, Step;
    match c
    case Request(t, dbOk) => RequestConserves(sys, t, dbOk, account);
    case OnWithdrawal(no, op) =>
      if RowOf(sys.rows, no) < |sys.rows| {
        StepConserves(sys, RowOf(sys.rows, no), op, account);
      }
    case _ => ElsewhereConserves(sys, c, account);
  }

  /** Main law, over every interleaving of any number of withdrawals and foreign documents. */
  lemma {:induction false} LocksAreConserved(sys: System, calls: seq<Call>, account: nat)
    requires SysInv(sys) && Conserved(sys, account) && RegularRun(sys, calls)
    ensures var s := PerformAll(sys, calls); SysInv(s) && Conserved(s, account)
    decreases |calls|
  {
    if calls != [] {
      PerformConserves(sys, calls[0], account);
      LocksAreConserved(Perform(sys, calls[0]), calls[1..], account);
    }
  }

  lemma {:induction false} PendingSplits(log: seq<Transfer>, account: nat)
    ensures Sum(log, DebitsIn(Pending, account)) == Sum(log, HeldWeight(account)) + Sum(log, OtherWeight(account))
  {
    if log != [] {
      PendingSplits(log[..|log| - 1], account);
    }
  }

  /** An empty ledger, some of whose accounts may be flagged. */
  function Opening(accounts: map<nat, Account>, capped: set<nat>): System { System([], Tb(accounts, []), capped) }

  lemma NothingYet(account: nat, accounts: map<nat, Account>, capped: set<nat>)
    ensures SysInv(Opening(accounts, capped)) && Conserved(Opening(accounts, capped), account)
  {
  }

  /** The customer's pending debits in any reachable state: the open locks of the customer's
      withdrawals, and what other kinds of documents hold. */
  lemma PendingIsOpenLocks(accounts: map<nat, Account>, capped: set<nat>, calls: seq<Call>, account: nat)
    requires RegularRun(Opening(accounts, capped), calls)
    ensures
      var s := PerformAll(Opening(accounts, capped), calls);
      DebitsPending(s.tb, account) == Held(s.rows, account) + Sum(s.tb.log, OtherWeight(account))
  {
    NothingYet(account, accounts, capped);
    LocksAreConserved(Opening(accounts, capped), calls, account);
    PendingSplits(PerformAll(Opening(accounts, capped), calls).tb.log, account);
  }

  // ── Cover ──

  ghost predicate Funded(sys: System) {
    Solvent(sys.tb, sys.capped) && forall w :: w in sys.rows ==> w.terms.firmAsset !in sys.capped
  }

  lemma PerformKeepsFunded(sys: System, c: Call)
    requires Funded(sys) && Regular(sys, c)
    ensures Funded(Perform(sys, c)) && Perform(sys, c).capped == sys.capped
  {
    hide Solvent, CreateWithdrawal, Step, Create, Resolve, Covers;
    match c
    case Request(t, dbOk) =>
      CreationKeepsSolvent(t, sys.tb, sys.capped, dbOk);
      CreatedTerms(t, sys.tb, sys.capped, dbOk);
    case OnWithdrawal(no, op) =>
      var i := RowOf(sys.rows, no);
      if i < |sys.rows| {
        assert sys.rows[i] in sys.rows;
        StepKeepsSolvent(sys.rows[i], sys.tb, op, sys.capped);
        StepKeepsTerms(sys.rows[i], sys.tb, op);
      }
    case CreateElsewhere(t) =>
      if CreateCapped(sys.tb, sys.capped, t).Ok? {
        CreateKeepsSolvent(sys.tb, sys.capped, t);
      }
    case ResolveElsewhere(id, amount, outcome) =>
      if Resolve(sys.tb, id, amount, outcome).Ok? {
        ResolveKeepsSolvent(sys.tb, sys.capped, id, amount, outcome);
      }
  }

  lemma CreatedTerms(t: Terms, tb: Tb, capped: set<nat>, dbOk: bool)
    ensures var c := CreateWithdrawal(t, tb, capped, dbOk); c.Stored? ==> c.w.terms == t
  {
  }

  lemma StepKeepsTerms(w: Withdrawal, tb: Tb, op: Op)
    ensures Step(w, tb, op).w.terms == w.terms
  {
  }

  /** Whatever withdrawals and other documents do, in any order, no flagged account is overdrawn. */
  lemma {:induction false} RunKeepsFunded(sys: System, calls: seq<Call>)
    requires Funded(sys) && RegularRun(sys, calls)
    ensures Funded(PerformAll(sys, calls)) && PerformAll(sys, calls).capped == sys.capped
    decreases |calls|
  {
    if calls != [] {
      PerformKeepsFunded(sys, calls[0]);
      RunKeepsFunded(Perform(sys, calls[0]), calls[1..]);
    }
  }

  // ── Whose locks are they? ──

  /** The locks of withdrawals that are still on their way. */
  function LiveHeld(rows: seq<Withdrawal>, account: nat): nat {
    if rows == [] then 0
    else
      var w := rows[|rows| - 1];
      LiveHeld(rows[..|rows| - 1], account)
      + (if w.terms.payable == account && Live(w) then w.terms.net + w.terms.fee else 0)
  }

  predicate Leaks(w: Withdrawal, account: nat) {
    w.terms.payable == account && Leaked(w) && w.terms.net + w.terms.fee > 0
  }

  /** Every lock belongs to a withdrawal that can still resolve it, exactly when no withdrawal
      with a positive lock was flagged, cancelled or rejected by an administrator. */
  lemma {:induction false} LocksAreLiveIffNoLeak(rows: seq<Withdrawal>, account: nat)
    ensures LiveHeld(rows, account) <= Held(rows, account)
    ensures Held(rows, account) == LiveHeld(rows, account) <==> forall w :: w in rows ==> !Leaks(w, account)
  {
    if rows != [] {
      var n := |rows| - 1;
      LocksAreLiveIffNoLeak(rows[..n], account);
      OpenLocksAreLiveOrLeaked(rows[n]);
      assert rows == rows[..n] + [rows[n]];
      if forall w :: w in rows[..n] ==> !Leaks(w, account) {
        assert !Leaks(rows[n], account) ==> forall w :: w in rows ==> !Leaks(w, account);
      } else {
        var w :| w in rows[..n] && Leaks(w, account);
        assert w in rows;
      }
    }
  }

  // ── Create, then fail ──

  /** Whatever else happened since: once the withdrawal has failed it holds nothing, so the
      customer's locks are those of the other withdrawals, as if it had never been. */
  lemma FailedHoldsNothing(sys: System, k: nat, account: nat)
    requires SysInv(sys) && k < |sys.rows| && sys.rows[k].status == Failed
    ensures Held(sys.rows, account) == Held(sys.rows[..k] + sys.rows[k + 1..], account)
    ensures sys.rows[k].feeFund == if sys.rows[k].terms.fee > 0 then Some(FundCancelled) else None
  {
    assert sys.rows == sys.rows[..k] + [sys.rows[k]] + sys.rows[k + 1..];
    HeldConcat(sys.rows[..k] + [sys.rows[k]], sys.rows[k + 1..], account);
    HeldAppend(sys.rows[..k], sys.rows[k], account);
    HeldConcat(sys.rows[..k], sys.rows[k + 1..], account);
    assert Inv(sys.rows[k], View(sys.tb, sys.rows[k].terms.Src()));
  }

  lemma {:induction false} HeldConcat(a: seq<Withdrawal>, b: seq<Withdrawal>, account: nat)
    ensures Held(a + b, account) == Held(a, account) + Held(b, account)
  {
    if b == [] {
      assert a + b == a;
    } else {
      assert (a + b)[..|a + b| - 1] == a + b[..|b| - 1];
      HeldConcat(a, b[..|b| - 1], account);
    }
  }

  // ── The identities ──

  /** Customer accounts for the locks, firm accounts for the fee. */
  predicate WellCoded(t: Terms, accounts: map<nat, Account>) {
    && (t.payable in accounts ==> accounts[t.payable].code == CLIENT_PAYABLE)
    && (t.clientAsset in accounts ==> accounts[t.clientAsset].code == CLIENT_ASSET)
    && (t.firmAsset in accounts ==> accounts[t.firmAsset].code == FIRM_ASSET)
    && (t.firmFee in accounts ==> accounts[t.firmFee].code == FIRM_FEE)
  }

  predicate StaysInBook(sys: System, c: Call) {
    match c
    case Request(t, _) => WellCoded(t, sys.tb.accounts)
    case CreateElsewhere(t) => SameBook(sys.tb, t)
    case _ => true
  }

  lemma BooksAreDisciplined(w: Withdrawal, tb: Tb)
    requires Inv(w, tb) && WellCoded(w.terms, tb.accounts)
    ensures Disciplined(tb)
  {
  }

  lemma LocalDiscipline(a: Tb, b: Tb, v: Tb, src: Source)
    requires LocalTo(a, b, v, src) && Disciplined(a) && Disciplined(v) && v.accounts == b.accounts
    ensures Disciplined(b)
  {
    forall t | t in b.log ensures SameBook(b, t) {
      MineMembers(b.log, t.id.source);
      MineMembers(a.log, t.id.source);
      if t.id.source == src {
        assert t in View(b, src).log;
      } else {
        assert t in View(b, t.id.source).log;
        assert View(b, t.id.source) == View(a, t.id.source);
      }
    }
  }

  ghost predicate AllWellCoded(rows: seq<Withdrawal>, accounts: map<nat, Account>) {
    forall w :: w in rows ==> WellCoded(w.terms, accounts)
  }

  lemma PerformStaysInBook(sys: System, c: Call)
    requires SysInv(sys) && Conserved(sys, 0) && Regular(sys, c) && StaysInBook(sys, c)
    requires Disciplined(sys.tb) && AllWellCoded(sys.rows, sys.tb.accounts)
    ensures
      var s := Perform(sys, c);
      Disciplined(s.tb) && s.tb.accounts == sys.tb.accounts && AllWellCoded(s.rows, s.tb.accounts)
  {
    hide RowsFit, Inv, CreateWithdrawal, Step, WellCoded, SameBook, Create, Resolve;
    match c
    case Request(t, dbOk) =>
      if RowOf(sys.rows, t.no) == |sys.rows| {
        RequestStaysInBook(sys.tb, t, sys.capped, dbOk);
      }
    case OnWithdrawal(no, op) =>
      var k := RowOf(sys.rows, no);
      if k < |sys.rows| {
        assert sys.rows[k] in sys.rows;
        StepStaysInBook(sys, k, op);
      }
    case CreateElsewhere(t) => GapLaws.ServeStaysInBook(sys.tb, GapLaws.Record(t));
    case ResolveElsewhere(id, amount, outcome) =>
      GapLaws.ServeStaysInBook(sys.tb, GapLaws.Decide(id, amount, outcome));
  }

  lemma RequestStaysInBook(tb: Tb, t: Terms, capped: set<nat>, dbOk: bool)
    requires UniqueIds(tb.log) && Disciplined(tb) && WellCoded(t, tb.accounts) && View(tb, t.Src()).log == []
    ensures
      var c := CreateWithdrawal(t, tb, capped, dbOk);
      Disciplined(c.tb) && c.tb.accounts == tb.accounts && (c.Stored? ==> c.w.terms == t)
  {
    hide CreateWithdrawal, CreateGiven, Shifts, Disciplined, NetCovered, FeeCovered;
    var netOk, feeOk := NetCovered(t, tb, capped), FeeCovered(t, tb, capped);
    var c, v := CreateWithdrawal(t, tb, capped, dbOk), CreateGiven(t, View(tb, t.Src()), netOk, feeOk, dbOk);
    CreationIsGiven(t, tb, capped, dbOk);
    CreationIsWork(t, tb, netOk, feeOk, dbOk, HeldWeight(0));
    FreshInBook(t, View(tb, t.Src()), netOk, feeOk, dbOk);
    LocalDiscipline(tb, c.tb, v.tb, t.Src());
  }

  lemma FreshInBook(t: Terms, tb: Tb, netOk: bool, feeOk: bool, dbOk: bool)
    requires tb.log == [] && WellCoded(t, tb.accounts)
    ensures
      var c := CreateGiven(t, tb, netOk, feeOk, dbOk);
      Disciplined(c.tb) && c.tb.accounts == tb.accounts && (c.Stored? ==> c.w.terms == t)
  {
    FreshGiven(t, tb, netOk, feeOk, dbOk);
    hide CreateGiven;
  }

  lemma StepStaysInBook(sys: System, k: nat, op: Op)
    requires SysInv(sys) && k < |sys.rows| && Disciplined(sys.tb) && WellCoded(sys.rows[k].terms, sys.tb.accounts)
    ensures
      var o := Step(sys.rows[k], sys.tb, op);
      Disciplined(o.tb) && o.tb.accounts == sys.tb.accounts && o.w.terms == sys.rows[k].terms
  {
    hide Step, Inv;
    var w := sys.rows[k];
    var o, v := Step(w, sys.tb, op), Step(w, View(sys.tb, w.terms.Src()), op);
    StepIsWork(w, sys.tb, op, HeldWeight(0));
    StepKeepsInv(w, View(sys.tb, w.terms.Src()), op);
    assert View(o.tb, w.terms.Src()) == v.tb;
    BooksAreDisciplined(v.w, v.tb);
    LocalDiscipline(sys.tb, o.tb, v.tb, w.terms.Src());
  }

  predicate InBookRun(sys: System, calls: seq<Call>)
    decreases |calls|
  {
    calls == [] || (StaysInBook(sys, calls[0]) && InBookRun(Perform(sys, calls[0]), calls[1..]))
  }

  /** Withdrawals keep the CLIENT and FIRM identities: locking, voiding, settling and refusing in
      any interleaving move money only inside a book. */
  lemma {:induction false} WithdrawalsKeepIdentities(sys: System, calls: seq<Call>, regs: seq<Registration>)
    requires SysInv(sys) && Conserved(sys, 0) && RegularRun(sys, calls) && InBookRun(sys, calls)
    requires Disciplined(sys.tb) && AllWellCoded(sys.rows, sys.tb.accounts) && Provisioned(regs, sys.tb)
    ensures AllIdentitiesHold(regs, ByRegistryCode(PerformAll(sys, calls).tb))
    decreases |calls|
  {
    if calls == [] {
      DisciplinedIsBalanced(regs, sys.tb);
    } else {
      var s := Perform(sys, calls[0]);
      PerformConserves(sys, calls[0], 0);
      PerformStaysInBook(sys, calls[0]);
      WithdrawalsKeepIdentities(s, calls[1..], regs);
    }
  }
}
