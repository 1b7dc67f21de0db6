/** The double-entry ledger as the accounting service drives it: an append-only log of
    transfers, each direct (posted at once) or two-phase (pending, then posted or voided).
    An account's balances are sums over the log. */
module Ledger {
  import opened Prelude

  const CLIENT_ASSET: nat := 1
  const FIRM_ASSET: nat := 50
  const CLIENT_PAYABLE: nat := 100
  const DEPOSIT_SUSPENSE: nat := 101
  const FIRM_OPS: nat := 200
  const FIRM_SET: nat := 201
  const FIRM_FEE: nat := 202
  const FIRM_LIQ: nat := 203

  /** The business document a transfer was made for. */
  datatype Kind = SwapKind | WithdrawKind | DepositKind | CapitalKind
  datatype Source = Source(kind: Kind, no: string)

  datatype Event =
    | SwapSellClient | SwapSellFirm | SwapSellSetToOps | SwapBuyOpsToSet
    | SwapBuyOpsToAsset | SwapBuySetToAsset | SwapBuyClient | SwapFeeClient | SwapFeeFirm
    | WithdrawLockNet | WithdrawLockFee | WithdrawFeeFirm
    | DepositAssetToSuspense | DepositSuspenseToPayable
    | CapitalInjection

  /** `deterministicTransferId` hashes exactly these fields; the hash is taken as injective. */
  datatype TransferId = TransferId(source: Source, event: Event, legIndex: nat)

  datatype Phase = Pending | Posted | Voided

  datatype Transfer = Transfer(
    id: TransferId, debit: nat, credit: nat, amount: nat, ledger: nat, twoPhase: bool, phase: Phase)
  {
    /** Same request, whatever has happened to it since. */
    predicate SameRequest(t: Transfer) {
      this.(phase := Pending) == t.(phase := Pending)
    }
  }

  datatype Account = Account(code: nat, ledger: nat)

  datatype Tb = Tb(accounts: map<nat, Account>, log: seq<Transfer>)

  // ── Lookups and sums over the log ──

  /** Position of the transfer with this id, or the length of the log. */
  function IndexOf(log: seq<Transfer>, id: TransferId): (i: nat)
    ensures i <= |log|
    ensures i < |log| ==> log[i].id == id
    ensures forall k :: 0 <= k < i ==> log[k].id != id
  {
    if log == [] then 0
    else if log[0].id == id then 0
    else
      var r := IndexOf(log[1..], id);
      assert forall k :: 0 < k < 1 + r ==> log[k] == log[1..][k - 1];
      1 + r
  }

  lemma IndexOfConcat(a: seq<Transfer>, b: seq<Transfer>, id: TransferId)
    ensures IndexOf(a + b, id) == if Has(a, id) then IndexOf(a, id) else |a| + IndexOf(b, id)
  {
    var i, j, k := IndexOf(a + b, id), IndexOf(a, id), IndexOf(b, id);
    if Has(a, id) {
      assert (a + b)[j].id == id;
    } else {
      assert forall m :: 0 <= m < |a| + k ==> (a + b)[m].id != id;
      if k < |b| {
        assert (a + b)[|a| + k].id == id;
      }
      if i < |a + b| {
        assert (a + b)[i].id == id;
      }
    }
  }

  predicate Has(log: seq<Transfer>, id: TransferId) {
    IndexOf(log, id) < |log|
  }

  predicate UniqueIds(log: seq<Transfer>) {
    forall i, j :: 0 <= i < j < |log| ==> log[i].id != log[j].id
  }

  function Sum(log: seq<Transfer>, w: Transfer -> int): int {
    if log == [] then 0 else Sum(log[..|log| - 1], w) + w(log[|log| - 1])
  }

  function DebitsIn(phase: Phase, account: nat): Transfer -> int {
    (t: Transfer) => if t.phase == phase && t.debit == account then t.amount else 0
  }

  function CreditsIn(phase: Phase, account: nat): Transfer -> int {
    (t: Transfer) => if t.phase == phase && t.credit == account then t.amount else 0
  }

  function DebitsPosted(tb: Tb, account: nat): int { Sum(tb.log, DebitsIn(Posted, account)) }
  function CreditsPosted(tb: Tb, account: nat): int { Sum(tb.log, CreditsIn(Posted, account)) }
  function DebitsPending(tb: Tb, account: nat): int { Sum(tb.log, DebitsIn(Pending, account)) }

  lemma {:induction false} SumConcat(a: seq<Transfer>, b: seq<Transfer>, w: Transfer -> int)
    ensures Sum(a + b, w) == Sum(a, w) + Sum(b, w)
  {
    if b == [] {
      assert a + b == a;
    } else {
      assert (a + b)[..|a + b| - 1] == a + b[..|b| - 1];
      SumConcat(a, b[..|b| - 1], w);
    }
  }

  lemma SumOne(t: Transfer, w: Transfer -> int)
    ensures Sum([t], w) == w(t)
  {
    assert [t][..0] == [];
  }

  lemma {:induction false} SumUpdate(log: seq<Transfer>, i: nat, t: Transfer, w: Transfer -> int)
    requires i < |log|
    ensures Sum(log[i := t], w) == Sum(log, w) - w(log[i]) + w(t)
  {
    var n := |log| - 1;
    if i == n {
      assert log[i := t][..n] == log[..n];
    } else {
      assert log[i := t][..n] == log[..n][i := t];
      SumUpdate(log[..n], i, t, w);
    }
  }

  // ── The accounting service ──

  /** One create-transfer request. A request already recorded is answered "exists" and counts
      as success; the same id with other fields, an unknown account or a ledger that is not
      both accounts' own is rejected. */
  function Create(tb: Tb, t: Transfer): Result<Tb> {
    var i := IndexOf(tb.log, t.id);
    if i < |tb.log| then
      if tb.log[i].SameRequest(t) then Ok(tb) else Err(TransferFailed)
    else if t.debit == t.credit || t.debit !in tb.accounts || t.credit !in tb.accounts then
      Err(TransferFailed)
    else if tb.accounts[t.debit].ledger != t.ledger || tb.accounts[t.credit].ledger != t.ledger then
      Err(TransferFailed)
    else
      Ok(tb.(log := tb.log + [t]))
  }

  function Execute(tb: Tb, id: TransferId, debit: nat, credit: nat, amount: nat, ledger: nat): Result<Tb> {
    Create(tb, Transfer(id, debit, credit, amount, ledger, false, Posted))
  }

  /** What may still be taken from an account that must not be overdrawn. */
  function Free(tb: Tb, account: nat): int {
    CreditsPosted(tb, account) - DebitsPosted(tb, account) - DebitsPending(tb, account)
  }

  /** The debited account is not one of those opened with the no-overdraft flag, or has cover; a
      request already recorded needs none. */
  predicate Covers(tb: Tb, capped: set<nat>, t: Transfer) {
    t.debit in capped ==> Has(tb.log, t.id) || t.amount <= Free(tb, t.debit)
  }

  function CreateCapped(tb: Tb, capped: set<nat>, t: Transfer): Result<Tb> {
    if Covers(tb, capped, t) then Create(tb, t) else Err(TransferFailed)
  }

  function ExecutePending(
    tb: Tb, capped: set<nat>, id: TransferId, debit: nat, credit: nat, amount: nat, ledger: nat): Result<Tb>
  {
    CreateCapped(tb, capped, Transfer(id, debit, credit, amount, ledger, true, Pending))
  }

  /** Post or void: only an open two-phase transfer of the stated amount can be resolved. */
  function Resolve(tb: Tb, id: TransferId, amount: nat, outcome: Phase): Result<Tb> {
    var i := IndexOf(tb.log, id);
    if i == |tb.log| || !tb.log[i].twoPhase || tb.log[i].phase != Pending || tb.log[i].amount != amount then
      Err(ResolveFailed)
    else
      Ok(tb.(log := tb.log[i := tb.log[i].(phase := outcome)]))
  }

  function PostPending(tb: Tb, id: TransferId, amount: nat): Result<Tb> { Resolve(tb, id, amount, Posted) }
  function VoidPending(tb: Tb, id: TransferId, amount: nat): Result<Tb> { Resolve(tb, id, amount, Voided) }

  /** The compensation variant swallows every error. */
  function VoidBestEffort(tb: Tb, id: TransferId, amount: nat): Tb {
    match VoidPending(tb, id, amount)
    case Ok(tb') => tb'
    case Err(_) => tb
  }

  // ── One document's private view of the ledger ──

  function Mine(log: seq<Transfer>, src: Source): seq<Transfer> {
    if log == [] then []
    else
      var n := |log| - 1;
      Mine(log[..n], src) + (if log[n].id.source == src then [log[n]] else [])
  }

  function View(tb: Tb, src: Source): Tb { tb.(log := Mine(tb.log, src)) }
}
