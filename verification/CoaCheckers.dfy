/** The three programs that check the identities, each against the same specification. */
module CoaCheckers {
  import opened Prelude
  import opened Ledger
  import opened ChartOfAccounts

  // ── Facts about the sums ──

  lemma {:induction false} SumBalSame(
      regs: seq<Registration>, ledger: nat, codes: set<nat>, bal: Registration -> int, bal': Registration -> int)
    requires forall r :: r in regs ==> bal(r) == bal'(r)
    ensures SumBal(regs, ledger, codes, bal) == SumBal(regs, ledger, codes, bal')
  {
    if regs != [] {
      forall r | r in regs[..|regs| - 1] ensures r in regs { }
      SumBalSame(regs[..|regs| - 1], ledger, codes, bal, bal');
    }
  }

  lemma {:induction false} SumBalSplit(
      regs: seq<Registration>, ledger: nat, a: set<nat>, b: set<nat>, bal: Registration -> int)
    requires a !! b
    ensures SumBal(regs, ledger, a + b, bal) == SumBal(regs, ledger, a, bal) + SumBal(regs, ledger, b, bal)
  {
    if regs != [] {
      SumBalSplit(regs[..|regs| - 1], ledger, a, b, bal);
    }
  }

  lemma ClaimsByCode(regs: seq<Registration>, ledger: nat, bal: Registration -> int)
    ensures SumBal(regs, ledger, ClaimCodes(ClientBook), bal)
         == SumBal(regs, ledger, {CLIENT_PAYABLE}, bal) + SumBal(regs, ledger, {DEPOSIT_SUSPENSE}, bal)
    ensures SumBal(regs, ledger, ClaimCodes(FirmBook), bal)
         == SumBal(regs, ledger, {FIRM_OPS}, bal) + SumBal(regs, ledger, {FIRM_SET}, bal)
            + SumBal(regs, ledger, {FIRM_FEE}, bal) + SumBal(regs, ledger, {FIRM_LIQ}, bal)
  {
    SumBalSplit(regs, ledger, {CLIENT_PAYABLE}, {DEPOSIT_SUSPENSE}, bal);
    assert ClaimCodes(ClientBook) == {CLIENT_PAYABLE} + {DEPOSIT_SUSPENSE};
    SumBalSplit(regs, ledger, {FIRM_OPS}, {FIRM_SET}, bal);
    SumBalSplit(regs, ledger, {FIRM_OPS} + {FIRM_SET}, {FIRM_FEE}, bal);
    SumBalSplit(regs, ledger, {FIRM_OPS} + {FIRM_SET} + {FIRM_FEE}, {FIRM_LIQ}, bal);
    assert ClaimCodes(FirmBook) == {FIRM_OPS} + {FIRM_SET} + {FIRM_FEE} + {FIRM_LIQ};
  }

  /** Provisioning writes every registry row's code into the ledger, so signing by either code
      gives one verdict. */
  lemma ProvisionedVerdictsAgree(regs: seq<Registration>, tb: Tb)
    requires Provisioned(regs, tb)
    ensures AllIdentitiesHold(regs, ByLedgerCode(tb)) <==> AllIdentitiesHold(regs, ByRegistryCode(tb))
  {
    forall ledger, book
      ensures Gap(regs, ledger, book, ByLedgerCode(tb)) == Gap(regs, ledger, book, ByRegistryCode(tb))
    {
      SumBalSame(regs, ledger, {AssetCode(book)}, ByLedgerCode(tb), ByRegistryCode(tb));
      SumBalSame(regs, ledger, ClaimCodes(book), ByLedgerCode(tb), ByRegistryCode(tb));
    }
  }

  /** Without provisioning they can disagree: a payable whose ledger account carries the code of
      an asset balances by its registry code and not by its ledger code. */
  lemma VerdictsDifferOnMiscodedAccount()
    ensures
      var regs := [Registration(1, CLIENT_ASSET, 1), Registration(2, CLIENT_PAYABLE, 1)];
      var id := TransferId(Source(DepositKind, "D1"), DepositAssetToSuspense, 0);
      var tb := Tb(map[1 := Account(CLIENT_ASSET, 1), 2 := Account(FIRM_ASSET, 1)],
                   [Transfer(id, 1, 2, 10, 1, false, Posted)]);
      AllIdentitiesHold(regs, ByRegistryCode(tb)) && !AllIdentitiesHold(regs, ByLedgerCode(tb))
  {
    var regs := [Registration(1, CLIENT_ASSET, 1), Registration(2, CLIENT_PAYABLE, 1)];
    var id := TransferId(Source(DepositKind, "D1"), DepositAssetToSuspense, 0);
    var log := [Transfer(id, 1, 2, 10, 1, false, Posted)];
    var tb := Tb(map[1 := Account(CLIENT_ASSET, 1), 2 := Account(FIRM_ASSET, 1)], log);
    forall w: Transfer -> int ensures Sum(log, w) == w(log[0]) {
      SumOne(log[0], w);
    }
    forall ledger, codes, bal: Registration -> int
      ensures SumBal(regs, ledger, codes, bal)
           == (if regs[0].ledger == ledger && regs[0].code in codes then bal(regs[0]) else 0)
            + (if regs[1].ledger == ledger && regs[1].code in codes then bal(regs[1]) else 0)
    {
      assert regs[..1] == [regs[0]] && [regs[0]][..0] == [];
      assert SumBal([regs[0]], ledger, codes, bal)
          == if regs[0].ledger == ledger && regs[0].code in codes then bal(regs[0]) else 0;
    }
    forall r, book | r in regs ensures Gap(regs, r.ledger, book, ByRegistryCode(tb)) == 0 { }
    assert Gap(regs, regs[0].ledger, ClientBook, ByLedgerCode(tb)) == 20;
  }

  // ── verify-realtime-coa: fill a balance table, then filter and reduce per ledger ──

  method SumFiltered(regs: seq<Registration>, ledger: nat, codes: set<nat>, balById: map<nat, int>,
                     ghost bal: Registration -> int) returns (s: int)
    requires forall r :: r in regs ==> bal(r) == if r.id in balById then balById[r.id] else 0
    ensures s == SumBal(regs, ledger, codes, bal)
  {
    s := 0;
    for i := 0 to |regs|
      invariant s == SumBal(regs[..i], ledger, codes, bal)
    {
      assert regs[..i + 1][..i] == regs[..i];
      if regs[i].ledger == ledger && regs[i].code in codes {
        s := s + (if regs[i].id in balById then balById[regs[i].id] else 0);
      }
    }
    assert regs[..|regs|] == regs;
  }

  method LedgersOf(regs: seq<Registration>) returns (ledgers: seq<nat>)
    ensures forall l :: l in ledgers <==> exists r :: r in regs && r.ledger == l
    ensures forall i, j :: 0 <= i < j < |ledgers| ==> ledgers[i] != ledgers[j]
  {
    ledgers := [];
    for i := 0 to |regs|
      invariant forall l :: l in ledgers <==> exists k :: 0 <= k < i && regs[k].ledger == l
      invariant forall i, j :: 0 <= i < j < |ledgers| ==> ledgers[i] != ledgers[j]
    {
      if regs[i].ledger !in ledgers {
        ledgers := ledgers + [regs[i].ledger];
      }
    }
  }

  method VerifyRealtimeCoa(regs: seq<Registration>, tb: Tb) returns (failures: nat)
    ensures failures == 0 <==> AllIdentitiesHold(regs, ByLedgerCode(tb))
  {
    var balById: map<nat, int> := map[];
    for i := 0 to |regs|
      invariant forall id :: id in balById <==> id in tb.accounts && exists k :: 0 <= k < i && regs[k].id == id
      invariant forall id :: id in balById ==>
        balById[id] == Signed(IsAssetCode(tb.accounts[id].code), DebitsPosted(tb, id), CreditsPosted(tb, id))
    {
      var id := regs[i].id;
      if id in tb.accounts {
        balById := balById[id := Signed(IsAssetCode(tb.accounts[id].code), DebitsPosted(tb, id),
            CreditsPosted(tb, id))];
      }
    }
    ghost var bal := ByLedgerCode(tb);
    assert forall r :: r in regs ==> bal(r) == if r.id in balById then balById[r.id] else 0;
    var ledgers := LedgersOf(regs);
    failures := 0;
    for i := 0 to |ledgers|
      invariant failures == 0 <==> forall k, book :: 0 <= k < i ==> Gap(regs, ledgers[k], book, bal) == 0
    {
      var clientAsset := SumFiltered(regs, ledgers[i], {CLIENT_ASSET}, balById, bal);
      var clientLiab := SumFiltered(regs, ledgers[i], {CLIENT_PAYABLE, DEPOSIT_SUSPENSE}, balById, bal);
      var firmAsset := SumFiltered(regs, ledgers[i], {FIRM_ASSET}, balById, bal);
      var firmEquity := SumFiltered(regs, ledgers[i], {FIRM_OPS, FIRM_SET, FIRM_FEE, FIRM_LIQ}, balById, bal);
      assert Gap(regs, ledgers[i], ClientBook, bal) == clientAsset - clientLiab;
      assert Gap(regs, ledgers[i], FirmBook, bal) == firmAsset - firmEquity;
      if clientAsset != clientLiab {
        failures := failures + 1;
      }
      if firmAsset != firmEquity {
        failures := failures + 1;
      }
    }
    CoverLedgers(regs, ledgers, bal);
  }

  /** Checking each listed ledger once is checking every registration's ledger. */
  lemma CoverLedgers(regs: seq<Registration>, ledgers: seq<nat>, bal: Registration -> int)
    requires forall l :: l in ledgers <==> exists r :: r in regs && r.ledger == l
    ensures (forall k, book :: 0 <= k < |ledgers| ==> Gap(regs, ledgers[k], book, bal) == 0)
       <==> AllIdentitiesHold(regs, bal)
  {
    if forall k, book :: 0 <= k < |ledgers| ==> Gap(regs, ledgers[k], book, bal) == 0 {
      forall r, book | r in regs ensures Gap(regs, r.ledger, book, bal) == 0 {
        assert r.ledger in ledgers;
        var k :| 0 <= k < |ledgers| && ledgers[k] == r.ledger;
      }
    }
    if AllIdentitiesHold(regs, bal) {
      forall k, book | 0 <= k < |ledgers| ensures Gap(regs, ledgers[k], book, bal) == 0 {
        assert ledgers[k] in ledgers;
        var r :| r in regs && r.ledger == ledgers[k];
      }
    }
  }

  // ── demo-lib: nested map of balances, then one comparison per ledger ──

  function Cell(m: map<nat, map<nat, int>>, ledger: nat, code: nat): int {
    if ledger in m && code in m[ledger] then m[ledger][code] else 0
  }

  method BuildCoaBalanceMap(regs: seq<Registration>, tb: Tb) returns (out: Result<map<nat, map<nat, int>>>)
    ensures out.Ok? <==> forall r :: r in regs ==> r.id in tb.accounts
    ensures out.Ok? ==> forall l :: l in out.value <==> exists r :: r in regs && r.ledger == l
    ensures out.Ok? ==> forall l, c :: Cell(out.value, l, c) == SumBal(regs, l, {c}, ByRegistryCode(tb))
  {
    var byLedger: map<nat, map<nat, int>> := map[];
    ghost var bal := ByRegistryCode(tb);
    for i := 0 to |regs|
      invariant forall k :: 0 <= k < i ==> regs[k].id in tb.accounts
      invariant forall l :: l in byLedger <==> exists k :: 0 <= k < i && regs[k].ledger == l
      invariant forall l, c :: Cell(byLedger, l, c) == SumBal(regs[..i], l, {c}, bal)
    {
      var r := regs[i];
      if r.id !in tb.accounts {
        return Err(AccountNotFound);
      }
      assert regs[..i + 1][..i] == regs[..i];
      var b := Signed(IsAssetCode(r.code), DebitsPosted(tb, r.id), CreditsPosted(tb, r.id));
      var m: map<nat, int> := if r.ledger in byLedger then byLedger[r.ledger] else map[];
      m := m[r.code := (if r.code in m then m[r.code] else 0) + b];
      byLedger := byLedger[r.ledger := m];
    }
    assert regs[..|regs|] == regs;
    return Ok(byLedger);
  }

  /** The identity checks of the end-state verification; a missing account aborts them. */
  method VerifyEndStateCoa(regs: seq<Registration>, tb: Tb) returns (out: Result<bool>)
    ensures out.Ok? <==> forall r :: r in regs ==> r.id in tb.accounts
    ensures out.Ok? ==> (out.value <==> AllIdentitiesHold(regs, ByRegistryCode(tb)))
  {
    var built := BuildCoaBalanceMap(regs, tb);
    if built.Err? {
      return Err(built.error);
    }
    var m := built.value;
    ghost var bal := ByRegistryCode(tb);
    var ledgers := LedgersOf(regs);
    var good := true;
    for i := 0 to |ledgers|
      invariant good <==> forall k, book :: 0 <= k < i ==> Gap(regs, ledgers[k], book, bal) == 0
    {
      var l := ledgers[i];
      ClaimsByCode(regs, l, bal);
      var client := Cell(m, l, CLIENT_ASSET) == Cell(m, l, CLIENT_PAYABLE) + Cell(m, l, DEPOSIT_SUSPENSE);
      var firm := Cell(m, l, FIRM_ASSET)
                  == Cell(m, l, FIRM_OPS) + Cell(m, l, FIRM_SET) + Cell(m, l, FIRM_FEE) + Cell(m, l, FIRM_LIQ);
      assert client <==> Gap(regs, ledgers[i], ClientBook, bal) == 0;
      assert firm <==> Gap(regs, ledgers[i], FirmBook, bal) == 0;
      good := good && client && firm;
    }
    CoverLedgers(regs, ledgers, bal);
    return Ok(good);
  }

  // ── The reconciliation run's pre-gate: one pass, four running sums per ledger ──

  datatype LedgerSums = LedgerSums(clientAsset: int, clientLiab: int, firmAsset: int, firmEquity: int)

  function SumsAt(sums: map<nat, LedgerSums>, ledger: nat): LedgerSums {
    if ledger in sums then sums[ledger] else LedgerSums(0, 0, 0, 0)
  }

  ghost function SumsOf(regs: seq<Registration>, ledger: nat, bal: Registration -> int): LedgerSums {
    LedgerSums(SumBal(regs, ledger, {CLIENT_ASSET}, bal), SumBal(regs, ledger, ClaimCodes(ClientBook), bal),
               SumBal(regs, ledger, {FIRM_ASSET}, bal), SumBal(regs, ledger, ClaimCodes(FirmBook), bal))
  }

  function AddTo(s: LedgerSums, code: nat, bal: int): LedgerSums {
    if code == CLIENT_ASSET then s.(clientAsset := s.clientAsset + bal)
    else if code == CLIENT_PAYABLE || code == DEPOSIT_SUSPENSE then s.(clientLiab := s.clientLiab + bal)
    else if code == FIRM_ASSET then s.(firmAsset := s.firmAsset + bal)
    else if code == FIRM_OPS || code == FIRM_SET || code == FIRM_FEE || code == FIRM_LIQ then
      s.(firmEquity := s.firmEquity + bal)
    else s
  }

  lemma SumsStep(regs: seq<Registration>, i: nat, ledger: nat, bal: Registration -> int)
    requires i < |regs|
    ensures SumsOf(regs[..i + 1], ledger, bal)
         == if regs[i].ledger == ledger then AddTo(SumsOf(regs[..i], ledger, bal), regs[i].code, bal(regs[i]))
            else SumsOf(regs[..i], ledger, bal)
  {
    assert regs[..i + 1][..i] == regs[..i];
  }

  method ComputeInternalIdentity(regs: seq<Registration>, tb: Tb) returns (balanced: bool)
    ensures balanced <==> AllIdentitiesHold(regs, ByLedgerCode(tb))
  {
    ghost var bal := ByLedgerCode(tb);
    var sums: map<nat, LedgerSums> := map[];
    for i := 0 to |regs|
      invariant forall l :: l in sums <==> exists k :: 0 <= k < i && regs[k].ledger == l
      invariant forall l :: SumsAt(sums, l) == SumsOf(regs[..i], l, bal)
    {
      var r := regs[i];
      forall l ensures SumsOf(regs[..i + 1], l, bal)
                    == if r.ledger == l then AddTo(SumsOf(regs[..i], l, bal), r.code, bal(r))
                        else SumsOf(regs[..i], l, bal)
      {
        SumsStep(regs, i, l, bal);
      }
      var b := if r.id in tb.accounts
               then Signed(IsAssetCode(tb.accounts[r.id].code), DebitsPosted(tb, r.id), CreditsPosted(tb, r.id))
               else 0;
      assert b == bal(r);
      ghost var before := sums;
      sums := sums[r.ledger := AddTo(SumsAt(sums, r.ledger), r.code, b)];
      forall l ensures SumsAt(sums, l) == SumsOf(regs[..i + 1], l, bal) {
        assert SumsAt(before, l) == SumsOf(regs[..i], l, bal);
      }
    }
    assert regs[..|regs|] == regs;
    var ledgers := LedgersOf(regs);
    balanced := true;
    for i := 0 to |ledgers|
      invariant balanced <==> forall k, book :: 0 <= k < i ==> Gap(regs, ledgers[k], book, bal) == 0
    {
      var s := SumsAt(sums, ledgers[i]);
      assert Gap(regs, ledgers[i], ClientBook, bal) == s.clientAsset - s.clientLiab;
      assert Gap(regs, ledgers[i], FirmBook, bal) == s.firmAsset - s.firmEquity;
      if s.clientAsset != s.clientLiab || s.firmAsset != s.firmEquity {
        balanced := false;
      }
    }
    CoverLedgers(regs, ledgers, bal);
  }
}
