/** Registering and opening ledger accounts, and the firm's opening capital: what the account seed
    establishes for the chart-of-accounts identities, and why it may run again. */
module Provisioning {
  import opened Prelude
  import opened Ledger
  import opened ChartOfAccounts

  // ── The registry ──

  /** What makes a registration unique: code, ledger and owner. */
  datatype Key = Key(code: nat, ledger: nat, owner: nat)

  const SYSTEM_OWNER: nat := 0

  datatype RegRow = RegRow(key: Key, id: nat)

  /** Ids are derived from the key by a hash, taken as injective. */
  ghost predicate Injective(idOf: Key -> nat) { forall k, l :: idOf(k) == idOf(l) ==> k == l }

  predicate Derived(rows: seq<RegRow>, idOf: Key -> nat) {
    && (forall i :: 0 <= i < |rows| ==> rows[i].id == idOf(rows[i].key))
    && (forall i, j :: 0 <= i < j < |rows| ==> rows[i].key != rows[j].key)
  }

  function Registrations(rows: seq<RegRow>): (regs: seq<Registration>)
    ensures |regs| == |rows|
    ensures forall i :: 0 <= i < |rows| ==> regs[i] == Registration(rows[i].id, rows[i].key.code, rows[i].key.ledger)
  {
    if rows == [] then []
    else
      var r := rows[|rows| - 1];
      Registrations(rows[..|rows| - 1]) + [Registration(r.id, r.key.code, r.key.ledger)]
  }

  /** `ensureTbAccountRegistry`: find the row, or create it under its derived id. */
  method EnsureRegistered(rows: seq<RegRow>, key: Key, idOf: Key -> nat) returns (rows': seq<RegRow>, id: nat)
    requires Derived(rows, idOf) && Injective(idOf)
    ensures Derived(rows', idOf) && id == idOf(key)
    ensures RegRow(key, id) in rows'
    ensures rows' == if RegRow(key, id) in rows then rows else rows + [RegRow(key, id)]
  {
    for i := 0 to |rows|
      invariant forall j :: 0 <= j < i ==> rows[j].key != key
    {
      if rows[i].key == key {
        return rows, rows[i].id;
      }
    }
    rows', id := rows + [RegRow(key, idOf(key))], idOf(key);
  }

  // ── Opening the accounts ──

  /** Creating one account: an existing id is left as it is. */
  function Open(accounts: map<nat, Account>, r: Registration): map<nat, Account> {
    if r.id in accounts then accounts else accounts[r.id := Account(r.code, r.ledger)]
  }

  function OpenAll(accounts: map<nat, Account>, regs: seq<Registration>): map<nat, Account> {
    if regs == [] then accounts else Open(OpenAll(accounts, regs[..|regs| - 1]), regs[|regs| - 1])
  }

  /** `provisionTbAccounts`. */
  method ProvisionTbAccounts(accounts: map<nat, Account>, regs: seq<Registration>) returns (after: map<nat, Account>)
    ensures after == OpenAll(accounts, regs)
  {
    after := accounts;
    for i := 0 to |regs|
      invariant after == OpenAll(accounts, regs[..i])
    {
      assert regs[..i + 1][..i] == regs[..i];
      if regs[i].id !in after {
        after := after[regs[i].id := Account(regs[i].code, regs[i].ledger)];
      }
    }
    assert regs[..|regs|] == regs;
  }

  lemma {:induction false} OpenAllHas(accounts: map<nat, Account>, regs: seq<Registration>)
    ensures forall a :: a in accounts ==> a in OpenAll(accounts, regs) && OpenAll(accounts, regs)[a] == accounts[a]
    ensures forall a :: a in OpenAll(accounts, regs) ==> a in accounts || exists r :: r in regs && r.id == a
    ensures forall r :: r in regs ==> r.id in OpenAll(accounts, regs)
  {
    if regs != [] {
      var n := |regs| - 1;
      OpenAllHas(accounts, regs[..n]);
      assert regs == regs[..n] + [regs[n]] && regs[n] in regs;
    }
  }

  lemma {:induction false} OpenedAs(accounts: map<nat, Account>, regs: seq<Registration>, r: Registration)
    requires r in regs && r.id !in accounts && forall i, j :: 0 <= i < j < |regs| ==> regs[i].id != regs[j].id
    ensures r.id in OpenAll(accounts, regs) && OpenAll(accounts, regs)[r.id] == Account(r.code, r.ledger)
  {
    var n := |regs| - 1;
    OpenAllHas(accounts, regs[..n]);
    if regs[n] == r {
      forall s | s in regs[..n] ensures s.id != r.id { }
    } else {
      assert r in regs[..n];
      OpenedAs(accounts, regs[..n], r);
    }
  }

  /** An account opened earlier carries the code and ledger of its registration. */
  predicate AgreesWith(regs: seq<Registration>, id: nat, a: Account) {
    exists r :: r in regs && r.id == id && a == Account(r.code, r.ledger)
  }

  /** Provisioning establishes what the chart-of-accounts laws rest on, exactly when every account
      that was there before agrees with its registration. */
  lemma ProvisionsIffAccountsAgree(rows: seq<RegRow>, tb: Tb, idOf: Key -> nat)
    requires Derived(rows, idOf) && Injective(idOf)
    ensures
      var regs := Registrations(rows);
      Provisioned(regs, tb.(accounts := OpenAll(tb.accounts, regs)))
      <==> forall a :: a in tb.accounts ==> AgreesWith(regs, a, tb.accounts[a])
  {
    var regs := Registrations(rows);
    var after := tb.(accounts := OpenAll(tb.accounts, regs));
    forall i, j | 0 <= i < j < |regs| ensures regs[i].id != regs[j].id {
      assert rows[i].key != rows[j].key;
    }
    hide Registrations, Derived;
    OpenAllHas(tb.accounts, regs);
    if forall a :: a in tb.accounts ==> AgreesWith(regs, a, tb.accounts[a]) {
      AllOpened(tb, regs);
    } else if Provisioned(regs, after) {
      AllAgree(tb, regs);
    }
  }

  lemma AllOpened(tb: Tb, regs: seq<Registration>)
    requires forall i, j :: 0 <= i < j < |regs| ==> regs[i].id != regs[j].id
    requires forall a :: a in tb.accounts ==> AgreesWith(regs, a, tb.accounts[a])
    ensures Provisioned(regs, tb.(accounts := OpenAll(tb.accounts, regs)))
  {
    var after := OpenAll(tb.accounts, regs);
    OpenAllHas(tb.accounts, regs);
    hide OpenAll;
    forall r | r in regs ensures r.id in after && after[r.id] == Account(r.code, r.ledger) {
      if r.id in tb.accounts {
        assert AgreesWith(regs, r.id, tb.accounts[r.id]);
      } else {
        OpenedAs(tb.accounts, regs, r);
      }
    }
  }

  lemma AllAgree(tb: Tb, regs: seq<Registration>)
    requires Provisioned(regs, tb.(accounts := OpenAll(tb.accounts, regs)))
    ensures forall a :: a in tb.accounts ==> AgreesWith(regs, a, tb.accounts[a])
  {
    OpenAllHas(tb.accounts, regs);
    forall a | a in tb.accounts ensures AgreesWith(regs, a, tb.accounts[a]) {
      var r :| r in regs && r.id == a;
      assert OpenAll(tb.accounts, regs)[r.id] == Account(r.code, r.ledger);
    }
  }

  lemma {:induction false} OpenKnown(accounts: map<nat, Account>, regs: seq<Registration>)
    requires forall r :: r in regs ==> r.id in accounts
    ensures OpenAll(accounts, regs) == accounts
  {
    if regs != [] {
      var n := |regs| - 1;
      assert regs[n] in regs && forall r :: r in regs[..n] ==> r in regs;
      OpenKnown(accounts, regs[..n]);
    }
  }

  /** A second provisioning opens nothing. */
  lemma ProvisionTwiceIsOnce(accounts: map<nat, Account>, regs: seq<Registration>)
    ensures OpenAll(OpenAll(accounts, regs), regs) == OpenAll(accounts, regs)
  {
    OpenAllHas(accounts, regs);
    OpenKnown(OpenAll(accounts, regs), regs);
  }

  // ── Opening capital ──

  /** Capital per currency, in minor units. */
  datatype Capital = Capital(currency: string, ledger: nat, amount: nat)

  function SystemAccount(rows: seq<RegRow>, code: nat, ledger: nat): Option<nat> {
    if rows == [] then None
    else if rows[0].key == Key(code, ledger, SYSTEM_OWNER) then Some(rows[0].id)
    else SystemAccount(rows[1..], code, ledger)
  }

  function Injection(rows: seq<RegRow>, c: Capital): Option<Transfer> {
    var asset, ops := SystemAccount(rows, FIRM_ASSET, c.ledger), SystemAccount(rows, FIRM_OPS, c.ledger);
    if asset.None? || ops.None? then None
    else Some(Transfer(TransferId(Source(CapitalKind, c.currency), CapitalInjection, 0),
                       asset.value, ops.value, c.amount, c.ledger, false, Posted))
  }

  function InjectOne(rows: seq<RegRow>, tb: Tb, c: Capital): Tb {
    match Injection(rows, c)
    case None => tb
    case Some(t) => (match Create(tb, t) case Ok(tb') => tb' case Err(_) => tb)
  }

  function InjectAll(rows: seq<RegRow>, tb: Tb, cs: seq<Capital>): Tb {
    if cs == [] then tb else InjectOne(rows, InjectAll(rows, tb, cs[..|cs| - 1]), cs[|cs| - 1])
  }

  /** `seedCapitalInjection`: collect the transfers first, then send them in one batch. */
  method SeedCapitalInjection(rows: seq<RegRow>, tb: Tb, cs: seq<Capital>) returns (after: Tb)
    ensures after == InjectAll(rows, tb, cs)
  {
    var transfers: seq<Transfer> := [];
    for i := 0 to |cs|
      invariant SendAll(tb, transfers) == InjectAll(rows, tb, cs[..i])
    {
      assert cs[..i + 1][..i] == cs[..i];
      var t := Injection(rows, cs[i]);
      if t.Some? {
        assert (transfers + [t.value])[..|transfers|] == transfers;
        transfers := transfers + [t.value];
      }
    }
    assert cs[..|cs|] == cs;
    after := tb;
    for k := 0 to |transfers|
      invariant after == SendAll(tb, transfers[..k])
    {
      assert transfers[..k + 1][..k] == transfers[..k];
      match Create(after, transfers[k]) {
        case Ok(tb') => after := tb';
        case Err(_) =>
      }
    }
    assert transfers[..|transfers|] == transfers;
  }

  function SendAll(tb: Tb, ts: seq<Transfer>): Tb {
    if ts == [] then tb
    else
      var prior := SendAll(tb, ts[..|ts| - 1]);
      match Create(prior, ts[|ts| - 1]) case Ok(tb') => tb' case Err(_) => prior
  }

  lemma {:induction false} SystemAccountIs(rows: seq<RegRow>, code: nat, ledger: nat)
    requires SystemAccount(rows, code, ledger).Some?
    ensures RegRow(Key(code, ledger, SYSTEM_OWNER), SystemAccount(rows, code, ledger).value) in rows
  {
    if rows[0].key != Key(code, ledger, SYSTEM_OWNER) {
      SystemAccountIs(rows[1..], code, ledger);
    }
  }

  lemma RowIsAccount(rows: seq<RegRow>, tb: Tb, r: RegRow)
    requires Provisioned(Registrations(rows), tb) && r in rows
    ensures r.id in tb.accounts && tb.accounts[r.id] == Account(r.key.code, r.key.ledger)
  {
    var i :| 0 <= i < |rows| && rows[i] == r;
    assert Registrations(rows)[i] in Registrations(rows);
  }

  lemma InjectionStaysInBook(rows: seq<RegRow>, tb: Tb, c: Capital)
    requires Provisioned(Registrations(rows), tb) && Injection(rows, c).Some?
    ensures SameBook(tb, Injection(rows, c).value)
  {
    hide Provisioned, Registrations, SystemAccount;
    var asset, ops := SystemAccount(rows, FIRM_ASSET, c.ledger), SystemAccount(rows, FIRM_OPS, c.ledger);
    SystemAccountIs(rows, FIRM_ASSET, c.ledger);
    SystemAccountIs(rows, FIRM_OPS, c.ledger);
    RowIsAccount(rows, tb, RegRow(Key(FIRM_ASSET, c.ledger, SYSTEM_OWNER), asset.value));
    RowIsAccount(rows, tb, RegRow(Key(FIRM_OPS, c.ledger, SYSTEM_OWNER), ops.value));
  }

  lemma InjectOneInBook(rows: seq<RegRow>, tb: Tb, c: Capital)
    requires Provisioned(Registrations(rows), tb) && Disciplined(tb)
    ensures Disciplined(InjectOne(rows, tb, c)) && InjectOne(rows, tb, c).accounts == tb.accounts
  {
    hide Provisioned, Registrations, Injection;
    if Injection(rows, c).Some? {
      InjectionStaysInBook(rows, tb, c);
    }
  }

  lemma SameAccounts(regs: seq<Registration>, tb: Tb, after: Tb)
    requires Provisioned(regs, tb) && after.accounts == tb.accounts
    ensures Provisioned(regs, after)
  {
  }

  lemma {:induction false} InjectAllInBook(rows: seq<RegRow>, tb: Tb, cs: seq<Capital>)
    requires Provisioned(Registrations(rows), tb) && Disciplined(tb)
    ensures Disciplined(InjectAll(rows, tb, cs)) && InjectAll(rows, tb, cs).accounts == tb.accounts
  {
    hide Provisioned, Registrations, InjectOne, Disciplined;
    if cs != [] {
      var n := |cs| - 1;
      InjectAllInBook(rows, tb, cs[..n]);
      SameAccounts(Registrations(rows), tb, InjectAll(rows, tb, cs[..n]));
      InjectOneInBook(rows, InjectAll(rows, tb, cs[..n]), cs[n]);
    }
  }

  /** Injecting capital keeps every identity. */
  lemma InjectionKeepsIdentities(rows: seq<RegRow>, tb: Tb, cs: seq<Capital>)
    requires Provisioned(Registrations(rows), tb) && Disciplined(tb)
    ensures AllIdentitiesHold(Registrations(rows), ByRegistryCode(InjectAll(rows, tb, cs)))
  {
    InjectAllInBook(rows, tb, cs);
    DisciplinedIsBalanced(Registrations(rows), InjectAll(rows, tb, cs));
  }

  /** Sending the capital again is answered "exists", or refused as before. */
  predicate Answered(tb: Tb, t: Transfer) { Create(tb, t).Err? || Create(tb, t).value == tb }

  lemma AnsweredLater(tb: Tb, t: Transfer, u: Transfer)
    requires Answered(tb, t) && Create(tb, u).Ok?
    ensures Answered(Create(tb, u).value, t)
  {
    IndexOfConcat(tb.log, [u], t.id);
    if Has(tb.log, t.id) {
      assert (tb.log + [u])[IndexOf(tb.log, t.id)] == tb.log[IndexOf(tb.log, t.id)];
    } else {
      assert |tb.log + [t]| != |tb.log|;
    }
  }

  lemma AnsweredAtOnce(tb: Tb, t: Transfer)
    ensures Create(tb, t).Ok? ==> Answered(Create(tb, t).value, t)
  {
    if Create(tb, t).Ok? && !Has(tb.log, t.id) {
      IndexOfConcat(tb.log, [t], t.id);
      assert IndexOf([t], t.id) == 0;
    }
  }

  lemma {:induction false} AllAnswered(rows: seq<RegRow>, tb: Tb, cs: seq<Capital>, c: Capital)
    requires c in cs && Injection(rows, c).Some?
    ensures Answered(InjectAll(rows, tb, cs), Injection(rows, c).value)
  {
    var n := |cs| - 1;
    var prior, t := InjectAll(rows, tb, cs[..n]), Injection(rows, c).value;
    if c in cs[..n] {
      AllAnswered(rows, tb, cs[..n], c);
      if Injection(rows, cs[n]).Some? && Create(prior, Injection(rows, cs[n]).value).Ok? {
        AnsweredLater(prior, t, Injection(rows, cs[n]).value);
      }
    } else {
      AnsweredAtOnce(prior, t);
    }
  }

  lemma {:induction false} NothingToInject(rows: seq<RegRow>, tb: Tb, cs: seq<Capital>)
    requires forall c :: c in cs && Injection(rows, c).Some? ==> Answered(tb, Injection(rows, c).value)
    ensures InjectAll(rows, tb, cs) == tb
  {
    if cs != [] {
      var n := |cs| - 1;
      assert cs[n] in cs && forall c :: c in cs[..n] ==> c in cs;
      NothingToInject(rows, tb, cs[..n]);
    }
  }

  /** Seeding the capital twice is seeding it once, even when two assets share a currency. */
  lemma InjectTwiceIsOnce(rows: seq<RegRow>, tb: Tb, cs: seq<Capital>)
    ensures InjectAll(rows, InjectAll(rows, tb, cs), cs) == InjectAll(rows, tb, cs)
  {
    forall c | c in cs && Injection(rows, c).Some? ensures Answered(InjectAll(rows, tb, cs), Injection(rows, c).value) {
      AllAnswered(rows, tb, cs, c);
    }
    NothingToInject(rows, InjectAll(rows, tb, cs), cs);
  }
}
