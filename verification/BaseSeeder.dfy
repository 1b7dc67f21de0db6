/** The seeding script as it runs: table by table, row by row, with the completeness check in front. */
module BaseSeeder {
  import opened BaseSeed

  function RolesUpTo(c: Catalog, n: nat): map<Code, Role>
    requires n <= |c.roles|
  {
    if n == 0 then map[] else RolesUpTo(c, n - 1)[c.roles[n - 1] := Role(c.RoleInfo(c.roles[n - 1]), true)]
  }

  lemma {:induction false} AllRoles(c: Catalog, n: nat)
    requires n <= |c.roles|
    ensures RolesUpTo(c, n) == map r | r in c.roles[..n] :: Role(c.RoleInfo(r), true)
  {
    if n > 0 {
      AllRoles(c, n - 1);
      assert c.roles[..n] == c.roles[..n - 1] + [c.roles[n - 1]];
    }
  }

  function PermissionsUpTo(c: Catalog, n: nat): map<Code, nat>
    requires n <= |c.permissions|
  {
    if n == 0 then map[] else PermissionsUpTo(c, n - 1)[c.permissions[n - 1] := c.PermissionInfo(c.permissions[n - 1])]
  }

  lemma {:induction false} AllPermissions(c: Catalog, n: nat)
    requires n <= |c.permissions|
    ensures PermissionsUpTo(c, n) == map p | p in c.permissions[..n] :: c.PermissionInfo(p)
  {
    if n > 0 {
      AllPermissions(c, n - 1);
      assert c.permissions[..n] == c.permissions[..n - 1] + [c.permissions[n - 1]];
    }
  }

  function PoliciesUpTo(c: Catalog, n: nat): map<ActionType, Policy>
    requires n <= |c.actions|
  {
    if n == 0 then map[] else PoliciesUpTo(c, n - 1)[c.actions[n - 1] := c.PolicyOf(c.actions[n - 1])]
  }

  lemma {:induction false} AllPolicies(c: Catalog, n: nat)
    requires n <= |c.actions|
    ensures PoliciesUpTo(c, n) == map a | a in c.actions[..n] :: c.PolicyOf(a)
  {
    if n > 0 {
      AllPolicies(c, n - 1);
      assert c.actions[..n] == c.actions[..n - 1] + [c.actions[n - 1]];
    }
  }

  lemma MergeSnoc<K, V>(a: map<K, V>, b: map<K, V>, k: K, v: V)
    ensures (a + b)[k := v] == a + b[k := v]
  {
  }

  lemma {:induction false} SeedUsersHold(c: Catalog)
    requires ValidCatalog(c)
    ensures c.accounts[0].userNo in SeedUsers(c.accounts)
  {
    SeedUsersAt(c.accounts, 0);
  }

  class Database {
    var roles: map<Code, Role>
    var permissions: map<Code, nat>
    var pairs: set<(Code, Code)>
    var users: map<UserNo, User>
    var bindings: set<(UserNo, Code)>
    var policies: map<ActionType, Policy>
    var rules: map<RuleCode, Rule>

    function State(): Db
      reads this
    {
      Db(roles, permissions, pairs, users, bindings, policies, rules)
    }

    constructor (db: Db)
      ensures State() == db
    {
      roles, permissions, pairs, users, bindings, policies, rules :=
        db.roles, db.permissions, db.pairs, db.users, db.bindings, db.policies, db.rules;
    }

    /** `seedAdmin`: an existing administrator keeps the address it has. */
    method SeedAdmin(a: Account)
      modifies this`users
      ensures users == old(users)[a.userNo := User(
                if a.userNo in old(users) then old(users)[a.userNo].email else a.email, a.role, true, true)]
    {
      if a.userNo in users {
        users := users[a.userNo := users[a.userNo].(role := a.role, active := true, loginDone := true)];
      } else {
        users := users[a.userNo := User(a.email, a.role, true, true)];
      }
    }

    /** Deleting a role takes its grants and its bindings with it. */
    method DeleteObsoleteRoles(c: Catalog)
      modifies this`roles, this`pairs, this`bindings
      ensures roles == map r | r in old(roles) && r in c.roles :: old(roles)[r]
      ensures pairs == set p | p in old(pairs) && p.0 in c.roles
      ensures bindings == set b | b in old(bindings) && b.1 in c.roles
    {
      roles := map r | r in roles && r in c.roles :: roles[r];
      pairs := set p | p in pairs && p.0 in c.roles;
      bindings := set b | b in bindings && b.1 in c.roles;
    }

    method UpsertRoles(c: Catalog)
      requires forall r :: r in roles ==> r in c.roles
      modifies this`roles
      ensures roles == CatalogRoles(c)
    {
      ghost var before := roles;
      for i := 0 to |c.roles|
        invariant roles == before + RolesUpTo(c, i)
      {
        MergeSnoc(before, RolesUpTo(c, i), c.roles[i], Role(c.RoleInfo(c.roles[i]), true));
        roles := roles[c.roles[i] := Role(c.RoleInfo(c.roles[i]), true)];
      }
      AllRoles(c, |c.roles|);
      assert c.roles[..|c.roles|] == c.roles;
      assert before + RolesUpTo(c, |c.roles|) == CatalogRoles(c);
    }

    method UpsertPermissions(c: Catalog)
      modifies this`permissions
      ensures permissions == old(permissions) + CatalogPermissions(c)
    {
      ghost var before := permissions;
      for i := 0 to |c.permissions|
        invariant permissions == before + PermissionsUpTo(c, i)
      {
        MergeSnoc(before, PermissionsUpTo(c, i), c.permissions[i], c.PermissionInfo(c.permissions[i]));
        permissions := permissions[c.permissions[i] := c.PermissionInfo(c.permissions[i])];
      }
      AllPermissions(c, |c.permissions|);
      assert c.permissions[..|c.permissions|] == c.permissions;
      assert PermissionsUpTo(c, |c.permissions|) == CatalogPermissions(c);
    }

    /** The pairs the catalog asks for, as far as their role and permission were found. */
    method DesiredPairs(c: Catalog) returns (desired: seq<(Code, Code)>)
      requires ValidCatalog(c) && (forall r :: r in c.roles ==> r in roles)
      requires forall p :: p in c.permissions ==> p in permissions
      ensures ToSet(desired) == Desired(c)
    {
      desired := [];
      for i := 0 to |c.roles|
        invariant ToSet(desired) == set r, p | r in c.roles[..i] && p in c.Grants(r) :: (r, p)
      {
        var r := c.roles[i];
        ghost var before := desired;
        var granted := c.Grants(r);
        if r in roles {
          for k := 0 to |granted|
            invariant ToSet(desired) == ToSet(before) + set p | p in granted[..k] :: (r, p)
          {
            assert granted[..k + 1] == granted[..k] + [granted[k]];
            assert granted[k] in granted && r in c.roles;
            if granted[k] in permissions {
              Snoc(desired, (r, granted[k]));
              desired := desired + [(r, granted[k])];
            }
          }
        }
        assert granted[..|granted|] == granted;
        assert c.roles[..i + 1] == c.roles[..i] + [r];
      }
      assert c.roles[..|c.roles|] == c.roles;
    }

    /** Grants: add the missing ones, then remove the stale ones of the defined roles. */
    method SyncPairs(c: Catalog)
      requires ValidCatalog(c) && (forall r :: r in c.roles ==> r in roles)
      requires (forall p :: p in pairs ==> p.0 in c.roles) && forall p :: p in c.permissions ==> p in permissions
      modifies this`pairs
      ensures pairs == Desired(c)
    {
      var desired := DesiredPairs(c);
      for i := 0 to |desired|
        invariant pairs == old(pairs) + ToSet(desired[..i])
      {
        assert desired[..i + 1] == desired[..i] + [desired[i]];
        Snoc(desired[..i], desired[i]);
        pairs := pairs + {desired[i]};
      }
      assert desired[..|desired|] == desired;
      var stale := set p | p in pairs && p.0 in c.roles && p !in desired;
      pairs := pairs - stale;
      assert forall p :: p in desired <==> p in ToSet(desired);
    }

    /** One seed administrator: the row, the one binding, and no other binding. */
    method SeedRoleAdmin(a: Account)
      modifies this`users, this`bindings
      ensures users == old(users)[a.userNo := SeedUser(a)]
      ensures bindings == (set b | b in old(bindings) && b.0 != a.userNo) + {(a.userNo, a.role)}
    {
      if a.userNo in users {
        users := users[a.userNo := users[a.userNo].(email := a.email, role := a.role, active := true,
            loginDone := true)];
      } else {
        users := users[a.userNo := User(a.email, a.role, true, true)];
      }
      var bound := bindings + {(a.userNo, a.role)};
      bindings := set b | b in bound && (b.0 != a.userNo || b.1 == a.role);
    }

    /** `seedRoleAdminAccounts` throws when a role is missing. */
    method SeedRoleAdminAccounts(c: Catalog) returns (ok: bool)
      requires ValidCatalog(c) && forall r :: r in c.roles ==> r in roles
      modifies this`users, this`bindings
      ensures ok && users == old(users) + SeedUsers(c.accounts)
      ensures bindings == (set b | b in old(bindings) && b.0 !in SeedNos(c)) + SeedBindings(c)
    {
      for i := 0 to |c.accounts|
        invariant users == old(users) + SeedUsers(c.accounts[..i])
        invariant bindings == BindingsUpTo(c, old(bindings), i)
      {
        var a := c.accounts[i];
        assert a in c.accounts && c.accounts[..i + 1][..i] == c.accounts[..i];
        if a.role !in roles {
          return false;
        }
        MergeSnoc(old(users), SeedUsers(c.accounts[..i]), a.userNo, SeedUser(a));
        SeedRoleAdmin(a);
        NextBindings(c, old(bindings), i);
      }
      assert c.accounts[..|c.accounts|] == c.accounts;
      ok := true;
    }

    method SeedRbac(c: Catalog) returns (ok: bool)
      requires ValidCatalog(c) && Integral(State())
      modifies this
      ensures ok && State() == SeedBase(c, old(State())).(policies := old(policies), rules := old(rules))
      ensures RolesWritten(c, old(State()), State()) && UsersWritten(c, old(State()), State())
    {
      hide RolesWritten, UsersWritten, Desired, SeedUsers, SeedBindings;
      ghost var before, start := bindings, State();
      DeleteObsoleteRoles(c);
      UpsertRoles(c);
      UpsertPermissions(c);
      SyncPairs(c);
      ok := SeedRoleAdminAccounts(c);
      KeptBindings(c, before, bindings);
      SeedWritesRoles(c, start, State());
      SeedWritesUsers(c, start, State());
    }

    method SeedGovernanceApprovalBaseline(c: Catalog)
      modifies this`policies, this`rules
      ensures policies == old(policies) + CatalogPolicies(c)
      ensures rules == old(rules)[c.makerChecker := Rule(true, c.makerCheckerText)]
      ensures PoliciesWritten(c, old(State()), State())
    {
      hide PoliciesWritten;
      ghost var start := State();
      ghost var before := policies;
      for i := 0 to |c.actions|
        invariant policies == before + PoliciesUpTo(c, i) && rules == old(rules)
      {
        MergeSnoc(before, PoliciesUpTo(c, i), c.actions[i], c.PolicyOf(c.actions[i]));
        policies := policies[c.actions[i] := c.PolicyOf(c.actions[i])];
      }
      AllPolicies(c, |c.actions|);
      assert c.actions[..|c.actions|] == c.actions;
      assert PoliciesUpTo(c, |c.actions|) == CatalogPolicies(c);
      if c.makerChecker in rules {
        rules := rules[c.makerChecker := rules[c.makerChecker].(enabled := true, description := c.makerCheckerText)];
      } else {
        rules := rules[c.makerChecker := Rule(true, c.makerCheckerText)];
      }
      SeedWritesPolicies(c, start, State());
    }

    /** The users carrying a seed address, in whatever order the database returns them. */
    method FindCarriers(c: Catalog) returns (found: seq<UserNo>)
      ensures Distinct(found) && ToSet(found) == Carriers(c, users)
    {
      var emails := set a | a in c.accounts :: a.email;
      var left := set u | u in users && users[u].email in emails;
      found := [];
      assert left == Carriers(c, users);
      while left != {}
        invariant Distinct(found) && ToSet(found) !! left && ToSet(found) + left == Carriers(c, users)
      {
        var u :| u in left;
        assert u !in ToSet(found);
        assert ToSet(found + [u]) == ToSet(found) + {u};
        found := found + [u];
        left := left - {u};
      }
    }

    /** The look-up table by address; of several users with one address the last one stays. */
    method MapByEmail(found: seq<UserNo>) returns (byEmail: map<Email, UserNo>)
      requires forall u :: u in found ==> u in users
      ensures forall e :: e in byEmail ==> byEmail[e] in found && users[byEmail[e]].email == e
      ensures forall u :: u in found ==> users[u].email in byEmail
    {
      byEmail := map[];
      for i := 0 to |found|
        invariant forall e :: e in byEmail ==> byEmail[e] in found && users[byEmail[e]].email == e
        invariant forall k :: 0 <= k < i ==> users[found[k]].email in byEmail
      {
        byEmail := byEmail[users[found[i]].email := found[i]];
      }
    }

    /** `areRoleSeedAccountsComplete`: count the carriers of seed addresses, then check each seed
        administrator's row and bindings. */
    method AreRoleSeedAccountsComplete(c: Catalog) returns (ok: bool)
      requires ValidCatalog(c)
      ensures ok <==> (forall a :: a in c.accounts ==> AccountComplete(State(), a)) && !Impostor(c, State())
    {
      ghost var db := State();
      var found := FindCarriers(c);
      CountDistinct(found);
      if |found| != |c.accounts| {
        if forall a :: a in c.accounts ==> AccountComplete(db, a) {
          CarriersAreSeeds(c, db);
        }
        return false;
      }
      assert forall u :: u in found <==> u in Carriers(c, users) by {
        assert forall u :: u in found <==> u in ToSet(found);
      }
      var byEmail := MapByEmail(found);
      for i := 0 to |c.accounts|
        invariant forall k :: 0 <= k < i ==> AccountComplete(db, c.accounts[k])
      {
        var a := c.accounts[i];
        assert a in c.accounts;
        if a.email !in byEmail {
          Uncarried(c, db, a, found, byEmail);
          return false;
        }
        var u := byEmail[a.email];
        assert u in found && users[u].email == a.email;
        hide AccountComplete, Impostor, ValidCatalog, ToSet, Carriers;
        if u != a.userNo {
          WrongCarrier(c, db, a, u);
          return false;
        }
        var bound := set b | b in bindings && b.0 == u;
        CheckAccount(db, a, bound);
        if !users[u].active || users[u].role != a.role {
          return false;
        }
        if bound != {(a.userNo, a.role)} {
          return false;
        }
      }
      CarriersAreSeeds(c, db);
      return true;
    }

    method IsBaseComplete(c: Catalog) returns (ok: bool)
      requires ValidCatalog(c)
      ensures ok <==> Complete(c, State())
    {
      ghost var db := State();
      var admin := c.accounts[0];
      if !exists u :: u in users && users[u].email == admin.email {
        assert admin in c.accounts;
        assert !AccountComplete(db, admin);
        return false;
      }
      var active := set r | r in roles && roles[r].active && r in c.roles;
      ActiveCount(c, db, active);
      if |active| != |c.roles| {
        return false;
      }
      ok := AreRoleSeedAccountsComplete(c);
      if !ok {
        return;
      }
      for i := 0 to |c.actions|
        invariant forall k :: 0 <= k < i ==>
            c.actions[k] in policies && policies[c.actions[k]] == c.PolicyOf(c.actions[k])
      {
        if c.actions[i] !in policies || policies[c.actions[i]] != c.PolicyOf(c.actions[i]) {
          assert c.actions[i] in c.actions;
          return false;
        }
      }
      return true;
    }

    method Ensure(c: Catalog) returns (ok: bool)
      requires ValidCatalog(c) && Integral(State())
      modifies this
      ensures ok && State() == EnsureBaseSeeded(c, old(State()))
    {
      var complete := IsBaseComplete(c);
      if complete {
        return true;
      }
      ok := RunSeedBase(c);
    }

    /** `seedBase`. */
    method RunSeedBase(c: Catalog) returns (ok: bool)
      requires ValidCatalog(c) && Integral(State())
      modifies this
      ensures ok && State() == SeedBase(c, old(State()))
      ensures RolesWritten(c, old(State()), State()) && UsersWritten(c, old(State()), State())
      ensures PoliciesWritten(c, old(State()), State())
    {
      hide RolesWritten, UsersWritten, PoliciesWritten, SeedBase;
      ghost var before := State();
      SeedAdmin(c.accounts[0]);
      AdminIsOverwritten(c, before.users, users);
      ghost var start := State();
      ok := SeedRbac(c);
      SeedGovernanceApprovalBaseline(c);
      Seeded(c, before, start, State());
      SeedWritesRows(c, before);
    }
  }

  /** The administrator's row is overwritten on the way, and the governance tables come last. */
  lemma Seeded(c: Catalog, before: Db, start: Db, after: Db)
    requires ValidCatalog(c) && start == before.(users := start.users)
    requires start.users + SeedUsers(c.accounts) == before.users + SeedUsers(c.accounts)
    requires after == SeedBase(c, start).(policies := start.policies + CatalogPolicies(c),
                                          rules := start.rules[c.makerChecker := Rule(true, c.makerCheckerText)])
    ensures after == SeedBase(c, before)
  {
    hide SeedUsers, CatalogRoles, CatalogPermissions, CatalogPolicies, Desired, SeedBindings, ValidCatalog;
  }

  // ── The completeness check ──

  function ToSet<T(==)>(s: seq<T>): set<T> { set x | x in s }

  lemma Snoc<T>(s: seq<T>, x: T)
    ensures ToSet(s + [x]) == ToSet(s) + {x}
  {
  }

  lemma {:induction false} CountDistinct<T>(s: seq<T>)
    requires Distinct(s)
    ensures |ToSet(s)| == |s|
  {
    if s != [] {
      var n := |s| - 1;
      CountDistinct(s[..n]);
      assert ToSet(s) == ToSet(s[..n]) + {s[n]};
      assert s[n] !in ToSet(s[..n]);
    }
  }

  lemma SubsetCount<T>(a: set<T>, b: set<T>)
    requires a <= b && |a| == |b|
    ensures a == b
  {
    assert |b - a| == |b| - |a|;
  }

  lemma KeptBindings(c: Catalog, before: set<(UserNo, Code)>, after: set<(UserNo, Code)>)
    requires after == (set b | b in (set b | b in before && b.1 in c.roles) && b.0 !in SeedNos(c)) + SeedBindings(c)
    ensures after == (set b | b in before && b.1 in c.roles && b.0 !in SeedNos(c)) + SeedBindings(c)
  {
  }

  lemma AdminIsOverwritten(c: Catalog, before: map<UserNo, User>, after: map<UserNo, User>)
    requires ValidCatalog(c)
    requires forall u :: u != c.accounts[0].userNo ==>
        (u in after <==> u in before) && (u in before ==> after[u] == before[u])
    ensures after + SeedUsers(c.accounts) == before + SeedUsers(c.accounts)
  {
    SeedUsersHold(c);
  }

  function BindingsUpTo(c: Catalog, bindings: set<(UserNo, Code)>, n: nat): set<(UserNo, Code)>
    requires n <= |c.accounts|
  {
    (set b | b in bindings && b.0 !in (set a | a in c.accounts[..n] :: a.userNo))
    + (set a | a in c.accounts[..n] :: (a.userNo, a.role))
  }

  lemma NextBindings(c: Catalog, bindings: set<(UserNo, Code)>, n: nat)
    requires ValidCatalog(c) && n < |c.accounts|
    ensures
      var a, prior := c.accounts[n], BindingsUpTo(c, bindings, n);
      BindingsUpTo(c, bindings, n + 1) == (set b | b in prior && b.0 != a.userNo) + {(a.userNo, a.role)}
  {
    assert c.accounts[..n + 1] == c.accounts[..n] + [c.accounts[n]];
    forall a | a in c.accounts[..n] ensures a.userNo != c.accounts[n].userNo { }
  }

  function Nos(accounts: seq<Account>): seq<UserNo> {
    if accounts == [] then [] else Nos(accounts[..|accounts| - 1]) + [accounts[|accounts| - 1].userNo]
  }

  lemma {:induction false} NosAreSeedNos(accounts: seq<Account>)
    ensures |Nos(accounts)| == |accounts| && forall i :: 0 <= i < |accounts| ==> Nos(accounts)[i] == accounts[i].userNo
  {
    if accounts != [] {
      NosAreSeedNos(accounts[..|accounts| - 1]);
    }
  }

  lemma SeedNosCount(c: Catalog)
    requires ValidCatalog(c)
    ensures |SeedNos(c)| == |c.accounts|
  {
    var nos := Nos(c.accounts);
    NosAreSeedNos(c.accounts);
    CountDistinct(nos);
    forall u ensures u in nos <==> u in SeedNos(c) {
      if u in SeedNos(c) {
        var i :| 0 <= i < |c.accounts| && c.accounts[i].userNo == u;
        assert nos[i] == u;
      }
      if u in nos {
        var i :| 0 <= i < |nos| && nos[i] == u;
        assert c.accounts[i] in c.accounts;
      }
    }
    assert ToSet(nos) == SeedNos(c);
  }

  /** No user carries an address that is not in the look-up table. */
  lemma Uncarried(c: Catalog, db: Db, a: Account, found: seq<UserNo>, byEmail: map<Email, UserNo>)
    requires a in c.accounts && a.email !in byEmail
    requires forall u :: u in Carriers(c, db.users) ==> u in found
    requires forall u :: u in found ==> u in db.users && db.users[u].email in byEmail
    ensures !AccountComplete(db, a)
  {
    assert a.email in Emails(c);
  }

  lemma CheckAccount(db: Db, a: Account, bound: set<(UserNo, Code)>)
    requires a.userNo in db.users && db.users[a.userNo].email == a.email
    requires bound == set b | b in db.bindings && b.0 == a.userNo
    ensures AccountComplete(db, a)
       <==> db.users[a.userNo].active && db.users[a.userNo].role == a.role && bound == {(a.userNo, a.role)}
  {
    OneBinding(db, a, bound);
  }

  lemma WrongCarrier(c: Catalog, db: Db, a: Account, u: UserNo)
    requires ValidCatalog(c) && a in c.accounts && u in db.users && db.users[u].email == a.email && u != a.userNo
    ensures !((forall a :: a in c.accounts ==> AccountComplete(db, a)) && !Impostor(c, db))
  {
    if u in SeedNos(c) {
      var b :| b in c.accounts && b.userNo == u;
      if AccountComplete(db, b) {
        SameAccount(c, a, b);
      }
    } else {
      assert a.email in Emails(c);
    }
  }

  lemma OneBinding(db: Db, a: Account, bound: set<(UserNo, Code)>)
    requires bound == set b | b in db.bindings && b.0 == a.userNo
    ensures bound == {(a.userNo, a.role)} <==> forall r :: (a.userNo, r) in db.bindings <==> r == a.role
  {
    if forall r :: (a.userNo, r) in db.bindings <==> r == a.role {
      forall b | b in bound ensures b == (a.userNo, a.role) {
        assert (a.userNo, b.1) in db.bindings;
      }
      assert (a.userNo, a.role) in db.bindings;
    } else if bound == {(a.userNo, a.role)} {
      forall r ensures (a.userNo, r) in db.bindings <==> r == a.role {
        assert (a.userNo, r) in bound <==> (a.userNo, r) in db.bindings;
      }
    }
  }

  lemma ActiveCount(c: Catalog, db: Db, active: set<Code>)
    requires ValidCatalog(c) && active == set r | r in db.roles && db.roles[r].active && r in c.roles
    ensures |active| == |c.roles| <==> forall r :: r in c.roles ==> r in db.roles && db.roles[r].active
  {
    CountDistinct(c.roles);
    var all := ToSet(c.roles);
    assert active <= all;
    if |active| == |c.roles| {
      SubsetCount(active, all);
      assert forall r :: r in c.roles ==> r in all;
    } else {
      assert active != all;
      var r :| r in all && r !in active;
    }
  }

  /** Users the check selects: those carrying a seed address. */
  function Carriers(c: Catalog, users: map<UserNo, User>): set<UserNo> {
    set u | u in users && users[u].email in Emails(c)
  }

  lemma CarriersAreSeeds(c: Catalog, db: Db)
    requires ValidCatalog(c) && forall a :: a in c.accounts ==> AccountComplete(db, a)
    ensures SeedNos(c) <= Carriers(c, db.users)
    ensures Impostor(c, db) <==> |Carriers(c, db.users)| != |c.accounts|
  {
    SeedNosCount(c);
    var carriers := Carriers(c, db.users);
    assert SeedNos(c) <= carriers by {
      forall u | u in SeedNos(c) ensures u in carriers {
        var a :| a in c.accounts && a.userNo == u;
        assert AccountComplete(db, a) && a.email in Emails(c);
      }
    }
    if |carriers| == |c.accounts| {
      SubsetCount(SeedNos(c), carriers);
    } else {
      assert carriers != SeedNos(c);
      var u :| u in carriers && u !in SeedNos(c);
    }
  }
}
