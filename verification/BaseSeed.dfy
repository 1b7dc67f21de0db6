/** The base configuration: roles, permissions, grants, seed administrators and approval policies.
    What seeding makes of any earlier database, when the completeness check accepts the result, and
    what the check overlooks. */
module BaseSeed {

  // Codes, user numbers, e-mail addresses and action types are only compared, so they are numbered.
  type Code = nat
  type UserNo = nat
  type Email = nat
  type ActionType = nat
  type RuleCode = nat

  datatype Role = Role(info: nat, active: bool)
  datatype User = User(email: Email, role: Code, active: bool, loginDone: bool)
  datatype Policy = Policy(highRisk: bool, checkers: nat, timeoutHours: nat, allowCancel: bool, allowRetry: bool)

  /** A segregation-of-duty rule. */
  datatype Rule = Rule(enabled: bool, description: nat)

  datatype Account = Account(role: Code, email: Email, userNo: UserNo)

  /** The code's own catalog. */
  datatype Catalog = Catalog(
    roles: seq<Code>, roleTexts: map<Code, nat>, permissions: seq<Code>, permissionTexts: map<Code, nat>,
    granted: map<Code, seq<Code>>, accounts: seq<Account>,
    actions: seq<ActionType>, defaults: map<ActionType, Policy>, makerChecker: RuleCode, makerCheckerText: nat)
  {
    function RoleInfo(r: Code): nat { if r in roleTexts then roleTexts[r] else 0 }
    function PermissionInfo(p: Code): nat { if p in permissionTexts then permissionTexts[p] else 0 }
    function Grants(r: Code): seq<Code> { if r in granted then granted[r] else [] }
    function PolicyOf(a: ActionType): Policy {
      if a in defaults then defaults[a] else Policy(true, 0, 0, false, true)
    }
  }

  predicate Distinct<T(==)>(s: seq<T>) { forall i, j :: 0 <= i < j < |s| ==> s[i] != s[j] }

  ghost predicate ValidCatalog(c: Catalog) {
    && Distinct(c.roles)
    && (forall r, p :: r in c.roles && p in c.Grants(r) ==> p in c.permissions)
    && c.accounts != []
    && (forall a :: a in c.accounts ==> a.role in c.roles)
    && (forall i, j :: 0 <= i < j < |c.accounts| ==>
          c.accounts[i].userNo != c.accounts[j].userNo && c.accounts[i].email != c.accounts[j].email)
    && (forall a :: a in c.actions ==> c.PolicyOf(a).highRisk && c.PolicyOf(a).allowRetry)
  }

  /** The tables, by their unique keys. */
  datatype Db = Db(
    roles: map<Code, Role>, permissions: map<Code, nat>, pairs: set<(Code, Code)>,
    users: map<UserNo, User>, bindings: set<(UserNo, Code)>, policies: map<ActionType, Policy>,
    rules: map<RuleCode, Rule>)

  /** Foreign keys. */
  ghost predicate Integral(db: Db) {
    && (forall p :: p in db.pairs ==> p.0 in db.roles && p.1 in db.permissions)
    && (forall b :: b in db.bindings ==> b.0 in db.users && b.1 in db.roles)
  }

  // ── What seeding means ──

  function CatalogRoles(c: Catalog): map<Code, Role> { map r | r in c.roles :: Role(c.RoleInfo(r), true) }

  function CatalogPermissions(c: Catalog): map<Code, nat> { map p | p in c.permissions :: c.PermissionInfo(p) }

  function Desired(c: Catalog): set<(Code, Code)> {
    set r, p | r in c.roles && p in c.Grants(r) :: (r, p)
  }

  function SeedNos(c: Catalog): set<UserNo> { set a | a in c.accounts :: a.userNo }

  function SeedUser(a: Account): User { User(a.email, a.role, true, true) }

  function SeedUsers(accounts: seq<Account>): map<UserNo, User> {
    if accounts == [] then map[]
    else
      var a := accounts[|accounts| - 1];
      SeedUsers(accounts[..|accounts| - 1])[a.userNo := SeedUser(a)]
  }

  function SeedBindings(c: Catalog): set<(UserNo, Code)> { set a | a in c.accounts :: (a.userNo, a.role) }

  function CatalogPolicies(c: Catalog): map<ActionType, Policy> { map a | a in c.actions :: c.PolicyOf(a) }

  function SeedBase(c: Catalog, db: Db): Db {
    Db(CatalogRoles(c),
       db.permissions + CatalogPermissions(c),
       Desired(c),
       db.users + SeedUsers(c.accounts),
       (set b | b in db.bindings && b.1 in c.roles && b.0 !in SeedNos(c)) + SeedBindings(c),
       db.policies + CatalogPolicies(c),
       db.rules[c.makerChecker := Rule(true, c.makerCheckerText)])
  }

  lemma {:induction false} SeedUsersAt(accounts: seq<Account>, i: nat)
    requires i < |accounts| && forall i, j :: 0 <= i < j < |accounts| ==> accounts[i].userNo != accounts[j].userNo
    ensures accounts[i].userNo in SeedUsers(accounts)
        && SeedUsers(accounts)[accounts[i].userNo] == SeedUser(accounts[i])
  {
    if i < |accounts| - 1 {
      SeedUsersAt(accounts[..|accounts| - 1], i);
    }
  }

  lemma {:induction false} SeedUsersKeys(accounts: seq<Account>)
    ensures forall u :: u in SeedUsers(accounts) <==> exists a :: a in accounts && a.userNo == u
  {
    if accounts != [] {
      var n := |accounts| - 1;
      SeedUsersKeys(accounts[..n]);
      assert accounts == accounts[..n] + [accounts[n]];
      assert accounts[n] in accounts;
    }
  }

  lemma SeededUser(c: Catalog, db: Db, a: Account)
    requires ValidCatalog(c) && a in c.accounts
    ensures a.userNo in SeedBase(c, db).users && SeedBase(c, db).users[a.userNo] == SeedUser(a)
  {
    var i :| 0 <= i < |c.accounts| && c.accounts[i] == a;
    SeedUsersAt(c.accounts, i);
  }

  lemma OtherUser(c: Catalog, db: Db, u: UserNo)
    requires u !in SeedNos(c)
    ensures u in SeedBase(c, db).users <==> u in db.users
    ensures u in db.users ==> SeedBase(c, db).users[u] == db.users[u]
  {
    SeedUsersKeys(c.accounts);
  }

  /** Foreign keys survive. */
  lemma SeedKeepsIntegrity(c: Catalog, db: Db)
    requires ValidCatalog(c) && Integral(db)
    ensures Integral(SeedBase(c, db))
  {
    var after := SeedBase(c, db);
    forall b | b in after.bindings ensures b.0 in after.users && b.1 in after.roles {
      if a :| a in c.accounts && b == (a.userNo, a.role) {
        SeededUser(c, db, a);
      }
    }
  }

  /** After seeding, the grants are the desired ones and each seed administrator has one role. */
  lemma SeedIsExact(c: Catalog, db: Db)
    requires ValidCatalog(c)
    ensures forall r, p :: (r, p) in SeedBase(c, db).pairs <==> r in c.roles && p in c.Grants(r)
    ensures forall a, r :: a in c.accounts ==> ((a.userNo, r) in SeedBase(c, db).bindings <==> r == a.role)
  {
    forall a, r | a in c.accounts && (a.userNo, r) in SeedBindings(c) ensures r == a.role {
      var b :| b in c.accounts && (b.userNo, b.role) == (a.userNo, r);
      SameAccount(c, a, b);
    }
  }

  lemma SameAccount(c: Catalog, a: Account, b: Account)
    requires ValidCatalog(c) && a in c.accounts && b in c.accounts && (a.userNo == b.userNo || a.email == b.email)
    ensures a == b
  {
    var i :| 0 <= i < |c.accounts| && c.accounts[i] == a;
    var j :| 0 <= j < |c.accounts| && c.accounts[j] == b;
  }

  /** Seeding twice is seeding once. */
  lemma SeedTwiceIsOnce(c: Catalog, db: Db)
    requires ValidCatalog(c)
    ensures SeedBase(c, SeedBase(c, db)) == SeedBase(c, db)
  {
    hide CatalogRoles, CatalogPermissions, Desired, SeedNos, SeedUsers, SeedBindings, CatalogPolicies;
    var once, twice := SeedBase(c, db), SeedBase(c, SeedBase(c, db));
    assert twice.permissions == once.permissions;
    assert twice.users == once.users;
    assert twice.policies == once.policies;
    assert twice.bindings == once.bindings;
  }

  // ── Row by row ──

  /** Roles: exactly the catalog's, active, under the catalog's texts. Permissions: the catalog's
      under the catalog's texts, and all others as they were. */
  ghost predicate RolesWritten(c: Catalog, before: Db, after: Db) {
    && (forall r :: r in after.roles <==> r in c.roles)
    && (forall r :: r in c.roles ==> after.roles[r].active)
    && (forall r :: r in c.roles && r in c.roleTexts ==> after.roles[r].info == c.roleTexts[r])
    && (forall p :: p in c.permissions ==> p in after.permissions)
    && (forall p :: p in c.permissions && p in c.permissionTexts ==> after.permissions[p] == c.permissionTexts[p])
    && (forall p :: p !in c.permissions ==> (p in after.permissions <==> p in before.permissions))
    && (forall p :: p !in c.permissions && p in before.permissions ==> after.permissions[p] == before.permissions[p])
    && (forall r, p :: (r, p) in after.pairs <==> r in c.roles && r in c.granted && p in c.granted[r])
  }

  /** Users: a seed administrator's row and its one binding are the catalog's; all other users are as
      they were, and lose only the bindings to roles that are gone. */
  ghost predicate UsersWritten(c: Catalog, before: Db, after: Db) {
    && (forall a :: a in c.accounts ==>
          a.userNo in after.users && after.users[a.userNo] == User(a.email, a.role, true, true))
    && (forall a, r :: a in c.accounts ==> ((a.userNo, r) in after.bindings <==> r == a.role))
    && (forall u :: (forall a :: a in c.accounts ==> a.userNo != u) ==> (u in after.users <==> u in before.users))
    && (forall u :: (forall a :: a in c.accounts ==> a.userNo != u) && u in before.users ==>
          after.users[u] == before.users[u])
    && (forall u, r :: (forall a :: a in c.accounts ==> a.userNo != u) ==>
          ((u, r) in after.bindings <==> (u, r) in before.bindings && r in c.roles))
  }

  /** Policies and rules: the catalog's as the catalog has them, all others as they were. */
  ghost predicate PoliciesWritten(c: Catalog, before: Db, after: Db) {
    && (forall a :: a in c.actions ==> a in after.policies)
    && (forall a :: a in c.actions && a in c.defaults ==> after.policies[a] == c.defaults[a])
    && (forall a :: a !in c.actions ==> (a in after.policies <==> a in before.policies))
    && (forall a :: a !in c.actions && a in before.policies ==> after.policies[a] == before.policies[a])
    && c.makerChecker in after.rules && after.rules[c.makerChecker] == Rule(true, c.makerCheckerText)
    && (forall r :: r != c.makerChecker ==> (r in after.rules <==> r in before.rules))
    && (forall r :: r != c.makerChecker && r in before.rules ==> after.rules[r] == before.rules[r])
  }

  lemma SeedWritesRoles(c: Catalog, db: Db, after: Db)
    requires after.roles == CatalogRoles(c) && after.permissions == db.permissions + CatalogPermissions(c)
    requires after.pairs == Desired(c)
    ensures RolesWritten(c, db, after)
  {
  }

  lemma SeedWritesUsers(c: Catalog, db: Db, after: Db)
    requires ValidCatalog(c) && after.users == SeedBase(c, db).users && after.bindings == SeedBase(c, db).bindings
    ensures UsersWritten(c, db, after)
  {
    hide CatalogRoles, CatalogPermissions, CatalogPolicies, Desired, SeedUsers;
    SeedIsExact(c, db);
    forall a | a in c.accounts
      ensures a.userNo in after.users && after.users[a.userNo] == User(a.email, a.role, true, true)
    {
      SeededUser(c, db, a);
    }
    forall u | forall a :: a in c.accounts ==> a.userNo != u
      ensures u in after.users <==> u in db.users
      ensures u in db.users ==> after.users[u] == db.users[u]
      ensures forall r :: (u, r) in after.bindings <==> (u, r) in db.bindings && r in c.roles
    {
      OtherUser(c, db, u);
    }
  }

  lemma SeedWritesPolicies(c: Catalog, db: Db, after: Db)
    requires after.policies == db.policies + CatalogPolicies(c)
    requires after.rules == db.rules[c.makerChecker := Rule(true, c.makerCheckerText)]
    ensures PoliciesWritten(c, db, after)
  {
  }

  /** What every row is after seeding, over whatever there was before. */
  lemma SeedWritesRows(c: Catalog, db: Db)
    requires ValidCatalog(c)
    ensures RolesWritten(c, db, SeedBase(c, db))
    ensures UsersWritten(c, db, SeedBase(c, db))
    ensures PoliciesWritten(c, db, SeedBase(c, db))
  {
    hide CatalogRoles, CatalogPermissions, CatalogPolicies, Desired, SeedUsers, SeedBindings, RolesWritten,
         UsersWritten, PoliciesWritten, ValidCatalog;
    var after := SeedBase(c, db);
    SeedWritesRoles(c, db, after);
    SeedWritesUsers(c, db, after);
    SeedWritesPolicies(c, db, after);
  }

  // ── The completeness check ──

  function Emails(c: Catalog): set<Email> { set a | a in c.accounts :: a.email }

  /** A user under another number who carries a seed administrator's address; addresses are not
      unique. */
  ghost predicate Impostor(c: Catalog, db: Db) {
    exists u :: u in db.users && u !in SeedNos(c) && db.users[u].email in Emails(c)
  }

  ghost predicate AccountComplete(db: Db, a: Account) {
    && a.userNo in db.users && db.users[a.userNo].email == a.email && db.users[a.userNo].active
    && db.users[a.userNo].role == a.role
    && forall r :: (a.userNo, r) in db.bindings <==> r == a.role
  }

  /** What `isBaseComplete` accepts. */
  ghost predicate Complete(c: Catalog, db: Db) {
    && (forall r :: r in c.roles ==> r in db.roles && db.roles[r].active)
    && (forall a :: a in c.accounts ==> AccountComplete(db, a))
    && !Impostor(c, db)
    && (forall a :: a in c.actions ==> a in db.policies && db.policies[a] == c.PolicyOf(a))
  }

  /** What the check accepts, defect by defect: a role missing or inactive; a seed administrator's
      row missing, or with another address, status or role; a binding missing or too many; another
      user with a seed address; a policy missing or different. */
  lemma CompleteMeans(c: Catalog, db: Db)
    ensures Complete(c, db) <==>
      && (forall r :: r in c.roles ==> r in db.roles && db.roles[r].active)
      && (forall a :: a in c.accounts ==> a.userNo in db.users)
      && (forall a :: a in c.accounts ==>
            db.users[a.userNo].email == a.email && db.users[a.userNo].active && db.users[a.userNo].role == a.role)
      && (forall a, r :: a in c.accounts ==> ((a.userNo, r) in db.bindings <==> r == a.role))
      && (forall u, a :: u in db.users && a in c.accounts && db.users[u].email == a.email ==>
            exists b :: b in c.accounts && b.userNo == u)
      && (forall a :: a in c.actions ==> a in db.policies)
      && (forall a :: a in c.actions && a in c.defaults ==> db.policies[a] == c.defaults[a])
      && (forall a :: a in c.actions && a !in c.defaults ==> db.policies[a] == Policy(true, 0, 0, false, true))
  {
    hide ValidCatalog;
    ImpostorMeans(c, db);
    hide Impostor;
  }

  lemma ImpostorMeans(c: Catalog, db: Db)
    ensures Impostor(c, db)
       <==> exists u, a :: u in db.users && a in c.accounts && db.users[u].email == a.email
                           && forall b :: b in c.accounts ==> b.userNo != u
  {
    if u :| u in db.users && u !in SeedNos(c) && db.users[u].email in Emails(c) {
      var a :| a in c.accounts && a.email == db.users[u].email;
      assert forall b :: b in c.accounts ==> b.userNo != u;
    }
    if u, a :| u in db.users && a in c.accounts && db.users[u].email == a.email
               && forall b :: b in c.accounts ==> b.userNo != u {
      assert u !in SeedNos(c) && a.email in Emails(c);
    }
  }

  lemma SeedCompletesAccounts(c: Catalog, db: Db)
    requires ValidCatalog(c)
    ensures forall a :: a in c.accounts ==> AccountComplete(SeedBase(c, db), a)
  {
    SeedIsExact(c, db);
    forall a | a in c.accounts ensures AccountComplete(SeedBase(c, db), a) {
      SeededUser(c, db, a);
    }
  }

  /** Seeding neither makes nor removes such a user. */
  lemma ImpostorsStay(c: Catalog, db: Db)
    ensures Impostor(c, SeedBase(c, db)) <==> Impostor(c, db)
  {
    hide SeedBase, SeedNos, Emails;
    if u :| u in db.users && u !in SeedNos(c) && db.users[u].email in Emails(c) {
      OtherUser(c, db, u);
    }
    if u :| u in SeedBase(c, db).users && u !in SeedNos(c) && SeedBase(c, db).users[u].email in Emails(c) {
      OtherUser(c, db, u);
    }
  }

  /** From any earlier database: after seeding, the check accepts exactly when no other user carries
      a seed administrator's address. */
  lemma SeedCompletesIff(c: Catalog, db: Db)
    requires ValidCatalog(c)
    ensures Complete(c, SeedBase(c, db)) <==> !Impostor(c, db)
  {
    hide AccountComplete, Impostor, SeedUsers, SeedBindings, Desired;
    SeedCompletesAccounts(c, db);
    ImpostorsStay(c, db);
  }

  ghost function EnsureBaseSeeded(c: Catalog, db: Db): Db {
    if Complete(c, db) then db else SeedBase(c, db)
  }

  /** Ensuring twice is ensuring once, whether or not the check ever accepts. */
  lemma EnsureTwiceIsOnce(c: Catalog, db: Db)
    requires ValidCatalog(c)
    ensures EnsureBaseSeeded(c, EnsureBaseSeeded(c, db)) == EnsureBaseSeeded(c, db)
  {
    SeedTwiceIsOnce(c, db);
  }

  /** The check does not look at grants: ensuring leaves wrong grants standing exactly when
      everything else is complete. */
  lemma EnsureFixesGrantsIff(c: Catalog, db: Db)
    requires ValidCatalog(c)
    ensures EnsureBaseSeeded(c, db).pairs == Desired(c) <==> !Complete(c, db) || db.pairs == Desired(c)
  {
  }

  /** The check reads neither grants nor rules. */
  lemma OverlookedByCheck(c: Catalog, db: Db, pairs: set<(Code, Code)>, rules: map<RuleCode, Rule>)
    ensures Complete(c, db.(pairs := pairs, rules := rules)) <==> Complete(c, db)
  {
    var db' := db.(pairs := pairs, rules := rules);
    forall a | a in c.accounts ensures AccountComplete(db', a) <==> AccountComplete(db, a) { }
    assert Impostor(c, db') <==> Impostor(c, db);
  }

  /** Such a database exists: a seeded one that has lost its grants. */
  lemma LostGrantsStayLost(c: Catalog, db: Db)
    requires ValidCatalog(c) && !Impostor(c, db) && Desired(c) != {}
    ensures var lost := SeedBase(c, db).(pairs := {}); EnsureBaseSeeded(c, lost) == lost && lost.pairs != Desired(c)
  {
    SeedCompletesIff(c, db);
    OverlookedByCheck(c, SeedBase(c, db), {}, SeedBase(c, db).rules);
  }

  /** Nor does it look at the segregation-of-duty rule: switched off, the rule stays off. */
  lemma DisabledRuleStaysOff(c: Catalog, db: Db)
    requires ValidCatalog(c) && !Impostor(c, db)
    ensures
      var after := SeedBase(c, db);
      var off := after.(rules := after.rules[c.makerChecker := Rule(false, c.makerCheckerText)]);
      after.rules[c.makerChecker].enabled && EnsureBaseSeeded(c, off) == off && !off.rules[c.makerChecker].enabled
  {
    SeedCompletesIff(c, db);
    var after := SeedBase(c, db);
    OverlookedByCheck(c, after, after.pairs, after.rules[c.makerChecker := Rule(false, c.makerCheckerText)]);
  }
}
