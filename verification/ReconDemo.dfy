/** The break mode of the reconciliation demo end to end: choose five wallets, inject one anomaly
    into each, run the engine, and grade its findings against the manifest. */
module ReconDemo {
  import opened Prelude
  import opened FlowMatching
  import MirrorMatching
  import opened ReconInjection
  import opened ReconDetection
  import opened ReconPicks

  /** One active wallet as planned: `bucket` numbers its (currency, owner) pair, `total` is the
      engine's own internal total, `flows` are the flows it mirrors. */
  datatype Plan = Plan(wallet: nat, isCustomer: bool, bucket: nat, flows: seq<Entry>, total: int)

  datatype Injection = Injection(wallet: nat, what: Injected)

  type External = map<nat, Statement>

  /** Both branches of the script's per-currency amount are this one. */
  const INJECTED_AMOUNT := 5_000_000
  const WINDOW_MS := 60 * 60 * 1000

  ghost predicate DistinctWallets(plans: seq<Plan>) {
    forall i, j :: 0 <= i < j < |plans| ==> plans[i].wallet != plans[j].wallet
  }

  // ── Choosing wallets ──

  predicate IsCandidate(p: Plan) { p.isCustomer && p.flows != [] }

  /** The candidates among the plans, which are listed by wallet reference. */
  function CandidatesOf(plans: seq<Plan>): seq<Plan> {
    if plans == [] then []
    else
      var n := |plans| - 1;
      CandidatesOf(plans[..n]) + (if plans[n].isCustomer && plans[n].flows != [] then [plans[n]] else [])
  }

  method Candidates(plans: seq<Plan>) returns (r: seq<Plan>)
    ensures r == CandidatesOf(plans)
    ensures forall p :: p in r <==> p in plans && IsCandidate(p)
    ensures multiset(r) <= multiset(plans)
  {
    r := [];
    for i := 0 to |plans|
      invariant r == CandidatesOf(plans[..i])
      invariant forall p :: p in r <==> p in plans[..i] && IsCandidate(p)
      invariant multiset(r) <= multiset(plans[..i])
    {
      assert plans[..i + 1] == plans[..i] + [plans[i]] && plans[..i + 1][..i] == plans[..i];
      if IsCandidate(plans[i]) {
        r := r + [plans[i]];
      }
    }
    assert plans[..|plans|] == plans;
  }

  lemma {:induction false} BagUpdateAt(groups: seq<seq<Plan>>, k: nat, p: Plan)
    requires k < |groups|
    ensures Bag(groups[k := groups[k] + [p]]) == Bag(groups) + multiset{p}
  {
    var after := groups[k := groups[k] + [p]];
    if k == 0 {
      assert after[1..] == groups[1..];
    } else {
      assert after[1..] == groups[1..][k - 1 := groups[k] + [p]];
      BagUpdateAt(groups[1..], k - 1, p);
    }
  }

  lemma {:induction false} BagInsert(groups: seq<seq<Plan>>, k: nat, g: seq<Plan>)
    requires k <= |groups|
    ensures Bag(groups[..k] + [g] + groups[k..]) == Bag(groups) + multiset(g)
  {
    var after := groups[..k] + [g] + groups[k..];
    if k == 0 {
      assert after[1..] == groups;
    } else {
      assert after[1..] == groups[1..][..k - 1] + [g] + groups[1..][k - 1..];
      BagInsert(groups[1..], k - 1, g);
    }
  }

  /** The plans of one bucket, in order. */
  function InBucket(plans: seq<Plan>, key: nat): seq<Plan> {
    if plans == [] then []
    else
      var n := |plans| - 1;
      InBucket(plans[..n], key) + (if plans[n].bucket == key then [plans[n]] else [])
  }

  predicate Ascending(keys: seq<nat>) { forall i, j :: 0 <= i < j < |keys| ==> keys[i] < keys[j] }

  /** One group per bucket that occurs, by key, each with its plans in order. */
  ghost predicate Grouped(plans: seq<Plan>, groups: seq<seq<Plan>>, keys: seq<nat>) {
    && |groups| == |keys| && Ascending(keys)
    && (forall k :: 0 <= k < |keys| ==> groups[k] != [] && groups[k] == InBucket(plans, keys[k]))
    && forall p :: p in plans ==> p.bucket in keys
  }

  lemma {:induction false} NotInBucket(plans: seq<Plan>, key: nat)
    requires forall p :: p in plans ==> p.bucket != key
    ensures InBucket(plans, key) == []
  {
    if plans != [] {
      NotInBucket(plans[..|plans| - 1], key);
    }
  }

  lemma InBucketSnoc(plans: seq<Plan>, p: Plan, key: nat)
    ensures InBucket(plans + [p], key) == InBucket(plans, key) + (if p.bucket == key then [p] else [])
  {
    assert (plans + [p])[..|plans|] == plans;
  }

  /** Where the key is, or belongs. */
  method FindKey(keys: seq<nat>, key: nat) returns (k: nat)
    requires Ascending(keys)
    ensures k <= |keys| && (forall j :: 0 <= j < k ==> keys[j] < key) && (k < |keys| ==> key <= keys[k])
  {
    k := 0;
    while k < |keys| && keys[k] < key
      invariant k <= |keys| && forall j :: 0 <= j < k ==> keys[j] < key
    {
      k := k + 1;
    }
  }

  lemma GroupedUpdate(plans: seq<Plan>, groups: seq<seq<Plan>>, keys: seq<nat>, k: nat, p: Plan)
    requires Grouped(plans, groups, keys) && k < |keys| && keys[k] == p.bucket
    ensures k < |groups| && Grouped(plans + [p], groups[k := groups[k] + [p]], keys)
  {
    forall j | 0 <= j < |keys|
      ensures InBucket(plans + [p], keys[j]) == InBucket(plans, keys[j]) + (if j == k then [p] else [])
    {
      InBucketSnoc(plans, p, keys[j]);
    }
    hide InBucket;
  }

  lemma AscendingInsert(keys: seq<nat>, k: nat, key: nat)
    requires Ascending(keys) && k <= |keys|
    requires (forall j :: 0 <= j < k ==> keys[j] < key) && forall j :: k <= j < |keys| ==> key < keys[j]
    ensures Ascending(keys[..k] + [key] + keys[k..])
    ensures forall x :: x in keys[..k] + [key] + keys[k..] <==> x in keys || x == key
  {
    assert keys == keys[..k] + keys[k..];
  }

  lemma GroupedInsert(plans: seq<Plan>, groups: seq<seq<Plan>>, keys: seq<nat>, k: nat, p: Plan)
    requires Grouped(plans, groups, keys) && k <= |keys|
    requires (forall j :: 0 <= j < k ==> keys[j] < p.bucket) && forall j :: k <= j < |keys| ==> p.bucket < keys[j]
    ensures Grouped(plans + [p], groups[..k] + [[p]] + groups[k..], keys[..k] + [p.bucket] + keys[k..])
  {
    var keys' := keys[..k] + [p.bucket] + keys[k..];
    var groups' := groups[..k] + [[p]] + groups[k..];
    AscendingInsert(keys, k, p.bucket);
    NotInBucket(plans, p.bucket);
    hide InBucket, Ascending;
    forall j | 0 <= j < |keys'| ensures groups'[j] != [] && groups'[j] == InBucket(plans + [p], keys'[j]) {
      InBucketSnoc(plans, p, keys'[j]);
      if j < k {
        assert keys'[j] == keys[j] && groups'[j] == groups[j];
      } else if j > k {
        assert keys'[j] == keys[j - 1] && groups'[j] == groups[j - 1];
      }
    }
  }

  lemma GroupedNone()
    ensures Grouped([], [], [])
  {
  }

  lemma GroupedFacts(plans: seq<Plan>, groups: seq<seq<Plan>>, keys: seq<nat>)
    requires Grouped(plans, groups, keys)
    ensures |groups| == |keys| && Ascending(keys) && (plans != [] ==> groups != [])
  {
    assert plans != [] ==> plans[0].bucket in keys;
  }

  /** One group per bucket that occurs, by key. */
  method GroupByBucket(plans: seq<Plan>) returns (groups: seq<seq<Plan>>, ghost keys: seq<nat>)
    ensures Bag(groups) == multiset(plans)
    ensures plans != [] ==> groups != []
    ensures Grouped(plans, groups, keys)
  {
    hide Bag, Grouped, Ascending;
    groups := [];
    var seen: seq<nat> := [];
    GroupedNone();
    BagNone();
    for i := 0 to |plans|
      invariant Grouped(plans[..i], groups, seen)
      invariant Bag(groups) == multiset(plans[..i])
    {
      assert plans[..i + 1] == plans[..i] + [plans[i]];
      GroupedFacts(plans[..i], groups, seen);
      var k := FindKey(seen, plans[i].bucket);
      if k < |seen| && seen[k] == plans[i].bucket {
        GroupedUpdate(plans[..i], groups, seen, k, plans[i]);
        BagUpdateAt(groups, k, plans[i]);
        groups := groups[k := groups[k] + [plans[i]]];
      } else {
        Beyond(plans[..i], groups, seen, k, plans[i].bucket);
        GroupedInsert(plans[..i], groups, seen, k, plans[i]);
        BagInsert(groups, k, [plans[i]]);
        groups, seen := groups[..k] + [[plans[i]]] + groups[k..], seen[..k] + [plans[i].bucket] + seen[k..];
      }
    }
    assert plans[..|plans|] == plans;
    keys := seen;
    GroupedFacts(plans, groups, keys);
  }

  lemma BagNone()
    ensures Bag<Plan>([]) == multiset{}
  {
  }

  lemma Beyond(plans: seq<Plan>, groups: seq<seq<Plan>>, keys: seq<nat>, k: nat, key: nat)
    requires Grouped(plans, groups, keys) && k <= |keys| && (k < |keys| ==> key < keys[k])
    ensures |groups| == |keys| && forall j :: k <= j < |keys| ==> key < keys[j]
  {
    forall j | k <= j < |keys| ensures key < keys[j] {
      assert k < j ==> keys[k] < keys[j];
    }
  }

  lemma TwiceCounts(s: seq<Plan>, i: nat, j: nat)
    requires i < j < |s| && s[i] == s[j]
    ensures multiset(s)[s[i]] >= 2
  {
    assert s == s[..j] + ([s[j]] + s[j + 1..]);
    assert s[i] in s[..j];
  }

  lemma {:induction false} OnceCounts(s: seq<Plan>, p: Plan)
    requires DistinctWallets(s)
    ensures multiset(s)[p] <= 1
  {
    if s != [] {
      var n := |s| - 1;
      assert s == s[..n] + [s[n]];
      OnceCounts(s[..n], p);
      if p == s[n] {
        assert p !in s[..n];
      }
    }
  }

  /** Choosing from distinct wallets yields distinct wallets. */
  lemma ChosenAreDistinct(plans: seq<Plan>, chosen: seq<Plan>)
    requires DistinctWallets(plans) && multiset(chosen) <= multiset(plans)
    ensures DistinctWallets(chosen) && forall p :: p in chosen ==> p in plans
  {
    forall p | p in chosen ensures p in plans {
      assert multiset(chosen)[p] > 0 && multiset(plans)[p] > 0;
    }
    forall i, j | 0 <= i < j < |chosen| ensures chosen[i].wallet != chosen[j].wallet {
      assert chosen[i] in plans && chosen[j] in plans;
      if chosen[i] == chosen[j] {
        TwiceCounts(chosen, i, j);
        OnceCounts(plans, chosen[i]);
      }
    }
  }

  /** With five candidates the selection always finds five distinct ones: the second throw of the
      script, after the loop, is out of reach. */
  method PickWallets(plans: seq<Plan>)
    returns (picks: Option<seq<Plan>>, ghost groups: seq<seq<Plan>>, ghost keys: seq<nat>, ghost passes: nat,
      ghost steps: nat)
    requires DistinctWallets(plans)
    ensures picks.None? <==> CandidateCount(plans) < PICKS
    ensures picks.None? <==> |set p | p in plans && p.isCustomer && p.flows != []| < 5
    ensures picks.Some? ==> |picks.value| == PICKS && DistinctWallets(picks.value)
    ensures picks.Some? ==> forall p :: p in picks.value ==> p in plans && IsCandidate(p)
    ensures picks.Some? ==> forall p :: p in picks.value ==> p.isCustomer && p.flows != []
    ensures picks.Some? ==> groups != [] && Grouped(CandidatesOf(plans), groups, keys)
    ensures picks.Some? ==> picks.value == Order(groups, passes, steps)
  {
    var cands := Candidates(plans);
    CountIsLength(plans, cands);
    assert (set p | p in plans && IsCandidate(p)) == set p | p in plans && p.isCustomer && p.flows != [];
    groups, keys, passes, steps := [], [], 0, 0;
    if |cands| < PICKS {
      picks := None;
      return;
    }
    hide Grouped, Order;
    var byKey;
    byKey, keys := GroupByBucket(cands);
    groups := byKey;
    var buckets := new seq<Plan>[|byKey|](i requires 0 <= i < |byKey| => byKey[i]);
    assert buckets[..] == groups;
    TotalIsBagSize(groups);
    var chosen;
    chosen, passes, steps := RoundRobin(buckets);
    assert multiset(chosen) <= multiset(cands);
    ChosenAreDistinct(plans, chosen);
    forall p | p in chosen ensures IsCandidate(p) {
      assert multiset(chosen)[p] > 0 && p in cands;
    }
    picks := Some(chosen);
  }

  ghost function CandidateCount(plans: seq<Plan>): nat {
    |set p | p in plans && IsCandidate(p)|
  }

  lemma CountIsLength(plans: seq<Plan>, cands: seq<Plan>)
    requires DistinctWallets(plans) && multiset(cands) <= multiset(plans)
    requires forall p :: p in cands <==> p in plans && IsCandidate(p)
    ensures |cands| == CandidateCount(plans)
  {
    ChosenAreDistinct(plans, cands);
    DistinctLength(cands);
    assert (set p | p in plans && IsCandidate(p)) == (set p | p in cands);
  }

  lemma {:induction false} DistinctLength(s: seq<Plan>)
    requires DistinctWallets(s)
    ensures |set p | p in s| == |s|
  {
    if s != [] {
      var n := |s| - 1;
      DistinctLength(s[..n]);
      assert s == s[..n] + [s[n]];
      assert (set p | p in s) == (set p | p in s[..n]) + {s[n]};
      assert s[n] !in s[..n];
    }
  }

  // ── Injecting ──

  function MutationOf(kind: Kind, s: Statement, g: Ghost): Mutation {
    match kind
    case OrphanInternal => InjectOrphanInternal(s)
    case OrphanExternal => InjectOrphanExternal(s, g, INJECTED_AMOUNT)
    case AmountMismatch => InjectAmountMismatch(s, INJECTED_AMOUNT)
    case PairCancelOrphan => InjectPairCancelOrphan(s, g, EPSILON)
    case PairCancelMismatch => InjectPairCancelMismatch(s, INJECTED_AMOUNT)
  }

  /** The anomaly the k-th picked wallet hosts. */
  function KindAt(k: nat): Kind
    requires k < PICKS
  {
    if k == 0 then OrphanInternal else if k == 1 then OrphanExternal else if k == 2 then AmountMismatch
    else if k == 3 then PairCancelOrphan else PairCancelMismatch
  }

  function MutationFor(ext: External, p: Plan, k: nat, g: Ghost): Mutation
    requires k < PICKS
  {
    if p.wallet in ext then MutationOf(KindAt(k), ext[p.wallet], g) else NoLine
  }

  method InjectInto(ext: External, p: Plan, k: nat, g: Ghost, injections: seq<Injection>)
    returns (ok: bool, ext': External, injections': seq<Injection>)
    requires k < PICKS
    ensures ok <==> MutationFor(ext, p, k, g).Mutated?
    ensures ok ==> ext' == ext[p.wallet := MutationFor(ext, p, k, g).statement]
    ensures ok ==> injections' == injections + [Injection(p.wallet, MutationFor(ext, p, k, g).injected)]
  {
    ext', injections' := ext, injections;
    if p.wallet !in ext {
      return false, ext', injections';
    }
    match MutationOf(KindAt(k), ext[p.wallet], g)
    case NoLine => ok := false;
    case Mutated(s, inj) => ok, ext', injections' := true, ext[p.wallet := s], injections + [Injection(p.wallet, inj)];
  }

  ghost predicate InjectedAt(ext: External, ext': External, p: Plan, k: nat, g: Ghost)
    requires k < PICKS
  {
    var m := MutationFor(ext, p, k, g);
    m.Mutated? && p.wallet in ext' && ext'[p.wallet] == m.statement
  }

  /** Every picked wallet carries its own anomaly, every other wallet is as it was. */
  ghost predicate AllInjected(ext: External, ext': External, picks: seq<Plan>, ghosts: seq<Ghost>, n: nat)
    requires |picks| == PICKS && |ghosts| == PICKS && n <= PICKS
  {
    && ext'.Keys == ext.Keys
    && (forall k: nat :: k < n ==> InjectedAt(ext, ext', picks[k], k, ghosts[k]))
    && (forall w :: w in ext && (forall k: nat :: k < n ==> picks[k].wallet != w) ==> ext'[w] == ext[w])
  }

  ghost predicate AllRecorded(ext: External, picks: seq<Plan>, ghosts: seq<Ghost>, injections: seq<Injection>)
    requires |picks| == PICKS && |ghosts| == PICKS && |injections| <= PICKS
  {
    forall k: nat :: k < |injections| ==>
      MutationFor(ext, picks[k], k, ghosts[k]).Mutated?
      && injections[k] == Injection(picks[k].wallet, MutationFor(ext, picks[k], k, ghosts[k]).injected)
  }

  /** One more injection, into a wallet not picked before. */
  lemma NextInjected(ext: External, ext': External, picks: seq<Plan>, k: nat, ghosts: seq<Ghost>)
    requires |picks| == PICKS && |ghosts| == PICKS && DistinctWallets(picks) && k < PICKS
    requires AllInjected(ext, ext', picks, ghosts, k)
    ensures MutationFor(ext', picks[k], k, ghosts[k]) == MutationFor(ext, picks[k], k, ghosts[k])
    ensures MutationFor(ext, picks[k], k, ghosts[k]).Mutated? ==>
      var after := ext'[picks[k].wallet := MutationFor(ext, picks[k], k, ghosts[k]).statement];
      AllInjected(ext, after, picks, ghosts, k + 1)
  {
    hide MutationOf;
  }

  lemma NextRecorded(ext: External, picks: seq<Plan>, ghosts: seq<Ghost>, injections: seq<Injection>)
    requires |picks| == PICKS && |ghosts| == PICKS && |injections| < PICKS
    requires AllRecorded(ext, picks, ghosts, injections)
    ensures
      var k := |injections|;
      var m := MutationFor(ext, picks[k], k, ghosts[k]);
      m.Mutated? ==> AllRecorded(ext, picks, ghosts, injections + [Injection(picks[k].wallet, m.injected)])
  {
    hide MutationFor;
  }

  /** The wallet holds the outcome of this mutation, and this is what was recorded of it. */
  ghost predicate Hosts(ext': External, p: Plan, m: Mutation, inj: Injection) {
    && m.Mutated? && inj == Injection(p.wallet, m.injected)
    && p.wallet in ext' && ext'[p.wallet] == m.statement
  }

  /** Each pick has a statement, with the lines its anomaly needs. */
  ghost predicate HasLines(ext: External, picks: seq<Plan>)
    requires |picks| == 5
  {
    && (forall k :: 0 <= k < 5 ==> picks[k].wallet in ext)
    && ext[picks[0].wallet].lines != [] && ext[picks[3].wallet].lines != []
    && (exists l :: l in ext[picks[2].wallet].lines && l.ref.Some?)
    && exists l, m :: l in ext[picks[4].wallet].lines && m in ext[picks[4].wallet].lines
                      && l.ref.Some? && m.ref.Some? && l.id != m.id
  }

  /** The five anomalies of the script, one per picked wallet and in its order, each recorded with
      the references of the lines it touched; all other wallets are as they were. */
  ghost predicate InOrder(ext: External, ext': External, picks: seq<Plan>, ghosts: seq<Ghost>,
                          injections: seq<Injection>)
    requires |picks| == 5 == |ghosts|
  {
    && |injections| == 5 && ext'.Keys == ext.Keys && (forall k :: 0 <= k < 5 ==> picks[k].wallet in ext)
    && Hosts(ext', picks[0], InjectOrphanInternal(ext[picks[0].wallet]), injections[0])
    && Hosts(ext', picks[1], InjectOrphanExternal(ext[picks[1].wallet], ghosts[1], 5_000_000), injections[1])
    && Hosts(ext', picks[2], InjectAmountMismatch(ext[picks[2].wallet], 5_000_000), injections[2])
    && Hosts(ext', picks[3], InjectPairCancelOrphan(ext[picks[3].wallet], ghosts[3], 1), injections[3])
    && Hosts(ext', picks[4], InjectPairCancelMismatch(ext[picks[4].wallet], 5_000_000), injections[4])
    && injections[0].what.kind == OrphanInternal && injections[1].what.kind == OrphanExternal
    && injections[2].what.kind == AmountMismatch && injections[3].what.kind == PairCancelOrphan
    && injections[4].what.kind == PairCancelMismatch
    && forall w :: w in ext && (forall k :: 0 <= k < 5 ==> picks[k].wallet != w) ==> ext'[w] == ext[w]
  }

  lemma InjectedInOrder(ext: External, ext': External, picks: seq<Plan>, ghosts: seq<Ghost>,
      injections: seq<Injection>)
    requires |picks| == 5 == |ghosts| && |injections| == 5
    requires AllInjected(ext, ext', picks, ghosts, PICKS) && AllRecorded(ext, picks, ghosts, injections)
    ensures InOrder(ext, ext', picks, ghosts, injections)
  {
    hide InjectOrphanInternal, InjectOrphanExternal, InjectAmountMismatch, InjectPairCancelOrphan,
         InjectPairCancelMismatch;
    forall k: nat | k < 5
      ensures picks[k].wallet in ext && Hosts(ext', picks[k], MutationFor(ext, picks[k], k, ghosts[k]), injections[k])
    {
      assert InjectedAt(ext, ext', picks[k], k, ghosts[k]);
    }
    KindsInOrder(ext, picks, ghosts);
  }

  lemma KindsInOrder(ext: External, picks: seq<Plan>, ghosts: seq<Ghost>)
    requires |picks| == 5 == |ghosts| && forall k: nat :: k < 5 ==> MutationFor(ext, picks[k], k, ghosts[k]).Mutated?
    ensures MutationFor(ext, picks[0], 0, ghosts[0]).injected.kind == OrphanInternal
    ensures MutationFor(ext, picks[1], 1, ghosts[1]).injected.kind == OrphanExternal
    ensures MutationFor(ext, picks[2], 2, ghosts[2]).injected.kind == AmountMismatch
    ensures MutationFor(ext, picks[3], 3, ghosts[3]).injected.kind == PairCancelOrphan
    ensures MutationFor(ext, picks[4], 4, ghosts[4]).injected.kind == PairCancelMismatch
  {
  }

  /** When all five find their lines. */
  lemma AllMutateIff(ext: External, picks: seq<Plan>, ghosts: seq<Ghost>)
    requires |picks| == 5 == |ghosts|
    requires forall k :: 0 <= k < 5 && picks[k].wallet in ext ==> DistinctIds(ext[picks[k].wallet].lines)
    ensures (forall k: nat :: k < 5 ==> MutationFor(ext, picks[k], k, ghosts[k]).Mutated?) <==> HasLines(ext, picks)
  {
    hide InjectOrphanInternal, InjectOrphanExternal, InjectAmountMismatch, InjectPairCancelOrphan,
         InjectPairCancelMismatch, DistinctIds;
    if forall k :: 0 <= k < 5 ==> picks[k].wallet in ext {
      OrphanExternalAdds(ext[picks[1].wallet], ghosts[1], 5_000_000);
      WhenInjectionsThrow(ext[picks[0].wallet], ghosts[0], 5_000_000);
      WhenInjectionsThrow(ext[picks[2].wallet], ghosts[2], 5_000_000);
      WhenInjectionsThrow(ext[picks[3].wallet], ghosts[3], 5_000_000);
      WhenInjectionsThrow(ext[picks[4].wallet], ghosts[4], 5_000_000);
    } else {
      var k :| 0 <= k < 5 && picks[k].wallet !in ext;
      assert MutationFor(ext, picks[k], k, ghosts[k]).NoLine?;
    }
  }

  /** The five injections, in order; `None` when one of them finds no line to work on. */
  method InjectAnomalies(ext: External, picks: seq<Plan>, ghosts: seq<Ghost>)
    returns (ok: bool, ext': External, injections: seq<Injection>)
    requires |picks| == PICKS && |ghosts| == PICKS && DistinctWallets(picks)
    ensures ok <==> forall k: nat :: k < PICKS ==> MutationFor(ext, picks[k], k, ghosts[k]).Mutated?
    ensures ok ==> |injections| == PICKS
    ensures ok ==> AllInjected(ext, ext', picks, ghosts, PICKS) && AllRecorded(ext, picks, ghosts, injections)
    ensures ok ==> InOrder(ext, ext', picks, ghosts, injections)
    ensures (forall k :: 0 <= k < 5 && picks[k].wallet in ext ==> DistinctIds(ext[picks[k].wallet].lines)) ==>
      (ok <==> HasLines(ext, picks))
  {
    hide InOrder, HasLines, DistinctIds;
    if forall k :: 0 <= k < 5 && picks[k].wallet in ext ==> DistinctIds(ext[picks[k].wallet].lines) {
      AllMutateIff(ext, picks, ghosts);
    }
    ok, ext', injections := true, ext, [];
    for k := 0 to PICKS
      invariant ok && |injections| == k
      invariant AllInjected(ext, ext', picks, ghosts, k) && AllRecorded(ext, picks, ghosts, injections)
    {
      NextInjected(ext, ext', picks, k, ghosts);
      NextRecorded(ext, picks, ghosts, injections);
      ok, ext', injections := InjectInto(ext', picks[k], k, ghosts[k], injections);
      if !ok {
        return;
      }
    }
    InjectedInOrder(ext, ext', picks, ghosts, injections);
  }

  // ── Grading ──

  /** The injections the run did not show, in order. */
  function Undetected(injections: seq<Injection>, runs: map<nat, WalletRun>): seq<Injection>
    requires forall inj :: inj in injections ==> inj.wallet in runs
  {
    if injections == [] then []
    else
      var n := |injections| - 1;
      assert injections[n] in injections;
      Undetected(injections[..n], runs)
      + (if Hit(injections[n].what, runs[injections[n].wallet]) then [] else [injections[n]])
  }

  method VerifyManifest(injections: seq<Injection>, runs: map<nat, WalletRun>)
      returns (detected: nat, missed: seq<Injection>)
    requires forall inj :: inj in injections ==> inj.wallet in runs
    ensures detected + |missed| == |injections|
    ensures missed == Undetected(injections, runs)
    ensures forall inj :: inj in missed <==> inj in injections && !Hit(inj.what, runs[inj.wallet])
  {
    detected, missed := 0, [];
    for i := 0 to |injections|
      invariant detected + |missed| == i && missed == Undetected(injections[..i], runs)
      invariant forall inj :: inj in missed <==> inj in injections[..i] && !Hit(inj.what, runs[inj.wallet])
    {
      assert injections[..i + 1] == injections[..i] + [injections[i]] && injections[..i + 1][..i] == injections[..i];
      assert injections[i] in injections;
      if Hit(injections[i].what, runs[injections[i].wallet]) {
        detected := detected + 1;
      } else {
        missed := missed + [injections[i]];
      }
    }
    assert injections[..|injections|] == injections;
  }

  // ── The demo ──

  /** A mirror as the script writes it: closing is the internal total, the lines mirror the flows,
      every flow has a reference of its own and an amount. */
  ghost predicate CleanMirror(plans: seq<Plan>, ext: External) {
    forall p :: p in plans ==>
      && p.wallet in ext && ext[p.wallet].closing == p.total
      && Mirrored(p.flows, ext[p.wallet].lines)
      && forall l :: l in ext[p.wallet].lines ==> l.amount > 0
  }

  /** A generated ghost: a new row id and a reference no flow or line carries. */
  ghost predicate FreshGhost(g: Ghost, plans: seq<Plan>, ext: External) {
    g.ref != EMPTY
    && (forall p :: p in plans ==> forall f :: f in p.flows ==> f.ref != Some(g.ref))
    && (forall w :: w in ext ==> NoId(ext[w].lines, g.id))
  }

  /** `runs` holds the engine's findings on this wallet. */
  predicate RunOf(p: Plan, ext: External, runs: map<nat, WalletRun>) {
    p.wallet in ext && p.wallet in runs && runs[p.wallet] == Check(WINDOW_MS, p.flows, p.total, ext[p.wallet])
  }

  /** The engine's run over the planned wallets. */
  method RunEngine(plans: seq<Plan>, ext: External) returns (runs: map<nat, WalletRun>)
    requires DistinctWallets(plans) && forall p :: p in plans ==> p.wallet in ext
    ensures forall p :: p in plans ==> RunOf(p, ext, runs)
    ensures forall p :: p in plans ==>
      && p.wallet in runs && runs[p.wallet].delta == ext[p.wallet].closing - p.total
      && runs[p.wallet].report == Match(3_600_000, p.flows, ext[p.wallet].lines)
  {
    runs := map[];
    for i := 0 to |plans|
      invariant forall j :: 0 <= j < i ==> RunOf(plans[j], ext, runs)
    {
      runs := runs[plans[i].wallet := Check(WINDOW_MS, plans[i].flows, plans[i].total, ext[plans[i].wallet])];
    }
  }

  /** Each anomaly is detected on its wallet, whatever the order of rows. */
  lemma AnomalyDetected(p: Plan, s: Statement, k: nat, g: Ghost)
    requires k < PICKS && p.flows != [] && s.closing == p.total && Mirrored(p.flows, s.lines)
    requires forall l :: l in s.lines ==> l.amount > 0
    requires g.ref != EMPTY && NoId(s.lines, g.id) && forall f :: f in p.flows ==> f.ref != Some(g.ref)
    requires MutationOf(KindAt(k), s, g).Mutated?
    ensures
      var m := MutationOf(KindAt(k), s, g);
      Hit(m.injected, Check(WINDOW_MS, p.flows, p.total, m.statement))
  {
    hide Mirrored, Hit, Check, NoId;
    if k == 0 {
      var inj, run := OrphanInternalDetected(WINDOW_MS, p.flows, s);
    } else if k == 1 {
      var inj, run := OrphanExternalDetected(WINDOW_MS, p.flows, s, g, INJECTED_AMOUNT);
    } else if k == 2 {
      var inj, run := AmountMismatchDetected(WINDOW_MS, p.flows, s, INJECTED_AMOUNT);
    } else if k == 3 {
      var inj, run := PairCancelOrphanDetected(WINDOW_MS, p.flows, s, g, EPSILON);
    } else {
      var inj, run := PairCancelMismatchDetected(WINDOW_MS, p.flows, s, INJECTED_AMOUNT);
    }
  }

  /** Only the last injection can throw on a clean mirror: it needs two lines. */
  lemma InjectionsFindLines(p: Plan, s: Statement, k: nat, g: Ghost)
    requires k < PICKS && p.flows != [] && Mirrored(p.flows, s.lines)
    ensures MutationOf(KindAt(k), s, g).Mutated? <==> (k == PICKS - 1 ==> |p.flows| >= 2)
  {
    HasEarliest(p.flows, s.lines);
    if k == PICKS - 1 {
      TwoLines(p.flows, s.lines);
    }
  }

  lemma TwoLines(flows: seq<Entry>, lines: seq<Entry>)
    requires Mirrored(flows, lines) && flows != []
    ensures TwoEarliest(lines).Some? <==> |flows| >= 2
  {
    HasEarliest(flows, lines);
    MirrorRefs(flows, lines);
    var a := Earliest(lines, true).value;
    WithoutRemovesOne(lines, a);
    var rest := Without(lines, a.id);
    MirrorLength(flows, lines);
    assert |multiset(lines)| == |lines| && |multiset(rest)| == |rest|;
    EarliestIsEarliest(rest, true);
    if |flows| >= 2 {
      assert rest[0] in rest && rest[0] in lines;
    }
  }

  lemma MirrorLength(flows: seq<Entry>, lines: seq<Entry>)
    requires Mirrored(flows, lines)
    ensures |flows| == |lines|
  {
    var ws :| MirrorMatching.Aligned(flows, ws) && multiset(ws) == multiset(lines);
    assert |multiset(ws)| == |ws| && |multiset(lines)| == |lines|;
  }

  lemma PicksMutate(plans: seq<Plan>, ext: External, picks: seq<Plan>, ghosts: seq<Ghost>)
    requires |picks| == PICKS == |ghosts| && CleanMirror(plans, ext)
    requires forall p :: p in picks ==> p in plans && IsCandidate(p)
    ensures forall k: nat :: k < PICKS ==> picks[k].wallet in ext
    ensures forall k: nat :: k < PICKS ==>
      (MutationFor(ext, picks[k], k, ghosts[k]).Mutated? <==> (k == PICKS - 1 ==> |picks[k].flows| >= 2))
  {
    forall k: nat | k < PICKS
      ensures picks[k].wallet in ext
      ensures MutationFor(ext, picks[k], k, ghosts[k]).Mutated? <==> (k == PICKS - 1 ==> |picks[k].flows| >= 2)
    {
      assert picks[k] in picks;
      InjectionsFindLines(picks[k], ext[picks[k].wallet], k, ghosts[k]);
    }
  }

  /** Detection is complete: on a clean mirror the demo either throws, for want of five candidate
      wallets or of a second line on the last pick, or detects all five anomalies. */
  method BreakMode(plans: seq<Plan>, ext: External, ghosts: seq<Ghost>)
    returns (picks: Option<seq<Plan>>, outcome: Option<(nat, seq<Injection>)>)
    requires DistinctWallets(plans) && |ghosts| == PICKS
    requires CleanMirror(plans, ext) && forall g :: g in ghosts ==> FreshGhost(g, plans, ext)
    ensures picks.None? <==> CandidateCount(plans) < PICKS
    ensures picks.Some? ==> |picks.value| == PICKS
    ensures outcome.None? <==> picks.None? || |picks.value[PICKS - 1].flows| < 2
    ensures outcome.Some? ==> outcome.value == (PICKS, [])
  {
    outcome := None;
    ghost var groups, keys, passes, steps;
    picks, groups, keys, passes, steps := PickWallets(plans);
    if picks.None? {
      return;
    }
    PicksMutate(plans, ext, picks.value, ghosts);
    var ok, ext', injections := InjectAnomalies(ext, picks.value, ghosts);
    if !ok {
      return;
    }
    var runs := RunEngine(plans, ext');
    forall inj | inj in injections ensures inj.wallet in runs && Hit(inj.what, runs[inj.wallet]) {
      var k: nat :| k < |injections| && injections[k] == inj;
      EachIsHit(plans, ext, ext', picks.value, ghosts, k, runs);
    }
    var detected, missed := VerifyManifest(injections, runs);
    NoneMissed(missed);
    outcome := Some((detected, missed));
  }

  lemma NoneMissed(missed: seq<Injection>)
    ensures missed != [] ==> missed[0] in missed
  {
  }

  lemma EachIsHit(plans: seq<Plan>, ext: External, ext': External, picks: seq<Plan>, ghosts: seq<Ghost>, k: nat,
                  runs: map<nat, WalletRun>)
    requires |picks| == PICKS && |ghosts| == PICKS && k < PICKS && CleanMirror(plans, ext)
    requires forall p :: p in picks ==> p in plans && IsCandidate(p)
    requires forall g :: g in ghosts ==> FreshGhost(g, plans, ext)
    requires AllInjected(ext, ext', picks, ghosts, PICKS)
    requires forall p :: p in plans ==> RunOf(p, ext', runs)
    ensures picks[k].wallet in runs
    ensures Hit(MutationFor(ext, picks[k], k, ghosts[k]).injected, runs[picks[k].wallet])
  {
    var p := picks[k];
    assert p in picks && p in plans && ghosts[k] in ghosts;
    assert MutationFor(ext, p, k, ghosts[k]).Mutated?;
    AnomalyDetected(p, ext[p.wallet], k, ghosts[k]);
  }
}
