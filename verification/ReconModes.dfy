/** The demo's two modes against the engine's own run: the pass mode finds nothing on a faithful
    mirror, the break mode opens exactly the five injected cases. */
module ReconModes {
  import opened Prelude
  import opened FlowMatching
  import opened MirrorMatching
  import opened MirrorOrder
  import opened ReconInjection
  import opened ReconDetection
  import opened ReconPicks
  import opened ReconDemo
  import opened CaseLifecycle
  import opened CaseStreaks
  import opened ReconRuns

  /** What the engine finds at every planned wallet. */
  function FindingsOf(plans: seq<Plan>, ext: External): (fs: seq<Finding>)
    requires forall p :: p in plans ==> p.wallet in ext
    ensures |fs| == |plans|
    ensures forall i :: 0 <= i < |plans| ==> fs[i] == FindingAt(plans[i], ext)
  {
    if plans == [] then []
    else
      assert plans[|plans| - 1] in plans;
      FindingsOf(plans[..|plans| - 1], ext) + [FindingAt(plans[|plans| - 1], ext)]
  }

  function FindingAt(p: Plan, ext: External): Finding
    requires p.wallet in ext
  {
    Finding(p.wallet, Some(Check(WINDOW_MS, p.flows, p.total, ext[p.wallet])))
  }

  lemma {:induction false} BreakingMembers(fs: seq<Finding>, wallet: nat)
    ensures wallet in BreakingWallets(fs) <==> exists f :: f in fs && f.wallet == wallet && Breaking(f)
  {
    if fs != [] {
      var n := |fs| - 1;
      BreakingMembers(fs[..n], wallet);
      assert fs == fs[..n] + [fs[n]] && fs[n] in fs;
    }
  }

  lemma FindingBreaks(plans: seq<Plan>, ext: External, wallet: nat)
    requires ReconDemo.DistinctWallets(plans) && forall p :: p in plans ==> p.wallet in ext
    ensures wallet in BreakingWallets(FindingsOf(plans, ext))
       <==> exists p :: p in plans && p.wallet == wallet && Breaking(FindingAt(p, ext))
  {
    var fs := FindingsOf(plans, ext);
    BreakingMembers(fs, wallet);
    if f :| f in fs && f.wallet == wallet && Breaking(f) {
      var i :| 0 <= i < |fs| && fs[i] == f;
      assert plans[i] in plans;
    }
    if p :| p in plans && p.wallet == wallet && Breaking(FindingAt(p, ext)) {
      var i :| 0 <= i < |plans| && plans[i] == p;
      assert fs[i] in fs;
    }
  }

  // ── Pass mode ──

  /** The mirror as it is written: closing balances copied from the engine, one line per flow. */
  ghost predicate Faithful(plans: seq<Plan>, ext: External) {
    forall p :: p in plans ==>
      p.wallet in ext && ext[p.wallet].closing == p.total && Mirrors(p.flows, ext[p.wallet].lines)
  }

  ghost predicate Pairable(plans: seq<Plan>) {
    forall p :: p in plans ==> Unambiguous(p.flows) && WindowTransitive(WINDOW_MS, p.flows)
  }

  /** Nothing breaks at a wallet whose references are unambiguous and whose unreferenced flows are
      not bridged, in whatever order the database returns lines. */
  lemma NothingBreaks(plans: seq<Plan>, ext: External)
    requires ReconDemo.DistinctWallets(plans) && Faithful(plans, ext) && Pairable(plans)
    ensures BreakingWallets(FindingsOf(plans, ext)) == {}
  {
    forall w ensures w !in BreakingWallets(FindingsOf(plans, ext)) {
      FindingBreaks(plans, ext, w);
      forall p | p in plans ensures !Breaking(FindingAt(p, ext)) {
        AnyOrderIsClean(WINDOW_MS, p.flows, ext[p.wallet].lines);
      }
    }
  }

  /** Pass mode on empty case tables: its checks hold exactly when no wallet breaks, and so on
      every faithful mirror of pairable wallets. */
  method PassMode(plans: seq<Plan>, ext: External, date: nat) returns (ok: bool)
    requires ReconDemo.DistinctWallets(plans) && forall p :: p in plans ==> p.wallet in ext
    ensures ok <==> BreakingWallets(FindingsOf(plans, ext)) == {}
    ensures Faithful(plans, ext) && Pairable(plans) ==> ok
  {
    var engine := new ReconEngine();
    var fs := FindingsOf(plans, ext);
    var id := engine.Run(RunInput(date, true, fs));
    ok := engine.runs[id].status == Passing && engine.runs[id].casesOpened == 0;
    if Faithful(plans, ext) && Pairable(plans) {
      NothingBreaks(plans, ext);
    }
  }

  // ── Break mode ──

  ghost function PickedWallets(picks: seq<Plan>): set<nat> { set p | p in picks :: p.wallet }

  lemma {:induction false} PickedCount(picks: seq<Plan>)
    requires ReconDemo.DistinctWallets(picks)
    ensures |PickedWallets(picks)| == |picks|
  {
    if picks != [] {
      var n := |picks| - 1;
      PickedCount(picks[..n]);
      assert picks == picks[..n] + [picks[n]];
      assert PickedWallets(picks) == PickedWallets(picks[..n]) + {picks[n].wallet};
    }
  }

  lemma CleanWalletIsQuiet(p: Plan, ext: External)
    requires p.wallet in ext && ext[p.wallet].closing == p.total && Mirrored(p.flows, ext[p.wallet].lines)
    ensures !Breaking(FindingAt(p, ext))
  {
    forall f, g | f in p.flows && g in p.flows && f.ref == g.ref ensures f == g {
      OneRef(p.flows, f, g);
    }
    DistinctRefsAreClean(WINDOW_MS, p.flows, ext[p.wallet].lines);
  }

  /** After the injections exactly the picked wallets break. */
  lemma ExactlyThePicksBreak(plans: seq<Plan>, ext: External, ext': External, picks: seq<Plan>, ghosts: seq<Ghost>)
    requires ReconDemo.DistinctWallets(plans) && CleanMirror(plans, ext)
    requires |picks| == PICKS && |ghosts| == PICKS && ReconDemo.DistinctWallets(picks)
    requires forall p :: p in picks ==> p in plans && IsCandidate(p)
    requires forall g :: g in ghosts ==> FreshGhost(g, plans, ext)
    requires AllInjected(ext, ext', picks, ghosts, PICKS)
    ensures forall p :: p in plans ==> p.wallet in ext'
    ensures BreakingWallets(FindingsOf(plans, ext')) == PickedWallets(picks) && |PickedWallets(picks)| == PICKS
  {
    hide BreakingWallets, FindingsOf, Breaking, InjectedAt, Mirrored, FreshGhost;
    assert ext'.Keys == ext.Keys;
    forall p | p in plans ensures p.wallet in ext' {
      assert p.wallet in ext;
    }
    PickedCount(picks);
    forall w ensures w in BreakingWallets(FindingsOf(plans, ext')) <==> w in PickedWallets(picks) {
      FindingBreaks(plans, ext', w);
      if w in PickedWallets(picks) {
        var k: nat :| k < |picks| && picks[k].wallet == w;
        PickBreaks(plans, ext, ext', picks, ghosts, k);
      } else {
        forall p | p in plans && p.wallet == w ensures !Breaking(FindingAt(p, ext')) {
          OthersAreQuiet(plans, ext, ext', picks, ghosts, p);
        }
      }
    }
  }

  lemma OthersAreQuiet(plans: seq<Plan>, ext: External, ext': External, picks: seq<Plan>, ghosts: seq<Ghost>, p: Plan)
    requires |picks| == PICKS && |ghosts| == PICKS && CleanMirror(plans, ext) && p in plans
    requires AllInjected(ext, ext', picks, ghosts, PICKS) && p.wallet !in PickedWallets(picks)
    ensures p.wallet in ext' && !Breaking(FindingAt(p, ext'))
  {
    hide InjectedAt, Breaking;
    forall k: nat | k < PICKS ensures picks[k].wallet != p.wallet {
      assert picks[k] in picks;
    }
    assert p.wallet in ext && ext'[p.wallet] == ext[p.wallet];
    CleanWalletIsQuiet(p, ext');
  }

  lemma PickBreaks(plans: seq<Plan>, ext: External, ext': External, picks: seq<Plan>, ghosts: seq<Ghost>, k: nat)
    requires |picks| == PICKS && |ghosts| == PICKS && k < PICKS && CleanMirror(plans, ext)
    requires forall p :: p in picks ==> p in plans && IsCandidate(p)
    requires forall g :: g in ghosts ==> FreshGhost(g, plans, ext)
    requires AllInjected(ext, ext', picks, ghosts, PICKS)
    ensures picks[k] in plans && picks[k].wallet in ext' && Breaking(FindingAt(picks[k], ext'))
  {
    var p := picks[k];
    assert p in picks && p in plans && ghosts[k] in ghosts;
    assert p.wallet in ext && ext'.Keys == ext.Keys;
    assert InjectedAt(ext, ext', p, k, ghosts[k]);
    AnomalyDetected(p, ext[p.wallet], k, ghosts[k]);
  }

  /** On empty tables every breaking wallet gets a new case. */
  lemma {:induction false} FreshRunOpensAll(id: nat, date: nat, fs: seq<Finding>)
    requires CaseLifecycle.DistinctWallets(fs)
    ensures |UpsertAll([], id, date, fs)| == |BreakingWallets(fs)|
  {
    if fs != [] {
      var n := |fs| - 1;
      FreshRunOpensAll(id, date, fs[..n]);
      if Breaking(fs[n]) {
        var w := fs[n].wallet;
        NewBreaking(fs, n);
        BreakingIsSeen(fs[..n], w);
        TrackUpsertAll([], id, date, fs[..n], w, date);
        OpenShows(UpsertAll([], id, date, fs[..n]), w, date);
      }
    }
  }

  /** Break mode on empty case tables: five cases, one per picked wallet, on status BREAK. */
  method RunBreakMode(plans: seq<Plan>, ext: External, ghosts: seq<Ghost>, date: nat)
    returns (picks: Option<seq<Plan>>, row: Option<RunRow>)
    requires ReconDemo.DistinctWallets(plans) && |ghosts| == PICKS
    requires CleanMirror(plans, ext) && forall g :: g in ghosts ==> FreshGhost(g, plans, ext)
    ensures picks.None? <==> CandidateCount(plans) < PICKS
    ensures picks.Some? ==> |picks.value| == PICKS
    ensures row.None? <==> picks.None? || |picks.value[PICKS - 1].flows| < 2
    ensures row.Some? ==> row.value.status == BreakFound && row.value.casesOpened == PICKS
  {
    row := None;
    ghost var groups, keys, passes, steps;
    picks, groups, keys, passes, steps := PickWallets(plans);
    if picks.None? {
      return;
    }
    PicksMutate(plans, ext, picks.value, ghosts);
    var ok, ext', injections := InjectAnomalies(ext, picks.value, ghosts);
    if !ok {
      return;
    }
    ExactlyThePicksBreak(plans, ext, ext', picks.value, ghosts);
    hide CleanMirror, MutationFor, FreshGhost, IsCandidate, UpsertAll;
    var engine := new ReconEngine();
    var fs := FindingsOf(plans, ext');
    FreshRunOpensAll(0, date, fs);
    HealedLength(UpsertAll([], 0, date, fs), 0, date, BreakingWallets(fs));
    var id := engine.Run(RunInput(date, true, fs));
    row := Some(engine.runs[id]);
  }
}
