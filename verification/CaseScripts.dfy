/** The two case-lifecycle scripts: running the engine again over the same break, and realigning
    the closing balances of open cases before a run. */
module CaseScripts {
  import opened Prelude
  import opened FlowMatching
  import opened ReconInjection
  import opened ReconDetection
  import opened CaseLifecycle
  import opened CaseRules
  import opened CaseStreaks
  import opened ReconRuns

  // ── Running again ──

  /** The same cases, opened by the same runs; the open one last seen by run `last`. */
  predicate OnlyLastMoved(before: seq<Streak>, after: seq<Streak>, last: nat) {
    after == if Running(before) then before[|before| - 1 := before[|before| - 1].(last := last)] else before
  }

  ghost predicate OnlyLastsMoved(before: seq<Case>, after: seq<Case>, date: nat, last: nat) {
    forall w :: OnlyLastMoved(Track(before, w, date), Track(after, w, date), last)
  }

  lemma MovedAgain(ss: seq<Streak>, mid: seq<Streak>, after: seq<Streak>, k: nat, l: nat)
    requires OnlyLastMoved(ss, mid, k) && OnlyLastMoved(mid, after, l)
    ensures OnlyLastMoved(ss, after, l)
  {
  }

  lemma AgainStep(history: seq<RunInput>, after: seq<RunInput>, input: RunInput)
    requires after != [] && after[|after| - 1] == input && input.identityOk && Proper(after)
    requires after == history || OnlyLastsMoved(AfterRuns(history), AfterRuns(after), input.date, |after| - 1)
    ensures var again := after + [input];
      && again[|again| - 1] == input && Proper(again) && CaseLifecycle.DistinctWallets(input.findings)
      && AfterRuns(again) == AfterRun(AfterRuns(after), |after|, input)
      && OnlyLastsMoved(AfterRuns(history), AfterRuns(again), input.date, |after|)
  {
    var again := after + [input];
    assert again[..|after|] == after && input in after;
    assert AfterRuns(again) == AfterRun(AfterRuns(after), |after|, input);
    hide AfterRuns, AfterRun;
    forall w ensures OnlyLastMoved(Track(AfterRuns(history), w, input.date), Track(AfterRuns(again), w, input.date),
        |after|) {
      RepeatOnlyMovesLast(after, w, input.date);
      if after != history {
        MovedAgain(Track(AfterRuns(history), w, input.date), Track(AfterRuns(after), w, input.date),
                   Track(AfterRuns(again), w, input.date), |after| - 1, |after|);
      }
    }
  }

  /** The idempotency script: however often the engine runs over the same state, no case is added
      or closed, first observers stay, and the last observer is the last run. */
  method RunAgain(engine: ReconEngine, ghost history: seq<RunInput>, input: RunInput, times: nat)
    returns (ids: seq<nat>, ghost after: seq<RunInput>)
    requires history != [] && history[|history| - 1] == input && input.identityOk && Proper(history)
    requires engine.cases == AfterRuns(history) && |engine.runs| == |history|
    requires times > 0
    modifies engine
    ensures |ids| == times && forall k :: 0 <= k < times ==> ids[k] == |history| + k
    ensures Proper(after) && |after| == |history| + times && engine.cases == AfterRuns(after)
    ensures OnlyLastsMoved(AfterRuns(history), engine.cases, input.date, ids[times - 1])
  {
    hide BreakingWallets, OpenCount, FoundBreaking;
    ids, after := [], history;
    assert input in history;
    for i := 0 to times
      invariant |ids| == i && forall k :: 0 <= k < i ==> ids[k] == |history| + k
      invariant |after| == |history| + i == |engine.runs| && after[|after| - 1] == input && Proper(after)
      invariant engine.cases == AfterRuns(after)
      invariant i == 0 ==> after == history
      invariant i > 0 ==> OnlyLastsMoved(AfterRuns(history), AfterRuns(after), input.date, |after| - 1)
    {
      hide AfterRuns, AfterRun, OnlyLastsMoved;
      AgainStep(history, after, input);
      var id := engine.Run(input);
      ids := ids + [id];
      after := after + [input];
    }
  }

  // ── Realigning ──

  /** Sets the statement's closing balance to the internal total. */
  function Realigned(s: Statement, total: int): Statement { s.(closing := total) }

  /** After realigning, the next run closes the wallet's case exactly when its flows match cleanly:
      the closing balance repairs the balance check and nothing else. */
  lemma RealignHealsIffFlowsClean(
      history: seq<RunInput>, input: RunInput, wallet: nat, windowMs: nat, flows: seq<Entry>, total: int, s: Statement)
    requires Proper(history + [input]) && input.identityOk
    requires Finding(wallet, Some(Check(windowMs, flows, total, Realigned(s, total)))) in input.findings
    ensures HasOpen(AfterRuns(history + [input]), wallet, input.date) <==> !Clean(Match(windowMs, flows, s.lines))
  {
    var all := history + [input];
    assert all[|all| - 1] == input && input in all;
    OpenIffLastRunBroke(all, wallet, input.date);
    SeenFinding(input.findings, Finding(wallet, Some(Check(windowMs, flows, total, Realigned(s, total)))));
  }

  lemma {:induction false} SeenFinding(fs: seq<Finding>, f: Finding)
    requires CaseLifecycle.DistinctWallets(fs) && f in fs
    ensures SeenAt(fs, f.wallet) == if Breaking(f) then f.run else None
  {
    var n := |fs| - 1;
    if fs[n] == f {
      forall g | g in fs[..n] ensures g.wallet != f.wallet {
        var k :| 0 <= k < n && fs[k] == g;
      }
      NotSeen(fs[..n], f.wallet);
    } else {
      assert f in fs[..n];
      SeenFinding(fs[..n], f);
    }
  }

  /** Each of the five injected anomalies leaves something unmatched, so realigning the closing
      balances after a break run heals none of the injected wallets. */
  lemma InjectedWalletsStayOpen(
      history: seq<RunInput>, input: RunInput, wallet: nat, windowMs: nat, flows: seq<Entry>, total: int, s: Statement,
      inj: Injected)
    requires Proper(history + [input]) && input.identityOk
    requires Finding(wallet, Some(Check(windowMs, flows, total, Realigned(s, total)))) in input.findings
    requires Hit(inj, Check(windowMs, flows, total, s))
    ensures HasOpen(AfterRuns(history + [input]), wallet, input.date)
  {
    RealignHealsIffFlowsClean(history, input, wallet, windowMs, flows, total, s);
  }
}
