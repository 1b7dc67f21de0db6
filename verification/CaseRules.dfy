/** What one engine run does to the case table, row by row: which cases it refreshes, which it
    closes, which it leaves alone, which it adds, and what it writes into them. */
module CaseRules {
  import opened Prelude
  import opened FlowMatching
  import opened ReconDetection
  import opened CaseLifecycle
  import opened CaseStreaks

  // ── What is written ──

  lemma SeverityMeans(delta: int)
    ensures ComputeSeverity(delta) == High <==> delta >= 10_000 || delta <= -10_000
    ensures ComputeSeverity(delta) == Medium <==> 100 <= delta < 10_000 || -10_000 < delta <= -100
    ensures ComputeSeverity(delta) == Low <==> -100 < delta < 100
  {
  }

  lemma {:induction false} NumberedMeans(breaks: seq<Break>, k: nat)
    requires k < |breaks|
    ensures Numbered(breaks)[k] == LineItem(k + 1, breaks[k])
  {
    if k < |breaks| - 1 {
      NumberedMeans(breaks[..|breaks| - 1], k);
    }
  }

  lemma {:induction false} FlowBreaksMean(s: seq<Entry>)
    ensures |FlowBreaks(s)| == |s| && forall k :: 0 <= k < |s| ==> FlowBreaks(s)[k] == OrphanFlow(s[k])
  {
    if s != [] {
      FlowBreaksMean(s[..|s| - 1]);
    }
  }

  lemma {:induction false} LineBreaksMean(s: seq<Entry>)
    ensures |LineBreaks(s)| == |s| && forall k :: 0 <= k < |s| ==> LineBreaks(s)[k] == OrphanLine(s[k])
  {
    if s != [] {
      LineBreaksMean(s[..|s| - 1]);
    }
  }

  lemma {:induction false} PairBreaksMean(s: seq<Pair>)
    ensures |PairBreaks(s)| == |s| && forall k :: 0 <= k < |s| ==> PairBreaks(s)[k] == Mismatch(s[k])
  {
    if s != [] {
      PairBreaksMean(s[..|s| - 1]);
    }
  }

  /** The line items of a report: its orphan flows, then its orphan lines, then its mismatches, each
      in order, numbered from 1. */
  predicate Itemizes(items: seq<LineItem>, r: Report) {
    var m, n := |r.orphanFlows|, |r.orphanFlows| + |r.orphanLines|;
    && |items| == n + |r.mismatch|
    && (forall k :: 0 <= k < |items| ==> items[k].lineNo == k + 1)
    && (forall k :: 0 <= k < m ==> items[k].what == OrphanFlow(r.orphanFlows[k]))
    && (forall k :: m <= k < n ==> items[k].what == OrphanLine(r.orphanLines[k - m]))
    && (forall k :: n <= k < |items| ==> items[k].what == Mismatch(r.mismatch[k - n]))
  }

  lemma ItemsMean(r: Report)
    ensures Itemizes(Numbered(Breaks(r)), r)
  {
    FlowBreaksMean(r.orphanFlows);
    LineBreaksMean(r.orphanLines);
    PairBreaksMean(r.mismatch);
    var breaks := Breaks(r);
    forall k | 0 <= k < |breaks| ensures Numbered(breaks)[k] == LineItem(k + 1, breaks[k]) {
      NumberedMeans(breaks, k);
    }
  }

  // ── What a run found ──

  /** The run looked at the wallet and found its balance off, or a break. */
  ghost predicate FoundBreaking(fs: seq<Finding>, wallet: nat, run: WalletRun) {
    && Finding(wallet, Some(run)) in fs
    && (run.delta != 0 || run.report.orphanFlows != [] || run.report.orphanLines != [] || run.report.mismatch != [])
  }

  lemma {:induction false} SeenMeans(fs: seq<Finding>, wallet: nat, run: WalletRun)
    requires DistinctWallets(fs)
    ensures SeenAt(fs, wallet) == Some(run) <==> FoundBreaking(fs, wallet, run)
  {
    if fs != [] {
      var n := |fs| - 1;
      SeenMeans(fs[..n], wallet, run);
      assert fs == fs[..n] + [fs[n]];
      if fs[n].wallet == wallet && Breaking(fs[n]) {
        forall f | f in fs[..n] ensures f.wallet != wallet {
          var k :| 0 <= k < n && fs[k] == f;
        }
      }
    }
  }

  lemma NotSeenMeans(fs: seq<Finding>, wallet: nat)
    requires DistinctWallets(fs)
    ensures SeenAt(fs, wallet).None? <==> forall run :: !FoundBreaking(fs, wallet, run)
  {
    hide FoundBreaking;
    forall run ensures SeenAt(fs, wallet) == Some(run) <==> FoundBreaking(fs, wallet, run) {
      SeenMeans(fs, wallet, run);
    }
  }

  lemma SomeBreakMeans(fs: seq<Finding>)
    requires DistinctWallets(fs)
    ensures BreakingWallets(fs) != {} <==> exists wallet, run :: FoundBreaking(fs, wallet, run)
  {
    hide FoundBreaking, BreakingWallets, SeenAt;
    if wallet :| wallet in BreakingWallets(fs) {
      BreakingIsSeen(fs, wallet);
      SeenMeans(fs, wallet, SeenAt(fs, wallet).value);
      assert FoundBreaking(fs, wallet, SeenAt(fs, wallet).value);
    }
    if wallet, run :| FoundBreaking(fs, wallet, run) {
      SeenMeans(fs, wallet, run);
      BreakingIsSeen(fs, wallet);
    }
  }

  // ── What a run does to the cases of one wallet and date ──

  lemma OneMoreRun(history: seq<RunInput>, input: RunInput, wallet: nat, date: nat)
    requires Proper(history + [input])
    ensures Proper(history) && DistinctWallets(input.findings)
    ensures OnlyLastOpen(Track(AfterRuns(history), wallet, date))
    ensures AfterRuns(history + [input]) == AfterRun(AfterRuns(history), |history|, input)
  {
    assert forall r :: r in history ==> r in history + [input];
    assert input in history + [input];
    assert (history + [input])[..|history|] == history;
    CasesAreStreaks(history, wallet, date);
    StreaksAreMaximal(Observations(history, wallet, date));
  }

  /** A run stopped by the identity gate, and a run of another date, leave the cases alone. */
  lemma OtherRunsAreIdle(history: seq<RunInput>, input: RunInput, wallet: nat, date: nat)
    requires Proper(history + [input]) && (!input.identityOk || input.date != date)
    ensures Track(AfterRuns(history + [input]), wallet, date) == Track(AfterRuns(history), wallet, date)
  {
    OneMoreRun(history, input, wallet, date);
    OneRun(AfterRuns(history), |history|, input, wallet, date);
  }

  /** A run that finds the wallet breaking refreshes its open case, which keeps its opener, or opens
      one; either way the case is open and shows this run, its delta and its items. */
  lemma BreakIsNoted(history: seq<RunInput>, input: RunInput, wallet: nat, run: WalletRun)
      returns (items: seq<LineItem>)
    requires Proper(history + [input]) && input.identityOk && FoundBreaking(input.findings, wallet, run)
    ensures Itemizes(items, run.report)
    ensures
      var n, date := |history|, input.date;
      var before, after := Track(AfterRuns(history), wallet, date), Track(AfterRuns(history + [input]), wallet, date);
      if before != [] && before[|before| - 1].closed == None then
        after == before[|before| - 1 := Streak(before[|before| - 1].first, n, run.delta, items, None)]
      else after == before + [Streak(n, n, run.delta, items, None)]
  {
    hide AfterRuns, AfterRun, Track, Itemizes;
    var before := Track(AfterRuns(history), wallet, input.date);
    OneMoreRun(history, input, wallet, input.date);
    OneRun(AfterRuns(history), |history|, input, wallet, input.date);
    SeenMeans(input.findings, wallet, run);
    OpenIsRunning(before);
    if Running(before) {
      ExtendOne(before, |history|, run);
    }
    items := Numbered(Breaks(run.report));
    ItemsMean(run.report);
  }

  /** A run that does not closes its open case, and changes nothing else of it. */
  lemma RecoveryIsNoted(history: seq<RunInput>, input: RunInput, wallet: nat)
    requires Proper(history + [input]) && input.identityOk
    requires forall run :: !FoundBreaking(input.findings, wallet, run)
    ensures
      var n, date := |history|, input.date;
      var before, after := Track(AfterRuns(history), wallet, date), Track(AfterRuns(history + [input]), wallet, date);
      if before != [] && before[|before| - 1].closed == None then
        after == before[|before| - 1 := before[|before| - 1].(closed := Some(n))]
      else after == before
  {
    hide AfterRuns, AfterRun, Track, FoundBreaking;
    OneMoreRun(history, input, wallet, input.date);
    OneRun(AfterRuns(history), |history|, input, wallet, input.date);
    NotSeenMeans(input.findings, wallet);
    CloseOne(Track(AfterRuns(history), wallet, input.date), |history|);
  }

  /** What every case shows besides its streak. */
  lemma CasesShow(history: seq<RunInput>, c: Case)
    requires c in AfterRuns(history)
    ensures c.openedBy == c.firstSeen
    ensures c.lastUpdated == if c.closedBy.Some? then c.closedBy.value else c.lastObserved
    ensures c.severity == High <==> c.delta >= 10_000 || c.delta <= -10_000
    ensures c.severity == Low <==> -100 < c.delta < 100
  {
    BookkeepingHolds(history, c.date);
    SeverityMeans(c.delta);
  }
}
