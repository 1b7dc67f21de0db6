/** What the case table means: for every wallet and business date, one case per unbroken streak of
    breaking runs, closed by the run that ended it. */
module CaseStreaks {
  import opened Prelude
  import opened FlowMatching
  import opened ReconDetection
  import opened CaseLifecycle

  // ── The history of one wallet on one date ──

  /** A run that reached the wallets on that date, and what it found at the wallet, if anything. */
  datatype Observation = Observation(id: nat, seen: Option<WalletRun>)

  function SeenAt(fs: seq<Finding>, wallet: nat): Option<WalletRun> {
    if fs == [] then None
    else
      var f := fs[|fs| - 1];
      if f.wallet == wallet && Breaking(f) then f.run else SeenAt(fs[..|fs| - 1], wallet)
  }

  function Observations(history: seq<RunInput>, wallet: nat, date: nat): seq<Observation> {
    if history == [] then []
    else
      var n := |history| - 1;
      Observations(history[..n], wallet, date)
      + (if history[n].identityOk && history[n].date == date
         then [Observation(n, SeenAt(history[n].findings, wallet))] else [])
  }

  // ── Streaks ──

  datatype Streak = Streak(first: nat, last: nat, delta: int, items: seq<LineItem>, closed: Option<nat>)

  function Begin(id: nat, run: WalletRun): Streak {
    Streak(id, id, run.delta, Numbered(Breaks(run.report)), None)
  }

  function Extend(s: Streak, id: nat, run: WalletRun): Streak {
    Streak(s.first, id, run.delta, Numbered(Breaks(run.report)), None)
  }

  predicate Running(ss: seq<Streak>) { ss != [] && ss[|ss| - 1].closed.None? }

  /** The streaks of a history, by definition: a break extends the running streak or begins one,
      a clean run ends the running streak. */
  function Streaks(obs: seq<Observation>): seq<Streak> {
    if obs == [] then []
    else
      var n := |obs| - 1;
      var ss := Streaks(obs[..n]);
      var k := |ss| - 1;
      match obs[n].seen
      case Some(run) =>
        if Running(ss) then ss[k := Extend(ss[k], obs[n].id, run)] else ss + [Begin(obs[n].id, run)]
      case None =>
        if Running(ss) then ss[k := ss[k].(closed := Some(obs[n].id))] else ss
  }

  /** Run ids at which the wallet starts, and stops, breaking. */
  function Starts(obs: seq<Observation>): seq<nat> {
    if obs == [] then []
    else
      var n := |obs| - 1;
      Starts(obs[..n])
      + (if obs[n].seen.Some? && (n == 0 || obs[n - 1].seen.None?) then [obs[n].id] else [])
  }

  function Ends(obs: seq<Observation>): seq<nat> {
    if obs == [] then []
    else
      var n := |obs| - 1;
      Ends(obs[..n])
      + (if obs[n].seen.None? && n > 0 && obs[n - 1].seen.Some? then [obs[n].id] else [])
  }

  function Firsts(ss: seq<Streak>): seq<nat> {
    if ss == [] then [] else Firsts(ss[..|ss| - 1]) + [ss[|ss| - 1].first]
  }

  function Closers(ss: seq<Streak>): seq<nat> {
    if ss == [] then []
    else
      Closers(ss[..|ss| - 1]) + (if ss[|ss| - 1].closed.Some? then [ss[|ss| - 1].closed.value] else [])
  }

  predicate OnlyLastOpen(ss: seq<Streak>) {
    forall i :: 0 <= i < |ss| - 1 ==> ss[i].closed.Some?
  }

  lemma ReplaceLast(ss: seq<Streak>, s: Streak)
    requires ss != []
    ensures ss[|ss| - 1 := s] == ss[..|ss| - 1] + [s]
    ensures (ss[..|ss| - 1] + [s])[..|ss| - 1] == ss[..|ss| - 1]
  {
  }

  lemma AppendLast(ss: seq<Streak>, s: Streak)
    ensures (ss + [s])[..|ss|] == ss
  {
  }

  /** The streaks are the maximal ones: one for every start, all but a running last one closed by
      the run that ended it, and the running one last seen in the latest run. */
  lemma {:induction false} StreaksAreMaximal(obs: seq<Observation>)
    ensures Firsts(Streaks(obs)) == Starts(obs)
    ensures Closers(Streaks(obs)) == Ends(obs)
    ensures OnlyLastOpen(Streaks(obs))
    ensures Running(Streaks(obs)) <==> obs != [] && obs[|obs| - 1].seen.Some?
    ensures Running(Streaks(obs)) ==>
              var o, s := obs[|obs| - 1], Streaks(obs)[|Streaks(obs)| - 1];
              s.last == o.id && s.delta == o.seen.value.delta && s.items == Numbered(Breaks(o.seen.value.report))
  {
    if obs != [] {
      var n := |obs| - 1;
      var ss := Streaks(obs[..n]);
      StreaksAreMaximal(obs[..n]);
      if Running(ss) {
        assert n > 0 && obs[..n][n - 1] == obs[n - 1];
        ReplaceLast(ss, if obs[n].seen.Some? then Extend(ss[|ss| - 1], obs[n].id, obs[n].seen.value)
                        else ss[|ss| - 1].(closed := Some(obs[n].id)));
      } else {
        assert n > 0 ==> obs[..n][n - 1] == obs[n - 1];
        if obs[n].seen.Some? {
          AppendLast(ss, Begin(obs[n].id, obs[n].seen.value));
        }
      }
    }
  }

  // ── The case table holds exactly the streaks ──

  function StreakOf(c: Case): Streak { Streak(c.firstSeen, c.lastObserved, c.delta, c.items, c.closedBy) }

  function Track(cases: seq<Case>, wallet: nat, date: nat): seq<Streak> {
    if cases == [] then []
    else
      (if cases[0].wallet == wallet && cases[0].date == date then [StreakOf(cases[0])] else [])
      + Track(cases[1..], wallet, date)
  }

  lemma {:induction false} TrackAppend(cases: seq<Case>, c: Case, wallet: nat, date: nat)
    ensures Track(cases + [c], wallet, date)
         == Track(cases, wallet, date) + (if c.wallet == wallet && c.date == date then [StreakOf(c)] else [])
  {
    if cases == [] {
      assert [] + [c] == [c] && [c][1..] == [];
    } else {
      assert (cases + [c])[1..] == cases[1..] + [c];
      TrackAppend(cases[1..], c, wallet, date);
    }
  }

  predicate AnyOpen(ss: seq<Streak>) { ss != [] && (ss[0].closed.None? || AnyOpen(ss[1..])) }

  function ExtendFirstOpen(ss: seq<Streak>, id: nat, run: WalletRun): seq<Streak> {
    if ss == [] then []
    else if ss[0].closed.None? then [Extend(ss[0], id, run)] + ss[1..]
    else [ss[0]] + ExtendFirstOpen(ss[1..], id, run)
  }

  function CloseAll(ss: seq<Streak>, id: nat): seq<Streak> {
    if ss == [] then []
    else [if ss[0].closed.None? then ss[0].(closed := Some(id)) else ss[0]] + CloseAll(ss[1..], id)
  }

  lemma {:induction false} OpenShows(cases: seq<Case>, wallet: nat, date: nat)
    ensures HasOpen(cases, wallet, date) <==> AnyOpen(Track(cases, wallet, date))
  {
    if cases != [] {
      OpenShows(cases[1..], wallet, date);
      if cases[0].wallet == wallet && cases[0].date == date {
        assert Track(cases, wallet, date)[1..] == Track(cases[1..], wallet, date);
      } else {
        assert Track(cases, wallet, date) == Track(cases[1..], wallet, date);
      }
    }
  }

  lemma {:induction false} TrackRefreshed(cases: seq<Case>, id: nat, date: nat, w: nat, run: WalletRun, wallet: nat,
      day: nat)
    ensures Track(Refreshed(cases, id, date, w, run), wallet, day)
         == if w == wallet && date == day then ExtendFirstOpen(Track(cases, wallet, day), id, run)
            else Track(cases, wallet, day)
  {
    if cases != [] {
      TrackRefreshed(cases[1..], id, date, w, run, wallet, day);
      var rest := Refreshed(cases[1..], id, date, w, run);
      if OpenFor(cases[0], w, date) {
        assert ([Refresh(cases[0], id, run)] + cases[1..])[1..] == cases[1..];
      } else {
        assert ([cases[0]] + rest)[1..] == rest;
      }
      if cases[0].wallet == wallet && cases[0].date == day {
        assert Track(cases, wallet, day)[1..] == Track(cases[1..], wallet, day);
      } else {
        assert Track(cases, wallet, day) == Track(cases[1..], wallet, day);
      }
    }
  }

  lemma {:induction false} TrackHealed(cases: seq<Case>, id: nat, date: nat, breaking: set<nat>, wallet: nat, day: nat)
    ensures Track(Healed(cases, id, date, breaking), wallet, day)
         == if date == day && wallet !in breaking then CloseAll(Track(cases, wallet, day), id)
            else Track(cases, wallet, day)
  {
    if cases != [] {
      TrackHealed(cases[1..], id, date, breaking, wallet, day);
      var head := if Stale(cases[0], date, breaking) then Close(cases[0], id) else cases[0];
      assert ([head] + Healed(cases[1..], id, date, breaking))[1..] == Healed(cases[1..], id, date, breaking);
      if cases[0].wallet == wallet && cases[0].date == day {
        assert Track(cases, wallet, day)[1..] == Track(cases[1..], wallet, day);
      } else {
        assert Track(cases, wallet, day) == Track(cases[1..], wallet, day);
      }
    }
  }

  /** With at most the last streak open, the first open one is the last. */
  lemma {:induction false} OpenIsRunning(ss: seq<Streak>)
    requires OnlyLastOpen(ss)
    ensures AnyOpen(ss) <==> Running(ss)
  {
    if |ss| > 1 {
      assert forall i :: 0 <= i < |ss[1..]| - 1 ==> ss[1..][i] == ss[i + 1];
      OpenIsRunning(ss[1..]);
    }
  }

  lemma {:induction false} ExtendOne(ss: seq<Streak>, id: nat, run: WalletRun)
    requires OnlyLastOpen(ss) && Running(ss)
    ensures ExtendFirstOpen(ss, id, run) == ss[|ss| - 1 := Extend(ss[|ss| - 1], id, run)]
  {
    if |ss| > 1 {
      assert forall i :: 0 <= i < |ss[1..]| - 1 ==> ss[1..][i] == ss[i + 1];
      ExtendOne(ss[1..], id, run);
    }
  }

  lemma {:induction false} CloseOne(ss: seq<Streak>, id: nat)
    requires OnlyLastOpen(ss)
    ensures CloseAll(ss, id) == if Running(ss) then ss[|ss| - 1 := ss[|ss| - 1].(closed := Some(id))] else ss
  {
    if |ss| > 1 {
      assert forall i :: 0 <= i < |ss[1..]| - 1 ==> ss[1..][i] == ss[i + 1];
      CloseOne(ss[1..], id);
    }
  }

  function Noted(ss: seq<Streak>, id: nat, run: WalletRun): seq<Streak> {
    if AnyOpen(ss) then ExtendFirstOpen(ss, id, run) else ss + [Begin(id, run)]
  }

  lemma TrackUpsert(cases: seq<Case>, id: nat, date: nat, w: nat, run: WalletRun, wallet: nat, day: nat)
    ensures Track(Upsert(cases, id, date, w, run), wallet, day)
         == if w == wallet && date == day then Noted(Track(cases, wallet, day), id, run) else Track(cases, wallet, day)
  {
    OpenShows(cases, w, date);
    TrackRefreshed(cases, id, date, w, run, wallet, day);
    TrackAppend(cases, NewCase(cases, id, date, w, run), wallet, day);
  }

  lemma {:induction false} NotSeen(fs: seq<Finding>, wallet: nat)
    requires forall f :: f in fs ==> f.wallet != wallet
    ensures SeenAt(fs, wallet).None?
  {
    if fs != [] {
      assert fs[|fs| - 1] in fs;
      NotSeen(fs[..|fs| - 1], wallet);
    }
  }

  lemma {:induction false} TrackUpsertAll(cases: seq<Case>, id: nat, date: nat, fs: seq<Finding>, wallet: nat, day: nat)
    requires DistinctWallets(fs)
    ensures Track(UpsertAll(cases, id, date, fs), wallet, day)
         == if date == day && SeenAt(fs, wallet).Some?
             then Noted(Track(cases, wallet, day), id, SeenAt(fs, wallet).value)
            else Track(cases, wallet, day)
  {
    if fs != [] {
      var n := |fs| - 1;
      var f := fs[n];
      TrackUpsertAll(cases, id, date, fs[..n], wallet, day);
      if Breaking(f) {
        TrackUpsert(UpsertAll(cases, id, date, fs[..n]), id, date, f.wallet, f.run.value, wallet, day);
        if f.wallet == wallet {
          NotSeen(fs[..n], wallet);
        }
      }
    }
  }

  lemma {:induction false} BreakingIsSeen(fs: seq<Finding>, wallet: nat)
    ensures wallet in BreakingWallets(fs) <==> SeenAt(fs, wallet).Some?
  {
    if fs != [] {
      BreakingIsSeen(fs[..|fs| - 1], wallet);
    }
  }

  ghost predicate Proper(history: seq<RunInput>) {
    forall r :: r in history ==> DistinctWallets(r.findings)
  }

  lemma OneRun(cases: seq<Case>, id: nat, input: RunInput, wallet: nat, day: nat)
    requires DistinctWallets(input.findings)
    ensures
      var seen, t := SeenAt(input.findings, wallet), Track(cases, wallet, day);
      Track(AfterRun(cases, id, input), wallet, day)
      == if !input.identityOk || input.date != day then t
         else if seen.Some? then Noted(t, id, seen.value) else CloseAll(t, id)
  {
    TrackUpsertAll(cases, id, input.date, input.findings, wallet, day);
    TrackHealed(UpsertAll(cases, id, input.date, input.findings), id, input.date, BreakingWallets(input.findings),
        wallet, day);
    BreakingIsSeen(input.findings, wallet);
  }

  /** Main theorem: after any sequence of runs, the cases of a wallet and a date are its streaks. */
  lemma {:induction false} CasesAreStreaks(history: seq<RunInput>, wallet: nat, date: nat)
    requires Proper(history)
    ensures Track(AfterRuns(history), wallet, date) == Streaks(Observations(history, wallet, date))
  {
    if history != [] {
      var n := |history| - 1;
      var input := history[n];
      assert input in history;
      CasesAreStreaks(history[..n], wallet, date);
      OneRun(AfterRuns(history[..n]), n, input, wallet, date);
      if input.identityOk && input.date == date {
        var prior, o := Observations(history[..n], wallet, date), Observation(n, SeenAt(input.findings, wallet));
        assert (prior + [o])[..|prior|] == prior;
        StreaksAreMaximal(prior);
        OpenIsRunning(Streaks(prior));
        CloseOne(Streaks(prior), n);
        if o.seen.Some? && Running(Streaks(prior)) {
          ExtendOne(Streaks(prior), n, o.seen.value);
        }
      } else {
        assert Observations(history, wallet, date) == Observations(history[..n], wallet, date);
      }
    }
  }

  // ── What that gives ──

  /** The latest run that looked at wallets on that date, if any. */
  function LastOn(history: seq<RunInput>, date: nat): Option<nat> {
    if history == [] then None
    else
      var n := |history| - 1;
      if history[n].identityOk && history[n].date == date then Some(n) else LastOn(history[..n], date)
  }

  lemma {:induction false} LastObservation(history: seq<RunInput>, wallet: nat, date: nat)
    ensures LastOn(history, date).Some? ==> LastOn(history, date).value < |history|
    ensures
      var obs, last := Observations(history, wallet, date), LastOn(history, date);
      if last.None? then obs == []
      else obs != [] && obs[|obs| - 1] == Observation(last.value, SeenAt(history[last.value].findings, wallet))
  {
    if history != [] {
      LastObservation(history[..|history| - 1], wallet, date);
    }
  }

  /** An open case exists for a wallet and a date exactly when the latest run that reached the
      wallets on that date found it breaking: a run stopped by the identity gate and runs of other
      dates do not matter, and a wallet the run skipped counts as recovered. */
  lemma OpenIffLastRunBroke(history: seq<RunInput>, wallet: nat, date: nat)
    requires Proper(history)
    ensures LastOn(history, date).Some? ==> LastOn(history, date).value < |history|
    ensures HasOpen(AfterRuns(history), wallet, date)
       <==> LastOn(history, date).Some? && SeenAt(history[LastOn(history, date).value].findings, wallet).Some?
  {
    var obs := Observations(history, wallet, date);
    CasesAreStreaks(history, wallet, date);
    StreaksAreMaximal(obs);
    OpenShows(AfterRuns(history), wallet, date);
    LastObservation(history, wallet, date);
    OpenIsRunning(Streaks(obs));
  }

  /** Where a case's streak is, with room behind it for every later case. */
  lemma {:induction false} StreakAt(cases: seq<Case>, i: nat, wallet: nat, date: nat) returns (k: nat)
    requires i < |cases| && cases[i].wallet == wallet && cases[i].date == date
    ensures k < |Track(cases, wallet, date)| && Track(cases, wallet, date)[k] == StreakOf(cases[i])
    ensures forall j :: i < j < |cases| && cases[j].wallet == wallet && cases[j].date == date ==>
              k + 1 < |Track(cases, wallet, date)|
  {
    if i == 0 {
      k := 0;
      forall j | 0 < j < |cases| && cases[j].wallet == wallet && cases[j].date == date
        ensures |Track(cases[1..], wallet, date)| > 0
      {
        var m := StreakAt(cases[1..], j - 1, wallet, date);
      }
    } else {
      var m := StreakAt(cases[1..], i - 1, wallet, date);
      k := if cases[0].wallet == wallet && cases[0].date == date then m + 1 else m;
      forall j | i < j < |cases| && cases[j].wallet == wallet && cases[j].date == date
        ensures m + 1 < |Track(cases[1..], wallet, date)|
      {
        assert cases[1..][j - 1] == cases[j];
      }
    }
  }

  /** At most one case of a wallet and date is open. */
  lemma AtMostOneOpen(history: seq<RunInput>, i: nat, j: nat)
    requires Proper(history) && i < j < |AfterRuns(history)|
    requires var a, b := AfterRuns(history)[i], AfterRuns(history)[j]; a.wallet == b.wallet && a.date == b.date
    ensures !AfterRuns(history)[i].IsOpen()
  {
    var cases := AfterRuns(history);
    var wallet, date := cases[i].wallet, cases[i].date;
    var k := StreakAt(cases, i, wallet, date);
    assert cases[j].wallet == wallet && cases[j].date == date;
    CasesAreStreaks(history, wallet, date);
    StreaksAreMaximal(Observations(history, wallet, date));
  }

  /** Running the engine again over unchanged findings opens nothing, closes nothing and keeps who
      saw each break first; it only moves the last observer. */
  lemma RepeatOnlyMovesLast(history: seq<RunInput>, wallet: nat, date: nat)
    requires Proper(history) && history != []
    requires history[|history| - 1].identityOk && history[|history| - 1].date == date
    ensures
      var again := history + [history[|history| - 1]];
      var before, after := Track(AfterRuns(history), wallet, date), Track(AfterRuns(again), wallet, date);
      && |after| == |before|
      && (Running(before) ==> after == before[|before| - 1 := before[|before| - 1].(last := |history|)])
      && (!Running(before) ==> after == before)
  {
    var n := |history| - 1;
    var input := history[n];
    var again := history + [input];
    assert again[..|history|] == history && input in history;
    assert Proper(again);
    var prior := Observations(history[..n], wallet, date);
    var seen := SeenAt(input.findings, wallet);
    var obs := prior + [Observation(n, seen)];
    assert Observations(history, wallet, date) == obs;
    assert Observations(again, wallet, date) == obs + [Observation(n + 1, seen)];
    assert (obs + [Observation(n + 1, seen)])[..|obs|] == obs;
    CasesAreStreaks(history, wallet, date);
    CasesAreStreaks(again, wallet, date);
    StreaksAreMaximal(obs);
  }

  // ── Bookkeeping fields ──

  /** Who opened, saw first and last touched a case agree with its streak. */
  predicate Coherent(c: Case) {
    && c.openedBy == c.firstSeen && c.severity == ComputeSeverity(c.delta)
    && c.lastUpdated == (if c.closedBy.Some? then c.closedBy.value else c.lastObserved)
  }

  ghost predicate AllCoherent(cases: seq<Case>) {
    forall c :: c in cases ==> Coherent(c)
  }

  /** Case numbers of one date, in table order. */
  function Numbers(cases: seq<Case>, date: nat): seq<nat> {
    if cases == [] then []
    else (if cases[0].date == date then [cases[0].seqNo] else []) + Numbers(cases[1..], date)
  }

  predicate Consecutive(s: seq<nat>) { forall k :: 0 <= k < |s| ==> s[k] == k + 1 }

  lemma {:induction false} NumbersAppend(cases: seq<Case>, c: Case, date: nat)
    ensures Numbers(cases + [c], date) == Numbers(cases, date) + (if c.date == date then [c.seqNo] else [])
    ensures |Numbers(cases, date)| == CountOn(cases, date)
  {
    if cases == [] {
      assert [] + [c] == [c] && [c][1..] == [];
    } else {
      assert (cases + [c])[1..] == cases[1..] + [c];
      NumbersAppend(cases[1..], c, date);
    }
  }

  lemma {:induction false} RefreshedKeeps(cases: seq<Case>, id: nat, date: nat, wallet: nat, run: WalletRun, day: nat)
    ensures Numbers(Refreshed(cases, id, date, wallet, run), day) == Numbers(cases, day)
    ensures AllCoherent(cases) ==> AllCoherent(Refreshed(cases, id, date, wallet, run))
  {
    if cases != [] {
      RefreshedKeeps(cases[1..], id, date, wallet, run, day);
      var head := if OpenFor(cases[0], wallet, date) then Refresh(cases[0], id, run) else cases[0];
      var rest := if OpenFor(cases[0], wallet, date) then cases[1..] else Refreshed(cases[1..], id, date, wallet, run);
      assert ([head] + rest)[1..] == rest;
      if AllCoherent(cases) {
        assert forall c :: c in cases[1..] ==> c in cases;
        assert Coherent(cases[0]);
      }
    }
  }

  lemma {:induction false} HealedKeeps(cases: seq<Case>, id: nat, date: nat, breaking: set<nat>, day: nat)
    ensures Numbers(Healed(cases, id, date, breaking), day) == Numbers(cases, day)
    ensures AllCoherent(cases) ==> AllCoherent(Healed(cases, id, date, breaking))
  {
    if cases != [] {
      HealedKeeps(cases[1..], id, date, breaking, day);
      var head := if Stale(cases[0], date, breaking) then Close(cases[0], id) else cases[0];
      var rest := Healed(cases[1..], id, date, breaking);
      assert ([head] + rest)[1..] == rest;
      if AllCoherent(cases) {
        assert forall c :: c in cases[1..] ==> c in cases;
        assert Coherent(cases[0]);
      }
    }
  }

  lemma {:induction false} UpsertAllKeeps(cases: seq<Case>, id: nat, date: nat, fs: seq<Finding>, day: nat)
    requires AllCoherent(cases) && Consecutive(Numbers(cases, day))
    ensures AllCoherent(UpsertAll(cases, id, date, fs)) && Consecutive(Numbers(UpsertAll(cases, id, date, fs), day))
  {
    if fs != [] {
      var f := fs[|fs| - 1];
      UpsertAllKeeps(cases, id, date, fs[..|fs| - 1], day);
      var prior := UpsertAll(cases, id, date, fs[..|fs| - 1]);
      if Breaking(f) {
        RefreshedKeeps(prior, id, date, f.wallet, f.run.value, day);
        NumbersAppend(prior, NewCase(prior, id, date, f.wallet, f.run.value), day);
      }
    }
  }

  /** Every case agrees with its streak, and the cases of a date are numbered 1, 2, 3, … */
  lemma {:induction false} BookkeepingHolds(history: seq<RunInput>, date: nat)
    ensures AllCoherent(AfterRuns(history)) && Consecutive(Numbers(AfterRuns(history), date))
  {
    if history != [] {
      var n := |history| - 1;
      BookkeepingHolds(history[..n], date);
      var prior := AfterRuns(history[..n]);
      UpsertAllKeeps(prior, n, history[n].date, history[n].findings, date);
      HealedKeeps(UpsertAll(prior, n, history[n].date, history[n].findings), n, history[n].date,
                  BreakingWallets(history[n].findings), date);
    }
  }
}
