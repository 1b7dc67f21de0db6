/** The reconciliation run as it executes: the run and case tables are updated in place, wallet by
    wallet, and stale cases are closed at the end. */
module ReconRuns {
  import opened Prelude
  import opened FlowMatching
  import opened ReconDetection
  import opened CaseLifecycle
  import opened CaseStreaks
  import opened CaseRules

  datatype RunStatus = Passing | BreakFound | InternalBreak

  datatype RunRow = RunRow(
    date: nat, status: RunStatus, walletsChecked: nat, casesOpened: nat, casesReObserved: nat, casesAutoHealed: nat)

  function OpenCount(cases: seq<Case>): nat {
    if cases == [] then 0 else (if cases[0].IsOpen() then 1 else 0) + OpenCount(cases[1..])
  }

  lemma RefreshedAt(cases: seq<Case>, i: nat, id: nat, date: nat, wallet: nat, run: WalletRun)
    requires i < |cases| && OpenFor(cases[i], wallet, date)
    requires forall j :: 0 <= j < i ==> !OpenFor(cases[j], wallet, date)
    ensures HasOpen(cases, wallet, date)
    ensures Refreshed(cases, id, date, wallet, run) == cases[i := Refresh(cases[i], id, run)]
  {
    if i > 0 {
      RefreshedAt(cases[1..], i - 1, id, date, wallet, run);
    }
  }

  lemma NothingOpen(cases: seq<Case>, wallet: nat, date: nat)
    requires forall j :: 0 <= j < |cases| ==> !OpenFor(cases[j], wallet, date)
    ensures !HasOpen(cases, wallet, date)
  {
    if cases != [] {
      NothingOpen(cases[1..], wallet, date);
    }
  }

  lemma CountSnoc(cases: seq<Case>, c: Case, date: nat)
    ensures CountOn(cases + [c], date) == CountOn(cases, date) + (if c.date == date then 1 else 0)
  {
    if cases == [] {
      assert [] + [c] == [c] && [c][1..] == [];
    } else {
      assert (cases + [c])[1..] == cases[1..] + [c];
      CountSnoc(cases[1..], c, date);
    }
  }

  lemma HealedSplit(a: seq<Case>, b: seq<Case>, id: nat, date: nat, breaking: set<nat>)
    ensures Healed(a + b, id, date, breaking) == Healed(a, id, date, breaking) + Healed(b, id, date, breaking)
  {
    if a == [] {
      assert a + b == b;
    } else {
      assert (a + b)[1..] == a[1..] + b;
      HealedSplit(a[1..], b, id, date, breaking);
    }
  }

  lemma OpenSplit(a: seq<Case>, b: seq<Case>)
    ensures OpenCount(a + b) == OpenCount(a) + OpenCount(b)
  {
    if a == [] {
      assert a + b == b;
    } else {
      assert (a + b)[1..] == a[1..] + b;
      OpenSplit(a[1..], b);
    }
  }

  lemma NumberedNext(before: seq<Break>, some: seq<Break>, b: Break)
    ensures Numbered(before + (some + [b])) == Numbered(before + some) + [LineItem(|before + some| + 1, b)]
  {
    assert before + (some + [b]) == before + some + [b];
    assert (before + some + [b])[..|before + some|] == before + some;
  }

  method AddFlows(items0: seq<LineItem>, ghost before: seq<Break>, flows: seq<Entry>) returns (items: seq<LineItem>)
    requires items0 == Numbered(before)
    ensures items == Numbered(before + FlowBreaks(flows))
  {
    items := items0;
    assert before + FlowBreaks(flows[..0]) == before;
    for i := 0 to |flows|
      invariant items == Numbered(before + FlowBreaks(flows[..i]))
    {
      NumberedNext(before, FlowBreaks(flows[..i]), OrphanFlow(flows[i]));
      assert flows[..i + 1][..i] == flows[..i];
      items := items + [LineItem(|items| + 1, OrphanFlow(flows[i]))];
    }
    assert flows[..|flows|] == flows;
  }

  method AddLines(items0: seq<LineItem>, ghost before: seq<Break>, lines: seq<Entry>) returns (items: seq<LineItem>)
    requires items0 == Numbered(before)
    ensures items == Numbered(before + LineBreaks(lines))
  {
    items := items0;
    assert before + LineBreaks(lines[..0]) == before;
    for i := 0 to |lines|
      invariant items == Numbered(before + LineBreaks(lines[..i]))
    {
      NumberedNext(before, LineBreaks(lines[..i]), OrphanLine(lines[i]));
      assert lines[..i + 1][..i] == lines[..i];
      items := items + [LineItem(|items| + 1, OrphanLine(lines[i]))];
    }
    assert lines[..|lines|] == lines;
  }

  method AddPairs(items0: seq<LineItem>, ghost before: seq<Break>, pairs: seq<Pair>) returns (items: seq<LineItem>)
    requires items0 == Numbered(before)
    ensures items == Numbered(before + PairBreaks(pairs))
  {
    items := items0;
    assert before + PairBreaks(pairs[..0]) == before;
    for i := 0 to |pairs|
      invariant items == Numbered(before + PairBreaks(pairs[..i]))
    {
      NumberedNext(before, PairBreaks(pairs[..i]), Mismatch(pairs[i]));
      assert pairs[..i + 1][..i] == pairs[..i];
      items := items + [LineItem(|items| + 1, Mismatch(pairs[i]))];
    }
    assert pairs[..|pairs|] == pairs;
  }

  class ReconEngine {
    var runs: seq<RunRow>
    var cases: seq<Case>

    constructor ()
      ensures runs == [] && cases == AfterRuns([])
    {
      runs, cases := [], [];
    }

    /** `writeLineItems`: orphan flows, orphan lines, mismatches, numbered through. */
    method WriteLineItems(r: Report) returns (items: seq<LineItem>)
      ensures items == Numbered(Breaks(r))
    {
      items := AddFlows([], [], r.orphanFlows);
      items := AddLines(items, [] + FlowBreaks(r.orphanFlows), r.orphanLines);
      items := AddPairs(items, [] + FlowBreaks(r.orphanFlows) + LineBreaks(r.orphanLines), r.mismatch);
      assert [] + FlowBreaks(r.orphanFlows) == FlowBreaks(r.orphanFlows);
    }

    /** `upsertCaseForWallet`. */
    method UpsertCaseForWallet(id: nat, date: nat, wallet: nat, run: WalletRun) returns (created: bool)
      modifies this`cases
      ensures cases == Upsert(old(cases), id, date, wallet, run)
      ensures created == !HasOpen(old(cases), wallet, date)
    {
      var items := WriteLineItems(run.report);
      var count := 0;
      for i := 0 to |cases|
        invariant cases == old(cases)
        invariant forall j :: 0 <= j < i ==> !OpenFor(cases[j], wallet, date)
        invariant count == CountOn(cases[..i], date)
      {
        if OpenFor(cases[i], wallet, date) {
          RefreshedAt(cases, i, id, date, wallet, run);
          cases := cases[i := cases[i].(delta := run.delta, severity := ComputeSeverity(run.delta),
                                        lastObserved := id, lastUpdated := id, items := items)];
          return false;
        }
        assert cases[..i + 1] == cases[..i] + [cases[i]];
        CountSnoc(cases[..i], cases[i], date);
        count := if cases[i].date == date then count + 1 else count;
      }
      assert cases[..|cases|] == cases;
      NothingOpen(cases, wallet, date);
      cases := cases + [Case(count + 1, wallet, date, run.delta, ComputeSeverity(run.delta), items, id, id, id, id,
          None)];
      return true;
    }

    /** `autoHealCases`. */
    method AutoHealCases(id: nat, date: nat, breaking: set<nat>) returns (closed: nat)
      modifies this`cases
      ensures cases == Healed(old(cases), id, date, breaking)
      ensures OpenCount(cases) + closed == OpenCount(old(cases))
    {
      closed := 0;
      ghost var before := cases;
      for i := 0 to |cases|
        invariant |cases| == |before| && cases[i..] == before[i..]
        invariant cases[..i] == Healed(before[..i], id, date, breaking)
        invariant OpenCount(cases[..i]) + closed == OpenCount(before[..i])
      {
        var c := cases[i];
        ghost var prefix := cases[..i];
        assert c == before[i..][0];
        if c.IsOpen() && c.date == date && c.wallet !in breaking {
          cases := cases[i := c.(lastUpdated := id, closedBy := Some(id))];
          closed := closed + 1;
        }
        assert cases[..i + 1] == prefix + [cases[i]] && before[..i + 1] == before[..i] + [before[i]];
        HealedSplit(before[..i], [before[i]], id, date, breaking);
        assert Healed([before[i]], id, date, breaking) == [cases[i]] by {
          assert [before[i]][1..] == [];
        }
        OpenSplit(prefix, [cases[i]]);
        OpenSplit(before[..i], [before[i]]);
        assert [cases[i]][1..] == [] && [before[i]][1..] == [];
      }
      assert cases[..|cases|] == cases && before[..|before|] == before;
    }

    /** `run`: the run row first, then the identity gate, every wallet, and the healing. */
    method Run(input: RunInput) returns (id: nat)
      requires DistinctWallets(input.findings)
      modifies this
      ensures id == |old(runs)| && |runs| == id + 1 && runs[..id] == old(runs)
      ensures cases == AfterRun(old(cases), id, input)
      ensures runs[id].date == input.date && (runs[id].status == InternalBreak <==> !input.identityOk)
      ensures runs[id].status == BreakFound <==> input.identityOk && BreakingWallets(input.findings) != {}
      ensures runs[id].status == BreakFound
         <==> input.identityOk && exists wallet, run :: FoundBreaking(input.findings, wallet, run)
      ensures runs[id].walletsChecked == if input.identityOk then |input.findings| else 0
      ensures runs[id].casesOpened + runs[id].casesReObserved
           == if input.identityOk then |BreakingWallets(input.findings)| else 0
      ensures |cases| == |old(cases)| + runs[id].casesOpened
      ensures OpenCount(cases) + runs[id].casesAutoHealed == OpenCount(old(cases)) + runs[id].casesOpened
    {
      hide FoundBreaking;
      SomeBreakMeans(input.findings);
      id := |runs|;
      if !input.identityOk {
        runs := runs + [RunRow(input.date, InternalBreak, 0, 0, 0, 0)];
        return;
      }
      var newCases, reObserved, breaking := CheckWallets(id, input.date, input.findings);
      var closed := AutoHealCases(id, input.date, breaking);
      HealedLength(UpsertAll(old(cases), id, input.date, input.findings), id, input.date, breaking);
      var status := if newCases + reObserved > 0 then BreakFound else Passing;
      runs := runs + [RunRow(input.date, status, |input.findings|, newCases, reObserved, closed)];
    }

    method CheckWallets(id: nat, date: nat, fs: seq<Finding>)
      returns (newCases: nat, reObserved: nat, breaking: set<nat>)
      requires DistinctWallets(fs)
      modifies this`cases
      ensures cases == UpsertAll(old(cases), id, date, fs) && breaking == BreakingWallets(fs)
      ensures newCases + reObserved == |breaking|
      ensures |cases| == |old(cases)| + newCases && OpenCount(cases) == OpenCount(old(cases)) + newCases
    {
      newCases, reObserved, breaking := 0, 0, {};
      for i := 0 to |fs|
        invariant cases == UpsertAll(old(cases), id, date, fs[..i]) && breaking == BreakingWallets(fs[..i])
        invariant newCases + reObserved == |breaking|
        invariant |cases| == |old(cases)| + newCases && OpenCount(cases) == OpenCount(old(cases)) + newCases
      {
        var f := fs[i];
        assert fs[..i + 1][..i] == fs[..i];
        if f.run.None? {
          continue;
        }
        if f.run.value.delta != 0 || !Clean(f.run.value.report) {
          UpsertCounts(cases, id, date, f.wallet, f.run.value);
          NewBreaking(fs, i);
          var created := UpsertCaseForWallet(id, date, f.wallet, f.run.value);
          if created {
            newCases := newCases + 1;
          } else {
            reObserved := reObserved + 1;
          }
          breaking := breaking + {f.wallet};
        }
      }
      assert fs[..|fs|] == fs;
    }
  }

  lemma {:induction false} HealedLength(cases: seq<Case>, id: nat, date: nat, breaking: set<nat>)
    ensures |Healed(cases, id, date, breaking)| == |cases|
  {
    if cases != [] {
      HealedLength(cases[1..], id, date, breaking);
    }
  }

  lemma {:induction false} RefreshedCounts(cases: seq<Case>, id: nat, date: nat, wallet: nat, run: WalletRun)
    ensures |Refreshed(cases, id, date, wallet, run)| == |cases|
    ensures OpenCount(Refreshed(cases, id, date, wallet, run)) == OpenCount(cases)
  {
    if cases != [] {
      RefreshedCounts(cases[1..], id, date, wallet, run);
    }
  }

  lemma UpsertCounts(cases: seq<Case>, id: nat, date: nat, wallet: nat, run: WalletRun)
    ensures
      var n: nat := if HasOpen(cases, wallet, date) then 0 else 1;
      var after := Upsert(cases, id, date, wallet, run);
      |after| == |cases| + n && OpenCount(after) == OpenCount(cases) + n
  {
    RefreshedCounts(cases, id, date, wallet, run);
    var c := NewCase(cases, id, date, wallet, run);
    OpenSplit(cases, [c]);
    assert [c][1..] == [];
  }

  lemma NewBreaking(fs: seq<Finding>, i: nat)
    requires DistinctWallets(fs) && i < |fs|
    ensures fs[i].wallet !in BreakingWallets(fs[..i])
  {
    BreakingIsSeen(fs[..i], fs[i].wallet);
    forall f | f in fs[..i] ensures f.wallet != fs[i].wallet {
      var k :| 0 <= k < i && fs[k] == f;
    }
    NotSeen(fs[..i], fs[i].wallet);
  }
}
