/** What the matcher and the balance check report about each injected anomaly, and when the
    answer key counts it as detected. */
module ReconDetection {
  import opened Prelude
  import opened FlowMatching
  import opened MirrorMatching
  import opened MirrorOrder
  import opened ReconInjection

  // ── With unique references the reference pass is a join ──

  predicate Shares(x: Entry, y: Entry) { HasRef(x) && x.ref == y.ref }

  ghost predicate UniqueRefs(s: seq<Entry>) {
    forall x, y {:trigger Shares(x, y)} :: x in s && y in s && Shares(x, y) ==> x == y
  }

  lemma OneRef(s: seq<Entry>, x: Entry, y: Entry)
    requires UniqueRefs(s) && x in s && y in s && HasRef(x) && x.ref == y.ref
    ensures x == y
  {
    assert Shares(x, y);
  }

  lemma FewerRefs(s: seq<Entry>, s': seq<Entry>)
    requires UniqueRefs(s) && forall x :: x in s' ==> x in s
    ensures UniqueRefs(s')
  {
  }

  predicate NoFlowFits(flows: seq<Entry>, l: Entry) {
    forall f :: f in flows ==> !RefCompatible(f, l)
  }

  lemma {:induction false} InPairs(pairs: seq<Pair>, p: Pair)
    requires p in pairs
    ensures p.flow in FlowsOf(pairs) && p.line in LinesOf(pairs)
  {
    if p != pairs[0] {
      InPairs(pairs[1..], p);
    }
  }

  lemma {:induction false} PairOfFlow(pairs: seq<Pair>, f: Entry) returns (p: Pair)
    requires f in FlowsOf(pairs)
    ensures p in pairs && p.flow == f
  {
    if f == pairs[0].flow {
      p := pairs[0];
    } else {
      p := PairOfFlow(pairs[1..], f);
    }
  }

  lemma {:induction false} PairOfLine(pairs: seq<Pair>, l: Entry) returns (p: Pair)
    requires l in LinesOf(pairs)
    ensures p in pairs && p.line == l
  {
    if l == pairs[0].line {
      p := pairs[0];
    } else {
      p := PairOfLine(pairs[1..], l);
    }
  }

  lemma {:induction false} DistinctOnce(s: seq<Entry>, e: Entry)
    requires DistinctIds(s)
    ensures multiset(s)[e] <= 1
  {
    if s != [] {
      assert s == [s[0]] + s[1..];
      DistinctOnce(s[1..], e);
    }
  }

  /** No row occurs twice. */
  ghost predicate NoRepeats(s: seq<Entry>) { forall e :: multiset(s)[e] <= 1 }

  lemma DistinctNoRepeats(s: seq<Entry>)
    requires DistinctIds(s)
    ensures NoRepeats(s)
  {
    forall e ensures multiset(s)[e] <= 1 {
      DistinctOnce(s, e);
    }
  }

  /** Membership in the outcome of a pass. */
  lemma PassMembers(rule: Rule, flows: seq<Entry>, lines: seq<Entry>)
    requires NoRepeats(flows) && DistinctIds(lines)
    ensures var g := Greedy(rule, flows, lines);
      && (forall f :: f in flows <==> f in g.flows || f in FlowsOf(g.pairs))
      && (forall f :: !(f in g.flows && f in FlowsOf(g.pairs)))
      && (forall l :: l in lines <==> l in g.lines || l in LinesOf(g.pairs))
      && (forall l :: !(l in g.lines && l in LinesOf(g.pairs)))
      && NoRepeats(g.flows)
  {
    var g := Greedy(rule, flows, lines);
    GreedyPartitions(rule, flows, lines);
    DistinctNoRepeats(lines);
    forall f
      ensures f in flows <==> f in g.flows || f in FlowsOf(g.pairs)
      ensures !(f in g.flows && f in FlowsOf(g.pairs))
      ensures multiset(g.flows)[f] <= 1
    {
      assert multiset(flows)[f] <= 1;
      Splits(flows, FlowsOf(g.pairs), g.flows, f);
    }
    forall l
      ensures l in lines <==> l in g.lines || l in LinesOf(g.pairs)
      ensures !(l in g.lines && l in LinesOf(g.pairs))
    {
      assert multiset(lines)[l] <= 1;
      Splits(lines, LinesOf(g.pairs), g.lines, l);
    }
  }

  lemma Splits(all: seq<Entry>, a: seq<Entry>, b: seq<Entry>, e: Entry)
    requires multiset(a) + multiset(b) == multiset(all)
    ensures e in all <==> e in a || e in b
    ensures multiset(all)[e] <= 1 ==> !(e in a && e in b) && multiset(b)[e] <= 1
  {
    assert multiset(all)[e] == multiset(a)[e] + multiset(b)[e];
    assert (e in a <==> multiset(a)[e] > 0) && (e in b <==> multiset(b)[e] > 0) && (e in all <==> multiset(all)[e] > 0);
  }

  /** With unique references, a compatible flow and line are each other's only partner. */
  lemma Partners(flows: seq<Entry>, lines: seq<Entry>, f: Entry, l: Entry, p: Pair)
    requires UniqueRefs(flows) && UniqueRefs(lines) && f in flows && l in lines && RefCompatible(f, l)
    requires p.flow in flows && p.line in lines && RefCompatible(p.flow, p.line) && (p.flow == f || p.line == l)
    ensures p == Pair(f, l)
  {
    OneRef(flows, p.flow, f);
    OneRef(lines, p.line, l);
  }

  lemma JoinPairs(flows: seq<Entry>, lines: seq<Entry>, f: Entry, l: Entry)
    requires DistinctIds(flows) && DistinctIds(lines) && UniqueRefs(flows) && UniqueRefs(lines)
    requires f in flows && l in lines && RefCompatible(f, l)
    ensures Pair(f, l) in Greedy(ByRef, flows, lines).pairs
  {
    var g := Greedy(ByRef, flows, lines);
    GreedyIsSound(ByRef, flows, lines);
    GreedyIsMaximal(ByRef, flows, lines);
    DistinctNoRepeats(flows);
    PassMembers(ByRef, flows, lines);
    assert Compatible(ByRef, f, l);
    var p: Pair;
    if f in FlowsOf(g.pairs) {
      p := PairOfFlow(g.pairs, f);
    } else {
      p := PairOfLine(g.pairs, l);
    }
    assert Compatible(ByRef, p.flow, p.line);
    Partners(flows, lines, f, l, p);
  }

  lemma PairIsCompatible(flows: seq<Entry>, lines: seq<Entry>, p: Pair)
    ensures p in Greedy(ByRef, flows, lines).pairs
        ==> p.flow in flows && p.line in lines && RefCompatible(p.flow, p.line)
  {
    GreedyIsSound(ByRef, flows, lines);
    assert Compatible(ByRef, p.flow, p.line) <==> RefCompatible(p.flow, p.line);
  }

  /** The join: exactly the compatible rows are paired, exactly the partnerless ones are left. */
  lemma RefJoin(flows: seq<Entry>, lines: seq<Entry>)
    requires DistinctIds(flows) && DistinctIds(lines) && UniqueRefs(flows) && UniqueRefs(lines)
    ensures var g := Greedy(ByRef, flows, lines);
      && (forall f, l :: Pair(f, l) in g.pairs <==> f in flows && l in lines && RefCompatible(f, l))
      && (forall f :: f in g.flows <==> f in flows && NoneFits(ByRef, f, lines))
      && (forall l :: l in g.lines <==> l in lines && NoFlowFits(flows, l))
  {
    forall f, l ensures Pair(f, l) in Greedy(ByRef, flows, lines).pairs
        <==> f in flows && l in lines && RefCompatible(f, l) {
      GreedyIsSound(ByRef, flows, lines);
      if f in flows && l in lines && RefCompatible(f, l) {
        JoinPairs(flows, lines, f, l);
      }
      PairIsCompatible(flows, lines, Pair(f, l));
    }
    forall f ensures f in Greedy(ByRef, flows, lines).flows <==> f in flows && NoneFits(ByRef, f, lines) {
      JoinLeavesFlow(flows, lines, f);
    }
    forall l ensures l in Greedy(ByRef, flows, lines).lines <==> l in lines && NoFlowFits(flows, l) {
      JoinLeavesLine(flows, lines, l);
    }
  }

  lemma JoinLeavesFlow(flows: seq<Entry>, lines: seq<Entry>, f: Entry)
    requires DistinctIds(flows) && DistinctIds(lines) && UniqueRefs(flows) && UniqueRefs(lines)
    ensures f in Greedy(ByRef, flows, lines).flows <==> f in flows && NoneFits(ByRef, f, lines)
  {
    var g := Greedy(ByRef, flows, lines);
    GreedyIsSound(ByRef, flows, lines);
    DistinctNoRepeats(flows);
    PassMembers(ByRef, flows, lines);
    if f in FlowsOf(g.pairs) {
      var p := PairOfFlow(g.pairs, f);
      assert Compatible(ByRef, f, p.line) && p.line in lines;
    } else if f in flows && !NoneFits(ByRef, f, lines) {
      var l :| l in lines && Compatible(ByRef, f, l);
      JoinPairs(flows, lines, f, l);
      InPairs(g.pairs, Pair(f, l));
    }
  }

  lemma JoinLeavesLine(flows: seq<Entry>, lines: seq<Entry>, l: Entry)
    requires DistinctIds(flows) && DistinctIds(lines) && UniqueRefs(flows) && UniqueRefs(lines)
    ensures l in Greedy(ByRef, flows, lines).lines <==> l in lines && NoFlowFits(flows, l)
  {
    var g := Greedy(ByRef, flows, lines);
    GreedyIsSound(ByRef, flows, lines);
    DistinctNoRepeats(flows);
    PassMembers(ByRef, flows, lines);
    if l in LinesOf(g.pairs) {
      var p := PairOfLine(g.pairs, l);
      assert Compatible(ByRef, p.flow, l) && p.flow in flows;
    } else if l in lines && !NoFlowFits(flows, l) {
      var f :| f in flows && RefCompatible(f, l);
      JoinPairs(flows, lines, f, l);
      InPairs(g.pairs, Pair(f, l));
    }
  }

  // ── A faithful mirror of flows with unique references ──

  /** Every flow carries its own reference, and the statement lines mirror the flows. */
  ghost predicate Mirrored(flows: seq<Entry>, lines: seq<Entry>) {
    && DistinctIds(flows) && UniqueRefs(flows) && (forall f :: f in flows ==> HasRef(f))
    && Mirrors(flows, lines)
  }

  lemma {:induction false} TwinLine(flows: seq<Entry>, ws: seq<Entry>, f: Entry) returns (l: Entry)
    requires Aligned(flows, ws) && f in flows
    ensures l in ws && Twin(f, l)
  {
    if f == flows[0] {
      l := ws[0];
    } else {
      l := TwinLine(flows[1..], ws[1..], f);
    }
  }

  lemma {:induction false} AlignedRefs(flows: seq<Entry>, ws: seq<Entry>, x: Entry, y: Entry)
    requires Aligned(flows, ws) && DistinctIds(flows) && UniqueRefs(flows)
    requires x in ws && y in ws && HasRef(x) && x.ref == y.ref
    ensures x == y
  {
    var tail := flows[1..];
    FewerRefs(flows, tail);
    if x in ws[1..] && y in ws[1..] {
      AlignedRefs(tail, ws[1..], x, y);
    } else if x != y {
      var g := TwinOf(tail, ws[1..], if x == ws[0] then y else x);
      OneRef(flows, flows[0], g);
      assert false;
    }
  }

  lemma MirrorLine(flows: seq<Entry>, lines: seq<Entry>, f: Entry) returns (l: Entry)
    requires Mirrored(flows, lines) && f in flows
    ensures l in lines && Twin(f, l) && Compatible(ByRef, f, l)
  {
    var ws :| Aligned(flows, ws) && multiset(ws) == multiset(lines);
    l := TwinLine(flows, ws, f);
    assert l in multiset(ws) && l in multiset(lines);
  }

  lemma MirrorFlow(flows: seq<Entry>, lines: seq<Entry>, l: Entry) returns (f: Entry)
    requires Mirrored(flows, lines) && l in lines
    ensures f in flows && Twin(f, l) && RefCompatible(f, l)
  {
    var ws :| Aligned(flows, ws) && multiset(ws) == multiset(lines);
    assert l in multiset(lines) && l in multiset(ws) && l in ws;
    f := TwinOf(flows, ws, l);
  }

  lemma MirrorRefs(flows: seq<Entry>, lines: seq<Entry>)
    requires Mirrored(flows, lines)
    ensures UniqueRefs(lines) && forall l :: l in lines ==> HasRef(l)
  {
    var ws :| Aligned(flows, ws) && multiset(ws) == multiset(lines);
    forall l | l in lines ensures HasRef(l) {
      var f := MirrorFlow(flows, lines, l);
    }
    forall x, y | x in lines && y in lines && Shares(x, y) ensures x == y {
      assert x in multiset(lines) && y in multiset(lines) && x in ws && y in ws;
      AlignedRefs(flows, ws, x, y);
    }
  }

  // ── What a run on one wallet reports, and what the answer key looks for ──

  /** `delta` is external minus internal; the items of the report hang on the wallet's case. */
  datatype WalletRun = WalletRun(delta: int, report: Report)

  predicate OpensCase(run: WalletRun) { run.delta != 0 || !Clean(run.report) }

  predicate RefMatches(found: Option<Ref>, wanted: Option<Ref>) {
    wanted.Some? && wanted.value != EMPTY ==> found == wanted
  }

  predicate HasOrphanLine(r: Report, ref: Option<Ref>) {
    exists l :: l in r.orphanLines && RefMatches(l.ref, ref)
  }

  predicate HasMismatch(r: Report, ref: Option<Ref>) {
    exists p :: p in r.mismatch && RefMatches(p.flow.ref, ref)
  }

  /** A null reference recorded in the manifest is compared as such, not waved through. */
  predicate HasExactOrphanLine(r: Report, ref: Option<Ref>) {
    exists l :: l in r.orphanLines && l.ref == ref
  }

  predicate HasExactMismatch(r: Report, ref: Option<Ref>) {
    exists p :: p in r.mismatch && p.flow.ref == ref
  }

  predicate Hit(inj: Injected, run: WalletRun) {
    match inj.kind
    case OrphanInternal => run.report.orphanFlows != [] && OpensCase(run) && run.delta != 0
    case OrphanExternal => HasOrphanLine(run.report, inj.refA) && OpensCase(run) && run.delta != 0
    case AmountMismatch => HasMismatch(run.report, inj.refA) && OpensCase(run) && run.delta != 0
    case PairCancelOrphan =>
      run.report.orphanFlows != [] && HasExactOrphanLine(run.report, inj.refA) && OpensCase(run) && run.delta == 0
    case PairCancelMismatch =>
      HasExactMismatch(run.report, inj.refA) && HasExactMismatch(run.report, inj.refB)
      && OpensCase(run) && run.delta == 0
  }

  /** The answer key, kind by kind: a hard break shows in the balance, a soft one does not, and the
      recorded reference is the one found, unless there is none to compare with. */
  lemma HitMeans(inj: Injected, run: WalletRun)
    ensures inj.kind == OrphanInternal ==> (Hit(inj, run) <==> run.delta != 0 && run.report.orphanFlows != [])
    ensures inj.kind == OrphanExternal ==>
      (Hit(inj, run) <==>
       run.delta != 0
       && exists l :: l in run.report.orphanLines && (inj.refA in {None, Some(0)} || l.ref == inj.refA))
    ensures inj.kind == AmountMismatch ==>
      (Hit(inj, run) <==>
       run.delta != 0
       && exists p :: p in run.report.mismatch && (inj.refA in {None, Some(0)} || p.flow.ref == inj.refA))
    ensures inj.kind == PairCancelOrphan ==>
      (Hit(inj, run) <==>
       run.delta == 0 && run.report.orphanFlows != [] && exists l :: l in run.report.orphanLines && l.ref == inj.refA)
    ensures inj.kind == PairCancelMismatch ==>
      (Hit(inj, run) <==>
       run.delta == 0 && (exists p :: p in run.report.mismatch && p.flow.ref == inj.refA)
       && exists p :: p in run.report.mismatch && p.flow.ref == inj.refB)
  {
  }

  /** The engine on one wallet: balance against the internal total, flows against lines. */
  function Check(windowMs: nat, flows: seq<Entry>, total: int, s: Statement): WalletRun {
    WalletRun(s.closing - total, Match(windowMs, flows, s.lines))
  }

  // ── Report of a statement whose references are unique ──

  lemma {:induction false} NoFitNoPair(rule: Rule, flows: seq<Entry>, lines: seq<Entry>)
    requires forall f :: f in flows ==> NoneFits(rule, f, lines)
    ensures Greedy(rule, flows, lines) == Pairing([], flows, lines)
  {
    if flows != [] {
      assert flows[0] in flows && NoneFits(rule, flows[0], lines);
      assert forall f :: f in flows[1..] ==> f in flows;
      NoFitNoPair(rule, flows[1..], lines);
      assert [flows[0]] + flows[1..] == flows;
    }
  }

  /** If no leftover flow is within reach of a leftover line, the report is the join. */
  lemma ReportIsJoin(windowMs: nat, flows: seq<Entry>, lines: seq<Entry>)
    requires DistinctIds(flows) && DistinctIds(lines) && UniqueRefs(flows) && UniqueRefs(lines)
    requires forall f, l :: f in flows && NoneFits(ByRef, f, lines) && l in lines && NoFlowFits(flows, l) ==>
      !WindowCompatible(windowMs, f, l)
    ensures var r := Match(windowMs, flows, lines);
      && (forall f :: f in r.orphanFlows <==> f in flows && NoneFits(ByRef, f, lines))
      && (forall l :: l in r.orphanLines <==> l in lines && NoFlowFits(flows, l))
      && (forall f, l :: Pair(f, l) in r.mismatch <==>
            f in flows && l in lines && RefCompatible(f, l) && f.amount != l.amount)
  {
    var g := Greedy(ByRef, flows, lines);
    RefJoin(flows, lines);
    MatchingMembers(g.pairs);
    forall f | f in g.flows ensures NoneFits(ByWindow(windowMs), f, g.lines) {
      forall l | l in g.lines ensures !Compatible(ByWindow(windowMs), f, l) { }
    }
    NoFitNoPair(ByWindow(windowMs), g.flows, g.lines);
    var r := Match(windowMs, flows, lines);
    forall f, l
      ensures Pair(f, l) in r.mismatch <==> f in flows && l in lines && RefCompatible(f, l) && f.amount != l.amount
    {
      assert SameAmount(Pair(f, l)) <==> f.amount == l.amount;
    }
  }

  lemma Nonempty(s: seq<Entry>, e: Entry)
    requires e in s
    ensures s != []
  {
  }

  // ── Statements with one line deleted, added or shifted ──

  /** Without one line, exactly its twin flow is left without a partner. */
  lemma Deleted(flows: seq<Entry>, lines: seq<Entry>, c: Entry) returns (t: Entry)
    requires Mirrored(flows, lines) && c in lines
    ensures DistinctIds(Without(lines, c.id)) && UniqueRefs(Without(lines, c.id))
    ensures t in flows && Twin(t, c)
    ensures forall f :: f in flows ==> (NoneFits(ByRef, f, Without(lines, c.id)) <==> f == t)
    ensures forall l :: l in Without(lines, c.id) ==> !NoFlowFits(flows, l)
  {
    var rest := Without(lines, c.id);
    MirrorRefs(flows, lines);
    WithoutRemovesOne(lines, c);
    FewerRefs(lines, rest);
    t := MirrorFlow(flows, lines, c);
    forall f | f in flows ensures NoneFits(ByRef, f, rest) <==> f == t {
      PartnerGone(flows, lines, c, t, f);
    }
    forall l | l in rest ensures !NoFlowFits(flows, l) {
      var f := MirrorFlow(flows, lines, l);
    }
  }

  lemma PartnerGone(flows: seq<Entry>, lines: seq<Entry>, c: Entry, t: Entry, f: Entry)
    requires Mirrored(flows, lines) && c in lines && t in flows && f in flows && Twin(t, c)
    ensures NoneFits(ByRef, f, Without(lines, c.id)) <==> f == t
  {
    MirrorRefs(flows, lines);
    var rest := Without(lines, c.id);
    if f == t {
      forall l | l in rest ensures !Compatible(ByRef, t, l) {
        assert Shares(l, c) ==> l == c;
      }
    } else {
      var l := MirrorLine(flows, lines, f);
      assert !Shares(f, t);
      SameIdSameEntryOr(lines, l, c);
      assert l in rest;
    }
  }

  lemma SameIdSameEntryOr(s: seq<Entry>, x: Entry, y: Entry)
    requires DistinctIds(s) && x in s && y in s
    ensures x.id == y.id ==> x == y
  {
    if x.id == y.id {
      SameIdSameEntry(s, x, y);
    }
  }

  /** Adding a line with a fresh id and a fresh reference keeps ids and references unique. */
  lemma GhostJoins(flows: seq<Entry>, lines: seq<Entry>, line: Entry)
    requires DistinctIds(lines) && UniqueRefs(lines) && NoId(lines, line.id) && HasRef(line)
    requires forall l :: l in lines ==> l.ref != line.ref
    requires forall f :: f in flows ==> f.ref != line.ref
    ensures DistinctIds(lines + [line]) && UniqueRefs(lines + [line]) && NoFlowFits(flows, line)
  {
    assert DistinctIds([line]) && Apart(lines, [line]);
    DistinctJoin(lines, [line]);
    forall x, y | x in lines + [line] && y in lines + [line] && Shares(x, y) ensures x == y {
      if x in lines && y in lines {
        OneRef(lines, x, y);
      }
    }
  }

  lemma FreshRef(flows: seq<Entry>, lines: seq<Entry>, ref: Option<Ref>)
    requires Mirrored(flows, lines) && forall f :: f in flows ==> f.ref != ref
    ensures forall l :: l in lines ==> l.ref != ref
  {
    forall l | l in lines ensures l.ref != ref {
      var f := MirrorFlow(flows, lines, l);
    }
  }

  // ── Detection of each anomaly ──

  /** 1A is detected exactly when the deleted line had an amount. */
  lemma OrphanInternalDetected(windowMs: nat, flows: seq<Entry>, s: Statement) returns (inj: Injected, run: WalletRun)
    requires Mirrored(flows, s.lines) && flows != []
    ensures InjectOrphanInternal(s).Mutated?
    ensures inj == InjectOrphanInternal(s).injected
    ensures run == Check(windowMs, flows, s.closing, InjectOrphanInternal(s).statement)
    ensures Hit(inj, run) <==> Earliest(s.lines, false).value.amount != 0
  {
    HasEarliest(flows, s.lines);
    var c := Earliest(s.lines, false).value;
    DeletionReported(windowMs, flows, s.lines, c);
    inj, run := InjectOrphanInternal(s).injected, Check(windowMs, flows, s.closing, InjectOrphanInternal(s).statement);
  }

  lemma DeletionReported(windowMs: nat, flows: seq<Entry>, lines: seq<Entry>, c: Entry)
    requires Mirrored(flows, lines) && c in lines
    ensures Match(windowMs, flows, Without(lines, c.id)).orphanFlows != []
    ensures Match(windowMs, flows, Without(lines, c.id)).orphanLines == []
  {
    var t := Deleted(flows, lines, c);
    ReportIsJoin(windowMs, flows, Without(lines, c.id));
    var r := Match(windowMs, flows, Without(lines, c.id));
    Nonempty(r.orphanFlows, t);
    HeadIsMember(r.orphanLines);
  }

  /** 1B is detected exactly when the ghost has an amount, if its reference is not in use. */
  lemma OrphanExternalDetected(windowMs: nat, flows: seq<Entry>, s: Statement, g: Ghost, amount: int)
    returns (inj: Injected, run: WalletRun)
    requires Mirrored(flows, s.lines) && NoId(s.lines, g.id) && g.ref != EMPTY
    requires forall f :: f in flows ==> f.ref != Some(g.ref)
    ensures inj == InjectOrphanExternal(s, g, amount).injected
    ensures run == Check(windowMs, flows, s.closing, InjectOrphanExternal(s, g, amount).statement)
    ensures Hit(inj, run) <==> amount != 0
  {
    var line := Entry(g.id, IN, amount, Some(g.ref), g.cutoff);
    GhostReported(windowMs, flows, s.lines, line);
    var r := Match(windowMs, flows, s.lines + [line]);
    assert line in r.orphanLines && RefMatches(line.ref, Some(g.ref));
    Nonempty(r.orphanLines, line);
    inj := Injected(OrphanExternal, Some(g.ref), None);
    run := Check(windowMs, flows, s.closing, InjectOrphanExternal(s, g, amount).statement);
  }

  lemma GhostReported(windowMs: nat, flows: seq<Entry>, lines: seq<Entry>, line: Entry)
    requires Mirrored(flows, lines) && NoId(lines, line.id) && HasRef(line)
    requires forall f :: f in flows ==> f.ref != line.ref
    ensures Match(windowMs, flows, lines + [line]).orphanFlows == []
    ensures line in Match(windowMs, flows, lines + [line]).orphanLines
  {
    MirrorRefs(flows, lines);
    FreshRef(flows, lines, line.ref);
    GhostJoins(flows, lines, line);
    var all := lines + [line];
    forall f | f in flows ensures !NoneFits(ByRef, f, all) {
      var l := MirrorLine(flows, lines, f);
      assert l in all;
    }
    ReportIsJoin(windowMs, flows, all);
    assert line in all;
    HeadIsMember(Match(windowMs, flows, all).orphanFlows);
  }

  /** Every flow finds a line of its reference and direction. */
  predicate AllServed(flows: seq<Entry>, lines: seq<Entry>) {
    forall f :: f in flows ==> !NoneFits(ByRef, f, lines)
  }

  lemma MirrorServes(flows: seq<Entry>, lines: seq<Entry>)
    requires Mirrored(flows, lines)
    ensures AllServed(flows, lines)
  {
    forall f | f in flows ensures !NoneFits(ByRef, f, lines) {
      var l := MirrorLine(flows, lines, f);
    }
  }

  lemma ServedIsJoin(windowMs: nat, flows: seq<Entry>, lines: seq<Entry>)
    requires DistinctIds(flows) && DistinctIds(lines) && UniqueRefs(flows) && UniqueRefs(lines)
        && AllServed(flows, lines)
    ensures forall f, l :: Pair(f, l) in Match(windowMs, flows, lines).mismatch <==>
      f in flows && l in lines && RefCompatible(f, l) && f.amount != l.amount
  {
    ReportIsJoin(windowMs, flows, lines);
  }

  /** A shift keeps ids, references and directions, so every flow still finds its line. */
  lemma Shifted(flows: seq<Entry>, lines: seq<Entry>, c: Entry, amount: int)
    requires DistinctIds(lines) && UniqueRefs(lines) && c in lines && AllServed(flows, lines)
    ensures var lines' := SetAmount(lines, c.id, amount);
      DistinctIds(lines') && UniqueRefs(lines') && c.(amount := amount) in lines' && AllServed(flows, lines')
  {
    var lines' := SetAmount(lines, c.id, amount);
    var c' := c.(amount := amount);
    SetAmountKeepsIds(lines, c.id, amount);
    ShiftMembers(lines, c, amount);
    forall x, y | x in lines' && y in lines' && Shares(x, y) ensures x == y {
      OneRef(lines, if x == c' then c else x, if y == c' then c else y);
    }
    forall f | f in flows ensures !NoneFits(ByRef, f, lines') {
      var l :| l in lines && Compatible(ByRef, f, l);
      SameIdSameEntryOr(lines, l, c);
      var l' := if l == c then c' else l;
      assert l' in lines' && Compatible(ByRef, f, l');
    }
  }

  lemma ShiftMembers(lines: seq<Entry>, c: Entry, amount: int)
    requires DistinctIds(lines) && c in lines
    ensures forall l :: l in SetAmount(lines, c.id, amount) <==>
        l == c.(amount := amount) || (l in lines && l.id != c.id)
  {
    SetAmountMembers(lines, c.id, amount);
    forall l | l in lines && l.id == c.id ensures l == c {
      SameIdSameEntryOr(lines, l, c);
    }
  }

  /** Changing one line's amount turns its pair into a mismatch. */
  lemma ShiftReported(windowMs: nat, flows: seq<Entry>, lines: seq<Entry>, c: Entry, amount: int)
    requires Mirrored(flows, lines) && c in lines && amount != c.amount
    ensures HasExactMismatch(Match(windowMs, flows, SetAmount(lines, c.id, amount)), c.ref)
  {
    MirrorRefs(flows, lines);
    MirrorServes(flows, lines);
    Shifted(flows, lines, c, amount);
    var lines' := SetAmount(lines, c.id, amount);
    ServedIsJoin(windowMs, flows, lines');
    var t := MirrorFlow(flows, lines, c);
    ShiftedPair(flows, lines', Match(windowMs, flows, lines'), c, t, amount);
  }

  lemma ShiftedPair(flows: seq<Entry>, lines: seq<Entry>, r: Report, c: Entry, t: Entry, amount: int)
    requires t in flows && Twin(t, c) && HasRef(c) && c.(amount := amount) in lines
    requires forall f, l :: Pair(f, l) in r.mismatch <==>
        f in flows && l in lines && RefCompatible(f, l) && f.amount != l.amount
    ensures amount != c.amount ==> HasExactMismatch(r, c.ref)
  {
    if amount != c.amount {
      assert RefCompatible(t, c.(amount := amount));
      assert Pair(t, c.(amount := amount)) in r.mismatch;
    }
  }

  /** 1C is detected exactly when the shift is not zero. */
  lemma AmountMismatchDetected(windowMs: nat, flows: seq<Entry>, s: Statement, delta: int)
    returns (inj: Injected, run: WalletRun)
    requires Mirrored(flows, s.lines) && flows != []
    ensures InjectAmountMismatch(s, delta).Mutated?
    ensures inj == InjectAmountMismatch(s, delta).injected
    ensures run == Check(windowMs, flows, s.closing, InjectAmountMismatch(s, delta).statement)
    ensures Hit(inj, run) <==> delta != 0
  {
    hide Mirrored, Match, Earliest;
    HasEarliest(flows, s.lines);
    var c := Earliest(s.lines, true).value;
    var signed := if c.direction == IN then delta else 0 - delta;
    var s' := Statement(s.closing + signed, SetAmount(s.lines, c.id, c.amount + delta));
    inj, run := Injected(AmountMismatch, c.ref, None), Check(windowMs, flows, s.closing, s');
    assert InjectAmountMismatch(s, delta) == Mutated(s', inj);
    if delta != 0 {
      ShiftReported(windowMs, flows, s.lines, c, c.amount + delta);
      ExactIsLoose(Match(windowMs, flows, s'.lines), c.ref);
    }
    MismatchHit(c.ref, run);
  }

  lemma MismatchHit(ref: Option<Ref>, run: WalletRun)
    ensures Hit(Injected(AmountMismatch, ref, None), run) <==> run.delta != 0 && HasMismatch(run.report, ref)
  {
  }

  lemma HasEarliest(flows: seq<Entry>, lines: seq<Entry>)
    requires Mirrored(flows, lines) && flows != []
    ensures Earliest(lines, true).Some? && Earliest(lines, false).Some?
  {
    MirrorRefs(flows, lines);
    EarliestIsEarliest(lines, true);
    EarliestIsEarliest(lines, false);
    var l0 := MirrorLine(flows, lines, flows[0]);
  }

  lemma ExactIsLoose(r: Report, ref: Option<Ref>)
    requires HasExactMismatch(r, ref)
    ensures HasMismatch(r, ref)
  {
    var p :| p in r.mismatch && p.flow.ref == ref;
    assert RefMatches(p.flow.ref, ref);
  }

  // ── 2A: why the ghost is shifted by epsilon ──

  /** With the deleted line's flow and the ghost as the only leftovers, they are paired exactly
      when the ghost is within the window and has the same amount. */
  lemma LeftoversMeet(windowMs: nat, flows: seq<Entry>, lines: seq<Entry>, t: Entry, put: Entry)
    requires DistinctIds(flows) && DistinctIds(lines) && UniqueRefs(flows) && UniqueRefs(lines)
    requires t in flows && put in lines
    requires forall f :: f in flows ==> (NoneFits(ByRef, f, lines) <==> f == t)
    requires forall l :: l in lines ==> (NoFlowFits(flows, l) <==> l == put)
    ensures var r := Match(windowMs, flows, lines);
      && (WindowCompatible(windowMs, t, put) ==> r.orphanFlows == [])
      && (!WindowCompatible(windowMs, t, put) ==> r.orphanFlows != [] && put in r.orphanLines)
  {
    if WindowCompatible(windowMs, t, put) {
      var g := Greedy(ByRef, flows, lines);
      RefJoin(flows, lines);
      DistinctNoRepeats(flows);
      PassMembers(ByRef, flows, lines);
      GreedyPartitions(ByRef, flows, lines);
      MeetInWindow(windowMs, g.flows, g.lines, t, put);
    } else {
      ReportIsJoin(windowMs, flows, lines);
      Nonempty(Match(windowMs, flows, lines).orphanFlows, t);
    }
  }

  lemma MeetInWindow(windowMs: nat, flows: seq<Entry>, lines: seq<Entry>, t: Entry, put: Entry)
    requires NoRepeats(flows) && DistinctIds(lines) && WindowCompatible(windowMs, t, put)
    requires (forall f :: f in flows ==> f == t) && (forall l :: l in lines <==> l == put)
    ensures Greedy(ByWindow(windowMs), flows, lines).flows == []
  {
    var rule := ByWindow(windowMs);
    var h := Greedy(rule, flows, lines);
    PassMembers(rule, flows, lines);
    GreedyIsMaximal(rule, flows, lines);
    GreedyIsSound(rule, flows, lines);
    assert Compatible(rule, t, put) && put in lines;
    if put in LinesOf(h.pairs) {
      var p := PairOfLine(h.pairs, put);
      InPairs(h.pairs, p);
      assert p.flow == t;
    }
    HeadIsMember(h.flows);
  }

  /** 2A is detected exactly when the ghost's amount differs from the deleted line's, or the
      ghost's date is out of the deleted line's window. So any non-zero epsilon makes it safe. */
  lemma PairCancelOrphanDetected(windowMs: nat, flows: seq<Entry>, s: Statement, g: Ghost, eps: int)
    returns (inj: Injected, run: WalletRun)
    requires Mirrored(flows, s.lines) && flows != [] && NoId(s.lines, g.id) && g.ref != EMPTY
    requires forall f :: f in flows ==> f.ref != Some(g.ref)
    ensures InjectPairCancelOrphan(s, g, eps).Mutated?
    ensures inj == InjectPairCancelOrphan(s, g, eps).injected
    ensures run == Check(windowMs, flows, s.closing, InjectPairCancelOrphan(s, g, eps).statement)
    ensures Hit(inj, run) <==> eps != 0 || Distance(g.cutoff, Earliest(s.lines, false).value.at) > windowMs
  {
    hide Mirrored, Match, Earliest;
    HasEarliest(flows, s.lines);
    var gone := Earliest(s.lines, false).value;
    var put := Entry(g.id, gone.direction, gone.amount + eps, Some(g.ref), g.cutoff);
    var s' := Statement(s.closing, Without(s.lines, gone.id) + [put]);
    var r := Match(windowMs, flows, s'.lines);
    var t := SwapReported(windowMs, flows, s.lines, gone, put);
    inj, run := Injected(PairCancelOrphan, Some(g.ref), None), Check(windowMs, flows, s.closing, s');
    WashHit(put, run);
    assert InjectPairCancelOrphan(s, g, eps) == Mutated(s', inj);
  }

  lemma WashHit(put: Entry, run: WalletRun)
    requires run.delta == 0 && (run.report.orphanFlows == [] || put in run.report.orphanLines)
    ensures Hit(Injected(PairCancelOrphan, put.ref, None), run) <==> run.report.orphanFlows != []
  {
    if run.report.orphanFlows != [] {
      assert HasExactOrphanLine(run.report, put.ref);
    }
  }

  /** Replacing a line by a ghost of another reference leaves its flow and the ghost, and nothing else. */
  lemma SwapReported(windowMs: nat, flows: seq<Entry>, lines: seq<Entry>, gone: Entry, put: Entry) returns (t: Entry)
    requires Mirrored(flows, lines) && gone in lines && NoId(lines, put.id) && HasRef(put)
    requires forall f :: f in flows ==> f.ref != put.ref
    ensures t in flows && Twin(t, gone)
    ensures var r := Match(windowMs, flows, Without(lines, gone.id) + [put]);
      && (WindowCompatible(windowMs, t, put) ==> r.orphanFlows == [])
      && (!WindowCompatible(windowMs, t, put) ==> r.orphanFlows != [] && put in r.orphanLines)
  {
    t := Deleted(flows, lines, gone);
    FreshRef(flows, lines, put.ref);
    var rest := Without(lines, gone.id);
    GhostJoins(flows, rest, put);
    forall f | f in flows ensures NoneFits(ByRef, f, rest + [put]) <==> f == t {
      NoFitWithGhost(f, rest, put);
    }
    LeftoversMeet(windowMs, flows, rest + [put], t, put);
  }

  lemma NoFitWithGhost(f: Entry, lines: seq<Entry>, put: Entry)
    requires f.ref != put.ref
    ensures NoneFits(ByRef, f, lines + [put]) <==> NoneFits(ByRef, f, lines)
  {
    assert !Compatible(ByRef, f, put);
    if NoneFits(ByRef, f, lines) {
      forall l | l in lines + [put] ensures !Compatible(ByRef, f, l) { }
    } else {
      var l :| l in lines && Compatible(ByRef, f, l);
      assert l in lines + [put];
    }
  }

  // ── 2B ──

  /** 2B is detected exactly when the shift is not zero, on every wallet with two lines. */
  lemma PairCancelMismatchDetected(windowMs: nat, flows: seq<Entry>, s: Statement, delta: int)
    returns (inj: Injected, run: WalletRun)
    requires Mirrored(flows, s.lines) && InjectPairCancelMismatch(s, delta).Mutated?
    ensures inj == InjectPairCancelMismatch(s, delta).injected
    ensures run == Check(windowMs, flows, s.closing, InjectPairCancelMismatch(s, delta).statement)
    ensures Hit(inj, run) <==> delta != 0
  {
    var (a, b) := TwoEarliest(s.lines).value;
    PairCancelMismatchIs(s, a, b, delta);
    inj, run := TwoShiftsHit(windowMs, flows, s, a, b, delta);
  }

  lemma TwoShiftsHit(windowMs: nat, flows: seq<Entry>, s: Statement, a: Entry, b: Entry, delta: int)
    returns (inj: Injected, run: WalletRun)
    requires Mirrored(flows, s.lines) && a in s.lines && b in s.lines && a.id != b.id
    ensures inj == Injected(PairCancelMismatch, a.ref, b.ref)
    ensures run == Check(windowMs, flows, s.closing, Statement(s.closing,
              SetAmount(SetAmount(s.lines, a.id, a.amount + delta), b.id, b.amount + Opposite(a, b, delta))))
    ensures Hit(inj, run) <==> delta != 0
  {
    hide Mirrored, SetAmount, Hit, Check, Match;
    inj := Injected(PairCancelMismatch, a.ref, b.ref);
    var r := TwoShiftsReported(windowMs, flows, s.lines, a, a.amount + delta, b, b.amount + Opposite(a, b, delta));
    run := WalletRun(0, r);
    CheckIs(windowMs, flows, s.closing, Statement(s.closing,
      SetAmount(SetAmount(s.lines, a.id, a.amount + delta), b.id, b.amount + Opposite(a, b, delta))), r);
    TwoShiftsCount(a, b, delta, run);
  }

  lemma CheckIs(windowMs: nat, flows: seq<Entry>, total: int, s: Statement, r: Report)
    requires r == Match(windowMs, flows, s.lines)
    ensures Check(windowMs, flows, total, s) == WalletRun(s.closing - total, r)
  {
  }

  lemma TwoShiftsCount(a: Entry, b: Entry, delta: int, run: WalletRun)
    requires run.delta == 0
    requires a.amount + delta != a.amount ==> HasExactMismatch(run.report, a.ref)
    requires b.amount + Opposite(a, b, delta) != b.amount ==> HasExactMismatch(run.report, b.ref)
    requires a.amount + delta == a.amount && b.amount + Opposite(a, b, delta) == b.amount ==> run.report.mismatch == []
    ensures Hit(Injected(PairCancelMismatch, a.ref, b.ref), run) <==> delta != 0
  {
  }

  /** The lines after shifting two of them. */
  lemma TwiceShifted(flows: seq<Entry>, lines: seq<Entry>, a: Entry, x: int, b: Entry, y: int)
    requires Mirrored(flows, lines) && a in lines && b in lines && a.id != b.id
    ensures var twice := SetAmount(SetAmount(lines, a.id, x), b.id, y);
      && DistinctIds(twice) && UniqueRefs(twice) && AllServed(flows, twice)
      && a.(amount := x) in twice && b.(amount := y) in twice
  {
    MirrorRefs(flows, lines);
    MirrorServes(flows, lines);
    var once := SetAmount(lines, a.id, x);
    Shifted(flows, lines, a, x);
    SetAmountMember(lines, a.id, x, b);
    Shifted(flows, once, b, y);
    SetAmountMember(once, b.id, y, a.(amount := x));
  }

  /** Shifting two lines makes a mismatch of each one whose amount really changed. */
  lemma TwoShiftsReported(windowMs: nat, flows: seq<Entry>, lines: seq<Entry>, a: Entry, x: int, b: Entry, y: int)
    returns (r: Report)
    requires Mirrored(flows, lines) && a in lines && b in lines && a.id != b.id
    ensures r == Match(windowMs, flows, SetAmount(SetAmount(lines, a.id, x), b.id, y))
    ensures x != a.amount ==> HasExactMismatch(r, a.ref)
    ensures y != b.amount ==> HasExactMismatch(r, b.ref)
    ensures x == a.amount && y == b.amount ==> r.mismatch == []
  {
    var twice := SetAmount(SetAmount(lines, a.id, x), b.id, y);
    r := Match(windowMs, flows, twice);
    TwiceShifted(flows, lines, a, x, b, y);
    MirrorRefs(flows, lines);
    ServedIsJoin(windowMs, flows, twice);
    var ta := MirrorFlow(flows, lines, a);
    var tb := MirrorFlow(flows, lines, b);
    ShiftedPair(flows, twice, r, a, ta, x);
    ShiftedPair(flows, twice, r, b, tb, y);
    if x == a.amount && y == b.amount {
      SetSame(lines, a);
      SetSame(lines, b);
      MirrorAgrees(windowMs, flows, lines);
    }
  }

  lemma {:induction false} SetSame(lines: seq<Entry>, c: Entry)
    requires DistinctIds(lines) && c in lines
    ensures SetAmount(lines, c.id, c.amount) == lines
  {
    if lines[0] == c {
      SetNothing(lines[1..], c.id, c.amount);
    } else {
      SetSame(lines[1..], c);
    }
  }

  /** A faithful mirror shows no mismatch. */
  lemma MirrorAgrees(windowMs: nat, flows: seq<Entry>, lines: seq<Entry>)
    requires Mirrored(flows, lines)
    ensures Match(windowMs, flows, lines).mismatch == []
  {
    var ws :| Aligned(flows, ws) && multiset(ws) == multiset(lines);
    forall a, b | a in flows && b in flows ensures !Ambiguous(a, b) {
      assert Shares(a, b) ==> a == b;
    }
    RefPairsAgree(flows, lines, ws);
  }
}
