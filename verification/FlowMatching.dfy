/** Pairing internal flows with external statement lines: two first-fit passes, and what they
    guarantee for every input and every order in which the database returns the rows. */
module FlowMatching {
  import opened Prelude

  datatype Direction = IN | OUT

  /** Reference texts are only ever compared with each other and with the empty text, so they
      are numbered here; `EMPTY` is the empty one. */
  type Ref = nat
  const EMPTY: Ref := 0

  /** An internal flow or an external statement line; amounts in minor units, times in
      milliseconds. */
  datatype Entry = Entry(id: nat, direction: Direction, amount: int, ref: Option<Ref>, at: int)

  datatype Pair = Pair(flow: Entry, line: Entry)

  /** A null or empty reference does not take part in the reference pass. */
  predicate HasRef(e: Entry) { e.ref.Some? && e.ref.value != EMPTY }

  predicate RefCompatible(f: Entry, l: Entry) {
    HasRef(f) && l.ref == f.ref && l.direction == f.direction
  }

  function Distance(a: int, b: int): nat { if a < b then b - a else a - b }

  predicate WindowCompatible(windowMs: nat, f: Entry, l: Entry) {
    l.direction == f.direction && l.amount == f.amount && Distance(l.at, f.at) <= windowMs
  }

  datatype Rule = ByRef | ByWindow(windowMs: nat)

  predicate Compatible(rule: Rule, f: Entry, l: Entry) {
    match rule
    case ByRef => RefCompatible(f, l)
    case ByWindow(windowMs) => WindowCompatible(windowMs, f, l)
  }

  // ── First fit ──

  function FirstFit(rule: Rule, f: Entry, lines: seq<Entry>): (r: Option<Entry>)
    ensures r.Some? ==> r.value in lines && Compatible(rule, f, r.value)
    ensures r.None? ==> forall l :: l in lines ==> !Compatible(rule, f, l)
  {
    if lines == [] then None
    else if Compatible(rule, f, lines[0]) then Some(lines[0])
    else FirstFit(rule, f, lines[1..])
  }

  function Without(lines: seq<Entry>, id: nat): (r: seq<Entry>)
    ensures |r| <= |lines|
    ensures forall l :: l in r <==> l in lines && l.id != id
  {
    if lines == [] then []
    else (if lines[0].id == id then [] else [lines[0]]) + Without(lines[1..], id)
  }

  datatype Pairing = Pairing(pairs: seq<Pair>, flows: seq<Entry>, lines: seq<Entry>)

  /** One pass: every flow in turn takes the first compatible line still there. */
  function Greedy(rule: Rule, flows: seq<Entry>, lines: seq<Entry>): Pairing {
    if flows == [] then Pairing([], [], lines)
    else
      var pick := FirstFit(rule, flows[0], lines);
      if pick.None? then
        var rest := Greedy(rule, flows[1..], lines);
        rest.(flows := [flows[0]] + rest.flows)
      else
        var rest := Greedy(rule, flows[1..], Without(lines, pick.value.id));
        rest.(pairs := [Pair(flows[0], pick.value)] + rest.pairs)
  }

  // ── The matcher ──

  predicate SameAmount(p: Pair) { p.flow.amount == p.line.amount }

  function Matching(pairs: seq<Pair>): seq<Pair> {
    if pairs == [] then [] else (if SameAmount(pairs[0]) then [pairs[0]] else []) + Matching(pairs[1..])
  }

  function Mismatching(pairs: seq<Pair>): seq<Pair> {
    if pairs == [] then [] else (if SameAmount(pairs[0]) then [] else [pairs[0]]) + Mismatching(pairs[1..])
  }

  /** `matched` is `viaRef` then `viaWindow`; the four buckets of a matching run. */
  datatype Report = Report(
    viaRef: seq<Pair>, viaWindow: seq<Pair>, mismatch: seq<Pair>, orphanFlows: seq<Entry>, orphanLines: seq<Entry>)

  function Match(windowMs: nat, flows: seq<Entry>, lines: seq<Entry>): Report {
    var byRef := Greedy(ByRef, flows, lines);
    var byWindow := Greedy(ByWindow(windowMs), byRef.flows, byRef.lines);
    Report(Matching(byRef.pairs), byWindow.pairs, Mismatching(byRef.pairs), byWindow.flows, byWindow.lines)
  }

  predicate Clean(r: Report) { r.mismatch == [] && r.orphanFlows == [] && r.orphanLines == [] }

  // ── Every pass partitions its input, pairs only compatible rows, and leaves no pair behind ──

  predicate NoId(s: seq<Entry>, id: nat) { forall e :: e in s ==> e.id != id }

  /** Primary keys: no two rows of one table share an id. */
  predicate DistinctIds(s: seq<Entry>) {
    s == [] || (NoId(s[1..], s[0].id) && DistinctIds(s[1..]))
  }

  // Multiset steps kept apart, so that no proof below has to search for them.

  lemma BagCons(e: Entry, s: seq<Entry>)
    ensures multiset([e] + s) == multiset{e} + multiset(s)
  {
  }

  lemma BagAdd(e: Entry, a: multiset<Entry>, b: multiset<Entry>, c: multiset<Entry>)
    requires a + b == c
    ensures (multiset{e} + a) + b == multiset{e} + c
    ensures a + (multiset{e} + b) == multiset{e} + c
  {
  }

  function FlowsOf(pairs: seq<Pair>): seq<Entry> {
    if pairs == [] then [] else [pairs[0].flow] + FlowsOf(pairs[1..])
  }

  function LinesOf(pairs: seq<Pair>): seq<Entry> {
    if pairs == [] then [] else [pairs[0].line] + LinesOf(pairs[1..])
  }

  lemma {:induction false} WithoutNothing(lines: seq<Entry>, id: nat)
    requires NoId(lines, id)
    ensures Without(lines, id) == lines
  {
    if lines != [] {
      assert NoId(lines[1..], id);
      WithoutNothing(lines[1..], id);
    }
  }

  lemma {:induction false} WithoutRemovesOne(lines: seq<Entry>, l: Entry)
    requires DistinctIds(lines) && l in lines
    ensures multiset(lines) == multiset(Without(lines, l.id)) + multiset{l}
    ensures DistinctIds(Without(lines, l.id))
  {
    var first, tail := lines[0], lines[1..];
    assert lines == [first] + tail;
    if first == l {
      WithoutNothing(tail, l.id);
      assert Without(lines, l.id) == tail;
    } else {
      WithoutRemovesOne(tail, l);
      DistinctCons(first, Without(tail, l.id));
      assert Without(lines, l.id) == [first] + Without(tail, l.id);
    }
  }

  lemma DistinctCons(first: Entry, tail: seq<Entry>)
    requires NoId(tail, first.id) && DistinctIds(tail)
    ensures DistinctIds([first] + tail)
  {
    assert ([first] + tail)[1..] == tail;
  }

  lemma {:induction false} GreedyPartitions(rule: Rule, flows: seq<Entry>, lines: seq<Entry>)
    requires DistinctIds(lines)
    ensures multiset(FlowsOf(Greedy(rule, flows, lines).pairs)) + multiset(Greedy(rule, flows, lines).flows)
        == multiset(flows)
    ensures multiset(LinesOf(Greedy(rule, flows, lines).pairs)) + multiset(Greedy(rule, flows, lines).lines)
        == multiset(lines)
    ensures DistinctIds(Greedy(rule, flows, lines).lines)
  {
    if flows != [] {
      var f, tail := flows[0], flows[1..];
      assert flows == [f] + tail;
      BagCons(f, tail);
      var pick := FirstFit(rule, f, lines);
      if pick.None? {
        var g := Greedy(rule, tail, lines);
        GreedyPartitions(rule, tail, lines);
        BagCons(f, g.flows);
        BagAdd(f, multiset(FlowsOf(g.pairs)), multiset(g.flows), multiset(tail));
      } else {
        var g := Greedy(rule, tail, Without(lines, pick.value.id));
        WithoutRemovesOne(lines, pick.value);
        GreedyPartitions(rule, tail, Without(lines, pick.value.id));
        PairBags(Pair(f, pick.value), g.pairs);
        BagAdd(f, multiset(FlowsOf(g.pairs)), multiset(g.flows), multiset(tail));
        BagAdd(pick.value, multiset(LinesOf(g.pairs)), multiset(g.lines), multiset(Without(lines, pick.value.id)));
      }
    }
  }

  lemma PairCons(p: Pair, pairs: seq<Pair>)
    ensures FlowsOf([p] + pairs) == [p.flow] + FlowsOf(pairs)
    ensures LinesOf([p] + pairs) == [p.line] + LinesOf(pairs)
    ensures Spread([p] + pairs) == Signed(p.flow) - Signed(p.line) + Spread(pairs)
  {
    assert ([p] + pairs)[1..] == pairs;
  }

  lemma PairBags(p: Pair, pairs: seq<Pair>)
    ensures multiset(FlowsOf([p] + pairs)) == multiset{p.flow} + multiset(FlowsOf(pairs))
    ensures multiset(LinesOf([p] + pairs)) == multiset{p.line} + multiset(LinesOf(pairs))
  {
    PairCons(p, pairs);
    BagCons(p.flow, FlowsOf(pairs));
    BagCons(p.line, LinesOf(pairs));
  }

  lemma {:induction false} GreedyIsSound(rule: Rule, flows: seq<Entry>, lines: seq<Entry>)
    ensures forall p :: p in Greedy(rule, flows, lines).pairs ==>
      p.flow in flows && p.line in lines && Compatible(rule, p.flow, p.line)
    ensures forall f :: f in Greedy(rule, flows, lines).flows ==> f in flows
    ensures forall l :: l in Greedy(rule, flows, lines).lines ==> l in lines
  {
    if flows != [] {
      var pick := FirstFit(rule, flows[0], lines);
      GreedyIsSound(rule, flows[1..], if pick.None? then lines else Without(lines, pick.value.id));
    }
  }

  /** No compatible flow and line are both left over. */
  lemma {:induction false} GreedyIsMaximal(rule: Rule, flows: seq<Entry>, lines: seq<Entry>)
    ensures forall f, l :: f in Greedy(rule, flows, lines).flows && l in Greedy(rule, flows, lines).lines ==>
      !Compatible(rule, f, l)
  {
    if flows != [] {
      var pick := FirstFit(rule, flows[0], lines);
      var rest := if pick.None? then lines else Without(lines, pick.value.id);
      GreedyIsMaximal(rule, flows[1..], rest);
      GreedyIsSound(rule, flows[1..], rest);
    }
  }

  // ── The buckets of a report ──

  lemma {:induction false} MatchingMembers(pairs: seq<Pair>)
    ensures forall p :: p in Matching(pairs) <==> p in pairs && SameAmount(p)
    ensures forall p :: p in Mismatching(pairs) <==> p in pairs && !SameAmount(p)
  {
    if pairs != [] {
      MatchingMembers(pairs[1..]);
    }
  }

  lemma {:induction false} MatchingSplits(pairs: seq<Pair>)
    ensures multiset(FlowsOf(Matching(pairs))) + multiset(FlowsOf(Mismatching(pairs))) == multiset(FlowsOf(pairs))
    ensures multiset(LinesOf(Matching(pairs))) + multiset(LinesOf(Mismatching(pairs))) == multiset(LinesOf(pairs))
  {
    if pairs != [] {
      var p, tail := pairs[0], pairs[1..];
      var m, n := Matching(tail), Mismatching(tail);
      MatchingSplits(tail);
      assert pairs == [p] + tail;
      PairBags(p, tail);
      PairBags(p, m);
      PairBags(p, n);
      BagAdd(p.flow, multiset(FlowsOf(m)), multiset(FlowsOf(n)), multiset(FlowsOf(tail)));
      BagAdd(p.line, multiset(LinesOf(m)), multiset(LinesOf(n)), multiset(LinesOf(tail)));
      MatchingStep(p, tail);
    }
  }

  lemma MatchingStep(p: Pair, tail: seq<Pair>)
    ensures Matching([p] + tail) == if SameAmount(p) then [p] + Matching(tail) else Matching(tail)
    ensures Mismatching([p] + tail) == if SameAmount(p) then Mismatching(tail) else [p] + Mismatching(tail)
  {
    assert ([p] + tail)[1..] == tail;
    assert [] + Matching(tail) == Matching(tail) && [] + Mismatching(tail) == Mismatching(tail);
  }

  lemma Shuffle(a: multiset<Entry>, b: multiset<Entry>, c: multiset<Entry>, d: multiset<Entry>,
                pairs: multiset<Entry>, left: multiset<Entry>, all: multiset<Entry>)
    requires a + c == pairs && b + d == left && pairs + left == all
    ensures a + b + c + d == all
  {
  }

  /** Every flow and every line ends up in exactly one bucket. */
  lemma ReportPartitions(windowMs: nat, flows: seq<Entry>, lines: seq<Entry>)
    requires DistinctIds(lines)
    ensures var r := Match(windowMs, flows, lines);
      && multiset(FlowsOf(r.viaRef)) + multiset(FlowsOf(r.viaWindow)) + multiset(FlowsOf(r.mismatch))
         + multiset(r.orphanFlows) == multiset(flows)
      && multiset(LinesOf(r.viaRef)) + multiset(LinesOf(r.viaWindow)) + multiset(LinesOf(r.mismatch))
         + multiset(r.orphanLines) == multiset(lines)
  {
    var byRef := Greedy(ByRef, flows, lines);
    GreedyPartitions(ByRef, flows, lines);
    GreedyPartitions(ByWindow(windowMs), byRef.flows, byRef.lines);
    MatchingSplits(byRef.pairs);
    var r := Match(windowMs, flows, lines);
    Shuffle(multiset(FlowsOf(r.viaRef)), multiset(FlowsOf(r.viaWindow)), multiset(FlowsOf(r.mismatch)),
            multiset(r.orphanFlows), multiset(FlowsOf(byRef.pairs)), multiset(byRef.flows), multiset(flows));
    Shuffle(multiset(LinesOf(r.viaRef)), multiset(LinesOf(r.viaWindow)), multiset(LinesOf(r.mismatch)),
            multiset(r.orphanLines), multiset(LinesOf(byRef.pairs)), multiset(byRef.lines), multiset(lines));
  }

  /** What each bucket means: matched pairs agree on direction and amount, mismatches share a
      reference and a direction but not the amount, and no orphan flow could have been paired
      with any orphan line. */
  lemma ReportIsSound(windowMs: nat, flows: seq<Entry>, lines: seq<Entry>)
    ensures var r := Match(windowMs, flows, lines);
      && (forall p :: p in r.viaRef ==> RefCompatible(p.flow, p.line) && SameAmount(p))
      && (forall p :: p in r.viaWindow ==> WindowCompatible(windowMs, p.flow, p.line))
      && (forall p :: p in r.mismatch ==> RefCompatible(p.flow, p.line) && !SameAmount(p))
      && (forall f, l :: f in r.orphanFlows && l in r.orphanLines ==>
            !RefCompatible(f, l) && !WindowCompatible(windowMs, f, l))
  {
    var byRef := Greedy(ByRef, flows, lines);
    GreedyIsSound(ByRef, flows, lines);
    GreedyIsMaximal(ByRef, flows, lines);
    GreedyIsSound(ByWindow(windowMs), byRef.flows, byRef.lines);
    GreedyIsMaximal(ByWindow(windowMs), byRef.flows, byRef.lines);
    MatchingMembers(byRef.pairs);
    var r := Match(windowMs, flows, lines);
    forall f, l | f in r.orphanFlows && l in r.orphanLines
      ensures !RefCompatible(f, l) && !WindowCompatible(windowMs, f, l)
    {
      assert f in byRef.flows && l in byRef.lines;
      assert !Compatible(ByRef, f, l) && !Compatible(ByWindow(windowMs), f, l);
    }
  }

  /** Each bucket, in the entries' own terms. */
  lemma ReportMeans(windowMs: nat, flows: seq<Entry>, lines: seq<Entry>)
    ensures var r := Match(windowMs, flows, lines);
      && (forall p :: p in r.viaRef ==>
            p.flow.ref.Some? && p.flow.ref.value != 0 && p.line.ref == p.flow.ref
            && p.line.direction == p.flow.direction && p.line.amount == p.flow.amount)
      && (forall p :: p in r.viaWindow ==>
            p.line.direction == p.flow.direction && p.line.amount == p.flow.amount
            && p.flow.at - windowMs <= p.line.at <= p.flow.at + windowMs)
      && (forall p :: p in r.mismatch ==>
            p.flow.ref.Some? && p.flow.ref.value != 0 && p.line.ref == p.flow.ref
            && p.line.direction == p.flow.direction && p.line.amount != p.flow.amount)
  {
    ReportIsSound(windowMs, flows, lines);
  }

  /** The reference comes first: what the second pass pairs or leaves shares no reference and
      direction; and what it leaves does not agree on direction, amount and time either. */
  lemma LeftoversMean(windowMs: nat, flows: seq<Entry>, lines: seq<Entry>, f: Entry, l: Entry)
    requires
      var r := Match(windowMs, flows, lines);
      && (f in r.orphanFlows || exists p :: p in r.viaWindow && p.flow == f)
      && (l in r.orphanLines || exists p :: p in r.viaWindow && p.line == l)
    ensures f.ref.Some? && f.ref.value != 0 && l.ref == f.ref ==> l.direction != f.direction
    ensures
      var r := Match(windowMs, flows, lines);
      f in r.orphanFlows && l in r.orphanLines && l.direction == f.direction && l.amount == f.amount ==>
        l.at < f.at - windowMs || f.at + windowMs < l.at
  {
    var byRef := Greedy(ByRef, flows, lines);
    GreedyIsMaximal(ByRef, flows, lines);
    GreedyIsSound(ByWindow(windowMs), byRef.flows, byRef.lines);
    assert f in byRef.flows && l in byRef.lines;
    assert !Compatible(ByRef, f, l);
    ReportIsSound(windowMs, flows, lines);
  }

  // ── Conservation: the breaks explain the whole difference ──

  function Signed(e: Entry): int { if e.direction == IN then e.amount else 0 - e.amount }

  function SignedSum(s: seq<Entry>): int {
    if s == [] then 0 else Signed(s[0]) + SignedSum(s[1..])
  }

  /** How far the pairs' two sides are apart. */
  function Spread(pairs: seq<Pair>): int {
    if pairs == [] then 0 else Signed(pairs[0].flow) - Signed(pairs[0].line) + Spread(pairs[1..])
  }

  lemma {:induction false} WithoutSum(lines: seq<Entry>, l: Entry)
    requires DistinctIds(lines) && l in lines
    ensures SignedSum(lines) == SignedSum(Without(lines, l.id)) + Signed(l)
  {
    if lines[0] == l {
      WithoutNothing(lines[1..], l.id);
      assert [] + lines[1..] == lines[1..];
    } else {
      WithoutSum(lines[1..], l);
      assert ([lines[0]] + Without(lines[1..], l.id))[1..] == Without(lines[1..], l.id);
    }
  }

  lemma {:induction false} GreedyConserves(rule: Rule, flows: seq<Entry>, lines: seq<Entry>)
    requires DistinctIds(lines)
    ensures var g := Greedy(rule, flows, lines);
      SignedSum(flows) - SignedSum(lines) == Spread(g.pairs) + SignedSum(g.flows) - SignedSum(g.lines)
  {
    if flows != [] {
      var pick := FirstFit(rule, flows[0], lines);
      if pick.None? {
        GreedyConserves(rule, flows[1..], lines);
        var rest := Greedy(rule, flows[1..], lines);
        assert ([flows[0]] + rest.flows)[1..] == rest.flows;
      } else {
        WithoutSum(lines, pick.value);
        WithoutRemovesOne(lines, pick.value);
        GreedyConserves(rule, flows[1..], Without(lines, pick.value.id));
        var rest := Greedy(rule, flows[1..], Without(lines, pick.value.id));
        assert ([Pair(flows[0], pick.value)] + rest.pairs)[1..] == rest.pairs;
      }
    }
  }

  lemma {:induction false} SpreadOfEqual(pairs: seq<Pair>)
    requires forall p :: p in pairs ==> Signed(p.flow) == Signed(p.line)
    ensures Spread(pairs) == 0
  {
    if pairs != [] {
      SpreadOfEqual(pairs[1..]);
    }
  }

  lemma {:induction false} SpreadIsMismatch(pairs: seq<Pair>)
    requires forall p :: p in pairs ==> p.flow.direction == p.line.direction
    ensures Spread(pairs) == Spread(Mismatching(pairs))
  {
    if pairs != [] {
      SpreadIsMismatch(pairs[1..]);
      assert pairs == [pairs[0]] + pairs[1..];
      MatchingStep(pairs[0], pairs[1..]);
      PairCons(pairs[0], Mismatching(pairs[1..]));
    }
  }

  /** The wallet's difference is, to the cent, what the mismatches and the orphans add up to. */
  lemma BreaksExplainDifference(windowMs: nat, flows: seq<Entry>, lines: seq<Entry>)
    requires DistinctIds(lines)
    ensures var r := Match(windowMs, flows, lines);
      SignedSum(flows) - SignedSum(lines) == Spread(r.mismatch) + SignedSum(r.orphanFlows) - SignedSum(r.orphanLines)
  {
    hide Greedy, SignedSum, Spread, Matching, Mismatching, DistinctIds;
    var byRef := Greedy(ByRef, flows, lines);
    GreedyPartitions(ByRef, flows, lines);
    GreedyConserves(ByRef, flows, lines);
    GreedyConserves(ByWindow(windowMs), byRef.flows, byRef.lines);
    GreedyIsSound(ByRef, flows, lines);
    GreedyIsSound(ByWindow(windowMs), byRef.flows, byRef.lines);
    SpreadIsMismatch(byRef.pairs);
    SpreadOfEqual(Greedy(ByWindow(windowMs), byRef.flows, byRef.lines).pairs);
  }
}
