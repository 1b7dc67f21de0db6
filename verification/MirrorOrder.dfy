/** The exact condition under which a mirror is clean in whatever order its rows are read. */
module MirrorOrder {
  import opened Prelude
  import opened FlowMatching
  import opened MirrorMatching

  /** Flows that share a reference and a direction have one amount. */
  ghost predicate Unambiguous(flows: seq<Entry>) {
    forall a, b :: a in flows && b in flows ==> !Ambiguous(a, b)
  }

  predicate Ambiguous(a: Entry, b: Entry) {
    RefCompatible(a, b) && a.amount != b.amount
  }

  /** Among flows without a reference, being within the window of each other is transitive. */
  ghost predicate WindowTransitive(windowMs: nat, flows: seq<Entry>) {
    forall a, b, c :: a in flows && b in flows && c in flows ==> !Bridged(windowMs, a, b, c)
  }

  /** `b` could be paired with either of `a` and `c`, which could not be paired with each other. */
  predicate Bridged(windowMs: nat, a: Entry, b: Entry, c: Entry) {
    && !HasRef(a) && !HasRef(b) && !HasRef(c)
    && WindowCompatible(windowMs, a, b) && WindowCompatible(windowMs, b, c) && !WindowCompatible(windowMs, a, c)
  }

  // ── Sufficient ──

  lemma {:induction false} AlignedAssigns(rule: Rule, flows: seq<Entry>, ws: seq<Entry>)
    requires Aligned(flows, ws)
    ensures AllAssigned(rule, flows, ws)
  {
    if flows != [] {
      AlignedAssigns(rule, flows[1..], ws[1..]);
    }
  }

  lemma {:induction false} TwinOf(flows: seq<Entry>, ws: seq<Entry>, l: Entry) returns (f: Entry)
    requires Aligned(flows, ws) && l in ws
    ensures f in flows && Twin(f, l)
  {
    if l == ws[0] {
      f := flows[0];
    } else {
      f := TwinOf(flows[1..], ws[1..], l);
    }
  }

  /** When the reference pass serves every referenced flow, the others go on in their order. */
  lemma {:induction false} LeftIsRefless(flows: seq<Entry>, lines: seq<Entry>)
    requires NoRefs(Greedy(ByRef, flows, lines).flows)
    ensures Greedy(ByRef, flows, lines).flows == Refless(flows)
  {
    if flows != [] {
      var pick := FirstFit(ByRef, flows[0], lines);
      if pick.None? {
        var rest := Greedy(ByRef, flows[1..], lines);
        assert flows[0] in Greedy(ByRef, flows, lines).flows;
        assert forall e :: e in rest.flows ==> e in Greedy(ByRef, flows, lines).flows;
        LeftIsRefless(flows[1..], lines);
      } else {
        LeftIsRefless(flows[1..], Without(lines, pick.value.id));
      }
    }
  }

  lemma {:induction false} ReflessCount(s: seq<Entry>, e: Entry)
    ensures multiset(Refless(s))[e] == if HasRef(e) then 0 else multiset(s)[e]
  {
    if s != [] {
      assert s == [s[0]] + s[1..];
      ReflessCount(s[1..], e);
    }
  }

  lemma {:induction false} LinesOfMembers(pairs: seq<Pair>)
    ensures forall l :: l in LinesOf(pairs) ==> exists p :: p in pairs && p.line == l
  {
    if pairs != [] {
      LinesOfMembers(pairs[1..]);
      forall l | l in LinesOf(pairs) ensures exists p :: p in pairs && p.line == l {
        if l == pairs[0].line {
          assert pairs[0] in pairs;
        } else {
          assert l in LinesOf(pairs[1..]);
          var p :| p in pairs[1..] && p.line == l;
          assert p in pairs;
        }
      }
    }
  }

  /** The lines left by such a reference pass are those without a reference. */
  lemma LeftLines(flows: seq<Entry>, lines: seq<Entry>, ws: seq<Entry>)
    requires DistinctIds(lines) && multiset(ws) == multiset(lines) && NoRefs(Greedy(ByRef, flows, lines).lines)
    ensures multiset(Greedy(ByRef, flows, lines).lines) == multiset(Refless(ws))
  {
    var g := Greedy(ByRef, flows, lines);
    GreedyPartitions(ByRef, flows, lines);
    GreedyIsSound(ByRef, flows, lines);
    LinesOfMembers(g.pairs);
    forall e ensures multiset(g.lines)[e] == multiset(Refless(ws))[e] {
      ReflessCount(ws, e);
      assert multiset(LinesOf(g.pairs))[e] + multiset(g.lines)[e] == multiset(lines)[e];
      if HasRef(e) {
        assert e !in g.lines;
      } else {
        assert e !in LinesOf(g.pairs);
      }
    }
  }

  /** Near is symmetric; with transitivity it makes compatibility block-like. */
  lemma NearIsBlockLike(windowMs: nat, flows: seq<Entry>, ws: seq<Entry>, lines: seq<Entry>)
    requires Aligned(flows, ws) && NoRefs(flows) && WindowTransitive(windowMs, flows)
    requires forall l :: l in lines ==> l in ws
    ensures BlockLike(ByWindow(windowMs), flows, lines)
  {
    var rule := ByWindow(windowMs);
    forall f, f', l, l' | f in flows && f' in flows && l in lines && l' in lines
      && Compatible(rule, f, l) && Compatible(rule, f, l') && Compatible(rule, f', l')
      ensures Compatible(rule, f', l)
    {
      var t := TwinOf(flows, ws, l);
      var t' := TwinOf(flows, ws, l');
      assert !Bridged(windowMs, f', t', f);
      assert !Bridged(windowMs, f', f, t);
    }
  }

  lemma RefPairsAgree(flows: seq<Entry>, lines: seq<Entry>, ws: seq<Entry>)
    requires Aligned(flows, ws) && multiset(ws) == multiset(lines) && Unambiguous(flows)
    ensures Mismatching(Greedy(ByRef, flows, lines).pairs) == []
  {
    GreedyIsSound(ByRef, flows, lines);
    forall p | p in Greedy(ByRef, flows, lines).pairs ensures SameAmount(p) {
      assert p.line in multiset(lines) && p.line in ws;
      var z := TwinOf(flows, ws, p.line);
      assert !Ambiguous(p.flow, z);
    }
    NoMismatch(Greedy(ByRef, flows, lines).pairs);
  }

  lemma AnyOrderIsClean(windowMs: nat, flows: seq<Entry>, lines: seq<Entry>)
    requires Mirrors(flows, lines) && Unambiguous(flows) && WindowTransitive(windowMs, flows)
    ensures Clean(Match(windowMs, flows, lines))
  {
    var ws :| Aligned(flows, ws) && multiset(ws) == multiset(lines);
    var g := Greedy(ByRef, flows, lines);
    AlignedAssigns(ByRef, flows, ws);
    assert multiset(ws) + multiset([]) == multiset(lines);
    FirstFitServesAll(ByRef, flows, lines, ws, []);
    LeftIsRefless(flows, lines);
    LeftLines(flows, lines, ws);
    ReflessAligned(flows, ws);
    GreedyPartitions(ByRef, flows, lines);
    RefPairsAgree(flows, lines, ws);
    WindowPassServesAll(windowMs, flows, g.flows, g.lines, Refless(ws));
  }

  lemma WindowPassServesAll(windowMs: nat, all: seq<Entry>, flows: seq<Entry>, lines: seq<Entry>, ws: seq<Entry>)
    requires WindowTransitive(windowMs, all) && flows == Refless(all)
    requires DistinctIds(lines) && Aligned(flows, ws) && multiset(lines) == multiset(ws)
    ensures Greedy(ByWindow(windowMs), flows, lines).flows == [] && Greedy(ByWindow(windowMs), flows, lines).lines == []
  {
    ReflessMembers(all);
    AlignedAssigns(ByWindow(windowMs), flows, ws);
    forall l | l in lines ensures l in ws {
      assert l in multiset(lines);
    }
    NearIsBlockLike(windowMs, flows, ws, lines);
    assert multiset(ws) + multiset([]) == multiset(lines);
    FirstFitServesAll(ByWindow(windowMs), flows, lines, ws, []);
    var h := Greedy(ByWindow(windowMs), flows, lines);
    HeadIsMember(h.flows);
    HeadIsMember(h.lines);
  }

  lemma HeadIsMember(s: seq<Entry>)
    ensures s != [] ==> s[0] in s
  {
  }

  // ── Necessary ──

  lemma {:induction false} AlignedSelf(s: seq<Entry>)
    ensures Aligned(s, s)
  {
    if s != [] {
      AlignedSelf(s[1..]);
    }
  }

  lemma {:induction false} SameIdSameEntry(s: seq<Entry>, x: Entry, y: Entry)
    requires DistinctIds(s) && x in s && y in s && x.id == y.id
    ensures x == y
  {
    if x in s[1..] && y in s[1..] {
      SameIdSameEntry(s[1..], x, y);
    }
  }

  lemma ApartIds(s: seq<Entry>, x: Entry, y: Entry)
    requires DistinctIds(s) && x in s && y in s && x != y
    ensures x.id != y.id
  {
    if x.id == y.id {
      SameIdSameEntry(s, x, y);
    }
  }

  lemma PermutationMirrors(flows: seq<Entry>, lines: seq<Entry>)
    requires multiset(lines) == multiset(flows) && DistinctIds(lines)
    ensures Mirrors(flows, lines)
  {
    AlignedSelf(flows);
  }

  lemma OthersOfTwo(flows: seq<Entry>, a: Entry, b: Entry) returns (others: seq<Entry>)
    requires DistinctIds(flows) && a in flows && b in flows && a != b
    ensures DistinctIds(others) && NoId(others, a.id) && NoId(others, b.id) && a.id != b.id
    ensures forall e :: e in others ==> e in flows
    ensures forall e :: e in flows && e.id != a.id && e.id != b.id ==> e in others
    ensures multiset(flows) == multiset{a, b} + multiset(others)
  {
    ApartIds(flows, a, b);
    var rest := Without(flows, a.id);
    WithoutRemovesOne(flows, a);
    others := Without(rest, b.id);
    WithoutRemovesOne(rest, b);
  }

  lemma TwoOrders(others: seq<Entry>, a: Entry, b: Entry)
    requires DistinctIds(others) && NoId(others, a.id) && NoId(others, b.id) && a.id != b.id
    ensures multiset([a] + ([b] + others)) == multiset{a, b} + multiset(others)
    ensures multiset([b] + ([a] + others)) == multiset{a, b} + multiset(others)
    ensures DistinctIds([b] + ([a] + others))
  {
    DistinctCons(a, others);
    DistinctCons(b, [a] + others);
  }

  /** Two ambiguous flows, read in opposite orders, come out as a mismatch. */
  lemma AmbiguityBreaks(windowMs: nat, flows: seq<Entry>, a: Entry, b: Entry)
      returns (flows': seq<Entry>, lines: seq<Entry>)
    requires DistinctIds(flows) && a in flows && b in flows && Ambiguous(a, b)
    ensures multiset(flows') == multiset(flows) && Mirrors(flows', lines) && !Clean(Match(windowMs, flows', lines))
  {
    var others := OthersOfTwo(flows, a, b);
    flows' := [a] + ([b] + others);
    lines := [b] + ([a] + others);
    TwoOrders(others, a, b);
    PermutationMirrors(flows', lines);
    CrossedPairMismatches(others, a, b);
  }

  lemma CrossedPairMismatches(others: seq<Entry>, a: Entry, b: Entry)
    requires Ambiguous(a, b)
    ensures Mismatching(Greedy(ByRef, [a] + ([b] + others), [b] + ([a] + others)).pairs) != []
  {
    var lines := [b] + ([a] + others);
    assert [] + lines == lines;
    FirstFitAfter(ByRef, a, [], b, [a] + others);
    GreedyTakes(ByRef, a, [b] + others, lines, b);
    MatchingStep(Pair(a, b), Greedy(ByRef, [b] + others, Without(lines, b.id)).pairs);
  }

  /** Three bridged flows can be read so that the bridge is used up and the far ends are left. */
  lemma BridgeBreaks(windowMs: nat, flows: seq<Entry>, a: Entry, b: Entry, c: Entry)
    returns (flows': seq<Entry>, lines: seq<Entry>)
    requires DistinctIds(flows) && a in flows && b in flows && c in flows && Bridged(windowMs, a, b, c)
    ensures multiset(flows') == multiset(flows) && Mirrors(flows', lines) && !Clean(Match(windowMs, flows', lines))
  {
    var others := Others(flows, a, b, c);
    flows' := [a] + ([b] + (others + [c]));
    lines := [b] + ([c] + (others + [a]));
    BridgeBags(others, a, b, c);
    BridgeBags(others, b, c, a);
    BridgeDistinct(others, a, b, c);
    PermutationMirrors(flows', lines);
    BridgeLeavesOrphan(windowMs, others, a, b, c);
  }

  lemma BridgeLeavesOrphan(windowMs: nat, others: seq<Entry>, a: Entry, b: Entry, c: Entry)
    requires Bridged(windowMs, a, b, c) && DistinctIds([b] + ([c] + (others + [a])))
    ensures Match(windowMs, [a] + ([b] + (others + [c])), [b] + ([c] + (others + [a]))).orphanFlows == [c]
  {
    GreedyPartitions(ByRef, [a] + ([b] + (others + [c])), [b] + ([c] + (others + [a])));
    BridgeRefPass(others, a, b, c);
    BridgeWindowPass(windowMs, Refless(others), a, b, c);
  }

  lemma Others(flows: seq<Entry>, a: Entry, b: Entry, c: Entry) returns (others: seq<Entry>)
    requires DistinctIds(flows) && a in flows && b in flows && c in flows && a != b && b != c && a != c
    ensures DistinctIds(others) && NoId(others, a.id) && NoId(others, b.id) && NoId(others, c.id)
    ensures a.id != b.id && b.id != c.id && a.id != c.id
    ensures multiset(flows) == multiset{a, b, c} + multiset(others)
  {
    ApartIds(flows, a, c);
    ApartIds(flows, b, c);
    var rest := OthersOfTwo(flows, a, b);
    others := Without(rest, c.id);
    WithoutRemovesOne(rest, c);
    AddThird(a, b, c, multiset(rest), multiset(others));
  }

  lemma AddThird(a: Entry, b: Entry, c: Entry, rest: multiset<Entry>, others: multiset<Entry>)
    requires rest == others + multiset{c}
    ensures multiset{a, b} + rest == multiset{a, b, c} + others
  {
  }

  lemma BridgeBags(others: seq<Entry>, a: Entry, b: Entry, c: Entry)
    ensures multiset([a] + ([b] + (others + [c]))) == multiset{a, b, c} + multiset(others)
  {
    BagCons(a, [b] + (others + [c]));
    BagCons(b, others + [c]);
    assert multiset(others + [c]) == multiset(others) + multiset{c};
  }

  lemma BridgeDistinct(others: seq<Entry>, a: Entry, b: Entry, c: Entry)
    requires DistinctIds(others) && NoId(others, a.id) && NoId(others, b.id) && NoId(others, c.id)
    requires a.id != b.id && b.id != c.id && a.id != c.id
    ensures DistinctIds([b] + ([c] + (others + [a])))
  {
    assert DistinctIds([a]) && Apart(others, [a]);
    DistinctJoin(others, [a]);
    DistinctCons(c, others + [a]);
    DistinctCons(b, [c] + (others + [a]));
  }

  lemma BridgeRefPass(others: seq<Entry>, a: Entry, b: Entry, c: Entry)
    requires !HasRef(a) && !HasRef(b) && !HasRef(c) && DistinctIds([b] + ([c] + (others + [a])))
    ensures
      var g := Greedy(ByRef, [a] + ([b] + (others + [c])), [b] + ([c] + (others + [a])));
      g.flows == [a] + ([b] + (Refless(others) + [c])) && g.lines == [b] + ([c] + (Refless(others) + [a]))
  {
    var lines := [b] + ([c] + (others + [a]));
    Assoc([b], [c], others + [a]);
    Assoc([b], [c], Refless(others) + [a]);
    AlignedSelf(others);
    RefPassAligned(others, others, [b] + [c], [c], [a]);
    GreedySkips(ByRef, b, others + [c], lines);
    GreedySkips(ByRef, a, [b] + (others + [c]), lines);
  }

  lemma BridgeWindowPass(windowMs: nat, others: seq<Entry>, a: Entry, b: Entry, c: Entry)
    requires Bridged(windowMs, a, b, c) && DistinctIds([b] + ([c] + (others + [a])))
    ensures Greedy(ByWindow(windowMs), [a] + ([b] + (others + [c])), [b] + ([c] + (others + [a]))).flows == [c]
  {
    var rule := ByWindow(windowMs);
    var l1 := [c] + (others + [a]);
    assert [] + ([b] + l1) == [b] + l1;
    FirstFitAfter(rule, a, [], b, l1);
    WithoutAfter([], b, l1);
    assert [] + l1 == l1;
    GreedyTakes(rule, a, [b] + (others + [c]), [b] + l1, b);
    assert [] + ([c] + (others + [a])) == l1;
    FirstFitAfter(rule, b, [], c, others + [a]);
    WithoutAfter([], c, others + [a]);
    assert [] + (others + [a]) == others + [a];
    GreedyTakes(rule, b, others + [c], l1, c);
    AlignedSelf(others);
    WindowPassAligned(windowMs, others, others, [c], [a]);
    FarEnds(windowMs, a, b, c);
  }

  lemma FarEnds(windowMs: nat, a: Entry, b: Entry, c: Entry)
    requires Bridged(windowMs, a, b, c)
    ensures Greedy(ByWindow(windowMs), [c], [a]) == Pairing([], [c], [a])
  {
    assert FirstFit(ByWindow(windowMs), c, [a]) == None;
    GreedySkips(ByWindow(windowMs), c, [], [a]);
    assert [c] + [] == [c];
  }

  /** Exactly which wallets reconcile clean against a faithful mirror however the database orders
      its rows: those without ambiguous references and without bridged unreferenced flows. */
  lemma CleanInEveryOrder(windowMs: nat, flows: seq<Entry>)
    requires DistinctIds(flows)
    ensures (forall flows', lines :: multiset(flows') == multiset(flows) && Mirrors(flows', lines) ==>
               Clean(Match(windowMs, flows', lines)))
       <==> Unambiguous(flows) && WindowTransitive(windowMs, flows)
  {
    if Unambiguous(flows) && WindowTransitive(windowMs, flows) {
      forall flows', lines | multiset(flows') == multiset(flows) && Mirrors(flows', lines)
        ensures Clean(Match(windowMs, flows', lines))
      {
        forall f | f in flows' ensures f in flows {
          assert f in multiset(flows');
        }
        AnyOrderIsClean(windowMs, flows', lines);
      }
    } else if !Unambiguous(flows) {
      var a, b :| a in flows && b in flows && Ambiguous(a, b);
      var flows', lines := AmbiguityBreaks(windowMs, flows, a, b);
    } else {
      var a, b, c :| a in flows && b in flows && c in flows && Bridged(windowMs, a, b, c);
      var flows', lines := BridgeBreaks(windowMs, flows, a, b, c);
    }
  }

  /** Distinct references are enough. */
  lemma DistinctRefsAreClean(windowMs: nat, flows: seq<Entry>, lines: seq<Entry>)
    requires Mirrors(flows, lines)
    requires forall f :: f in flows ==> HasRef(f)
    requires forall f, g :: f in flows && g in flows && f.ref == g.ref ==> f == g
    ensures Clean(Match(windowMs, flows, lines))
  {
    AnyOrderIsClean(windowMs, flows, lines);
  }
}
