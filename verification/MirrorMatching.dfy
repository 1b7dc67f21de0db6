/** When does the matcher find a faithful mirror of the internal flows clean? Always, if both
    queries return the rows in the same order; in every order, exactly when references are
    unambiguous and the time window is transitive on the flows that carry none. */
module MirrorMatching {
  import opened Prelude
  import opened FlowMatching

  /** The statement line a mirror writes for a flow. */
  predicate Twin(f: Entry, l: Entry) {
    l.direction == f.direction && l.amount == f.amount && l.ref == f.ref && l.at == f.at
  }

  /** Line k is the twin of flow k. */
  predicate Aligned(flows: seq<Entry>, lines: seq<Entry>) {
    |flows| == |lines| && (flows == [] || (Twin(flows[0], lines[0]) && Aligned(flows[1..], lines[1..])))
  }

  /** The lines mirror the flows, in whatever order. */
  ghost predicate Mirrors(flows: seq<Entry>, lines: seq<Entry>) {
    DistinctIds(lines) && exists ws :: Aligned(flows, ws) && multiset(ws) == multiset(lines)
  }

  function Refless(s: seq<Entry>): seq<Entry> {
    if s == [] then [] else (if HasRef(s[0]) then [] else [s[0]]) + Refless(s[1..])
  }

  lemma {:induction false} ReflessMembers(s: seq<Entry>)
    ensures forall e :: e in Refless(s) <==> e in s && !HasRef(e)
  {
    if s != [] {
      ReflessMembers(s[1..]);
    }
  }

  lemma {:induction false} ReflessAligned(flows: seq<Entry>, lines: seq<Entry>)
    requires Aligned(flows, lines)
    ensures Aligned(Refless(flows), Refless(lines))
  {
    if flows != [] {
      ReflessAligned(flows[1..], lines[1..]);
      if HasRef(flows[0]) {
        assert Refless(flows) == Refless(flows[1..]) && Refless(lines) == Refless(lines[1..]);
      } else {
        assert ([flows[0]] + Refless(flows[1..]))[1..] == Refless(flows[1..]);
        assert ([lines[0]] + Refless(lines[1..]))[1..] == Refless(lines[1..]);
      }
    }
  }

  // ── One step of a pass ──

  lemma GreedyTakes(rule: Rule, f: Entry, tail: seq<Entry>, lines: seq<Entry>, l: Entry)
    requires FirstFit(rule, f, lines) == Some(l)
    ensures
      var g := Greedy(rule, tail, Without(lines, l.id));
      Greedy(rule, [f] + tail, lines) == Pairing([Pair(f, l)] + g.pairs, g.flows, g.lines)
  {
    assert ([f] + tail)[1..] == tail;
  }

  lemma GreedySkips(rule: Rule, f: Entry, tail: seq<Entry>, lines: seq<Entry>)
    requires FirstFit(rule, f, lines) == None
    ensures
      var g := Greedy(rule, tail, lines);
      Greedy(rule, [f] + tail, lines) == Pairing(g.pairs, [f] + g.flows, g.lines)
  {
    assert ([f] + tail)[1..] == tail;
  }

  predicate NoneFits(rule: Rule, f: Entry, lines: seq<Entry>) {
    forall l :: l in lines ==> !Compatible(rule, f, l)
  }

  lemma {:induction false} FirstFitAfter(rule: Rule, f: Entry, skip: seq<Entry>, l: Entry, rest: seq<Entry>)
    requires NoneFits(rule, f, skip) && Compatible(rule, f, l)
    ensures FirstFit(rule, f, skip + ([l] + rest)) == Some(l)
  {
    if skip == [] {
      assert skip + ([l] + rest) == [l] + rest;
    } else {
      assert (skip + ([l] + rest))[1..] == skip[1..] + ([l] + rest);
      assert NoneFits(rule, f, skip[1..]);
      FirstFitAfter(rule, f, skip[1..], l, rest);
    }
  }

  predicate Apart(a: seq<Entry>, b: seq<Entry>) { forall x :: x in a ==> NoId(b, x.id) }

  lemma {:induction false} DistinctSplit(a: seq<Entry>, b: seq<Entry>)
    requires DistinctIds(a + b)
    ensures DistinctIds(a) && DistinctIds(b) && Apart(a, b)
  {
    if a == [] {
      assert a + b == b;
    } else {
      assert (a + b)[1..] == a[1..] + b;
      DistinctSplit(a[1..], b);
      assert NoId(a[1..] + b, a[0].id);
      forall x | x in a[1..] || x in b ensures x in a[1..] + b { }
    }
  }

  lemma {:induction false} DistinctJoin(a: seq<Entry>, b: seq<Entry>)
    requires DistinctIds(a) && DistinctIds(b) && Apart(a, b)
    ensures DistinctIds(a + b)
  {
    if a == [] {
      assert a + b == b;
    } else {
      assert (a + b)[1..] == a[1..] + b && NoId(b, a[0].id);
      DistinctJoin(a[1..], b);
    }
  }

  lemma {:induction false} WithoutConcat(a: seq<Entry>, b: seq<Entry>, id: nat)
    ensures Without(a + b, id) == Without(a, id) + Without(b, id)
  {
    if a == [] {
      assert a + b == b;
    } else {
      assert (a + b)[1..] == a[1..] + b;
      WithoutConcat(a[1..], b, id);
    }
  }

  lemma WithoutAfter(skip: seq<Entry>, l: Entry, rest: seq<Entry>)
    requires DistinctIds(skip + ([l] + rest))
    ensures Without(skip + ([l] + rest), l.id) == skip + rest && DistinctIds(skip + rest)
  {
    DistinctSplit(skip, [l] + rest);
    assert ([l] + rest)[1..] == rest && ([l] + rest)[0] == l && l in [l] + rest;
    assert NoId(skip, l.id);
    assert Apart(skip, rest) by {
      forall x | x in skip ensures NoId(rest, x.id) {
        assert NoId([l] + rest, x.id);
        forall e | e in rest ensures e in [l] + rest { }
      }
    }
    WithoutNothing(skip, l.id);
    WithoutNothing(rest, l.id);
    WithoutConcat(skip, [l] + rest, l.id);
    assert Without([l] + rest, l.id) == rest;
    DistinctJoin(skip, rest);
  }

  // ── Same order ──

  predicate NoRefs(s: seq<Entry>) { forall e :: e in s ==> !HasRef(e) }

  /** The reference pass on aligned lists, between lines and flows that carry no reference, pairs
      every referenced flow with its own twin. */
  lemma {:induction false} RefPassAligned(
      flows: seq<Entry>, lines: seq<Entry>, skip: seq<Entry>, moreFlows: seq<Entry>, moreLines: seq<Entry>)
    requires Aligned(flows, lines) && DistinctIds(skip + (lines + moreLines))
    requires NoRefs(skip) && NoRefs(moreFlows) && NoRefs(moreLines)
    ensures var g := Greedy(ByRef, flows + moreFlows, skip + (lines + moreLines));
      && g.flows == Refless(flows) + moreFlows
      && g.lines == skip + (Refless(lines) + moreLines)
      && forall p :: p in g.pairs ==> SameAmount(p)
    decreases |flows|
  {
    if flows == [] {
      assert flows + moreFlows == moreFlows && lines + moreLines == moreLines;
      assert Refless(flows) + moreFlows == moreFlows && Refless(lines) + moreLines == moreLines;
      NoRefNoPair(moreFlows, skip + (lines + moreLines));
    } else {
      assert flows == [flows[0]] + flows[1..] && lines == [lines[0]] + lines[1..];
      assert flows + moreFlows == [flows[0]] + (flows[1..] + moreFlows);
      assert lines + moreLines == [lines[0]] + (lines[1..] + moreLines);
      if HasRef(flows[0]) {
        RefPassPairs(flows, lines, skip, moreFlows, moreLines);
      } else {
        RefPassSkips(flows, lines, skip, moreFlows, moreLines);
      }
    }
  }

  lemma {:induction false} RefPassPairs(
      flows: seq<Entry>, lines: seq<Entry>, skip: seq<Entry>, moreFlows: seq<Entry>, moreLines: seq<Entry>)
    requires flows != [] && Aligned(flows, lines) && HasRef(flows[0])
    requires DistinctIds(skip + ([lines[0]] + (lines[1..] + moreLines)))
    requires NoRefs(skip) && NoRefs(moreFlows) && NoRefs(moreLines)
    ensures var g := Greedy(ByRef, [flows[0]] + (flows[1..] + moreFlows),
        skip + ([lines[0]] + (lines[1..] + moreLines)));
      && g.flows == Refless(flows) + moreFlows
      && g.lines == skip + (Refless(lines) + moreLines)
      && forall p :: p in g.pairs ==> SameAmount(p)
    decreases |flows|, 0
  {
    var f, l := flows[0], lines[0];
    assert NoneFits(ByRef, f, skip);
    FirstFitAfter(ByRef, f, skip, l, lines[1..] + moreLines);
    WithoutAfter(skip, l, lines[1..] + moreLines);
    GreedyTakes(ByRef, f, flows[1..] + moreFlows, skip + ([l] + (lines[1..] + moreLines)), l);
    RefPassAligned(flows[1..], lines[1..], skip, moreFlows, moreLines);
    assert Refless(flows) == Refless(flows[1..]) && Refless(lines) == Refless(lines[1..]);
  }

  lemma {:induction false} RefPassSkips(
      flows: seq<Entry>, lines: seq<Entry>, skip: seq<Entry>, moreFlows: seq<Entry>, moreLines: seq<Entry>)
    requires flows != [] && Aligned(flows, lines) && !HasRef(flows[0])
    requires DistinctIds(skip + ([lines[0]] + (lines[1..] + moreLines)))
    requires NoRefs(skip) && NoRefs(moreFlows) && NoRefs(moreLines)
    ensures var g := Greedy(ByRef, [flows[0]] + (flows[1..] + moreFlows),
        skip + ([lines[0]] + (lines[1..] + moreLines)));
      && g.flows == Refless(flows) + moreFlows
      && g.lines == skip + (Refless(lines) + moreLines)
      && forall p :: p in g.pairs ==> SameAmount(p)
    decreases |flows|, 0
  {
    var f, l := flows[0], lines[0];
    var flows', lines' := flows[1..] + moreFlows, lines[1..] + moreLines;
    Assoc(skip, [l], lines');
    assert NoRefs(skip + [l]);
    RefPassAligned(flows[1..], lines[1..], skip + [l], moreFlows, moreLines);
    GreedySkips(ByRef, f, flows', (skip + [l]) + lines');
    Assoc([f], Refless(flows[1..]), moreFlows);
    Assoc(skip, [l], Refless(lines[1..]) + moreLines);
    Assoc([l], Refless(lines[1..]), moreLines);
  }

  lemma Assoc(a: seq<Entry>, b: seq<Entry>, c: seq<Entry>)
    ensures a + (b + c) == (a + b) + c
  {
  }

  lemma {:induction false} NoRefNoPair(flows: seq<Entry>, lines: seq<Entry>)
    requires NoRefs(flows)
    ensures Greedy(ByRef, flows, lines) == Pairing([], flows, lines)
  {
    if flows != [] {
      assert NoRefs(flows[1..]);
      NoRefNoPair(flows[1..], lines);
      assert [flows[0]] + flows[1..] == flows;
    }
  }

  /** The window pass on aligned lists consumes them pairwise and goes on with the rest. */
  lemma {:induction false} WindowPassAligned(
      windowMs: nat, flows: seq<Entry>, lines: seq<Entry>, moreFlows: seq<Entry>, moreLines: seq<Entry>)
    requires Aligned(flows, lines) && DistinctIds(lines + moreLines)
    ensures
      var g := Greedy(ByWindow(windowMs), flows + moreFlows, lines + moreLines);
      var h := Greedy(ByWindow(windowMs), moreFlows, moreLines);
      g.flows == h.flows && g.lines == h.lines
    decreases |flows|
  {
    if flows == [] {
      assert flows + moreFlows == moreFlows && lines + moreLines == moreLines;
    } else {
      var f, l, flows', lines' := flows[0], lines[0], flows[1..], lines[1..];
      assert flows + moreFlows == [f] + (flows' + moreFlows);
      assert lines + moreLines == [] + ([l] + (lines' + moreLines));
      FirstFitAfter(ByWindow(windowMs), f, [], l, lines' + moreLines);
      WithoutAfter([], l, lines' + moreLines);
      assert [] + (lines' + moreLines) == lines' + moreLines;
      GreedyTakes(ByWindow(windowMs), f, flows' + moreFlows, lines + moreLines, l);
      WindowPassAligned(windowMs, flows', lines', moreFlows, moreLines);
    }
  }

  lemma {:induction false} NoMismatch(pairs: seq<Pair>)
    requires forall p :: p in pairs ==> SameAmount(p)
    ensures Mismatching(pairs) == []
  {
    if pairs != [] {
      NoMismatch(pairs[1..]);
    }
  }

  /** A mirror in the flows' own order is clean, ambiguous references or not. */
  lemma SameOrderIsClean(windowMs: nat, flows: seq<Entry>, lines: seq<Entry>)
    requires Aligned(flows, lines) && DistinctIds(lines)
    ensures Clean(Match(windowMs, flows, lines))
  {
    assert flows + [] == flows && [] + (lines + []) == lines;
    RefPassAligned(flows, lines, [], [], []);
    var g := Greedy(ByRef, flows, lines);
    assert g.flows == Refless(flows) + [] && g.lines == Refless(lines) + [];
    GreedyPartitions(ByRef, flows, lines);
    ReflessAligned(flows, lines);
    WindowPassAligned(windowMs, Refless(flows), Refless(lines), [], []);
    NoMismatch(g.pairs);
  }

  // ── Any order ──

  predicate Eligible(rule: Rule, e: Entry) { rule.ByWindow? || HasRef(e) }

  /** Rows that share a partner share all partners. */
  ghost predicate BlockLike(rule: Rule, flows: seq<Entry>, lines: seq<Entry>) {
    forall f, f', l, l' :: f in flows && f' in flows && l in lines && l' in lines ==>
      Compatible(rule, f, l) && Compatible(rule, f, l') && Compatible(rule, f', l') ==> Compatible(rule, f', l)
  }

  predicate Assigned(rule: Rule, f: Entry, w: Entry) {
    if Eligible(rule, f) then Compatible(rule, f, w) else !Eligible(rule, w)
  }

  /** Each eligible flow has a compatible line of its own. */
  predicate AllAssigned(rule: Rule, flows: seq<Entry>, ws: seq<Entry>) {
    |ws| == |flows| && (flows == [] || (Assigned(rule, flows[0], ws[0]) && AllAssigned(rule, flows[1..], ws[1..])))
  }

  lemma {:induction false} AssignedAt(rule: Rule, flows: seq<Entry>, ws: seq<Entry>, j: nat)
    requires AllAssigned(rule, flows, ws) && j < |flows|
    ensures Assigned(rule, flows[j], ws[j])
  {
    if j > 0 {
      AssignedAt(rule, flows[1..], ws[1..], j - 1);
    }
  }

  lemma {:induction false} AssignedUpdate(rule: Rule, flows: seq<Entry>, ws: seq<Entry>, j: nat, w: Entry)
    requires AllAssigned(rule, flows, ws) && j < |flows| && Assigned(rule, flows[j], w)
    ensures AllAssigned(rule, flows, ws[j := w])
  {
    if j == 0 {
      assert ws[j := w][1..] == ws[1..];
    } else {
      AssignedUpdate(rule, flows[1..], ws[1..], j - 1, w);
      assert ws[j := w][1..] == ws[1..][j - 1 := w];
    }
  }

  lemma BagUpdate(s: seq<Entry>, j: nat, w: Entry)
    requires j < |s|
    ensures multiset(s[j := w]) + multiset{s[j]} == multiset(s) + multiset{w}
  {
    assert multiset(s[j := w]) == multiset(s)[s[j] := multiset(s)[s[j]] - 1] + multiset{w};
  }

  lemma BagDrop(a: multiset<Entry>, b: multiset<Entry>, c: multiset<Entry>, p: Entry)
    requires a + multiset{p} == (b + multiset{p}) + c
    ensures a == b + c
  {
    forall e ensures a[e] == (b + c)[e] {
      assert (a + multiset{p})[e] == ((b + multiset{p}) + c)[e];
    }
  }

  lemma BagMove(w: Entry, ws: seq<Entry>, extra: seq<Entry>)
    ensures multiset([w] + ws) + multiset(extra) == multiset(ws) + multiset(extra + [w])
  {
  }

  /** After the first flow took `pick`, an assignment for the others still exists. */
  lemma Reassign(rule: Rule, flows: seq<Entry>, lines: seq<Entry>, ws: seq<Entry>, extra: seq<Entry>, pick: Entry)
    returns (ws': seq<Entry>)
    requires flows != [] && AllAssigned(rule, flows, ws) && BlockLike(rule, flows, lines)
    requires multiset(lines) == multiset(ws) + multiset(extra) && forall e :: e in extra ==> !Eligible(rule, e)
    requires pick in lines && Compatible(rule, flows[0], pick)
    ensures AllAssigned(rule, flows[1..], ws')
    ensures multiset(ws') + multiset{pick} == multiset(ws)
  {
    assert ws == [ws[0]] + ws[1..];
    if pick == ws[0] {
      ws' := ws[1..];
    } else {
      var j := AssignedTo(rule, flows, lines, ws, extra, pick);
      ws' := ws[1..][j - 1 := ws[0]];
      AssignedUpdate(rule, flows[1..], ws[1..], j - 1, ws[0]);
      BagUpdate(ws[1..], j - 1, ws[0]);
    }
  }

  /** The picked line is assigned to some later flow, which can take the first one's line instead. */
  lemma AssignedTo(rule: Rule, flows: seq<Entry>, lines: seq<Entry>, ws: seq<Entry>, extra: seq<Entry>, pick: Entry)
    returns (j: nat)
    requires flows != [] && AllAssigned(rule, flows, ws) && BlockLike(rule, flows, lines)
    requires multiset(lines) == multiset(ws) + multiset(extra) && forall e :: e in extra ==> !Eligible(rule, e)
    requires pick in lines && Compatible(rule, flows[0], pick) && pick != ws[0]
    ensures 0 < j < |ws| && ws[j] == pick && Assigned(rule, flows[j], ws[0])
  {
    assert Eligible(rule, pick) && pick in multiset(lines);
    assert pick !in multiset(extra);
    assert pick in multiset(ws) && pick in ws;
    j :| 0 <= j < |ws| && ws[j] == pick;
    AssignedAt(rule, flows, ws, j);
    assert ws[0] in multiset(ws) && ws[0] in multiset(lines);
    assert flows[0] in flows && flows[j] in flows && ws[0] in lines;
  }

  lemma StillBlockLike(rule: Rule, flows: seq<Entry>, lines: seq<Entry>, lines': seq<Entry>)
    requires flows != [] && BlockLike(rule, flows, lines) && forall l :: l in lines' ==> l in lines
    ensures BlockLike(rule, flows[1..], lines')
  {
    forall f | f in flows[1..] ensures f in flows { }
  }

  /** A flow that finds no line was not eligible, nor is the line set aside for it. */
  lemma NothingAssigned(rule: Rule, flows: seq<Entry>, lines: seq<Entry>, ws: seq<Entry>, extra: seq<Entry>)
    requires flows != [] && AllAssigned(rule, flows, ws) && NoneFits(rule, flows[0], lines)
    requires multiset(lines) == multiset(ws) + multiset(extra)
    ensures !Eligible(rule, ws[0])
  {
    assert ws[0] in multiset(ws) && ws[0] in multiset(lines) && ws[0] in lines;
  }

  /** First fit needs no luck where compatibility is block-like: it serves every eligible row. */
  lemma {:induction false} FirstFitServesAll(
      rule: Rule, flows: seq<Entry>, lines: seq<Entry>, ws: seq<Entry>, extra: seq<Entry>)
    requires DistinctIds(lines) && BlockLike(rule, flows, lines) && AllAssigned(rule, flows, ws)
    requires multiset(lines) == multiset(ws) + multiset(extra) && forall e :: e in extra ==> !Eligible(rule, e)
    ensures forall f :: f in Greedy(rule, flows, lines).flows ==> !Eligible(rule, f)
    ensures forall l :: l in Greedy(rule, flows, lines).lines ==> !Eligible(rule, l)
    decreases |flows|
  {
    if flows == [] {
      assert forall l :: l in lines ==> l in multiset(lines);
    } else {
      var pick := FirstFit(rule, flows[0], lines);
      assert ws == [ws[0]] + ws[1..];
      if pick.Some? {
        var ws' := Reassign(rule, flows, lines, ws, extra, pick.value);
        WithoutRemovesOne(lines, pick.value);
        BagDrop(multiset(Without(lines, pick.value.id)), multiset(ws'), multiset(extra), pick.value);
        StillBlockLike(rule, flows, lines, Without(lines, pick.value.id));
        FirstFitServesAll(rule, flows[1..], Without(lines, pick.value.id), ws', extra);
      } else {
        NothingAssigned(rule, flows, lines, ws, extra);
        BagMove(ws[0], ws[1..], extra);
        StillBlockLike(rule, flows, lines, lines);
        FirstFitServesAll(rule, flows[1..], lines, ws[1..], extra + [ws[0]]);
      }
    }
  }
}
