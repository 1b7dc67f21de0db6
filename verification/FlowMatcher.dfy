/** The matcher as it runs: a map from references to lines, two sets of used ids, two loops. */
module FlowMatcher {
  import opened Prelude
  import opened FlowMatching

  // ── Used rows and remaining rows ──

  function Unused(s: seq<Entry>, used: set<nat>): (r: seq<Entry>)
    ensures forall e :: e in r <==> e in s && e.id !in used
  {
    if s == [] then [] else (if s[0].id in used then [] else [s[0]]) + Unused(s[1..], used)
  }

  lemma {:induction false} UnusedNone(s: seq<Entry>)
    ensures Unused(s, {}) == s
  {
    if s != [] {
      UnusedNone(s[1..]);
    }
  }

  /** Marking an id used takes its row out of the remaining ones. */
  lemma {:induction false} UseOne(s: seq<Entry>, used: set<nat>, id: nat)
    ensures Unused(s, used + {id}) == Without(Unused(s, used), id)
  {
    if s != [] {
      UseOne(s[1..], used, id);
      var tail := Unused(s[1..], used);
      if s[0].id !in used {
        assert ([s[0]] + tail)[1..] == tail;
        if s[0].id == id {
          assert Without([s[0]] + tail, id) == [] + Without(tail, id);
        }
      } else {
        assert [] + tail == tail && [] + Unused(s[1..], used + {id}) == Unused(s[1..], used + {id});
      }
    }
  }

  lemma {:induction false} UseElsewhere(s: seq<Entry>, used: set<nat>, id: nat)
    requires NoId(s, id)
    ensures Unused(s, used + {id}) == Unused(s, used)
  {
    if s != [] {
      assert NoId(s[1..], id);
      UseElsewhere(s[1..], used, id);
    }
  }

  lemma {:induction false} UnusedSnoc(s: seq<Entry>, e: Entry, used: set<nat>)
    ensures Unused(s + [e], used) == Unused(s, used) + (if e.id in used then [] else [e])
  {
    if s == [] {
      assert [] + [e] == [e] && [e][1..] == [];
    } else {
      assert (s + [e])[1..] == s[1..] + [e];
      UnusedSnoc(s[1..], e, used);
    }
  }

  // ── Finding the first remaining line that fits ──

  lemma {:induction false} FirstFitStep(rule: Rule, f: Entry, s: seq<Entry>, used: set<nat>, i: nat)
    requires i < |s|
    ensures FirstFit(rule, f, Unused(s[i..], used))
         == if s[i].id !in used && Compatible(rule, f, s[i]) then Some(s[i])
             else FirstFit(rule, f, Unused(s[i + 1..], used))
  {
    assert s[i..][1..] == s[i + 1..];
    if s[i].id in used {
      assert [] + Unused(s[i + 1..], used) == Unused(s[i + 1..], used);
    } else {
      assert ([s[i]] + Unused(s[i + 1..], used))[1..] == Unused(s[i + 1..], used);
    }
  }

  method FindFirst(rule: Rule, f: Entry, candidates: seq<Entry>, used: set<nat>) returns (r: Option<Entry>)
    ensures r == FirstFit(rule, f, Unused(candidates, used))
  {
    assert candidates[0..] == candidates;
    for i := 0 to |candidates|
      invariant FirstFit(rule, f, Unused(candidates, used)) == FirstFit(rule, f, Unused(candidates[i..], used))
    {
      FirstFitStep(rule, f, candidates, used, i);
      if candidates[i].id !in used && Compatible(rule, f, candidates[i]) {
        return Some(candidates[i]);
      }
    }
    return None;
  }

  // ── Lines grouped by reference ──

  function WithRef(s: seq<Entry>, ref: Ref): seq<Entry> {
    if s == [] then [] else (if s[0].ref == Some(ref) then [s[0]] else []) + WithRef(s[1..], ref)
  }

  lemma Associates<T>(a: seq<T>, b: seq<T>, c: seq<T>)
    ensures a + (b + c) == (a + b) + c
  {
  }

  lemma {:induction false} WithRefSnoc(s: seq<Entry>, e: Entry, ref: Ref)
    ensures WithRef(s + [e], ref) == WithRef(s, ref) + (if e.ref == Some(ref) then [e] else [])
  {
    if s == [] {
      assert [] + [e] == [e] && [e][1..] == [];
    } else {
      assert (s + [e])[1..] == s[1..] + [e];
      WithRefSnoc(s[1..], e, ref);
      Associates(if s[0].ref == Some(ref) then [s[0]] else [], WithRef(s[1..], ref),
                 if e.ref == Some(ref) then [e] else []);
    }
  }

  lemma HeadFit(rule: Rule, f: Entry, e: Entry, tail: seq<Entry>)
    ensures FirstFit(rule, f, [e] + tail) == if Compatible(rule, f, e) then Some(e) else FirstFit(rule, f, tail)
  {
    assert ([e] + tail)[1..] == tail;
  }

  lemma HeadUnused(e: Entry, tail: seq<Entry>, used: set<nat>)
    ensures Unused([e] + tail, used) == if e.id in used then Unused(tail, used) else [e] + Unused(tail, used)
  {
    assert ([e] + tail)[1..] == tail && [] + Unused(tail, used) == Unused(tail, used);
  }

  /** Looking only at the lines with the flow's reference finds the same line. */
  lemma {:induction false} WithRefFits(s: seq<Entry>, ref: Ref, used: set<nat>, f: Entry)
    requires f.ref == Some(ref)
    ensures FirstFit(ByRef, f, Unused(WithRef(s, ref), used)) == FirstFit(ByRef, f, Unused(s, used))
  {
    if s != [] {
      var e, tail := s[0], s[1..];
      assert s == [e] + tail;
      WithRefFits(tail, ref, used, f);
      HeadUnused(e, tail, used);
      HeadUnused(e, WithRef(tail, ref), used);
      HeadFit(ByRef, f, e, Unused(tail, used));
      HeadFit(ByRef, f, e, Unused(WithRef(tail, ref), used));
      assert [] + WithRef(tail, ref) == WithRef(tail, ref);
    }
  }

  method GroupByRef(lines: seq<Entry>) returns (byRef: map<Ref, seq<Entry>>)
    ensures forall ref :: ref in byRef ==> byRef[ref] == WithRef(lines, ref)
    ensures forall ref: Ref :: ref !in byRef && ref != EMPTY ==> WithRef(lines, ref) == []
  {
    byRef := map[];
    for i := 0 to |lines|
      invariant forall ref :: ref in byRef ==> ref != EMPTY && byRef[ref] == WithRef(lines[..i], ref)
      invariant forall ref: Ref :: ref !in byRef && ref != EMPTY ==> WithRef(lines[..i], ref) == []
    {
      assert lines[..i + 1] == lines[..i] + [lines[i]];
      forall ref: Ref ensures WithRef(lines[..i + 1], ref)
                      == WithRef(lines[..i], ref) + (if lines[i].ref == Some(ref) then [lines[i]] else [])
      {
        WithRefSnoc(lines[..i], lines[i], ref);
      }
      if HasRef(lines[i]) {
        var ref := lines[i].ref.value;
        byRef := byRef[ref := (if ref in byRef then byRef[ref] else []) + [lines[i]]];
      }
    }
    assert lines[..|lines|] == lines;
  }

  // ── The two passes ──

  /** `all` is the pass that has paired `pairs` among the flows before `i` and goes on with the rest. */
  predicate Midway(rule: Rule, all: Pairing, flows: seq<Entry>, lines: seq<Entry>, i: nat, pairs: seq<Pair>,
                   usedFlows: set<nat>, usedLines: set<nat>)
    requires i <= |flows|
  {
    var rest := Greedy(rule, Unused(flows[i..], usedFlows), Unused(lines, usedLines));
    && all.pairs == pairs + rest.pairs
    && all.flows == Unused(flows[..i], usedFlows) + rest.flows
    && all.lines == rest.lines
  }

  lemma {:induction false} DistinctAt(s: seq<Entry>, i: nat)
    requires DistinctIds(s) && i < |s|
    ensures NoId(s[..i], s[i].id) && NoId(s[i + 1..], s[i].id)
  {
    if i == 0 {
      assert s[..0] == [];
    } else {
      DistinctAt(s[1..], i - 1);
      assert s[1..][i - 1] == s[i] && s[1..][i..] == s[i + 1..] && s[1..][..i - 1] == s[1..i];
      assert s[..i] == [s[0]] + s[1..i] && s[i] in s[1..];
    }
  }

  /** The next flow, seen from both ends. */
  lemma NextFlow(flows: seq<Entry>, i: nat, used: set<nat>)
    requires i < |flows|
    ensures Unused(flows[i..], used) == if flows[i].id in used then Unused(flows[i + 1..], used)
                                        else [flows[i]] + Unused(flows[i + 1..], used)
    ensures Unused(flows[..i + 1], used) == Unused(flows[..i], used) + (if flows[i].id in used then [] else [flows[i]])
  {
    assert flows[i..] == [flows[i]] + flows[i + 1..];
    assert flows[..i + 1] == flows[..i] + [flows[i]];
    HeadUnused(flows[i], flows[i + 1..], used);
    UnusedSnoc(flows[..i], flows[i], used);
  }

  lemma MidwayUsed(rule: Rule, all: Pairing, flows: seq<Entry>, lines: seq<Entry>, i: nat, pairs: seq<Pair>,
                   usedFlows: set<nat>, usedLines: set<nat>)
    requires i < |flows| && Midway(rule, all, flows, lines, i, pairs, usedFlows, usedLines) && flows[i].id in usedFlows
    ensures Midway(rule, all, flows, lines, i + 1, pairs, usedFlows, usedLines)
  {
    NextFlow(flows, i, usedFlows);
    assert Unused(flows[..i], usedFlows) + [] == Unused(flows[..i], usedFlows);
  }

  lemma Steps(rule: Rule, f: Entry, tail: seq<Entry>, lines: seq<Entry>)
    ensures
      var pick := FirstFit(rule, f, lines);
      Greedy(rule, [f] + tail, lines)
      == if pick.None? then var g := Greedy(rule, tail, lines); g.(flows := [f] + g.flows)
         else var g := Greedy(rule, tail, Without(lines, pick.value.id)); g.(pairs := [Pair(f, pick.value)] + g.pairs)
  {
    assert ([f] + tail)[1..] == tail;
  }

  lemma Joins<T>(a: seq<T>, x: T, b: seq<T>)
    ensures a + ([x] + b) == (a + [x]) + b
  {
  }

  lemma MidwaySkip(rule: Rule, all: Pairing, flows: seq<Entry>, lines: seq<Entry>, i: nat, pairs: seq<Pair>,
                   usedFlows: set<nat>, usedLines: set<nat>)
    requires i < |flows| && Midway(rule, all, flows, lines, i, pairs, usedFlows, usedLines) && flows[i].id !in usedFlows
    requires FirstFit(rule, flows[i], Unused(lines, usedLines)).None?
    ensures Midway(rule, all, flows, lines, i + 1, pairs, usedFlows, usedLines)
  {
    var tail, remaining := Unused(flows[i + 1..], usedFlows), Unused(lines, usedLines);
    NextFlow(flows, i, usedFlows);
    Steps(rule, flows[i], tail, remaining);
    Joins(Unused(flows[..i], usedFlows), flows[i], Greedy(rule, tail, remaining).flows);
  }

  lemma MidwayTake(rule: Rule, all: Pairing, flows: seq<Entry>, lines: seq<Entry>, i: nat, pairs: seq<Pair>,
                   usedFlows: set<nat>, usedLines: set<nat>, l: Entry)
    requires i < |flows| && Midway(rule, all, flows, lines, i, pairs, usedFlows, usedLines) && flows[i].id !in usedFlows
    requires DistinctIds(flows) && FirstFit(rule, flows[i], Unused(lines, usedLines)) == Some(l)
    ensures Midway(rule, all, flows, lines, i + 1, pairs + [Pair(flows[i], l)],
                   usedFlows + {flows[i].id}, usedLines + {l.id})
  {
    var f, tail := flows[i], Unused(flows[i + 1..], usedFlows);
    DistinctAt(flows, i);
    UseElsewhere(flows[..i], usedFlows, f.id);
    UseElsewhere(flows[i + 1..], usedFlows, f.id);
    UseOne(lines, usedLines, l.id);
    NextFlow(flows, i, usedFlows);
    NextFlow(flows, i, usedFlows + {f.id});
    Steps(rule, f, tail, Unused(lines, usedLines));
    Joins(pairs, Pair(f, l), Greedy(rule, tail, Unused(lines, usedLines + {l.id})).pairs);
    assert Unused(flows[..i], usedFlows) + [] == Unused(flows[..i], usedFlows);
  }

  lemma MidwayStart(rule: Rule, flows: seq<Entry>, lines: seq<Entry>, usedFlows: set<nat>, usedLines: set<nat>)
    ensures Midway(rule, Greedy(rule, Unused(flows, usedFlows), Unused(lines, usedLines)),
                   flows, lines, 0, [], usedFlows, usedLines)
  {
    assert flows[0..] == flows && flows[..0] == [];
  }

  lemma MidwayDone(rule: Rule, all: Pairing, flows: seq<Entry>, lines: seq<Entry>, pairs: seq<Pair>,
                   usedFlows: set<nat>, usedLines: set<nat>)
    requires Midway(rule, all, flows, lines, |flows|, pairs, usedFlows, usedLines)
    ensures all == Pairing(pairs, Unused(flows, usedFlows), Unused(lines, usedLines))
  {
    assert flows[..|flows|] == flows && flows[|flows|..] == [];
    assert pairs + [] == pairs && Unused(flows, usedFlows) + [] == Unused(flows, usedFlows);
  }

  lemma MatchingOne(p: Pair)
    ensures Matching([p]) == if SameAmount(p) then [p] else []
  {
    assert [p][1..] == [];
  }

  lemma MismatchingOne(p: Pair)
    ensures Mismatching([p]) == if SameAmount(p) then [] else [p]
  {
    assert [p][1..] == [];
  }

  lemma {:induction false} MatchingSnoc(pairs: seq<Pair>, p: Pair)
    ensures Matching(pairs + [p]) == Matching(pairs) + Matching([p])
  {
    if pairs == [] {
      assert [] + [p] == [p];
    } else {
      assert (pairs + [p])[1..] == pairs[1..] + [p];
      MatchingOne(pairs[0]);
      MatchingSnoc(pairs[1..], p);
      Associates(Matching([pairs[0]]), Matching(pairs[1..]), Matching([p]));
    }
  }

  lemma {:induction false} MismatchingSnoc(pairs: seq<Pair>, p: Pair)
    ensures Mismatching(pairs + [p]) == Mismatching(pairs) + Mismatching([p])
  {
    if pairs == [] {
      assert [] + [p] == [p];
    } else {
      assert (pairs + [p])[1..] == pairs[1..] + [p];
      MismatchingOne(pairs[0]);
      MismatchingSnoc(pairs[1..], p);
      Associates(Mismatching([pairs[0]]), Mismatching(pairs[1..]), Mismatching([p]));
    }
  }

  /** First pass: by reference, through the grouping map. */
  method RefPass(flows: seq<Entry>, lines: seq<Entry>)
    returns (matched: seq<Pair>, mismatch: seq<Pair>, usedFlows: set<nat>, usedLines: set<nat>)
    requires DistinctIds(flows)
    ensures var g := Greedy(ByRef, flows, lines);
      && matched == Matching(g.pairs) && mismatch == Mismatching(g.pairs)
      && Unused(flows, usedFlows) == g.flows && Unused(lines, usedLines) == g.lines
  {
    hide Greedy, Midway, FirstFit, Unused;
    var byRef := GroupByRef(lines);
    matched, mismatch, usedFlows, usedLines := [], [], {}, {};
    ghost var pairs: seq<Pair> := [];
    ghost var all := Greedy(ByRef, flows, lines);
    UnusedNone(lines);
    UnusedNone(flows);
    MidwayStart(ByRef, flows, lines, {}, {});
    for i := 0 to |flows|
      invariant Midway(ByRef, all, flows, lines, i, pairs, usedFlows, usedLines)
      invariant matched == Matching(pairs) && mismatch == Mismatching(pairs)
      invariant forall f :: f in flows[i..] ==> f.id !in usedFlows
    {
      var f, pick := flows[i], None;
      assert f in flows[i..];
      DistinctAt(flows, i);
      if HasRef(f) {
        if f.ref.value in byRef {
          pick := FindFirst(ByRef, f, byRef[f.ref.value], usedLines);
        }
        WithRefFits(lines, f.ref.value, usedLines, f);
      }
      if pick.Some? {
        var p := Pair(f, pick.value);
        MidwayTake(ByRef, all, flows, lines, i, pairs, usedFlows, usedLines, pick.value);
        MatchingSnoc(pairs, p);
        MatchingOne(p);
        MismatchingSnoc(pairs, p);
        MismatchingOne(p);
        if f.amount == pick.value.amount {
          matched := matched + [p];
        } else {
          mismatch := mismatch + [p];
        }
        pairs := pairs + [p];
        usedFlows, usedLines := usedFlows + {f.id}, usedLines + {pick.value.id};
      } else {
        MidwaySkip(ByRef, all, flows, lines, i, pairs, usedFlows, usedLines);
      }
    }
    MidwayDone(ByRef, all, flows, lines, pairs, usedFlows, usedLines);
  }

  /** Second pass: over the flows not used yet, by amount, direction and time window. */
  method WindowPass(windowMs: nat, flows: seq<Entry>, lines: seq<Entry>, usedFlows0: set<nat>, usedLines0: set<nat>)
    returns (matched: seq<Pair>, usedFlows: set<nat>, usedLines: set<nat>)
    requires DistinctIds(flows)
    ensures Greedy(ByWindow(windowMs), Unused(flows, usedFlows0), Unused(lines, usedLines0))
         == Pairing(matched, Unused(flows, usedFlows), Unused(lines, usedLines))
  {
    var rule := ByWindow(windowMs);
    matched, usedFlows, usedLines := [], usedFlows0, usedLines0;
    ghost var all := Greedy(rule, Unused(flows, usedFlows0), Unused(lines, usedLines0));
    MidwayStart(rule, flows, lines, usedFlows0, usedLines0);
    for i := 0 to |flows|
      invariant Midway(rule, all, flows, lines, i, matched, usedFlows, usedLines)
    {
      var f := flows[i];
      if f.id in usedFlows {
        MidwayUsed(rule, all, flows, lines, i, matched, usedFlows, usedLines);
        continue;
      }
      var pick := FindFirst(rule, f, lines, usedLines);
      if pick.Some? {
        MidwayTake(rule, all, flows, lines, i, matched, usedFlows, usedLines, pick.value);
        matched := matched + [Pair(f, pick.value)];
        usedFlows, usedLines := usedFlows + {f.id}, usedLines + {pick.value.id};
      } else {
        MidwaySkip(rule, all, flows, lines, i, matched, usedFlows, usedLines);
      }
    }
    MidwayDone(rule, all, flows, lines, matched, usedFlows, usedLines);
  }

  method Filter(s: seq<Entry>, used: set<nat>) returns (r: seq<Entry>)
    ensures r == Unused(s, used)
  {
    r := [];
    for i := 0 to |s|
      invariant r == Unused(s[..i], used)
    {
      NextFlow(s, i, used);
      if s[i].id !in used {
        r := r + [s[i]];
      }
    }
    assert s[..|s|] == s;
  }

  /** The matcher: its four buckets are those of the specification. */
  method MatchFlows(windowMs: nat, flows: seq<Entry>, lines: seq<Entry>) returns (r: Report)
    requires DistinctIds(flows)
    ensures r == Match(windowMs, flows, lines)
  {
    var viaRef, mismatch, usedFlows, usedLines := RefPass(flows, lines);
    var viaWindow, usedFlows', usedLines' := WindowPass(windowMs, flows, lines, usedFlows, usedLines);
    var orphanFlows := Filter(flows, usedFlows');
    var orphanLines := Filter(lines, usedLines');
    r := Report(viaRef, viaWindow, mismatch, orphanFlows, orphanLines);
  }
}
