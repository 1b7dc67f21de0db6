/** The five anomalies the reconciliation demo writes into a mirrored statement, and their sign
    algebra: which of them move the closing balance, the statement lines, or both. */
module ReconInjection {
  import opened Prelude
  import opened FlowMatching

  /** One wallet's external side: its closing balance (the opening is zero) and statement lines. */
  datatype Statement = Statement(closing: int, lines: seq<Entry>)

  /** What the roll-forward of a statement is off by. */
  function Gap(s: Statement): int { s.closing - SignedSum(s.lines) }

  /** The reference and row id of an inserted ghost line, and the cutoff it is dated. */
  datatype Ghost = Ghost(id: nat, ref: Ref, cutoff: int)

  const EPSILON := 1

  // ── Choosing lines ──

  /** The earliest line, or the earliest that has a reference. */
  function Earliest(lines: seq<Entry>, needRef: bool): (r: Option<Entry>)
    ensures r.Some? ==> r.value in lines && (needRef ==> r.value.ref.Some?)
  {
    if lines == [] then None
    else
      var n := |lines| - 1;
      var best, last := Earliest(lines[..n], needRef), lines[n];
      assert lines == lines[..n] + [last];
      if needRef && last.ref.None? then best
      else if best.None? || last.at < best.value.at then Some(last)
      else best
  }

  lemma {:induction false} EarliestIsEarliest(lines: seq<Entry>, needRef: bool)
    ensures var r := Earliest(lines, needRef);
      && (r.Some? ==> forall l :: l in lines && (needRef ==> l.ref.Some?) ==> r.value.at <= l.at)
      && (r.None? ==> forall l :: l in lines ==> needRef && l.ref.None?)
  {
    if lines != [] {
      var n := |lines| - 1;
      EarliestIsEarliest(lines[..n], needRef);
      assert lines == lines[..n] + [lines[n]];
    }
  }

  function SetAmount(lines: seq<Entry>, id: nat, amount: int): seq<Entry> {
    if lines == [] then []
    else [if lines[0].id == id then lines[0].(amount := amount) else lines[0]] + SetAmount(lines[1..], id, amount)
  }

  lemma {:induction false} SetAmountMembers(lines: seq<Entry>, id: nat, amount: int)
    ensures forall e :: e in SetAmount(lines, id, amount) <==>
      || (e.id != id && e in lines)
      || (e.amount == amount && exists l :: l in lines && l.id == id && e == l.(amount := amount))
  {
    if lines != [] {
      SetAmountMembers(lines[1..], id, amount);
    }
  }

  // ── The five mutations ──

  datatype Kind = OrphanInternal | OrphanExternal | AmountMismatch | PairCancelOrphan | PairCancelMismatch

  /** What the manifest records: the references a hit must show. */
  datatype Injected = Injected(kind: Kind, refA: Option<Ref>, refB: Option<Ref>)

  /** A throw when the wallet lacks a line to mutate. */
  datatype Mutation = Mutated(statement: Statement, injected: Injected) | NoLine

  function InjectOrphanInternal(s: Statement): Mutation {
    match Earliest(s.lines, false)
    case None => NoLine
    case Some(c) =>
      var delta := if c.direction == IN then 0 - c.amount else c.amount;
      Mutated(Statement(s.closing + delta, Without(s.lines, c.id)), Injected(OrphanInternal, c.ref, None))
  }

  function InjectOrphanExternal(s: Statement, g: Ghost, amount: int): Mutation {
    Mutated(Statement(s.closing + amount, s.lines + [Entry(g.id, IN, amount, Some(g.ref), g.cutoff)]),
            Injected(OrphanExternal, Some(g.ref), None))
  }

  function InjectAmountMismatch(s: Statement, delta: int): Mutation {
    match Earliest(s.lines, true)
    case None => NoLine
    case Some(c) =>
      Mutated(Statement(s.closing + (if c.direction == IN then delta else 0 - delta),
                        SetAmount(s.lines, c.id, c.amount + delta)),
              Injected(AmountMismatch, c.ref, None))
  }

  /** `eps` is `EPSILON` in the script; kept a parameter to say what it is for. */
  function InjectPairCancelOrphan(s: Statement, g: Ghost, eps: int): Mutation {
    match Earliest(s.lines, false)
    case None => NoLine
    case Some(gone) =>
      Mutated(Statement(s.closing, Without(s.lines, gone.id)
                                   + [Entry(g.id, gone.direction, gone.amount + eps, Some(g.ref), g.cutoff)]),
              Injected(PairCancelOrphan, Some(g.ref), None))
  }

  /** The two earliest lines with a reference. */
  function TwoEarliest(lines: seq<Entry>): (r: Option<(Entry, Entry)>)
    ensures r.Some? ==> r.value.0 in lines && r.value.1 in lines && r.value.0.id != r.value.1.id
  {
    var a := Earliest(lines, true);
    if a.None? then None
    else
      var b := Earliest(Without(lines, a.value.id), true);
      if b.None? then None else Some((a.value, b.value))
  }

  /** The shift of the second line that cancels a shift of the first by `delta`. */
  function Opposite(a: Entry, b: Entry, delta: int): int {
    if a.direction == b.direction then 0 - delta else delta
  }

  function InjectPairCancelMismatch(s: Statement, delta: int): Mutation {
    match TwoEarliest(s.lines)
    case None => NoLine
    case Some((a, b)) =>
      Mutated(Statement(s.closing, SetAmount(SetAmount(s.lines, a.id, a.amount + delta), b.id,
          b.amount + Opposite(a, b, delta))),
              Injected(PairCancelMismatch, a.ref, b.ref))
  }

  // ── Which lines each of them touches ──

  lemma {:induction false} SplitAt(lines: seq<Entry>, c: Entry) returns (before: seq<Entry>, after: seq<Entry>)
    requires DistinctIds(lines) && c in lines
    ensures lines == before + [c] + after && Without(lines, c.id) == before + after
  {
    if lines[0] == c {
      before, after := [], lines[1..];
      WithoutNothing(after, c.id);
    } else {
      var rest;
      rest, after := SplitAt(lines[1..], c);
      before := [lines[0]] + rest;
      assert Without(lines, c.id) == [lines[0]] + Without(lines[1..], c.id);
      hide DistinctIds, Without, NoId;
      PutInFront(lines, rest, c, after);
    }
  }

  lemma PutInFront(lines: seq<Entry>, rest: seq<Entry>, c: Entry, after: seq<Entry>)
    requires lines != [] && lines[1..] == rest + [c] + after
    ensures lines == [lines[0]] + rest + [c] + after
    ensures [lines[0]] + (rest + after) == [lines[0]] + rest + after
  {
    assert lines == [lines[0]] + lines[1..];
  }

  lemma {:induction false} SetAmountAt(lines: seq<Entry>, id: nat, amount: int)
    ensures |SetAmount(lines, id, amount)| == |lines|
    ensures forall i :: 0 <= i < |lines| ==>
      SetAmount(lines, id, amount)[i] == if lines[i].id == id then lines[i].(amount := amount) else lines[i]
  {
    if lines != [] {
      SetAmountAt(lines[1..], id, amount);
    }
  }

  lemma HeadIn(s: seq<Entry>)
    ensures s != [] ==> s[0] in s
  {
  }

  /** 1A: the earliest line goes, and the closing balance loses what it had brought. */
  lemma OrphanInternalDeletes(s: Statement) returns (before: seq<Entry>, c: Entry, after: seq<Entry>)
    requires DistinctIds(s.lines) && s.lines != []
    ensures s.lines == before + [c] + after && forall l :: l in s.lines ==> c.at <= l.at
    ensures InjectOrphanInternal(s)
         == Mutated(Statement(if c.direction == IN then s.closing - c.amount else s.closing + c.amount, before + after),
                    Injected(OrphanInternal, c.ref, None))
  {
    HeadIn(s.lines);
    EarliestIsEarliest(s.lines, false);
    c := Earliest(s.lines, false).value;
    before, after := SplitAt(s.lines, c);
  }

  /** 1B: an incoming line of the given amount, dated at the cutoff, under its own reference. */
  lemma OrphanExternalAdds(s: Statement, g: Ghost, amount: int)
    ensures
      var m := InjectOrphanExternal(s, g, amount);
      && m.Mutated? && m.injected == Injected(OrphanExternal, Some(g.ref), None)
      && m.statement.closing == s.closing + amount && |m.statement.lines| == |s.lines| + 1
      && m.statement.lines[..|s.lines|] == s.lines
      && m.statement.lines[|s.lines|] == Entry(g.id, IN, amount, Some(g.ref), g.cutoff)
  {
  }

  /** 1C: the earliest line with a reference changes its amount, in the file and at closing. */
  lemma AmountMismatchShifts(s: Statement, delta: int) returns (c: Entry)
    requires exists l :: l in s.lines && l.ref.Some?
    ensures c in s.lines && c.ref.Some? && forall l :: l in s.lines && l.ref.Some? ==> c.at <= l.at
    ensures
      var m := InjectAmountMismatch(s, delta);
      && m.Mutated? && m.injected == Injected(AmountMismatch, c.ref, None)
      && m.statement.closing == (if c.direction == IN then s.closing + delta else s.closing - delta)
      && |m.statement.lines| == |s.lines|
      && forall i :: 0 <= i < |s.lines| ==>
           m.statement.lines[i] == if s.lines[i].id == c.id then s.lines[i].(amount := c.amount + delta) else s.lines[i]
  {
    EarliestIsEarliest(s.lines, true);
    c := Earliest(s.lines, true).value;
    SetAmountAt(s.lines, c.id, c.amount + delta);
  }

  /** 2A: the earliest line is replaced by one of the same direction that is `eps` larger, dated at
      the cutoff, under a reference of its own; the closing balance stays. */
  lemma PairCancelOrphanReplaces(s: Statement, g: Ghost, eps: int)
      returns (before: seq<Entry>, gone: Entry, after: seq<Entry>)
    requires DistinctIds(s.lines) && s.lines != []
    ensures s.lines == before + [gone] + after && forall l :: l in s.lines ==> gone.at <= l.at
    ensures InjectPairCancelOrphan(s, g, eps)
         == Mutated(Statement(s.closing, before + after
                                         + [Entry(g.id, gone.direction, gone.amount + eps, Some(g.ref), g.cutoff)]),
                    Injected(PairCancelOrphan, Some(g.ref), None))
  {
    hide DistinctIds, Without, Earliest;
    HeadIn(s.lines);
    EarliestIsEarliest(s.lines, false);
    gone := Earliest(s.lines, false).value;
    before, after := SplitAt(s.lines, gone);
  }

  /** 2B: the two earliest lines with a reference change their amounts, the first by `delta`, the
      second by as much the other way, seen from the balance; the closing balance stays. */
  lemma PairCancelMismatchShifts(s: Statement, delta: int) returns (a: Entry, b: Entry)
    requires exists l, m :: l in s.lines && m in s.lines && l.ref.Some? && m.ref.Some? && l.id != m.id
    ensures a in s.lines && b in s.lines && a.ref.Some? && b.ref.Some? && a.id != b.id
    ensures forall l :: l in s.lines && l.ref.Some? ==> a.at <= l.at && (l.id == a.id || b.at <= l.at)
    ensures
      var m := InjectPairCancelMismatch(s, delta);
      && m.Mutated? && m.injected == Injected(PairCancelMismatch, a.ref, b.ref)
      && m.statement.closing == s.closing && |m.statement.lines| == |s.lines|
      && forall i :: 0 <= i < |s.lines| ==>
           m.statement.lines[i]
           == if s.lines[i].id == a.id then s.lines[i].(amount := a.amount + delta)
              else if s.lines[i].id == b.id then
                s.lines[i].(amount := if a.direction == b.direction then b.amount - delta else b.amount + delta)
              else s.lines[i]
  {
    hide SetAmount, TwoEarliest, InjectPairCancelMismatch;
    a, b := TwoEarliestAre(s.lines);
    var shifted := SetAmount(s.lines, a.id, a.amount + delta);
    SetAmountAt(s.lines, a.id, a.amount + delta);
    SetAmountAt(shifted, b.id, b.amount + Opposite(a, b, delta));
    PairCancelMismatchIs(s, a, b, delta);
  }

  lemma TwoEarliestAre(lines: seq<Entry>) returns (a: Entry, b: Entry)
    requires exists l, m :: l in lines && m in lines && l.ref.Some? && m.ref.Some? && l.id != m.id
    ensures TwoEarliest(lines) == Some((a, b)) && a.ref.Some? && b.ref.Some?
    ensures forall l :: l in lines && l.ref.Some? ==> a.at <= l.at && (l.id == a.id || b.at <= l.at)
  {
    hide Earliest, Without;
    EarliestIsEarliest(lines, true);
    a := Earliest(lines, true).value;
    var rest := Without(lines, a.id);
    EarliestIsEarliest(rest, true);
    var l, m :| l in lines && m in lines && l.ref.Some? && m.ref.Some? && l.id != m.id;
    assert l in rest || m in rest;
    b := Earliest(rest, true).value;
  }

  lemma PairCancelMismatchIs(s: Statement, a: Entry, b: Entry, delta: int)
    requires TwoEarliest(s.lines) == Some((a, b))
    ensures InjectPairCancelMismatch(s, delta)
         == Mutated(Statement(s.closing,
                      SetAmount(SetAmount(s.lines, a.id, a.amount + delta), b.id, b.amount + Opposite(a, b, delta))),
                    Injected(PairCancelMismatch, a.ref, b.ref))
  {
    hide SetAmount, TwoEarliest, Opposite;
  }

  // ── Sign algebra ──

  lemma {:induction false} SignedSumConcat(a: seq<Entry>, b: seq<Entry>)
    ensures SignedSum(a + b) == SignedSum(a) + SignedSum(b)
  {
    if a == [] {
      assert a + b == b;
    } else {
      assert (a + b)[1..] == a[1..] + b;
      SignedSumConcat(a[1..], b);
    }
  }

  lemma SignedSumOne(e: Entry)
    ensures SignedSum([e]) == Signed(e)
  {
    assert [e][1..] == [];
  }

  lemma {:induction false} SetNothing(lines: seq<Entry>, id: nat, amount: int)
    requires NoId(lines, id)
    ensures SetAmount(lines, id, amount) == lines
  {
    if lines != [] {
      assert NoId(lines[1..], id);
      SetNothing(lines[1..], id, amount);
    }
  }

  lemma {:induction false} SetAmountSum(lines: seq<Entry>, c: Entry, amount: int)
    requires DistinctIds(lines) && c in lines
    ensures SignedSum(SetAmount(lines, c.id, amount)) == SignedSum(lines) - Signed(c) + Signed(c.(amount := amount))
  {
    if lines[0] == c {
      SetNothing(lines[1..], c.id, amount);
    } else {
      SetAmountSum(lines[1..], c, amount);
    }
  }

  lemma {:induction false} SetAmountKeepsIds(lines: seq<Entry>, id: nat, amount: int)
    requires DistinctIds(lines)
    ensures DistinctIds(SetAmount(lines, id, amount))
  {
    if lines != [] {
      SetAmountKeepsIds(lines[1..], id, amount);
      SetAmountMembers(lines[1..], id, amount);
      var e' := if lines[0].id == id then lines[0].(amount := amount) else lines[0];
      DistinctCons(e', SetAmount(lines[1..], id, amount));
    }
  }

  /** 1A: closing and lines lose the same signed amount. */
  lemma OrphanInternalBalances(s: Statement)
    requires DistinctIds(s.lines) && InjectOrphanInternal(s).Mutated?
    ensures var c, s' := Earliest(s.lines, false).value, InjectOrphanInternal(s).statement;
      Gap(s') == Gap(s) && s'.closing - s.closing == 0 - Signed(c)
  {
    WithoutSum(s.lines, Earliest(s.lines, false).value);
  }

  /** 1B: closing and lines gain the same amount. */
  lemma OrphanExternalBalances(s: Statement, g: Ghost, amount: int)
    ensures var s' := InjectOrphanExternal(s, g, amount).statement;
      Gap(s') == Gap(s) && s'.closing - s.closing == amount
  {
    SignedSumConcat(s.lines, [Entry(g.id, IN, amount, Some(g.ref), g.cutoff)]);
    SignedSumOne(Entry(g.id, IN, amount, Some(g.ref), g.cutoff));
  }

  /** 1C: closing moves with the shifted line, in the line's direction. */
  lemma AmountMismatchBalances(s: Statement, delta: int)
    requires DistinctIds(s.lines) && InjectAmountMismatch(s, delta).Mutated?
    ensures var c, s' := Earliest(s.lines, true).value, InjectAmountMismatch(s, delta).statement;
      Gap(s') == Gap(s) && s'.closing - s.closing == if c.direction == IN then delta else 0 - delta
  {
    var c := Earliest(s.lines, true).value;
    SetAmountSum(s.lines, c, c.amount + delta);
  }

  lemma ReplaceSum(lines: seq<Entry>, gone: Entry, put: Entry)
    requires DistinctIds(lines) && gone in lines
    ensures SignedSum(Without(lines, gone.id) + [put]) == SignedSum(lines) - Signed(gone) + Signed(put)
  {
    WithoutSum(lines, gone);
    SignedSumConcat(Without(lines, gone.id), [put]);
    SignedSumOne(put);
  }

  /** 2A: closing stays, the lines drift by exactly epsilon in the line's direction. */
  lemma PairCancelOrphanBalances(s: Statement, g: Ghost, eps: int)
    requires DistinctIds(s.lines) && InjectPairCancelOrphan(s, g, eps).Mutated?
    ensures var gone, s' := Earliest(s.lines, false).value, InjectPairCancelOrphan(s, g, eps).statement;
      s'.closing == s.closing && Gap(s') - Gap(s) == if gone.direction == IN then 0 - eps else eps
  {
    var gone := Earliest(s.lines, false).value;
    var put := Entry(g.id, gone.direction, gone.amount + eps, Some(g.ref), g.cutoff);
    ReplaceSum(s.lines, gone, put);
    SignedShift(gone, put, eps);
    assert InjectPairCancelOrphan(s, g, eps).statement == Statement(s.closing, Without(s.lines, gone.id) + [put]);
  }

  lemma SignedShift(a: Entry, b: Entry, shift: int)
    requires b.direction == a.direction && b.amount == a.amount + shift
    ensures Signed(b) - Signed(a) == if a.direction == IN then shift else 0 - shift
  {
  }

  lemma SetAmountMember(lines: seq<Entry>, id: nat, amount: int, e: Entry)
    requires e in lines && e.id != id
    ensures e in SetAmount(lines, id, amount)
  {
    SetAmountMembers(lines, id, amount);
  }

  lemma SetTwoSum(lines: seq<Entry>, a: Entry, x: int, b: Entry, y: int)
    requires DistinctIds(lines) && a in lines && b in lines && a.id != b.id
    ensures SignedSum(SetAmount(SetAmount(lines, a.id, x), b.id, y))
         == SignedSum(lines) - Signed(a) + Signed(a.(amount := x)) - Signed(b) + Signed(b.(amount := y))
  {
    SetAmountSum(lines, a, x);
    SetAmountKeepsIds(lines, a.id, x);
    SetAmountMember(lines, a.id, x, b);
    SetAmountSum(SetAmount(lines, a.id, x), b, y);
  }

  /** 2B: closing and signed sum both stay, for all four combinations of directions. */
  lemma PairCancelMismatchBalances(s: Statement, delta: int)
    requires DistinctIds(s.lines) && InjectPairCancelMismatch(s, delta).Mutated?
    ensures var s' := InjectPairCancelMismatch(s, delta).statement;
      s'.closing == s.closing && SignedSum(s'.lines) == SignedSum(s.lines) && Gap(s') == Gap(s)
  {
    hide SignedSum, SetAmount;
    var (a, b) := TwoEarliest(s.lines).value;
    var adjB := Opposite(a, b, delta);
    SetTwoSum(s.lines, a, a.amount + delta, b, b.amount + adjB);
    SignedShift(a, a.(amount := a.amount + delta), delta);
    SignedShift(b, b.(amount := b.amount + adjB), adjB);
  }

  /** When each injection throws instead. */
  lemma WhenInjectionsThrow(s: Statement, g: Ghost, delta: int)
    requires DistinctIds(s.lines)
    ensures InjectOrphanInternal(s).NoLine? <==> s.lines == []
    ensures InjectPairCancelOrphan(s, g, EPSILON).NoLine? <==> s.lines == []
    ensures InjectAmountMismatch(s, delta).NoLine? <==> forall l :: l in s.lines ==> l.ref.None?
    ensures InjectPairCancelMismatch(s, delta).NoLine?
       <==> forall l, m :: l in s.lines && m in s.lines && l.ref.Some? && m.ref.Some? ==> l.id == m.id
  {
    EarliestIsEarliest(s.lines, false);
    EarliestIsEarliest(s.lines, true);
    HeadIn(s.lines);
    var a := Earliest(s.lines, true);
    if a.Some? {
      var b := Earliest(Without(s.lines, a.value.id), true);
      EarliestIsEarliest(Without(s.lines, a.value.id), true);
      if b.Some? {
        assert a.value in s.lines && b.value in s.lines && a.value.id != b.value.id;
      } else {
        forall l, m | l in s.lines && m in s.lines && l.ref.Some? && m.ref.Some? ensures l.id == m.id {
          assert l.id == a.value.id && m.id == a.value.id;
        }
      }
    }
  }
}
