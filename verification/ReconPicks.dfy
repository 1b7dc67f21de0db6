/** Picking the wallets that host the anomalies: round-robin over buckets, with a cursor that
    rotates the starting bucket from pass to pass. */
module ReconPicks {
  import opened Prelude

  const PICKS := 5

  function Min(a: nat, b: nat): nat { if a < b then a else b }

  function Total<T>(buckets: seq<seq<T>>): nat {
    if buckets == [] then 0 else |buckets[0]| + Total(buckets[1..])
  }

  ghost function Bag<T>(buckets: seq<seq<T>>): multiset<T> {
    if buckets == [] then multiset{} else multiset(buckets[0]) + Bag(buckets[1..])
  }

  // ── The rotation ──

  predicate Visited(cursor: nat, i: nat, n: nat, k: nat)
    requires n > 0
  {
    exists j: nat :: j < i && Slot(cursor, j, n) == k
  }

  function Slot(cursor: nat, i: nat, n: nat): (k: nat)
    requires n > 0
    ensures k < n
  {
    (cursor + i) % n
  }

  lemma AtLeast(n: nat, q: int)
    requires n > 0
    ensures q >= 1 ==> n * q >= n
    ensures q <= -1 ==> n * q <= 0 - n
  {
  }

  lemma SameRemainder(a: nat, b: nat, n: nat)
    requires n > 0 && a <= b && b - a < n && a % n == b % n
    ensures a == b
  {
    var q := b / n - a / n;
    assert a == n * (a / n) + a % n && b == n * (b / n) + b % n;
    assert n * (b / n) - n * (a / n) == n * q;
    AtLeast(n, q);
  }

  /** One pass visits no bucket twice... */
  lemma SlotsDiffer(cursor: nat, i: nat, j: nat, n: nat)
    requires n > 0 && i < j < n
    ensures Slot(cursor, i, n) != Slot(cursor, j, n)
  {
    if Slot(cursor, i, n) == Slot(cursor, j, n) {
      SameRemainder(cursor + i, cursor + j, n);
    }
  }

  /** ...and leaves none out. */
  lemma EverySlot(cursor: nat, n: nat, k: nat)
    requires k < n
    ensures Visited(cursor, n, n, k)
  {
    var r := cursor % n;
    var j := if r <= k then k - r else k + n - r;
    assert cursor == n * (cursor / n) + r;
    assert cursor + j == n * (if r <= k then cursor / n else cursor / n + 1) + k;
    Remainder(n, if r <= k then cursor / n else cursor / n + 1, k);
    assert Slot(cursor, j, n) == k;
  }

  lemma Remainder(n: nat, q: nat, k: nat)
    requires k < n
    ensures (n * q + k) % n == k
  {
    var m := n * q + k;
    var q', r := m / n, m % n;
    assert m == n * q' + r;
    Difference(n, q, q');
    AtLeast(n, q - q');
  }

  lemma Difference(n: nat, a: nat, b: nat)
    ensures n * (a - b) == n * a - n * b
  {
  }

  lemma VisitOne(cursor: nat, i: nat, n: nat)
    requires i < n
    ensures !Visited(cursor, i, n, Slot(cursor, i, n))
    ensures forall k: nat :: Visited(cursor, i + 1, n, k) <==> Visited(cursor, i, n, k) || k == Slot(cursor, i, n)
  {
    forall j: nat | j < i ensures Slot(cursor, j, n) != Slot(cursor, i, n) {
      SlotsDiffer(cursor, j, i, n);
    }
  }

  // ── Totals ──

  lemma {:induction false} TakeFromTotal<T>(buckets: seq<seq<T>>, k: nat)
    requires k < |buckets| && buckets[k] != []
    ensures Total(buckets[k := buckets[k][1..]]) == Total(buckets) - 1
    ensures Bag(buckets[k := buckets[k][1..]]) + multiset{buckets[k][0]} == Bag(buckets)
  {
    var after := buckets[k := buckets[k][1..]];
    if k == 0 {
      assert after[1..] == buckets[1..];
      assert buckets[0] == [buckets[0][0]] + buckets[0][1..];
    } else {
      assert after[1..] == buckets[1..][k - 1 := buckets[k][1..]];
      TakeFromTotal(buckets[1..], k - 1);
    }
  }

  lemma {:induction false} AllEmpty<T>(buckets: seq<seq<T>>)
    requires forall k :: 0 <= k < |buckets| ==> buckets[k] == []
    ensures Total(buckets) == 0
  {
    if buckets != [] {
      AllEmpty(buckets[1..]);
    }
  }

  // ── The selection ──

  /** How many a bucket has supplied after `passes` full passes and, if visited, one more. */
  function Taken(passes: nat, visited: bool, size: nat): nat {
    Min(if visited then passes + 1 else passes, size)
  }

  /** After these passes, and `i` steps of the next one, what is left in each bucket. */
  ghost predicate Rotated<T>(before: seq<seq<T>>, after: seq<seq<T>>, passes: nat, i: nat)
    requires before != []
  {
    && |after| == |before|
    && forall k: nat :: k < |before| ==>
         after[k] == before[k][Taken(passes, Visited(passes, i, |before|, k), |before[k]|)..]
  }

  /** One more step of a pass: the visited bucket gives its next element, if it has one. */
  function Turn<T>(buckets: seq<seq<T>>, k: nat): seq<seq<T>>
    requires k < |buckets|
  {
    if buckets[k] == [] then buckets else buckets[k := buckets[k][1..]]
  }

  lemma TurnRotates<T>(before: seq<seq<T>>, after: seq<seq<T>>, passes: nat, i: nat)
    requires before != [] && i < |before| && Rotated(before, after, passes, i)
    ensures Rotated(before, Turn(after, Slot(passes, i, |before|)), passes, i + 1)
  {
    var n, slot := |before|, Slot(passes, i, |before|);
    VisitOne(passes, i, n);
    forall k: nat | k < n
      ensures Turn(after, slot)[k] == before[k][Taken(passes, Visited(passes, i + 1, n, k), |before[k]|)..]
    {
      assert after[k] == before[k][Taken(passes, Visited(passes, i, n, k), |before[k]|)..];
      if k == slot && after[k] != [] {
        assert before[k][passes..][1..] == before[k][passes + 1..];
      }
    }
  }

  lemma PassDone<T>(before: seq<seq<T>>, after: seq<seq<T>>, passes: nat)
    requires before != [] && Rotated(before, after, passes, |before|)
    ensures Rotated(before, after, passes + 1, 0)
  {
    forall k: nat | k < |before|
      ensures after[k] == before[k][Taken(passes + 1, Visited(passes + 1, 0, |before|, k), |before[k]|)..]
    {
      EverySlot(passes, |before|, k);
    }
  }

  /** Nothing was taken in a whole pass: every bucket is empty. */
  predicate VisitedEmpty<T>(buckets: seq<seq<T>>, cursor: nat, i: nat)
    requires buckets != []
  {
    forall j: nat :: j < i ==> buckets[Slot(cursor, j, |buckets|)] == []
  }

  lemma IdlePassMeansEmpty<T>(buckets: seq<seq<T>>, cursor: nat)
    requires buckets != [] && VisitedEmpty(buckets, cursor, |buckets|)
    ensures Total(buckets) == 0
  {
    forall k: nat | k < |buckets| ensures buckets[k] == [] {
      EverySlot(cursor, |buckets|, k);
      var j: nat :| j < |buckets| && Slot(cursor, j, |buckets|) == k;
    }
    AllEmpty(buckets);
  }

  /** What has been picked and what is left make up what there was. */
  ghost predicate Conserved<T>(before: seq<seq<T>>, after: seq<seq<T>>, picks: seq<T>) {
    |picks| + Total(after) == Total(before) && multiset(picks) + Bag(after) == Bag(before)
  }

  lemma TurnConserves<T>(before: seq<seq<T>>, after: seq<seq<T>>, picks: seq<T>, k: nat)
    requires Conserved(before, after, picks) && k < |after| && after[k] != []
    ensures Conserved(before, Turn(after, k), picks + [after[k][0]])
  {
    TakeFromTotal(after, k);
    Regroup(multiset(picks), Bag(Turn(after, k)), after[k][0], Bag(after), Bag(before));
    assert multiset(picks + [after[k][0]]) == multiset(picks) + multiset{after[k][0]};
  }

  lemma Regroup<T>(picks: multiset<T>, rest: multiset<T>, x: T, after: multiset<T>, all: multiset<T>)
    requires rest + multiset{x} == after && picks + after == all
    ensures (picks + multiset{x}) + rest == all
  {
  }

  // ── The order of the picks ──

  /** What a bucket gives when it is visited in the c-th pass: its c-th element, if it has one. */
  function Draw<T>(before: seq<seq<T>>, c: nat, k: nat): seq<T>
    requires k < |before|
  {
    if c < |before[k]| then [before[k][c]] else []
  }

  /** The first `i` slots of the c-th pass, in turn. */
  function Drawn<T>(before: seq<seq<T>>, c: nat, i: nat): seq<T>
    requires before != []
  {
    if i == 0 then [] else Drawn(before, c, i - 1) + Draw(before, c, Slot(c, i - 1, |before|))
  }

  /** All slots of the passes before the c-th, then `i` slots of the c-th. */
  function Order<T>(before: seq<seq<T>>, c: nat, i: nat): seq<T>
    requires before != []
  {
    (if c == 0 then [] else Order(before, c - 1, |before|)) + Drawn(before, c, i)
  }

  lemma OrderStep<T>(before: seq<seq<T>>, c: nat, i: nat)
    requires before != []
    ensures Order(before, c, i + 1) == Order(before, c, i) + Draw(before, c, Slot(c, i, |before|))
  {
  }

  lemma OrderPass<T>(before: seq<seq<T>>, c: nat)
    requires before != []
    ensures Order(before, c + 1, 0) == Order(before, c, |before|)
  {
  }

  /** The order, step by step: the first pass starts at the first bucket and every pass one bucket
      further, each goes round once, and the c-th takes a bucket's c-th element, if it has one. */
  lemma OrderMeans<T>(before: seq<seq<T>>, c: nat, i: nat)
    requires before != [] && i < |before|
    ensures Order(before, 0, 0) == [] && Order(before, c + 1, 0) == Order(before, c, |before|)
    ensures
      var k := (c + i) % |before|;
      Order(before, c, i + 1) == Order(before, c, i) + if c < |before[k]| then [before[k][c]] else []
  {
    OrderStep(before, c, i);
    OrderPass(before, c);
    assert Drawn(before, 0, 0) == [];
  }

  /** The next slot of a pass finds in its bucket what the order says. */
  lemma SlotDraws<T>(before: seq<seq<T>>, after: seq<seq<T>>, c: nat, i: nat)
    requires before != [] && i < |before| && Rotated(before, after, c, i)
    ensures
      var k := Slot(c, i, |before|);
      Draw(before, c, k) == if after[k] == [] then [] else [after[k][0]]
  {
    VisitOne(c, i, |before|);
  }

  /** Where the selection stands in the c-th pass, before slot `i`. */
  ghost predicate Standing<T>(before: seq<seq<T>>, after: seq<seq<T>>, picks: seq<T>, c: nat, i: nat)
    requires before != []
  {
    Conserved(before, after, picks) && Rotated(before, after, c, i) && picks == Order(before, c, i)
  }

  /** A visited bucket gives its next element; an empty one is passed over. */
  lemma SlotVisited<T>(before: seq<seq<T>>, after: seq<seq<T>>, picks: seq<T>, c: nat, i: nat)
    requires before != [] && i < |before| && Standing(before, after, picks, c, i)
    ensures
      var k := Slot(c, i, |before|);
      && k < |after|
      && Standing(before, Turn(after, k), picks + if after[k] == [] then [] else [after[k][0]], c, i + 1)
  {
    var k := Slot(c, i, |before|);
    TurnRotates(before, after, c, i);
    SlotDraws(before, after, c, i);
    OrderStep(before, c, i);
    hide Rotated, Order, Draw;
    if after[k] == [] {
      assert picks + [] == picks;
    } else {
      TurnConserves(before, after, picks, k);
    }
  }

  lemma PassStands<T>(before: seq<seq<T>>, after: seq<seq<T>>, picks: seq<T>, c: nat)
    requires before != [] && Standing(before, after, picks, c, |before|)
    ensures Standing(before, after, picks, c + 1, 0)
  {
    PassDone(before, after, c);
    OrderPass(before, c);
    hide Rotated, Order, Conserved;
  }

  /** One pass over the buckets, starting at the cursor. */
  method Pass<T>(buckets: array<seq<T>>, cursor: nat, picks0: seq<T>, ghost before: seq<seq<T>>)
    returns (picks: seq<T>, advanced: bool, ghost steps: nat)
    requires buckets.Length > 0 && |before| == buckets.Length && |picks0| < PICKS
    requires Standing(before, buckets[..], picks0, cursor, 0)
    modifies buckets
    ensures Standing(before, buckets[..], picks, cursor, steps) && |picks0| <= |picks| <= PICKS
    ensures steps <= buckets.Length && (|picks| < PICKS ==> steps == buckets.Length)
    ensures advanced ==> |picks| > |picks0|
    ensures !advanced && |picks| < PICKS ==> Total(buckets[..]) == 0
  {
    hide Standing, Turn, Slot;
    var n := buckets.Length;
    var i := 0;
    picks, advanced := picks0, false;
    while i < n && |picks| < PICKS
      invariant 0 <= i <= n && |picks0| <= |picks| <= PICKS
      invariant Standing(before, buckets[..], picks, cursor, i)
      invariant advanced ==> |picks| > |picks0|
      invariant !advanced ==> VisitedEmpty(buckets[..], cursor, i)
    {
      var k := Slot(cursor, i, n);
      ghost var prior := buckets[..];
      SlotVisited(before, prior, picks, cursor, i);
      if |buckets[k]| > 0 {
        picks := picks + [buckets[k][0]];
        buckets[k] := buckets[k][1..];
        TurnIs(prior, k);
        assert buckets[..] == Turn(prior, k);
        advanced := true;
      } else {
        TurnIs(prior, k);
        assert picks + [] == picks;
      }
      i := i + 1;
    }
    steps := i;
    if !advanced && |picks| < PICKS {
      IdlePassMeansEmpty(buckets[..], cursor);
    }
  }

  lemma TurnIs<T>(buckets: seq<seq<T>>, k: nat)
    requires k < |buckets|
    ensures Turn(buckets, k) == if buckets[k] == [] then buckets else buckets[k := buckets[k][1..]]
  {
  }

  /** No bucket has supplied more than one beyond what a bucket that still has wallets supplied. */
  ghost predicate Fair<T>(before: seq<seq<T>>, after: seq<seq<T>>)
    requires |before| == |after|
  {
    forall p: nat, q: nat :: p < |before| && q < |before| && after[q] != [] ==>
      |before[p]| - |after[p]| <= |before[q]| - |after[q]| + 1
  }

  lemma StartStands<T>(before: seq<seq<T>>)
    requires before != []
    ensures Standing(before, before, [], 0, 0)
  {
  }

  lemma StandingMeans<T>(before: seq<seq<T>>, after: seq<seq<T>>, picks: seq<T>, c: nat, i: nat)
    requires before != [] && Standing(before, after, picks, c, i)
    ensures |before| == |after| && |picks| + Total(after) == Total(before)
    ensures multiset(picks) + Bag(after) == Bag(before)
    ensures picks == Order(before, c, i) && Rotated(before, after, c, i) && Fair(before, after)
  {
    hide Order, Bag, Total, Visited;
  }

  /** Picks five, or all there are, slot by slot in the rotating order, and fairly. */
  method RoundRobin<T>(buckets: array<seq<T>>) returns (picks: seq<T>, ghost passes: nat, ghost steps: nat)
    requires buckets.Length > 0
    modifies buckets
    ensures |picks| == Min(PICKS, old(Total(buckets[..])))
    ensures multiset(picks) + Bag(buckets[..]) == old(Bag(buckets[..]))
    ensures steps <= buckets.Length && picks == Order(old(buckets[..]), passes, steps)
    ensures Rotated(old(buckets[..]), buckets[..], passes, steps) && Fair(old(buckets[..]), buckets[..])
  {
    hide Standing, Order, Rotated, Fair, Bag, Total;
    ghost var before := buckets[..];
    picks := [];
    var cursor := 0;
    passes, steps := 0, 0;
    StartStands(before);
    while |picks| < PICKS
      invariant |picks| <= PICKS && steps <= buckets.Length
      invariant |picks| < PICKS ==> steps == 0 && cursor == passes
      invariant Standing(before, buckets[..], picks, passes, steps)
      decreases PICKS - |picks|
    {
      var advanced;
      picks, advanced, steps := Pass(buckets, cursor, picks, before);
      if !advanced {
        break;
      }
      cursor := cursor + 1;
      if |picks| < PICKS {
        PassStands(before, buckets[..], picks, passes);
        passes, steps := passes + 1, 0;
      }
    }
    StandingMeans(before, buckets[..], picks, passes, steps);
  }

  lemma {:induction false} TotalIsBagSize<T>(buckets: seq<seq<T>>)
    ensures |Bag(buckets)| == Total(buckets)
  {
    if buckets != [] {
      TotalIsBagSize(buckets[1..]);
    }
  }
}
