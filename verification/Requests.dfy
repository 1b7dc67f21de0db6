/** What a business document asks of the ledger: a run of requests, postings and voidings that all
    carry its own ids. */
module Requests {
  import opened Ledger
  import opened GapLaws
  import opened Cover

  function DocumentOf(r: Request): Source {
    match r
    case Record(t) => t.id.source
    case Decide(id, _, _) => id.source
  }

  /** Served in turn, the requests, all of one document, take the ledger there. */
  ghost predicate Asks(tb: Tb, capped: set<nat>, rs: seq<Request>, src: Source, after: Tb) {
    ServeAllCapped(tb, capped, rs) == after && forall r :: r in rs ==> DocumentOf(r) == src
  }

  lemma {:induction false} ServeConcat(tb: Tb, capped: set<nat>, a: seq<Request>, b: seq<Request>)
    ensures ServeAllCapped(tb, capped, a + b) == ServeAllCapped(ServeAllCapped(tb, capped, a), capped, b)
    decreases |a|
  {
    if a == [] {
      assert a + b == b;
    } else {
      assert (a + b)[1..] == a[1..] + b;
      ServeConcat(ServeCapped(tb, capped, a[0]), capped, a[1..], b);
    }
  }

  lemma AsksBoth(tb: Tb, capped: set<nat>, a: seq<Request>, b: seq<Request>, src: Source, mid: Tb, after: Tb)
    requires Asks(tb, capped, a, src, mid) && Asks(mid, capped, b, src, after)
    ensures Asks(tb, capped, a + b, src, after)
  {
    ServeConcat(tb, capped, a, b);
  }

  lemma AsksOne(tb: Tb, capped: set<nat>, r: Request)
    ensures Asks(tb, capped, [r], DocumentOf(r), ServeCapped(tb, capped, r))
  {
    assert [r][1..] == [];
  }

  lemma AsksNothing(tb: Tb, capped: set<nat>, src: Source)
    ensures Asks(tb, capped, [], src, tb)
  {
  }
}
