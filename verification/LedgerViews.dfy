/** Non-interference: what one business document does to the ledger, and every answer it gets,
    depend only on the transfers of that document. This is so over accounts opened without the
    no-overdraft flag; Cover says what documents share on those opened with it. */
module LedgerViews {
  import opened Prelude
  import opened Ledger

  lemma {:induction false} MineAppend(log: seq<Transfer>, t: Transfer, src: Source)
    ensures Mine(log + [t], src) == Mine(log, src) + (if t.id.source == src then [t] else [])
  {
    assert (log + [t])[..|log|] == log;
  }

  /** An id of this source sits in the view exactly when it sits in the log, with the same
      record, and replacing that record commutes with taking the view. */
  lemma {:induction false} MineFind(log: seq<Transfer>, id: TransferId)
    requires UniqueIds(log)
    ensures Has(Mine(log, id.source), id) <==> Has(log, id)
    ensures Has(log, id) ==> Mine(log, id.source)[IndexOf(Mine(log, id.source), id)] == log[IndexOf(log, id)]
  {
    MineMembers(log, id.source);
    MineUnique(log, id.source);
    var m := Mine(log, id.source);
    if Has(log, id) {
      var t := log[IndexOf(log, id)];
      assert t in log && t in m;
      var k :| 0 <= k < |m| && m[k] == t;
      assert IndexOf(m, id) == k;
    }
    if Has(m, id) {
      assert m[IndexOf(m, id)] in m;
    }
  }

  lemma {:induction false} MineMembers(log: seq<Transfer>, src: Source)
    ensures forall t :: t in Mine(log, src) <==> t in log && t.id.source == src
  {
    if log != [] {
      MineMembers(log[..|log| - 1], src);
      assert log == log[..|log| - 1] + [log[|log| - 1]];
    }
  }

  lemma {:induction false} MineUnique(log: seq<Transfer>, src: Source)
    requires UniqueIds(log)
    ensures UniqueIds(Mine(log, src))
  {
    if log != [] {
      var n := |log| - 1;
      MineUnique(log[..n], src);
      MineMembers(log[..n], src);
      var m := Mine(log[..n], src);
      forall k | 0 <= k < |m| ensures m[k].id != log[n].id {
        assert m[k] in log[..n];
      }
    }
  }

  predicate Replaces(log: seq<Transfer>, log': seq<Transfer>, t: Transfer, src: Source) {
    if t.id.source != src then Mine(log', src) == Mine(log, src)
    else
      var j := IndexOf(Mine(log, src), t.id);
      j < |Mine(log, src)| && Mine(log', src) == Mine(log, src)[j := t]
  }

  lemma MineUpdateLast(log: seq<Transfer>, t: Transfer, src: Source)
    requires UniqueIds(log) && log != [] && t.id == log[|log| - 1].id
    ensures Replaces(log, log[|log| - 1 := t], t, src)
  {
    var n := |log| - 1;
    var m := Mine(log[..n], src);
    assert log[n := t][..n] == log[..n];
    if t.id.source == src {
      MineMembers(log[..n], src);
      forall k | 0 <= k < |m| ensures m[k].id != t.id {
        assert m[k] in log[..n];
      }
      assert IndexOf(m + [log[n]], t.id) == |m| by {
        assert (m + [log[n]])[|m|].id == t.id;
      }
    }
  }

  /** Replacing a record commutes with taking the view. */
  lemma {:induction false} MineUpdate(log: seq<Transfer>, i: nat, t: Transfer, src: Source)
    requires UniqueIds(log) && i < |log| && t.id == log[i].id
    ensures Replaces(log, log[i := t], t, src)
  {
    var n := |log| - 1;
    if i == n {
      MineUpdateLast(log, t, src);
    } else {
      var m := Mine(log[..n], src);
      var last := if log[n].id.source == src then [log[n]] else [];
      assert log[i := t][..n] == log[..n][i := t];
      MineUpdate(log[..n], i, t, src);
      IndexOfConcat(m, last, t.id);
    }
  }

  /** Creating a transfer: the document's own view answers as the whole ledger does, and no
      other document's view moves. */
  lemma {:induction false} CreateIsLocal(tb: Tb, t: Transfer, other: Source)
    requires UniqueIds(tb.log)
    ensures var r, v := Create(tb, t), Create(View(tb, t.id.source), t);
      && (r.Ok? <==> v.Ok?)
      && (r.Ok? ==> View(r.value, t.id.source) == v.value && UniqueIds(r.value.log))
      && (r.Ok? && other != t.id.source ==> View(r.value, other) == View(tb, other))
  {
    MineFind(tb.log, t.id);
    MineAppend(tb.log, t, t.id.source);
    MineAppend(tb.log, t, other);
  }

  lemma {:induction false} ResolveIsLocal(tb: Tb, id: TransferId, amount: nat, outcome: Phase, other: Source)
    requires UniqueIds(tb.log)
    ensures var r, v := Resolve(tb, id, amount, outcome), Resolve(View(tb, id.source), id, amount, outcome);
      && (r.Ok? <==> v.Ok?)
      && (r.Ok? ==> View(r.value, id.source) == v.value && UniqueIds(r.value.log))
      && (r.Ok? && other != id.source ==> View(r.value, other) == View(tb, other))
  {
    MineFind(tb.log, id);
    if Has(tb.log, id) {
      var i := IndexOf(tb.log, id);
      MineUpdate(tb.log, i, tb.log[i].(phase := outcome), id.source);
      MineUpdate(tb.log, i, tb.log[i].(phase := outcome), other);
    }
  }

  // ── Work on one document ──

  /** `b` is `a` after work on `src`: the work looks the same from the document's own view, and
      no other document's view moved. */
  ghost predicate LocalTo(a: Tb, b: Tb, v: Tb, src: Source) {
    && UniqueIds(b.log) && b.accounts == a.accounts
    && View(b, src) == v
    && forall other :: other != src ==> View(b, other) == View(a, other)
  }

  lemma LocalTrans(a: Tb, b: Tb, c: Tb, v: Tb, src: Source)
    requires LocalTo(a, b, View(b, src), src) && LocalTo(b, c, v, src)
    ensures LocalTo(a, c, v, src)
  {
  }

  lemma CreateLocal(tb: Tb, t: Transfer)
    requires UniqueIds(tb.log)
    ensures
      var r, v := Create(tb, t), Create(View(tb, t.id.source), t);
      (r.Ok? <==> v.Ok?) && (r.Ok? ==> LocalTo(tb, r.value, v.value, t.id.source))
  {
    CreateIsLocal(tb, t, t.id.source);
    forall other | other != t.id.source
      ensures Create(tb, t).Ok? ==> View(Create(tb, t).value, other) == View(tb, other)
    {
      CreateIsLocal(tb, t, other);
    }
  }

  lemma ResolveLocal(tb: Tb, id: TransferId, amount: nat, outcome: Phase)
    requires UniqueIds(tb.log)
    ensures
      var r, v := Resolve(tb, id, amount, outcome), Resolve(View(tb, id.source), id, amount, outcome);
      (r.Ok? <==> v.Ok?) && (r.Ok? ==> LocalTo(tb, r.value, v.value, id.source))
  {
    ResolveIsLocal(tb, id, amount, outcome, id.source);
    forall other | other != id.source
      ensures Resolve(tb, id, amount, outcome).Ok?
          ==> View(Resolve(tb, id, amount, outcome).value, other) == View(tb, other)
    {
      ResolveIsLocal(tb, id, amount, outcome, other);
    }
  }

  // ── Sums move with the view ──

  /** What the work added to any sum over the ledger is what it added over its own view. */
  ghost predicate Shifts(a: Tb, b: Tb, src: Source, w: Transfer -> int) {
    Sum(b.log, w) - Sum(a.log, w) == Sum(Mine(b.log, src), w) - Sum(Mine(a.log, src), w)
  }

  lemma CreateShifts(tb: Tb, t: Transfer, w: Transfer -> int)
    requires Create(tb, t).Ok?
    ensures Shifts(tb, Create(tb, t).value, t.id.source, w)
  {
    SumConcat(tb.log, [t], w);
    MineAppend(tb.log, t, t.id.source);
    SumConcat(Mine(tb.log, t.id.source), [t], w);
  }

  lemma ResolveShifts(tb: Tb, id: TransferId, amount: nat, outcome: Phase, w: Transfer -> int)
    requires UniqueIds(tb.log) && Resolve(tb, id, amount, outcome).Ok?
    ensures Shifts(tb, Resolve(tb, id, amount, outcome).value, id.source, w)
  {
    var i, m := IndexOf(tb.log, id), Mine(tb.log, id.source);
    var t := tb.log[i].(phase := outcome);
    SumUpdate(tb.log, i, t, w);
    MineFind(tb.log, id);
    MineUpdate(tb.log, i, t, id.source);
    SumUpdate(m, IndexOf(m, id), t, w);
  }
}
