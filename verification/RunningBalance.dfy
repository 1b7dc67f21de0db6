/** The running-balance pass over a day's statement lines: what each line ends up showing, in which
    order accounts are visited, and when the last line shows the closing balance. */
module RunningBalance {
  import opened Prelude
  import opened FlowMatching

  /** A statement row of some account; `shown` is its `balanceAfter`. */
  datatype Row = Row(account: nat, entry: Entry, shown: Option<int>)

  /** A balance row of the day; accounts are unique per day. */
  datatype Opening = Opening(account: nat, balance: int)

  datatype Day = Day(lo: int, hi: int)

  predicate OnDay(r: Row, account: nat, day: Day) { r.account == account && day.lo <= r.entry.at <= day.hi }

  /** The query's order: by time, ties as the table has them. */
  predicate Before(rows: seq<Row>, j: nat, i: nat)
    requires j < |rows| && i < |rows|
  {
    rows[j].entry.at < rows[i].entry.at || (rows[j].entry.at == rows[i].entry.at && j <= i)
  }

  /** Net of the account's lines of the day up to and including line `i`, counted over the first
      `n` rows, in no particular order. */
  function NetUpTo(rows: seq<Row>, account: nat, day: Day, i: nat, n: nat): int
    requires i < |rows| && n <= |rows|
  {
    if n == 0 then 0
    else
      NetUpTo(rows, account, day, i, n - 1)
      + (if OnDay(rows[n - 1], account, day) && Before(rows, n - 1, i) then Signed(rows[n - 1].entry) else 0)
  }

  function Shown(rows: seq<Row>, o: Opening, day: Day, i: nat): int
    requires i < |rows|
  {
    o.balance + NetUpTo(rows, o.account, day, i, |rows|)
  }

  /** `after` is `rows` with the account's lines of the day showing their running balance. */
  ghost predicate Filled(rows: seq<Row>, after: seq<Row>, o: Opening, day: Day) {
    && |after| == |rows|
    && forall i :: 0 <= i < |rows| ==>
         after[i] == if OnDay(rows[i], o.account, day) then rows[i].(shown := Some(Shown(rows, o, day, i))) else rows[i]
  }

  /** Only what lines show may differ. */
  ghost predicate SameLines(rows: seq<Row>, after: seq<Row>) {
    |after| == |rows| && forall i :: 0 <= i < |rows| ==>
        after[i].account == rows[i].account && after[i].entry == rows[i].entry
  }

  lemma {:induction false} NetSame(rows: seq<Row>, after: seq<Row>, account: nat, day: Day, i: nat, n: nat)
    requires SameLines(rows, after) && i < |rows| && n <= |rows|
    ensures NetUpTo(after, account, day, i, n) == NetUpTo(rows, account, day, i, n)
  {
    if n > 0 {
      NetSame(rows, after, account, day, i, n - 1);
    }
  }

  lemma FilledKeepsLines(rows: seq<Row>, after: seq<Row>, o: Opening, day: Day)
    requires Filled(rows, after, o, day)
    ensures SameLines(rows, after)
  {
  }

  // ── All accounts ──

  ghost predicate DistinctAccounts(os: seq<Opening>) {
    forall i, j :: 0 <= i < j < |os| ==> os[i].account != os[j].account
  }

  /** Every line of an account with a balance row shows its running balance; no other line moves. */
  ghost predicate AllFilled(rows: seq<Row>, after: seq<Row>, os: seq<Opening>, day: Day) {
    && SameLines(rows, after)
    && (forall i, o :: 0 <= i < |rows| && o in os && OnDay(rows[i], o.account, day) ==>
          after[i].shown == Some(Shown(rows, o, day, i)))
    && (forall i :: 0 <= i < |rows| && (forall o :: o in os ==> !OnDay(rows[i], o.account, day)) ==>
        after[i] == rows[i])
  }

  lemma OneMore(rows: seq<Row>, mid: seq<Row>, after: seq<Row>, os: seq<Opening>, k: nat, day: Day)
    requires DistinctAccounts(os) && k < |os|
    requires AllFilled(rows, mid, os[..k], day) && Filled(mid, after, os[k], day)
    ensures AllFilled(rows, after, os[..k + 1], day)
  {
    FilledKeepsLines(mid, after, os[k], day);
    forall i, o | 0 <= i < |rows| && o in os[..k + 1] && OnDay(rows[i], o.account, day)
      ensures after[i].shown == Some(Shown(rows, o, day, i))
    {
      if o.account == os[k].account {
        SameOpening(os, k, o);
        NetSame(rows, mid, o.account, day, i, |rows|);
      } else {
        assert o in os[..k];
      }
    }
    assert os[..k + 1] == os[..k] + [os[k]];
  }

  lemma SameOpening(os: seq<Opening>, k: nat, o: Opening)
    requires DistinctAccounts(os) && k < |os| && o in os[..k + 1] && o.account == os[k].account
    ensures o == os[k]
  {
  }

  /** The result does not depend on the order in which accounts are visited. */
  lemma OrderDoesNotMatter(rows: seq<Row>, a: seq<Row>, b: seq<Row>, os: seq<Opening>, os': seq<Opening>, day: Day)
    requires multiset(os) == multiset(os')
    requires AllFilled(rows, a, os, day) && AllFilled(rows, b, os', day)
    ensures a == b
  {
    forall i | 0 <= i < |rows| ensures a[i] == b[i] {
      if o :| o in os && OnDay(rows[i], o.account, day) {
        assert o in multiset(os');
        assert o in os';
      } else {
        forall o | o in os' ensures o in os {
          assert o in multiset(os);
        }
      }
    }
  }

  /** A second pass changes nothing. */
  lemma SecondPassIsIdle(rows: seq<Row>, once: seq<Row>, twice: seq<Row>, os: seq<Opening>, day: Day)
    requires AllFilled(rows, once, os, day) && AllFilled(once, twice, os, day)
    ensures twice == once
  {
    forall i | 0 <= i < |rows| ensures twice[i] == once[i] {
      if o :| o in os && OnDay(rows[i], o.account, day) {
        NetSame(rows, once, o.account, day, i, |rows|);
      }
    }
  }

  // ── The loops ──

  predicate AllOnDay(rows: seq<Row>, ids: seq<nat>, account: nat, day: Day, n: nat) {
    forall k :: 0 <= k < |ids| ==> ids[k] < n <= |rows| && OnDay(rows[ids[k]], account, day)
  }

  ghost predicate ByTime(rows: seq<Row>, ids: seq<nat>)
    requires forall k :: 0 <= k < |ids| ==> ids[k] < |rows|
  {
    forall k, l :: 0 <= k < l < |ids| ==> ids[k] != ids[l] && Before(rows, ids[k], ids[l])
  }

  /** The query: indices of the account's lines of the day, by time. */
  ghost predicate Selected(rows: seq<Row>, ids: seq<nat>, account: nat, day: Day, n: nat) {
    AllOnDay(rows, ids, account, day, n) && ByTime(rows, ids)
  }

  ghost predicate Complete(rows: seq<Row>, ids: seq<nat>, account: nat, day: Day, n: nat) {
    forall j :: 0 <= j < n <= |rows| && OnDay(rows[j], account, day) ==> j in ids
  }

  lemma Inserted(rows: seq<Row>, ids: seq<nat>, account: nat, day: Day, n: nat, p: nat)
    requires n < |rows| && Selected(rows, ids, account, day, n) && OnDay(rows[n], account, day) && p <= |ids|
    requires p > 0 ==> rows[ids[p - 1]].entry.at <= rows[n].entry.at
    requires forall k :: p <= k < |ids| ==> rows[ids[k]].entry.at > rows[n].entry.at
    ensures Selected(rows, ids[..p] + [n] + ids[p..], account, day, n + 1)
  {
    var ids' := ids[..p] + [n] + ids[p..];
    forall k | 0 <= k < p ensures Before(rows, ids[k], n) {
      assert k < p - 1 ==> Before(rows, ids[k], ids[p - 1]);
    }
    forall k, l | 0 <= k < l < |ids'| ensures ids'[k] != ids'[l] && Before(rows, ids'[k], ids'[l]) {
      var k0, l0 := if k < p then k else k - 1, if l < p then l else l - 1;
      if k != p && l != p {
        assert ids'[k] == ids[k0] && ids'[l] == ids[l0];
      }
    }
  }

  /** Inserting the next row behind every row of its time or earlier. */
  method InsertByTime(rows: seq<Row>, ids: seq<nat>, account: nat, day: Day, n: nat) returns (ids': seq<nat>)
    requires n < |rows| && Selected(rows, ids, account, day, n) && Complete(rows, ids, account, day, n)
    requires OnDay(rows[n], account, day)
    ensures Selected(rows, ids', account, day, n + 1) && Complete(rows, ids', account, day, n + 1)
  {
    var p := |ids|;
    while p > 0 && rows[ids[p - 1]].entry.at > rows[n].entry.at
      invariant 0 <= p <= |ids|
      invariant forall k :: p <= k < |ids| ==> rows[ids[k]].entry.at > rows[n].entry.at
    {
      p := p - 1;
    }
    ids' := ids[..p] + [n] + ids[p..];
    Inserted(rows, ids, account, day, n, p);
    StillComplete(rows, ids, account, day, n, p);
  }

  lemma StillComplete(rows: seq<Row>, ids: seq<nat>, account: nat, day: Day, n: nat, p: nat)
    requires n < |rows| && Complete(rows, ids, account, day, n) && p <= |ids|
    ensures Complete(rows, ids[..p] + [n] + ids[p..], account, day, n + 1)
  {
    assert ids == ids[..p] + ids[p..];
    forall j | 0 <= j < n + 1 && OnDay(rows[j], account, day) ensures j in ids[..p] + [n] + ids[p..] {
      if j < n {
        assert j in ids;
      }
    }
  }

  method SelectByTime(rows: seq<Row>, account: nat, day: Day) returns (ids: seq<nat>)
    ensures Selected(rows, ids, account, day, |rows|) && Complete(rows, ids, account, day, |rows|)
  {
    ids := [];
    for n := 0 to |rows|
      invariant Selected(rows, ids, account, day, n) && Complete(rows, ids, account, day, n)
    {
      if OnDay(rows[n], account, day) {
        ids := InsertByTime(rows, ids, account, day, n);
      }
    }
  }

  function SumIds(rows: seq<Row>, ids: seq<nat>): int
    requires forall k :: 0 <= k < |ids| ==> ids[k] < |rows|
  {
    if ids == [] then 0 else SumIds(rows, ids[..|ids| - 1]) + Signed(rows[ids[|ids| - 1]].entry)
  }

  /** The same sum, read off the table instead of the list. */
  function SumOver(rows: seq<Row>, ids: set<nat>, n: nat): int
    requires n <= |rows|
  {
    if n == 0 then 0 else SumOver(rows, ids, n - 1) + (if n - 1 in ids then Signed(rows[n - 1].entry) else 0)
  }

  lemma {:induction false} SumOverAdd(rows: seq<Row>, ids: set<nat>, id: nat, n: nat)
    requires n <= |rows| && id < |rows| && id !in ids
    ensures SumOver(rows, ids + {id}, n) == SumOver(rows, ids, n) + (if id < n then Signed(rows[id].entry) else 0)
  {
    if n > 0 {
      SumOverAdd(rows, ids, id, n - 1);
    }
  }

  function IdSet(ids: seq<nat>): set<nat> { set x | x in ids }

  lemma {:induction false} ListIsSet(rows: seq<Row>, ids: seq<nat>)
    requires forall k :: 0 <= k < |ids| ==> ids[k] < |rows|
    requires forall k, l :: 0 <= k < l < |ids| ==> ids[k] != ids[l]
    ensures SumIds(rows, ids) == SumOver(rows, IdSet(ids), |rows|)
  {
    if ids == [] {
      assert IdSet(ids) == {};
      NoneOver(rows, |rows|);
    } else {
      var n := |ids| - 1;
      ListIsSet(rows, ids[..n]);
      assert ids == ids[..n] + [ids[n]];
      assert IdSet(ids) == IdSet(ids[..n]) + {ids[n]};
      SumOverAdd(rows, IdSet(ids[..n]), ids[n], |rows|);
    }
  }

  lemma {:induction false} NoneOver(rows: seq<Row>, n: nat)
    requires n <= |rows|
    ensures SumOver(rows, {}, n) == 0
  {
    if n > 0 {
      NoneOver(rows, n - 1);
    }
  }

  lemma {:induction false} OverIsNet(rows: seq<Row>, ids: set<nat>, account: nat, day: Day, i: nat, n: nat)
    requires i < |rows| && n <= |rows|
    requires forall j: nat :: j < |rows| ==> (j in ids <==> OnDay(rows[j], account, day) && Before(rows, j, i))
    ensures SumOver(rows, ids, n) == NetUpTo(rows, account, day, i, n)
  {
    if n > 0 {
      OverIsNet(rows, ids, account, day, i, n - 1);
    }
  }

  lemma InPrefix(rows: seq<Row>, ids: seq<nat>, account: nat, day: Day, k: nat, j: nat)
    requires Selected(rows, ids, account, day, |rows|) && Complete(rows, ids, account, day, |rows|) && k < |ids|
    requires j < |rows| && OnDay(rows[j], account, day) && Before(rows, j, ids[k])
    ensures j in ids[..k + 1]
  {
    var m :| 0 <= m < |ids| && ids[m] == j;
    if m <= k {
      assert ids[..k + 1][m] == j;
    }
  }

  /** The first k + 1 selected lines are exactly those up to the k-th. */
  lemma PrefixIsNet(rows: seq<Row>, ids: seq<nat>, account: nat, day: Day, k: nat)
    requires Selected(rows, ids, account, day, |rows|) && Complete(rows, ids, account, day, |rows|) && k < |ids|
    ensures SumIds(rows, ids[..k + 1]) == NetUpTo(rows, account, day, ids[k], |rows|)
  {
    var first := IdSet(ids[..k + 1]);
    forall j: nat | j < |rows| ensures j in first <==> OnDay(rows[j], account, day) && Before(rows, j, ids[k]) {
      if j in first {
        var m :| 0 <= m < k + 1 && ids[..k + 1][m] == j;
        assert ids[m] == j;
      }
      if OnDay(rows[j], account, day) && Before(rows, j, ids[k]) {
        InPrefix(rows, ids, account, day, k, j);
      }
    }
    ListIsSet(rows, ids[..k + 1]);
    OverIsNet(rows, first, account, day, ids[k], |rows|);
  }

  /** The lines in `done` are filled in, the others are as before. */
  ghost predicate Progress(before: seq<Row>, rows: seq<Row>, done: set<nat>, o: Opening, day: Day) {
    && |rows| == |before|
    && forall i: nat :: i < |before| ==>
         rows[i] == if i in done then before[i].(shown := Some(Shown(before, o, day, i))) else before[i]
  }

  lemma FillOne(before: seq<Row>, rows: seq<Row>, done: set<nat>, id: nat, o: Opening, day: Day)
    requires Progress(before, rows, done, o, day) && id < |before| && id !in done
    ensures rows[id] == before[id]
    ensures Progress(before, rows[id := before[id].(shown := Some(Shown(before, o, day, id)))], done + {id}, o, day)
  {
    hide Shown;
  }

  lemma SumIdsSnoc(rows: seq<Row>, ids: seq<nat>, id: nat)
    requires id < |rows| && forall k :: 0 <= k < |ids| ==> ids[k] < |rows|
    ensures SumIds(rows, ids + [id]) == SumIds(rows, ids) + Signed(rows[id].entry)
    ensures IdSet(ids + [id]) == IdSet(ids) + {id}
  {
    assert (ids + [id])[..|ids|] == ids;
  }

  lemma NotBefore(rows: seq<Row>, ids: seq<nat>, account: nat, day: Day, k: nat)
    requires k < |ids| && Selected(rows, ids, account, day, |rows|)
    ensures ids[k] !in IdSet(ids[..k])
  {
  }

  lemma NextRunning(rows: seq<Row>, ids: seq<nat>, k: nat, o: Opening, day: Day)
    requires k < |ids|
    requires Selected(rows, ids, o.account, day, |rows|) && Complete(rows, ids, o.account, day, |rows|)
    ensures SumIds(rows, ids[..k + 1]) == SumIds(rows, ids[..k]) + Signed(rows[ids[k]].entry)
    ensures Shown(rows, o, day, ids[k]) == o.balance + SumIds(rows, ids[..k + 1])
    ensures ids[k] !in IdSet(ids[..k]) && IdSet(ids[..k + 1]) == IdSet(ids[..k]) + {ids[k]}
  {
    hide SumIds, IdSet, NetUpTo, Complete, ByTime;
    PrefixIsNet(rows, ids, o.account, day, k);
    NotBefore(rows, ids, o.account, day, k);
    assert ids[..k + 1] == ids[..k] + [ids[k]];
    SumIdsSnoc(rows, ids[..k], ids[k]);
  }

  lemma ProgressStart(rows: seq<Row>, ids: seq<nat>, o: Opening, day: Day)
    ensures SumIds(rows, ids[..0]) == 0 && Progress(rows, rows, IdSet(ids[..0]), o, day)
  {
  }

  lemma ProgressDone(before: seq<Row>, rows: seq<Row>, ids: seq<nat>, o: Opening, day: Day)
    requires Progress(before, rows, IdSet(ids), o, day)
    requires Selected(before, ids, o.account, day, |before|) && Complete(before, ids, o.account, day, |before|)
    ensures Filled(before, rows, o, day)
  {
    hide Shown;
  }

  class StatementTable {
    var rows: seq<Row>

    constructor (rows: seq<Row>)
      ensures this.rows == rows
    {
      this.rows := rows;
    }

    /** One account: run through its lines by time, adding and subtracting. */
    method FillAccount(o: Opening, day: Day)
      modifies this
      ensures Filled(old(rows), rows, o, day)
    {
      hide SumIds, Complete, IdSet, Shown;
      ghost var before := rows;
      var ids := SelectByTime(rows, o.account, day);
      ProgressStart(rows, ids, o, day);
      var running := o.balance;
      for k := 0 to |ids|
        invariant running == o.balance + SumIds(before, ids[..k])
        invariant Progress(before, rows, IdSet(ids[..k]), o, day)
      {
        NextRunning(before, ids, k, o, day);
        FillOne(before, rows, IdSet(ids[..k]), ids[k], o, day);
        var r := rows[ids[k]];
        running := if r.entry.direction == IN then running + r.entry.amount else running - r.entry.amount;
        rows := rows[ids[k] := r.(shown := Some(running))];
      }
      assert ids[..|ids|] == ids;
      ProgressDone(before, rows, ids, o, day);
    }

    /** `populateBalanceAfter`: every balance row of the day in turn. */
    method PopulateBalanceAfter(os: seq<Opening>, day: Day)
      requires DistinctAccounts(os)
      modifies this
      ensures AllFilled(old(rows), rows, os, day)
    {
      for k := 0 to |os|
        invariant AllFilled(old(rows), rows, os[..k], day)
      {
        ghost var mid := rows;
        FillAccount(os[k], day);
        OneMore(old(rows), mid, rows, os, k, day);
      }
      assert os[..|os|] == os;
    }
  }

  // ── Roll-forward ──

  function AccountNet(rows: seq<Row>, account: nat, n: nat): int
    requires n <= |rows|
  {
    if n == 0 then 0
    else AccountNet(rows, account, n - 1) + (if rows[n - 1].account == account then Signed(rows[n - 1].entry) else 0)
  }

  /** Net of the account's lines dated outside the day. */
  function OffDayNet(rows: seq<Row>, account: nat, day: Day, n: nat): int
    requires n <= |rows|
  {
    if n == 0 then 0
    else
      OffDayNet(rows, account, day, n - 1)
      + (if rows[n - 1].account == account && !OnDay(rows[n - 1], account, day) then Signed(rows[n - 1].entry) else 0)
  }

  lemma {:induction false} LastSeesTheDay(rows: seq<Row>, account: nat, day: Day, i: nat, n: nat)
    requires i < |rows| && n <= |rows|
    requires forall j :: 0 <= j < |rows| && OnDay(rows[j], account, day) ==> Before(rows, j, i)
    ensures NetUpTo(rows, account, day, i, n) + OffDayNet(rows, account, day, n) == AccountNet(rows, account, n)
  {
    if n > 0 {
      LastSeesTheDay(rows, account, day, i, n - 1);
    }
  }

  /** When opening plus all lines make the closing balance, the day's last line shows the closing
      balance exactly when the lines dated on other days net to nothing. */
  lemma LastLineShowsClosingIff(rows: seq<Row>, o: Opening, day: Day, i: nat, closing: int)
    requires i < |rows| && forall j :: 0 <= j < |rows| && OnDay(rows[j], o.account, day) ==> Before(rows, j, i)
    requires closing == o.balance + AccountNet(rows, o.account, |rows|)
    ensures Shown(rows, o, day, i) == closing <==> OffDayNet(rows, o.account, day, |rows|) == 0
  {
    LastSeesTheDay(rows, o.account, day, i, |rows|);
  }

  // ── Line by line ──

  /** A line of the account, dated within the day. */
  predicate Dated(r: Row, account: nat, day: Day) {
    r.account == account && day.lo <= r.entry.at && r.entry.at <= day.hi
  }

  /** Line `k` comes before line `i`: earlier, or at the same time and higher up in the table. */
  predicate Earlier(rows: seq<Row>, k: nat, i: nat)
    requires k < |rows| && i < |rows|
  {
    rows[k].entry.at < rows[i].entry.at || (rows[k].entry.at == rows[i].entry.at && k < i)
  }

  lemma {:induction false} NetBehind(rows: seq<Row>, account: nat, day: Day, j: nat, i: nat, n: nat)
    requires j < |rows| && i < |rows| && n <= |rows| && Dated(rows[i], account, day) && Earlier(rows, j, i)
    requires forall k :: 0 <= k < |rows| && Dated(rows[k], account, day) && Earlier(rows, k, i) ==>
      k == j || Earlier(rows, k, j)
    ensures NetUpTo(rows, account, day, i, n)
         == NetUpTo(rows, account, day, j, n) + if i < n then Signed(rows[i].entry) else 0
  {
    if n > 0 {
      NetBehind(rows, account, day, j, i, n - 1);
    }
  }

  lemma {:induction false} NetAtFirst(rows: seq<Row>, account: nat, day: Day, i: nat, n: nat)
    requires i < |rows| && n <= |rows| && Dated(rows[i], account, day)
    requires forall k :: 0 <= k < |rows| && Dated(rows[k], account, day) ==> !Earlier(rows, k, i)
    ensures NetUpTo(rows, account, day, i, n) == if i < n then Signed(rows[i].entry) else 0
  {
    if n > 0 {
      NetAtFirst(rows, account, day, i, n - 1);
    }
  }

  /** The day's first line shows the opening balance plus an incoming or less an outgoing amount. */
  lemma FirstLineShows(rows: seq<Row>, after: seq<Row>, o: Opening, day: Day, i: nat)
    requires Filled(rows, after, o, day) && i < |rows| && Dated(rows[i], o.account, day)
    requires forall k :: 0 <= k < |rows| && Dated(rows[k], o.account, day) ==> !Earlier(rows, k, i)
    ensures
      var e := rows[i].entry;
      after[i].shown == Some(if e.direction == IN then o.balance + e.amount else o.balance - e.amount)
  {
    NetAtFirst(rows, o.account, day, i, |rows|);
  }

  /** Every further line shows what the line before it shows, plus or less its own amount. */
  lemma NextLineShows(rows: seq<Row>, after: seq<Row>, o: Opening, day: Day, j: nat, i: nat)
    requires Filled(rows, after, o, day) && j < |rows| && i < |rows|
    requires Dated(rows[j], o.account, day) && Dated(rows[i], o.account, day) && Earlier(rows, j, i)
    requires forall k :: 0 <= k < |rows| && Dated(rows[k], o.account, day) && Earlier(rows, k, i) ==>
      k == j || Earlier(rows, k, j)
    ensures after[j].shown.Some?
    ensures
      var e, prior := rows[i].entry, after[j].shown.value;
      after[i].shown == Some(if e.direction == IN then prior + e.amount else prior - e.amount)
  {
    NetBehind(rows, o.account, day, j, i, |rows|);
  }

  /** No other line of the table changes, and none changes in anything but what it shows. */
  lemma OtherLinesStay(rows: seq<Row>, after: seq<Row>, o: Opening, day: Day, i: nat)
    requires Filled(rows, after, o, day) && i < |rows|
    ensures after[i].account == rows[i].account && after[i].entry == rows[i].entry
    ensures !Dated(rows[i], o.account, day) ==> after[i] == rows[i]
  {
  }
}
