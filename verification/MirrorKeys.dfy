/** Writing the mirrored lines under their composite keys: no line overwrites a sibling, and writing
    again changes nothing. */
module MirrorKeys {
  import opened FlowMatching

  // ── The key ──

  const DASH: char := '-'

  predicate NoDash(s: string) { DASH !in s }

  function DigitChar(d: nat): char
    requires d < 10
  {
    ('0' as int + d) as char
  }

  function Decimal(n: nat): string {
    if n < 10 then [DigitChar(n)] else Decimal(n / 10) + [DigitChar(n % 10)]
  }

  /** The first eight characters of a flow id. */
  function Short(id: string): string { if |id| <= 8 then id else id[..8] }

  /** `prefix` is the constant part with the business date; wallet ids may hold dashes. */
  function Key(prefix: string, wallet: string, seqNo: nat, flowId: string): string {
    prefix + wallet + [DASH] + Decimal(seqNo) + [DASH] + Short(flowId)
  }

  lemma {:induction false} DecimalHasNoDash(n: nat)
    ensures NoDash(Decimal(n))
  {
    if n >= 10 {
      DecimalHasNoDash(n / 10);
    }
  }

  lemma {:induction false} DecimalIsInjective(m: nat, n: nat)
    requires Decimal(m) == Decimal(n)
    ensures m == n
  {
    if m >= 10 || n >= 10 {
      DecimalLength(m);
      DecimalLength(n);
      assert Decimal(m)[..|Decimal(m)| - 1] == Decimal(m / 10);
      assert Decimal(n)[..|Decimal(n)| - 1] == Decimal(n / 10);
      assert Decimal(m)[|Decimal(m)| - 1] == DigitChar(m % 10);
      assert Decimal(n)[|Decimal(n)| - 1] == DigitChar(n % 10);
      DecimalIsInjective(m / 10, n / 10);
    }
  }

  lemma DecimalLength(n: nat)
    ensures |Decimal(n)| == 1 <==> n < 10
  {
    if n >= 10 {
      assert |Decimal(n / 10)| >= 1;
    }
  }

  /** The number a text of digits stands for. */
  function Read(s: string): int {
    if s == "" then 0 else 10 * Read(s[..|s| - 1]) + (s[|s| - 1] as int - '0' as int)
  }

  /** Line numbers are written in decimal. */
  lemma {:induction false} DecimalReads(n: nat)
    ensures Read(Decimal(n)) == n && forall k :: 0 <= k < |Decimal(n)| ==> '0' <= Decimal(n)[k] <= '9'
  {
    if n >= 10 {
      DecimalReads(n / 10);
      var s := Decimal(n);
      assert s[..|s| - 1] == Decimal(n / 10);
    } else {
      assert Decimal(n)[..0] == "";
    }
  }

  lemma NoDashBehind(a: string, x: string)
    requires NoDash(x)
    ensures forall k :: |a| < k < |a + [DASH] + x| ==> (a + [DASH] + x)[k] != DASH
  {
    var s := a + [DASH] + x;
    forall k | |a| < k < |s| ensures s[k] != DASH {
      assert s[k] == x[k - |a| - 1] && x[k - |a| - 1] in x;
    }
  }

  /** The text after the last dash, and the text before it, can be read back. */
  lemma SplitAtLastDash(a: string, x: string, b: string, y: string)
    requires a + [DASH] + x == b + [DASH] + y && NoDash(x) && NoDash(y)
    ensures a == b && x == y
  {
    var s := a + [DASH] + x;
    assert s == b + [DASH] + y && s[|a|] == DASH && s[|b|] == DASH;
    NoDashBehind(a, x);
    NoDashBehind(b, y);
    assert a == s[..|a|] && b == s[..|b|];
    assert x == s[|a| + 1..] && y == s[|b| + 1..];
  }

  /** What a key is made of: prefix, wallet, number and the first eight characters of the flow id,
      between dashes. */
  lemma KeyIs(prefix: string, wallet: string, seqNo: nat, flowId: string)
    requires |flowId| >= 8
    ensures Key(prefix, wallet, seqNo, flowId) == prefix + wallet + "-" + Decimal(seqNo) + "-" + flowId[..8]
  {
  }

  /** A key decodes to its wallet, its number and its flow, although wallet ids hold dashes. */
  lemma KeyDecodes(prefix: string, w: string, m: nat, f: string, v: string, n: nat, g: string)
    requires NoDash(Short(f)) && NoDash(Short(g))
    requires Key(prefix, w, m, f) == Key(prefix, v, n, g)
    ensures w == v && m == n && Short(f) == Short(g)
  {
    SplitAtLastDash(prefix + w + [DASH] + Decimal(m), Short(f), prefix + v + [DASH] + Decimal(n), Short(g));
    DecimalHasNoDash(m);
    DecimalHasNoDash(n);
    SplitAtLastDash(prefix + w, Decimal(m), prefix + v, Decimal(n));
    DecimalIsInjective(m, n);
    assert w == (prefix + w)[|prefix|..] && v == (prefix + v)[|prefix|..];
  }

  // ── The table of statement lines ──

  datatype MirrorLine = MirrorLine(entry: Entry, flowId: string)
  datatype WalletPlan = WalletPlan(wallet: string, lines: seq<MirrorLine>)
  datatype Stored = Stored(wallet: string, entry: Entry)

  ghost predicate Proper(plans: seq<WalletPlan>) {
    && (forall i, j :: 0 <= i < j < |plans| ==> plans[i].wallet != plans[j].wallet)
    && (forall p :: p in plans ==> ProperLines(p.lines))
  }

  /** Flow ids are UUIDs: their first dash comes after eight digits. */
  ghost predicate ProperLines(lines: seq<MirrorLine>) {
    forall l :: l in lines ==> NoDash(Short(l.flowId))
  }

  function RowsOf(prefix: string, wallet: string, lines: seq<MirrorLine>): map<string, Stored> {
    if lines == [] then map[]
    else
      var n := |lines| - 1;
      RowsOf(prefix, wallet, lines[..n])[Key(prefix, wallet, n + 1, lines[n].flowId) := Stored(wallet, lines[n].entry)]
  }

  function AllRows(prefix: string, plans: seq<WalletPlan>): map<string, Stored> {
    if plans == [] then map[]
    else
      var n := |plans| - 1;
      AllRows(prefix, plans[..n]) + RowsOf(prefix, plans[n].wallet, plans[n].lines)
  }

  function LineTotal(plans: seq<WalletPlan>): nat {
    if plans == [] then 0 else LineTotal(plans[..|plans| - 1]) + |plans[|plans| - 1].lines|
  }

  /** Every key of a wallet's rows is the key of one of its lines. */
  lemma {:induction false} RowKeys(prefix: string, wallet: string, lines: seq<MirrorLine>, key: string) returns (k: nat)
    requires key in RowsOf(prefix, wallet, lines)
    ensures k < |lines| && key == Key(prefix, wallet, k + 1, lines[k].flowId)
  {
    hide Key;
    var n := |lines| - 1;
    if key == Key(prefix, wallet, n + 1, lines[n].flowId) {
      k := n;
    } else {
      k := RowKeys(prefix, wallet, lines[..n], key);
    }
  }

  lemma NewKey(prefix: string, wallet: string, lines: seq<MirrorLine>)
    requires ProperLines(lines) && lines != []
    ensures var n := |lines| - 1; Key(prefix, wallet, n + 1, lines[n].flowId) !in RowsOf(prefix, wallet, lines[..n])
  {
    hide Key;
    var n := |lines| - 1;
    var key := Key(prefix, wallet, n + 1, lines[n].flowId);
    if key in RowsOf(prefix, wallet, lines[..n]) {
      var k := RowKeys(prefix, wallet, lines[..n], key);
      assert lines[k] in lines && lines[n] in lines;
      KeyDecodes(prefix, wallet, n + 1, lines[n].flowId, wallet, k + 1, lines[k].flowId);
    }
  }

  lemma {:induction false} RowCount(prefix: string, wallet: string, lines: seq<MirrorLine>)
    requires ProperLines(lines)
    ensures |RowsOf(prefix, wallet, lines)| == |lines|
  {
    hide Key;
    if lines != [] {
      var n := |lines| - 1;
      assert forall l :: l in lines[..n] ==> l in lines;
      RowCount(prefix, wallet, lines[..n]);
      NewKey(prefix, wallet, lines);
    }
  }

  lemma {:induction false} LineStored(prefix: string, wallet: string, lines: seq<MirrorLine>, k: nat)
    requires ProperLines(lines) && k < |lines|
    ensures
      var key := Key(prefix, wallet, k + 1, lines[k].flowId);
      key in RowsOf(prefix, wallet, lines) && RowsOf(prefix, wallet, lines)[key] == Stored(wallet, lines[k].entry)
  {
    hide Key;
    var n := |lines| - 1;
    if k < n {
      assert forall l :: l in lines[..n] ==> l in lines;
      LineStored(prefix, wallet, lines[..n], k);
      NewKey(prefix, wallet, lines);
    }
  }

  lemma {:induction false} AllKeys(prefix: string, plans: seq<WalletPlan>, key: string) returns (i: nat, k: nat)
    requires key in AllRows(prefix, plans)
    ensures i < |plans| && k < |plans[i].lines| && key == Key(prefix, plans[i].wallet, k + 1, plans[i].lines[k].flowId)
  {
    hide Key;
    var n := |plans| - 1;
    if key in RowsOf(prefix, plans[n].wallet, plans[n].lines) {
      i := n;
      k := RowKeys(prefix, plans[n].wallet, plans[n].lines, key);
    } else {
      i, k := AllKeys(prefix, plans[..n], key);
    }
  }

  lemma DisjointKeys<T>(a: map<string, T>, b: map<string, T>)
    requires a.Keys !! b.Keys
    ensures |a + b| == |a| + |b|
    ensures forall key :: key in a ==> (a + b)[key] == a[key]
  {
    assert (a + b).Keys == a.Keys + b.Keys;
    assert |a.Keys + b.Keys| == |a.Keys| + |b.Keys|;
    assert |(a + b).Keys| == |a + b| && |a.Keys| == |a| && |b.Keys| == |b|;
  }

  lemma WalletsDoNotShareKeys(prefix: string, plans: seq<WalletPlan>)
    requires Proper(plans) && plans != []
    ensures
      var n := |plans| - 1;
      AllRows(prefix, plans[..n]).Keys !! RowsOf(prefix, plans[n].wallet, plans[n].lines).Keys
  {
    hide Key;
    var n := |plans| - 1;
    var a, b := AllRows(prefix, plans[..n]), RowsOf(prefix, plans[n].wallet, plans[n].lines);
    if exists key :: key in a.Keys && key in b.Keys {
      var key :| key in a.Keys && key in b.Keys;
      var i, k := AllKeys(prefix, plans[..n], key);
      var m := RowKeys(prefix, plans[n].wallet, plans[n].lines, key);
      assert plans[i] in plans && plans[n] in plans;
      assert plans[i].lines[k] in plans[i].lines && plans[n].lines[m] in plans[n].lines;
      KeyDecodes(prefix, plans[i].wallet, k + 1, plans[i].lines[k].flowId, plans[n].wallet, m + 1,
          plans[n].lines[m].flowId);
    }
  }

  lemma {:induction false} RowTotal(prefix: string, plans: seq<WalletPlan>)
    requires Proper(plans)
    ensures |AllRows(prefix, plans)| == LineTotal(plans)
  {
    hide Key, RowsOf;
    if plans != [] {
      var n := |plans| - 1;
      assert plans[n] in plans && forall p :: p in plans[..n] ==> p in plans;
      RowTotal(prefix, plans[..n]);
      RowCount(prefix, plans[n].wallet, plans[n].lines);
      WalletsDoNotShareKeys(prefix, plans);
      DisjointKeys(AllRows(prefix, plans[..n]), RowsOf(prefix, plans[n].wallet, plans[n].lines));
    }
  }

  /** The last wallet's rows join the table and leave the other wallets' rows as they were. */
  lemma LastWalletJoins(prefix: string, plans: seq<WalletPlan>, key: string)
    requires Proper(plans) && plans != []
    ensures
      var n := |plans| - 1;
      var before, own := AllRows(prefix, plans[..n]), RowsOf(prefix, plans[n].wallet, plans[n].lines);
      && Proper(plans[..n])
      && (key in own ==> key in AllRows(prefix, plans) && AllRows(prefix, plans)[key] == own[key])
      && (key in before ==> key in AllRows(prefix, plans) && AllRows(prefix, plans)[key] == before[key])
  {
    hide Key, RowsOf, NoDash;
    var n := |plans| - 1;
    assert plans[n] in plans && forall p :: p in plans[..n] ==> p in plans;
    WalletsDoNotShareKeys(prefix, plans);
    DisjointKeys(AllRows(prefix, plans[..n]), RowsOf(prefix, plans[n].wallet, plans[n].lines));
  }

  lemma {:induction false} LineIsStored(prefix: string, plans: seq<WalletPlan>, i: nat, k: nat)
    requires Proper(plans) && i < |plans| && k < |plans[i].lines|
    ensures
      var key := Key(prefix, plans[i].wallet, k + 1, plans[i].lines[k].flowId);
      key in AllRows(prefix, plans) && AllRows(prefix, plans)[key] == Stored(plans[i].wallet, plans[i].lines[k].entry)
  {
    var n := |plans| - 1;
    assert plans[n] in plans && ProperLines(plans[n].lines);
    hide Key, RowsOf, AllRows, NoDash, Proper, ProperLines;
    LastWalletJoins(prefix, plans, Key(prefix, plans[i].wallet, k + 1, plans[i].lines[k].flowId));
    if i == n {
      LineStored(prefix, plans[n].wallet, plans[n].lines, k);
    } else {
      LineIsStored(prefix, plans[..n], i, k);
    }
  }

  /** Nothing is overwritten: each plan line sits under its own key, and there are as many rows as
      plan lines. */
  lemma StoredExactly(prefix: string, plans: seq<WalletPlan>, i: nat, k: nat)
    requires Proper(plans) && i < |plans| && k < |plans[i].lines|
    ensures |AllRows(prefix, plans)| == LineTotal(plans)
    ensures
      var key := Key(prefix, plans[i].wallet, k + 1, plans[i].lines[k].flowId);
      key in AllRows(prefix, plans) && AllRows(prefix, plans)[key] == Stored(plans[i].wallet, plans[i].lines[k].entry)
  {
    hide Key, RowsOf, AllRows, LineTotal, NoDash, Proper;
    RowTotal(prefix, plans);
    LineIsStored(prefix, plans, i, k);
  }

  lemma MergeThen<T>(t: map<string, T>, a: map<string, T>, b: map<string, T>)
    ensures t + (a + b) == t + a + b
    ensures t + a + a == t + a
  {
  }

  // ── The loops ──

  method WriteWallet(prefix: string, plan: WalletPlan, table: map<string, Stored>, count: nat)
    returns (table': map<string, Stored>, count': nat)
    ensures table' == table + RowsOf(prefix, plan.wallet, plan.lines) && count' == count + |plan.lines|
  {
    hide Key;
    table', count' := table, count;
    var seqNo := 0;
    for k := 0 to |plan.lines|
      invariant seqNo == k && count' == count + k
      invariant table' == table + RowsOf(prefix, plan.wallet, plan.lines[..k])
    {
      var l := plan.lines[k];
      assert plan.lines[..k + 1][..k] == plan.lines[..k];
      seqNo := seqNo + 1;
      table' := table'[Key(prefix, plan.wallet, seqNo, l.flowId) := Stored(plan.wallet, l.entry)];
      count' := count' + 1;
    }
    assert plan.lines[..|plan.lines|] == plan.lines;
  }

  /** `writeMirror`: upsert every line under its key. The reported count is the number of stored
      rows, and writing a second time is a no-op. */
  method WriteMirror(prefix: string, plans: seq<WalletPlan>, table: map<string, Stored>)
    returns (table': map<string, Stored>, lines: nat)
    requires Proper(plans)
    ensures table' == table + AllRows(prefix, plans)
    ensures lines == |AllRows(prefix, plans)| == LineTotal(plans)
    ensures table' + AllRows(prefix, plans) == table'
  {
    hide Key, RowsOf;
    table', lines := table, 0;
    assert table + AllRows(prefix, []) == table;
    for i := 0 to |plans|
      invariant table' == table + AllRows(prefix, plans[..i]) && lines == LineTotal(plans[..i])
    {
      assert plans[..i + 1][..i] == plans[..i];
      MergeThen(table, AllRows(prefix, plans[..i]), RowsOf(prefix, plans[i].wallet, plans[i].lines));
      table', lines := WriteWallet(prefix, plans[i], table', lines);
    }
    assert plans[..|plans|] == plans;
    RowTotal(prefix, plans);
    MergeThen(table, AllRows(prefix, plans), map[]);
  }
}
