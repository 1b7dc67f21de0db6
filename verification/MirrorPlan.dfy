/** Building the mirrored statement of one wallet: which internal flows the plan projects, which
    flows the balance check counts, and by how much the two can differ. */
module MirrorPlan {
  import opened Prelude
  import opened Ledger
  import opened TbIds
  import opened FlowMatching

  /** An account-flow row of the wallet. */
  datatype FlowRow = FlowRow(entry: Entry, account: TbId, posted: bool, crossing: bool)

  /** The account registry: codes by padded account id. */
  type Registry = map<TbId, nat>

  const CUSTOMER_CODES: set<nat> := {CLIENT_PAYABLE, DEPOSIT_SUSPENSE}
  const FIRM_CODES: set<nat> := {FIRM_OPS, FIRM_SET, FIRM_FEE, FIRM_LIQ}
  const AGGREGATE_CODES: set<nat> := {CLIENT_ASSET, FIRM_ASSET}

  datatype WalletKind = CustomerWallet | FirmWallet | UnknownWallet

  function Owned(isFirm: bool): set<nat> { if isFirm then FIRM_CODES else CUSTOMER_CODES }

  predicate InScope(r: FlowRow, cutoff: int) { r.posted && r.entry.at <= cutoff }

  // ── The plan's lines ──

  predicate Planned(r: FlowRow, regs: Registry, isFirm: bool, cutoff: int) {
    InScope(r, cutoff) && r.crossing && Pad(r.account) in regs && regs[Pad(r.account)] in Owned(isFirm)
  }

  function PlanLines(rows: seq<FlowRow>, regs: Registry, isFirm: bool, cutoff: int): seq<Entry> {
    if rows == [] then []
    else
      var n := |rows| - 1;
      PlanLines(rows[..n], regs, isFirm, cutoff)
      + (if Planned(rows[n], regs, isFirm, cutoff) then [rows[n].entry] else [])
  }

  /** The flows the matcher looks at: the same, over the owned codes of both books. */
  predicate Matched(r: FlowRow, regs: Registry, cutoff: int) {
    InScope(r, cutoff) && r.crossing && Pad(r.account) in regs && regs[Pad(r.account)] in CUSTOMER_CODES + FIRM_CODES
  }

  function MatcherFlows(rows: seq<FlowRow>, regs: Registry, cutoff: int): seq<Entry> {
    if rows == [] then []
    else
      var n := |rows| - 1;
      MatcherFlows(rows[..n], regs, cutoff) + (if Matched(rows[n], regs, cutoff) then [rows[n].entry] else [])
  }

  /** Rows the matcher counts and the plan does not: owned accounts of the other book. */
  predicate ForeignOwned(r: FlowRow, regs: Registry, isFirm: bool, cutoff: int) {
    Matched(r, regs, cutoff) && regs[Pad(r.account)] !in Owned(isFirm)
  }

  /** The mirror projects exactly the flows the matcher will look at, unless a crossing flow of the
      wallet sits on an owned account of the other book. */
  lemma {:induction false} PlanIsMatcherSlice(rows: seq<FlowRow>, regs: Registry, isFirm: bool, cutoff: int)
    ensures |PlanLines(rows, regs, isFirm, cutoff)| <= |MatcherFlows(rows, regs, cutoff)|
    ensures PlanLines(rows, regs, isFirm, cutoff) == MatcherFlows(rows, regs, cutoff)
       <==> forall r :: r in rows ==> !ForeignOwned(r, regs, isFirm, cutoff)
  {
    if rows != [] {
      var n := |rows| - 1;
      PlanIsMatcherSlice(rows[..n], regs, isFirm, cutoff);
      assert rows == rows[..n] + [rows[n]];
      var p, m := PlanLines(rows[..n], regs, isFirm, cutoff), MatcherFlows(rows[..n], regs, cutoff);
      if Planned(rows[n], regs, isFirm, cutoff) {
        assert p + [rows[n].entry] == m + [rows[n].entry] ==> p == m by {
          assert (p + [rows[n].entry])[..|p|] == p;
          assert (m + [rows[n].entry])[..|m|] == m;
        }
      } else {
        assert p + [] == p && m + [] == m && rows[n] in rows;
        assert ForeignOwned(rows[n], regs, isFirm, cutoff) ==> |p| < |MatcherFlows(rows, regs, cutoff)|;
      }
    }
  }

  // ── The balance check ──

  /** A row the checker can place: it looks the account up as written, without padding. */
  predicate Placed(r: FlowRow, regs: Registry, cutoff: int) {
    InScope(r, cutoff) && r.account in regs && regs[r.account] !in AGGREGATE_CODES
  }

  function SeenCodes(rows: seq<FlowRow>, regs: Registry, cutoff: int): set<nat> {
    if rows == [] then {}
    else
      var n := |rows| - 1;
      SeenCodes(rows[..n], regs, cutoff) + (if Placed(rows[n], regs, cutoff) then {regs[rows[n].account]} else {})
  }

  function KindOf(seen: set<nat>): WalletKind {
    if seen * CUSTOMER_CODES != {} then CustomerWallet
    else if seen * FIRM_CODES != {} then FirmWallet else UnknownWallet
  }

  function CodesOf(kind: WalletKind): set<nat> {
    match kind case CustomerWallet => CUSTOMER_CODES case FirmWallet => FIRM_CODES case UnknownWallet => {}
  }

  predicate Counted(r: FlowRow, regs: Registry, codes: set<nat>, cutoff: int) {
    Placed(r, regs, cutoff) && regs[r.account] in codes
  }

  function NetCounted(rows: seq<FlowRow>, regs: Registry, codes: set<nat>, cutoff: int): int {
    if rows == [] then 0
    else
      var n := |rows| - 1;
      NetCounted(rows[..n], regs, codes, cutoff)
          + (if Counted(rows[n], regs, codes, cutoff) then Signed(rows[n].entry) else 0)
  }

  function InternalTotal(rows: seq<FlowRow>, regs: Registry, cutoff: int): int {
    NetCounted(rows, regs, CodesOf(KindOf(SeenCodes(rows, regs, cutoff))), cutoff)
  }

  // ── The gap ──

  /** Net of the rows counted but not mirrored, less the net of the rows mirrored but not counted. */
  function Missed(rows: seq<FlowRow>, regs: Registry, isFirm: bool, codes: set<nat>, cutoff: int): int {
    if rows == [] then 0
    else
      var n := |rows| - 1;
      var r := rows[n];
      Missed(rows[..n], regs, isFirm, codes, cutoff)
      + (if Counted(r, regs, codes, cutoff) && !Planned(r, regs, isFirm, cutoff) then Signed(r.entry) else 0)
      - (if Planned(r, regs, isFirm, cutoff) && !Counted(r, regs, codes, cutoff) then Signed(r.entry) else 0)
  }

  lemma {:induction false} SumAppend(a: seq<Entry>, b: seq<Entry>)
    ensures SignedSum(a + b) == SignedSum(a) + SignedSum(b)
  {
    if a == [] {
      assert a + b == b;
    } else {
      assert (a + b)[1..] == a[1..] + b;
      SumAppend(a[1..], b);
    }
  }

  lemma EmptySum()
    ensures SignedSum([]) == 0
  {
  }

  lemma SumSnoc(s: seq<Entry>, keep: bool, e: Entry)
    ensures SignedSum(s + (if keep then [e] else [])) == SignedSum(s) + (if keep then Signed(e) else 0)
  {
    SumAppend(s, if keep then [e] else []);
    assert [e][1..] == [];
  }

  lemma {:induction false} NetLessLines(rows: seq<FlowRow>, regs: Registry, isFirm: bool, codes: set<nat>, cutoff: int)
    ensures NetCounted(rows, regs, codes, cutoff) - SignedSum(PlanLines(rows, regs, isFirm, cutoff))
         == Missed(rows, regs, isFirm, codes, cutoff)
  {
    if rows != [] {
      var n := |rows| - 1;
      NetLessLines(rows[..n], regs, isFirm, codes, cutoff);
      SumSnoc(PlanLines(rows[..n], regs, isFirm, cutoff), Planned(rows[n], regs, isFirm, cutoff), rows[n].entry);
    }
  }

  /** Main law: closing balance less the mirrored lines is exactly what the two selections disagree
      about. */
  lemma MirrorGap(rows: seq<FlowRow>, regs: Registry, isFirm: bool, cutoff: int)
    ensures InternalTotal(rows, regs, cutoff) - SignedSum(PlanLines(rows, regs, isFirm, cutoff))
         == Missed(rows, regs, isFirm, CodesOf(KindOf(SeenCodes(rows, regs, cutoff))), cutoff)
  {
    NetLessLines(rows, regs, isFirm, CodesOf(KindOf(SeenCodes(rows, regs, cutoff))), cutoff);
  }

  /** Internal book-to-book rows on the wallet's own accounts, which no statement shows. */
  predicate Dropped(r: FlowRow, regs: Registry, isFirm: bool, cutoff: int) {
    InScope(r, cutoff) && !r.crossing && r.account in regs && regs[r.account] in Owned(isFirm)
  }

  function DroppedRows(rows: seq<FlowRow>, regs: Registry, isFirm: bool, cutoff: int): seq<Entry> {
    if rows == [] then []
    else
      var n := |rows| - 1;
      DroppedRows(rows[..n], regs, isFirm, cutoff)
      + (if Dropped(rows[n], regs, isFirm, cutoff) then [rows[n].entry] else [])
  }

  /** Account ids are written padded, and the wallet's rows touch only its own kind of accounts. */
  ghost predicate Regular(rows: seq<FlowRow>, regs: Registry, isFirm: bool, cutoff: int) {
    && (forall r :: r in rows ==> |r.account| >= WIDTH)
    && SeenCodes(rows, regs, cutoff) <= Owned(isFirm)
  }

  lemma {:induction false} SeenIsSeen(rows: seq<FlowRow>, regs: Registry, cutoff: int, r: FlowRow)
    requires r in rows && Placed(r, regs, cutoff)
    ensures regs[r.account] in SeenCodes(rows, regs, cutoff)
  {
    var n := |rows| - 1;
    if rows[n] != r {
      SeenIsSeen(rows[..n], regs, cutoff, r);
    }
  }

  /** The checker's classification agrees with the plan's as far as this row goes. */
  predicate Settled(r: FlowRow, regs: Registry, isFirm: bool, codes: set<nat>, cutoff: int) {
    && |r.account| >= WIDTH && (codes == Owned(isFirm) || codes == {})
    && (Placed(r, regs, cutoff) && regs[r.account] in Owned(isFirm) ==> codes == Owned(isFirm))
  }

  lemma {:induction false} MissedIsDropped(rows: seq<FlowRow>, regs: Registry, isFirm: bool, codes: set<nat>,
      cutoff: int)
    requires forall r :: r in rows ==> Settled(r, regs, isFirm, codes, cutoff)
    ensures Missed(rows, regs, isFirm, codes, cutoff) == SignedSum(DroppedRows(rows, regs, isFirm, cutoff))
  {
    EmptySum();
    hide Counted, Planned, Dropped, Settled, SignedSum;
    if rows != [] {
      var n := |rows| - 1;
      assert rows[n] in rows && forall r :: r in rows[..n] ==> r in rows;
      MissedIsDropped(rows[..n], regs, isFirm, codes, cutoff);
      SumSnoc(DroppedRows(rows[..n], regs, isFirm, cutoff), Dropped(rows[n], regs, isFirm, cutoff), rows[n].entry);
      RowMissed(rows[n], regs, isFirm, codes, cutoff);
    }
  }

  lemma RowMissed(r: FlowRow, regs: Registry, isFirm: bool, codes: set<nat>, cutoff: int)
    requires Settled(r, regs, isFirm, codes, cutoff)
    ensures Dropped(r, regs, isFirm, cutoff) <==> Counted(r, regs, codes, cutoff) && !Planned(r, regs, isFirm, cutoff)
    ensures Planned(r, regs, isFirm, cutoff) ==> Counted(r, regs, codes, cutoff)
  {
    assert Owned(isFirm) * AGGREGATE_CODES == {};
  }

  /** With padded ids and one kind of account per wallet, the gap is the net of the non-crossing
      rows the query drops. */
  lemma GapIsDroppedNet(rows: seq<FlowRow>, regs: Registry, isFirm: bool, cutoff: int)
    requires Regular(rows, regs, isFirm, cutoff)
    ensures InternalTotal(rows, regs, cutoff) - SignedSum(PlanLines(rows, regs, isFirm, cutoff))
         == SignedSum(DroppedRows(rows, regs, isFirm, cutoff))
  {
    var seen := SeenCodes(rows, regs, cutoff);
    KindAgrees(seen, isFirm);
    forall r | r in rows ensures Settled(r, regs, isFirm, CodesOf(KindOf(seen)), cutoff) {
      if Placed(r, regs, cutoff) {
        SeenIsSeen(rows, regs, cutoff, r);
      }
    }
    MirrorGap(rows, regs, isFirm, cutoff);
    MissedIsDropped(rows, regs, isFirm, CodesOf(KindOf(seen)), cutoff);
  }

  lemma KindAgrees(seen: set<nat>, isFirm: bool)
    requires seen <= Owned(isFirm)
    ensures CodesOf(KindOf(seen)) == if seen == {} then {} else Owned(isFirm)
  {
    assert seen * Owned(isFirm) == seen;
    assert CUSTOMER_CODES * FIRM_CODES == {};
    assert isFirm ==> seen * CUSTOMER_CODES <= FIRM_CODES * CUSTOMER_CODES;
  }

  /** Transfers whose two legs both stay inside the wallet: one OUT and one IN of the same amount. */
  predicate SelfPaired(s: seq<Entry>) {
    s == [] || (|s| >= 2 && s[0].direction == OUT && s[1].direction == IN && s[0].amount == s[1].amount
        && SelfPaired(s[2..]))
  }

  lemma {:induction false} SelfPairsCancel(s: seq<Entry>)
    requires SelfPaired(s)
    ensures SignedSum(s) == 0
  {
    if s != [] {
      SelfPairsCancel(s[2..]);
      assert s[1..][1..] == s[2..];
    }
  }

  /** A release from suspense to payable moves between two accounts of one wallet: such drops leave
      no gap. */
  lemma NoGapWhenDropsStayInside(rows: seq<FlowRow>, regs: Registry, isFirm: bool, cutoff: int)
    requires Regular(rows, regs, isFirm, cutoff) && SelfPaired(DroppedRows(rows, regs, isFirm, cutoff))
    ensures InternalTotal(rows, regs, cutoff) == SignedSum(PlanLines(rows, regs, isFirm, cutoff))
  {
    GapIsDroppedNet(rows, regs, isFirm, cutoff);
    SelfPairsCancel(DroppedRows(rows, regs, isFirm, cutoff));
  }

  /** An id written with its leading zero missing: the plan mirrors the row, the check does not
      count it, and the closing balance is short by it. */
  lemma UnpaddedRowOpensGap(r: FlowRow, regs: Registry, isFirm: bool, cutoff: int)
    requires Planned(r, regs, isFirm, cutoff) && r.account !in regs
    ensures InternalTotal([r], regs, cutoff) - SignedSum(PlanLines([r], regs, isFirm, cutoff)) == 0 - Signed(r.entry)
  {
    var codes := CodesOf(KindOf(SeenCodes([r], regs, cutoff)));
    MirrorGap([r], regs, isFirm, cutoff);
    assert [r][..0] == [] && Missed([], regs, isFirm, codes, cutoff) == 0;
    assert !Counted(r, regs, codes, cutoff);
    hide InternalTotal, PlanLines, Planned, SeenCodes;
  }

  // ── The selections in the rows' own terms ──

  /** `picked` are the entries of the rows at these positions, in row order. */
  predicate Selects(rows: seq<FlowRow>, at: seq<nat>, picked: seq<Entry>) {
    && |at| == |picked|
    && (forall k :: 0 <= k < |at| ==> at[k] < |rows| && picked[k] == rows[at[k]].entry)
    && forall j, k :: 0 <= j < k < |at| ==> at[j] < at[k]
  }

  lemma SelectsSnoc(rows: seq<FlowRow>, at: seq<nat>, picked: seq<Entry>)
    requires rows != [] && Selects(rows[..|rows| - 1], at, picked)
    ensures Selects(rows, at, picked) && Selects(rows, at + [|rows| - 1], picked + [rows[|rows| - 1].entry])
  {
  }

  /** A line is mirrored exactly when some row has it that is posted, crosses, is dated at or before
      the cutoff, and sits on a registered account the wallet owns: 100 and 101 for a customer, 200 to
      203 for the firm. */
  predicate IsMirrored(r: FlowRow, regs: Registry, isFirm: bool, cutoff: int) {
    r.posted && r.crossing && r.entry.at <= cutoff && Pad(r.account) in regs
    && regs[Pad(r.account)] in if isFirm then {200, 201, 202, 203} else {100, 101}
  }

  lemma {:induction false} PlanSelects(rows: seq<FlowRow>, regs: Registry, isFirm: bool, cutoff: int)
      returns (at: seq<nat>)
    ensures Selects(rows, at, PlanLines(rows, regs, isFirm, cutoff))
    ensures forall i: nat :: i in at <==> i < |rows| && IsMirrored(rows[i], regs, isFirm, cutoff)
  {
    at := [];
    if rows != [] {
      var n := |rows| - 1;
      at := PlanSelects(rows[..n], regs, isFirm, cutoff);
      SelectsSnoc(rows, at, PlanLines(rows[..n], regs, isFirm, cutoff));
      MirroredSnoc(rows, at, regs, isFirm, cutoff);
      PlanStep(rows, regs, isFirm, cutoff);
      hide Selects, PlanLines, IsMirrored;
      if IsMirrored(rows[n], regs, isFirm, cutoff) {
        at := at + [n];
      }
    }
  }

  lemma PlanStep(rows: seq<FlowRow>, regs: Registry, isFirm: bool, cutoff: int)
    requires rows != []
    ensures
      var n := |rows| - 1;
      var before := PlanLines(rows[..n], regs, isFirm, cutoff);
      PlanLines(rows, regs, isFirm, cutoff)
      == if IsMirrored(rows[n], regs, isFirm, cutoff) then before + [rows[n].entry] else before
  {
  }

  lemma MirroredSnoc(rows: seq<FlowRow>, at: seq<nat>, regs: Registry, isFirm: bool, cutoff: int)
    requires rows != []
    requires forall i: nat :: i in at <==> i < |rows| - 1 && IsMirrored(rows[i], regs, isFirm, cutoff)
    ensures
      var now := if IsMirrored(rows[|rows| - 1], regs, isFirm, cutoff) then at + [|rows| - 1] else at;
      forall i: nat :: i in now <==> i < |rows| && IsMirrored(rows[i], regs, isFirm, cutoff)
  {
    hide IsMirrored;
  }

  /** The matcher's flows: the same, over the accounts of both kinds. */
  predicate IsMatched(r: FlowRow, regs: Registry, cutoff: int) {
    IsMirrored(r, regs, false, cutoff) || IsMirrored(r, regs, true, cutoff)
  }

  lemma {:induction false} MatcherSelects(rows: seq<FlowRow>, regs: Registry, cutoff: int) returns (at: seq<nat>)
    ensures Selects(rows, at, MatcherFlows(rows, regs, cutoff))
    ensures forall i: nat :: i in at <==> i < |rows| && IsMatched(rows[i], regs, cutoff)
  {
    at := [];
    if rows != [] {
      var n := |rows| - 1;
      at := MatcherSelects(rows[..n], regs, cutoff);
      SelectsSnoc(rows, at, MatcherFlows(rows[..n], regs, cutoff));
      MatchedSnoc(rows, at, regs, cutoff);
      MatcherStep(rows, regs, cutoff);
      hide Selects, MatcherFlows, IsMatched;
      if IsMatched(rows[n], regs, cutoff) {
        at := at + [n];
      }
    }
  }

  lemma MatcherStep(rows: seq<FlowRow>, regs: Registry, cutoff: int)
    requires rows != []
    ensures
      var n := |rows| - 1;
      var before := MatcherFlows(rows[..n], regs, cutoff);
      MatcherFlows(rows, regs, cutoff) == if IsMatched(rows[n], regs, cutoff) then before + [rows[n].entry] else before
  {
  }

  lemma MatchedSnoc(rows: seq<FlowRow>, at: seq<nat>, regs: Registry, cutoff: int)
    requires rows != []
    requires forall i: nat :: i in at <==> i < |rows| - 1 && IsMatched(rows[i], regs, cutoff)
    ensures
      var now := if IsMatched(rows[|rows| - 1], regs, cutoff) then at + [|rows| - 1] else at;
      forall i: nat :: i in now <==> i < |rows| && IsMatched(rows[i], regs, cutoff)
  {
    hide IsMatched;
  }

  /** Counted into the closing balance: posted, dated at or before the cutoff, and on an account of
      one of these codes under the id as it is written, crossing or not. */
  predicate IsCounted(r: FlowRow, regs: Registry, codes: set<nat>, cutoff: int) {
    r.posted && r.entry.at <= cutoff && r.account in regs && regs[r.account] in codes
  }

  predicate SomeCounted(rows: seq<FlowRow>, regs: Registry, codes: set<nat>, cutoff: int) {
    exists r :: r in rows && IsCounted(r, regs, codes, cutoff)
  }

  /** The codes that count: the customer's as soon as one row has one of them, then the firm's. */
  function CountedCodes(rows: seq<FlowRow>, regs: Registry, cutoff: int): set<nat> {
    if SomeCounted(rows, regs, {100, 101}, cutoff) then {100, 101}
    else if SomeCounted(rows, regs, {200, 201, 202, 203}, cutoff) then {200, 201, 202, 203} else {}
  }

  lemma {:induction false} SeenMeans(rows: seq<FlowRow>, regs: Registry, codes: set<nat>, cutoff: int)
    requires 1 !in codes && 50 !in codes
    ensures SeenCodes(rows, regs, cutoff) * codes != {} <==> SomeCounted(rows, regs, codes, cutoff)
  {
    if rows != [] {
      var n := |rows| - 1;
      SeenMeans(rows[..n], regs, codes, cutoff);
      SomeCountedSnoc(rows, regs, codes, cutoff);
      PlacedMeans(rows[n], regs, codes, cutoff);
      hide SomeCounted, IsCounted;
      if Placed(rows[n], regs, cutoff) {
        MeetsMore(SeenCodes(rows[..n], regs, cutoff), regs[rows[n].account], codes);
      }
    }
  }

  lemma PlacedMeans(r: FlowRow, regs: Registry, codes: set<nat>, cutoff: int)
    requires 1 !in codes && 50 !in codes
    ensures IsCounted(r, regs, codes, cutoff) <==> Placed(r, regs, cutoff) && regs[r.account] in codes
  {
  }

  lemma SomeCountedSnoc(rows: seq<FlowRow>, regs: Registry, codes: set<nat>, cutoff: int)
    requires rows != []
    ensures SomeCounted(rows, regs, codes, cutoff)
       <==> SomeCounted(rows[..|rows| - 1], regs, codes, cutoff) || IsCounted(rows[|rows| - 1], regs, codes, cutoff)
  {
    hide IsCounted;
    assert rows == rows[..|rows| - 1] + [rows[|rows| - 1]];
  }

  lemma MeetsMore(seen: set<nat>, c: nat, codes: set<nat>)
    ensures (seen + {c}) * codes != {} <==> seen * codes != {} || c in codes
  {
    assert (seen + {c}) * codes == seen * codes + {c} * codes;
    assert c in codes ==> c in {c} * codes;
  }

  lemma CodesDiffer()
    ensures var customer: set<nat>, firm: set<nat> := {100, 101}, {200, 201, 202, 203};
      customer != firm && customer != {} && firm != {}
  {
    assert 100 !in {200, 201, 202, 203};
  }

  lemma KindMeans(rows: seq<FlowRow>, regs: Registry, cutoff: int)
    ensures CodesOf(KindOf(SeenCodes(rows, regs, cutoff))) == CountedCodes(rows, regs, cutoff)
    ensures
      var kind := KindOf(SeenCodes(rows, regs, cutoff));
      && (kind == CustomerWallet <==> CountedCodes(rows, regs, cutoff) == {100, 101})
      && (kind == FirmWallet <==> CountedCodes(rows, regs, cutoff) == {200, 201, 202, 203})
      && (kind == UnknownWallet <==> CountedCodes(rows, regs, cutoff) == {})
  {
    CodesDiffer();
    SeenMeans(rows, regs, {100, 101}, cutoff);
    SeenMeans(rows, regs, {200, 201, 202, 203}, cutoff);
    hide SeenCodes, SomeCounted;
    assert CUSTOMER_CODES == {100, 101} && FIRM_CODES == {200, 201, 202, 203};
  }

  lemma CountedMeans(r: FlowRow, regs: Registry, codes: set<nat>, cutoff: int)
    requires 1 !in codes && 50 !in codes
    ensures Counted(r, regs, codes, cutoff) <==> IsCounted(r, regs, codes, cutoff)
  {
  }

  lemma NetStep(rows: seq<FlowRow>, regs: Registry, codes: set<nat>, cutoff: int)
    requires rows != [] && 1 !in codes && 50 !in codes
    ensures
      var n := |rows| - 1;
      NetCounted(rows, regs, codes, cutoff)
      == NetCounted(rows[..n], regs, codes, cutoff)
         + if IsCounted(rows[n], regs, codes, cutoff) then Signed(rows[n].entry) else 0
  {
    CountedMeans(rows[|rows| - 1], regs, codes, cutoff);
  }

  lemma {:induction false} NetSelects(rows: seq<FlowRow>, regs: Registry, codes: set<nat>, cutoff: int)
      returns (at: seq<nat>, picked: seq<Entry>)
    requires 1 !in codes && 50 !in codes
    ensures Selects(rows, at, picked) && NetCounted(rows, regs, codes, cutoff) == SignedSum(picked)
    ensures forall i: nat :: i in at <==> i < |rows| && IsCounted(rows[i], regs, codes, cutoff)
  {
    at, picked := [], [];
    if rows != [] {
      var n := |rows| - 1;
      at, picked := NetSelects(rows[..n], regs, codes, cutoff);
      SelectsSnoc(rows, at, picked);
      NetStep(rows, regs, codes, cutoff);
      CountedSnoc(rows, at, regs, codes, cutoff);
      SumSnoc(picked, IsCounted(rows[n], regs, codes, cutoff), rows[n].entry);
      hide Selects, SignedSum, NetCounted, IsCounted;
      if IsCounted(rows[n], regs, codes, cutoff) {
        at, picked := at + [n], picked + [rows[n].entry];
      } else {
        assert picked + [] == picked;
      }
    }
  }

  lemma CountedSnoc(rows: seq<FlowRow>, at: seq<nat>, regs: Registry, codes: set<nat>, cutoff: int)
    requires rows != []
    requires forall i: nat :: i in at <==> i < |rows| - 1 && IsCounted(rows[i], regs, codes, cutoff)
    ensures
      var now := if IsCounted(rows[|rows| - 1], regs, codes, cutoff) then at + [|rows| - 1] else at;
      forall i: nat :: i in now <==> i < |rows| && IsCounted(rows[i], regs, codes, cutoff)
  {
    hide IsCounted;
  }

  /** The closing balance: incoming less outgoing amounts of exactly the counted rows. */
  lemma TotalSelects(rows: seq<FlowRow>, regs: Registry, cutoff: int) returns (at: seq<nat>, picked: seq<Entry>)
    ensures Selects(rows, at, picked) && InternalTotal(rows, regs, cutoff) == SignedSum(picked)
    ensures forall i: nat ::
      i in at <==> i < |rows| && IsCounted(rows[i], regs, CountedCodes(rows, regs, cutoff), cutoff)
  {
    KindMeans(rows, regs, cutoff);
    var codes := CountedCodes(rows, regs, cutoff);
    assert 1 !in codes && 50 !in codes;
    hide SeenCodes, CountedCodes, Selects, NetCounted;
    at, picked := NetSelects(rows, regs, codes, cutoff);
  }

  // ── Rows that do not matter ──

  /** The rows that are posted and dated at or before the cutoff. */
  function Current(rows: seq<FlowRow>, cutoff: int): seq<FlowRow> {
    if rows == [] then []
    else
      var n := |rows| - 1;
      Current(rows[..n], cutoff) + (if rows[n].posted && rows[n].entry.at <= cutoff then [rows[n]] else [])
  }

  /** Unposted rows, and rows after the cutoff, change neither the mirrored lines nor the matcher's
      flows nor the closing balance. */
  lemma OthersDoNotMatter(rows: seq<FlowRow>, regs: Registry, isFirm: bool, cutoff: int)
    ensures PlanLines(Current(rows, cutoff), regs, isFirm, cutoff) == PlanLines(rows, regs, isFirm, cutoff)
    ensures MatcherFlows(Current(rows, cutoff), regs, cutoff) == MatcherFlows(rows, regs, cutoff)
    ensures SeenCodes(Current(rows, cutoff), regs, cutoff) == SeenCodes(rows, regs, cutoff)
    ensures InternalTotal(Current(rows, cutoff), regs, cutoff) == InternalTotal(rows, regs, cutoff)
  {
    hide PlanLines, MatcherFlows, SeenCodes, NetCounted, Current;
    LinesSkip(rows, regs, isFirm, cutoff);
    FlowsSkip(rows, regs, cutoff);
    CodesSkip(rows, regs, cutoff);
    NetSkips(rows, regs, CodesOf(KindOf(SeenCodes(rows, regs, cutoff))), cutoff);
  }

  lemma CurrentStep(rows: seq<FlowRow>, cutoff: int)
    requires rows != []
    ensures
      var last, before, now := rows[|rows| - 1], Current(rows[..|rows| - 1], cutoff), Current(rows, cutoff);
      if last.posted && last.entry.at <= cutoff then
        now != [] && now[..|now| - 1] == before && now[|now| - 1] == last
      else now == before
  {
  }

  lemma {:induction false} LinesSkip(rows: seq<FlowRow>, regs: Registry, isFirm: bool, cutoff: int)
    ensures PlanLines(Current(rows, cutoff), regs, isFirm, cutoff) == PlanLines(rows, regs, isFirm, cutoff)
  {
    if rows != [] {
      LinesSkip(rows[..|rows| - 1], regs, isFirm, cutoff);
      CurrentStep(rows, cutoff);
      hide Current;
    }
  }

  lemma {:induction false} FlowsSkip(rows: seq<FlowRow>, regs: Registry, cutoff: int)
    ensures MatcherFlows(Current(rows, cutoff), regs, cutoff) == MatcherFlows(rows, regs, cutoff)
  {
    if rows != [] {
      FlowsSkip(rows[..|rows| - 1], regs, cutoff);
      CurrentStep(rows, cutoff);
      hide Current;
    }
  }

  lemma {:induction false} CodesSkip(rows: seq<FlowRow>, regs: Registry, cutoff: int)
    ensures SeenCodes(Current(rows, cutoff), regs, cutoff) == SeenCodes(rows, regs, cutoff)
  {
    if rows != [] {
      CodesSkip(rows[..|rows| - 1], regs, cutoff);
      CurrentStep(rows, cutoff);
      hide Current;
    }
  }

  lemma UncurrentIsUncounted(r: FlowRow, regs: Registry, codes: set<nat>, cutoff: int)
    ensures !r.posted || cutoff < r.entry.at ==> !Counted(r, regs, codes, cutoff)
  {
  }

  lemma {:induction false} NetSkips(rows: seq<FlowRow>, regs: Registry, codes: set<nat>, cutoff: int)
    ensures NetCounted(Current(rows, cutoff), regs, codes, cutoff) == NetCounted(rows, regs, codes, cutoff)
  {
    if rows != [] {
      NetSkips(rows[..|rows| - 1], regs, codes, cutoff);
      CurrentStep(rows, cutoff);
      UncurrentIsUncounted(rows[|rows| - 1], regs, codes, cutoff);
      hide Current, Counted;
    }
  }

  // ── The loops ──

  /** The per-wallet body of `planWallets`. */
  method PlanWallet(rows: seq<FlowRow>, regs: Registry, isFirm: bool, cutoff: int)
    returns (lines: seq<Entry>, ghost at: seq<nat>)
    ensures lines == PlanLines(rows, regs, isFirm, cutoff)
    ensures Selects(rows, at, lines)
    ensures forall i: nat ::
      i in at <==>
      && i < |rows| && rows[i].posted && rows[i].crossing && rows[i].entry.at <= cutoff
      && Pad(rows[i].account) in regs
      && regs[Pad(rows[i].account)] in if isFirm then {200, 201, 202, 203} else {100, 101}
    ensures lines == PlanLines(Current(rows, cutoff), regs, isFirm, cutoff)
  {
    OthersDoNotMatter(rows, regs, isFirm, cutoff);
    at := PlanSelects(rows, regs, isFirm, cutoff);
    hide Selects, Current;
    lines := [];
    for i := 0 to |rows|
      invariant lines == PlanLines(rows[..i], regs, isFirm, cutoff)
    {
      var r := rows[i];
      assert rows[..i + 1][..i] == rows[..i];
      if r.posted && r.crossing && r.entry.at <= cutoff {
        var id := Pad(r.account);
        if id in regs && regs[id] in Owned(isFirm) {
          lines := lines + [r.entry];
        }
      }
    }
    assert rows[..|rows|] == rows;
  }

  /** Balances of the accounts in the order they were first met. */
  function SumBalances(order: seq<TbId>, bal: map<TbId, int>, regs: Registry, codes: set<nat>): int
    requires forall a :: a in order ==> a in bal && a in regs
  {
    if order == [] then 0
    else
      var a := order[|order| - 1];
      SumBalances(order[..|order| - 1], bal, regs, codes) + (if regs[a] in codes then bal[a] else 0)
  }

  predicate NoDup(order: seq<TbId>) { forall i, j :: 0 <= i < j < |order| ==> order[i] != order[j] }

  ghost predicate Accumulated(order: seq<TbId>, bal: map<TbId, int>, regs: Registry) {
    NoDup(order) && (forall a :: a in order <==> a in bal) && (forall a :: a in order ==> a in regs)
  }

  lemma {:induction false} SumSame(order: seq<TbId>, bal: map<TbId, int>, bal': map<TbId, int>, regs: Registry,
      codes: set<nat>)
    requires forall a :: a in order ==> a in bal && a in bal' && a in regs && bal[a] == bal'[a]
    ensures SumBalances(order, bal, regs, codes) == SumBalances(order, bal', regs, codes)
  {
    if order != [] {
      assert order[|order| - 1] in order;
      SumSame(order[..|order| - 1], bal, bal', regs, codes);
    }
  }

  lemma {:induction false} SumAdded(order: seq<TbId>, bal: map<TbId, int>, a: TbId, x: int, regs: Registry,
      codes: set<nat>)
    requires NoDup(order) && a in order && forall b :: b in order ==> b in bal && b in regs
    ensures SumBalances(order, bal[a := bal[a] + x], regs, codes)
         == SumBalances(order, bal, regs, codes) + (if regs[a] in codes then x else 0)
  {
    var n := |order| - 1;
    assert order[n] in order;
    if order[n] == a {
      forall b | b in order[..n] ensures b != a { }
      SumSame(order[..n], bal, bal[a := bal[a] + x], regs, codes);
    } else {
      assert a in order[..n];
      SumAdded(order[..n], bal, a, x, regs, codes);
    }
  }

  /** Adding one row's amount to its account's balance. */
  method AddRow(order: seq<TbId>, bal: map<TbId, int>, a: TbId, x: int, regs: Registry)
    returns (order': seq<TbId>, bal': map<TbId, int>)
    requires Accumulated(order, bal, regs) && a in regs
    ensures Accumulated(order', bal', regs)
    ensures SumBalances(order', bal', regs, CUSTOMER_CODES)
         == SumBalances(order, bal, regs, CUSTOMER_CODES) + (if regs[a] in CUSTOMER_CODES then x else 0)
    ensures SumBalances(order', bal', regs, FIRM_CODES)
         == SumBalances(order, bal, regs, FIRM_CODES) + (if regs[a] in FIRM_CODES then x else 0)
  {
    if a in bal {
      order', bal' := order, bal[a := bal[a] + x];
      SumAdded(order, bal, a, x, regs, CUSTOMER_CODES);
      SumAdded(order, bal, a, x, regs, FIRM_CODES);
    } else {
      order', bal' := order + [a], bal[a := x];
      assert order'[..|order|] == order;
      SumSame(order, bal, bal', regs, CUSTOMER_CODES);
      SumSame(order, bal, bal', regs, FIRM_CODES);
    }
  }

  /** The balances of the accounts with one of these codes. */
  method SumAccounts(order: seq<TbId>, bal: map<TbId, int>, regs: Registry, codes: set<nat>) returns (total: int)
    requires forall a :: a in order ==> a in bal && a in regs
    ensures total == SumBalances(order, bal, regs, codes)
  {
    total := 0;
    for k := 0 to |order|
      invariant total == SumBalances(order[..k], bal, regs, codes)
    {
      assert order[..k + 1][..k] == order[..k];
      if regs[order[k]] in codes {
        total := total + bal[order[k]];
      }
    }
    assert order[..|order|] == order;
  }

  /** `checkBalance`: accumulate per account, classify, then sum the accounts of that class. */
  method CheckBalance(rows: seq<FlowRow>, regs: Registry, cutoff: int)
    returns (kind: WalletKind, total: int, ghost at: seq<nat>, ghost counted: seq<Entry>)
    ensures kind == KindOf(SeenCodes(rows, regs, cutoff)) && total == InternalTotal(rows, regs, cutoff)
    ensures Selects(rows, at, counted) && total == SignedSum(counted)
    ensures forall i: nat ::
      i in at <==>
      && i < |rows| && rows[i].posted && rows[i].entry.at <= cutoff && rows[i].account in regs
      && regs[rows[i].account] in CountedCodes(rows, regs, cutoff)
    ensures kind == CustomerWallet <==> CountedCodes(rows, regs, cutoff) == {100, 101}
    ensures kind == FirmWallet <==> CountedCodes(rows, regs, cutoff) == {200, 201, 202, 203}
    ensures total == InternalTotal(Current(rows, cutoff), regs, cutoff)
  {
    hide Selects, Current, CountedCodes, SignedSum;
    var order, bal, seen := [], map[], {};
    for i := 0 to |rows|
      invariant Accumulated(order, bal, regs) && seen == SeenCodes(rows[..i], regs, cutoff)
      invariant SumBalances(order, bal, regs, CUSTOMER_CODES) == NetCounted(rows[..i], regs, CUSTOMER_CODES, cutoff)
      invariant SumBalances(order, bal, regs, FIRM_CODES) == NetCounted(rows[..i], regs, FIRM_CODES, cutoff)
    {
      var r := rows[i];
      assert rows[..i + 1][..i] == rows[..i];
      if r.posted && r.entry.at <= cutoff {
        if r.account !in regs || regs[r.account] in AGGREGATE_CODES {
          continue;
        }
        seen := seen + {regs[r.account]};
        order, bal := AddRow(order, bal, r.account, Signed(r.entry), regs);
      }
    }
    assert rows[..|rows|] == rows;
    kind := KindOf(seen);
    total := SumAccounts(order, bal, regs, CodesOf(kind));
    if kind.UnknownWallet? {
      NoneCounted(rows, regs, cutoff);
      NoBalances(order, bal, regs);
    }
    KindMeans(rows, regs, cutoff);
    OthersDoNotMatter(rows, regs, false, cutoff);
    at, counted := TotalSelects(rows, regs, cutoff);
    CodesDiffer();
  }

  lemma {:induction false} NoneCounted(rows: seq<FlowRow>, regs: Registry, cutoff: int)
    ensures NetCounted(rows, regs, {}, cutoff) == 0
  {
    if rows != [] {
      NoneCounted(rows[..|rows| - 1], regs, cutoff);
    }
  }

  lemma {:induction false} NoBalances(order: seq<TbId>, bal: map<TbId, int>, regs: Registry)
    requires forall a :: a in order ==> a in bal && a in regs
    ensures SumBalances(order, bal, regs, {}) == 0
  {
    if order != [] {
      NoBalances(order[..|order| - 1], bal, regs);
    }
  }
}
