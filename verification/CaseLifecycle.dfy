/** Reconciliation cases over repeated engine runs: a run opens or refreshes one case per breaking
    wallet and closes the open cases of its business date whose wallet it did not find breaking.
    The case table turns out to be the list of unbroken streaks of breaks, per wallet and date. */
module CaseLifecycle {
  import opened Prelude
  import opened FlowMatching
  import opened ReconDetection

  // ── Findings ──

  datatype Severity = High | Medium | Low

  const SEVERITY_HIGH_THRESHOLD: nat := 10_000
  const SEVERITY_MED_THRESHOLD: nat := 100

  function ComputeSeverity(delta: int): Severity {
    var mag := if delta < 0 then -delta else delta;
    if mag >= SEVERITY_HIGH_THRESHOLD then High else if mag >= SEVERITY_MED_THRESHOLD then Medium else Low
  }

  datatype Break = OrphanFlow(flow: Entry) | OrphanLine(line: Entry) | Mismatch(pair: Pair)

  function FlowBreaks(s: seq<Entry>): seq<Break> {
    if s == [] then [] else FlowBreaks(s[..|s| - 1]) + [OrphanFlow(s[|s| - 1])]
  }

  function LineBreaks(s: seq<Entry>): seq<Break> {
    if s == [] then [] else LineBreaks(s[..|s| - 1]) + [OrphanLine(s[|s| - 1])]
  }

  function PairBreaks(s: seq<Pair>): seq<Break> {
    if s == [] then [] else PairBreaks(s[..|s| - 1]) + [Mismatch(s[|s| - 1])]
  }

  function Breaks(r: Report): seq<Break> {
    FlowBreaks(r.orphanFlows) + LineBreaks(r.orphanLines) + PairBreaks(r.mismatch)
  }

  /** What one run found at one wallet; None when the wallet was skipped because its currency has
      no asset. */
  datatype Finding = Finding(wallet: nat, run: Option<WalletRun>)

  predicate Breaking(f: Finding) { f.run.Some? && OpensCase(f.run.value) }

  predicate DistinctWallets(fs: seq<Finding>) {
    forall i, j :: 0 <= i < j < |fs| ==> fs[i].wallet != fs[j].wallet
  }

  // ── The case table ──

  datatype LineItem = LineItem(lineNo: nat, what: Break)

  datatype Case = Case(
    seqNo: nat, wallet: nat, date: nat, delta: int, severity: Severity, items: seq<LineItem>,
    openedBy: nat, firstSeen: nat, lastObserved: nat, lastUpdated: nat, closedBy: Option<nat>)
  {
    /** Status OPEN; otherwise RESOLVED with reason AUTO_HEALED. */
    predicate IsOpen() { closedBy.None? }
  }

  function Numbered(breaks: seq<Break>): (items: seq<LineItem>)
    ensures |items| == |breaks|
  {
    if breaks == [] then []
    else Numbered(breaks[..|breaks| - 1]) + [LineItem(|breaks|, breaks[|breaks| - 1])]
  }

  function Snapshot(c: Case, run: WalletRun): Case {
    c.(delta := run.delta, severity := ComputeSeverity(run.delta), items := Numbered(Breaks(run.report)))
  }

  predicate OpenFor(c: Case, wallet: nat, date: nat) { c.IsOpen() && c.wallet == wallet && c.date == date }

  predicate HasOpen(cases: seq<Case>, wallet: nat, date: nat) {
    cases != [] && (OpenFor(cases[0], wallet, date) || HasOpen(cases[1..], wallet, date))
  }

  function Refresh(c: Case, id: nat, run: WalletRun): Case {
    Snapshot(c, run).(lastObserved := id, lastUpdated := id)
  }

  /** Rewrites the first open case of the wallet and date. */
  function Refreshed(cases: seq<Case>, id: nat, date: nat, wallet: nat, run: WalletRun): seq<Case> {
    if cases == [] then []
    else if OpenFor(cases[0], wallet, date) then [Refresh(cases[0], id, run)] + cases[1..]
    else [cases[0]] + Refreshed(cases[1..], id, date, wallet, run)
  }

  function CountOn(cases: seq<Case>, date: nat): nat {
    if cases == [] then 0 else (if cases[0].date == date then 1 else 0) + CountOn(cases[1..], date)
  }

  function NewCase(cases: seq<Case>, id: nat, date: nat, wallet: nat, run: WalletRun): Case {
    Case(CountOn(cases, date) + 1, wallet, date, run.delta, ComputeSeverity(run.delta),
         Numbered(Breaks(run.report)), id, id, id, id, None)
  }

  function Upsert(cases: seq<Case>, id: nat, date: nat, wallet: nat, run: WalletRun): seq<Case> {
    if HasOpen(cases, wallet, date) then Refreshed(cases, id, date, wallet, run)
    else cases + [NewCase(cases, id, date, wallet, run)]
  }

  function UpsertAll(cases: seq<Case>, id: nat, date: nat, fs: seq<Finding>): seq<Case> {
    if fs == [] then cases
    else
      var prior, f := UpsertAll(cases, id, date, fs[..|fs| - 1]), fs[|fs| - 1];
      if Breaking(f) then Upsert(prior, id, date, f.wallet, f.run.value) else prior
  }

  predicate Stale(c: Case, date: nat, breaking: set<nat>) { c.IsOpen() && c.date == date && c.wallet !in breaking }

  function Close(c: Case, id: nat): Case { c.(lastUpdated := id, closedBy := Some(id)) }

  function Healed(cases: seq<Case>, id: nat, date: nat, breaking: set<nat>): seq<Case> {
    if cases == [] then []
    else
      [if Stale(cases[0], date, breaking) then Close(cases[0], id) else cases[0]]
      + Healed(cases[1..], id, date, breaking)
  }

  function BreakingWallets(fs: seq<Finding>): set<nat> {
    if fs == [] then {}
    else BreakingWallets(fs[..|fs| - 1]) + (if Breaking(fs[|fs| - 1]) then {fs[|fs| - 1].wallet} else {})
  }

  datatype RunInput = RunInput(date: nat, identityOk: bool, findings: seq<Finding>)

  /** One engine run. When the internal identity is broken it looks at no wallet and no case. */
  function AfterRun(cases: seq<Case>, id: nat, input: RunInput): seq<Case> {
    if !input.identityOk then cases
    else Healed(UpsertAll(cases, id, input.date, input.findings), id, input.date, BreakingWallets(input.findings))
  }

  /** Runs are numbered in the order they were started. */
  function AfterRuns(history: seq<RunInput>): seq<Case> {
    if history == [] then []
    else AfterRun(AfterRuns(history[..|history| - 1]), |history| - 1, history[|history| - 1])
  }
}
