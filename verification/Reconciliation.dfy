/** The independent three-way report over a window of usage (internal/control/billing_reconcile.go). */
module Reconciliation {
  import opened Outcomes
  import opened BillingModel
  import opened BillingRuns

  datatype Discrepancy =
    | AmountOnUnsettledRow(tenant: string, eventId: string, amount: int)
    | BilledWithoutAmount(tenant: string, eventId: string)
    | BilledWithoutRun(tenant: string, eventId: string, amount: int)
    | RunDebitMismatch(tenant: string, run: string, expected: int, actual: int)
    | WalletBalanceDrift(tenant: string, expected: int, actual: int)
    | MissingWallet(tenant: string, run: string, expected: int)

  datatype UnsettledRow = UnsettledRow(tenant: string, eventId: string, state: BillingState)

  /** A run's whole footprint for a tenant, inside the window or not. */
  datatype RunLine = RunLine(rows: nat, amount: int, debit: int)

  /** `runs` names, for each tenant and run, the window's events that run settled; `states` counts a tenant's window rows. */
  datatype Report = Report(unsettled: seq<UnsettledRow>, states: map<(string, BillingState), nat>, billed: map<string, int>,
                           runs: map<(string, string), seq<string>>, lines: map<(string, string), RunLine>,
                           totalBilled: int, totalDebited: int, discrepancies: seq<Discrepancy>)

  // ------------------------------------------------------------------ what the report should say

  predicate InWindow(row: Row, start: int, end: int) { start <= row.usage.occurredAt < end }

  function RunText(row: Row): string { if row.run.Some? then row.run.value else "" }

  /** What is wrong with one row on its own. */
  function RowFinding(row: Row): Option<Discrepancy> {
    var t, e := row.usage.tenant, row.usage.eventId;
    if row.state != Billed then
      if row.amount.Some? then Some(AmountOnUnsettledRow(t, e, row.amount.value)) else None
    else if row.amount.None? then Some(BilledWithoutAmount(t, e))
    else if RunText(row) == "" then Some(BilledWithoutRun(t, e, row.amount.value))
    else None
  }

  function OptSeq<T>(o: Option<T>): seq<T> { if o.Some? then [o.value] else [] }

  function RowFindings(ledger: seq<Row>, start: int, end: int): seq<Discrepancy> {
    if ledger == [] then []
    else
      var last := ledger[|ledger| - 1];
      RowFindings(ledger[..|ledger| - 1], start, end) + (if InWindow(last, start, end) then OptSeq(RowFinding(last)) else [])
  }

  function UnsettledRows(ledger: seq<Row>, start: int, end: int): seq<UnsettledRow> {
    if ledger == [] then []
    else
      var last := ledger[|ledger| - 1];
      UnsettledRows(ledger[..|ledger| - 1], start, end)
      + (if InWindow(last, start, end) && last.state != Billed
         then [UnsettledRow(last.usage.tenant, last.usage.eventId, last.state)] else [])
  }

  predicate WindowTenant(ledger: seq<Row>, start: int, end: int, tenant: string) {
    exists i :: 0 <= i < |ledger| && InWindow(ledger[i], start, end) && ledger[i].usage.tenant == tenant
  }

  function WindowBilled(ledger: seq<Row>, start: int, end: int, tenant: string): int {
    if ledger == [] then 0
    else
      var last := ledger[|ledger| - 1];
      WindowBilled(ledger[..|ledger| - 1], start, end, tenant)
      + (if InWindow(last, start, end) && last.usage.tenant == tenant then RowAmount(last) else 0)
  }

  predicate SettlesIn(row: Row, start: int, end: int, tenant: string, run: string) {
    InWindow(row, start, end) && row.usage.tenant == tenant && row.state == Billed && row.amount.Some? && RunText(row) == run && run != ""
  }

  /** The window's events one run settled for a tenant, in ledger order. */
  function WindowEvents(ledger: seq<Row>, start: int, end: int, tenant: string, run: string): seq<string> {
    if ledger == [] then []
    else
      var last := ledger[|ledger| - 1];
      WindowEvents(ledger[..|ledger| - 1], start, end, tenant, run)
      + (if SettlesIn(last, start, end, tenant, run) then [last.usage.eventId] else [])
  }

  /** How many window rows of a tenant are in a state. */
  function StateCount(ledger: seq<Row>, start: int, end: int, tenant: string, state: BillingState): nat {
    if ledger == [] then 0
    else
      var last := ledger[|ledger| - 1];
      StateCount(ledger[..|ledger| - 1], start, end, tenant, state)
      + (if InWindow(last, start, end) && last.usage.tenant == tenant && last.state == state then 1 else 0)
  }

  /** How many rows one run billed for a tenant. */
  function RunRows(ledger: seq<Row>, tenant: string, run: string): nat {
    if ledger == [] then 0
    else
      var last := ledger[|ledger| - 1];
      RunRows(ledger[..|ledger| - 1], tenant, run)
      + (if last.usage.tenant == tenant && last.state == Billed && last.run == Some(run) then 1 else 0)
  }

  function LineOf(db: DB, tenant: string, run: string): RunLine {
    RunLine(RunRows(db.ledger, tenant, run), BilledSum(db.ledger, tenant, Some(run)), DebitSum(db.journal, tenant, Some(run)))
  }

  /** Everything billed in the window, whoever it was billed to. */
  function WindowTotal(ledger: seq<Row>, start: int, end: int): int {
    if ledger == [] then 0
    else
      var last := ledger[|ledger| - 1];
      WindowTotal(ledger[..|ledger| - 1], start, end) + (if InWindow(last, start, end) then RowAmount(last) else 0)
  }

  /** Everything debited by these runs. */
  function DebitsOf(journal: seq<Transaction>, keys: set<(string, string)>): int {
    if journal == [] then 0
    else
      var m := journal[|journal| - 1].movement;
      DebitsOf(journal[..|journal| - 1], keys) + (if m.kind == Debit && m.run.Some? && (m.tenant, m.run.value) in keys then -m.amount else 0)
  }

  /** The discrepancies that only the accounts can show. */
  ghost predicate AccountFinding(db: DB, start: int, end: int, d: Discrepancy) {
    match d
    case WalletBalanceDrift(t, expected, actual) =>
      && WindowTenant(db.ledger, start, end, t) && t in db.wallets
      && actual == db.wallets[t] && expected == JournalSum(db.journal, t) && actual != expected
    case RunDebitMismatch(t, run, expected, actual) =>
      && WindowEvents(db.ledger, start, end, t, run) != [] && t in db.wallets
      && expected == BilledSum(db.ledger, t, Some(run)) && actual == DebitSum(db.journal, t, Some(run)) && actual != expected
    case MissingWallet(t, run, expected) =>
      && WindowEvents(db.ledger, start, end, t, run) != [] && t !in db.wallets
      && expected == BilledSum(db.ledger, t, Some(run)) && expected != DebitSum(db.journal, t, Some(run))
    case _ => false
  }

  /** All three records agree over the window and nothing is unexplained. */
  ghost predicate BooksAgree(db: DB, start: int, end: int) {
    && (forall i :: 0 <= i < |db.ledger| && InWindow(db.ledger[i], start, end) ==> RowFinding(db.ledger[i]).None?)
    && (forall t :: WindowTenant(db.ledger, start, end, t) && t in db.wallets ==> db.wallets[t] == JournalSum(db.journal, t))
    && (forall t, run :: WindowEvents(db.ledger, start, end, t, run) != [] ==>
          BilledSum(db.ledger, t, Some(run)) == DebitSum(db.journal, t, Some(run)))
  }

  // ------------------------------------------------------------------ the report as it is built

  /** What the first pass has collected after the rows of `ledger`. */
  ghost predicate Collected(ledger: seq<Row>, start: int, end: int, r: Report) {
    && ListsCollected(ledger, start, end, r) && StatesCollected(ledger, start, end, r)
    && TotalsCollected(ledger, start, end, r) && RunsCollected(ledger, start, end, r)
  }

  ghost predicate ListsCollected(ledger: seq<Row>, start: int, end: int, r: Report) {
    r.unsettled == UnsettledRows(ledger, start, end) && r.discrepancies == RowFindings(ledger, start, end)
  }

  ghost predicate TotalsCollected(ledger: seq<Row>, start: int, end: int, r: Report) {
    && (forall t :: t in r.billed <==> WindowTenant(ledger, start, end, t))
    && (forall t :: t in r.billed ==> r.billed[t] == WindowBilled(ledger, start, end, t))
  }

  function Counted(states: map<(string, BillingState), nat>, tenant: string, state: BillingState): nat {
    if (tenant, state) in states then states[(tenant, state)] else 0
  }

  ghost predicate StatesCollected(ledger: seq<Row>, start: int, end: int, r: Report) {
    forall t, state :: Counted(r.states, t, state) == StateCount(ledger, start, end, t, state)
  }

  ghost predicate RunsCollected(ledger: seq<Row>, start: int, end: int, r: Report) {
    && (forall t, run :: (t, run) in r.runs <==> WindowEvents(ledger, start, end, t, run) != [])
    && (forall t, run :: (t, run) in r.runs ==> r.runs[(t, run)] == WindowEvents(ledger, start, end, t, run))
    && (forall t, run :: (t, run) in r.runs ==> t in r.billed)
  }

  /** The first pass over one more row. */
  method CollectRow(row: Row, start: int, end: int, ghost done: seq<Row>, r: Report) returns (next: Report)
    requires Collected(done, start, end, r) && InWindow(row, start, end)
    ensures Collected(done + [row], start, end, next)
  {
    hide ListsCollected, StatesCollected, TotalsCollected, RunsCollected;
    var tenant, event := row.usage.tenant, row.usage.eventId;
    next := r.(states := r.states[(tenant, row.state) := Counted(r.states, tenant, row.state) + 1]);
    if tenant !in next.billed {
      next := next.(billed := next.billed[tenant := 0]);
    }
    if row.state != Billed {
      next := next.(unsettled := next.unsettled + [UnsettledRow(tenant, event, row.state)]);
      if row.amount.Some? {
        next := next.(discrepancies := next.discrepancies + [AmountOnUnsettledRow(tenant, event, row.amount.value)]);
      }
    } else if row.amount.None? {
      next := next.(discrepancies := next.discrepancies + [BilledWithoutAmount(tenant, event)]);
    } else {
      next := next.(billed := next.billed[tenant := next.billed[tenant] + row.amount.value]);
      var run := RunText(row);
      if run == "" {
        next := next.(discrepancies := next.discrepancies + [BilledWithoutRun(tenant, event, row.amount.value)]);
      } else {
        var events := if (tenant, run) in next.runs then next.runs[(tenant, run)] else [];
        next := next.(runs := next.runs[(tenant, run) := events + [event]]);
      }
    }
    assert row.state == Billed ==> r.unsettled + [] == r.unsettled;
    assert RowFinding(row).None? ==> r.discrepancies + [] == r.discrepancies;
    ListsPush(row, start, end, done, r, next);
    StatesPush(row, start, end, done, r, next);
    TotalsPush(row, start, end, done, r, next);
    RunsPush(row, start, end, done, r, next);
  }

  lemma ListsPush(row: Row, start: int, end: int, done: seq<Row>, r: Report, next: Report)
    requires ListsCollected(done, start, end, r) && InWindow(row, start, end)
    requires next.unsettled == r.unsettled
               + if row.state != Billed then [UnsettledRow(row.usage.tenant, row.usage.eventId, row.state)] else []
    requires next.discrepancies == r.discrepancies + OptSeq(RowFinding(row))
    ensures ListsCollected(done + [row], start, end, next)
  {
    PassOneRow(row, start, end, done);
    hide UnsettledRows, RowFindings, RowFinding, WindowBilled, WindowEvents, WindowTenant;
  }

  lemma StatesPush(row: Row, start: int, end: int, done: seq<Row>, r: Report, next: Report)
    requires StatesCollected(done, start, end, r) && InWindow(row, start, end)
    requires var t := row.usage.tenant; next.states == r.states[(t, row.state) := Counted(r.states, t, row.state) + 1]
    ensures StatesCollected(done + [row], start, end, next)
  {
    assert (done + [row])[..|done|] == done;
  }

  lemma TotalsPush(row: Row, start: int, end: int, done: seq<Row>, r: Report, next: Report)
    requires TotalsCollected(done, start, end, r) && InWindow(row, start, end)
    requires var t := row.usage.tenant;
             next.billed == r.billed[t := (if t in r.billed then r.billed[t] else 0) + RowAmount(row)]
    ensures TotalsCollected(done + [row], start, end, next)
  {
    PassOneRow(row, start, end, done);
    hide UnsettledRows, RowFindings, RowFinding, WindowBilled, WindowEvents, WindowTenant, RowAmount;
  }

  lemma RunsPush(row: Row, start: int, end: int, done: seq<Row>, r: Report, next: Report)
    requires RunsCollected(done, start, end, r) && InWindow(row, start, end)
    requires r.billed.Keys + {row.usage.tenant} == next.billed.Keys
    requires var k := (row.usage.tenant, RunText(row));
             if SettlesIn(row, start, end, k.0, k.1) then
               k in next.runs && next.runs == r.runs[k := next.runs[k]]
               && next.runs[k] == (if k in r.runs then r.runs[k] else []) + [row.usage.eventId]
             else next.runs == r.runs
    ensures RunsCollected(done + [row], start, end, next)
  {
    PassOneRow(row, start, end, done);
    hide UnsettledRows, RowFindings, RowFinding, WindowBilled, WindowEvents, WindowTenant;
  }

  lemma PassOneRow(row: Row, start: int, end: int, done: seq<Row>)
    ensures var all := done + [row];
            && UnsettledRows(all, start, end) == UnsettledRows(done, start, end)
               + (if InWindow(row, start, end) && row.state != Billed then [UnsettledRow(row.usage.tenant, row.usage.eventId, row.state)] else [])
            && RowFindings(all, start, end) == RowFindings(done, start, end)
               + (if InWindow(row, start, end) then OptSeq(RowFinding(row)) else [])
            && (forall t :: WindowTenant(all, start, end, t) <==>
                  WindowTenant(done, start, end, t) || (InWindow(row, start, end) && row.usage.tenant == t))
            && (forall t :: WindowBilled(all, start, end, t) == WindowBilled(done, start, end, t)
                  + (if InWindow(row, start, end) && row.usage.tenant == t then RowAmount(row) else 0))
            && (forall t, run :: WindowEvents(all, start, end, t, run) == WindowEvents(done, start, end, t, run)
                  + (if SettlesIn(row, start, end, t, run) then [row.usage.eventId] else []))
            && (!InWindow(row, start, end) ==>
                  forall t, state :: StateCount(all, start, end, t, state) == StateCount(done, start, end, t, state))
    ensures forall t :: !WindowTenant(done, start, end, t) ==> WindowBilled(done, start, end, t) == 0
  {
    var all := done + [row];
    assert all[..|all| - 1] == done;
    forall t ensures WindowTenant(all, start, end, t) <==>
                     WindowTenant(done, start, end, t) || (InWindow(row, start, end) && row.usage.tenant == t)
    {
      if WindowTenant(done, start, end, t) {
        var i :| 0 <= i < |done| && InWindow(done[i], start, end) && done[i].usage.tenant == t;
        assert all[i] == done[i];
      }
      assert all[|done|] == row;
    }
    forall t | !WindowTenant(done, start, end, t) ensures WindowBilled(done, start, end, t) == 0 {
      NothingBilled(done, start, end, t);
    }
  }

  lemma {:induction false} NothingBilled(ledger: seq<Row>, start: int, end: int, tenant: string)
    requires !WindowTenant(ledger, start, end, tenant)
    ensures WindowBilled(ledger, start, end, tenant) == 0
  {
    if ledger != [] {
      var init, last := ledger[..|ledger| - 1], ledger[|ledger| - 1];
      assert ledger[|ledger| - 1] == last;
      forall i | 0 <= i < |init| ensures !(InWindow(init[i], start, end) && init[i].usage.tenant == tenant) {
        assert init[i] == ledger[i];
      }
      NothingBilled(init, start, end, tenant);
    }
  }

  /** Produce the report for [start, end). It never writes. */
  method Run(db: DB, start: int, end: int) returns (r: Result<Report, BillingError>)
    ensures r.Err? <==> end <= start
    ensures r.Ok? ==>
              && r.value.unsettled == UnsettledRows(db.ledger, start, end)
              && (forall t, state :: Counted(r.value.states, t, state) == StateCount(db.ledger, start, end, t, state))
              && (forall t :: t in r.value.billed <==> WindowTenant(db.ledger, start, end, t))
              && (forall t :: t in r.value.billed ==> r.value.billed[t] == WindowBilled(db.ledger, start, end, t))
              && (forall t, run :: (t, run) in r.value.runs <==> WindowEvents(db.ledger, start, end, t, run) != [])
              && (forall t, run :: (t, run) in r.value.runs ==> r.value.runs[(t, run)] == WindowEvents(db.ledger, start, end, t, run))
              && r.value.lines.Keys == r.value.runs.Keys
              && (forall t, run :: (t, run) in r.value.lines ==> r.value.lines[(t, run)] == LineOf(db, t, run))
              && r.value.totalBilled == WindowTotal(db.ledger, start, end)
              && r.value.totalDebited == DebitsOf(db.journal, r.value.runs.Keys)
              && (forall d :: d in r.value.discrepancies <==>
                    d in RowFindings(db.ledger, start, end) || AccountFinding(db, start, end, d))
    ensures r.Ok? ==> (r.value.discrepancies == [] <==> BooksAgree(db, start, end))
  {
    if end <= start { return Err(WindowEmpty); }
    var report := Collect(db.ledger, start, end);
    var found := CheckWallets(db, report.billed.Keys);
    var mismatched, lines, debited := CheckRuns(db, report.runs.Keys);
    var billed := SumBilled(db.ledger, start, end, report.billed);
    ghost var rows := report.discrepancies;
    report := report.(discrepancies := report.discrepancies + found + mismatched,
                      lines := lines, totalBilled := billed, totalDebited := debited);
    forall d ensures d in report.discrepancies <==> d in rows || AccountFinding(db, start, end, d) {
      assert d in report.discrepancies <==> d in rows || d in found || d in mismatched;
    }
    BalancedExactly(db, start, end, report.discrepancies);
    return Ok(report);
  }

  /** The first pass. */
  method Collect(ledger: seq<Row>, start: int, end: int) returns (report: Report)
    ensures Collected(ledger, start, end, report)
  {
    report := Report([], map[], map[], map[], map[], 0, 0, []);
    assert ledger[..0] == [];
    for i := 0 to |ledger|
      invariant Collected(ledger[..i], start, end, report)
    {
      assert ledger[..i + 1] == ledger[..i] + [ledger[i]];
      if InWindow(ledger[i], start, end) {
        report := CollectRow(ledger[i], start, end, ledger[..i], report);
      } else {
        PassOneRow(ledger[i], start, end, ledger[..i]);
      }
    }
    assert ledger[..|ledger|] == ledger;
  }

  /** What the window billed these tenants. */
  function BilledTo(ledger: seq<Row>, start: int, end: int, tenants: set<string>): int {
    if ledger == [] then 0
    else
      var last := ledger[|ledger| - 1];
      BilledTo(ledger[..|ledger| - 1], start, end, tenants)
      + (if InWindow(last, start, end) && last.usage.tenant in tenants then RowAmount(last) else 0)
  }

  lemma {:induction false} OneMoreBilled(ledger: seq<Row>, start: int, end: int, tenants: set<string>, t: string)
    requires t !in tenants
    ensures BilledTo(ledger, start, end, tenants + {t}) == BilledTo(ledger, start, end, tenants) + WindowBilled(ledger, start, end, t)
    ensures BilledTo(ledger, start, end, {}) == 0
  {
    if ledger != [] { OneMoreBilled(ledger[..|ledger| - 1], start, end, tenants, t); }
  }

  lemma {:induction false} EverybodyBilled(ledger: seq<Row>, start: int, end: int, tenants: set<string>)
    requires forall i :: 0 <= i < |ledger| && InWindow(ledger[i], start, end) ==> ledger[i].usage.tenant in tenants
    ensures BilledTo(ledger, start, end, tenants) == WindowTotal(ledger, start, end)
  {
    if ledger != [] {
      assert forall i :: 0 <= i < |ledger| - 1 ==> ledger[..|ledger| - 1][i] == ledger[i];
      EverybodyBilled(ledger[..|ledger| - 1], start, end, tenants);
    }
  }

  /** The grand total, tenant by tenant. */
  method SumBilled(ledger: seq<Row>, start: int, end: int, billed: map<string, int>) returns (total: int)
    requires forall t :: t in billed <==> WindowTenant(ledger, start, end, t)
    requires forall t :: t in billed ==> billed[t] == WindowBilled(ledger, start, end, t)
    ensures total == WindowTotal(ledger, start, end)
  {
    hide WindowBilled, BilledTo, WindowTotal;
    total := 0;
    var todo := billed.Keys;
    OneMoreBilled(ledger, start, end, {}, "");
    assert billed.Keys - todo == {};
    while todo != {}
      invariant todo <= billed.Keys
      invariant total == BilledTo(ledger, start, end, billed.Keys - todo)
    {
      var t :| t in todo;
      OneMoreBilled(ledger, start, end, billed.Keys - todo, t);
      assert billed.Keys - (todo - {t}) == (billed.Keys - todo) + {t};
      total := total + billed[t];
      todo := todo - {t};
    }
    assert billed.Keys - todo == billed.Keys;
    EverybodyBilled(ledger, start, end, billed.Keys);
  }

  method CheckWallets(db: DB, tenants: set<string>) returns (found: seq<Discrepancy>)
    ensures forall d :: d in found <==>
              d.WalletBalanceDrift? && d.tenant in tenants && d.tenant in db.wallets && d.actual == db.wallets[d.tenant]
              && d.expected == JournalSum(db.journal, d.tenant) && d.actual != d.expected
  {
    found := [];
    var todo := tenants;
    while todo != {}
      invariant todo <= tenants
      invariant forall d :: d in found <==>
                  d.WalletBalanceDrift? && d.tenant in tenants - todo && d.tenant in db.wallets && d.actual == db.wallets[d.tenant]
                  && d.expected == JournalSum(db.journal, d.tenant) && d.actual != d.expected
    {
      var t :| t in todo;
      if t in db.wallets {
        var journal := JournalSum(db.journal, t);
        if db.wallets[t] != journal {
          found := found + [WalletBalanceDrift(t, journal, db.wallets[t])];
        }
      }
      todo := todo - {t};
    }
  }

  predicate RunDisagrees(db: DB, d: Discrepancy, keys: set<(string, string)>) {
    && (d.RunDebitMismatch? || d.MissingWallet?)
    && (d.tenant, d.run) in keys
    && d.expected == BilledSum(db.ledger, d.tenant, Some(d.run))
    && d.expected != DebitSum(db.journal, d.tenant, Some(d.run))
    && (d.RunDebitMismatch? <==> d.tenant in db.wallets)
    && (d.RunDebitMismatch? ==> d.actual == DebitSum(db.journal, d.tenant, Some(d.run)))
  }

  lemma {:induction false} OneMoreDebited(journal: seq<Transaction>, keys: set<(string, string)>, t: string, run: string)
    requires (t, run) !in keys
    ensures DebitsOf(journal, keys + {(t, run)}) == DebitsOf(journal, keys) + DebitSum(journal, t, Some(run))
    ensures DebitsOf(journal, {}) == 0
  {
    if journal != [] { OneMoreDebited(journal[..|journal| - 1], keys, t, run); }
  }

  /** Each run's line, what they debited together, and the runs that disagree with their debit. */
  method CheckRuns(db: DB, keys: set<(string, string)>)
    returns (found: seq<Discrepancy>, lines: map<(string, string), RunLine>, debited: int)
    ensures forall d :: d in found <==> RunDisagrees(db, d, keys)
    ensures lines.Keys == keys && forall t, run :: (t, run) in lines ==> lines[(t, run)] == LineOf(db, t, run)
    ensures debited == DebitsOf(db.journal, keys)
  {
    hide DebitsOf, BilledSum, DebitSum, RunRows;
    found, lines, debited := [], map[], 0;
    var todo := keys;
    OneMoreDebited(db.journal, {}, "", "");
    assert keys - todo == {};
    while todo != {}
      invariant todo <= keys
      invariant forall d :: d in found <==> RunDisagrees(db, d, keys - todo)
      invariant lines.Keys == keys - todo && forall t, run :: (t, run) in lines ==> lines[(t, run)] == LineOf(db, t, run)
      invariant debited == DebitsOf(db.journal, keys - todo)
    {
      var key :| key in todo;
      var (t, run) := key;
      OneMoreDebited(db.journal, keys - todo, t, run);
      assert keys - (todo - {key}) == (keys - todo) + {key};
      var amount, debit := BilledSum(db.ledger, t, Some(run)), DebitSum(db.journal, t, Some(run));
      lines := lines[key := RunLine(RunRows(db.ledger, t, run), amount, debit)];
      debited := debited + debit;
      if amount != debit {
        if t !in db.wallets {
          found := found + [MissingWallet(t, run, amount)];
        } else {
          found := found + [RunDebitMismatch(t, run, amount, debit)];
        }
      }
      todo := todo - {key};
    }
    assert keys - todo == keys;
  }

  lemma {:induction false} CleanRows(ledger: seq<Row>, start: int, end: int)
    ensures RowFindings(ledger, start, end) == [] <==>
            forall i :: 0 <= i < |ledger| && InWindow(ledger[i], start, end) ==> RowFinding(ledger[i]).None?
  {
    if ledger != [] {
      var init := ledger[..|ledger| - 1];
      CleanRows(init, start, end);
      assert forall i :: 0 <= i < |init| ==> init[i] == ledger[i];
    }
  }

  /** A list holding exactly the row findings and the account findings is empty exactly when the books agree. */
  lemma BalancedExactly(db: DB, start: int, end: int, found: seq<Discrepancy>)
    requires forall d :: d in found <==> d in RowFindings(db.ledger, start, end) || AccountFinding(db, start, end, d)
    ensures found == [] <==> BooksAgree(db, start, end)
  {
    CleanRows(db.ledger, start, end);
    var rows := RowFindings(db.ledger, start, end);
    if rows != [] {
      assert rows[0] in found;
    }
    if found != [] {
      assert found[0] in found;
    }
    if found == [] {
      forall t | WindowTenant(db.ledger, start, end, t) && t in db.wallets
        ensures db.wallets[t] == JournalSum(db.journal, t)
      {
        assert !AccountFinding(db, start, end, WalletBalanceDrift(t, JournalSum(db.journal, t), db.wallets[t]));
      }
      forall t, run | WindowEvents(db.ledger, start, end, t, run) != []
        ensures BilledSum(db.ledger, t, Some(run)) == DebitSum(db.journal, t, Some(run))
      {
        var amount, debit := BilledSum(db.ledger, t, Some(run)), DebitSum(db.journal, t, Some(run));
        assert !AccountFinding(db, start, end, RunDebitMismatch(t, run, amount, debit));
        assert !AccountFinding(db, start, end, MissingWallet(t, run, amount));
      }
    }
  }

  // ------------------------------------------------------------------ what the report says, row by row

  /** This row of the window is what the finding says. */
  predicate Shows(row: Row, d: Discrepancy) {
    match d
    case AmountOnUnsettledRow(t, e, amount) =>
      row.usage.tenant == t && row.usage.eventId == e && row.state != Billed && row.amount == Some(amount)
    case BilledWithoutAmount(t, e) => row.usage.tenant == t && row.usage.eventId == e && row.state == Billed && row.amount == None
    case BilledWithoutRun(t, e, amount) =>
      && row.usage.tenant == t && row.usage.eventId == e && row.state == Billed && row.amount == Some(amount)
      && (row.run == None || row.run == Some(""))
    case _ => false
  }

  /** The findings on single rows are exactly what the rows of the window show. */
  lemma {:induction false} FindingsMean(ledger: seq<Row>, start: int, end: int, d: Discrepancy)
    ensures d in RowFindings(ledger, start, end) <==>
              exists i :: 0 <= i < |ledger| && start <= ledger[i].usage.occurredAt < end && Shows(ledger[i], d)
  {
    if ledger != [] {
      hide RowFinding, Shows;
      var init, last := ledger[..|ledger| - 1], ledger[|ledger| - 1];
      FindingsMean(init, start, end, d);
      FindingMeans(last, d);
      assert forall i :: 0 <= i < |init| ==> init[i] == ledger[i];
      if exists i :: 0 <= i < |init| && start <= init[i].usage.occurredAt < end && Shows(init[i], d) {
        var i :| 0 <= i < |init| && start <= init[i].usage.occurredAt < end && Shows(init[i], d);
        assert Shows(ledger[i], d);
      }
    }
  }

  lemma FindingMeans(row: Row, d: Discrepancy)
    ensures RowFinding(row) == Some(d) <==> Shows(row, d)
  {}

  /** What one more row adds to the report: to the unsettled rows if it is in the window and not billed, to its state's count, to
      its tenant's and the grand total, and to its run's events. */
  lemma ReportGrows(ledger: seq<Row>, row: Row, start: int, end: int, t: string, run: string, state: BillingState)
    ensures var all := ledger + [row];
            var within := start <= row.usage.occurredAt < end;
            var own := row.usage.tenant == t;
            && UnsettledRows(all, start, end) == UnsettledRows(ledger, start, end)
               + (if within && row.state != Billed then [UnsettledRow(row.usage.tenant, row.usage.eventId, row.state)] else [])
            && StateCount(all, start, end, t, state) == StateCount(ledger, start, end, t, state) + (if within && own && row.state == state then 1 else 0)
            && WindowBilled(all, start, end, t) == WindowBilled(ledger, start, end, t) + (if within && own then RowAmount(row) else 0)
            && WindowTotal(all, start, end) == WindowTotal(ledger, start, end) + (if within then RowAmount(row) else 0)
            && WindowEvents(all, start, end, t, run) == WindowEvents(ledger, start, end, t, run)
               + (if within && own && row.state == Billed && row.amount.Some? && row.run == Some(run) && run != "" then [row.usage.eventId] else [])
            && RunRows(all, t, run) == RunRows(ledger, t, run) + (if own && row.state == Billed && row.run == Some(run) then 1 else 0)
    ensures UnsettledRows([], start, end) == [] && StateCount([], start, end, t, state) == 0 && WindowBilled([], start, end, t) == 0
    ensures WindowTotal([], start, end) == 0 && WindowEvents([], start, end, t, run) == [] && RunRows([], t, run) == 0
  {
    assert (ledger + [row])[..|ledger|] == ledger;
  }

  // ------------------------------------------------------------------ nothing to report, ever

  lemma SoundBooksAgree(db: DB, start: int, end: int)
    requires Sound(db)
    ensures BooksAgree(db, start, end)
  {
    forall i | 0 <= i < |db.ledger| && InWindow(db.ledger[i], start, end) ensures RowFinding(db.ledger[i]).None? {
      assert RowShaped(db.ledger[i]);
    }
  }

  /** After any legal run of the platform, the report over any window shows no discrepancy. */
  lemma ReachableBooksAgree(steps: seq<Step>, start: int, end: int)
    requires LegalRun(EMPTY_DB, steps)
    ensures BooksAgree(BillingModel.Run(EMPTY_DB, steps), start, end)
  {
    ReachableIsSound(steps);
    SoundBooksAgree(BillingModel.Run(EMPTY_DB, steps), start, end);
  }

  // ------------------------------------------------------------------ the two grand totals

  /** What these runs billed for rows outside the window. */
  function OutsideBilled(ledger: seq<Row>, start: int, end: int, keys: set<(string, string)>): int {
    if ledger == [] then 0
    else
      var last := ledger[|ledger| - 1];
      OutsideBilled(ledger[..|ledger| - 1], start, end, keys)
      + (if !InWindow(last, start, end) && last.run.Some? && (last.usage.tenant, last.run.value) in keys then RowAmount(last) else 0)
  }

  /** What these runs billed at all. */
  function BilledBy(ledger: seq<Row>, keys: set<(string, string)>): int {
    if ledger == [] then 0
    else
      var last := ledger[|ledger| - 1];
      BilledBy(ledger[..|ledger| - 1], keys)
      + (if last.run.Some? && (last.usage.tenant, last.run.value) in keys then RowAmount(last) else 0)
  }

  lemma {:induction false} OneMoreBilledBy(ledger: seq<Row>, keys: set<(string, string)>, t: string, run: string)
    requires (t, run) !in keys
    ensures BilledBy(ledger, keys + {(t, run)}) == BilledBy(ledger, keys) + BilledSum(ledger, t, Some(run))
    ensures BilledBy(ledger, {}) == 0
  {
    if ledger != [] { OneMoreBilledBy(ledger[..|ledger| - 1], keys, t, run); }
  }

  lemma {:induction false} DebitedIsBilled(db: DB, keys: set<(string, string)>)
    requires RunsAgree(db.ledger, db.journal)
    ensures DebitsOf(db.journal, keys) == BilledBy(db.ledger, keys)
    decreases |keys|
  {
    hide BilledSum, DebitSum, BilledBy, DebitsOf;
    if keys == {} {
      OneMoreBilledBy(db.ledger, {}, "", "");
      OneMoreDebited(db.journal, {}, "", "");
    } else {
      var key :| key in keys;
      var rest := keys - {key};
      DebitedIsBilled(db, rest);
      OneMoreBilledBy(db.ledger, rest, key.0, key.1);
      OneMoreDebited(db.journal, rest, key.0, key.1);
      assert rest + {(key.0, key.1)} == keys;
    }
  }

  /** Rows billed in the window belong to the window's runs. */
  lemma {:induction false} InsideAndOutside(ledger: seq<Row>, start: int, end: int, keys: set<(string, string)>)
    requires forall i :: 0 <= i < |ledger| ==> RowShaped(ledger[i])
    requires forall i :: 0 <= i < |ledger| && InWindow(ledger[i], start, end) && ledger[i].state == Billed && ledger[i].run.Some? ==>
               (ledger[i].usage.tenant, ledger[i].run.value) in keys
    ensures BilledBy(ledger, keys) == WindowTotal(ledger, start, end) + OutsideBilled(ledger, start, end, keys)
    ensures OutsideBilled(ledger, start, end, keys) >= 0
  {
    if ledger != [] {
      assert forall i :: 0 <= i < |ledger| - 1 ==> ledger[..|ledger| - 1][i] == ledger[i];
      InsideAndOutside(ledger[..|ledger| - 1], start, end, keys);
    }
  }

  lemma {:induction false} SettledInWindow(ledger: seq<Row>, start: int, end: int, i: nat)
    requires i < |ledger| && SettlesIn(ledger[i], start, end, ledger[i].usage.tenant, RunText(ledger[i]))
    ensures WindowEvents(ledger, start, end, ledger[i].usage.tenant, RunText(ledger[i])) != []
  {
    if i < |ledger| - 1 {
      assert ledger[..|ledger| - 1][i] == ledger[i];
      SettledInWindow(ledger[..|ledger| - 1], start, end, i);
    }
  }

  /** In every reachable state the report's two grand totals differ by exactly what the window's runs billed for rows
      outside the window, which is never negative. */
  lemma ReachableTotalsMeet(steps: seq<Step>, start: int, end: int, keys: set<(string, string)>)
    requires LegalRun(EMPTY_DB, steps)
    requires forall t, run ::
               (t, run) in keys <==> WindowEvents(BillingModel.Run(EMPTY_DB, steps).ledger, start, end, t, run) != []
    ensures var db := BillingModel.Run(EMPTY_DB, steps);
            DebitsOf(db.journal, keys) == WindowTotal(db.ledger, start, end) + OutsideBilled(db.ledger, start, end, keys)
            && OutsideBilled(db.ledger, start, end, keys) >= 0
  {
    hide BillingModel.Run, WindowEvents, DebitsOf, BilledSum, DebitSum;
    ReachableIsSound(steps);
    var db := BillingModel.Run(EMPTY_DB, steps);
    forall i | 0 <= i < |db.ledger| && InWindow(db.ledger[i], start, end) && db.ledger[i].state == Billed && db.ledger[i].run.Some?
      ensures RowShaped(db.ledger[i]) && (db.ledger[i].usage.tenant, db.ledger[i].run.value) in keys
    {
      SettledInWindow(db.ledger, start, end, i);
    }
    DebitedIsBilled(db, keys);
    InsideAndOutside(db.ledger, start, end, keys);
  }
}
