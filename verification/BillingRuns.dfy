/** What every run of the billing transactions keeps. */
module BillingRuns {
  import opened Outcomes
  import opened BillingModel
  import Decimal

  // ------------------------------------------------------------------ the sums three records are compared by

  predicate RunMatches(filter: Option<string>, run: Option<string>) { filter.None? || filter == run }

  function RowShare(row: Row, tenant: string, filter: Option<string>): int {
    if row.usage.tenant == tenant && RunMatches(filter, row.run) then RowAmount(row) else 0
  }

  /** Billed amounts of a tenant, over one run or over all of them. */
  function BilledSum(ledger: seq<Row>, tenant: string, filter: Option<string>): int {
    if ledger == [] then 0
    else BilledSum(ledger[..|ledger| - 1], tenant, filter) + RowShare(ledger[|ledger| - 1], tenant, filter)
  }

  function DebitShare(m: Movement, tenant: string, filter: Option<string>): int {
    if m.tenant == tenant && m.kind == Debit && RunMatches(filter, m.run) then -m.amount else 0
  }

  /** Debits of a tenant as positive amounts, over one run or over all of them. */
  function DebitSum(journal: seq<Transaction>, tenant: string, filter: Option<string>): int {
    if journal == [] then 0
    else DebitSum(journal[..|journal| - 1], tenant, filter) + DebitShare(journal[|journal| - 1].movement, tenant, filter)
  }

  /** Every journal entry of a tenant. */
  function JournalSum(journal: seq<Transaction>, tenant: string): int {
    if journal == [] then 0
    else
      var m := journal[|journal| - 1].movement;
      JournalSum(journal[..|journal| - 1], tenant) + (if m.tenant == tenant then m.amount else 0)
  }

  /** Top-ups and adjustments of a tenant. */
  function CreditSum(journal: seq<Transaction>, tenant: string): int {
    if journal == [] then 0
    else
      var m := journal[|journal| - 1].movement;
      CreditSum(journal[..|journal| - 1], tenant) + (if m.tenant == tenant && m.kind != Debit then m.amount else 0)
  }

  lemma {:induction false} JournalSplits(journal: seq<Transaction>, tenant: string)
    ensures JournalSum(journal, tenant) == CreditSum(journal, tenant) - DebitSum(journal, tenant, None)
  {
    if journal != [] { JournalSplits(journal[..|journal| - 1], tenant); }
  }

  lemma AppendEntry(journal: seq<Transaction>, t: Transaction, tenant: string, filter: Option<string>)
    ensures DebitSum(journal + [t], tenant, filter) == DebitSum(journal, tenant, filter) + DebitShare(t.movement, tenant, filter)
    ensures JournalSum(journal + [t], tenant) == JournalSum(journal, tenant) + (if t.movement.tenant == tenant then t.movement.amount else 0)
  {
    assert (journal + [t])[..|journal + [t]| - 1] == journal;
  }

  lemma AppendRow(ledger: seq<Row>, row: Row, tenant: string, filter: Option<string>)
    ensures BilledSum(ledger + [row], tenant, filter) == BilledSum(ledger, tenant, filter) + RowShare(row, tenant, filter)
  {
    assert (ledger + [row])[..|ledger + [row]| - 1] == ledger;
  }

  lemma {:induction false} ReplaceRow(ledger: seq<Row>, i: nat, row: Row, tenant: string, filter: Option<string>)
    requires i < |ledger|
    ensures BilledSum(ledger[i := row], tenant, filter)
            == BilledSum(ledger, tenant, filter) - RowShare(ledger[i], tenant, filter) + RowShare(row, tenant, filter)
  {
    var init := ledger[..|ledger| - 1];
    if i == |ledger| - 1 {
      assert ledger[i := row][..|ledger| - 1] == init;
    } else {
      assert ledger[i := row][..|ledger| - 1] == init[i := row];
      ReplaceRow(init, i, row, tenant, filter);
    }
  }

  /** A settlement adds to the billed amounts of its tenant and run exactly what it debits, to no one else. */
  lemma {:induction false} SettlementSum(prices: seq<Price>, ledger: seq<Row>, run: string, tenant: string, windowEnd: int,
                                         t: string, filter: Option<string>)
    requires forall i :: 0 <= i < |ledger| ==> RowShaped(ledger[i])
    ensures BilledSum(SettleLedger(prices, ledger, run, tenant, windowEnd), t, filter)
            == BilledSum(ledger, t, filter)
               + (if t == tenant && RunMatches(filter, Some(run)) then DebitOf(prices, ledger, tenant, windowEnd) else 0)
  {
    if ledger != [] {
      var init, last := ledger[..|ledger| - 1], ledger[|ledger| - 1];
      SettlementSum(prices, init, run, tenant, windowEnd, t, filter);
      var settled := SettleLedger(prices, ledger, run, tenant, windowEnd);
      assert settled[..|ledger| - 1] == SettleLedger(prices, init, run, tenant, windowEnd);
      SettledShare(prices, last, run, tenant, windowEnd, t, filter);
      hide VerdictFor, RowShare, SettleRow;
    }
  }

  lemma SettledShare(prices: seq<Price>, row: Row, run: string, tenant: string, windowEnd: int, t: string, filter: Option<string>)
    requires RowShaped(row)
    ensures RowShare(SettleRow(prices, row, run, tenant, windowEnd), t, filter)
            == RowShare(row, t, filter)
               + (if t == tenant && RunMatches(filter, Some(run)) && Eligible(row, tenant, windowEnd) then VerdictFor(prices, row.usage).Amount() else 0)
  {
    hide VerdictFor;
  }

  // ------------------------------------------------------------------ the invariant

  predicate RowShaped(row: Row) {
    if row.state == Billed then row.amount.Some? && row.amount.value >= 0 && row.run.Some? && row.run.value != ""
    else row.amount.None?
  }

  ghost predicate LedgerSound(ledger: seq<Row>) {
    && (forall i :: 0 <= i < |ledger| ==> RowShaped(ledger[i]))
    && (forall i, j :: 0 <= i < j < |ledger| ==> ledger[i].usage.eventId != ledger[j].usage.eventId)
  }

  ghost predicate PricesSound(prices: seq<Price>) {
    && (forall i :: 0 <= i < |prices| ==> PriceSane(prices[i]))
    && (forall i, j :: 0 <= i < j < |prices| ==> !SamePriceKey(prices[i], prices[j]))
  }

  /** Balance, journal sum and the running balance in the journal agree. */
  ghost predicate WalletsSound(wallets: map<string, int>, journal: seq<Transaction>) {
    && (forall k :: 0 <= k < |journal| ==> journal[k].movement.tenant in wallets)
    && (forall t :: t !in wallets ==> JournalSum(journal, t) == 0)
    && (forall t :: t in wallets ==> wallets[t] == JournalSum(journal, t) && Decimal.Storable(wallets[t]))
    && (forall k :: 0 <= k < |journal| ==>
          journal[k].balanceAfter == JournalSum(journal[..k + 1], journal[k].movement.tenant))
    && (forall i, j :: 0 <= i < j < |journal| ==> journal[i].movement.id != journal[j].movement.id)
  }

  ghost predicate RunsAgree(ledger: seq<Row>, journal: seq<Transaction>) {
    forall t, filter :: BilledSum(ledger, t, filter) == DebitSum(journal, t, filter)
  }

  predicate Settled(state: BillingState) { state == Billed || state == Unpriced || state == NotBillable }

  /** A ruling is recorded once, with what it wrote to the row. */
  ghost predicate RulingsSound(resolutions: seq<Resolution>, ledger: seq<Row>) {
    && (forall k :: 0 <= k < |resolutions| ==> Recorded(resolutions[k], ledger))
    && (forall j, k :: 0 <= j < k < |resolutions| ==> resolutions[j].eventId != resolutions[k].eventId)
  }

  ghost predicate Recorded(r: Resolution, ledger: seq<Row>) {
    exists i :: 0 <= i < |ledger| && RulingOf(r, ledger[i])
  }

  predicate RulingOf(r: Resolution, row: Row) {
    && row.usage.eventId == r.eventId && row.usage.tenant == r.tenant && Settled(row.state)
    && r.outcome == row.state && r.amount == row.amount && r.run == row.run
  }

  ghost predicate Sound(db: DB) {
    && PricesSound(db.prices)
    && LedgerSound(db.ledger)
    && WalletsSound(db.wallets, db.journal)
    && RunsAgree(db.ledger, db.journal)
    && RulingsSound(db.resolutions, db.ledger)
  }

  // ------------------------------------------------------------------ each transaction keeps it

  lemma MovementKeepsWallets(db: DB, m: Movement)
    requires WalletsSound(db.wallets, db.journal) && ApplyMovement(db, m).Ok?
    ensures var next := ApplyMovement(db, m).value; WalletsSound(next.wallets, next.journal)
  {
    hide JournalSum, DebitSum, Decimal.Storable;
    var next := ApplyMovement(db, m).value;
    var entry := next.journal[|db.journal|];
    forall t ensures JournalSum(next.journal, t) == JournalSum(db.journal, t) + (if m.tenant == t then m.amount else 0) {
      AppendEntry(db.journal, entry, t, None);
    }
    forall k | 0 <= k < |next.journal|
      ensures next.journal[k].balanceAfter == JournalSum(next.journal[..k + 1], next.journal[k].movement.tenant)
    {
      if k < |db.journal| {
        assert next.journal[..k + 1] == db.journal[..k + 1];
      } else {
        assert next.journal[..k + 1] == next.journal;
      }
    }
    forall i, j | 0 <= i < j < |next.journal| ensures next.journal[i].movement.id != next.journal[j].movement.id {
      if j == |db.journal| {
        assert next.journal[i] in db.journal;
      }
    }
  }

  lemma ChargeKeeps(db: DB, run: string, tenant: string, debit: int)
    requires WalletsSound(db.wallets, db.journal) && debit >= 0 && Charge(db, run, tenant, debit).Ok?
    ensures var next := Charge(db, run, tenant, debit).value;
            && WalletsSound(next.wallets, next.journal)
            && next.prices == db.prices && next.ledger == db.ledger && next.resolutions == db.resolutions && next.clock == db.clock
            && forall t, filter :: DebitSum(next.journal, t, filter) == DebitSum(db.journal, t, filter)
                                    + (if t == tenant && RunMatches(filter, Some(run)) then debit else 0)
  {
    hide WalletsSound, JournalSum, DebitSum, Decimal.Storable;
    if debit > 0 {
      var m := DebitMovement(run, tenant, debit);
      MovementKeepsWallets(db, m);
      var next := ApplyMovement(db, m).value;
      forall t, filter ensures DebitSum(next.journal, t, filter) == DebitSum(db.journal, t, filter) + DebitShare(m, t, filter) {
        AppendEntry(db.journal, next.journal[|db.journal|], t, filter);
      }
    }
  }

  /** A cost computed from sane prices and counts is never negative, so neither is its rounding. */
  lemma CostNotNegative(prices: seq<Price>, u: Usage)
    requires PricesSound(prices)
    ensures var v := PricedVerdict(prices, u); v.Amount() >= 0 && v.Exact() >= 0.0
  {
    var found := PriceAt(prices, u.provider, u.model, u.occurredAt);
    if found.Some? && LineAmount(u, found.value).Ok? {
      var p := found.value;
      WeightedNotNegative(u, p);
      QuotientNotNegative(Weighted(u, p), p.unitScale);
    }
  }

  lemma WeightedNotNegative(u: Usage, p: Price)
    requires TokensSane(u) && PriceSane(p)
    ensures Weighted(u, p) >= 0
  {
    ProductNotNegative(u.tokensIn, p.input);
    ProductNotNegative(u.tokensOut, p.output);
    ProductNotNegative(u.cacheRead, p.cacheRead);
    ProductNotNegative(u.cacheWrite, p.cacheWrite);
  }

  lemma ProductNotNegative(a: int, b: int)
    requires a >= 0 && b >= 0
    ensures a * b >= 0
  {}

  lemma QuotientNotNegative(a: int, b: int)
    requires a >= 0 && b > 0
    ensures a as real / b as real >= 0.0
  {}

  lemma {:induction false} DebitNotNegative(prices: seq<Price>, ledger: seq<Row>, tenant: string, windowEnd: int)
    requires PricesSound(prices)
    ensures DebitOf(prices, ledger, tenant, windowEnd) >= 0
  {
    if ledger != [] {
      DebitNotNegative(prices, ledger[..|ledger| - 1], tenant, windowEnd);
      CostNotNegative(prices, ledger[|ledger| - 1].usage);
    }
  }

  lemma RulingsSurvive(resolutions: seq<Resolution>, before: seq<Row>, after: seq<Row>)
    requires RulingsSound(resolutions, before) && |before| <= |after|
    requires forall i :: 0 <= i < |before| && Settled(before[i].state) ==> after[i] == before[i]
    ensures RulingsSound(resolutions, after)
  {
    forall k | 0 <= k < |resolutions| ensures Recorded(resolutions[k], after) {
      var i :| 0 <= i < |before| && RulingOf(resolutions[k], before[i]);
      assert RulingOf(resolutions[k], after[i]);
    }
  }

  lemma SettledLedgerSound(prices: seq<Price>, ledger: seq<Row>, run: string, tenant: string, windowEnd: int)
    requires PricesSound(prices) && LedgerSound(ledger) && run != ""
    ensures var after := SettleLedger(prices, ledger, run, tenant, windowEnd);
            && LedgerSound(after)
            && forall i :: 0 <= i < |ledger| ==> after[i].usage == ledger[i].usage && (ledger[i].state != Pending ==> after[i] == ledger[i])
  {
    var after := SettleLedger(prices, ledger, run, tenant, windowEnd);
    forall i | 0 <= i < |ledger|
      ensures RowShaped(after[i]) && after[i].usage == ledger[i].usage && (ledger[i].state != Pending ==> after[i] == ledger[i])
    {
      CostNotNegative(prices, ledger[i].usage);
      assert RowShaped(ledger[i]);
    }
  }

  lemma SettleKeeps(db: DB, run: string, tenant: string, windowEnd: int)
    requires Sound(db) && run != "" && SettleTenant(db, run, tenant, windowEnd).Ok?
    ensures Sound(SettleTenant(db, run, tenant, windowEnd).value)
  {
    var debit := DebitOf(db.prices, db.ledger, tenant, windowEnd);
    DebitNotNegative(db.prices, db.ledger, tenant, windowEnd);
    ChargeKeeps(db, run, tenant, debit);
    SettledLedgerSound(db.prices, db.ledger, run, tenant, windowEnd);
    hide WalletsSound, Charge;
    var charged := Charge(db, run, tenant, debit).value;
    var ledger := SettleLedger(db.prices, db.ledger, run, tenant, windowEnd);
    forall t, filter ensures BilledSum(ledger, t, filter) == DebitSum(charged.journal, t, filter) {
      SettlementSum(db.prices, db.ledger, run, tenant, windowEnd, t, filter);
    }
    RulingsSurvive(db.resolutions, db.ledger, ledger);
  }

  lemma RuledRow(db: DB, i: nat, decision: Decision, run: string)
    requires Sound(db) && i < |db.ledger| && db.ledger[i].state == Held && run != ""
    requires Ruled(db.prices, db.ledger[i], decision, run).Ok?
    ensures var row := Ruled(db.prices, db.ledger[i], decision, run).value;
            && RowShaped(row) && Settled(row.state) && row.usage == db.ledger[i].usage && RowAmount(row) >= 0
            && (RowAmount(row) > 0 ==> row.run == Some(run))
  {
    CostNotNegative(db.prices, db.ledger[i].usage);
  }

  lemma ResolveKeeps(db: DB, eventId: string, decision: Decision, run: string)
    requires Sound(db) && run != "" && ResolveHeld(db, eventId, decision, run).Ok?
    ensures Sound(ResolveHeld(db, eventId, decision, run).value)
  {
    hide WalletsSound, PricesSound, BilledSum, DebitSum, Charge;
    var i := FindEvent(db.ledger, eventId);
    var row := Ruled(db.prices, db.ledger[i], decision, run).value;
    RuledRow(db, i, decision, run);
    ChargeKeeps(db, run, row.usage.tenant, RowAmount(row));
    var charged := Charge(db, run, row.usage.tenant, RowAmount(row)).value;
    var next := ResolveHeld(db, eventId, decision, run).value;
    forall t, filter ensures BilledSum(next.ledger, t, filter) == DebitSum(next.journal, t, filter) {
      ReplaceRow(db.ledger, i, row, t, filter);
      assert BilledSum(db.ledger, t, filter) == DebitSum(db.journal, t, filter);
    }
    RulingsSurvive(db.resolutions, db.ledger, next.ledger);
    forall k | 0 <= k < |next.resolutions| ensures Recorded(next.resolutions[k], next.ledger) {
      if k == |db.resolutions| {
        assert RulingOf(next.resolutions[k], next.ledger[i]);
      } else {
        assert Recorded(db.resolutions[k], next.ledger);
      }
    }
    forall j, k | 0 <= j < k < |next.resolutions| ensures next.resolutions[j].eventId != next.resolutions[k].eventId {
      if k == |db.resolutions| {
        assert next.resolutions[j] in db.resolutions;
      }
    }
  }

  lemma MeterKeeps(db: DB, u: Usage)
    requires Sound(db)
    ensures Sound(InsertUsage(db, u))
  {
    hide WalletsSound, PricesSound, BilledSum, DebitSum, Recorded, RulingsSound;
    if FindEvent(db.ledger, u.eventId) < 0 {
      var next := InsertUsage(db, u);
      forall t, filter ensures BilledSum(next.ledger, t, filter) == DebitSum(next.journal, t, filter) {
        AppendRow(db.ledger, Row(u, Pending, None, None), t, filter);
      }
      RulingsSurvive(db.resolutions, db.ledger, next.ledger);
    }
  }

  lemma MoveKeeps(db: DB, m: Movement)
    requires Sound(db) && !m.kind.Debit? && ApplyMovement(db, m).Ok?
    ensures Sound(ApplyMovement(db, m).value)
  {
    MovementKeepsWallets(db, m);
    var next := ApplyMovement(db, m).value;
    forall t, filter ensures BilledSum(next.ledger, t, filter) == DebitSum(next.journal, t, filter) {
      AppendEntry(db.journal, next.journal[|db.journal|], t, filter);
    }
  }

  lemma AddPriceKeeps(db: DB, p: Price, now: int)
    requires Sound(db) && InsertModelPrice(db, p, now).Ok?
    ensures Sound(InsertModelPrice(db, p, now).value)
  {
    var next := InsertModelPrice(db, p, now).value;
    forall i | 0 <= i < |next.prices| ensures PriceSane(next.prices[i]) {
      assert i < |db.prices| ==> next.prices[i] == db.prices[i];
    }
    forall i, j | 0 <= i < j < |next.prices| ensures !SamePriceKey(next.prices[i], next.prices[j]) {
      if j == |db.prices| {
        assert next.prices[i] in db.prices;
      }
    }
  }

  /** One committed or aborted transaction keeps the invariant. */
  lemma StepKeepsSound(db: DB, step: Step)
    requires Sound(db) && Legal(db, step)
    ensures Sound(Apply(db, step))
  {
    if Attempt(db, step).Ok? {
      match step
      case Tick(_) =>
      case CreateWallet(tenant) => Decimal.ScalePlus(1, 0, Decimal.MONEY_PRECISION);
      case Move(m) => MoveKeeps(db, m);
      case AddPrice(p) => AddPriceKeeps(db, p, db.clock);
      case Meter(u) => MeterKeeps(db, u);
      case Settle(run, tenant, windowEnd) => SettleKeeps(db, run, tenant, windowEnd);
      case Resolve(eventId, decision, run) => ResolveKeeps(db, eventId, decision, run);
    }
  }

  lemma {:induction false} RunKeepsSound(db: DB, steps: seq<Step>)
    requires Sound(db) && LegalRun(db, steps)
    ensures Sound(Run(db, steps))
    decreases |steps|
  {
    if steps != [] {
      StepKeepsSound(db, steps[0]);
      RunKeepsSound(Apply(db, steps[0]), steps[1..]);
    }
  }

  /** Every state reachable from empty tables is sound. */
  lemma ReachableIsSound(steps: seq<Step>)
    requires LegalRun(EMPTY_DB, steps)
    ensures Sound(Run(EMPTY_DB, steps))
  {
    RunKeepsSound(EMPTY_DB, steps);
  }

  // ------------------------------------------------------------------ conservation

  /** In every reachable state a balance is what was put in, less what was billed. */
  lemma Conservation(steps: seq<Step>, tenant: string)
    requires LegalRun(EMPTY_DB, steps)
    ensures var db := Run(EMPTY_DB, steps);
            tenant in db.wallets ==>
              db.wallets[tenant] == CreditSum(db.journal, tenant) - BilledSum(db.ledger, tenant, None)
  {
    ReachableIsSound(steps);
    var db := Run(EMPTY_DB, steps);
    JournalSplits(db.journal, tenant);
    assert BilledSum(db.ledger, tenant, None) == DebitSum(db.journal, tenant, None);
  }

  /** What one step may do to one row: usage is never rewritten, settled rows never move again, a pending
      row leaves only through settlement and a held one only through a ruling. */
  lemma RowLifecycle(db: DB, step: Step, i: nat)
    requires i < |db.ledger|
    ensures var next := Apply(db, step);
            && i < |next.ledger|
            && next.ledger[i].usage == db.ledger[i].usage
            && (Settled(db.ledger[i].state) ==> next.ledger[i] == db.ledger[i])
            && (db.ledger[i].state == Pending ==> next.ledger[i] == db.ledger[i] || step.Settle?)
            && (db.ledger[i].state == Held ==>
                  next.ledger[i] == db.ledger[i] || (step.Resolve? && Settled(next.ledger[i].state)))
  {
    if step.Settle? && Attempt(db, step).Ok? {
      assert Apply(db, step).ledger[i] == SettleRow(db.prices, db.ledger[i], step.run, step.tenant, step.windowEnd);
    }
  }

  /** Billed, unpriced and not-billable are absorbing over whole runs: such a row is never billed again. */
  lemma {:induction false} SettledForever(db: DB, steps: seq<Step>, i: nat)
    requires i < |db.ledger| && Settled(db.ledger[i].state)
    ensures i < |Run(db, steps).ledger| && Run(db, steps).ledger[i] == db.ledger[i]
    decreases |steps|
  {
    if steps != [] {
      RowLifecycle(db, steps[0], i);
      SettledForever(Apply(db, steps[0]), steps[1..], i);
    }
  }

  // ------------------------------------------------------------------ one settlement

  /** A committed settlement takes from the wallet exactly what it newly stores on the ledger. */
  lemma SettlementIsExact(db: DB, run: string, tenant: string, windowEnd: int)
    requires Sound(db) && SettleTenant(db, run, tenant, windowEnd).Ok?
    ensures var next := SettleTenant(db, run, tenant, windowEnd).value;
            var debit := DebitOf(db.prices, db.ledger, tenant, windowEnd);
            && debit >= 0
            && debit == BilledSum(next.ledger, tenant, None) - BilledSum(db.ledger, tenant, None)
            && (debit == 0 ==> next.journal == db.journal && next.wallets == db.wallets)
            && (debit > 0 ==> tenant in db.wallets && next.wallets == db.wallets[tenant := db.wallets[tenant] - debit]
                              && |next.journal| == |db.journal| + 1)
            && (forall i :: 0 <= i < |db.ledger| ==> !Eligible(next.ledger[i], tenant, windowEnd))
  {
    hide BilledSum, DebitOf, WalletsSound, RunsAgree, RulingsSound, FirstRefusal, Decimal.Storable;
    DebitNotNegative(db.prices, db.ledger, tenant, windowEnd);
    SettlementSum(db.prices, db.ledger, run, tenant, windowEnd, tenant, None);
    var next := SettleTenant(db, run, tenant, windowEnd).value;
    forall i | 0 <= i < |db.ledger| ensures !Eligible(next.ledger[i], tenant, windowEnd) {
      assert next.ledger[i] == SettleRow(db.prices, db.ledger[i], run, tenant, windowEnd);
    }
  }

  /** Rounding once per row keeps the debit within half a unit per billed row of the exact cost. */
  lemma {:induction false} RoundingDrift(prices: seq<Price>, ledger: seq<Row>, tenant: string, windowEnd: int)
    ensures Decimal.Abs(DebitOf(prices, ledger, tenant, windowEnd) as real - ExactOf(prices, ledger, tenant, windowEnd))
            <= BilledCount(prices, ledger, tenant, windowEnd) as real * 0.5
  {
    if ledger != [] {
      var init, last := ledger[..|ledger| - 1], ledger[|ledger| - 1];
      RoundingDrift(prices, init, tenant, windowEnd);
      var v := VerdictFor(prices, last.usage);
      assert Decimal.Abs(v.Amount() as real - v.Exact()) <= if v.ToBilled? then 0.5 else 0.0;
    }
  }

  lemma {:induction false} NothingEligible(prices: seq<Price>, ledger: seq<Row>, tenant: string, windowEnd: int)
    requires forall i :: 0 <= i < |ledger| ==> !Eligible(ledger[i], tenant, windowEnd)
    ensures DebitOf(prices, ledger, tenant, windowEnd) == 0
    ensures FirstRefusal(prices, ledger, tenant, windowEnd) == None
  {
    if ledger != [] {
      var init := ledger[..|ledger| - 1];
      assert forall i :: 0 <= i < |init| ==> init[i] == ledger[i];
      NothingEligible(prices, init, tenant, windowEnd);
    }
  }

  /** Settling the same window again, under any run id, changes nothing. */
  lemma ResettlingIsIdle(db: DB, run: string, again: string, tenant: string, windowEnd: int)
    requires Sound(db) && SettleTenant(db, run, tenant, windowEnd).Ok?
    ensures var next := SettleTenant(db, run, tenant, windowEnd).value;
            SettleTenant(next, again, tenant, windowEnd) == Ok(next)
  {
    SettlementIsExact(db, run, tenant, windowEnd);
    var next := SettleTenant(db, run, tenant, windowEnd).value;
    NothingEligible(next.prices, next.ledger, tenant, windowEnd);
    assert SettleLedger(next.prices, next.ledger, again, tenant, windowEnd) == next.ledger;
  }

  /** A ruling can never meet an earlier ruling of the same event: the held state already excludes it. */
  lemma RulingsNeverCollide(db: DB, i: nat)
    requires Sound(db) && i < |db.ledger| && !Settled(db.ledger[i].state)
    ensures forall r :: r in db.resolutions ==> r.eventId != db.ledger[i].usage.eventId
  {
    forall r | r in db.resolutions ensures r.eventId != db.ledger[i].usage.eventId {
      var k :| 0 <= k < |db.resolutions| && db.resolutions[k] == r;
      var j :| 0 <= j < |db.ledger| && RulingOf(db.resolutions[k], db.ledger[j]);
      assert i != j;
    }
  }
}
