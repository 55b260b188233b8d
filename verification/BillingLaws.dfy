/** What each billing transaction means for the tables, field by field: cost, prices, wallets, settlement, rulings. */
module BillingLaws {
  import opened Outcomes
  import opened BillingModel
  import opened BillingRuns
  import opened BillingPolicy
  import Decimal

  // ------------------------------------------------------------------ the cost of usage

  /** Every class of token has its own price: one more token of a class costs that price over the unit scale, and
      usage without tokens costs nothing. */
  lemma CostIsPerToken(u: Usage, p: Price)
    requires p.unitScale > 0 && u.tokensIn >= 0 && u.tokensOut >= 0 && u.cacheRead >= 0 && u.cacheWrite >= 0
    ensures LineAmount(u, p).Ok?
    ensures var cost, scale := LineAmount(u, p).value, p.unitScale as real;
            && LineAmount(u.(tokensIn := u.tokensIn + 1), p) == Ok(cost + p.input as real / scale)
            && LineAmount(u.(tokensOut := u.tokensOut + 1), p) == Ok(cost + p.output as real / scale)
            && LineAmount(u.(cacheRead := u.cacheRead + 1), p) == Ok(cost + p.cacheRead as real / scale)
            && LineAmount(u.(cacheWrite := u.cacheWrite + 1), p) == Ok(cost + p.cacheWrite as real / scale)
            && (u.tokensIn == u.tokensOut == u.cacheRead == u.cacheWrite == 0 ==> cost == 0.0)
  {
    var weight := Weighted(u, p);
    OneMore(u.tokensIn, p.input);
    OneMore(u.tokensOut, p.output);
    OneMore(u.cacheRead, p.cacheRead);
    OneMore(u.cacheWrite, p.cacheWrite);
    OverScale(weight, p.input, p.unitScale);
    OverScale(weight, p.output, p.unitScale);
    OverScale(weight, p.cacheRead, p.unitScale);
    OverScale(weight, p.cacheWrite, p.unitScale);
    assert Weighted(u.(tokensIn := u.tokensIn + 1), p) == weight + p.input;
    assert Weighted(u.(tokensOut := u.tokensOut + 1), p) == weight + p.output;
    assert Weighted(u.(cacheRead := u.cacheRead + 1), p) == weight + p.cacheRead;
    assert Weighted(u.(cacheWrite := u.cacheWrite + 1), p) == weight + p.cacheWrite;
  }

  lemma OneMore(n: int, price: int)
    ensures (n + 1) * price == n * price + price
  {}

  lemma OverScale(a: int, b: int, scale: int)
    requires scale > 0
    ensures (a + b) as real / scale as real == a as real / scale as real + b as real / scale as real
    ensures 0 as real / scale as real == 0.0
  {}

  /** The only usage and prices without a cost. */
  lemma CostRefusedExactly(u: Usage, p: Price)
    ensures LineAmount(u, p).Err? <==>
              p.unitScale <= 0 || u.tokensIn < 0 || u.tokensOut < 0 || u.cacheRead < 0 || u.cacheWrite < 0
    ensures LineAmount(u, p).Err? ==> LineAmount(u, p).error == if p.unitScale <= 0 then BadUnitScale else NegativeTokens
  {}

  // ------------------------------------------------------------------ prices

  /** A price that has started for this provider and model. */
  predicate Started(p: Price, u: Usage) { p.provider == u.provider && p.model == u.model && p.effectiveFrom <= u.occurredAt }

  /** The price of the usage: it had started when the usage occurred, and none that had started by then started later. */
  ghost predicate PriceOf(prices: seq<Price>, u: Usage, p: Price) {
    p in prices && Started(p, u) && forall q :: q in prices && Started(q, u) ==> q.effectiveFrom <= p.effectiveFrom
  }

  ghost predicate Unpriceable(prices: seq<Price>, u: Usage) { forall p :: p in prices ==> !Started(p, u) }

  lemma PriceIsFound(prices: seq<Price>, u: Usage)
    requires PricesSound(prices)
    ensures var found := PriceAt(prices, u.provider, u.model, u.occurredAt);
            && (found.None? <==> Unpriceable(prices, u))
            && (forall p :: PriceOf(prices, u, p) <==> found == Some(p))
  {
    var found := PriceAt(prices, u.provider, u.model, u.occurredAt);
    forall p | PriceOf(prices, u, p) ensures found == Some(p) {
      var i :| 0 <= i < |prices| && prices[i] == p;
      var j :| 0 <= j < |prices| && prices[j] == found.value;
      assert i < j ==> !SamePriceKey(prices[i], prices[j]);
      assert j < i ==> !SamePriceKey(prices[j], prices[i]);
    }
  }

  /** Which prices the repository takes: named, for a scale, starting later than now, every amount within the column and not
      negative, and no other price of that id or of that start for the model. It then adds that very price. */
  lemma PriceAcceptedExactly(db: DB, p: Price, now: int)
    ensures InsertModelPrice(db, p, now).Ok? <==>
              && p.id != "" && p.provider != "" && p.model != "" && p.unitScale > 0 && p.effectiveFrom > now
              && p.input >= 0 && p.output >= 0 && p.cacheRead >= 0 && p.cacheWrite >= 0
              && Decimal.Storable(p.input) && Decimal.Storable(p.output)
              && Decimal.Storable(p.cacheRead) && Decimal.Storable(p.cacheWrite)
              && forall q :: q in db.prices ==>
                   q.id != p.id && (q.provider == p.provider && q.model == p.model ==> q.effectiveFrom != p.effectiveFrom)
    ensures InsertModelPrice(db, p, now).Ok? ==> InsertModelPrice(db, p, now).value == db.(prices := db.prices + [p])
  {
    hide Decimal.Storable;
  }

  // ------------------------------------------------------------------ wallets

  /** Which movements are taken: complete, of the sign its kind asks for, on a wallet there is, within the column before and
      after, and not journalled before. */
  lemma MovementAcceptedExactly(db: DB, m: Movement)
    ensures ApplyMovement(db, m).Ok? <==>
              && m.id != "" && m.tenant != "" && m.tenant in db.wallets
              && (m.kind == TopUp ==> m.amount > 0) && (m.kind == Debit ==> m.amount < 0) && m.amount != 0
              && Decimal.Storable(m.amount) && Decimal.Storable(db.wallets[m.tenant] + m.amount)
              && forall t :: t in db.journal ==> t.movement.id != m.id
  {
    hide Decimal.Storable;
  }

  /** A movement that commits moves its own tenant's balance by its own amount, and journals itself with the balance it left. */
  lemma MovementMeans(db: DB, m: Movement)
    requires ApplyMovement(db, m).Ok?
    ensures var next := ApplyMovement(db, m).value;
            && next.wallets.Keys == db.wallets.Keys && m.tenant in db.wallets
            && next.wallets[m.tenant] == db.wallets[m.tenant] + m.amount
            && (forall t :: t in db.wallets && t != m.tenant ==> next.wallets[t] == db.wallets[t])
            && next.journal == db.journal + [Transaction(m, db.wallets[m.tenant] + m.amount)]
            && next.prices == db.prices && next.ledger == db.ledger && next.resolutions == db.resolutions && next.clock == db.clock
  {
    hide Decimal.Storable;
    assert m.tenant in db.wallets;
  }

  /** A wallet starts empty, once. */
  lemma WalletMeans(db: DB, tenant: string)
    ensures EnsureWallet(db, tenant).Ok? <==> tenant != ""
    ensures EnsureWallet(db, tenant).Ok? ==>
              EnsureWallet(db, tenant).value == if tenant in db.wallets then db else db.(wallets := db.wallets[tenant := 0])
  {}

  /** The amounts of the tenant's movements that were asked for from outside and committed. */
  function MovedIn(db: DB, steps: seq<Step>, tenant: string): int
    decreases |steps|
  {
    if steps == [] then 0
    else
      var step := steps[0];
      (if step.Move? && Attempt(db, step).Ok? && step.movement.tenant == tenant then step.movement.amount else 0)
      + MovedIn(Apply(db, step), steps[1..], tenant)
  }

  lemma StepCredits(db: DB, step: Step, tenant: string)
    requires Legal(db, step)
    ensures CreditSum(Apply(db, step).journal, tenant) == CreditSum(db.journal, tenant) + MovedIn(db, [step], tenant)
  {
    hide Decimal.Storable, FirstRefusal, DebitOf, SettleLedger, Ruled, FindEvent, InsertModelPrice, CreditSum;
    assert [step][1..] == [];
    if Attempt(db, step).Ok? {
      match step
      case Move(m) =>
        MovementMeans(db, m);
        CreditPush(db.journal, Transaction(m, db.wallets[m.tenant] + m.amount), tenant);
      case AddPrice(p) => PriceAcceptedExactly(db, p, db.clock);
      case Settle(run, t, windowEnd) => ChargeCredits(db, run, t, DebitOf(db.prices, db.ledger, t, windowEnd), tenant);
      case Resolve(eventId, decision, run) =>
        var row := Ruled(db.prices, db.ledger[FindEvent(db.ledger, eventId)], decision, run).value;
        ChargeCredits(db, run, row.usage.tenant, RowAmount(row), tenant);
      case _ =>
    }
  }

  lemma CreditPush(journal: seq<Transaction>, t: Transaction, tenant: string)
    ensures CreditSum(journal + [t], tenant)
         == CreditSum(journal, tenant) + if t.movement.tenant == tenant && t.movement.kind != Debit then t.movement.amount else 0
  {
    assert (journal + [t])[..|journal|] == journal;
  }

  lemma ChargeCredits(db: DB, run: string, t: string, debit: int, tenant: string)
    requires Charge(db, run, t, debit).Ok?
    ensures CreditSum(Charge(db, run, t, debit).value.journal, tenant) == CreditSum(db.journal, tenant)
  {
    hide ApplyMovement, CreditSum;
    if debit > 0 {
      var m := DebitMovement(run, t, debit);
      MovementMeans(db, m);
      CreditPush(db.journal, Transaction(m, db.wallets[t] + m.amount), tenant);
    }
  }

  lemma {:induction false} RunCredits(db: DB, steps: seq<Step>, tenant: string)
    requires LegalRun(db, steps)
    ensures CreditSum(Run(db, steps).journal, tenant) == CreditSum(db.journal, tenant) + MovedIn(db, steps, tenant)
    decreases |steps|
  {
    if steps != [] {
      hide CreditSum, Apply, Attempt, Legal;
      StepCredits(db, steps[0], tenant);
      assert [steps[0]][1..] == [] && MovedIn(Apply(db, steps[0]), [], tenant) == 0;
      RunCredits(Apply(db, steps[0]), steps[1..], tenant);
    }
  }

  /** Money is conserved over every run: a balance is what the committed top-ups and adjustments asked for, less what the
      tenant's usage was billed. */
  lemma MoneyIsConserved(steps: seq<Step>, tenant: string)
    requires LegalRun(EMPTY_DB, steps)
    ensures var db := Run(EMPTY_DB, steps);
            tenant in db.wallets ==>
              db.wallets[tenant] == MovedIn(EMPTY_DB, steps, tenant) - BilledSum(db.ledger, tenant, None)
  {
    hide Run, LegalRun, MovedIn, CreditSum, BilledSum;
    Conservation(steps, tenant);
    RunCredits(EMPTY_DB, steps, tenant);
    assert CreditSum([], tenant) == 0 by { NoCredits(tenant); }
  }

  lemma NoCredits(tenant: string)
    ensures CreditSum([], tenant) == 0
  {}

  // ------------------------------------------------------------------ settlement

  /** The request was served: no error, and a status of success or redirection. */
  predicate Served(u: Usage) { u.errorClass == "ok" && 200 <= u.statusCode < 400 }

  /** Up for settlement: this tenant's, still pending, and from before the cut-off. */
  predicate Due(row: Row, tenant: string, windowEnd: int) {
    row.usage.tenant == tenant && row.state == Pending && row.usage.occurredAt < windowEnd
  }

  /** What settlement makes of a due row. Usage the upstream reported for a served request is charged at the rounded cost
      under the price of its own instant, or found unpriced; upstream-reported or missing usage of a failed request is
      written off; everything else is held. */
  ghost predicate SettledAs(prices: seq<Price>, before: Row, after: Row, run: string) {
    var u := before.usage;
    && after.usage == u && after.run == Some(run)
    && (u.source == "upstream" && Served(u) ==>
          && (Unpriceable(prices, u) ==> after.state == Unpriced && after.amount == before.amount)
          && (forall p :: PriceOf(prices, u, p) ==>
                LineAmount(u, p).Ok? && after.state == Billed && after.amount == Some(Decimal.Round(LineAmount(u, p).value))))
    && ((u.source == "upstream" || u.source == "missing") && !Served(u) ==>
          after.state == NotBillable && after.amount == before.amount)
    && (u.source != "upstream" && (u.source != "missing" || Served(u)) ==> after.state == Held && after.amount == before.amount)
  }

  lemma VerdictMeans(prices: seq<Price>, row: Row, run: string)
    requires PricesSound(prices) && !VerdictFor(prices, row.usage).Refused?
    ensures SettledAs(prices, row, Stamp(row, VerdictFor(prices, row.usage), run), run)
  {
    hide LineAmount, PriceOf, Unpriceable, PriceAt, PricesSound;
    var u := row.usage;
    PolicyMeaning(ClassOf(u));
    PriceIsFound(prices, u);
    assert u.source == UPSTREAM <==> u.source == "upstream";
    assert u.source == MISSING <==> u.source == "missing";
  }

  /** A committed settlement, row by row and in the accounts. Only due rows change, and the tenant's wallet pays what they
      were billed in one journalled debit named after run and tenant. */
  lemma SettlementMeans(db: DB, run: string, tenant: string, windowEnd: int)
    requires Sound(db) && SettleTenant(db, run, tenant, windowEnd).Ok?
    ensures var next := SettleTenant(db, run, tenant, windowEnd).value;
            var debit := BilledSum(next.ledger, tenant, None) - BilledSum(db.ledger, tenant, None);
            && |next.ledger| == |db.ledger|
            && (forall i :: 0 <= i < |db.ledger| ==>
                  if Due(db.ledger[i], tenant, windowEnd) then SettledAs(db.prices, db.ledger[i], next.ledger[i], run)
                  else next.ledger[i] == db.ledger[i])
            && next.prices == db.prices && next.resolutions == db.resolutions && next.clock == db.clock
            && (debit == 0 ==> next.wallets == db.wallets && next.journal == db.journal)
            && (debit != 0 ==>
                  && debit > 0 && tenant in db.wallets && next.wallets == db.wallets[tenant := db.wallets[tenant] - debit]
                  && next.journal == db.journal + [Transaction(Movement(run + ":" + tenant, tenant, Debit, -debit, Some(run)),
                                                               db.wallets[tenant] - debit)])
  {
    hide VerdictFor, Stamp, SettledAs, BilledSum, DebitOf, WalletsSound, RunsAgree, RulingsSound, Decimal.Storable, ApplyMovement;
    SettlementIsExact(db, run, tenant, windowEnd);
    var debit := DebitOf(db.prices, db.ledger, tenant, windowEnd);
    if debit > 0 { MovementMeans(db, DebitMovement(run, tenant, debit)); }
    var next := SettleTenant(db, run, tenant, windowEnd).value;
    forall i | 0 <= i < |db.ledger|
      ensures if Due(db.ledger[i], tenant, windowEnd) then SettledAs(db.prices, db.ledger[i], next.ledger[i], run)
              else next.ledger[i] == db.ledger[i]
    {
      assert next.ledger[i] == SettleRow(db.prices, db.ledger[i], run, tenant, windowEnd);
      if Due(db.ledger[i], tenant, windowEnd) { VerdictMeans(db.prices, db.ledger[i], run); }
    }
  }

  /** When a settlement fails: a due row that must be charged has no cost under its price, or the debit is not taken. */
  lemma SettlementFailsExactly(db: DB, run: string, tenant: string, windowEnd: int)
    requires Sound(db)
    ensures var debit := DebitOf(db.prices, db.ledger, tenant, windowEnd);
            SettleTenant(db, run, tenant, windowEnd).Err? <==>
              || (exists i, p :: 0 <= i < |db.ledger| && Due(db.ledger[i], tenant, windowEnd)
                                 && Uncostable(db.prices, db.ledger[i].usage, p))
              || (debit > 0 && ApplyMovement(db, Movement(run + ":" + tenant, tenant, Debit, -debit, Some(run))).Err?)
  {
    hide DebitOf, ApplyMovement, VerdictFor, PricesSound, Uncostable;
    forall i | 0 <= i < |db.ledger|
      ensures VerdictFor(db.prices, db.ledger[i].usage).Refused? <==> exists p :: Uncostable(db.prices, db.ledger[i].usage, p)
    {
      RefusedMeans(db.prices, db.ledger[i].usage);
    }
  }

  /** Chargeable usage whose price gives it no cost. */
  ghost predicate Uncostable(prices: seq<Price>, u: Usage, p: Price) {
    u.source == "upstream" && Served(u) && PriceOf(prices, u, p) && LineAmount(u, p).Err?
  }

  lemma RefusedMeans(prices: seq<Price>, u: Usage)
    requires PricesSound(prices)
    ensures VerdictFor(prices, u).Refused? <==> exists p :: Uncostable(prices, u, p)
  {
    hide LineAmount, PriceOf, Unpriceable, PriceAt, PricesSound;
    PolicyMeaning(ClassOf(u));
    PriceIsFound(prices, u);
    assert u.source == UPSTREAM <==> u.source == "upstream";
    var found := PriceAt(prices, u.provider, u.model, u.occurredAt);
    if VerdictFor(prices, u).Refused? { assert Uncostable(prices, u, found.value); }
  }

  // ------------------------------------------------------------------ rulings on held rows

  /** What a ruling makes of a held row: written off it is not billable, with no amount and no run; billed it is unpriced
      if no price had started, and otherwise billed at the rounded cost under the price of its own instant. */
  ghost predicate RuledAs(prices: seq<Price>, before: Row, after: Row, decision: Decision, run: string) {
    var u := before.usage;
    && after.usage == u
    && (decision == WriteItOff ==> after.state == NotBillable && after.amount == None && after.run == None)
    && (decision == BillIt ==>
          && after.run == Some(run)
          && (Unpriceable(prices, u) ==> after.state == Unpriced && after.amount == None)
          && (forall p :: PriceOf(prices, u, p) ==>
                LineAmount(u, p).Ok? && after.state == Billed && after.amount == Some(Decimal.Round(LineAmount(u, p).value))))
  }

  lemma RuledMeans(prices: seq<Price>, row: Row, decision: Decision, run: string)
    requires PricesSound(prices) && Ruled(prices, row, decision, run).Ok?
    ensures RuledAs(prices, row, Ruled(prices, row, decision, run).value, decision, run)
  {
    hide LineAmount, PriceOf, Unpriceable, PriceAt, PricesSound;
    PriceIsFound(prices, row.usage);
  }

  /** A committed ruling, on the database before and after: the one row is ruled as decided, the tenant's wallet pays what it
      was billed and nothing otherwise, and the ruling is on record with its outcome. */
  lemma RulingMeans(db: DB, eventId: string, decision: Decision, run: string, i: nat)
    requires Sound(db) && ResolveHeld(db, eventId, decision, run).Ok? && i < |db.ledger| && db.ledger[i].usage.eventId == eventId
    ensures var next := ResolveHeld(db, eventId, decision, run).value;
            && |next.ledger| == |db.ledger| && db.ledger[i].state == Held
            && var row := next.ledger[i];
            && RuledAs(db.prices, db.ledger[i], row, decision, run)
            && (forall j :: 0 <= j < |db.ledger| && j != i ==> next.ledger[j] == db.ledger[j])
            && next.prices == db.prices && next.clock == db.clock
            && next.resolutions == db.resolutions + [Resolution(eventId, row.usage.tenant, decision, row.state, row.amount, row.run)]
            && (row.state != Billed || row.amount == Some(0) ==> next.wallets == db.wallets && next.journal == db.journal)
            && (row.state == Billed && row.amount != Some(0) ==>
                  && row.amount.Some? && row.amount.value > 0 && row.usage.tenant in db.wallets
                  && Paid(db, next, run, row.usage.tenant, row.amount.value))
  {
    hide WalletsSound, RunsAgree, RulingsSound, PricesSound, Ruled, RuledAs, RowShaped, Decimal.Storable, ApplyMovement;
    HeldIndex(db, eventId, i);
    var row := Ruled(db.prices, db.ledger[i], decision, run).value;
    RuledMeans(db.prices, db.ledger[i], decision, run);
    RuledAmount(db.prices, db.ledger[i], decision, run);
    if RowAmount(row) > 0 { MovementMeans(db, DebitMovement(run, row.usage.tenant, RowAmount(row))); }
  }

  /** The tenant paid this amount for this run, in one journalled debit. */
  predicate Paid(db: DB, next: DB, run: string, tenant: string, amount: int)
    requires tenant in db.wallets
  {
    && next.wallets == db.wallets[tenant := db.wallets[tenant] - amount]
    && next.journal == db.journal + [Transaction(Movement(run + ":" + tenant, tenant, Debit, -amount, Some(run)), db.wallets[tenant] - amount)]
  }

  lemma RuledAmount(prices: seq<Price>, row: Row, decision: Decision, run: string)
    requires PricesSound(prices) && Ruled(prices, row, decision, run).Ok?
    ensures var r := Ruled(prices, row, decision, run).value; r.state == Billed ==> r.amount.Some? && r.amount.value >= 0
  {
    hide LineAmount, PriceAt, PricesSound;
    CostNotNegative(prices, row.usage);
  }

  lemma SameEvent(ledger: seq<Row>, i: nat, j: nat)
    requires LedgerSound(ledger) && i < |ledger| && j < |ledger| && ledger[i].usage.eventId == ledger[j].usage.eventId
    ensures i == j
  {
    hide RowShaped;
  }

  /** Event ids are unique, so the row of an event is the one that is found. */
  lemma HeldIndex(db: DB, eventId: string, i: nat)
    requires LedgerSound(db.ledger) && i < |db.ledger| && db.ledger[i].usage.eventId == eventId
    ensures FindEvent(db.ledger, eventId) == i
  {
    hide FindEvent;
    SameEvent(db.ledger, i, FindEvent(db.ledger, eventId));
  }

  /** Which rulings are refused, and as what: of an event not on the ledger, of a row that is not held. */
  lemma RulingRefused(db: DB, eventId: string, decision: Decision, run: string)
    requires LedgerSound(db.ledger)
    ensures ResolveHeld(db, eventId, decision, run) == Err(NoSuchRow) <==>
              forall i :: 0 <= i < |db.ledger| ==> db.ledger[i].usage.eventId != eventId
    ensures forall i :: 0 <= i < |db.ledger| && db.ledger[i].usage.eventId == eventId && db.ledger[i].state != Held ==>
              ResolveHeld(db, eventId, decision, run) == Err(NotHeld)
  {
    hide Ruled, Charge, LedgerSound;
    forall i | 0 <= i < |db.ledger| && db.ledger[i].usage.eventId == eventId ensures FindEvent(db.ledger, eventId) == i {
      HeldIndex(db, eventId, i);
    }
    RuledErrors(db, eventId, decision, run);
  }

  lemma RuledErrors(db: DB, eventId: string, decision: Decision, run: string)
    ensures forall i :: 0 <= i < |db.ledger| ==> Ruled(db.prices, db.ledger[i], decision, run) != Err(NoSuchRow)
    ensures forall run, t, d :: Charge(db, run, t, d) != Err(NoSuchRow)
  {
    hide PriceAt, Decimal.Storable;
  }

  // ------------------------------------------------------------------ metering

  /** Usage is entered once per event, as pending, with neither amount nor run. */
  lemma UsageMeans(db: DB, u: Usage)
    ensures InsertUsage(db, u) ==
              if exists i :: 0 <= i < |db.ledger| && db.ledger[i].usage.eventId == u.eventId then db
              else db.(ledger := db.ledger + [Row(u, Pending, None, None)])
  {}
}
