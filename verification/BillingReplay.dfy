/** Bills are replayable: the price table never changes a past lookup. */
module BillingReplay {
  import opened Outcomes
  import opened BillingPolicy
  import opened BillingModel
  import opened BillingRuns
  import Decimal

  /** Pricing the row again, with the prices of today, gives what the ledger says. */
  predicate Replayable(prices: seq<Price>, row: Row) {
    && (row.state == Billed ==> PricedVerdict(prices, row.usage).ToBilled?
                                && row.amount == Some(PricedVerdict(prices, row.usage).Amount()))
    && (row.state == Unpriced ==> PriceAt(prices, row.usage.provider, row.usage.model, row.usage.occurredAt).None?)
  }

  /** The cut-off of a settlement is not in the future. The scheduler passes the present instant. */
  predicate Timely(db: DB, step: Step) { step.Settle? ==> step.windowEnd <= db.clock }

  predicate TimelyRun(db: DB, steps: seq<Step>)
    decreases |steps|
  {
    steps == [] || (Timely(db, steps[0]) && TimelyRun(Apply(db, steps[0]), steps[1..]))
  }

  ghost predicate ReplaySound(db: DB) {
    forall i :: 0 <= i < |db.ledger| ==>
      && Replayable(db.prices, db.ledger[i])
      && (db.ledger[i].state != Pending ==> db.ledger[i].usage.occurredAt <= db.clock)
  }

  /** A price that starts later than an instant is invisible to a lookup at that instant. */
  lemma LaterPriceInvisible(prices: seq<Price>, p: Price, provider: string, model: string, at: int)
    requires !InEffect(p, provider, model, at)
    ensures PriceAt(prices + [p], provider, model, at) == PriceAt(prices, provider, model, at)
  {
    assert (prices + [p])[..|prices + [p]| - 1] == prices;
  }

  lemma ChargeLeavesTables(db: DB, run: string, tenant: string, debit: int)
    requires Charge(db, run, tenant, debit).Ok?
    ensures var next := Charge(db, run, tenant, debit).value; next.prices == db.prices && next.clock == db.clock
  {}

  lemma AddPriceKeepsReplay(db: DB, p: Price)
    requires ReplaySound(db) && Legal(db, AddPrice(p)) && Attempt(db, AddPrice(p)).Ok?
    ensures ReplaySound(Apply(db, AddPrice(p)))
  {
    var next := Apply(db, AddPrice(p));
    forall i | 0 <= i < |db.ledger| ensures Replayable(next.prices, next.ledger[i]) {
      var u := db.ledger[i].usage;
      if db.ledger[i].state != Pending {
        LaterPriceInvisible(db.prices, p, u.provider, u.model, u.occurredAt);
      }
    }
  }

  lemma SettleKeepsReplay(db: DB, run: string, tenant: string, windowEnd: int)
    requires ReplaySound(db) && Timely(db, Settle(run, tenant, windowEnd)) && Attempt(db, Settle(run, tenant, windowEnd)).Ok?
    ensures ReplaySound(Apply(db, Settle(run, tenant, windowEnd)))
  {
    var next := Apply(db, Settle(run, tenant, windowEnd));
    ChargeLeavesTables(db, run, tenant, DebitOf(db.prices, db.ledger, tenant, windowEnd));
    forall i | 0 <= i < |db.ledger|
      ensures Replayable(next.prices, next.ledger[i])
      ensures next.ledger[i].state != Pending ==> next.ledger[i].usage.occurredAt <= next.clock
    {
      assert next.ledger[i] == SettleRow(db.prices, db.ledger[i], run, tenant, windowEnd);
    }
  }

  lemma ResolveKeepsReplay(db: DB, eventId: string, decision: Decision, run: string)
    requires ReplaySound(db) && Attempt(db, Resolve(eventId, decision, run)).Ok?
    ensures ReplaySound(Apply(db, Resolve(eventId, decision, run)))
  {
    var i := FindEvent(db.ledger, eventId);
    var row := Ruled(db.prices, db.ledger[i], decision, run).value;
    ChargeLeavesTables(db, run, row.usage.tenant, RowAmount(row));
    assert Replayable(db.prices, row) && row.usage == db.ledger[i].usage;
  }

  lemma StepKeepsReplay(db: DB, step: Step)
    requires ReplaySound(db) && Legal(db, step) && Timely(db, step)
    ensures ReplaySound(Apply(db, step))
  {
    hide Replayable, SettleTenant, ResolveHeld, InsertModelPrice;
    if Attempt(db, step).Ok? {
      match step
      case AddPrice(p) => AddPriceKeepsReplay(db, p);
      case Settle(run, tenant, windowEnd) => SettleKeepsReplay(db, run, tenant, windowEnd);
      case Resolve(eventId, decision, run) => ResolveKeepsReplay(db, eventId, decision, run);
      case Meter(u) => PendingIsReplayable(db.prices, Row(u, Pending, None, None));
      case _ =>
    }
  }

  lemma PendingIsReplayable(prices: seq<Price>, row: Row)
    requires row.state == Pending
    ensures Replayable(prices, row)
  {}

  lemma {:induction false} RunKeepsReplay(db: DB, steps: seq<Step>)
    requires ReplaySound(db) && LegalRun(db, steps) && TimelyRun(db, steps)
    ensures ReplaySound(Run(db, steps))
    decreases |steps|
  {
    if steps != [] {
      StepKeepsReplay(db, steps[0]);
      RunKeepsReplay(Apply(db, steps[0]), steps[1..]);
    }
  }

  /** In every reachable state, every bill ever written replays to its stored amount and every unpriced row
      still has no price. */
  lemma BillsReplayForever(steps: seq<Step>, i: nat)
    requires LegalRun(EMPTY_DB, steps) && TimelyRun(EMPTY_DB, steps)
    requires i < |Run(EMPTY_DB, steps).ledger|
    ensures Replayable(Run(EMPTY_DB, steps).prices, Run(EMPTY_DB, steps).ledger[i])
  {
    RunKeepsReplay(EMPTY_DB, steps);
  }

  // ------------------------------------------------------------------ exactly when a lookup is frozen

  /** No price the repository would accept now can change the lookup. */
  ghost predicate LookupFrozen(db: DB, provider: string, model: string, at: int) {
    forall p :: InsertModelPrice(db, p, db.clock).Ok? ==>
      PriceAt(InsertModelPrice(db, p, db.clock).value.prices, provider, model, at) == PriceAt(db.prices, provider, model, at)
  }

  predicate PricedToTheInstant(prices: seq<Price>, provider: string, model: string, at: int) {
    exists q :: q in prices && q.provider == provider && q.model == model && q.effectiveFrom == at
  }

  /** A string no price uses as its id. */
  function FreshId(prices: seq<Price>): (id: string)
    ensures id != "" && forall p :: p in prices ==> |p.id| < |id|
  {
    if prices == [] then "p"
    else
      var init, last := prices[..|prices| - 1], prices[|prices| - 1];
      assert prices == init + [last];
      FreshId(init) + last.id + "p"
  }

  /** The acceptable price that starts at an instant still to come, with one amount for every token class. */
  function PriceFor(prices: seq<Price>, provider: string, model: string, at: int, k: int): Price {
    Price(FreshId(prices), provider, model, 1, k, k, k, k, at)
  }

  lemma AcceptedAndSeen(db: DB, provider: string, model: string, at: int, k: int)
    requires provider != "" && model != "" && db.clock < at && 0 <= k <= 1
    requires !PricedToTheInstant(db.prices, provider, model, at)
    ensures var p := PriceFor(db.prices, provider, model, at, k);
            InsertModelPrice(db, p, db.clock) == Ok(db.(prices := db.prices + [p]))
            && PriceAt(db.prices + [p], provider, model, at) == Some(p)
  {
    var p := PriceFor(db.prices, provider, model, at, k);
    Decimal.ScalePlus(1, 0, Decimal.MONEY_PRECISION - 1);
    forall q | q in db.prices ensures !SamePriceKey(p, q) {
      assert |q.id| < |p.id|;
    }
    assert (db.prices + [p])[..|db.prices + [p]| - 1] == db.prices;
    var earlier := PriceAt(db.prices, provider, model, at);
    assert earlier.Some? ==> earlier.value in db.prices && earlier.value.effectiveFrom < at;
  }

  lemma OutOfReach(db: DB, p: Price, provider: string, model: string, at: int)
    requires InsertModelPrice(db, p, db.clock).Ok?
    requires provider == "" || model == "" || at <= db.clock || PricedToTheInstant(db.prices, provider, model, at)
    ensures PriceAt(db.prices + [p], provider, model, at) == PriceAt(db.prices, provider, model, at)
  {
    assert (db.prices + [p])[..|db.prices + [p]| - 1] == db.prices;
    if InEffect(p, provider, model, at) {
      var q :| q in db.prices && q.provider == provider && q.model == model && q.effectiveFrom == at;
      assert InEffect(q, provider, model, at);
    }
  }

  /** A lookup is out of reach of future prices exactly when its instant has passed, or a price already
      starts at that very instant. */
  lemma FrozenExactly(db: DB, provider: string, model: string, at: int)
    requires provider != "" && model != ""
    ensures LookupFrozen(db, provider, model, at) <==> at <= db.clock || PricedToTheInstant(db.prices, provider, model, at)
  {
    hide PricedToTheInstant, PriceAt, PriceFor;
    if at <= db.clock || PricedToTheInstant(db.prices, provider, model, at) {
      forall p | InsertModelPrice(db, p, db.clock).Ok?
        ensures PriceAt(InsertModelPrice(db, p, db.clock).value.prices, provider, model, at) == PriceAt(db.prices, provider, model, at)
      {
        OutOfReach(db, p, provider, model, at);
      }
    } else {
      AcceptedAndSeen(db, provider, model, at, 0);
      var p := PriceFor(db.prices, provider, model, at, 0);
      FreshPrice(db.prices, provider, model, at);
    }
  }

  lemma FreshPrice(prices: seq<Price>, provider: string, model: string, at: int)
    ensures PriceAt(prices, provider, model, at) != Some(PriceFor(prices, provider, model, at, 0))
  {
    var p := PriceFor(prices, provider, model, at, 0);
    assert forall q :: q in prices ==> |q.id| < |p.id|;
  }

  // ------------------------------------------------------------------ exactly when a bill is frozen

  predicate NoTokens(u: Usage) { u.tokensIn == 0 && u.tokensOut == 0 && u.cacheRead == 0 && u.cacheWrite == 0 }

  /** The lookup behind a usage is out of reach of future prices, which always name a provider and a model. */
  predicate LookupClosed(db: DB, u: Usage) {
    || u.provider == "" || u.model == "" || u.occurredAt <= db.clock
    || PricedToTheInstant(db.prices, u.provider, u.model, u.occurredAt)
  }

  predicate BillClosed(db: DB, row: Row) {
    || (row.state != Billed && row.state != Unpriced)
    || (row.state == Billed && NoTokens(row.usage))
    || LookupClosed(db, row.usage)
  }

  /** Whatever transactions follow, settlements with any cut-off included, the row replays. */
  ghost predicate ReplaysForever(db: DB, row: Row) {
    forall steps :: LegalRun(db, steps) ==> Replayable(Run(db, steps).prices, row)
  }

  /** A row that replays now replays for good exactly when its instant has passed, a price starts at that very
      instant, or there is nothing in it to price. */
  lemma BillFrozenExactly(db: DB, row: Row)
    requires Replayable(db.prices, row)
    ensures ReplaysForever(db, row) <==> BillClosed(db, row)
  {
    hide Replayable, BillClosed, LegalRun, Run, Apply;
    if BillClosed(db, row) {
      forall steps | LegalRun(db, steps) ensures Replayable(Run(db, steps).prices, row) {
        ClosedReplays(db, row, steps);
      }
    } else {
      var p := RepricedBy(db, row);
      RunOne(db, AddPrice(p));
      assert !Replayable(Run(db, [AddPrice(p)]).prices, row);
    }
  }

  lemma RunOne(db: DB, step: Step)
    ensures Run(db, [step]) == Apply(db, step) && (LegalRun(db, [step]) <==> Legal(db, step))
  {
    hide Apply, Legal;
    assert [step][1..] == [];
  }

  lemma {:induction false} ClosedReplays(db: DB, row: Row, steps: seq<Step>)
    requires Replayable(db.prices, row) && BillClosed(db, row) && LegalRun(db, steps)
    ensures Replayable(Run(db, steps).prices, row)
    decreases |steps|
  {
    hide Replayable, BillClosed, Apply, Legal;
    if steps != [] {
      ClosedStep(db, row, steps[0]);
      ClosedReplays(Apply(db, steps[0]), row, steps[1..]);
    }
  }

  lemma ClosedStep(db: DB, row: Row, step: Step)
    requires Replayable(db.prices, row) && BillClosed(db, row) && Legal(db, step)
    ensures Replayable(Apply(db, step).prices, row) && BillClosed(Apply(db, step), row)
  {
    hide Replayable, InsertModelPrice;
    if step.AddPrice? && Attempt(db, step).Ok? {
      AcceptedPrice(db, step.price);
      if row.state != Billed && row.state != Unpriced {
        OpenIsReplayable(Apply(db, step).prices, row);
      } else if LookupClosed(db, row.usage) {
        OutOfReach(db, step.price, row.usage.provider, row.usage.model, row.usage.occurredAt);
        SameLookupReplays(db.prices, Apply(db, step).prices, row);
      } else {
        FreeReplays(db.prices, step.price, row);
      }
    } else {
      OthersLeavePrices(db, step);
    }
  }

  lemma AcceptedPrice(db: DB, p: Price)
    requires InsertModelPrice(db, p, db.clock).Ok?
    ensures InsertModelPrice(db, p, db.clock).value == db.(prices := db.prices + [p]) && PriceSane(p)
  {}

  lemma OpenIsReplayable(prices: seq<Price>, row: Row)
    requires row.state != Billed && row.state != Unpriced
    ensures Replayable(prices, row)
  {}

  lemma SameLookupReplays(before: seq<Price>, after: seq<Price>, row: Row)
    requires PriceAt(after, row.usage.provider, row.usage.model, row.usage.occurredAt)
          == PriceAt(before, row.usage.provider, row.usage.model, row.usage.occurredAt)
    requires Replayable(before, row)
    ensures Replayable(after, row)
  {
    hide PriceAt, LineAmount;
  }

  /** A row without tokens costs nothing at any price. */
  lemma FreeReplays(prices: seq<Price>, p: Price, row: Row)
    requires Replayable(prices, row) && row.state == Billed && NoTokens(row.usage) && PriceSane(p)
    ensures Replayable(prices + [p], row)
  {
    var u := row.usage;
    assert (prices + [p])[..|prices + [p]| - 1] == prices;
    var found := PriceAt(prices, u.provider, u.model, u.occurredAt);
    CostsNothing(u, found.value);
    CostsNothing(u, p);
  }

  lemma CostsNothing(u: Usage, p: Price)
    requires NoTokens(u) && p.unitScale > 0
    ensures LineAmount(u, p) == Ok(0.0)
  {
    assert Weighted(u, p) == 0;
    ZeroOver(p.unitScale);
  }

  lemma ZeroOver(n: int)
    requires n > 0
    ensures 0 as real / n as real == 0.0
  {}

  lemma OthersLeavePrices(db: DB, step: Step)
    requires Legal(db, step) && (!step.AddPrice? || Attempt(db, step).Err?)
    ensures Apply(db, step).prices == db.prices && db.clock <= Apply(db, step).clock
  {
    hide FirstRefusal, DebitOf, SettleLedger, Ruled, FindEvent, InsertModelPrice;
  }

  /** The price that breaks an open row: one unit a token if it was billed nothing, free otherwise. */
  lemma RepricedBy(db: DB, row: Row) returns (p: Price)
    requires Replayable(db.prices, row) && !BillClosed(db, row)
    ensures Legal(db, AddPrice(p)) && !Replayable(Apply(db, AddPrice(p)).prices, row)
  {
    hide PricedToTheInstant, PriceAt, PriceFor, InsertModelPrice;
    var u := row.usage;
    var k := if row.state == Billed && row.amount == Some(0) then 1 else 0;
    AcceptedAndSeen(db, u.provider, u.model, u.occurredAt, k);
    p := PriceFor(db.prices, u.provider, u.model, u.occurredAt, k);
    if row.state == Billed { FlatCost(db.prices, u, k); }
  }

  lemma FlatCost(prices: seq<Price>, u: Usage, k: int)
    requires TokensSane(u) && 0 <= k <= 1
    ensures var p := PriceFor(prices, u.provider, u.model, u.occurredAt, k);
            var total := u.tokensIn + u.tokensOut + u.cacheRead + u.cacheWrite;
            LineAmount(u, p) == Ok((k * total) as real) && Decimal.Round((k * total) as real) == k * total
  {
    var p := PriceFor(prices, u.provider, u.model, u.occurredAt, k);
    assert k == 0 || k == 1;
    var total := u.tokensIn + u.tokensOut + u.cacheRead + u.cacheWrite;
    assert Weighted(u, p) == k * total;
    Decimal.RoundUnique((k * total) as real, k * total);
  }

  // ------------------------------------------------------------------ a cut-off in the future

  /** The only price that has started is the one in effect; a later one takes over. */
  lemma LatestWins(first: Price, second: Price, provider: string, model: string, at: int)
    requires InEffect(first, provider, model, at) && InEffect(second, provider, model, at)
    requires first.effectiveFrom < second.effectiveFrom
    ensures PriceAt([first], provider, model, at) == Some(first)
    ensures PriceAt([first, second], provider, model, at) == Some(second)
  {
    assert [first][..0] == [];
    assert [first, second][..1] == [first];
  }

  /** A bill written before its instant, repriced by a later insert. */
  lemma Overtaken(first: Price, second: Price, u: Usage, run: string, windowEnd: int)
    requires DispositionFor(ClassOf(u)).0 == Bill && u.occurredAt < windowEnd
    requires InEffect(first, u.provider, u.model, u.occurredAt) && InEffect(second, u.provider, u.model, u.occurredAt)
    requires first.effectiveFrom < second.effectiveFrom
    requires LineAmount(u, first).Ok? && LineAmount(u, second).Ok?
    requires Decimal.Round(LineAmount(u, first).value) != Decimal.Round(LineAmount(u, second).value)
    ensures var billed := SettleRow([first], Row(u, Pending, None, None), run, u.tenant, windowEnd);
            billed.state == Billed && Replayable([first], billed) && !Replayable([first, second], billed)
  {
    hide LineAmount;
    LatestWins(first, second, u.provider, u.model, u.occurredAt);
  }

  predicate UnitPrice(p: Price, provider: string, model: string, input: int, from: int) {
    && p.id != "" && p.provider == provider && p.model == model && p.unitScale == 1
    && p.input == input && p.output == 0 && p.cacheRead == 0 && p.cacheWrite == 0 && p.effectiveFrom == from
  }

  lemma OneToken(u: Usage, p: Price)
    requires p.unitScale == 1 && u.tokensIn == 1 && u.tokensOut == 0 && u.cacheRead == 0 && u.cacheWrite == 0
    ensures LineAmount(u, p) == Ok(p.input as real)
  {
    assert Weighted(u, p) == p.input;
  }

  /** Settling with a cut-off in the future breaks the promise, in a state the platform reaches from empty tables. At
      instant 0 a one-token row that occurs at instant 10 is settled with cut-off 11 at one unit; the repository then
      still accepts, at instant 0, a price of two units from instant 5, and the same row replays to two. */
  lemma FutureCutOffBreaksReplay(empty: DB, first: Price, second: Price, u: Usage, run: string)
    requires empty == EMPTY_DB && run != "" && u.tenant != "" && u.provider != "" && u.model != ""
    requires UnitPrice(first, u.provider, u.model, 1, 1) && UnitPrice(second, u.provider, u.model, 2, 5) && first.id != second.id
    requires u.source == UPSTREAM && u.statusCode == 200 && u.errorClass == ERROR_OK && u.occurredAt == 10
    requires u.tokensIn == 1 && u.tokensOut == 0 && u.cacheRead == 0 && u.cacheWrite == 0
    ensures var steps := [CreateWallet(u.tenant), AddPrice(first), Meter(u), Settle(run, u.tenant, 11), AddPrice(second)];
            var db := Run(empty, steps);
            && LegalRun(empty, steps) && |db.ledger| == 1 && db.ledger[0].usage == u && db.ledger[0].state == Billed
            && !Replayable(db.prices, db.ledger[0])
  {
    hide Apply, Replayable, SettleRow, LegalRun, Run;
    var row := Row(u, Pending, None, None);
    var funded := empty.(wallets := map[u.tenant := 0]);
    var priced := funded.(prices := [first]);
    var metered := priced.(ledger := [row]);
    Accepted(empty, first, second, u);
    var settled := SettledOnce(metered, first, u, run);
    BilledEarly(first, second, u, run);
    var repriced := settled.(prices := [first, second]);
    RunFive(empty, CreateWallet(u.tenant), AddPrice(first), Meter(u), Settle(run, u.tenant, 11), AddPrice(second));
    AcceptedLate(settled, first, second, u);
    assert repriced.ledger[0] == SettleRow([first], row, run, u.tenant, 11);
  }

  /** The first three steps are taken. */
  lemma Accepted(empty: DB, first: Price, second: Price, u: Usage)
    requires empty == EMPTY_DB && u.tenant != "" && u.provider != "" && u.model != ""
    requires UnitPrice(first, u.provider, u.model, 1, 1)
    ensures var funded := empty.(wallets := map[u.tenant := 0]);
            var priced := funded.(prices := [first]);
            && Apply(empty, CreateWallet(u.tenant)) == funded
            && Apply(funded, AddPrice(first)) == priced
            && Apply(priced, Meter(u)) == priced.(ledger := [Row(u, Pending, None, None)])
  {
    Decimal.ScalePlus(1, 0, Decimal.MONEY_PRECISION - 1);
    assert [] + [first] == [first];
  }

  lemma AcceptedLate(db: DB, first: Price, second: Price, u: Usage)
    requires db.clock == 0 && db.prices == [first] && u.provider != "" && u.model != "" && first.id != second.id
    requires UnitPrice(first, u.provider, u.model, 1, 1) && UnitPrice(second, u.provider, u.model, 2, 5)
    ensures Apply(db, AddPrice(second)) == db.(prices := [first, second])
  {
    Decimal.ScalePlus(1, 0, Decimal.MONEY_PRECISION - 1);
    assert [first] + [second] == [first, second];
  }

  /** The settlement bills the one row one unit. */
  lemma SettledOnce(db: DB, first: Price, u: Usage, run: string) returns (after: DB)
    requires db.clock == 0 && db.prices == [first] && db.ledger == [Row(u, Pending, None, None)] && db.journal == []
    requires db.wallets == map[u.tenant := 0] && run != "" && u.tenant != "" && UnitPrice(first, u.provider, u.model, 1, 1)
    requires u.source == UPSTREAM && u.statusCode == 200 && u.errorClass == ERROR_OK && u.occurredAt == 10
    requires u.tokensIn == 1 && u.tokensOut == 0 && u.cacheRead == 0 && u.cacheWrite == 0
    ensures after == Apply(db, Settle(run, u.tenant, 11)) && after.clock == 0 && after.prices == [first]
    ensures after.ledger == [SettleRow([first], Row(u, Pending, None, None), run, u.tenant, 11)]
  {
    hide VerdictFor;
    var row := Row(u, Pending, None, None);
    OneUnit(first, u);
    assert db.ledger[..0] == [];
    assert DebitOf(db.prices, db.ledger, u.tenant, 11) == 1;
    assert FirstRefusal(db.prices, db.ledger, u.tenant, 11).None?;
    Decimal.ScalePlus(1, 0, Decimal.MONEY_PRECISION);
    Decimal.ScalePlus(1, 0, Decimal.MONEY_PRECISION - 1);
    assert Charge(db, run, u.tenant, 1).Ok?;
    after := Apply(db, Settle(run, u.tenant, 11));
  }

  lemma OneUnit(first: Price, u: Usage)
    requires UnitPrice(first, u.provider, u.model, 1, 1) && u.occurredAt == 10
    requires u.source == UPSTREAM && u.statusCode == 200 && u.errorClass == ERROR_OK
    requires u.tokensIn == 1 && u.tokensOut == 0 && u.cacheRead == 0 && u.cacheWrite == 0
    ensures VerdictFor([first], u).ToBilled? && VerdictFor([first], u).Amount() == 1
  {
    PolicyMeaning(ClassOf(u));
    OneToken(u, first);
    Decimal.RoundUnique(1.0, 1);
    assert [first][..0] == [];
  }

  lemma BilledEarly(first: Price, second: Price, u: Usage, run: string)
    requires UnitPrice(first, u.provider, u.model, 1, 1) && UnitPrice(second, u.provider, u.model, 2, 5)
    requires u.source == UPSTREAM && u.statusCode == 200 && u.errorClass == ERROR_OK && u.occurredAt == 10
    requires u.tokensIn == 1 && u.tokensOut == 0 && u.cacheRead == 0 && u.cacheWrite == 0
    ensures var billed := SettleRow([first], Row(u, Pending, None, None), run, u.tenant, 11);
            billed.usage == u && billed.state == Billed && !Replayable([first, second], billed)
  {
    PolicyMeaning(ClassOf(u));
    OneToken(u, first);
    OneToken(u, second);
    Decimal.RoundUnique(1.0, 1);
    Decimal.RoundUnique(2.0, 2);
    Overtaken(first, second, u, run, 11);
  }

  lemma RunFive(db: DB, a: Step, b: Step, c: Step, d: Step, e: Step)
    ensures Run(db, [a, b, c, d, e]) == Apply(Apply(Apply(Apply(Apply(db, a), b), c), d), e)
    ensures LegalRun(db, [a, b, c, d, e]) <==>
              Legal(db, a) && Legal(Apply(db, a), b) && Legal(Apply(Apply(db, a), b), c)
              && Legal(Apply(Apply(Apply(db, a), b), c), d) && Legal(Apply(Apply(Apply(Apply(db, a), b), c), d), e)
  {
    hide Apply, Legal;
    assert [a, b, c, d, e][1..] == [b, c, d, e] && [b, c, d, e][1..] == [c, d, e] && [c, d, e][1..] == [d, e] && [d, e][1..] == [e];
    var db1 := Apply(db, a);
    var db2 := Apply(db1, b);
    var db3 := Apply(db2, c);
    RunOne(Apply(db3, d), e);
    assert Run(db3, [d, e]) == Run(Apply(db3, d), [e]);
    assert LegalRun(db3, [d, e]) <==> Legal(db3, d) && Legal(Apply(db3, d), e);
    assert Run(db2, [c, d, e]) == Run(db3, [d, e]);
    assert LegalRun(db2, [c, d, e]) <==> Legal(db2, c) && LegalRun(db3, [d, e]);
    assert Run(db1, [b, c, d, e]) == Run(db2, [c, d, e]);
    assert LegalRun(db1, [b, c, d, e]) <==> Legal(db1, b) && LegalRun(db2, [c, d, e]);
  }
}
