/** The money tables and the committed transactions over them, as values.

    Money is an integer number of 10^-12 units. A transaction either yields the next database or an error;
    an error is an abort and changes nothing. */
module BillingModel {
  import opened Outcomes
  import opened BillingPolicy
  import Decimal

  // ------------------------------------------------------------------ records

  datatype Price = Price(id: string, provider: string, model: string, unitScale: int,
                         input: int, output: int, cacheRead: int, cacheWrite: int, effectiveFrom: int)

  /** What a release reported; never rewritten. */
  datatype Usage = Usage(eventId: string, tenant: string, provider: string, model: string,
                         tokensIn: int, tokensOut: int, cacheRead: int, cacheWrite: int,
                         source: string, partial: bool, statusCode: int, errorClass: string, occurredAt: int)

  datatype BillingState = Pending | Billed | Unpriced | Held | NotBillable

  /** A usage_ledger row: the usage plus its three billing columns. */
  datatype Row = Row(usage: Usage, state: BillingState, amount: Option<int>, run: Option<string>)

  datatype Kind = TopUp | Debit | Adjustment

  datatype Movement = Movement(id: string, tenant: string, kind: Kind, amount: int, run: Option<string>)

  datatype Transaction = Transaction(movement: Movement, balanceAfter: int)

  datatype Decision = BillIt | WriteItOff

  datatype Resolution = Resolution(eventId: string, tenant: string, decision: Decision, outcome: BillingState,
                                   amount: Option<int>, run: Option<string>)

  datatype DB = DB(prices: seq<Price>, ledger: seq<Row>, wallets: map<string, int>, journal: seq<Transaction>,
                   resolutions: seq<Resolution>, clock: int)

  const EMPTY_DB := DB([], [], map[], [], [], 0)

  datatype BillingError =
    | MovementIncomplete | NotStorable | WrongSign | WalletNotFound | DuplicateKey
    | PriceRejected | PriceNotInFuture | BadUnitScale | NegativeTokens
    | NoSuchRow | NotHeld | WindowEmpty

  // ------------------------------------------------------------------ prices

  predicate InEffect(p: Price, provider: string, model: string, at: int) {
    p.provider == provider && p.model == model && p.effectiveFrom <= at
  }

  /** The price in effect at an instant: the latest one that had started by then. */
  function PriceAt(prices: seq<Price>, provider: string, model: string, at: int): (r: Option<Price>)
    ensures r.None? ==> forall p :: p in prices ==> !InEffect(p, provider, model, at)
    ensures r.Some? ==> r.value in prices && InEffect(r.value, provider, model, at)
    ensures r.Some? ==> forall p :: p in prices && InEffect(p, provider, model, at) ==> p.effectiveFrom <= r.value.effectiveFrom
  {
    if prices == [] then None
    else
      var init, last := prices[..|prices| - 1], prices[|prices| - 1];
      assert prices == init + [last];
      var earlier := PriceAt(init, provider, model, at);
      if InEffect(last, provider, model, at) && (earlier.None? || earlier.value.effectiveFrom < last.effectiveFrom)
      then Some(last) else earlier
  }

  predicate PriceSane(p: Price) {
    p.unitScale > 0 && p.input >= 0 && p.output >= 0 && p.cacheRead >= 0 && p.cacheWrite >= 0
  }

  predicate PriceStorable(p: Price) {
    Decimal.Storable(p.input) && Decimal.Storable(p.output) && Decimal.Storable(p.cacheRead) && Decimal.Storable(p.cacheWrite)
  }

  predicate SamePriceKey(p: Price, q: Price) {
    p.id == q.id || (p.provider == q.provider && p.model == q.model && p.effectiveFrom == q.effectiveFrom)
  }

  function InsertModelPrice(db: DB, p: Price, now: int): Result<DB, BillingError> {
    if p.id == "" || p.provider == "" || p.model == "" || p.unitScale <= 0 then Err(PriceRejected)
    else if p.effectiveFrom <= now then Err(PriceNotInFuture)
    else if !PriceStorable(p) || !PriceSane(p) then Err(PriceRejected)
    else if exists q :: q in db.prices && SamePriceKey(p, q) then Err(DuplicateKey)
    else Ok(db.(prices := db.prices + [p]))
  }

  // ------------------------------------------------------------------ the cost of one row

  predicate TokensSane(u: Usage) {
    u.tokensIn >= 0 && u.tokensOut >= 0 && u.cacheRead >= 0 && u.cacheWrite >= 0
  }

  function Weighted(u: Usage, p: Price): int {
    u.tokensIn * p.input + u.tokensOut * p.output + u.cacheRead * p.cacheRead + u.cacheWrite * p.cacheWrite
  }

  /** The exact cost, in units of 10^-12. */
  function LineAmount(u: Usage, p: Price): Result<real, BillingError> {
    if p.unitScale <= 0 then Err(BadUnitScale)
    else if !TokensSane(u) then Err(NegativeTokens)
    else Ok(Weighted(u, p) as real / p.unitScale as real)
  }

  /** What the policy and the price table decide about a row's usage. */
  datatype Verdict = ToHeld | ToNotBillable | ToUnpriced | ToBilled(exact: real) | Refused(error: BillingError)
  {
    function Amount(): int { if ToBilled? then Decimal.Round(exact) else 0 }
    function Exact(): real { if ToBilled? then exact else 0.0 }
  }

  function ClassOf(u: Usage): UsageClass {
    UsageClass(u.source, u.partial, ReleaseSucceeded(u.statusCode, u.errorClass))
  }

  /** Price the usage as of the moment it happened. */
  function PricedVerdict(prices: seq<Price>, u: Usage): Verdict {
    match PriceAt(prices, u.provider, u.model, u.occurredAt)
    case None => ToUnpriced
    case Some(p) =>
      match LineAmount(u, p)
      case Err(e) => Refused(e)
      case Ok(exact) => ToBilled(exact)
  }

  function VerdictFor(prices: seq<Price>, u: Usage): Verdict {
    match DispositionFor(ClassOf(u)).0
    case Hold => ToHeld
    case WriteOff => ToNotBillable
    case Bill => PricedVerdict(prices, u)
  }

  // ------------------------------------------------------------------ wallets

  function ApplyMovement(db: DB, m: Movement): Result<DB, BillingError> {
    if m.id == "" || m.tenant == "" then Err(MovementIncomplete)
    else if !Decimal.Storable(m.amount) then Err(NotStorable)
    else if (m.kind.TopUp? && m.amount <= 0) || (m.kind.Debit? && m.amount >= 0) || m.amount == 0 then Err(WrongSign)
    else if m.tenant !in db.wallets then Err(WalletNotFound)
    else if !Decimal.Storable(db.wallets[m.tenant] + m.amount) then Err(NotStorable)
    else if exists t :: t in db.journal && t.movement.id == m.id then Err(DuplicateKey)
    else
      var after := db.wallets[m.tenant] + m.amount;
      Ok(db.(wallets := db.wallets[m.tenant := after], journal := db.journal + [Transaction(m, after)]))
  }

  function EnsureWallet(db: DB, tenant: string): Result<DB, BillingError> {
    if tenant == "" then Err(MovementIncomplete)
    else if tenant in db.wallets then Ok(db)
    else Ok(db.(wallets := db.wallets[tenant := 0]))
  }

  // ------------------------------------------------------------------ settlement

  predicate Eligible(row: Row, tenant: string, windowEnd: int) {
    row.usage.tenant == tenant && row.state == Pending && row.usage.occurredAt < windowEnd
  }

  /** The updates write exactly the columns the statements name. */
  function Stamp(row: Row, v: Verdict, run: string): Row {
    match v
    case ToBilled(_) => row.(state := Billed, amount := Some(v.Amount()), run := Some(run))
    case ToUnpriced => row.(state := Unpriced, run := Some(run))
    case ToHeld => row.(state := Held, run := Some(run))
    case ToNotBillable => row.(state := NotBillable, run := Some(run))
    case Refused(_) => row
  }

  function SettleRow(prices: seq<Price>, row: Row, run: string, tenant: string, windowEnd: int): Row {
    if Eligible(row, tenant, windowEnd) then Stamp(row, VerdictFor(prices, row.usage), run) else row
  }

  function SettleLedger(prices: seq<Price>, ledger: seq<Row>, run: string, tenant: string, windowEnd: int): (r: seq<Row>)
    ensures |r| == |ledger|
    ensures forall i :: 0 <= i < |ledger| ==> r[i] == SettleRow(prices, ledger[i], run, tenant, windowEnd)
  {
    seq(|ledger|, i requires 0 <= i < |ledger| => SettleRow(prices, ledger[i], run, tenant, windowEnd))
  }

  /** The rounded amounts of the rows a settlement bills, added up. */
  function DebitOf(prices: seq<Price>, ledger: seq<Row>, tenant: string, windowEnd: int): int {
    if ledger == [] then 0
    else
      var last := ledger[|ledger| - 1];
      DebitOf(prices, ledger[..|ledger| - 1], tenant, windowEnd)
      + (if Eligible(last, tenant, windowEnd) then VerdictFor(prices, last.usage).Amount() else 0)
  }

  /** The exact cost of the same rows. */
  function ExactOf(prices: seq<Price>, ledger: seq<Row>, tenant: string, windowEnd: int): real {
    if ledger == [] then 0.0
    else
      var last := ledger[|ledger| - 1];
      ExactOf(prices, ledger[..|ledger| - 1], tenant, windowEnd)
      + (if Eligible(last, tenant, windowEnd) then VerdictFor(prices, last.usage).Exact() else 0.0)
  }

  function BilledCount(prices: seq<Price>, ledger: seq<Row>, tenant: string, windowEnd: int): nat {
    if ledger == [] then 0
    else
      var last := ledger[|ledger| - 1];
      BilledCount(prices, ledger[..|ledger| - 1], tenant, windowEnd)
      + (if Eligible(last, tenant, windowEnd) && VerdictFor(prices, last.usage).ToBilled? then 1 else 0)
  }

  /** The first error met among the eligible rows, if any. */
  function FirstRefusal(prices: seq<Price>, ledger: seq<Row>, tenant: string, windowEnd: int): (r: Option<BillingError>)
    ensures r.None? <==> forall i :: 0 <= i < |ledger| && Eligible(ledger[i], tenant, windowEnd)
                                     ==> !VerdictFor(prices, ledger[i].usage).Refused?
  {
    if ledger == [] then None
    else
      var last := ledger[|ledger| - 1];
      var earlier := FirstRefusal(prices, ledger[..|ledger| - 1], tenant, windowEnd);
      assert forall i :: 0 <= i < |ledger| - 1 ==> ledger[..|ledger| - 1][i] == ledger[i];
      if earlier.Some? then earlier
      else if Eligible(last, tenant, windowEnd) && VerdictFor(prices, last.usage).Refused?
      then Some(VerdictFor(prices, last.usage).error) else None
  }

  function DebitMovement(run: string, tenant: string, debit: int): Movement {
    Movement(run + ":" + tenant, tenant, Debit, -debit, Some(run))
  }

  /** A debit is journalled only when it is positive. */
  function Charge(db: DB, run: string, tenant: string, debit: int): Result<DB, BillingError> {
    if debit > 0 then ApplyMovement(db, DebitMovement(run, tenant, debit)) else Ok(db)
  }

  function SettleTenant(db: DB, run: string, tenant: string, windowEnd: int): Result<DB, BillingError> {
    var refusal := FirstRefusal(db.prices, db.ledger, tenant, windowEnd);
    if refusal.Some? then Err(refusal.value)
    else
      match Charge(db, run, tenant, DebitOf(db.prices, db.ledger, tenant, windowEnd))
      case Err(e) => Err(e)
      case Ok(charged) => Ok(charged.(ledger := SettleLedger(db.prices, db.ledger, run, tenant, windowEnd)))
  }

  // ------------------------------------------------------------------ resolving a held row

  /** The row of an event, or -1. Event ids are unique. */
  function FindEvent(ledger: seq<Row>, eventId: string): (r: int)
    ensures -1 <= r < |ledger|
    ensures r >= 0 ==> ledger[r].usage.eventId == eventId
    ensures r < 0 ==> forall i :: 0 <= i < |ledger| ==> ledger[i].usage.eventId != eventId
  {
    if ledger == [] then -1
    else if ledger[|ledger| - 1].usage.eventId == eventId then |ledger| - 1
    else
      assert forall i :: 0 <= i < |ledger| - 1 ==> ledger[..|ledger| - 1][i] == ledger[i];
      FindEvent(ledger[..|ledger| - 1], eventId)
  }

  /** The new row a ruling writes; unlike the job it writes all three billing columns. */
  function Ruled(prices: seq<Price>, row: Row, decision: Decision, run: string): Result<Row, BillingError> {
    if decision == WriteItOff then Ok(row.(state := NotBillable, amount := None, run := None))
    else
      match PricedVerdict(prices, row.usage)
      case ToUnpriced => Ok(row.(state := Unpriced, amount := None, run := Some(run)))
      case ToBilled(exact) => Ok(row.(state := Billed, amount := Some(Decimal.Round(exact)), run := Some(run)))
      case Refused(e) => Err(e)
      case _ => Err(NotHeld)
  }

  function RowAmount(row: Row): int { if row.state == Billed && row.amount.Some? then row.amount.value else 0 }

  function ResolveHeld(db: DB, eventId: string, decision: Decision, run: string): Result<DB, BillingError> {
    var i := FindEvent(db.ledger, eventId);
    if i < 0 then Err(NoSuchRow)
    else if db.ledger[i].state != Held then Err(NotHeld)
    else
      match Ruled(db.prices, db.ledger[i], decision, run)
      case Err(e) => Err(e)
      case Ok(row) =>
        match Charge(db, run, row.usage.tenant, RowAmount(row))
        case Err(e) => Err(e)
        case Ok(charged) =>
          if exists r :: r in db.resolutions && r.eventId == eventId then Err(DuplicateKey)
          else Ok(charged.(
                    ledger := db.ledger[i := row],
                    resolutions := db.resolutions
                                   + [Resolution(eventId, row.usage.tenant, decision, row.state, row.amount, row.run)]))
  }

  // ------------------------------------------------------------------ metering

  /** A metered usage row arrives; a second delivery of the event is ignored. */
  function InsertUsage(db: DB, u: Usage): DB {
    if FindEvent(db.ledger, u.eventId) >= 0 then db
    else db.(ledger := db.ledger + [Row(u, Pending, None, None)])
  }

  // ------------------------------------------------------------------ runs

  datatype Step =
    | Tick(now: int)
    | CreateWallet(tenant: string)
    | Move(movement: Movement)
    | AddPrice(price: Price)
    | Meter(usage: Usage)
    | Settle(run: string, tenant: string, windowEnd: int)
    | Resolve(eventId: string, decision: Decision, run: string)

  function Attempt(db: DB, step: Step): Result<DB, BillingError> {
    match step
    case Tick(now) => Ok(db.(clock := now))
    case CreateWallet(tenant) => EnsureWallet(db, tenant)
    case Move(m) => ApplyMovement(db, m)
    case AddPrice(p) => InsertModelPrice(db, p, db.clock)
    case Meter(u) => Ok(InsertUsage(db, u))
    case Settle(run, tenant, windowEnd) => SettleTenant(db, run, tenant, windowEnd)
    case Resolve(eventId, decision, run) => ResolveHeld(db, eventId, decision, run)
  }

  /** A failed transaction is rolled back. */
  function Apply(db: DB, step: Step): DB {
    match Attempt(db, step)
    case Ok(next) => next
    case Err(_) => db
  }

  /** What the callers guarantee: the clock never runs backwards, operators only top up and adjust, and
      generated run ids are not empty. The cut-off of a settlement is not constrained here. */
  predicate Legal(db: DB, step: Step) {
    match step
    case Tick(now) => db.clock <= now
    case Move(m) => !m.kind.Debit? && m.run.None?
    case Settle(run, _, _) => run != ""
    case Resolve(_, _, run) => run != ""
    case _ => true
  }

  function Run(db: DB, steps: seq<Step>): DB
    decreases |steps|
  {
    if steps == [] then db else Run(Apply(db, steps[0]), steps[1..])
  }

  predicate LegalRun(db: DB, steps: seq<Step>)
    decreases |steps|
  {
    steps == [] || (Legal(db, steps[0]) && LegalRun(Apply(db, steps[0]), steps[1..]))
  }
}
