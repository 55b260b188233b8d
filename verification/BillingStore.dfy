/** The money tables as they are updated in place, transaction by transaction. */
module BillingStore {
  import opened Outcomes
  import opened BillingPolicy
  import M = BillingModel
  import R = BillingRuns
  import C = BillingCounts
  import Decimal

  /** The buckets a settlement fills while it looks at the rows. */
  datatype Buckets = Buckets(billed: map<int, int>, unpriced: set<int>, held: set<int>, notBillable: set<int>,
                             unknownClass: nat, debited: int)

  function Placed(b: Buckets, id: int, v: M.Verdict, known: bool): Buckets {
    var counted := if known then b else b.(unknownClass := b.unknownClass + 1);
    match v
    case ToHeld => counted.(held := b.held + {id})
    case ToNotBillable => counted.(notBillable := b.notBillable + {id})
    case ToUnpriced => counted.(unpriced := b.unpriced + {id})
    case ToBilled(_) => counted.(debited := b.debited + v.Amount(), billed := b.billed[id := v.Amount()])
    case Refused(_) => counted
  }

  function CountsOf(b: Buckets): C.Counts { C.Counts(|b.billed|, |b.unpriced|, |b.held|, |b.notBillable|, b.unknownClass) }

  datatype RunResult = RunResult(skipped: bool, tenants: seq<string>, tenantsBilled: nat, tenantsFailed: nat, rows: C.Counts,
                                 totalDebited: int)

  // ------------------------------------------------------------------ a whole run over several tenants

  /** Settle tenants one by one; a tenant that fails is skipped. Yields the tables and what was debited. */
  function SettleAll(db: M.DB, run: string, tenants: seq<string>, windowEnd: int): (M.DB, int) {
    if tenants == [] then (db, 0)
    else
      var (before, total) := SettleAll(db, run, tenants[..|tenants| - 1], windowEnd);
      var tenant := tenants[|tenants| - 1];
      match M.SettleTenant(before, run, tenant, windowEnd)
      case Err(_) => (before, total)
      case Ok(after) => (after, total + M.DebitOf(before.prices, before.ledger, tenant, windowEnd))
  }

  lemma NoneSettled(db: M.DB, run: string, windowEnd: int)
    ensures SettleAll(db, run, [], windowEnd) == (db, 0)
  {}

  lemma OneMoreSettled(db: M.DB, run: string, tenants: seq<string>, k: nat, windowEnd: int)
    requires k < |tenants| && forall i, j :: 0 <= i < j < |tenants| ==> tenants[i] != tenants[j]
    ensures tenants[..k + 1] == tenants[..k] + [tenants[k]] && tenants[k] !in tenants[..k]
    ensures var (before, total) := SettleAll(db, run, tenants[..k], windowEnd);
            SettleAll(db, run, tenants[..k + 1], windowEnd)
            == match M.SettleTenant(before, run, tenants[k], windowEnd)
               case Err(_) => (before, total)
               case Ok(after) => (after, total + M.DebitOf(before.prices, before.ledger, tenants[k], windowEnd))
  {
    hide M.SettleTenant, M.DebitOf;
    assert tenants[..k + 1][..k] == tenants[..k];
  }

  ghost predicate Untouched(before: M.DB, after: M.DB, tenant: string) {
    && |before.ledger| == |after.ledger|
    && (forall i :: 0 <= i < |before.ledger| ==>
          if before.ledger[i].usage.tenant == tenant then after.ledger[i] == before.ledger[i]
          else after.ledger[i].usage == before.ledger[i].usage)
    && (tenant in before.wallets <==> tenant in after.wallets)
    && (tenant in before.wallets ==> after.wallets[tenant] == before.wallets[tenant])
  }

  lemma SettleFrame(db: M.DB, run: string, tenant: string, windowEnd: int, other: string)
    requires other != tenant && M.SettleTenant(db, run, tenant, windowEnd).Ok?
    ensures Untouched(db, M.SettleTenant(db, run, tenant, windowEnd).value, other)
  {}

  lemma SettledWindow(db: M.DB, run: string, tenant: string, windowEnd: int)
    requires M.SettleTenant(db, run, tenant, windowEnd).Ok?
    ensures var after := M.SettleTenant(db, run, tenant, windowEnd).value;
            NoneEligible(after.ledger, tenant, windowEnd)
  {
    var after := M.SettleTenant(db, run, tenant, windowEnd).value;
    forall i | 0 <= i < |after.ledger| ensures !M.Eligible(after.ledger[i], tenant, windowEnd) {
      assert after.ledger[i] == M.SettleRow(db.prices, db.ledger[i], run, tenant, windowEnd);
      if M.Eligible(db.ledger[i], tenant, windowEnd) {
        FirstRefusalCovers(db.prices, db.ledger, tenant, windowEnd, i);
      }
    }
  }

  ghost predicate NoneEligible(ledger: seq<M.Row>, tenant: string, windowEnd: int) {
    forall i :: 0 <= i < |ledger| ==> !M.Eligible(ledger[i], tenant, windowEnd)
  }

  lemma UntouchedTwice(a: M.DB, b: M.DB, c: M.DB, tenant: string, windowEnd: int)
    requires Untouched(b, c, tenant)
    ensures Untouched(a, b, tenant) ==> Untouched(a, c, tenant)
    ensures NoneEligible(b.ledger, tenant, windowEnd) ==> NoneEligible(c.ledger, tenant, windowEnd)
  {
    if NoneEligible(b.ledger, tenant, windowEnd) {
      forall i | 0 <= i < |c.ledger| ensures !M.Eligible(c.ledger[i], tenant, windowEnd) {
        assert !M.Eligible(b.ledger[i], tenant, windowEnd);
      }
    }
  }

  /** One tenant's failure stops no other, and no tenant is ever half settled: after the run each listed tenant
      has either no eligible row left, or its rows and its wallet exactly as before. */
  lemma {:induction false} AllOrNothing(db: M.DB, run: string, tenants: seq<string>, windowEnd: int, tenant: string)
    ensures var after := SettleAll(db, run, tenants, windowEnd).0;
            if tenant in tenants then Untouched(db, after, tenant) || NoneEligible(after.ledger, tenant, windowEnd)
            else Untouched(db, after, tenant)
  {
    if tenants != [] {
      var init, last := tenants[..|tenants| - 1], tenants[|tenants| - 1];
      AllOrNothing(db, run, init, windowEnd, tenant);
      assert tenants == init + [last];
      var before := SettleAll(db, run, init, windowEnd).0;
      if M.SettleTenant(before, run, last, windowEnd).Ok? {
        if last == tenant {
          SettledWindow(before, run, last, windowEnd);
        } else {
          SettleFrame(before, run, last, windowEnd, tenant);
          hide M.SettleTenant, Untouched, NoneEligible;
          UntouchedTwice(db, before, M.SettleTenant(before, run, last, windowEnd).value, tenant, windowEnd);
        }
      }
    }
  }

  lemma FirstRefusalCovers(prices: seq<M.Price>, ledger: seq<M.Row>, tenant: string, windowEnd: int, i: nat)
    requires M.FirstRefusal(prices, ledger, tenant, windowEnd) == None && i < |ledger| && M.Eligible(ledger[i], tenant, windowEnd)
    ensures !M.VerdictFor(prices, ledger[i].usage).Refused?
  {}

  function BilledOver(ledger: seq<M.Row>, tenants: seq<string>): int {
    if tenants == [] then 0
    else BilledOver(ledger, tenants[..|tenants| - 1]) + R.BilledSum(ledger, tenants[|tenants| - 1], None)
  }

  lemma {:induction false} BilledOverShift(prices: seq<M.Price>, ledger: seq<M.Row>, run: string, tenant: string, windowEnd: int, others: seq<string>)
    requires R.LedgerSound(ledger) && tenant !in others
    ensures BilledOver(M.SettleLedger(prices, ledger, run, tenant, windowEnd), others) == BilledOver(ledger, others)
  {
    if others != [] {
      BilledOverShift(prices, ledger, run, tenant, windowEnd, others[..|others| - 1]);
      R.SettlementSum(prices, ledger, run, tenant, windowEnd, others[|others| - 1], None);
    }
  }

  /** The total a run reports is what it added to the billed amounts of its tenants. */
  lemma {:induction false} RunTotalIsBilled(db: M.DB, run: string, tenants: seq<string>, windowEnd: int)
    requires R.Sound(db) && run != ""
    requires forall i, j :: 0 <= i < j < |tenants| ==> tenants[i] != tenants[j]
    ensures var (after, total) := SettleAll(db, run, tenants, windowEnd);
            R.Sound(after) && total == BilledOver(after.ledger, tenants) - BilledOver(db.ledger, tenants)
    ensures forall t :: t !in tenants ==>
              R.BilledSum(SettleAll(db, run, tenants, windowEnd).0.ledger, t, None) == R.BilledSum(db.ledger, t, None)
  {
    if tenants != [] {
      var init, last := tenants[..|tenants| - 1], tenants[|tenants| - 1];
      assert tenants == init + [last];
      RunTotalIsBilled(db, run, init, windowEnd);
      var before := SettleAll(db, run, init, windowEnd).0;
      hide R.Sound;
      if M.SettleTenant(before, run, last, windowEnd).Ok? {
        R.SettleKeeps(before, run, last, windowEnd);
        SoundLedger(before);
        BilledOverShift(before.prices, before.ledger, run, last, windowEnd, init);
        forall t ensures R.BilledSum(M.SettleLedger(before.prices, before.ledger, run, last, windowEnd), t, None)
                         == R.BilledSum(before.ledger, t, None)
                            + (if t == last then M.DebitOf(before.prices, before.ledger, last, windowEnd) else 0)
        {
          R.SettlementSum(before.prices, before.ledger, run, last, windowEnd, t, None);
        }
      }
    }
  }

  lemma SoundLedger(db: M.DB)
    requires R.Sound(db)
    ensures R.LedgerSound(db.ledger)
  {}

  lemma {:induction false} EarlierRefusal(prices: seq<M.Price>, ledger: seq<M.Row>, tenant: string, windowEnd: int, k: nat)
    requires k <= |ledger| && M.FirstRefusal(prices, ledger[..k], tenant, windowEnd).Some?
    ensures M.FirstRefusal(prices, ledger, tenant, windowEnd) == M.FirstRefusal(prices, ledger[..k], tenant, windowEnd)
    decreases |ledger| - k
  {
    if k == |ledger| {
      assert ledger[..k] == ledger;
    } else {
      assert ledger[..k + 1][..k] == ledger[..k];
      assert M.FirstRefusal(prices, ledger[..k + 1], tenant, windowEnd) == M.FirstRefusal(prices, ledger[..k], tenant, windowEnd);
      EarlierRefusal(prices, ledger, tenant, windowEnd, k + 1);
    }
  }

  lemma NextRow(prices: seq<M.Price>, ledger: seq<M.Row>, i: nat, tenant: string, windowEnd: int)
    requires i < |ledger|
    ensures var v := M.VerdictFor(prices, ledger[i].usage);
            var eligible := M.Eligible(ledger[i], tenant, windowEnd);
            && M.DebitOf(prices, ledger[..i + 1], tenant, windowEnd)
               == M.DebitOf(prices, ledger[..i], tenant, windowEnd) + (if eligible then v.Amount() else 0)
            && (M.FirstRefusal(prices, ledger[..i], tenant, windowEnd) == None ==>
                  M.FirstRefusal(prices, ledger[..i + 1], tenant, windowEnd)
                  == if eligible && v.Refused? then Some(v.error) else None)
  {
    assert ledger[..i + 1][..i] == ledger[..i];
  }

  // ------------------------------------------------------------------ the store

  class Store {
    var prices: seq<M.Price>
    var ledger: seq<M.Row>
    var wallets: map<string, int>
    var journal: seq<M.Transaction>
    var resolutions: seq<M.Resolution>
    var clock: int

    function View(): M.DB
      reads this
    {
      M.DB(prices, ledger, wallets, journal, resolutions, clock)
    }

    constructor ()
      ensures View() == M.EMPTY_DB
    {
      prices, ledger, wallets, journal, resolutions, clock := [], [], map[], [], [], 0;
    }

    /** A failed statement rolls its transaction back: on an error the tables are as before. */
    twostate predicate Committed(spec: Result<M.DB, M.BillingError>, new error: Option<M.BillingError>)
      reads this
    {
      match spec
      case Ok(next) => error == None && View() == next
      case Err(e) => error == Some(e) && View() == old(View())
    }

    method EnsureWallet(tenant: string) returns (error: Option<M.BillingError>)
      modifies this
      ensures Committed(M.EnsureWallet(old(View()), tenant), error)
    {
      if tenant == "" { return Some(M.MovementIncomplete); }
      if tenant !in wallets {
        wallets := wallets[tenant := 0];
      }
      return None;
    }

    method ApplyMovement(m: M.Movement) returns (error: Option<M.BillingError>)
      modifies this
      ensures Committed(M.ApplyMovement(old(View()), m), error)
    {
      if m.id == "" || m.tenant == "" { return Some(M.MovementIncomplete); }
      if !Decimal.Storable(m.amount) { return Some(M.NotStorable); }
      match m.kind {
        case TopUp => if m.amount <= 0 { return Some(M.WrongSign); }
        case Debit => if m.amount >= 0 { return Some(M.WrongSign); }
        case Adjustment => if m.amount == 0 { return Some(M.WrongSign); }
      }
      if m.tenant !in wallets { return Some(M.WalletNotFound); }
      var after := wallets[m.tenant] + m.amount;
      if !Decimal.Storable(after) { return Some(M.NotStorable); }
      if exists t :: t in journal && t.movement.id == m.id { return Some(M.DuplicateKey); }
      wallets := wallets[m.tenant := after];
      journal := journal + [M.Transaction(m, after)];
      return None;
    }

    method InsertModelPrice(p: M.Price, now: int) returns (error: Option<M.BillingError>)
      modifies this
      ensures Committed(M.InsertModelPrice(old(View()), p, now), error)
    {
      if p.id == "" || p.provider == "" || p.model == "" { return Some(M.PriceRejected); }
      if p.unitScale <= 0 { return Some(M.PriceRejected); }
      if p.effectiveFrom <= now { return Some(M.PriceNotInFuture); }
      var amounts := [p.input, p.output, p.cacheRead, p.cacheWrite];
      for k := 0 to |amounts|
        invariant forall j :: 0 <= j < k ==> Decimal.Storable(amounts[j]) && amounts[j] >= 0
      {
        if !Decimal.Storable(amounts[k]) || amounts[k] < 0 {
          assert amounts[0] == p.input && amounts[1] == p.output && amounts[2] == p.cacheRead && amounts[3] == p.cacheWrite;
          return Some(M.PriceRejected);
        }
      }
      assert amounts[0] == p.input && amounts[1] == p.output && amounts[2] == p.cacheRead && amounts[3] == p.cacheWrite;
      if exists q :: q in prices && M.SamePriceKey(p, q) { return Some(M.DuplicateKey); }
      prices := prices + [p];
      return None;
    }

    method InsertUsage(u: M.Usage)
      modifies this
      ensures View() == M.InsertUsage(old(View()), u)
    {
      if M.FindEvent(ledger, u.eventId) < 0 {
        ledger := ledger + [M.Row(u, M.Pending, None, None)];
      }
    }

    /** UPDATE ... SET billing_state, billing_run_id WHERE id = ANY(ids). */
    method MarkRows(ids: set<int>, state: M.BillingState, run: string)
      modifies this`ledger
      ensures |ledger| == |old(ledger)|
      ensures forall i :: 0 <= i < |ledger| ==>
                ledger[i] == if i in ids then old(ledger)[i].(state := state, run := Some(run)) else old(ledger)[i]
    {
      for k := 0 to |ledger|
        invariant |ledger| == |old(ledger)|
        invariant forall i :: 0 <= i < |ledger| ==>
                    ledger[i] == if i < k && i in ids then old(ledger)[i].(state := state, run := Some(run)) else old(ledger)[i]
      {
        if k in ids {
          ledger := ledger[k := ledger[k].(state := state, run := Some(run))];
        }
      }
    }

    /** One UPDATE per billed row. */
    method MarkBilled(billed: map<int, int>, run: string)
      requires forall id :: id in billed ==> 0 <= id < |ledger|
      modifies this`ledger
      ensures |ledger| == |old(ledger)|
      ensures forall i :: 0 <= i < |ledger| ==>
                ledger[i] == if i in billed then old(ledger)[i].(state := M.Billed, amount := Some(billed[i]), run := Some(run))
                             else old(ledger)[i]
    {
      for k := 0 to |ledger|
        invariant |ledger| == |old(ledger)|
        invariant forall i :: 0 <= i < |ledger| ==>
                    ledger[i] == if i < k && i in billed
                                 then old(ledger)[i].(state := M.Billed, amount := Some(billed[i]), run := Some(run))
                                 else old(ledger)[i]
      {
        if k in billed {
          ledger := ledger[k := ledger[k].(state := M.Billed, amount := Some(billed[k]), run := Some(run))];
        }
      }
    }

    /** The buckets hold exactly the eligible rows before `k`, each under its verdict. */
    ghost predicate Judged(k: nat, tenant: string, windowEnd: int, b: Buckets)
      reads this`prices, this`ledger
      requires k <= |ledger|
    {
      && (forall i :: i in b.billed || i in b.unpriced || i in b.held || i in b.notBillable ==> 0 <= i < k)
      && (forall i :: 0 <= i < k ==> InItsBucket(i, tenant, windowEnd, b))
      && b.debited == M.DebitOf(prices, ledger[..k], tenant, windowEnd)
      && M.FirstRefusal(prices, ledger[..k], tenant, windowEnd) == None
    }

    ghost predicate InItsBucket(i: nat, tenant: string, windowEnd: int, b: Buckets)
      reads this`prices, this`ledger
      requires i < |ledger|
    {
      var v := M.VerdictFor(prices, ledger[i].usage);
      var eligible := M.Eligible(ledger[i], tenant, windowEnd);
      && (i in b.billed <==> eligible && v.ToBilled?)
      && (i in b.billed ==> b.billed[i] == v.Amount())
      && (i in b.unpriced <==> eligible && v.ToUnpriced?)
      && (i in b.held <==> eligible && v.ToHeld?)
      && (i in b.notBillable <==> eligible && v.ToNotBillable?)
    }

    /** What the policy, and for chargeable usage the price table, decide about one row. */
    method JudgeRow(usage: M.Usage) returns (v: M.Verdict, known: bool)
      ensures v == M.VerdictFor(prices, usage)
      ensures known == DispositionFor(M.ClassOf(usage)).1
    {
      var ruling := DispositionFor(M.ClassOf(usage));
      known := ruling.1;
      match ruling.0 {
        case Hold => v := M.ToHeld;
        case WriteOff => v := M.ToNotBillable;
        case Bill =>
          var price := M.PriceAt(prices, usage.provider, usage.model, usage.occurredAt);
          if price.None? {
            v := M.ToUnpriced;
          } else {
            var amount := LineAmount(usage, price.value);
            v := if amount.Err? then M.Refused(amount.error) else M.ToBilled(amount.value);
          }
      }
    }

    /** Look at every eligible row once; the first row that cannot be priced stops the settlement. */
    method JudgeRows(tenant: string, windowEnd: int) returns (r: Result<Buckets, M.BillingError>)
      ensures r.Ok? ==> Judged(|ledger|, tenant, windowEnd, r.value)
      ensures r.Ok? ==> r.value.unknownClass == |C.UnknownBefore(ledger, |ledger|, tenant, windowEnd)|
      ensures r.Err? ==> M.FirstRefusal(prices, ledger, tenant, windowEnd) == Some(r.error)
    {
      hide M.VerdictFor, M.DebitOf, M.FirstRefusal, C.UnknownBefore;
      var b := Buckets(map[], {}, {}, {}, 0, 0);
      NothingJudged(tenant, windowEnd, b);
      for i := 0 to |ledger|
        invariant Judged(i, tenant, windowEnd, b)
        invariant b.unknownClass == |C.UnknownBefore(ledger, i, tenant, windowEnd)|
      {
        NextRow(prices, ledger, i, tenant, windowEnd);
        C.UnknownNext(ledger, i, tenant, windowEnd);
        if ledger[i].usage.tenant != tenant || ledger[i].state != M.Pending || ledger[i].usage.occurredAt >= windowEnd { continue; }
        var v, known := JudgeRow(ledger[i].usage);
        if v.Refused? {
          EarlierRefusal(prices, ledger, tenant, windowEnd, i + 1);
          return Err(v.error);
        }
        PlacedStaysJudged(i, tenant, windowEnd, b, known);
        b := Placed(b, i, v, known);
      }
      assert ledger[..|ledger|] == ledger;
      return Ok(b);
    }

    lemma NothingJudged(tenant: string, windowEnd: int, b: Buckets)
      requires b == Buckets(map[], {}, {}, {}, 0, 0)
      ensures Judged(0, tenant, windowEnd, b) && C.UnknownBefore(ledger, 0, tenant, windowEnd) == {}
    {}

    lemma PlacedStaysJudged(i: nat, tenant: string, windowEnd: int, b: Buckets, known: bool)
      requires i < |ledger| && Judged(i, tenant, windowEnd, b) && M.Eligible(ledger[i], tenant, windowEnd)
      requires !M.VerdictFor(prices, ledger[i].usage).Refused?
      ensures Judged(i + 1, tenant, windowEnd, Placed(b, i, M.VerdictFor(prices, ledger[i].usage), known))
    {
      hide M.VerdictFor, M.DebitOf, M.FirstRefusal, M.Eligible;
      NextRow(prices, ledger, i, tenant, windowEnd);
      var v := M.VerdictFor(prices, ledger[i].usage);
      var next := Placed(b, i, v, known);
      forall j | 0 <= j < i + 1 ensures InItsBucket(j, tenant, windowEnd, next) {
        assert j < i ==> InItsBucket(j, tenant, windowEnd, b);
      }
    }

    /** Write the buckets to the ledger. */
    method StampRows(b: Buckets, run: string, tenant: string, windowEnd: int)
      requires Judged(|ledger|, tenant, windowEnd, b)
      modifies this`ledger
      ensures ledger == M.SettleLedger(prices, old(ledger), run, tenant, windowEnd)
    {
      ghost var before := ledger;
      assert before[..|before|] == before;
      MarkBilled(b.billed, run);
      MarkRows(b.unpriced, M.Unpriced, run);
      MarkRows(b.held, M.Held, run);
      MarkRows(b.notBillable, M.NotBillable, run);
      forall i | 0 <= i < |ledger| ensures ledger[i] == M.SettleRow(prices, before[i], run, tenant, windowEnd) {
        assert old(InItsBucket(i, tenant, windowEnd, b));
        if M.Eligible(before[i], tenant, windowEnd) {
          FirstRefusalCovers(prices, before, tenant, windowEnd, i);
        }
      }
    }

    /** The buckets hold the rows that change state, bucket by bucket. */
    lemma BucketsCount(b: Buckets, run: string, tenant: string, windowEnd: int)
      requires Judged(|ledger|, tenant, windowEnd, b)
      requires b.unknownClass == |C.UnknownBefore(ledger, |ledger|, tenant, windowEnd)|
      ensures C.Moved(ledger, M.SettleLedger(prices, ledger, run, tenant, windowEnd), CountsOf(b))
    {
      hide C.UnknownBefore, C.InState, C.HeldUnknown, M.VerdictFor, M.SettleLedger, Judged;
      BucketsAreVerdicts(b, tenant, windowEnd);
      C.SettlementMoves(prices, ledger, run, tenant, windowEnd, M.Billed);
      C.SettlementMoves(prices, ledger, run, tenant, windowEnd, M.Unpriced);
      C.SettlementMoves(prices, ledger, run, tenant, windowEnd, M.Held);
      C.SettlementMoves(prices, ledger, run, tenant, windowEnd, M.NotBillable);
      C.SettlementHoldsUnknown(prices, ledger, run, tenant, windowEnd);
    }

    lemma BucketsAreVerdicts(b: Buckets, tenant: string, windowEnd: int)
      requires Judged(|ledger|, tenant, windowEnd, b)
      ensures |b.billed| == |C.Verdicts(prices, ledger, tenant, windowEnd, M.Billed)|
      ensures b.unpriced == C.Verdicts(prices, ledger, tenant, windowEnd, M.Unpriced)
      ensures b.held == C.Verdicts(prices, ledger, tenant, windowEnd, M.Held)
      ensures b.notBillable == C.Verdicts(prices, ledger, tenant, windowEnd, M.NotBillable)
    {
      hide M.VerdictFor, M.DebitOf, M.FirstRefusal, M.Eligible;
      var billed, unpriced := C.Verdicts(prices, ledger, tenant, windowEnd, M.Billed), C.Verdicts(prices, ledger, tenant, windowEnd, M.Unpriced);
      var held, notBillable := C.Verdicts(prices, ledger, tenant, windowEnd, M.Held), C.Verdicts(prices, ledger, tenant, windowEnd, M.NotBillable);
      forall i
        ensures (i in b.billed.Keys <==> i in billed) && (i in b.unpriced <==> i in unpriced)
        ensures (i in b.held <==> i in held) && (i in b.notBillable <==> i in notBillable)
      {
        if 0 <= i < |ledger| { assert InItsBucket(i, tenant, windowEnd, b); }
      }
      C.Same(b.billed.Keys, billed);
      C.Same(b.unpriced, unpriced);
      C.Same(b.held, held);
      C.Same(b.notBillable, notBillable);
    }

    lemma BucketsCharge(b: Buckets, run: string, tenant: string, windowEnd: int)
      requires Judged(|ledger|, tenant, windowEnd, b)
      ensures var after := M.SettleLedger(prices, ledger, run, tenant, windowEnd);
              && !C.HasEligible(after, tenant, windowEnd)
              && (C.Charged(ledger, after, tenant) <==> b.billed.Keys + b.unpriced != {})
    {
      hide M.VerdictFor, M.DebitOf;
      assert ledger[..|ledger|] == ledger;
      var after := M.SettleLedger(prices, ledger, run, tenant, windowEnd);
      forall i | 0 <= i < |ledger|
        ensures after[i] == M.SettleRow(prices, ledger[i], run, tenant, windowEnd) && !M.Eligible(after[i], tenant, windowEnd)
        ensures InItsBucket(i, tenant, windowEnd, b)
      {
        if M.Eligible(ledger[i], tenant, windowEnd) { FirstRefusalCovers(prices, ledger, tenant, windowEnd, i); }
      }
      var charged := b.billed.Keys + b.unpriced;
      if i :| i in charged {
        assert after[i].state == M.Billed || after[i].state == M.Unpriced;
      } else {
        C.Same(charged, {});
      }
    }

    /** One tenant's settlement: judge every eligible row, debit the sum of the rounded amounts once, then
        stamp the rows. */
    method SettleTenant(run: string, tenant: string, windowEnd: int) returns (r: Result<Buckets, M.BillingError>)
      modifies this
      ensures Committed(M.SettleTenant(old(View()), run, tenant, windowEnd), if r.Ok? then None else Some(r.error))
      ensures r.Ok? ==> old(Judged(|ledger|, tenant, windowEnd, r.value))
      ensures r.Ok? ==> C.Moved(old(ledger), ledger, CountsOf(r.value)) && C.OnlyTheirs(old(ledger), ledger, [tenant])
      ensures r.Ok? ==> !C.HasEligible(ledger, tenant, windowEnd)
      ensures r.Ok? ==> (C.Charged(old(ledger), ledger, tenant) <==> r.value.billed.Keys + r.value.unpriced != {})
    {
      hide C.Moved, C.OnlyTheirs, C.HasEligible, C.Charged;
      r := JudgeRows(tenant, windowEnd);
      if r.Err? { return; }
      var b := r.value;
      BucketsCount(b, run, tenant, windowEnd);
      BucketsCharge(b, run, tenant, windowEnd);
      C.SettlesOnlyTheirs(prices, ledger, run, tenant, windowEnd);
      assert ledger[..|ledger|] == ledger;
      if b.debited > 0 {
        var error := ApplyMovement(M.DebitMovement(run, tenant, b.debited));
        if error.Some? { return Err(error.value); }
      }
      StampRows(b, run, tenant, windowEnd);
    }

    /** What a ruling makes of a held row: written off, unpriced, or billed at the price of its own time. */
    method RuleRow(row: M.Row, decision: M.Decision, run: string) returns (r: Result<M.Row, M.BillingError>)
      ensures r == M.Ruled(prices, row, decision, run)
    {
      if decision == M.WriteItOff {
        return Ok(row.(state := M.NotBillable, amount := None, run := None));
      }
      var price := M.PriceAt(prices, row.usage.provider, row.usage.model, row.usage.occurredAt);
      if price.None? {
        return Ok(row.(state := M.Unpriced, amount := None, run := Some(run)));
      }
      var amount := LineAmount(row.usage, price.value);
      if amount.Err? { return Err(amount.error); }
      return Ok(row.(state := M.Billed, amount := Some(Decimal.Round(amount.value)), run := Some(run)));
    }

    /** A ruling on a held row, as a billing run of one row. */
    method ResolveHeld(eventId: string, decision: M.Decision, run: string) returns (error: Option<M.BillingError>)
      modifies this
      ensures Committed(M.ResolveHeld(old(View()), eventId, decision, run), error)
    {
      hide M.Ruled;
      var i := M.FindEvent(ledger, eventId);
      if i < 0 { return Some(M.NoSuchRow); }
      if ledger[i].state != M.Held { return Some(M.NotHeld); }
      var ruled := RuleRow(ledger[i], decision, run);
      if ruled.Err? { return Some(ruled.error); }
      var row := ruled.value;
      var savedWallets, savedJournal := wallets, journal;
      var amount := M.RowAmount(row);
      if amount > 0 {
        error := ApplyMovement(M.DebitMovement(run, row.usage.tenant, amount));
        if error.Some? { return; }
      }
      if exists r :: r in resolutions && r.eventId == eventId {
        wallets, journal := savedWallets, savedJournal;
        return Some(M.DuplicateKey);
      }
      ledger := ledger[i := row];
      resolutions := resolutions + [M.Resolution(eventId, row.usage.tenant, decision, row.state, row.amount, row.run)];
      return None;
    }

    /** Tenants with a pending row before the cut-off, each once. */
    method PendingTenants(windowEnd: int) returns (tenants: seq<string>)
      ensures forall i, j :: 0 <= i < j < |tenants| ==> tenants[i] != tenants[j]
      ensures forall t :: t in tenants <==> C.HasEligible(ledger, t, windowEnd)
    {
      tenants := [];
      for k := 0 to |ledger|
        invariant forall i, j :: 0 <= i < j < |tenants| ==> tenants[i] != tenants[j]
        invariant forall t :: t in tenants <==> exists i :: 0 <= i < k && M.Eligible(ledger[i], t, windowEnd)
      {
        var t := ledger[k].usage.tenant;
        if M.Eligible(ledger[k], t, windowEnd) && t !in tenants {
          tenants := tenants + [t];
        }
      }
    }

    /** One invocation of the job. With no price configured it must not touch a row. */
    method RunOnce(run: string, windowEnd: int) returns (result: RunResult)
      modifies this
      ensures result.skipped <==> old(prices) == []
      ensures result.skipped ==> View() == old(View())
      ensures !result.skipped ==>
                && (View(), result.totalDebited) == SettleAll(old(View()), run, result.tenants, windowEnd)
                && (forall i, j :: 0 <= i < j < |result.tenants| ==> result.tenants[i] != result.tenants[j])
                && (forall t :: t in result.tenants <==> C.HasEligible(old(ledger), t, windowEnd))
                && C.Moved(old(ledger), ledger, result.rows)
                && C.Told(old(ledger), ledger, result.tenants, windowEnd, result.tenantsBilled, result.tenantsFailed)
    {
      hide M.SettleTenant, M.DebitOf, SettleAll, C.Moved, C.Told, C.OnlyTheirs, C.HasEligible, C.Charged;
      C.NothingMoved(ledger);
      if prices == [] {
        return RunResult(true, [], 0, 0, C.NONE, 0);
      }
      var tenants := PendingTenants(windowEnd);
      var billed, failed, rows, total := 0, 0, C.NONE, 0;
      C.NobodyYet(ledger, windowEnd);
      NoneSettled(View(), run, windowEnd);
      assert tenants[..0] == [];
      for k := 0 to |tenants|
        invariant (View(), total) == SettleAll(old(View()), run, tenants[..k], windowEnd)
        invariant C.Moved(old(ledger), ledger, rows) && C.Told(old(ledger), ledger, tenants[..k], windowEnd, billed, failed)
      {
        var tenant := tenants[k];
        OneMoreSettled(old(View()), run, tenants, k, windowEnd);
        assert ledger[..|ledger|] == ledger;
        ghost var before := ledger;
        var settled := SettleTenant(run, tenant, windowEnd);
        if settled.Err? {
          C.ToldOfFailed(old(ledger), ledger, tenants[..k], tenant, windowEnd, billed, failed);
          failed := failed + 1;
        } else {
          var b := settled.value;
          C.MovedTwice(old(ledger), before, ledger, rows, CountsOf(b));
          C.ToldOfNext(old(ledger), before, ledger, tenants[..k], tenant, windowEnd, billed, failed);
          rows := C.Plus(rows, CountsOf(b));
          if |b.billed| > 0 || |b.unpriced| > 0 {
            billed := billed + 1;
          }
          total := total + b.debited;
        }
      }
      assert tenants[..|tenants|] == tenants;
      return RunResult(false, tenants, billed, failed, rows, total);
    }
  }

  /** The exact cost of a row, one token class at a time. */
  method LineAmount(u: M.Usage, p: M.Price) returns (r: Result<real, M.BillingError>)
    ensures r == M.LineAmount(u, p)
  {
    if p.unitScale <= 0 { return Err(M.BadUnitScale); }
    var parts := [(u.tokensIn, p.input), (u.tokensOut, p.output), (u.cacheRead, p.cacheRead), (u.cacheWrite, p.cacheWrite)];
    assert parts[0] == (u.tokensIn, p.input) && parts[1] == (u.tokensOut, p.output);
    assert parts[2] == (u.cacheRead, p.cacheRead) && parts[3] == (u.cacheWrite, p.cacheWrite);
    var total := 0;
    for k := 0 to |parts|
      invariant total == PartialCost(parts, k)
      invariant forall j :: 0 <= j < k ==> parts[j].0 >= 0
    {
      if parts[k].0 == 0 { continue; }
      if parts[k].0 < 0 { return Err(M.NegativeTokens); }
      total := total + parts[k].0 * parts[k].1;
    }
    FourParts(parts);
    return Ok(total as real / p.unitScale as real);
  }

  function PartialCost(parts: seq<(int, int)>, k: nat): int
    requires k <= |parts|
  {
    if k == 0 then 0 else PartialCost(parts, k - 1) + parts[k - 1].0 * parts[k - 1].1
  }

  lemma FourParts(parts: seq<(int, int)>)
    requires |parts| == 4
    ensures PartialCost(parts, 4)
            == parts[0].0 * parts[0].1 + parts[1].0 * parts[1].1 + parts[2].0 * parts[2].1 + parts[3].0 * parts[3].1
  {
    assert PartialCost(parts, 0) == 0;
    assert PartialCost(parts, 1) == parts[0].0 * parts[0].1;
    assert PartialCost(parts, 2) == parts[0].0 * parts[0].1 + parts[1].0 * parts[1].1;
  }
}
