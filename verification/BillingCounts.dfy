/** What the numbers a billing run reports mean: they count the rows and the tenants the run moved. */
module BillingCounts {
  import opened BillingPolicy
  import M = BillingModel

  datatype Counts = Counts(billed: nat, unpriced: nat, held: nat, notBillable: nat, unknownClass: nat)

  const NONE := Counts(0, 0, 0, 0, 0)

  function Plus(a: Counts, b: Counts): Counts {
    Counts(a.billed + b.billed, a.unpriced + b.unpriced, a.held + b.held, a.notBillable + b.notBillable,
           a.unknownClass + b.unknownClass)
  }

  predicate Known(row: M.Row) { DispositionFor(M.ClassOf(row.usage)).1 }

  // ------------------------------------------------------------------ rows

  function InState(ledger: seq<M.Row>, state: M.BillingState): set<int> {
    set i | 0 <= i < |ledger| && ledger[i].state == state
  }

  /** Held rows of a class the policy table does not list. */
  function HeldUnknown(ledger: seq<M.Row>): set<int> {
    set i | 0 <= i < |ledger| && ledger[i].state == M.Held && !Known(ledger[i])
  }

  /** The rows before `k` that are up for settlement and of an unlisted class. */
  function UnknownBefore(ledger: seq<M.Row>, k: int, tenant: string, windowEnd: int): set<int> {
    set i | 0 <= i < k && i < |ledger| && M.Eligible(ledger[i], tenant, windowEnd) && !Known(ledger[i])
  }

  /** Each number is by how many rows its state has grown. */
  predicate Moved(before: seq<M.Row>, after: seq<M.Row>, c: Counts) {
    && |InState(after, M.Billed)| == |InState(before, M.Billed)| + c.billed
    && |InState(after, M.Unpriced)| == |InState(before, M.Unpriced)| + c.unpriced
    && |InState(after, M.Held)| == |InState(before, M.Held)| + c.held
    && |InState(after, M.NotBillable)| == |InState(before, M.NotBillable)| + c.notBillable
    && |HeldUnknown(after)| == |HeldUnknown(before)| + c.unknownClass
  }

  lemma MovedTwice(a: seq<M.Row>, b: seq<M.Row>, c: seq<M.Row>, first: Counts, second: Counts)
    requires Moved(a, b, first) && Moved(b, c, second)
    ensures Moved(a, c, Plus(first, second))
  {
    hide InState, HeldUnknown;
  }

  lemma NothingMoved(ledger: seq<M.Row>)
    ensures Moved(ledger, ledger, NONE)
  {}

  /** The rows up for settlement that get one verdict. */
  function Verdicts(prices: seq<M.Price>, ledger: seq<M.Row>, tenant: string, windowEnd: int, state: M.BillingState): set<int> {
    set i | 0 <= i < |ledger| && M.Eligible(ledger[i], tenant, windowEnd)
            && M.Stamp(ledger[i], M.VerdictFor(prices, ledger[i].usage), "").state == state
  }

  /** A settlement moves each row up for it into the state of its verdict, and no other row. */
  lemma SettlementMoves(prices: seq<M.Price>, ledger: seq<M.Row>, run: string, tenant: string, windowEnd: int, state: M.BillingState)
    requires state != M.Pending
    ensures var after := M.SettleLedger(prices, ledger, run, tenant, windowEnd);
            |InState(after, state)| == |InState(ledger, state)| + |Verdicts(prices, ledger, tenant, windowEnd, state)|
  {
    hide M.VerdictFor, M.SettleRow, M.Stamp, M.Eligible;
    var after, added := M.SettleLedger(prices, ledger, run, tenant, windowEnd), Verdicts(prices, ledger, tenant, windowEnd, state);
    forall i | 0 <= i < |ledger|
      ensures after[i].state == state <==> ledger[i].state == state || i in added
      ensures !(ledger[i].state == state && i in added)
    {
      RowMoves(prices, ledger[i], run, tenant, windowEnd, state);
    }
    Joined(InState(ledger, state), added, InState(after, state));
  }

  lemma RowMoves(prices: seq<M.Price>, row: M.Row, run: string, tenant: string, windowEnd: int, state: M.BillingState)
    requires state != M.Pending
    ensures var joins := M.Eligible(row, tenant, windowEnd) && M.Stamp(row, M.VerdictFor(prices, row.usage), "").state == state;
            && (M.SettleRow(prices, row, run, tenant, windowEnd).state == state <==> row.state == state || joins)
            && !(row.state == state && joins)
  {
    hide M.VerdictFor;
  }

  lemma Joined(a: set<int>, b: set<int>, c: set<int>)
    requires a !! b && a <= c && b <= c && forall i :: i in c ==> i in a || i in b
    ensures |c| == |a| + |b|
  {
    forall i | i in c ensures i in a + b {}
    assert c == a + b;
  }

  lemma Same(a: set<int>, b: set<int>)
    requires forall i :: i in a <==> i in b
    ensures a == b
  {
    forall i | i in a ensures i in b {}
    forall i | i in b ensures i in a {}
  }

  lemma UnknownNext(ledger: seq<M.Row>, k: nat, tenant: string, windowEnd: int)
    requires k < |ledger|
    ensures |UnknownBefore(ledger, k + 1, tenant, windowEnd)|
         == |UnknownBefore(ledger, k, tenant, windowEnd)| + if M.Eligible(ledger[k], tenant, windowEnd) && !Known(ledger[k]) then 1 else 0
  {
    hide M.Eligible, Known;
    var added := if M.Eligible(ledger[k], tenant, windowEnd) && !Known(ledger[k]) then {k} else {};
    Joined(UnknownBefore(ledger, k, tenant, windowEnd), added, UnknownBefore(ledger, k + 1, tenant, windowEnd));
  }

  /** An unlisted class is held, so the unlisted rows a settlement meets become held rows. */
  lemma SettlementHoldsUnknown(prices: seq<M.Price>, ledger: seq<M.Row>, run: string, tenant: string, windowEnd: int)
    ensures |HeldUnknown(M.SettleLedger(prices, ledger, run, tenant, windowEnd))|
         == |HeldUnknown(ledger)| + |UnknownBefore(ledger, |ledger|, tenant, windowEnd)|
  {
    var after, added := M.SettleLedger(prices, ledger, run, tenant, windowEnd), UnknownBefore(ledger, |ledger|, tenant, windowEnd);
    forall i | 0 <= i < |ledger| ensures i in HeldUnknown(after) <==> i in HeldUnknown(ledger) || i in added {
      assert after[i] == M.SettleRow(prices, ledger[i], run, tenant, windowEnd);
      UnknownIsHeld(prices, ledger[i]);
    }
    Joined(HeldUnknown(ledger), added, HeldUnknown(after));
  }

  lemma UnknownIsHeld(prices: seq<M.Price>, row: M.Row)
    ensures !Known(row) ==> M.VerdictFor(prices, row.usage) == M.ToHeld
  {
    PolicyMeaning(M.ClassOf(row.usage));
  }

  // ------------------------------------------------------------------ tenants

  predicate HasEligible(ledger: seq<M.Row>, tenant: string, windowEnd: int) {
    exists i :: 0 <= i < |ledger| && M.Eligible(ledger[i], tenant, windowEnd)
  }

  /** Some pending row of the tenant has been billed or found without a price. */
  predicate Charged(before: seq<M.Row>, after: seq<M.Row>, tenant: string) {
    exists i :: 0 <= i < |before| && i < |after| && before[i].usage.tenant == tenant && before[i].state == M.Pending
                && (after[i].state == M.Billed || after[i].state == M.Unpriced)
  }

  function StillEligible(ledger: seq<M.Row>, tenants: seq<string>, windowEnd: int): set<string> {
    set t | t in tenants && HasEligible(ledger, t, windowEnd)
  }

  function ChargedOf(before: seq<M.Row>, after: seq<M.Row>, tenants: seq<string>): set<string> {
    set t | t in tenants && Charged(before, after, t)
  }

  /** Only rows of these tenants have changed, and no usage has. */
  predicate OnlyTheirs(before: seq<M.Row>, after: seq<M.Row>, tenants: seq<string>) {
    |before| == |after| &&
    forall i :: 0 <= i < |before| ==>
      after[i].usage == before[i].usage && (before[i].usage.tenant in tenants || after[i] == before[i])
  }

  /** What a run over `tenants` reports about them. */
  predicate Told(before: seq<M.Row>, after: seq<M.Row>, tenants: seq<string>, windowEnd: int, billed: nat, failed: nat) {
    && OnlyTheirs(before, after, tenants)
    && billed == |ChargedOf(before, after, tenants)|
    && failed == |StillEligible(after, tenants, windowEnd)|
  }

  lemma SameElsewhere(before: seq<M.Row>, mid: seq<M.Row>, after: seq<M.Row>, tenants: seq<string>, next: string, windowEnd: int, t: string)
    requires OnlyTheirs(before, mid, tenants) && OnlyTheirs(mid, after, [next]) && t != next
    ensures HasEligible(mid, t, windowEnd) <==> HasEligible(after, t, windowEnd)
    ensures Charged(before, mid, t) <==> Charged(before, after, t)
  {
    assert forall i :: 0 <= i < |mid| && mid[i].usage.tenant == t ==> after[i] == mid[i];
    if HasEligible(after, t, windowEnd) {
      var i :| 0 <= i < |after| && M.Eligible(after[i], t, windowEnd);
      assert M.Eligible(mid[i], t, windowEnd);
    }
    if HasEligible(mid, t, windowEnd) {
      var i :| 0 <= i < |mid| && M.Eligible(mid[i], t, windowEnd);
      assert M.Eligible(after[i], t, windowEnd);
    }
  }

  /** One more tenant: it counts as failed if it is left with a row up for settlement, and as billed if a row of it was
      charged or found without a price. */
  lemma ToldOfNext(before: seq<M.Row>, mid: seq<M.Row>, after: seq<M.Row>, tenants: seq<string>, next: string, windowEnd: int,
                   billed: nat, failed: nat)
    requires Told(before, mid, tenants, windowEnd, billed, failed) && next !in tenants && OnlyTheirs(mid, after, [next])
    ensures Told(before, after, tenants + [next], windowEnd,
                 billed + (if Charged(mid, after, next) then 1 else 0),
                 failed + (if HasEligible(after, next, windowEnd) then 1 else 0))
  {
    hide HasEligible, Charged, OnlyTheirs;
    forall t | t in tenants
      ensures (HasEligible(mid, t, windowEnd) <==> HasEligible(after, t, windowEnd)) && (Charged(before, mid, t) <==> Charged(before, after, t))
    {
      SameElsewhere(before, mid, after, tenants, next, windowEnd, t);
    }
    FirstCharged(before, mid, after, tenants, next);
    OnlyTheirsTwice(before, mid, after, tenants, next);
    NextJoins(before, mid, after, tenants, next, windowEnd);
  }

  /** A tenant whose settlement failed keeps the rows that made it one of the run's tenants. */
  lemma ToldOfFailed(before: seq<M.Row>, mid: seq<M.Row>, tenants: seq<string>, next: string, windowEnd: int, billed: nat, failed: nat)
    requires Told(before, mid, tenants, windowEnd, billed, failed) && next !in tenants && HasEligible(before, next, windowEnd)
    ensures Told(before, mid, tenants + [next], windowEnd, billed, failed + 1)
  {
    var i :| 0 <= i < |before| && M.Eligible(before[i], next, windowEnd);
    assert M.Eligible(mid[i], next, windowEnd);
    assert OnlyTheirs(mid, mid, [next]) && !Charged(mid, mid, next);
    ToldOfNext(before, mid, mid, tenants, next, windowEnd, billed, failed);
  }

  lemma NobodyYet(ledger: seq<M.Row>, windowEnd: int)
    ensures Told(ledger, ledger, [], windowEnd, 0, 0)
  {
    assert ChargedOf(ledger, ledger, []) == {} && StillEligible(ledger, [], windowEnd) == {};
  }

  lemma NextJoins(before: seq<M.Row>, mid: seq<M.Row>, after: seq<M.Row>, tenants: seq<string>, next: string, windowEnd: int)
    requires next !in tenants && (Charged(before, after, next) <==> Charged(mid, after, next))
    requires forall t :: t in tenants ==>
               (HasEligible(mid, t, windowEnd) <==> HasEligible(after, t, windowEnd)) && (Charged(before, mid, t) <==> Charged(before, after, t))
    ensures var all := tenants + [next];
            && |StillEligible(after, all, windowEnd)|
               == |StillEligible(mid, tenants, windowEnd)| + (if HasEligible(after, next, windowEnd) then 1 else 0)
            && |ChargedOf(before, after, all)| == |ChargedOf(before, mid, tenants)| + (if Charged(mid, after, next) then 1 else 0)
  {
    hide HasEligible, Charged;
    var all, left, charged := tenants + [next], StillEligible(mid, tenants, windowEnd), ChargedOf(before, mid, tenants);
    Grown(left, next, HasEligible(after, next, windowEnd), StillEligible(after, all, windowEnd));
    Grown(charged, next, Charged(mid, after, next), ChargedOf(before, after, all));
  }

  lemma Grown(a: set<string>, next: string, joins: bool, c: set<string>)
    requires next !in a && forall t :: t in c <==> t in a || (t == next && joins)
    ensures |c| == |a| + if joins then 1 else 0
  {
    assert c == a + if joins then {next} else {};
  }

  lemma FirstCharged(before: seq<M.Row>, mid: seq<M.Row>, after: seq<M.Row>, tenants: seq<string>, next: string)
    requires OnlyTheirs(before, mid, tenants) && OnlyTheirs(mid, after, [next]) && next !in tenants
    ensures Charged(before, after, next) <==> Charged(mid, after, next)
  {
    assert forall i :: 0 <= i < |before| && before[i].usage.tenant == next ==> mid[i] == before[i];
    if Charged(mid, after, next) {
      var i :| 0 <= i < |mid| && i < |after| && mid[i].usage.tenant == next && mid[i].state == M.Pending
               && (after[i].state == M.Billed || after[i].state == M.Unpriced);
      assert before[i] == mid[i];
    }
  }

  lemma OnlyTheirsTwice(before: seq<M.Row>, mid: seq<M.Row>, after: seq<M.Row>, tenants: seq<string>, next: string)
    requires OnlyTheirs(before, mid, tenants) && OnlyTheirs(mid, after, [next])
    ensures OnlyTheirs(before, after, tenants + [next])
  {}

  lemma SettlesOnlyTheirs(prices: seq<M.Price>, ledger: seq<M.Row>, run: string, tenant: string, windowEnd: int)
    ensures OnlyTheirs(ledger, M.SettleLedger(prices, ledger, run, tenant, windowEnd), [tenant])
  {
    hide M.VerdictFor;
    var after := M.SettleLedger(prices, ledger, run, tenant, windowEnd);
    forall i | 0 <= i < |ledger|
      ensures after[i].usage == ledger[i].usage && (ledger[i].usage.tenant in [tenant] || after[i] == ledger[i])
    {
      assert after[i] == M.SettleRow(prices, ledger[i], run, tenant, windowEnd);
    }
  }
}
