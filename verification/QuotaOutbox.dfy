/** The fenced quota outbox (internal/control/quota_refresh.go, internal/control/fencing.go): a quota is committed
    with an outbox row under the fence epoch its refresh acquired; the row stays until its quota has reached a
    snapshot or does not matter any more. Nothing here relies on the per-account lock. */
module QuotaOutbox {
  import opened Outcomes
  import opened SnapshotProtocol

  /** Seconds. */
  const OUTBOX_LEASE := 60
  const MIN_BACKOFF := 60
  const MAX_BACKOFF := 900

  datatype AccountRow = AccountRow(fence: nat, quota: string)

  datatype OutboxRow = OutboxRow(fence: nat, quota: string, attempts: nat, due: int, lockedUntil: Option<int>)

  /** A claimed row; `began` is when its reconciliation began. */
  datatype Item = Item(account: string, fence: nat, quota: string, attempts: nat, began: int)

  datatype Tables = Tables(accounts: map<string, AccountRow>, outbox: map<string, OutboxRow>)

  // ------------------------------------------------------------------ backoff

  function Pow2(n: nat): nat { if n == 0 then 1 else 2 * Pow2(n - 1) }

  lemma {:induction false} Pow2Grows(m: nat, n: nat)
    requires m <= n
    ensures Pow2(m) <= Pow2(n)
  {
    if m < n { Pow2Grows(m, n - 1); }
  }

  /** The minimum doubled once per earlier attempt, capped. */
  function BackoffFor(attempts: int): int {
    var n := if attempts < 1 then 1 else attempts;
    var doubled := MIN_BACKOFF * Pow2(n - 1);
    if doubled > MAX_BACKOFF then MAX_BACKOFF else doubled
  }

  method Backoff(attempts: int) returns (delay: int)
    ensures delay == BackoffFor(attempts)
  {
    var n := if attempts < 1 then 1 else attempts;
    delay := MIN_BACKOFF;
    var i := 1;
    while i < n && delay < MAX_BACKOFF
      invariant 1 <= i <= n && delay == MIN_BACKOFF * Pow2(i - 1)
    {
      delay := delay * 2;
      i := i + 1;
    }
    Pow2Grows(i - 1, n - 1);
    if delay > MAX_BACKOFF { return MAX_BACKOFF; }
  }

  // ------------------------------------------------------------------ the statements

  /** Bump the fence, for a refresh or by an operator. */
  function Bump(t: Tables, a: string): Tables
    requires a in t.accounts
  {
    t.(accounts := t.accounts[a := t.accounts[a].(fence := t.accounts[a].fence + 1)])
  }

  /** Bump the fence and write the quota a migration brings. */
  function Migrated(t: Tables, a: string, quota: string): Tables
    requires a in t.accounts
  {
    t.(accounts := t.accounts[a := AccountRow(t.accounts[a].fence + 1, quota)])
  }

  predicate HoldsFence(t: Tables, a: string, fence: nat) { a in t.accounts && t.accounts[a].fence == fence }

  /** One transaction: the quota under the fence, and the outbox row that replaces any earlier one. */
  function CommitAndQueue(t: Tables, a: string, fence: nat, quota: string, now: int): Option<Tables> {
    if !HoldsFence(t, a, fence) then None
    else Some(Tables(t.accounts[a := AccountRow(fence, quota)], t.outbox[a := OutboxRow(fence, quota, 0, now, None)]))
  }

  predicate Queued(t: Tables, a: string, fence: nat) { a in t.outbox && t.outbox[a].fence == fence }

  function Ack(t: Tables, a: string, fence: nat): Option<Tables> {
    if Queued(t, a, fence) then Some(t.(outbox := t.outbox - {a})) else None
  }

  function Retry(t: Tables, a: string, fence: nat, next: int): Option<Tables> {
    if Queued(t, a, fence) then Some(t.(outbox := t.outbox[a := t.outbox[a].(due := next, lockedUntil := None)])) else None
  }

  predicate Due(row: OutboxRow, now: int) { row.due <= now && (row.lockedUntil.None? || row.lockedUntil.value <= now) }

  function ClaimRow(t: Tables, a: string, now: int): Tables
    requires a in t.outbox
  {
    t.(outbox := t.outbox[a := t.outbox[a].(attempts := t.outbox[a].attempts + 1, lockedUntil := Some(now + OUTBOX_LEASE))])
  }

  function ItemOf(t: Tables, a: string, now: int): Item
    requires a in t.outbox
  {
    var row := t.outbox[a];
    Item(a, row.fence, row.quota, row.attempts + 1, now)
  }

  class Repository {
    var accounts: map<string, AccountRow>
    var outbox: map<string, OutboxRow>

    ghost function View(): Tables
      reads this
    {
      Tables(accounts, outbox)
    }

    method Acquire(a: string) returns (epoch: Option<nat>)
      modifies `accounts
      ensures a !in old(accounts) ==> epoch == None && View() == old(View())
      ensures a in old(accounts) ==> View() == Bump(old(View()), a) && epoch == Some(accounts[a].fence)
    {
      if a !in accounts { return None; }
      accounts := accounts[a := accounts[a].(fence := accounts[a].fence + 1)];
      return Some(accounts[a].fence);
    }

    method CommitQuotaAndQueue(a: string, fence: nat, quota: string, now: int) returns (ok: bool)
      modifies this
      ensures ok == CommitAndQueue(old(View()), a, fence, quota, now).Some?
      ensures View() == if ok then CommitAndQueue(old(View()), a, fence, quota, now).value else old(View())
    {
      if a !in accounts || accounts[a].fence != fence { return false; }
      accounts := accounts[a := accounts[a].(quota := quota)];
      outbox := outbox[a := OutboxRow(fence, quota, 0, now, None)];
      return true;
    }

    method AckQuotaOutbox(a: string, fence: nat) returns (ok: bool)
      modifies `outbox
      ensures ok == Ack(old(View()), a, fence).Some?
      ensures View() == if ok then Ack(old(View()), a, fence).value else old(View())
    {
      if a !in outbox || outbox[a].fence != fence { return false; }
      outbox := outbox - {a};
      return true;
    }

    method RetryQuotaOutbox(a: string, fence: nat, next: int) returns (ok: bool)
      modifies `outbox
      ensures ok == Retry(old(View()), a, fence, next).Some?
      ensures View() == if ok then Retry(old(View()), a, fence, next).value else old(View())
    {
      if a !in outbox || outbox[a].fence != fence { return false; }
      outbox := outbox[a := outbox[a].(due := next, lockedUntil := None)];
      return true;
    }
  }

  // ------------------------------------------------------------------ publishing, seen from here

  /** A generation that was the newest one once `since` of them existed, or a later one, carries this quota for this
      account. */
  predicate InSnapshot(log: seq<map<string, string>>, a: string, quota: string, since: nat) {
    exists k :: 0 <= k < |log| && Carries(log, k, a, quota, since)
  }

  predicate Carries(log: seq<map<string, string>>, k: nat, a: string, quota: string, since: nat) {
    k < |log| && since <= k + 1 && a in log[k] && log[k][a] == quota
  }

  function Quotas(g: Generation): map<string, string> { map id | id in g.accounts :: g.accounts[id].quota }

  /** A generation that was the newest one once `since` of them existed, or a later one, carries this quota. */
  predicate CarriedSince(log: seq<Generation>, id: string, quota: string, since: nat) {
    exists k :: since <= k + 1 && 0 <= k < |log| && id in Quotas(log[k]) && Quotas(log[k])[id] == quota
  }

  /** The load begins after `n` generations exist: whichever it picks is the newest of some later instant. */
  predicate LoadsSince(l: Loader, n: nat) { !l.Start? && !l.Failed? ==> l.version >= n }

  lemma {:induction false} LoadStaysSince(s: System, events: seq<SnapshotProtocol.Event>, n: nat)
    requires Consistent(s) && LoadsSince(s.loader, n) && n <= |s.log|
    ensures LoadsSince(SnapshotProtocol.Run(s, events).loader, n)
    decreases |events|
  {
    hide Consistent;
    if events != [] {
      StepKeepsConsistent(s, events[0]);
      StepStaysSince(s, events[0], n);
      LoadStaysSince(SnapshotProtocol.Step(s, events[0]), events[1..], n);
    }
  }

  lemma StepStaysSince(s: System, e: SnapshotProtocol.Event, n: nat)
    requires Consistent(s) && LoadsSince(s.loader, n) && n <= |s.log|
    ensures LoadsSince(SnapshotProtocol.Step(s, e).loader, n) && n <= |SnapshotProtocol.Step(s, e).log|
  {
    hide HoldsGeneration, Coherent, Fields, Written;
  }

  /** What a successful quota publish comes to in the snapshot protocol, under any interleaving there: the loaded
      generation already carried the quota, or the publish went through and its generation carries it. Either way the
      generation was the newest one at some instant since the load began. */
  lemma PublishedQuotaIsInALog(bucket: string, before: seq<SnapshotProtocol.Event>, during: seq<SnapshotProtocol.Event>,
                               listed: seq<Account>, edited: Option<seq<Account>>, id: string, quota: string)
    requires SnapshotProtocol.Run(Initial(bucket), before).loader == Start
    requires var s := SnapshotProtocol.Run(SnapshotProtocol.Run(Initial(bucket), before), during);
             && s.loader.Loaded? && Lists(listed, AccountsOf(s.loader.values))
             && (edited.None? ==> exists i :: 0 <= i < |listed| && listed[i].id == id && listed[i].quota == quota)
             && (edited.Some? ==> Edits(listed, edited.value, id, quota) && Publication(s.keys, bucket, s.loader.epoch, edited.value).Some?)
    ensures var began := SnapshotProtocol.Run(Initial(bucket), before);
            var s := SnapshotProtocol.Run(began, during);
            var log := if edited.None? then s.log else SnapshotProtocol.Step(s, Published(s.loader.epoch, edited.value)).log;
            CarriedSince(log, id, quota, |began.log|)
  {
    hide SnapshotProtocol.Run, SnapshotProtocol.Step, Lists, Edits, Consistent, CarriedSince;
    InitialConsistent(bucket);
    RunKeepsConsistent(Initial(bucket), before);
    var began := SnapshotProtocol.Run(Initial(bucket), before);
    RunKeepsConsistent(began, during);
    LoadStaysSince(began, during, |began.log|);
    BucketStays(Initial(bucket), before);
    BucketStays(began, during);
    LogOnlyGrows(began, during);
    PublishedFromLoad(SnapshotProtocol.Run(began, during), listed, edited, id, quota, |began.log|);
  }

  lemma PublishedFromLoad(s: System, listed: seq<Account>, edited: Option<seq<Account>>, id: string, quota: string, n: nat)
    requires Consistent(s) && s.loader.Loaded? && s.loader.version >= n && n <= |s.log| && Lists(listed, AccountsOf(s.loader.values))
    requires edited.None? ==> exists i :: 0 <= i < |listed| && listed[i].id == id && listed[i].quota == quota
    requires edited.Some? ==> Edits(listed, edited.value, id, quota) && Publication(s.keys, s.bucket, s.loader.epoch, edited.value).Some?
    ensures var log := if edited.None? then s.log else SnapshotProtocol.Step(s, Published(s.loader.epoch, edited.value)).log;
            CarriedSince(log, id, quota, n)
  {
    hide Consistent, Edits, Publication;
    LoadedGeneration(s);
    if edited.None? {
      var i :| 0 <= i < |listed| && listed[i].id == id && listed[i].quota == quota;
      var g := s.log[s.loader.version - 1];
      assert g.accounts[id] == listed[i];
      assert Quotas(g)[id] == quota;
    } else {
      PublishFromLoad(s, listed, edited.value, id, quota);
      var log := SnapshotProtocol.Step(s, Published(s.loader.epoch, edited.value)).log;
      assert Quotas(log[|s.log|])[id] == quota;
    }
  }

  // ------------------------------------------------------------------ every interleaving

  /** A refresh, or the reconciliation of one claimed item, between two of its calls. A publish remembers, for the record,
      how many generations existed when it began. */
  datatype Caller =
    | Acquiring(account: string)
    | Fetching(account: string, fence: nat)
    | Committing(account: string, fence: nat, quota: string)
    | Publishing(account: string, fence: nat, quota: string, since: nat, claimed: Option<Item>)
    | Acking(account: string, fence: nat, quota: string, claimed: Option<Item>)
    | Checking(item: Item)
    | Dropping(item: Item)
    | Retrying(item: Item)
    | Done

  /** How a quota publish can end: refused, found the quota in the generation it loaded, which was the newest at some
      instant since it began, or published the newest generation with this one quota replaced. */
  datatype Publish = Refused | AlreadyIn(generation: nat) | Replaced

  /** What the environment decides: the provider's answer (None is an error, an empty option a missing quota), the
      publish, a failing statement, the clock. */
  datatype Choice = Choice(answer: Option<Option<string>>, publish: Publish, failed: bool, now: int)

  /** A committed quota, and how many generations existed then. */
  datatype Commit = Commit(quota: string, at: nat)

  /** `committed` records, for every fence that ever committed a quota, which one. */
  datatype World = World(tables: Tables, log: seq<map<string, string>>, callers: map<nat, Caller>, committed: map<(string, nat), Commit>)

  const START := World(Tables(map[], map[]), [], map[], map[])

  function PublishLog(log: seq<map<string, string>>, a: string, quota: string, since: nat, p: Publish): Option<seq<map<string, string>>> {
    match p
    case Refused => None
    case AlreadyIn(k) => if Carries(log, k, a, quota, since) then Some(log) else None
    case Replaced => if log != [] && a in log[|log| - 1] then Some(log + [log[|log| - 1][a := quota]]) else None
  }

  /** After a failure a reconciliation reschedules its item; a refresh just ends. */
  function OnFailure(item: Option<Item>): Caller { if item.Some? then Retrying(item.value) else Done }

  function CallStep(w: World, c: Caller, ch: Choice): (World, Caller) {
    var t := w.tables;
    match c
    case Acquiring(a) =>
      if a !in t.accounts then (w, Done) else (w.(tables := Bump(t, a)), Fetching(a, t.accounts[a].fence + 1))
    case Fetching(a, fence) =>
      (w, if ch.answer.Some? && ch.answer.value.Some? then Committing(a, fence, ch.answer.value.value) else Done)
    case Committing(a, fence, quota) =>
      (match CommitAndQueue(t, a, fence, quota, ch.now)
       case None => (w, Done)
       case Some(next) =>
         (w.(tables := next, committed := w.committed[(a, fence) := Commit(quota, |w.log|)]), Publishing(a, fence, quota, |w.log|, None)))
    case Publishing(a, fence, quota, since, item) =>
      (match PublishLog(w.log, a, quota, since, ch.publish)
       case None => (w, OnFailure(item))
       case Some(log) => (w.(log := log), Acking(a, fence, quota, item)))
    case Acking(a, fence, quota, item) =>
      if ch.failed then (w, OnFailure(item))
      else
        (match Ack(t, a, fence)
         case None => (w, OnFailure(item))
         case Some(next) => (w.(tables := next), Done))
    case Checking(item) =>
      var begun := item.(began := ch.now);
      (w, if ch.failed || item.account !in t.accounts then Retrying(begun)
          else if t.accounts[item.account].fence != item.fence then Dropping(begun)
          else Publishing(item.account, item.fence, item.quota, |w.log|, Some(begun)))
    case Dropping(item) =>
      (match Ack(t, item.account, item.fence)
       case None => (w, Done)
       case Some(next) => (w.(tables := next), Done))
    case Retrying(item) =>
      (match Retry(t, item.account, item.fence, item.began + BackoffFor(item.attempts))
       case None => (w, Done)
       case Some(next) => (w.(tables := next), Done))
    case Done => (w, Done)
  }

  datatype Event =
    | Import(account: string, quota: string)                 // a new account, or a re-import, which bumps the fence
    | Migrate(account: string, quota: string)                // a migration, which bumps the fence and brings a quota
    | Operator(account: string)                              // an operator action that bumps the fence
    | Snapshot(generation: map<string, string>)              // any other publisher
    | BeginRefresh(caller: nat, account: string)
    | Claim(caller: nat, account: string, now: int)
    | Advance(caller: nat, choice: Choice)

  function Step(w: World, e: Event): World {
    match e
    case Import(a, quota) =>
      if a in w.tables.accounts then w.(tables := Bump(w.tables, a))
      else w.(tables := w.tables.(accounts := w.tables.accounts[a := AccountRow(0, quota)]))
    case Migrate(a, quota) =>
      if a in w.tables.accounts then w.(tables := Migrated(w.tables, a, quota))
      else w.(tables := w.tables.(accounts := w.tables.accounts[a := AccountRow(1, quota)]))
    case Operator(a) => if a in w.tables.accounts then w.(tables := Bump(w.tables, a)) else w
    case Snapshot(g) => w.(log := w.log + [g])
    case BeginRefresh(i, a) => if i in w.callers then w else w.(callers := w.callers[i := Acquiring(a)])
    case Claim(i, a, now) =>
      if i in w.callers || a !in w.tables.outbox || !Due(w.tables.outbox[a], now) then w
      else w.(tables := ClaimRow(w.tables, a, now), callers := w.callers[i := Checking(ItemOf(w.tables, a, now))])
    case Advance(i, ch) =>
      if i !in w.callers then w
      else
        var (next, c) := CallStep(w, w.callers[i], ch);
        next.(callers := w.callers[i := c])
  }

  function Run(w: World, events: seq<Event>): World
    decreases |events|
  {
    if events == [] then w else Run(Step(w, events[0]), events[1..])
  }

  // ------------------------------------------------------------------ the invariant

  predicate CommittedAs(w: World, a: string, fence: nat, quota: string) {
    (a, fence) in w.committed && w.committed[(a, fence)].quota == quota
  }

  /** The fence a caller holds without having committed under it yet. */
  predicate Holds(c: Caller, a: string, fence: nat) { (c.Fetching? || c.Committing?) && c.account == a && c.fence == fence }

  predicate ItemOk(w: World, item: Item) {
    && item.account in w.tables.accounts && item.fence <= w.tables.accounts[item.account].fence
    && CommittedAs(w, item.account, item.fence, item.quota)
  }

  predicate CallerOk(w: World, c: Caller) {
    match c
    case Acquiring(_) => true
    case Fetching(a, fence) => a in w.tables.accounts && fence <= w.tables.accounts[a].fence && (a, fence) !in w.committed
    case Committing(a, fence, _) => a in w.tables.accounts && fence <= w.tables.accounts[a].fence && (a, fence) !in w.committed
    case Publishing(a, fence, quota, since, item) =>
      && CommittedAs(w, a, fence, quota) && w.committed[(a, fence)].at <= since <= |w.log|
      && (item.Some? ==> ItemOk(w, item.value))
    case Acking(a, fence, quota, item) =>
      && CommittedAs(w, a, fence, quota) && InSnapshot(w.log, a, quota, w.committed[(a, fence)].at)
      && (item.Some? ==> ItemOk(w, item.value))
    case Checking(item) => ItemOk(w, item)
    case Dropping(item) => ItemOk(w, item) && item.fence < w.tables.accounts[item.account].fence
    case Retrying(item) => ItemOk(w, item)
    case Done => true
  }

  /** A fence that was committed belongs to the account's past or present; the present one gives its quota, and that
      quota is queued or has since reached a snapshot. */
  ghost predicate AccountsOk(w: World) {
    && (forall a, f :: (a, f) in w.committed ==>
          a in w.tables.accounts && f <= w.tables.accounts[a].fence && w.committed[(a, f)].at <= |w.log|)
    && (forall a :: a in w.tables.accounts && (a, w.tables.accounts[a].fence) in w.committed ==> PresentOk(w, a))
  }

  predicate PresentOk(w: World, a: string)
    requires a in w.tables.accounts && (a, w.tables.accounts[a].fence) in w.committed
  {
    var commit := w.committed[(a, w.tables.accounts[a].fence)];
    && commit.quota == w.tables.accounts[a].quota
    && (Queued(w.tables, a, w.tables.accounts[a].fence) || InSnapshot(w.log, a, commit.quota, commit.at))
  }

  /** An outbox row is what its fence committed. */
  ghost predicate OutboxOk(w: World) {
    forall a :: a in w.tables.outbox ==>
      && a in w.tables.accounts && w.tables.outbox[a].fence <= w.tables.accounts[a].fence
      && CommittedAs(w, a, w.tables.outbox[a].fence, w.tables.outbox[a].quota)
  }

  ghost predicate CallersOk(w: World) {
    && (forall i :: i in w.callers ==> CallerOk(w, w.callers[i]))
    && (forall i, j, a, f :: i in w.callers && j in w.callers && Holds(w.callers[i], a, f) && Holds(w.callers[j], a, f) ==> i == j)
  }

  ghost predicate Inv(w: World) { AccountsOk(w) && OutboxOk(w) && CallersOk(w) }

  /** What later steps keep for everybody but the one who moved. */
  ghost predicate Grows(w: World, v: World) {
    && (forall a :: a in w.tables.accounts ==> a in v.tables.accounts && w.tables.accounts[a].fence <= v.tables.accounts[a].fence)
    && (forall a, f :: (a, f) in w.committed ==> (a, f) in v.committed && v.committed[(a, f)] == w.committed[(a, f)])
    && w.log <= v.log
  }

  lemma SnapshotStays(log: seq<map<string, string>>, later: seq<map<string, string>>, a: string, quota: string, since: nat)
    requires log <= later && InSnapshot(log, a, quota, since)
    ensures InSnapshot(later, a, quota, since)
  {
    var k :| 0 <= k < |log| && Carries(log, k, a, quota, since);
    assert later[k] == log[k];
    assert Carries(later, k, a, quota, since);
  }

  lemma CallerStaysOk(w: World, v: World, c: Caller)
    requires Grows(w, v) && CallerOk(w, c)
    requires forall a, f: nat :: Holds(c, a, f) && (a, f) in v.committed ==> (a, f) in w.committed
    ensures CallerOk(v, c)
  {
    if c.Acking? { SnapshotStays(w.log, v.log, c.account, c.quota, w.committed[(c.account, c.fence)].at); }
    if c.Fetching? || c.Committing? { assert Holds(c, c.account, c.fence); }
  }

  ghost predicate DataOk(w: World) { AccountsOk(w) && OutboxOk(w) }

  lemma BumpKeeps(w: World, a: string)
    requires DataOk(w) && a in w.tables.accounts
    ensures var v := w.(tables := Bump(w.tables, a));
            DataOk(v) && Grows(w, v) && (a, v.tables.accounts[a].fence) !in v.committed
  {}

  lemma MigratedKeeps(w: World, a: string, quota: string)
    requires DataOk(w) && a in w.tables.accounts
    ensures var v := w.(tables := Migrated(w.tables, a, quota)); DataOk(v) && Grows(w, v)
  {}

  lemma CommitKeeps(w: World, v: World, a: string, fence: nat, quota: string, now: int)
    requires DataOk(w) && CommitAndQueue(w.tables, a, fence, quota, now).Some? && (a, fence) !in w.committed
    requires v == w.(tables := CommitAndQueue(w.tables, a, fence, quota, now).value, committed := w.committed[(a, fence) := Commit(quota, |w.log|)])
    ensures DataOk(v) && Grows(w, v) && CommittedAs(v, a, fence, quota) && v.committed[(a, fence)].at == |v.log|
  {}

  lemma PublishKeeps(w: World, v: World, a: string, quota: string, since: nat, at: nat, p: Publish)
    requires DataOk(w) && PublishLog(w.log, a, quota, since, p).Some? && v == w.(log := PublishLog(w.log, a, quota, since, p).value)
    requires at <= since <= |w.log|
    ensures DataOk(v) && Grows(w, v) && InSnapshot(v.log, a, quota, at)
  {
    match p {
      case AlreadyIn(k) => assert Carries(v.log, k, a, quota, at);
      case Replaced => assert Carries(v.log, |w.log|, a, quota, at);
    }
    LogGrowthKeeps(w, v);
  }

  lemma LogGrowthKeeps(w: World, v: World)
    requires DataOk(w) && w.log <= v.log && v == w.(log := v.log)
    ensures DataOk(v) && Grows(w, v)
  {
    hide InSnapshot;
    forall a | a in v.tables.accounts && (a, v.tables.accounts[a].fence) in v.committed ensures PresentOk(v, a) {
      var commit := w.committed[(a, w.tables.accounts[a].fence)];
      if InSnapshot(w.log, a, commit.quota, commit.at) {
        SnapshotStays(w.log, v.log, a, commit.quota, commit.at);
      }
    }
  }

  /** Deleting a row is harmless when its quota is in a snapshot or its fence is a past one. */
  lemma AckKeeps(w: World, v: World, a: string, fence: nat)
    requires DataOk(w) && Queued(w.tables, a, fence) && v == w.(tables := w.tables.(outbox := w.tables.outbox - {a}))
    requires a in w.tables.accounts && (a, fence) in w.committed
    requires InSnapshot(w.log, a, w.tables.outbox[a].quota, w.committed[(a, fence)].at) || fence < w.tables.accounts[a].fence
    ensures DataOk(v) && Grows(w, v)
  {
    hide InSnapshot;
  }

  lemma RowUpdateKeeps(w: World, v: World, a: string, row: OutboxRow)
    requires DataOk(w) && a in w.tables.outbox && row.fence == w.tables.outbox[a].fence && row.quota == w.tables.outbox[a].quota
    requires v == w.(tables := w.tables.(outbox := w.tables.outbox[a := row]))
    ensures DataOk(v) && Grows(w, v)
  {
    hide InSnapshot;
  }

  /** Nobody else commits under a fence a caller holds. */
  ghost predicate NewCommitsBy(w: World, v: World, c: Caller) {
    forall a, f :: (a, f) in v.committed && (a, f) !in w.committed ==> Holds(c, a, f)
  }

  lemma CallKeeps(w: World, c: Caller, ch: Choice)
    requires DataOk(w) && CallerOk(w, c)
    ensures var (v, d) := CallStep(w, c, ch);
            && DataOk(v) && Grows(w, v) && NewCommitsBy(w, v, c) && CallerOk(v, d) && v.callers == w.callers
            && (forall a, f :: Holds(d, a, f) ==> Holds(c, a, f) || (a in w.tables.accounts && f == w.tables.accounts[a].fence + 1))
  {
    var (v, d) := CallStep(w, c, ch);
    assert w.log <= w.log;
    match c {
      case Acquiring(a) => if a in w.tables.accounts { BumpKeeps(w, a); }
      case Fetching(_, _) =>
      case Committing(a, fence, quota) =>
        if CommitAndQueue(w.tables, a, fence, quota, ch.now).Some? { CommitKeeps(w, v, a, fence, quota, ch.now); }
      case Publishing(a, fence, quota, since, _) =>
        if PublishLog(w.log, a, quota, since, ch.publish).Some? {
          PublishKeeps(w, v, a, quota, since, w.committed[(a, fence)].at, ch.publish);
        }
      case Acking(a, fence, quota, _) =>
        if !ch.failed && Queued(w.tables, a, fence) { AckKeeps(w, v, a, fence); }
      case Checking(_) =>
      case Dropping(item) =>
        if Queued(w.tables, item.account, item.fence) { AckKeeps(w, v, item.account, item.fence); }
      case Retrying(item) =>
        if Queued(w.tables, item.account, item.fence) { RowUpdateKeeps(w, v, item.account, v.tables.outbox[item.account]); }
      case Done =>
    }
  }

  /** The others keep what they rely on, and the fences held without a commit stay distinct. */
  lemma OthersKeep(w: World, v: World, i: nat, c: Caller, d: Caller)
    requires CallersOk(w) && Grows(w, v) && v.callers == w.callers[i := d] && CallerOk(v, d)
    requires NewCommitsBy(w, v, c) && (i in w.callers ==> w.callers[i] == c) && (i !in w.callers ==> c == Done)
    requires forall a, f: nat :: Holds(d, a, f) ==> Holds(c, a, f) || (a in w.tables.accounts && f == w.tables.accounts[a].fence + 1)
    ensures CallersOk(v)
  {
    forall j | j in v.callers ensures CallerOk(v, v.callers[j]) {
      if j != i {
        CallerStaysOk(w, v, w.callers[j]);
      }
    }
    forall j, a, f: nat | j in w.callers && Holds(w.callers[j], a, f)
      ensures a in w.tables.accounts && f <= w.tables.accounts[a].fence
    {
      assert CallerOk(w, w.callers[j]);
    }
  }

  lemma AdvanceKeeps(w: World, i: nat, ch: Choice)
    requires Inv(w) && i in w.callers
    ensures Inv(Step(w, Advance(i, ch))) && Grows(w, Step(w, Advance(i, ch)))
  {
    hide Inv, CallStep, DataOk, CallerOk, CallersOk, Grows, NewCommitsBy, Holds;
    CallerIsOk(w, i);
    CallKeeps(w, w.callers[i], ch);
    var (u, d) := CallStep(w, w.callers[i], ch);
    var v := Step(w, Advance(i, ch));
    WithoutCallers(u, v, d);
    OnlyCallersDiffer(w, u, v, w.callers[i]);
    OthersKeep(w, v, i, w.callers[i], d);
    InvFromParts(v);
  }

  lemma CallerIsOk(w: World, i: nat)
    requires Inv(w) && i in w.callers
    ensures DataOk(w) && CallersOk(w) && CallerOk(w, w.callers[i])
  {}

  lemma InvFromParts(w: World)
    requires DataOk(w) && CallersOk(w)
    ensures Inv(w)
  {}

  lemma OnlyCallersDiffer(w: World, u: World, v: World, c: Caller)
    requires v == u.(callers := v.callers)
    ensures (Grows(w, u) ==> Grows(w, v)) && (NewCommitsBy(w, u, c) ==> NewCommitsBy(w, v, c))
  {}

  /** Which callers there are matters to nothing else. */
  lemma WithoutCallers(u: World, v: World, d: Caller)
    requires v == u.(callers := v.callers)
    ensures (DataOk(u) ==> DataOk(v)) && (CallerOk(u, d) ==> CallerOk(v, d))
  {}

  lemma ClaimKeeps(w: World, i: nat, a: string, now: int)
    requires Inv(w)
    ensures Inv(Step(w, Claim(i, a, now))) && Grows(w, Step(w, Claim(i, a, now)))
  {
    var v := Step(w, Claim(i, a, now));
    if v != w {
      RowUpdateKeeps(w, w.(tables := v.tables), a, v.tables.outbox[a]);
      assert CommittedAs(w, a, w.tables.outbox[a].fence, w.tables.outbox[a].quota);
      assert CallerOk(v, v.callers[i]);
      WithoutCallers(w.(tables := v.tables), v, Done);
      hide DataOk, CallerOk, CallersOk;
      OthersKeep(w, v, i, Done, v.callers[i]);
    }
  }

  lemma StepKeepsInv(w: World, e: Event)
    requires Inv(w)
    ensures Inv(Step(w, e)) && Grows(w, Step(w, e))
  {
    if e.Advance? || e.Claim? {
      hide Inv, CallStep, Grows;
      match e {
        case Claim(i, a, now) => ClaimKeeps(w, i, a, now);
        case Advance(i, ch) => if i in w.callers { AdvanceKeeps(w, i, ch); } else { SameWorld(w); }
      }
    } else {
      QuietStepKeeps(w, e);
    }
  }

  lemma SameWorld(w: World)
    ensures Grows(w, w)
  {}

  lemma QuietStepKeeps(w: World, e: Event)
    requires Inv(w) && !e.Advance? && !e.Claim?
    ensures Inv(Step(w, e)) && Grows(w, Step(w, e))
  {
    hide AccountsOk, OutboxOk, CallersOk, Grows, CallerOk;
    var v := Step(w, e);
    if e.BeginRefresh? {
      BeginKeeps(w, e.caller, e.account);
    } else {
      match e {
        case Import(a, quota) => if a in w.tables.accounts { BumpKeeps(w, a); } else { NewAccountKeeps(w, a, AccountRow(0, quota)); }
        case Migrate(a, quota) => if a in w.tables.accounts { MigratedKeeps(w, a, quota); } else { NewAccountKeeps(w, a, AccountRow(1, quota)); }
        case Operator(a) => if a in w.tables.accounts { BumpKeeps(w, a); } else { SameWorld(w); }
        case Snapshot(g) => LogGrowthKeeps(w, v);
      }
      SameCallers(w, v);
    }
  }

  lemma NewAccountKeeps(w: World, a: string, row: AccountRow)
    requires DataOk(w) && a !in w.tables.accounts
    ensures var v := w.(tables := w.tables.(accounts := w.tables.accounts[a := row])); DataOk(v) && Grows(w, v)
  {}

  lemma BeginKeeps(w: World, i: nat, a: string)
    requires Inv(w)
    ensures Inv(Step(w, BeginRefresh(i, a))) && Grows(w, Step(w, BeginRefresh(i, a)))
  {
    SameWorld(w);
    var v := Step(w, BeginRefresh(i, a));
    if i !in w.callers {
      assert v == w.(callers := v.callers);
      WithoutCallers(w, v, Done);
      hide DataOk;
      OthersKeep(w, v, i, Done, v.callers[i]);
    }
  }

  lemma SameCallers(w: World, v: World)
    requires CallersOk(w) && Grows(w, v) && v.callers == w.callers && v.committed == w.committed
    ensures CallersOk(v)
  {
    forall j | j in v.callers ensures CallerOk(v, v.callers[j]) {
      CallerStaysOk(w, v, w.callers[j]);
    }
  }

  lemma {:induction false} RunKeepsInv(w: World, events: seq<Event>)
    requires Inv(w)
    ensures Inv(Run(w, events)) && Grows(w, Run(w, events))
    decreases |events|
  {
    hide Inv, Step;
    if events != [] {
      StepKeepsInv(w, events[0]);
      RunKeepsInv(Step(w, events[0]), events[1..]);
    }
  }

  lemma ReachableInv(events: seq<Event>)
    ensures Inv(Run(START, events))
  {
    RunKeepsInv(START, events);
  }

  // ------------------------------------------------------------------ what it is for

  /** The outbox never runs ahead of the account, and under the same fence both hold the same quota. */
  lemma OutboxIsFenced(events: seq<Event>, a: string)
    requires a in Run(START, events).tables.outbox
    ensures var t := Run(START, events).tables;
            && a in t.accounts && t.outbox[a].fence <= t.accounts[a].fence
            && (t.outbox[a].fence == t.accounts[a].fence ==> t.outbox[a].quota == t.accounts[a].quota)
  {
    hide Run;
    ReachableInv(events);
    var w := Run(START, events);
    assert CommittedAs(w, a, w.tables.outbox[a].fence, w.tables.outbox[a].quota);
  }

  /** A quota committed under the account's present fence is queued, or is carried by a generation that was the newest at
      the commit or since. */
  lemma NoQuotaForgotten(events: seq<Event>, a: string)
    requires var w := Run(START, events); a in w.tables.accounts && (a, w.tables.accounts[a].fence) in w.committed
    ensures var w := Run(START, events);
            var account := w.tables.accounts[a];
            var commit := w.committed[(a, account.fence)];
            && commit.quota == account.quota && commit.at <= |w.log|
            && (Queued(w.tables, a, account.fence) || InSnapshot(w.log, a, account.quota, commit.at))
  {
    hide Run;
    ReachableInv(events);
    assert PresentOk(Run(START, events), a);
  }

  /** One fence commits one quota: no later step replaces it. */
  lemma OneCommitPerFence(before: seq<Event>, after: seq<Event>, a: string, fence: nat)
    requires (a, fence) in Run(START, before).committed
    ensures var w := Run(START, before); CommittedAs(Run(w, after), a, fence, w.committed[(a, fence)].quota)
  {
    hide Run;
    ReachableInv(before);
    RunKeepsInv(Run(START, before), after);
  }

  /** A row goes only when a later fence's row takes its place, when its quota is in a snapshot that was the newest at its
      commit or since, or when the account's fence has moved past it. */
  lemma RowLeavesOnlyWhenDone(events: seq<Event>, e: Event, a: string)
    requires var w := Run(START, events);
             a in w.tables.outbox && !Queued(Step(w, e).tables, a, w.tables.outbox[a].fence)
    ensures var w := Run(START, events);
            var row := w.tables.outbox[a];
            CommittedAs(w, a, row.fence, row.quota) && RowDone(Step(w, e), a, row, w.committed[(a, row.fence)].at)
  {
    hide Run, Step, CallStep, CallerOk, RowDone, OutboxOk, AccountsOk;
    ReachableInv(events);
    var w := Run(START, events);
    OnlyCallersRemove(w, e, a);
    StepsOver(w, e.caller, w.callers[e.caller], e.choice);
    CallerIsOk(w, e.caller);
    var (u, d) := CallStep(w, w.callers[e.caller], e.choice);
    RowIsCommitted(w, a);
    CallRemoves(w, w.callers[e.caller], e.choice, a);
    SameRows(u, Step(w, e), a, w.tables.outbox[a], w.committed[(a, w.tables.outbox[a].fence)].at);
  }

  /** Why a row may have gone: a later fence's row is in its place, its quota is in a snapshot that was the newest at its
      commit or since, or the account's fence has moved past it. */
  predicate RowDone(v: World, a: string, row: OutboxRow, at: nat) {
    && a in v.tables.accounts
    && (|| (a in v.tables.outbox && row.fence < v.tables.outbox[a].fence == v.tables.accounts[a].fence)
        || (a !in v.tables.outbox && InSnapshot(v.log, a, row.quota, at))
        || (a !in v.tables.outbox && row.fence < v.tables.accounts[a].fence))
  }

  lemma SameRows(u: World, v: World, a: string, row: OutboxRow, at: nat)
    requires RowDone(u, a, row, at) && v.tables == u.tables && v.log == u.log
    ensures RowDone(v, a, row, at)
  {
    hide InSnapshot;
  }

  lemma RowIsCommitted(w: World, a: string)
    requires OutboxOk(w) && a in w.tables.outbox
    ensures a in w.tables.accounts && w.tables.outbox[a].fence <= w.tables.accounts[a].fence
    ensures CommittedAs(w, a, w.tables.outbox[a].fence, w.tables.outbox[a].quota)
  {}

  lemma OnlyCallersRemove(w: World, e: Event, a: string)
    requires a in w.tables.outbox && !Queued(Step(w, e).tables, a, w.tables.outbox[a].fence)
    ensures e.Advance? && e.caller in w.callers
  {
    hide CallStep;
  }

  lemma CallRemoves(w: World, c: Caller, ch: Choice, a: string)
    requires DataOk(w) && CallerOk(w, c) && a in w.tables.outbox && CommittedAs(w, a, w.tables.outbox[a].fence, w.tables.outbox[a].quota)
    requires !Queued(CallStep(w, c, ch).0.tables, a, w.tables.outbox[a].fence)
    ensures var row := w.tables.outbox[a]; RowDone(CallStep(w, c, ch).0, a, row, w.committed[(a, row.fence)].at)
  {
    hide InSnapshot;
    RowIsCommitted(w, a);
  }

  /** The steps of one refresh with nobody in between. */
  function Refreshed(w: World, i: nat, a: string, ch: Choice): World {
    var begun := Step(w, BeginRefresh(i, a));
    var w1 := Step(begun, Advance(i, ch));
    var w2 := Step(w1, Advance(i, ch));
    var w3 := Step(w2, Advance(i, ch));
    var w4 := Step(w3, Advance(i, ch));
    Step(w4, Advance(i, ch))
  }

  /** A refresh that gets a quota and can publish it leaves the account one fence on with that quota, the quota in the
      newest generation, and nothing of the account in the outbox. */
  lemma UndisturbedRefreshPublishes(w: World, i: nat, a: string, ch: Choice, quota: string)
    requires i !in w.callers && a in w.tables.accounts && ch.answer == Some(Some(quota)) && !ch.failed
    requires ch.publish == Replaced && w.log != [] && a in w.log[|w.log| - 1]
    ensures var v := Refreshed(w, i, a, ch);
            && v.tables.accounts == w.tables.accounts[a := AccountRow(w.tables.accounts[a].fence + 1, quota)]
            && v.tables.outbox == w.tables.outbox - {a}
            && v.log == w.log + [w.log[|w.log| - 1][a := quota]]
            && v.callers == w.callers[i := Done]
  {
    hide Step, CallStep;
    var fence := w.tables.accounts[a].fence + 1;
    var w3 := RefreshCommits(w, i, a, ch, quota);
    RefreshFinishes(w3, i, a, fence, ch, quota);
    assert w3.callers[i := Done] == w.callers[i := Done];
  }

  /** The first half: fence acquired, quota fetched and committed with its outbox row. */
  lemma RefreshCommits(w: World, i: nat, a: string, ch: Choice, quota: string) returns (w3: World)
    requires i !in w.callers && a in w.tables.accounts && ch.answer == Some(Some(quota))
    ensures var begun := Step(w, BeginRefresh(i, a));
            w3 == Step(Step(Step(begun, Advance(i, ch)), Advance(i, ch)), Advance(i, ch))
    ensures var fence := w.tables.accounts[a].fence + 1;
            && w3.tables.accounts == w.tables.accounts[a := AccountRow(fence, quota)]
            && w3.tables.outbox == w.tables.outbox[a := OutboxRow(fence, quota, 0, ch.now, None)]
            && w3.log == w.log && w3.callers == w.callers[i := Publishing(a, fence, quota, |w.log|, None)]
  {
    var fence := w.tables.accounts[a].fence + 1;
    var bumped := Bump(w.tables, a);
    var w0 := w.(callers := w.callers[i := Acquiring(a)]);
    var w1 := w.(tables := bumped, callers := w.callers[i := Fetching(a, fence)]);
    var w2 := w.(tables := bumped, callers := w.callers[i := Committing(a, fence, quota)]);
    assert Step(w, BeginRefresh(i, a)) == w0;
    hide Step;
    assert Step(w0, Advance(i, ch)) == w1 by {
      StepsOver(w0, i, Acquiring(a), ch);
      assert w0.callers[i := Fetching(a, fence)] == w1.callers;
    }
    assert Step(w1, Advance(i, ch)) == w2 by {
      StepsOver(w1, i, Fetching(a, fence), ch);
      assert w1.callers[i := Committing(a, fence, quota)] == w2.callers;
    }
    StepsOver(w2, i, Committing(a, fence, quota), ch);
    w3 := Step(w2, Advance(i, ch));
    assert w2.callers[i := Publishing(a, fence, quota, |w.log|, None)] == w.callers[i := Publishing(a, fence, quota, |w.log|, None)];
    assert bumped.accounts[a := AccountRow(fence, quota)] == w.tables.accounts[a := AccountRow(fence, quota)];
  }

  /** The second half: published, acknowledged. */
  lemma RefreshFinishes(w3: World, i: nat, a: string, fence: nat, ch: Choice, quota: string)
    requires i in w3.callers && w3.callers[i] == Publishing(a, fence, quota, |w3.log|, None) && !ch.failed
    requires ch.publish == Replaced && w3.log != [] && a in w3.log[|w3.log| - 1] && Queued(w3.tables, a, fence)
    ensures var v := Step(Step(w3, Advance(i, ch)), Advance(i, ch));
            && v.tables == w3.tables.(outbox := w3.tables.outbox - {a})
            && v.log == w3.log + [w3.log[|w3.log| - 1][a := quota]]
            && v.callers == w3.callers[i := Done]
  {
    hide Step;
    var log := w3.log + [w3.log[|w3.log| - 1][a := quota]];
    var w4 := w3.(log := log, callers := w3.callers[i := Acking(a, fence, quota, None)]);
    StepsOver(w3, i, Publishing(a, fence, quota, |w3.log|, None), ch);
    StepsOver(w4, i, Acking(a, fence, quota, None), ch);
    assert w4.callers[i := Done] == w3.callers[i := Done];
  }

  /** The steps of one reconciliation of a claimed row with nobody in between: its fence checked, its quota published, the
      row deleted, or after a failure put back. */
  function Reconciled(w: World, i: nat, a: string, now: int, ch: Choice): World {
    var w1 := Step(w, Claim(i, a, now));
    var w2 := Step(w1, Advance(i, ch));
    var w3 := Step(w2, Advance(i, ch));
    Step(w3, Advance(i, ch))
  }

  /** A due row under the account's present fence, reconciled with nobody in between: if the publish goes through, its quota
      is in the newest generation and the row is gone; if the publish is refused, the row is free again with one more attempt
      and due after the backoff for that many. */
  lemma UndisturbedReconcileSettles(w: World, i: nat, a: string, now: int, ch: Choice)
    requires i !in w.callers && a in w.tables.outbox && Due(w.tables.outbox[a], now) && !ch.failed
    requires HoldsFence(w.tables, a, w.tables.outbox[a].fence)
    requires ch.publish == Refused || (ch.publish == Replaced && w.log != [] && a in w.log[|w.log| - 1])
    ensures var v, row := Reconciled(w, i, a, now, ch), w.tables.outbox[a];
            && v.callers == w.callers[i := Done] && v.tables.accounts == w.tables.accounts && v.committed == w.committed
            && (ch.publish == Replaced ==>
                  && v.log == w.log + [w.log[|w.log| - 1][a := row.quota]]
                  && v.tables.outbox == w.tables.outbox - {a})
            && (ch.publish == Refused ==>
                  && v.log == w.log
                  && v.tables.outbox == w.tables.outbox[a := row.(attempts := row.attempts + 1,
                                                                   due := ch.now + BackoffFor(row.attempts + 1), lockedUntil := None)])
  {
    hide Step, BackoffFor;
    var w2 := ClaimedAndChecked(w, i, a, now, ch);
    if ch.publish == Replaced {
      var log, row := w.log + [w.log[|w.log| - 1][a := w.tables.outbox[a].quota]], w.tables.outbox[a];
      var item := ItemOf(w.tables, a, ch.now);
      var w3 := w2.(log := log, callers := w2.callers[i := Acking(a, row.fence, row.quota, Some(item))]);
      StepsOver(w2, i, Publishing(a, row.fence, row.quota, |w.log|, Some(item)), ch);
      StepsOver(w3, i, Acking(a, row.fence, row.quota, Some(item)), ch);
      assert w3.callers[i := Done] == w.callers[i := Done];
      assert w2.tables.outbox - {a} == w.tables.outbox - {a};
    } else {
      RefusedIsRetried(w, w2, i, a, now, ch);
    }
  }

  /** The first half: the row claimed, its fence found to be the present one. */
  lemma ClaimedAndChecked(w: World, i: nat, a: string, now: int, ch: Choice) returns (w2: World)
    requires i !in w.callers && a in w.tables.outbox && Due(w.tables.outbox[a], now) && !ch.failed
    requires HoldsFence(w.tables, a, w.tables.outbox[a].fence)
    ensures w2 == Step(Step(w, Claim(i, a, now)), Advance(i, ch))
    ensures var row := w.tables.outbox[a];
            w2 == w.(tables := ClaimRow(w.tables, a, now),
                     callers := w.callers[i := Publishing(a, row.fence, row.quota, |w.log|, Some(ItemOf(w.tables, a, ch.now)))])
  {
    var w1 := Step(w, Claim(i, a, now));
    assert w1 == w.(tables := ClaimRow(w.tables, a, now), callers := w.callers[i := Checking(ItemOf(w.tables, a, now))]);
    hide Step;
    StepsOver(w1, i, Checking(ItemOf(w.tables, a, now)), ch);
    w2 := Step(w1, Advance(i, ch));
    var row := w.tables.outbox[a];
    var publishing := Publishing(a, row.fence, row.quota, |w.log|, Some(ItemOf(w.tables, a, ch.now)));
    assert w1.callers[i := publishing] == w.callers[i := publishing];
  }

  lemma RefusedIsRetried(w: World, w2: World, i: nat, a: string, now: int, ch: Choice)
    requires i !in w.callers && a in w.tables.outbox && ch.publish == Refused
    requires var row := w.tables.outbox[a];
             w2 == w.(tables := ClaimRow(w.tables, a, now),
                      callers := w.callers[i := Publishing(a, row.fence, row.quota, |w.log|, Some(ItemOf(w.tables, a, ch.now)))])
    ensures var v, row := Step(Step(w2, Advance(i, ch)), Advance(i, ch)), w.tables.outbox[a];
            v == w.(callers := w.callers[i := Done],
                    tables := w.tables.(outbox := w.tables.outbox[a := row.(attempts := row.attempts + 1,
                                          due := ch.now + BackoffFor(row.attempts + 1), lockedUntil := None)]))
  {
    hide Step, BackoffFor;
    var row, item := w.tables.outbox[a], ItemOf(w.tables, a, ch.now);
    StepsOver(w2, i, Publishing(a, row.fence, row.quota, |w.log|, Some(item)), ch);
    assert w2.callers[i := Retrying(item)] == w.callers[i := Retrying(item)];
    PutsBack(w, Step(w2, Advance(i, ch)), i, a, now, ch);
  }

  /** A due row whose account has moved to another fence is deleted without being published. */
  lemma UndisturbedStaleRowIsDropped(w: World, i: nat, a: string, now: int, ch: Choice)
    requires i !in w.callers && a in w.tables.outbox && Due(w.tables.outbox[a], now) && !ch.failed
    requires a in w.tables.accounts && w.tables.accounts[a].fence != w.tables.outbox[a].fence
    ensures var v := Step(Step(Step(w, Claim(i, a, now)), Advance(i, ch)), Advance(i, ch));
            && v.callers == w.callers[i := Done] && v.tables == Tables(w.tables.accounts, w.tables.outbox - {a})
            && v.log == w.log && v.committed == w.committed
  {
    var w1 := Claimed(w, i, a, now);
    var item := ItemOf(w.tables, a, ch.now);
    hide Step;
    StepsOver(w1, i, Checking(ItemOf(w.tables, a, now)), ch);
    var w2 := Step(w1, Advance(i, ch));
    assert w2.callers[i] == Dropping(item);
    StepsOver(w2, i, Dropping(item), ch);
    assert w2.callers[i := Done] == w.callers[i := Done];
    assert w2.tables.outbox - {a} == w.tables.outbox - {a};
  }

  /** A claimed row whose account is missing or cannot be read is put back with one more attempt, due after its backoff. */
  lemma UndisturbedFailureIsRetried(w: World, i: nat, a: string, now: int, ch: Choice)
    requires i !in w.callers && a in w.tables.outbox && Due(w.tables.outbox[a], now) && (ch.failed || a !in w.tables.accounts)
    ensures var v, row := Step(Step(Step(w, Claim(i, a, now)), Advance(i, ch)), Advance(i, ch)), w.tables.outbox[a];
            && v.callers == w.callers[i := Done] && v.log == w.log && v.committed == w.committed
            && v.tables.accounts == w.tables.accounts
            && v.tables.outbox == w.tables.outbox[a := row.(attempts := row.attempts + 1,
                                                            due := ch.now + BackoffFor(row.attempts + 1), lockedUntil := None)]
  {
    hide BackoffFor;
    var w1 := Claimed(w, i, a, now);
    var item := ItemOf(w.tables, a, ch.now);
    hide Step;
    StepsOver(w1, i, Checking(ItemOf(w.tables, a, now)), ch);
    assert w1.callers[i := Retrying(item)] == w.callers[i := Retrying(item)];
    PutsBack(w, Step(w1, Advance(i, ch)), i, a, now, ch);
  }

  /** A publish whose acknowledgement fails leaves the row to the next reconciliation, after its backoff. */
  lemma FailedAckIsRetried(w: World, i: nat, a: string, ch: Choice, item: Item)
    requires i in w.callers && w.callers[i] == Acking(a, item.fence, item.quota, Some(item)) && item.account == a && ch.failed
    requires a in w.tables.outbox && w.tables.outbox[a].fence == item.fence
    ensures var v, row := Step(Step(w, Advance(i, ch)), Advance(i, ch)), w.tables.outbox[a];
            && v.callers == w.callers[i := Done] && v.log == w.log && v.tables.accounts == w.tables.accounts
            && v.tables.outbox == w.tables.outbox[a := row.(due := item.began + BackoffFor(item.attempts), lockedUntil := None)]
  {
    hide Step, BackoffFor;
    StepsOver(w, i, w.callers[i], ch);
    var w2 := Step(w, Advance(i, ch));
    StepsOver(w2, i, Retrying(item), ch);
    assert w2.callers[i := Done] == w.callers[i := Done];
  }

  /** A claim takes a row exactly if it is due and no claim still running holds it. */
  lemma Claimed(w: World, i: nat, a: string, now: int) returns (v: World)
    ensures v == Step(w, Claim(i, a, now))
    ensures var free := i !in w.callers && a in w.tables.outbox && w.tables.outbox[a].due <= now
                        && (w.tables.outbox[a].lockedUntil.Some? ==> w.tables.outbox[a].lockedUntil.value <= now);
            && (!free ==> v == w)
            && (free ==> v == w.(tables := ClaimRow(w.tables, a, now), callers := w.callers[i := Checking(ItemOf(w.tables, a, now))]))
  {
    v := Step(w, Claim(i, a, now));
  }

  /** The last step of either: the row is free again. */
  lemma PutsBack(w: World, w2: World, i: nat, a: string, now: int, ch: Choice)
    requires a in w.tables.outbox
    requires w2 == w.(tables := ClaimRow(w.tables, a, now), callers := w.callers[i := Retrying(ItemOf(w.tables, a, ch.now))])
    ensures var v, row := Step(w2, Advance(i, ch)), w.tables.outbox[a];
            v == w.(callers := w.callers[i := Done],
                    tables := w.tables.(outbox := w.tables.outbox[a := row.(attempts := row.attempts + 1,
                                          due := ch.now + BackoffFor(row.attempts + 1), lockedUntil := None)]))
  {
    hide Step, BackoffFor;
    var row, item := w.tables.outbox[a], ItemOf(w.tables, a, ch.now);
    StepsOver(w2, i, Retrying(item), ch);
    assert w2.callers[i := Done] == w.callers[i := Done];
    var free := row.(attempts := row.attempts + 1, due := ch.now + BackoffFor(row.attempts + 1), lockedUntil := None);
    assert ClaimRow(w.tables, a, now).outbox[a := free] == w.tables.outbox[a := free];
  }

  lemma StepsOver(w: World, i: nat, c: Caller, ch: Choice)
    requires i in w.callers && w.callers[i] == c
    ensures var (u, d) := CallStep(w, c, ch); Step(w, Advance(i, ch)) == u.(callers := w.callers[i := d])
  {
    hide CallStep;
  }

  // ------------------------------------------------------------------ what the statements mean

  /** A refresh or an operator moves the fence by one and leaves the quota. */
  lemma BumpMeans(t: Tables, a: string)
    requires a in t.accounts
    ensures Bump(t, a).accounts == t.accounts[a := AccountRow(t.accounts[a].fence + 1, t.accounts[a].quota)] && Bump(t, a).outbox == t.outbox
  {}

  /** A commit goes through exactly under the account's fence; it sets the quota, and queues it under that fence, untried, due at
      once and free. */
  lemma CommitMeans(t: Tables, a: string, fence: nat, quota: string, now: int)
    ensures CommitAndQueue(t, a, fence, quota, now).Some? <==> a in t.accounts && t.accounts[a].fence == fence
    ensures CommitAndQueue(t, a, fence, quota, now).Some? ==>
              var next := CommitAndQueue(t, a, fence, quota, now).value;
              && next.accounts == t.accounts[a := AccountRow(t.accounts[a].fence, quota)]
              && a in next.outbox && next.outbox == t.outbox[a := next.outbox[a]]
              && next.outbox[a].fence == fence && next.outbox[a].quota == quota && next.outbox[a].attempts == 0
              && Due(next.outbox[a], now)
  {}

  /** A row is deleted, or put back, only under the fence it was claimed at; put back it is free and keeps quota and attempts. */
  lemma RowMeans(t: Tables, a: string, fence: nat, next: int)
    ensures var held := a in t.outbox && t.outbox[a].fence == fence;
            && (Ack(t, a, fence).Some? <==> held) && (Retry(t, a, fence, next).Some? <==> held)
            && (held ==> Ack(t, a, fence).value.outbox == t.outbox - {a} && Ack(t, a, fence).value.accounts == t.accounts)
            && (held ==>
                  var v := Retry(t, a, fence, next).value;
                  && v.accounts == t.accounts && v.outbox == t.outbox[a := OutboxRow(fence, t.outbox[a].quota, t.outbox[a].attempts, next, None)])
  {}

  /** A claim takes a row that is due and not held by a claim still running, counts one more attempt, and holds the row for a
      minute. */
  lemma ClaimMeans(t: Tables, a: string, now: int, later: int)
    requires a in t.outbox
    ensures Due(t.outbox[a], now) <==> t.outbox[a].due <= now && (t.outbox[a].lockedUntil.Some? ==> t.outbox[a].lockedUntil.value <= now)
    ensures var v := ClaimRow(t, a, now);
            && v.accounts == t.accounts && a in v.outbox && v.outbox == t.outbox[a := v.outbox[a]]
            && v.outbox[a].fence == t.outbox[a].fence && v.outbox[a].quota == t.outbox[a].quota && v.outbox[a].due == t.outbox[a].due
            && v.outbox[a].attempts == t.outbox[a].attempts + 1
            && (Due(v.outbox[a], later) <==> later >= now + 60 && later >= t.outbox[a].due)
  {}

  /** One minute, two, four, eight, then a quarter of an hour each time. */
  lemma BackoffMeans(attempts: int)
    ensures BackoffFor(attempts) ==
              if attempts <= 1 then 60 else if attempts == 2 then 120 else if attempts == 3 then 240 else if attempts == 4 then 480 else 900
  {
    assert Pow2(0) == 1 && Pow2(1) == 2 && Pow2(2) == 4 && Pow2(3) == 8 && Pow2(4) == 16;
    if attempts >= 5 { Pow2Grows(4, attempts - 1); }
  }
}
