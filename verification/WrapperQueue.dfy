/** The wrapper job queue: workers claim, lose and settle leases through separate Redis calls and one atomic
    script (internal/control/wrapper/queue.go). A run is any interleaving of those calls with key expiry. */
module WrapperQueue {
  import opened Outcomes

  const MAX_LEASE_SECONDS := 900
  const MAX_ATTEMPTS := 32
  const MAX_PENDING := 32

  datatype Job = Job(id: string, account: string, fence: int)

  /** Times are in nanoseconds. */
  datatype Lease = Lease(jobId: string, leaseId: string, workerId: string, account: string, fence: int, expiresAt: int)

  /** The result a worker reports, completed or failed. */
  datatype Envelope = Envelope(completed: bool, jobId: string, leaseId: string, workerId: string, account: string, fence: int, body: string)

  /** Both `Complete` and `Fail` refuse a result that names another lease. */
  predicate Names(e: Envelope, l: Lease) {
    e.jobId == l.jobId && e.leaseId == l.leaseId && e.workerId == l.workerId && e.account == l.account && e.fence == l.fence
  }

  /** What a lease key holds: the leased message and the lease. */
  datatype Record = Record(message: nat, lease: Lease)

  /** The mutable keys: terminals by job, leases by lease id, owners and pending entries by message. */
  datatype Keys = Keys(terminal: map<string, Envelope>, leases: map<string, Record>, owners: map<nat, string>, pending: set<nat>)

  function Marker(worker: string): string { "claiming:" + worker }

  function Millis(t: int): int { t / 1_000_000 }

  // ------------------------------------------------------------------ the two scripts

  datatype Code = Stored | Already | Lost | Conflicting

  /** The terminal script, one atomic step. */
  function TerminalScript(k: Keys, job: string, payload: Envelope, leaseId: string, message: nat, now: int, expires: int): (Keys, Code) {
    if job in k.terminal then (k, if k.terminal[job] == payload then Already else Conflicting)
    else if now >= expires || leaseId !in k.leases || message !in k.owners || k.owners[message] != leaseId then (k, Lost)
    else (Keys(k.terminal[job := payload], k.leases - {leaseId}, k.owners - {message}, k.pending - {message}), Stored)
  }

  // ------------------------------------------------------------------ one caller

  /** Where a claim stands between two Redis calls. */
  datatype ClaimAt =
    | Listing
    | Probing(items: seq<nat>)
    | Marking(item: nat, rest: seq<nat>)
    | Claiming(item: nat, rest: seq<nat>)
    | Peeking(item: nat, rest: seq<nat>, failed: bool)
    | Unmarking(item: nat, rest: seq<nat>, failed: bool)
    | Reading
    | MarkingNew(item: nat)
    | Deciding(item: nat)
    | Burying(item: nat)
    | Acking(item: nat)
    | Leasing(item: nat, job: Job)

  /** Where `terminal` stands. `existing` says that the caller's envelope was already stored at the first read. */
  datatype SettleAt = Looking | Fetching(existing: bool) | Owning(record: Record) | Committing(record: Record)

  datatype Outcome = Acknowledged | LeaseLost | TerminalConflict

  datatype Caller =
    | Claim(worker: string, ttl: int, attempt: nat, claimAt: ClaimAt)
    | Claimed(message: nat, claimed: Lease)
    | NoJob
    | Settle(lease: Lease, payload: Envelope, settleAt: SettleAt)
    | Settled(lease: Lease, payload: Envelope, outcome: Outcome)

  /** What the environment decides in a step: clock readings, listings, the answer of XCLAIM, random ids. */
  datatype Choice = Choice(now: int, later: int, items: seq<nat>, returned: bool, failed: bool, leaseId: string)

  /** Redis, every caller, and for the record each lease ever issued. */
  datatype World = World(
    keys: Keys, stream: seq<Option<Job>>, delivered: nat, dead: set<nat>, enqueued: map<string, nat>,
    callers: map<nat, Caller>, issued: map<string, Record>)

  const START := World(Keys(map[], map[], map[], {}), [], 0, {}, map[], map[], map[])

  function At(c: Caller, at: ClaimAt): Caller
    requires c.Claim?
  {
    c.(claimAt := at)
  }

  function NextAttempt(c: Caller): Caller
    requires c.Claim?
  {
    if c.attempt + 1 < MAX_ATTEMPTS then c.(attempt := c.attempt + 1, claimAt := Listing) else NoJob
  }

  function AfterGivingUp(c: Caller, rest: seq<nat>, failed: bool): Caller
    requires c.Claim?
  {
    if failed then NoJob else At(c, Probing(rest))
  }

  function Listed(items: seq<nat>, pending: set<nat>): bool {
    |items| <= MAX_PENDING && forall m :: m in items ==> m in pending
  }

  /** One Redis call of a claim: the world's keys and the caller afterwards. */
  function ClaimStep(w: World, c: Caller, ch: Choice): (World, Caller)
    requires c.Claim?
  {
    var k := w.keys;
    match c.claimAt
    case Listing => (w, if Listed(ch.items, k.pending) then At(c, Probing(ch.items)) else c)
    case Probing(items) =>
      (w, if items == [] then At(c, Reading)
          else if items[0] in k.owners then At(c, Probing(items[1..]))
          else At(c, Marking(items[0], items[1..])))
    case Marking(item, rest) =>
      if item in k.owners then (w, At(c, Probing(rest)))
      else (w.(keys := k.(owners := k.owners[item := Marker(c.worker)])), At(c, Claiming(item, rest)))
    case Claiming(item, rest) =>
      (w, if !ch.failed && ch.returned && item in k.pending then At(c, Deciding(item)) else At(c, Peeking(item, rest, ch.failed)))
    case Peeking(item, rest, failed) =>
      (w, if item in k.owners && k.owners[item] == Marker(c.worker) then At(c, Unmarking(item, rest, failed))
          else AfterGivingUp(c, rest, failed))
    case Unmarking(item, rest, failed) =>
      (w.(keys := k.(owners := k.owners - {item})), AfterGivingUp(c, rest, failed))
    case Reading =>
      if w.delivered < |w.stream| then
        (w.(keys := k.(pending := k.pending + {w.delivered}), delivered := w.delivered + 1), At(c, MarkingNew(w.delivered)))
      else (w, NoJob)
    case MarkingNew(item) =>
      if item in k.owners then (w, NoJob)
      else (w.(keys := k.(owners := k.owners[item := Marker(c.worker)])), At(c, Deciding(item)))
    case Deciding(item) =>
      (w, if item >= |w.stream| || w.stream[item].None? then At(c, Burying(item))
          else if w.stream[item].value.id in k.terminal then At(c, Acking(item))
          else At(c, Leasing(item, w.stream[item].value)))
    case Burying(item) => (w.(dead := w.dead + {item}), At(c, Acking(item)))
    case Acking(item) => (w.(keys := k.(pending := k.pending - {item})), NextAttempt(c))
    case Leasing(item, job) =>
      if ch.leaseId in w.issued then (w, c)
      else
        var lease := Lease(job.id, ch.leaseId, c.worker, job.account, job.fence, ch.now + c.ttl * 1_000_000_000);
        var record := Record(item, lease);
        (w.(keys := k.(leases := k.leases[ch.leaseId := record], owners := k.owners[item := ch.leaseId]),
            issued := w.issued[ch.leaseId := record]),
         Claimed(item, lease))
  }

  /** One Redis call of `terminal`. */
  function SettleStep(k: Keys, c: Caller, ch: Choice): (Keys, Caller)
    requires c.Settle?
  {
    var lease, payload := c.lease, c.payload;
    match c.settleAt
    case Looking =>
      var existing := lease.jobId in k.terminal;
      (k, if existing && k.terminal[lease.jobId] != payload then Settled(lease, payload, TerminalConflict)
          else if existing && ch.now >= lease.expiresAt then Settled(lease, payload, Acknowledged)
          else if ch.later >= lease.expiresAt then Settled(lease, payload, LeaseLost)
          else c.(settleAt := Fetching(existing)))
    case Fetching(existing) =>
      (k, if lease.leaseId !in k.leases then Settled(lease, payload, if existing then Acknowledged else LeaseLost)
          else if k.leases[lease.leaseId].lease != lease then Settled(lease, payload, LeaseLost)
          else c.(settleAt := Owning(k.leases[lease.leaseId])))
    case Owning(record) =>
      (k, if record.message in k.owners && k.owners[record.message] == lease.leaseId then c.(settleAt := Committing(record))
          else Settled(lease, payload, LeaseLost))
    case Committing(record) =>
      var (next, code) :=
        TerminalScript(k, lease.jobId, payload, lease.leaseId, record.message, Millis(ch.now), Millis(lease.expiresAt));
      (next, Settled(lease, payload, match code
                                     case Stored => Acknowledged
                                     case Already => Acknowledged
                                     case Lost => LeaseLost
                                     case Conflicting => TerminalConflict))
  }

  function Rank(at: SettleAt): nat {
    match at case Looking => 3 case Fetching(_) => 2 case Owning(_) => 1 case Committing(_) => 0
  }

  /** All the calls of `terminal`, one after the other. */
  function SettleAll(k: Keys, c: Caller, ch: Choice): (Keys, Caller)
    requires c.Settle?
    decreases Rank(c.settleAt)
  {
    var (next, d) := SettleStep(k, c, ch);
    if d.Settle? then SettleAll(next, d, ch) else (next, d)
  }

  /** Redis as the scripts change it. */
  class Redis {
    var terminal: map<string, Envelope>
    var leases: map<string, Record>
    var owners: map<nat, string>
    var pending: set<nat>
    var stream: seq<Option<Job>>
    var enqueued: map<string, nat>

    ghost function View(): Keys
      reads this
    {
      Keys(terminal, leases, owners, pending)
    }

    method RunTerminal(job: string, payload: Envelope, leaseId: string, message: nat, now: int, expires: int) returns (code: Code)
      modifies `terminal, `leases, `owners, `pending
      ensures (View(), code) == TerminalScript(old(View()), job, payload, leaseId, message, now, expires)
    {
      if job in terminal {
        if terminal[job] == payload { return Already; }
        return Conflicting;
      }
      if now >= expires { return Lost; }
      if leaseId !in leases { return Lost; }
      if message !in owners || owners[message] != leaseId { return Lost; }
      terminal := terminal[job := payload];
      pending := pending - {message};
      leases := leases - {leaseId};
      owners := owners - {message};
      return Stored;
    }

    /** A job already enqueued keeps its message; otherwise it gets a new one at the end of the stream. */
    method RunEnqueue(job: Job) returns (message: nat)
      modifies `stream, `enqueued
      ensures job.id in old(enqueued) ==> message == old(enqueued)[job.id] && stream == old(stream) && enqueued == old(enqueued)
      ensures job.id !in old(enqueued) ==>
                message == |old(stream)| && stream == old(stream) + [Some(job)] && enqueued == old(enqueued)[job.id := message]
    {
      if job.id in enqueued { return enqueued[job.id]; }
      message := |stream|;
      stream := stream + [Some(job)];
      enqueued := enqueued[job.id := message];
    }

    /** `terminal` with nobody else interfering: its calls one after the other. */
    method Settle(lease: Lease, payload: Envelope, ch: Choice) returns (outcome: Outcome)
      modifies `terminal, `leases, `owners, `pending
      ensures (View(), Settled(lease, payload, outcome)) == SettleAll(old(View()), Caller.Settle(lease, payload, Looking), ch)
    {
      hide TerminalScript, Millis;
      var existing := lease.jobId in terminal;
      if existing {
        if terminal[lease.jobId] != payload { return TerminalConflict; }
        if ch.now >= lease.expiresAt { return Acknowledged; }
      }
      if ch.later >= lease.expiresAt { return LeaseLost; }
      ghost var looking, fetching := Caller.Settle(lease, payload, Looking), Caller.Settle(lease, payload, Fetching(existing));
      assert SettleAll(View(), looking, ch) == SettleAll(View(), fetching, ch);
      if lease.leaseId !in leases {
        if existing { return Acknowledged; }
        return LeaseLost;
      }
      var record := leases[lease.leaseId];
      if record.lease != lease { return LeaseLost; }
      ghost var owning, committing := Caller.Settle(lease, payload, Owning(record)), Caller.Settle(lease, payload, Committing(record));
      assert SettleAll(View(), fetching, ch) == SettleAll(View(), owning, ch);
      if record.message !in owners || owners[record.message] != lease.leaseId { return LeaseLost; }
      assert SettleAll(View(), owning, ch) == SettleAll(View(), committing, ch);
      var code := RunTerminal(lease.jobId, payload, lease.leaseId, record.message, Millis(ch.now), Millis(lease.expiresAt));
      match code {
        case Stored => return Acknowledged;
        case Already => return Acknowledged;
        case Lost => return LeaseLost;
        case Conflicting => return TerminalConflict;
      }
    }
  }

  // ------------------------------------------------------------------ every interleaving

  datatype Event =
    | Enqueue(job: Job)
    | Stray                                     // an entry some other writer put into the stream, not decodable
    | BeginClaim(caller: nat, worker: string, ttl: int)
    | BeginSettle(caller: nat, lease: Lease, payload: Envelope)
    | Advance(caller: nat, choice: Choice)
    | LeaseExpires(leaseId: string)
    | OwnerExpires(message: nat)

  function Step(w: World, e: Event): World {
    match e
    case Enqueue(job) =>
      if job.id in w.enqueued then w
      else w.(stream := w.stream + [Some(job)], enqueued := w.enqueued[job.id := |w.stream|])
    case Stray => w.(stream := w.stream + [None])
    case BeginClaim(caller, worker, ttl) =>
      if caller in w.callers || ttl > MAX_LEASE_SECONDS then w
      else w.(callers := w.callers[caller := Claim(worker, ttl, 0, Listing)])
    case BeginSettle(caller, lease, payload) =>
      if caller in w.callers || !Names(payload, lease) then w
      else w.(callers := w.callers[caller := Settle(lease, payload, Looking)])
    case Advance(caller, choice) =>
      if caller !in w.callers then w
      else
        (match w.callers[caller]
         case Claim(_, _, _, _) =>
           var (next, c) := ClaimStep(w, w.callers[caller], choice);
           next.(callers := next.callers[caller := c])
         case Settle(_, _, _) =>
           var (keys, c) := SettleStep(w.keys, w.callers[caller], choice);
           w.(keys := keys, callers := w.callers[caller := c])
         case _ => w)
    case LeaseExpires(leaseId) => w.(keys := w.keys.(leases := w.keys.leases - {leaseId}))
    case OwnerExpires(message) => w.(keys := w.keys.(owners := w.keys.owners - {message}))
  }

  function Run(w: World, events: seq<Event>): World
    decreases |events|
  {
    if events == [] then w else Run(Step(w, events[0]), events[1..])
  }

  // ------------------------------------------------------------------ the invariant

  predicate MessageOf(w: World, m: nat, job: Job) { m < |w.stream| && w.stream[m] == Some(job) }

  /** A message nobody needs to look at again: its job has a terminal, or it cannot be decoded and was dead-lettered. */
  predicate Finished(w: World, m: nat) {
    m < |w.stream| &&
    match w.stream[m]
    case None => m in w.dead
    case Some(job) => job.id in w.keys.terminal
  }

  predicate IssuedFor(w: World, leaseId: string, record: Record) {
    var m, l := record.message, record.lease;
    && m < |w.stream| && w.stream[m].Some?
    && l.leaseId == leaseId && l.jobId == w.stream[m].value.id
    && l.account == w.stream[m].value.account && l.fence == w.stream[m].value.fence
  }

  /** The job's stored terminal is exactly this envelope. */
  predicate Holds(w: World, job: string, payload: Envelope) { job in w.keys.terminal && w.keys.terminal[job] == payload }

  predicate AllBelow(items: seq<nat>, n: nat) { forall m :: m in items ==> m < n }

  predicate ClaimOk(w: World, at: ClaimAt) {
    match at
    case Listing => true
    case Reading => true
    case Probing(items) => AllBelow(items, w.delivered)
    case Marking(m, rest) => m < w.delivered && AllBelow(rest, w.delivered)
    case Claiming(m, rest) => m < w.delivered && AllBelow(rest, w.delivered)
    case Peeking(m, rest, _) => m < w.delivered && AllBelow(rest, w.delivered)
    case Unmarking(m, rest, _) => m < w.delivered && AllBelow(rest, w.delivered)
    case MarkingNew(m) => m < w.delivered
    case Deciding(m) => m < w.delivered
    case Burying(m) => m < w.delivered && m < |w.stream| && w.stream[m].None?
    case Acking(m) => m < w.delivered && Finished(w, m)
    case Leasing(m, job) => MessageOf(w, m, job)
  }

  predicate CallerOk(w: World, c: Caller) {
    match c
    case Claim(_, _, _, at) =>
      ClaimOk(w, at)
    case Settle(lease, payload, at) =>
      && Names(payload, lease)
      && (match at
          case Looking => true
          case Fetching(existing) => existing ==> Holds(w, lease.jobId, payload)
          case Owning(record) => lease.leaseId in w.issued && w.issued[lease.leaseId] == record && record.lease == lease
          case Committing(record) => lease.leaseId in w.issued && w.issued[lease.leaseId] == record && record.lease == lease)
    case Settled(lease, payload, outcome) =>
      Names(payload, lease) && (outcome == Acknowledged ==> Holds(w, lease.jobId, payload))
    case Claimed(m, lease) => lease.leaseId in w.issued && w.issued[lease.leaseId] == Record(m, lease)
    case NoJob => true
  }

  /** What holds of Redis alone. */
  ghost predicate Core(w: World) {
    && w.delivered <= |w.stream|
    && (forall m :: m in w.keys.pending ==> m < w.delivered)
    && (forall m: nat :: m < w.delivered ==> m in w.keys.pending || Finished(w, m))
    && (forall m :: m in w.dead ==> m < |w.stream| && w.stream[m].None?)
    && (forall id :: id in w.keys.leases ==> id in w.issued && w.issued[id] == w.keys.leases[id])
    && (forall id :: id in w.issued ==> IssuedFor(w, id, w.issued[id]))
    && (forall id :: id in w.enqueued ==> w.enqueued[id] < |w.stream| && w.stream[w.enqueued[id]].Some? && w.stream[w.enqueued[id]].value.id == id)
    && (forall m: nat :: m < |w.stream| && w.stream[m].Some? ==>
          w.stream[m].value.id in w.enqueued && w.enqueued[w.stream[m].value.id] == m)
    && (forall job :: job in w.keys.terminal ==> WrittenUnderLease(w, job))
  }

  ghost predicate Inv(w: World) {
    Core(w) && forall i :: i in w.callers ==> CallerOk(w, w.callers[i])
  }

  /** The stored terminal names a lease that was issued for this job's own message. */
  predicate WrittenUnderLease(w: World, job: string) {
    job in w.keys.terminal &&
    var e := w.keys.terminal[job];
    && e.jobId == job && e.leaseId in w.issued
    && Names(e, w.issued[e.leaseId].lease)
  }

  /** What later steps may do to what a caller relies on. */
  ghost predicate Grows(w: World, v: World) {
    && w.stream <= v.stream && w.delivered <= v.delivered <= |v.stream| && w.dead <= v.dead
    && (forall id :: id in w.issued ==> id in v.issued && v.issued[id] == w.issued[id])
    && (forall job :: job in w.keys.terminal ==> job in v.keys.terminal && v.keys.terminal[job] == w.keys.terminal[job])
  }

  lemma CallerStaysOk(w: World, v: World, c: Caller)
    requires w.delivered <= |w.stream| && Grows(w, v) && CallerOk(w, c)
    ensures CallerOk(v, c)
  {}

  /** A step that only adds, and leaves the one caller it moved in order, keeps the invariant. */
  lemma Assemble(w: World, v: World, i: nat, c: Caller)
    requires Inv(w) && Grows(w, v) && Core(v) && v.callers == w.callers[i := c] && CallerOk(v, c)
    ensures Inv(v)
  {
    forall j | j in v.callers ensures CallerOk(v, v.callers[j]) {
      if j != i { CallerStaysOk(w, v, v.callers[j]); }
    }
  }

  /** What has been established stays so. */
  lemma CarryOver(w: World, v: World)
    requires Grows(w, v)
    ensures forall m: nat :: Finished(w, m) ==> Finished(v, m)
    ensures forall id :: id in w.issued && IssuedFor(w, id, w.issued[id]) ==> IssuedFor(v, id, v.issued[id])
    ensures forall job :: WrittenUnderLease(w, job) ==> WrittenUnderLease(v, job)
  {}

  /** Owners may change at will; a pending entry may go once its message is finished; terminals may be added. */
  lemma KeysChange(w: World, v: World)
    requires Core(w) && v == w.(keys := v.keys)
    requires v.keys.pending <= w.keys.pending
    requires forall id :: id in v.keys.leases ==> id in w.keys.leases && w.keys.leases[id] == v.keys.leases[id]
    requires forall job :: job in w.keys.terminal ==> job in v.keys.terminal && v.keys.terminal[job] == w.keys.terminal[job]
    requires forall m :: m in w.keys.pending - v.keys.pending ==> Finished(v, m)
    requires forall job :: job in v.keys.terminal && job !in w.keys.terminal ==> WrittenUnderLease(v, job)
    ensures Core(v) && Grows(w, v)
  {
    hide Finished, IssuedFor, WrittenUnderLease;
    CarryOver(w, v);
    forall job | job in v.keys.terminal ensures WrittenUnderLease(v, job) {
      if job in w.keys.terminal { assert WrittenUnderLease(w, job); }
    }
    forall m: nat | m < v.delivered ensures m in v.keys.pending || Finished(v, m) {
      assert m in w.keys.pending || Finished(w, m);
      if m in w.keys.pending && m !in v.keys.pending { assert m in w.keys.pending - v.keys.pending; }
    }
  }

  lemma ReadingKeeps(w: World)
    requires Core(w) && w.delivered < |w.stream|
    ensures var v := w.(keys := w.keys.(pending := w.keys.pending + {w.delivered}), delivered := w.delivered + 1);
            Core(v) && Grows(w, v)
  {
    var v := w.(keys := w.keys.(pending := w.keys.pending + {w.delivered}), delivered := w.delivered + 1);
    hide Finished, IssuedFor, WrittenUnderLease;
    CarryOver(w, v);
  }

  lemma BuryingKeeps(w: World, m: nat)
    requires Core(w) && m < |w.stream| && w.stream[m].None?
    ensures var v := w.(dead := w.dead + {m}); Core(v) && Grows(w, v) && Finished(v, m)
  {
    var v := w.(dead := w.dead + {m});
    CarryOver(w, v);
  }

  lemma IssuedOnStream(w: World, v: World, leaseId: string, record: Record)
    requires IssuedFor(w, leaseId, record) && v.stream == w.stream
    ensures IssuedFor(v, leaseId, record)
  {}

  lemma LeasingKeeps(w: World, v: World, leaseId: string, record: Record)
    requires Core(w) && leaseId !in w.issued && IssuedFor(w, leaseId, record)
    requires v == w.(keys := w.keys.(leases := w.keys.leases[leaseId := record], owners := w.keys.owners[record.message := leaseId]),
                     issued := w.issued[leaseId := record])
    ensures Core(v) && Grows(w, v)
  {
    hide Finished, IssuedFor, WrittenUnderLease;
    assert Grows(w, v);
    CarryOver(w, v);
    IssuedOnStream(w, v, leaseId, record);
    forall id | id in v.issued ensures IssuedFor(v, id, v.issued[id]) {
      if id != leaseId { assert IssuedFor(w, id, w.issued[id]); }
    }
  }

  lemma ClaimKeeps(w: World, c: Caller, ch: Choice)
    requires Core(w) && c.Claim? && CallerOk(w, c)
    ensures var (v, d) := ClaimStep(w, c, ch); Grows(w, v) && Core(v) && CallerOk(v, d) && v.callers == w.callers
  {
    assert w.delivered <= |w.stream| && forall m :: m in w.keys.pending ==> m < w.delivered;
    hide Core;
    if ClaimStep(w, c, ch).0 == w {
      CoreIgnoresCallers(w, w);
      ClaimReads(w, c, ch);
    } else {
      ClaimWrites(w, c, ch);
    }
  }

  lemma ClaimReads(w: World, c: Caller, ch: Choice)
    requires w.delivered <= |w.stream| && forall m :: m in w.keys.pending ==> m < w.delivered
    requires c.Claim? && CallerOk(w, c) && ClaimStep(w, c, ch).0 == w
    ensures CallerOk(w, ClaimStep(w, c, ch).1)
  {
    hide Marker;
    var v := ClaimStep(w, c, ch).0;
    match c.claimAt {
      case Probing(items) =>
        if items != [] {
          assert items[0] in items;
          assert forall m :: m in items[1..] ==> m in items;
        }
      case Reading => assert w.delivered < |w.stream| ==> v.delivered != w.delivered;
      case Marking(m, _) => assert m !in w.keys.owners ==> m in v.keys.owners;
      case MarkingNew(m) => assert m !in w.keys.owners ==> m in v.keys.owners;
      case Burying(m) => assert m in v.dead;
      case Leasing(m, _) => assert ch.leaseId !in w.issued ==> ch.leaseId in v.issued;
      case _ =>
    }
  }

  /** Marking and unmarking a message change its owner key only. */
  lemma ClaimMarks(w: World, c: Caller, ch: Choice)
    requires Core(w) && c.Claim? && CallerOk(w, c) && (c.claimAt.Marking? || c.claimAt.Unmarking? || c.claimAt.MarkingNew?)
    ensures var (v, d) := ClaimStep(w, c, ch); Grows(w, v) && Core(v) && CallerOk(v, d) && v.callers == w.callers
  {
    hide Core, Marker, Finished, AllBelow;
    KeysChange(w, ClaimStep(w, c, ch).0);
  }

  lemma ClaimWrites(w: World, c: Caller, ch: Choice)
    requires Core(w) && c.Claim? && CallerOk(w, c) && ClaimStep(w, c, ch).0 != w
    ensures var (v, d) := ClaimStep(w, c, ch); Grows(w, v) && Core(v) && CallerOk(v, d) && v.callers == w.callers
  {
    hide Core, Marker, Finished, AllBelow;
    if c.claimAt.Marking? || c.claimAt.Unmarking? || c.claimAt.MarkingNew? {
      hide ClaimStep;
      ClaimMarks(w, c, ch);
    } else {
      ClaimRecords(w, c, ch);
    }
  }

  lemma ClaimRecords(w: World, c: Caller, ch: Choice)
    requires Core(w) && c.Claim? && CallerOk(w, c) && ClaimStep(w, c, ch).0 != w
    requires !c.claimAt.Marking? && !c.claimAt.Unmarking? && !c.claimAt.MarkingNew?
    ensures var (v, d) := ClaimStep(w, c, ch); Grows(w, v) && Core(v) && CallerOk(v, d) && v.callers == w.callers
  {
    hide Core, Finished, AllBelow;
    var v := ClaimStep(w, c, ch).0;
    match c.claimAt {
      case Reading => ReadingKeeps(w);
      case Burying(m) => BuryingKeeps(w, m);
      case Acking(m) => FinishedIsSticky(w, v, m); KeysChange(w, v);
      case Leasing(m, job) => LeasingKeeps(w, v, ch.leaseId, v.issued[ch.leaseId]);
      case _ =>
    }
  }

  lemma FinishedIsSticky(w: World, v: World, m: nat)
    requires Finished(w, m) && v.stream == w.stream && v.dead == w.dead && v.keys.terminal == w.keys.terminal
    ensures Finished(v, m)
  {}

  /** The script under a record that was issued for the lease. */
  lemma ScriptKeeps(w: World, lease: Lease, payload: Envelope, record: Record, now: int, expires: int)
    requires Core(w) && Names(payload, lease)
    requires lease.leaseId in w.issued && w.issued[lease.leaseId] == record && record.lease == lease
    ensures var (keys, code) := TerminalScript(w.keys, lease.jobId, payload, lease.leaseId, record.message, now, expires);
            var v := w.(keys := keys);
            Grows(w, v) && Core(v) && (code == Stored || code == Already ==> Holds(v, lease.jobId, payload))
  {
    assert IssuedFor(w, lease.leaseId, record);
    hide Core;
    var (keys, code) := TerminalScript(w.keys, lease.jobId, payload, lease.leaseId, record.message, now, expires);
    var v := w.(keys := keys);
    if code == Stored {
      assert Finished(v, record.message);
      assert WrittenUnderLease(v, lease.jobId);
    }
    KeysChange(w, v);
  }

  lemma SettleKeeps(w: World, c: Caller, ch: Choice)
    requires Core(w) && c.Settle? && CallerOk(w, c)
    ensures var (keys, d) := SettleStep(w.keys, c, ch);
            var v := w.(keys := keys);
            Grows(w, v) && Core(v) && CallerOk(v, d)
  {
    hide TerminalScript, Finished, WrittenUnderLease, IssuedFor, Millis;
    match c.settleAt {
      case Committing(record) => ScriptKeeps(w, c.lease, c.payload, record, Millis(ch.now), Millis(c.lease.expiresAt));
      case _ => assert w.(keys := w.keys) == w;
    }
  }

  lemma EnqueueKeeps(w: World, e: Event)
    requires Core(w) && (e.Enqueue? || e.Stray?)
    ensures Grows(w, Step(w, e)) && Core(Step(w, e))
  {
    hide Core;
    GrowsItself(w);
    if !(e.Enqueue? && e.job.id in w.enqueued) {
      AppendKeeps(w, Step(w, e), if e.Enqueue? then Some(e.job) else None);
    }
  }

  lemma GrowsItself(w: World)
    requires Core(w)
    ensures Grows(w, w)
  {}

  lemma AppendKeeps(w: World, v: World, entry: Option<Job>)
    requires Core(w) && (entry.Some? ==> entry.value.id !in w.enqueued)
    requires v == w.(stream := w.stream + [entry],
                     enqueued := if entry.Some? then w.enqueued[entry.value.id := |w.stream|] else w.enqueued)
    ensures Grows(w, v) && Core(v)
  {
    hide Finished, IssuedFor, WrittenUnderLease;
    CarryOver(w, v);
    assert forall m: nat :: m < |w.stream| ==> v.stream[m] == w.stream[m];
  }


  lemma StepKeepsInv(w: World, e: Event)
    requires Inv(w)
    ensures Inv(Step(w, e)) && Grows(w, Step(w, e))
  {
    hide Core, CallerOk, ClaimStep, SettleStep;
    var v := Step(w, e);
    match e {
      case Enqueue(_) => EnqueueKeeps(w, e); EveryoneStaysOk(w, v);
      case Stray => EnqueueKeeps(w, e); EveryoneStaysOk(w, v);
      case BeginClaim(i, worker, ttl) =>
        CoreIgnoresCallers(w, v);
        BeginnersOk(v, Claim(worker, ttl, 0, Listing));
        if v != w { Assemble(w, v, i, v.callers[i]); }
      case BeginSettle(i, lease, payload) =>
        CoreIgnoresCallers(w, v);
        if v != w {
          BeginnersOk(v, v.callers[i]);
          Assemble(w, v, i, v.callers[i]);
        }
      case Advance(i, ch) =>
        if i in w.callers {
          var c := w.callers[i];
          if c.Claim? {
            ClaimKeeps(w, c, ch);
            var (u, d) := ClaimStep(w, c, ch);
            MovedOne(w, u, v, i, d);
          } else if c.Settle? {
            SettleKeeps(w, c, ch);
            var (keys, d) := SettleStep(w.keys, c, ch);
            MovedOne(w, w.(keys := keys), v, i, d);
          } else {
            CoreIgnoresCallers(w, w);
          }
        } else {
          CoreIgnoresCallers(w, w);
        }
      case LeaseExpires(id) => ExpiryKeeps(w, e); EveryoneStaysOk(w, v);
      case OwnerExpires(m) => ExpiryKeeps(w, e); EveryoneStaysOk(w, v);
    }
  }

  lemma ExpiryKeeps(w: World, e: Event)
    requires Core(w) && (e.LeaseExpires? || e.OwnerExpires?)
    ensures Grows(w, Step(w, e)) && Core(Step(w, e))
  {
    var v := Step(w, e);
    hide Finished, IssuedFor, WrittenUnderLease;
    CarryOver(w, v);
  }

  lemma EveryoneStaysOk(w: World, v: World)
    requires Inv(w) && Grows(w, v) && Core(v) && v.callers == w.callers
    ensures Inv(v)
  {
    forall j | j in v.callers ensures CallerOk(v, v.callers[j]) {
      CallerStaysOk(w, v, v.callers[j]);
    }
  }

  lemma CoreIgnoresCallers(w: World, v: World)
    requires Core(w) && v == w.(callers := v.callers)
    ensures Core(v) && Grows(w, v)
  {
    hide Finished, IssuedFor, WrittenUnderLease;
    CarryOver(w, v);
  }

  lemma BeginnersOk(w: World, c: Caller)
    requires (c.Claim? && c.claimAt.Listing?) || (c.Settle? && c.settleAt.Looking? && Names(c.payload, c.lease))
    ensures CallerOk(w, c)
  {}

  lemma MovedOne(w: World, u: World, v: World, i: nat, d: Caller)
    requires Inv(w) && Grows(w, u) && Core(u) && CallerOk(u, d) && u.callers == w.callers && v == u.(callers := u.callers[i := d])
    ensures Inv(v) && Grows(w, v)
  {
    hide Core;
    CoreIgnoresCallers(u, v);
    assert u.delivered <= |u.stream|;
    CallerStaysOk(u, v, d);
    Assemble(w, v, i, d);
  }

  lemma {:induction false} RunKeepsInv(w: World, events: seq<Event>)
    requires Inv(w)
    ensures Inv(Run(w, events)) && Grows(w, Run(w, events))
    decreases |events|
  {
    hide Core, CallerOk, Step;
    if events == [] {
      CoreIgnoresCallers(w, w);
    } else {
      StepKeepsInv(w, events[0]);
      RunKeepsInv(Step(w, events[0]), events[1..]);
    }
  }

  /** Every state any interleaving reaches from empty keys. */
  lemma ReachableInv(events: seq<Event>)
    ensures Inv(Run(START, events))
  {
    RunKeepsInv(START, events);
  }

  // ------------------------------------------------------------------ what it is for

  /** A stored terminal never changes, whoever does what afterwards. */
  lemma TerminalIsForever(before: seq<Event>, after: seq<Event>, job: string)
    requires job in Run(START, before).keys.terminal
    ensures Holds(Run(Run(START, before), after), job, Run(START, before).keys.terminal[job])
  {
    hide Core, CallerOk, Step, Run;
    ReachableInv(before);
    RunKeepsInv(Run(START, before), after);
  }

  /** `Complete` and `Fail` return no error only when the job's terminal is the caller's own envelope. */
  lemma AcknowledgedMeansStored(events: seq<Event>, caller: nat)
    requires var w := Run(START, events); caller in w.callers && w.callers[caller].Settled? && w.callers[caller].outcome == Acknowledged
    ensures var w := Run(START, events);
            Holds(w, w.callers[caller].lease.jobId, w.callers[caller].payload)
  {
    hide Core, Step, Run;
    ReachableInv(events);
    assert CallerOk(Run(START, events), Run(START, events).callers[caller]);
  }

  /** Two acknowledged callers of one job reported the same envelope under the same lease. */
  lemma OneWinner(events: seq<Event>, a: nat, b: nat)
    requires var w := Run(START, events);
             && a in w.callers && w.callers[a].Settled? && w.callers[a].outcome == Acknowledged
             && b in w.callers && w.callers[b].Settled? && w.callers[b].outcome == Acknowledged
             && w.callers[a].lease.jobId == w.callers[b].lease.jobId
    ensures var w := Run(START, events);
            && w.callers[a].payload == w.callers[b].payload
            && w.callers[a].lease.leaseId == w.callers[b].lease.leaseId
  {
    hide Core, Step, Run;
    AcknowledgedMeansStored(events, a);
    AcknowledgedMeansStored(events, b);
    ReachableInv(events);
    var w := Run(START, events);
    assert CallerOk(w, w.callers[a]) && CallerOk(w, w.callers[b]);
  }

  /** The first write of a job's terminal: the writer's lease is, at that instant, unexpired, the one its key
      records, the recorded owner of the message it was issued for, and that message carries this very job.
      The write acknowledges the message and gives the lease up. */
  lemma FirstWriteIsCurrentLease(events: seq<Event>, e: Event, job: string)
    requires job !in Run(START, events).keys.terminal && job in Step(Run(START, events), e).keys.terminal
    ensures var w := Run(START, events);
            var v := Step(w, e);
            && e.Advance? && e.caller in w.callers && w.callers[e.caller].Settle?
            && var c := w.callers[e.caller];
            && var l := c.lease;
            && l.jobId == job && v.keys.terminal[job] == c.payload && e.choice.now < l.expiresAt
            && l.leaseId in w.keys.leases && w.keys.leases[l.leaseId].lease == l
            && var m := w.keys.leases[l.leaseId].message;
            && m in w.keys.owners && w.keys.owners[m] == l.leaseId
            && MessageOf(w, m, Job(job, l.account, l.fence))
            && m !in v.keys.pending && l.leaseId !in v.keys.leases && m !in v.keys.owners
            && v.callers[e.caller] == Settled(l, c.payload, Acknowledged)
  {
    hide Run;
    ReachableInv(events);
    var w := Run(START, events);
    WriterIsCommitting(w, e, job);
    var c := w.callers[e.caller];
    var record := c.settleAt.record;
    assert CallerOk(w, c);
    assert IssuedFor(w, c.lease.leaseId, record);
  }

  lemma WriterIsCommitting(w: World, e: Event, job: string)
    requires job !in w.keys.terminal && job in Step(w, e).keys.terminal
    ensures e.Advance? && e.caller in w.callers && w.callers[e.caller].Settle? && w.callers[e.caller].settleAt.Committing?
  {
    hide ClaimStep, SettleStep;
    if e.Advance? && e.caller in w.callers {
      var c := w.callers[e.caller];
      if c.Claim? { ClaimLeavesTerminals(w, c, e.choice); }
      if c.Settle? && !c.settleAt.Committing? { OnlyCommittingWrites(w.keys, c, e.choice); }
    }
  }

  lemma ClaimLeavesTerminals(w: World, c: Caller, ch: Choice)
    requires c.Claim?
    ensures ClaimStep(w, c, ch).0.keys.terminal == w.keys.terminal
  {
    hide Marker;
  }

  lemma OnlyCommittingWrites(k: Keys, c: Caller, ch: Choice)
    requires c.Settle? && !c.settleAt.Committing?
    ensures SettleStep(k, c, ch).0 == k
  {}

  /** Nothing is lost: a delivered message is pending until its job has a terminal, or it was dead-lettered
      because it does not decode. A job id owns exactly one message, so a second enqueue adds no work. */
  lemma NothingIsLost(events: seq<Event>, m: nat)
    requires m < |Run(START, events).stream|
    ensures var w := Run(START, events);
            && (m < w.delivered && m !in w.keys.pending ==> Finished(w, m))
            && (w.stream[m].Some? ==>
                  && (forall n: nat :: n < |w.stream| && n != m && w.stream[n].Some? ==> w.stream[n].value.id != w.stream[m].value.id)
                  && forall job: Job :: job.id == w.stream[m].value.id ==> Step(w, Enqueue(job)) == w)
  {
    hide Run;
    ReachableInv(events);
  }

  // ------------------------------------------------------------------ and it gets there

  /** The same caller taking several steps with nobody in between. */
  function Advances(w: World, caller: nat, choice: Choice, n: nat): World {
    if n == 0 then w else Step(Advances(w, caller, choice, n - 1), Advance(caller, choice))
  }

  /** A worker that asks while nothing is pending and a new message waits, with nobody in between, gets a lease on the
      message's job, running for the time it asked for and recorded under both keys. */
  lemma UndisturbedClaimGetsTheJob(w: World, i: nat, worker: string, ttl: int, ch: Choice, job: Job)
    requires i !in w.callers && ttl <= MAX_LEASE_SECONDS && ch.items == [] && ch.leaseId !in w.issued
    requires w.delivered < |w.stream| && w.stream[w.delivered] == Some(job) && job.id !in w.keys.terminal && w.delivered !in w.keys.owners
    ensures var v := Advances(Step(w, BeginClaim(i, worker, ttl)), i, ch, 6);
            var lease := Lease(job.id, ch.leaseId, worker, job.account, job.fence, ch.now + ttl * 1_000_000_000);
            && v.callers == w.callers[i := Claimed(w.delivered, lease)]
            && v.keys.leases == w.keys.leases[ch.leaseId := Record(w.delivered, lease)]
            && v.keys.owners == w.keys.owners[w.delivered := ch.leaseId]
            && v.keys.pending == w.keys.pending + {w.delivered}
            && v.keys.terminal == w.keys.terminal && v.issued == w.issued[ch.leaseId := Record(w.delivered, lease)]
  {
    hide Step, Advances, ClaimStep;
    var m := w.delivered;
    var c := Claim(worker, ttl, 0, Listing);
    var w0 := Step(w, BeginClaim(i, worker, ttl));
    var w3 := w.(keys := w.keys.(pending := w.keys.pending + {m}), delivered := m + 1, callers := w.callers[i := At(c, MarkingNew(m))]);
    FindsNewMessage(w, i, c, ch);
    LeasesNewMessage(w3, i, c, ch, m, job);
    AdvancesOnce(w0, i, ch, 0);
    AdvancesOnce(w0, i, ch, 1);
    AdvancesOnce(w0, i, ch, 2);
    assert Advances(w0, i, ch, 3) == w3;
    AdvancesOnce(w0, i, ch, 3);
    AdvancesOnce(w0, i, ch, 4);
    AdvancesOnce(w0, i, ch, 5);
  }

  lemma AdvancesOnce(w: World, caller: nat, choice: Choice, n: nat)
    ensures Advances(w, caller, choice, n + 1) == Step(Advances(w, caller, choice, n), Advance(caller, choice))
    ensures Advances(w, caller, choice, 0) == w
  {
    hide Step;
  }

  function LeaseFor(c: Caller, ch: Choice, job: Job): Lease
    requires c.Claim?
  {
    Lease(job.id, ch.leaseId, c.worker, job.account, job.fence, ch.now + c.ttl * 1_000_000_000)
  }

  /** Between `w` and `v` the caller got this lease on the message, under both keys, and nothing else happened to them. */
  predicate LeasedFrom(w: World, v: World, i: nat, m: nat, lease: Lease) {
    var record := Record(m, lease);
    && v.callers == w.callers[i := Claimed(m, lease)]
    && v.keys == w.keys.(leases := w.keys.leases[lease.leaseId := record], owners := w.keys.owners[m := lease.leaseId])
    && v.issued == w.issued[lease.leaseId := record]
  }

  /** One step of a claim, spelled out. */
  lemma ClaimAdvance(w: World, i: nat, c: Caller, ch: Choice)
    requires i in w.callers && w.callers[i] == c && c.Claim?
    ensures var (u, d) := ClaimStep(w, c, ch); Step(w, Advance(i, ch)) == u.(callers := u.callers[i := d])
  {
    hide ClaimStep;
  }

  lemma FindsNewMessage(w: World, i: nat, c: Caller, ch: Choice)
    requires i !in w.callers && c.Claim? && c.claimAt == Listing && c.attempt == 0 && c.ttl <= MAX_LEASE_SECONDS && ch.items == []
    requires w.delivered < |w.stream|
    ensures var w0 := Step(w, BeginClaim(i, c.worker, c.ttl));
            Step(Step(Step(w0, Advance(i, ch)), Advance(i, ch)), Advance(i, ch))
            == w.(keys := w.keys.(pending := w.keys.pending + {w.delivered}), delivered := w.delivered + 1,
                  callers := w.callers[i := At(c, MarkingNew(w.delivered))])
  {
    var w0 := w.(callers := w.callers[i := c]);
    var w1 := w.(callers := w.callers[i := At(c, Probing([]))]);
    var w2 := w.(callers := w.callers[i := At(c, Reading)]);
    assert Step(w, BeginClaim(i, c.worker, c.ttl)) == w0;
    hide Step;
    ClaimAdvance(w0, i, c, ch);
    assert w0.callers[i := At(c, Probing([]))] == w1.callers;
    ClaimAdvance(w1, i, At(c, Probing([])), ch);
    assert w1.callers[i := At(c, Reading)] == w2.callers;
    ClaimAdvance(w2, i, At(c, Reading), ch);
    assert w2.callers[i := At(c, MarkingNew(w.delivered))] == w.callers[i := At(c, MarkingNew(w.delivered))];
  }

  lemma LeasesNewMessage(w: World, i: nat, c: Caller, ch: Choice, m: nat, job: Job)
    requires c.Claim? && i in w.callers && w.callers[i] == At(c, MarkingNew(m)) && ch.leaseId !in w.issued
    requires m < |w.stream| && w.stream[m] == Some(job) && job.id !in w.keys.terminal && m !in w.keys.owners
    ensures var v := Step(Step(Step(w, Advance(i, ch)), Advance(i, ch)), Advance(i, ch));
            LeasedFrom(w, v, i, m, LeaseFor(c, ch, job))
  {
    hide Step, Marker;
    var w1 := w.(keys := w.keys.(owners := w.keys.owners[m := Marker(c.worker)]), callers := w.callers[i := At(c, Deciding(m))]);
    ClaimAdvance(w, i, At(c, MarkingNew(m)), ch);
    var v := LeasesMarked(w1, i, c, ch, m, job);
    assert v.keys.owners == w.keys.owners[m := ch.leaseId];
  }

  /** From the message at hand to its lease. */
  lemma LeasesMarked(w: World, i: nat, c: Caller, ch: Choice, m: nat, job: Job) returns (v: World)
    requires c.Claim? && i in w.callers && w.callers[i] == At(c, Deciding(m)) && ch.leaseId !in w.issued
    requires m < |w.stream| && w.stream[m] == Some(job) && job.id !in w.keys.terminal
    ensures v == Step(Step(w, Advance(i, ch)), Advance(i, ch))
    ensures LeasedFrom(w, v, i, m, LeaseFor(c, ch, job))
  {
    hide Step;
    var w1 := w.(callers := w.callers[i := At(c, Leasing(m, job))]);
    ClaimAdvance(w, i, At(c, Deciding(m)), ch);
    ClaimAdvance(w1, i, At(c, Leasing(m, job)), ch);
    v := Step(w1, Advance(i, ch));
  }

  /** A message whose worker has gone is not lost: once its owner key has expired, a worker that finds it pending and gets
      it from XCLAIM, with nobody in between, leases its job again, under the same message. The `n` messages it is listed
      behind are all still leased and are passed over. */
  lemma UndisturbedClaimTakesOver(w: World, i: nat, worker: string, ttl: int, ch: Choice, n: nat, job: Job)
    requires i !in w.callers && ttl <= MAX_LEASE_SECONDS && ch.leaseId !in w.issued
    requires n < |ch.items| && Listed(ch.items, w.keys.pending) && ch.returned && !ch.failed
    requires (forall k :: 0 <= k < n ==> ch.items[k] in w.keys.owners) && ch.items[n] !in w.keys.owners
    requires ch.items[n] < |w.stream| && w.stream[ch.items[n]] == Some(job) && job.id !in w.keys.terminal
    ensures LeasedFrom(w, Advances(Step(w, BeginClaim(i, worker, ttl)), i, ch, n + 6), i, ch.items[n],
                       Lease(job.id, ch.leaseId, worker, job.account, job.fence, ch.now + ttl * 1_000_000_000))
  {
    hide Step, Advances, LeasedFrom, LeaseFor, Listed;
    var c := Claim(worker, ttl, 0, Listing);
    var begun := Step(w, BeginClaim(i, worker, ttl));
    BeginsListing(w, i, worker, ttl);
    PassesOverOwned(w, i, c, ch, n);
    var found := Advances(begun, i, ch, n + 1);
    AdvancesSplit(begun, i, ch, n + 1, 5);
    AdvancesFive(found, i, ch);
    ListedIsPending(ch.items, w.keys.pending, n);
    var v := TakesOver(found, i, c, ch, ch.items[n..], job);
    LeasedWhileListing(w, found, v, i, At(c, Probing(ch.items[n..])), ch.items[n], LeaseFor(c, ch, job));
    IssuedAs(c, ch, job);
  }

  lemma IssuedAs(c: Caller, ch: Choice, job: Job)
    requires c.Claim?
    ensures LeaseFor(c, ch, job) == Lease(job.id, ch.leaseId, c.worker, job.account, job.fence, ch.now + c.ttl * 1_000_000_000)
  {}

  lemma ListedIsPending(items: seq<nat>, pending: set<nat>, k: nat)
    requires k < |items| && Listed(items, pending)
    ensures items[k] in pending
  {}

  lemma LeasedWhileListing(w: World, found: World, v: World, i: nat, c: Caller, m: nat, lease: Lease)
    requires found == w.(callers := w.callers[i := c]) && LeasedFrom(found, v, i, m, lease)
    ensures LeasedFrom(w, v, i, m, lease)
  {
    assert w.callers[i := c][i := Claimed(m, lease)] == w.callers[i := Claimed(m, lease)];
  }

  lemma BeginsListing(w: World, i: nat, worker: string, ttl: int)
    requires i !in w.callers && ttl <= MAX_LEASE_SECONDS
    ensures Step(w, BeginClaim(i, worker, ttl)) == w.(callers := w.callers[i := Claim(worker, ttl, 0, Listing)])
  {}

  /** After the listing and `n` probes of leased messages. */
  lemma {:induction false} PassesOverOwned(w: World, i: nat, c: Caller, ch: Choice, n: nat)
    requires c.Claim? && c.claimAt == Listing && n <= |ch.items| && Listed(ch.items, w.keys.pending)
    requires forall k :: 0 <= k < n ==> ch.items[k] in w.keys.owners
    ensures Advances(w.(callers := w.callers[i := c]), i, ch, n + 1) == w.(callers := w.callers[i := At(c, Probing(ch.items[n..]))])
  {
    hide Step, Advances, Listed;
    var w0 := w.(callers := w.callers[i := c]);
    AdvancesOnce(w0, i, ch, n);
    if n == 0 {
      ClaimAdvance(w0, i, c, ch);
      assert ch.items[0..] == ch.items;
      assert w0.callers[i := At(c, Probing(ch.items))] == w.callers[i := At(c, Probing(ch.items))];
    } else {
      PassesOverOwned(w, i, c, ch, n - 1);
      var items := ch.items[n - 1..];
      var at := w.(callers := w.callers[i := At(c, Probing(items))]);
      assert items[0] == ch.items[n - 1] && items[1..] == ch.items[n..];
      ClaimAdvance(at, i, At(c, Probing(items)), ch);
      assert at.callers[i := At(c, Probing(items[1..]))] == w.callers[i := At(c, Probing(ch.items[n..]))];
    }
  }

  lemma {:induction false} AdvancesSplit(w: World, caller: nat, choice: Choice, a: nat, b: nat)
    ensures Advances(w, caller, choice, a + b) == Advances(Advances(w, caller, choice, a), caller, choice, b)
  {
    hide Step;
    if b > 0 { AdvancesSplit(w, caller, choice, a, b - 1); }
  }

  lemma AdvancesFive(w: World, i: nat, ch: Choice)
    ensures var e := Advance(i, ch); Advances(w, i, ch, 5) == Step(Step(Step(Step(Step(w, e), e), e), e), e)
  {
    hide Step, Advances;
    AdvancesOnce(w, i, ch, 0);
    AdvancesOnce(w, i, ch, 1);
    AdvancesOnce(w, i, ch, 2);
    AdvancesOnce(w, i, ch, 3);
    AdvancesOnce(w, i, ch, 4);
  }

  /** Probed, marked, claimed from its old owner, found still to do, leased. */
  lemma TakesOver(w: World, i: nat, c: Caller, ch: Choice, items: seq<nat>, job: Job) returns (v: World)
    requires c.Claim? && items != [] && i in w.callers && w.callers[i] == At(c, Probing(items)) && ch.leaseId !in w.issued
    requires items[0] < |w.stream| && w.stream[items[0]] == Some(job) && job.id !in w.keys.terminal && items[0] !in w.keys.owners
    requires items[0] in w.keys.pending && ch.returned && !ch.failed
    ensures var e := Advance(i, ch); v == Step(Step(Step(Step(Step(w, e), e), e), e), e)
    ensures LeasedFrom(w, v, i, items[0], LeaseFor(c, ch, job))
  {
    hide Step, Marker;
    var m, rest := items[0], items[1..];
    var marked := w.keys.(owners := w.keys.owners[m := Marker(c.worker)]);
    var w1 := w.(callers := w.callers[i := At(c, Marking(m, rest))]);
    var w2 := w.(keys := marked, callers := w.callers[i := At(c, Claiming(m, rest))]);
    ClaimAdvance(w, i, At(c, Probing(items)), ch);
    ClaimAdvance(w1, i, At(c, Marking(m, rest)), ch);
    assert w1.callers[i := At(c, Claiming(m, rest))] == w2.callers;
    var w3 := w.(keys := marked, callers := w.callers[i := At(c, Deciding(m))]);
    ClaimAdvance(w2, i, At(c, Claiming(m, rest)), ch);
    assert w2.callers[i := At(c, Deciding(m))] == w3.callers;
    v := LeasesMarked(w3, i, c, ch, m, job);
    assert v.keys.owners == w.keys.owners[m := ch.leaseId];
  }

  /** A report under a lease that is still recorded and unexpired, with nobody in between, is stored and acknowledged,
      and its message is done. */
  lemma UndisturbedReportIsStored(w: World, j: nat, lease: Lease, payload: Envelope, ch: Choice)
    requires j !in w.callers && Names(payload, lease) && lease.jobId !in w.keys.terminal
    requires lease.leaseId in w.keys.leases && w.keys.leases[lease.leaseId].lease == lease
    requires var m := w.keys.leases[lease.leaseId].message; m in w.keys.owners && w.keys.owners[m] == lease.leaseId
    requires Millis(ch.now) < Millis(lease.expiresAt) && ch.now < lease.expiresAt && ch.later < lease.expiresAt
    ensures var v := Advances(Step(w, BeginSettle(j, lease, payload)), j, ch, 4);
            && v.callers == w.callers[j := Settled(lease, payload, Acknowledged)]
            && v.keys.terminal == w.keys.terminal[lease.jobId := payload]
            && v.keys.pending == w.keys.pending - {w.keys.leases[lease.leaseId].message}
  {
    var c, record := Caller.Settle(lease, payload, Looking), w.keys.leases[lease.leaseId];
    var w0 := w.(callers := w.callers[j := c]);
    var w1 := w.(callers := w.callers[j := c.(settleAt := Fetching(false))]);
    var w2 := w.(callers := w.callers[j := c.(settleAt := Owning(record))]);
    var w3 := w.(callers := w.callers[j := c.(settleAt := Committing(record))]);
    hide Step, Millis, Names;
    SettleBegins(w, j, lease, payload);
    SettleAdvance(w0, j, c, ch);
    assert w0.callers[j := c.(settleAt := Fetching(false))] == w1.callers;
    SettleAdvance(w1, j, c.(settleAt := Fetching(false)), ch);
    assert w1.callers[j := c.(settleAt := Owning(record))] == w2.callers;
    SettleAdvance(w2, j, c.(settleAt := Owning(record)), ch);
    assert w2.callers[j := c.(settleAt := Committing(record))] == w3.callers;
    SettleAdvance(w3, j, c.(settleAt := Committing(record)), ch);
    assert w3.callers[j := Settled(lease, payload, Acknowledged)] == w.callers[j := Settled(lease, payload, Acknowledged)];
    AdvancesOnce(w0, j, ch, 0);
    AdvancesOnce(w0, j, ch, 1);
    AdvancesOnce(w0, j, ch, 2);
    AdvancesOnce(w0, j, ch, 3);
  }

  lemma SettleBegins(w: World, j: nat, lease: Lease, payload: Envelope)
    requires j !in w.callers && Names(payload, lease)
    ensures Step(w, BeginSettle(j, lease, payload)) == w.(callers := w.callers[j := Caller.Settle(lease, payload, Looking)])
  {
    hide Names;
  }

  lemma SettleAdvance(w: World, j: nat, c: Caller, ch: Choice)
    requires j in w.callers && w.callers[j] == c && c.Settle?
    ensures var (keys, d) := SettleStep(w.keys, c, ch); Step(w, Advance(j, ch)) == w.(keys := keys, callers := w.callers[j := d])
  {
    hide SettleStep;
  }

  // ------------------------------------------------------------------ what the script and a report mean

  /** The terminal script. A job that has a terminal keeps it, and the answer says whether it is this one. Otherwise the write goes
      through exactly if the lease has not expired, its key exists and the message's owner key names it; then the terminal is
      stored, both keys are gone and the message is acknowledged. In every other case nothing changes. */
  lemma TerminalScriptMeans(k: Keys, job: string, payload: Envelope, leaseId: string, message: nat, now: int, expires: int)
    ensures var (next, code) := TerminalScript(k, job, payload, leaseId, message, now, expires);
            var current := now < expires && leaseId in k.leases && message in k.owners && k.owners[message] == leaseId;
            && (code == Already <==> job in k.terminal && k.terminal[job] == payload)
            && (code == Conflicting <==> job in k.terminal && k.terminal[job] != payload)
            && (code == Stored <==> job !in k.terminal && current)
            && (code == Lost <==> job !in k.terminal && !current)
            && (code != Stored ==> next == k)
            && (code == Stored ==>
                  && next.terminal == k.terminal[job := payload] && next.leases == k.leases - {leaseId}
                  && next.owners == k.owners - {message} && next.pending == k.pending - {message})
  {}

  /** The lease is recorded as given, and is the recorded owner of its message. */
  predicate Current(k: Keys, lease: Lease) {
    && lease.leaseId in k.leases && k.leases[lease.leaseId].lease == lease
    && k.leases[lease.leaseId].message in k.owners && k.owners[k.leases[lease.leaseId].message] == lease.leaseId
  }

  /** Before the last whole millisecond of the lease. */
  lemma WholeMillis(now: int, expires: int)
    ensures Millis(now) < Millis(expires) <==> now < expires - expires % 1_000_000
  {}

  /** How a report ends when nobody interferes. Another result for the job is a conflict. The same result is acknowledged again
      once the lease has expired or gone, or while it is current. A first result is stored if the lease is current and unexpired.
      Everything else is a lost lease. */
  lemma ReportEnds(k: Keys, lease: Lease, payload: Envelope, ch: Choice)
    requires ch.now <= ch.later
    ensures var (next, d) := SettleAll(k, Caller.Settle(lease, payload, Looking), ch);
            var known := lease.jobId in k.terminal;
            var same := known && k.terminal[lease.jobId] == payload;
            var live := ch.later < lease.expiresAt;
            && d.Settled? && d.lease == lease && d.payload == payload
            && (d.outcome == TerminalConflict <==> known && !same)
            && (same ==> (d.outcome == Acknowledged <==>
                            ch.now >= lease.expiresAt || (live && (lease.leaseId !in k.leases || Current(k, lease)))))
            && (!known ==> (d.outcome == Acknowledged <==>
                              live && Current(k, lease) && ch.now < lease.expiresAt - lease.expiresAt % 1_000_000))
            && (known || d.outcome != Acknowledged ==> next == k)
            && (!known && d.outcome == Acknowledged ==> next.terminal == k.terminal[lease.jobId := payload])
  {
    var c := Caller.Settle(lease, payload, Looking);
    WholeMillis(ch.now, lease.expiresAt);
    hide Millis, TerminalScript;
    var known := lease.jobId in k.terminal;
    var fetching := c.(settleAt := Fetching(known));
    if lease.leaseId in k.leases {
      var record := k.leases[lease.leaseId];
      TerminalScriptMeans(k, lease.jobId, payload, lease.leaseId, record.message, Millis(ch.now), Millis(lease.expiresAt));
      assert SettleAll(k, c.(settleAt := Committing(record)), ch) == SettleStep(k, c.(settleAt := Committing(record)), ch);
      assert record.message in k.owners && k.owners[record.message] == lease.leaseId ==>
        SettleAll(k, c.(settleAt := Owning(record)), ch) == SettleAll(k, c.(settleAt := Committing(record)), ch);
      assert record.lease == lease ==> SettleAll(k, fetching, ch) == SettleAll(k, c.(settleAt := Owning(record)), ch);
    }
  }

  /** In every reachable state a stored result names its job, and a lease that was issued to its worker for the one message that
      carries this job, with that job's account and fence. */
  lemma ResultsNameTheirLease(events: seq<Event>, job: string)
    requires job in Run(START, events).keys.terminal
    ensures var w := Run(START, events);
            var e := w.keys.terminal[job];
            && e.jobId == job && e.leaseId in w.issued
            && var record := w.issued[e.leaseId];
            && record.lease.leaseId == e.leaseId && record.lease.workerId == e.workerId
            && record.message < |w.stream| && w.stream[record.message] == Some(Job(job, e.account, e.fence))
  {
    hide Run;
    ReachableInv(events);
    var w := Run(START, events);
    assert WrittenUnderLease(w, job);
    assert IssuedFor(w, w.keys.terminal[job].leaseId, w.issued[w.keys.terminal[job].leaseId]);
  }

  /** A lease is asked for at most a quarter of an hour, and a claim looks at no more than 32 finished messages before it gives up. */
  lemma ClaimsAreBounded(w: World, i: nat, worker: string, ttl: int, c: Caller)
    ensures ttl > 900 ==> Step(w, BeginClaim(i, worker, ttl)) == w
    ensures i !in w.callers && ttl <= 900 ==> Step(w, BeginClaim(i, worker, ttl)) == w.(callers := w.callers[i := Claim(worker, ttl, 0, Listing)])
    ensures c.Claim? && c.claimAt.Acking? ==>
              forall ch :: ClaimStep(w, c, ch).1 == if c.attempt >= 31 then NoJob else Claim(c.worker, c.ttl, c.attempt + 1, Listing)
  {}

  /** What a claim does when somebody else has the message it marked: the marker, if still its own, goes again, and the claim
      ends if the queue failed or passes on to the next message. */
  lemma FailedClaimCleansUp(w: World, c: Caller, ch: Choice, item: nat, rest: seq<nat>)
    requires c.Claim? && c.claimAt == Claiming(item, rest) && (ch.failed || !ch.returned || item !in w.keys.pending)
    ensures var mine := item in w.keys.owners && w.keys.owners[item] == "claiming:" + c.worker;
            var d := if ch.failed then NoJob else Claim(c.worker, c.ttl, c.attempt, Probing(rest));
            && var (w1, c1) := ClaimStep(w, c, ch);
            && c1.Claim? && w1 == w
            && var (w2, c2) := ClaimStep(w1, c1, ch);
            && w2 == w && (!mine ==> c2 == d)
            && (mine ==> c2.Claim? && ClaimStep(w2, c2, ch) == (w.(keys := w.keys.(owners := w.keys.owners - {item})), d))
  {}

  /** A claim marks, with its worker's name, only a message that nobody owns, and passes over the others. */
  lemma MarksOnlyFree(w: World, c: Caller, ch: Choice, item: nat)
    requires c.Claim?
    ensures var marked := w.(keys := w.keys.(owners := w.keys.owners[item := "claiming:" + c.worker]));
            && (forall rest :: c.claimAt == Marking(item, rest) ==>
                  ClaimStep(w, c, ch) == if item in w.keys.owners then (w, Claim(c.worker, c.ttl, c.attempt, Probing(rest)))
                                         else (marked, Claim(c.worker, c.ttl, c.attempt, Claiming(item, rest))))
            && (c.claimAt == MarkingNew(item) ==>
                  ClaimStep(w, c, ch) == if item in w.keys.owners then (w, NoJob)
                                         else (marked, Claim(c.worker, c.ttl, c.attempt, Deciding(item))))
  {}

  /** A claimed message whose job has its result is acknowledged, one that holds no job is put into the dead-letter stream first,
      and the claim tries again, 32 times at most. */
  lemma UselessMessageIsAcknowledged(w: World, c: Caller, ch: Choice, item: nat)
    requires c.Claim? && c.claimAt == Deciding(item) && item < |w.stream|
    requires w.stream[item].None? || w.stream[item].value.id in w.keys.terminal
    ensures var again := if c.attempt >= 31 then NoJob else Claim(c.worker, c.ttl, c.attempt + 1, Listing);
            var acked := w.(keys := w.keys.(pending := w.keys.pending - {item}));
            && var (w1, c1) := ClaimStep(w, c, ch);
            && w1 == w && c1.Claim?
            && (w.stream[item].Some? ==> ClaimStep(w, c1, ch) == (acked, again))
            && (w.stream[item].None? ==>
                  && var (w2, c2) := ClaimStep(w, c1, ch);
                  && c2.Claim? && ClaimStep(w2, c2, ch) == (acked.(dead := w.dead + {item}), again))
  {}

  /** A claim looks at 32 pending messages at most. */
  lemma LooksAtFew(w: World, c: Caller, ch: Choice)
    requires c.Claim? && c.claimAt == Listing
    ensures ClaimStep(w, c, ch) ==
              (w, if |ch.items| <= 32 && (forall m :: m in ch.items ==> m in w.keys.pending)
                  then Claim(c.worker, c.ttl, c.attempt, Probing(ch.items)) else c)
  {}
}
