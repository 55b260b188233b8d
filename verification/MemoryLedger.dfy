/** The in-memory ledger (internal/control/state.go) and how far it agrees with the database ledger. */
module MemoryLedger {
  import opened Outcomes
  import opened AttemptLedger

  datatype Record = Record(started: Started, state: AttemptState, release: Option<Release>)

  datatype Memory = Memory(attempts: map<string, Record>, events: set<EventId>)

  const BLANK := Memory(map[], {})

  function WithStart(m: Memory, e: Started): (Memory, bool) {
    if e.attempt in m.attempts then (m, false) else (m.(attempts := m.attempts[e.attempt := Record(e, Open, None)]), true)
  }

  /** Unlike the database, a release of an unknown attempt is recorded. */
  function WithRelease(m: Memory, r: Release): (Memory, bool) {
    if r.event in m.events then (m, false)
    else if r.attempt in m.attempts && m.attempts[r.attempt].release.Some? then (m, false)
    else
      (Memory(if r.attempt in m.attempts then m.attempts[r.attempt := m.attempts[r.attempt].(release := Some(r), state := Terminal)]
              else m.attempts,
              m.events + {r.event}), true)
  }

  predicate Overdue(c: Record, now: int) { c.state == Open && c.started.deadline < now }

  function Synthetic(e: Started, now: int): Release { Release(TerminalEventId(e.attempt), e.attempt, e.identity, SyntheticDetails(now)) }

  /** The records a recovery closes itself: overdue, and their terminal event is not known yet. */
  predicate Recovers(m: Memory, id: string, now: int) {
    id in m.attempts && Overdue(m.attempts[id], now) && TerminalEventId(id) !in m.events
  }

  function Recovered(m: Memory, now: int): (ids: set<string>) { set id | id in m.attempts && Recovers(m, id, now) }

  function EventsOf(ids: set<string>): set<EventId> { set id | id in ids :: TerminalEventId(id) }

  function RecordAfter(m: Memory, id: string, now: int): (c: Record)
    requires id in m.attempts
    ensures c.started == m.attempts[id].started
  {
    var c := m.attempts[id];
    if !Overdue(c, now) then c
    else if Recovers(m, id, now) then c.(release := Some(Synthetic(c.started, now)), state := Reconciled)
    else c.(state := Reconciled)
  }

  /** Every overdue record is reconciled; it gets a synthetic release unless its event is known already. */
  function WithRecovery(m: Memory, now: int): Memory {
    Memory(map id | id in m.attempts :: RecordAfter(m, id, now), m.events + EventsOf(Recovered(m, now)))
  }

  /** Records are filed under their own attempt id. */
  predicate Filed(m: Memory) { forall id :: id in m.attempts ==> m.attempts[id].started.attempt == id }

  class Ledger {
    var attempts: map<string, Record>
    var events: set<EventId>

    ghost function View(): Memory
      reads this
    {
      Memory(attempts, events)
    }

    constructor ()
      ensures View() == BLANK
    {
      attempts, events := map[], {};
    }

    method ApplyAttemptStarted(e: Started) returns (created: bool)
      modifies this
      ensures (View(), created) == WithStart(old(View()), e)
    {
      if e.attempt in attempts { return false; }
      attempts := attempts[e.attempt := Record(e, Open, None)];
      return true;
    }

    method ApplyRelease(r: Release) returns (applied: bool)
      modifies this
      ensures (View(), applied) == WithRelease(old(View()), r)
    {
      if r.event in events { return false; }
      if r.attempt in attempts {
        var record := attempts[r.attempt];
        if record.release.Some? { return false; }
        attempts := attempts[r.attempt := record.(release := Some(r), state := Terminal)];
      }
      events := events + {r.event};
      return true;
    }

    /** One record of the recovery loop. */
    method RecoverRecord(id: string, now: int) returns (release: Option<Release>)
      requires Filed(View()) && id in attempts
      modifies this
      ensures attempts == old(attempts)[id := RecordAfter(old(View()), id, now)]
      ensures release.Some? <==> Recovers(old(View()), id, now)
      ensures release.Some? ==> release.value == Synthetic(old(attempts)[id].started, now)
      ensures events == old(events) + if release.Some? then {TerminalEventId(id)} else {}
    {
      var record := attempts[id];
      if record.state != Open || record.started.deadline >= now { return None; }
      var event := TerminalEventId(record.started.attempt);
      if event in events {
        attempts := attempts[id := record.(state := Reconciled)];
        return None;
      }
      var synthetic := Synthetic(record.started, now);
      attempts := attempts[id := record.(release := Some(synthetic), state := Reconciled)];
      events := events + {event};
      return Some(synthetic);
    }

    /** The loop over the records, in whatever order the map yields them. */
    method RecoverExpired(now: int) returns (recovered: seq<Release>)
      requires Filed(View())
      modifies this
      ensures View() == WithRecovery(old(View()), now)
      ensures |recovered| == |Recovered(old(View()), now)|
      ensures forall r :: r in recovered ==> ClosedByRecovery(old(View()), r, now)
    {
      hide RecordAfter, Recovers, Synthetic, ClosedByRecovery, EventsOf, Recovered, Halfway, WithRecovery;
      recovered := [];
      var todo := attempts.Keys;
      ghost var start := View();
      ghost var done: set<string> := {};
      HalfwayStart(start, now);
      while todo != {}
        invariant todo <= attempts.Keys && Filed(View())
        invariant Halfway(start, View(), todo, done, now) && |recovered| == |done|
        invariant forall r :: r in recovered ==> ClosedByRecovery(start, r, now)
      {
        var id :| id in todo;
        ghost var before := View();
        var release := RecoverRecord(id, now);
        HalfwayStep(start, before, View(), id, todo, done, now);
        todo := todo - {id};
        if release.Some? {
          recovered := recovered + [release.value];
          done := done + {id};
        }
      }
      HalfwayEnd(start, View(), done, now);
    }
  }

  /** Every record outside `todo` has been visited; `done` are those the recovery closed itself. */
  ghost predicate Halfway(start: Memory, m: Memory, todo: set<string>, done: set<string>, now: int) {
    && m.attempts.Keys == start.attempts.Keys && Filed(start)
    && (forall id :: id in m.attempts ==> m.attempts[id] == if id in todo then start.attempts[id] else RecordAfter(start, id, now))
    && (forall id :: id in done <==> id in start.attempts && id !in todo && Recovers(start, id, now))
    && m.events == start.events + EventsOf(done)
  }

  lemma HalfwayStart(start: Memory, now: int)
    requires Filed(start)
    ensures Halfway(start, start, start.attempts.Keys, {}, now)
  {
    assert EventsOf({}) == {};
  }

  lemma HalfwayStep(start: Memory, m: Memory, next: Memory, id: string, todo: set<string>, done: set<string>, now: int)
    requires Halfway(start, m, todo, done, now) && id in todo && id in m.attempts
    requires next.attempts == m.attempts[id := RecordAfter(m, id, now)]
    requires next.events == m.events + if Recovers(m, id, now) then {TerminalEventId(id)} else {}
    ensures Recovers(m, id, now) <==> Recovers(start, id, now)
    ensures id !in done && m.attempts[id] == start.attempts[id]
    ensures Halfway(start, next, todo - {id}, if Recovers(m, id, now) then done + {id} else done, now)
    ensures Recovers(m, id, now) ==> ClosedByRecovery(start, Synthetic(start.attempts[id].started, now), now)
  {
    OneAtATime(start, m, id, done, now);
    hide RecordAfter, EventsOf;
    if Recovers(m, id, now) {
      ItsRelease(start, id, now);
      OneMoreEvent(done, id);
    }
    hide Recovers, ClosedByRecovery;
  }

  lemma HalfwayEnd(start: Memory, m: Memory, done: set<string>, now: int)
    requires Halfway(start, m, {}, done, now)
    ensures m == WithRecovery(start, now) && done == Recovered(start, now)
  {
    hide RecordAfter, Recovers;
  }

  predicate ClosedByRecovery(m: Memory, r: Release, now: int) {
    Recovers(m, r.attempt, now) && r == Synthetic(m.attempts[r.attempt].started, now)
  }

  lemma ItsRelease(m: Memory, id: string, now: int)
    requires Filed(m) && id in m.attempts && Recovers(m, id, now)
    ensures ClosedByRecovery(m, Synthetic(m.attempts[id].started, now), now)
  {}

  lemma OneMoreEvent(ids: set<string>, id: string)
    ensures EventsOf(ids + {id}) == EventsOf(ids) + {TerminalEventId(id)}
  {}

  /** Records already visited do not change what happens to the next one. */
  lemma OneAtATime(start: Memory, m: Memory, id: string, done: set<string>, now: int)
    requires id in start.attempts && id in m.attempts && id !in done
    requires m.attempts[id] == start.attempts[id] && m.events == start.events + EventsOf(done)
    ensures Recovers(m, id, now) <==> Recovers(start, id, now)
    ensures RecordAfter(m, id, now) == RecordAfter(start, id, now)
  {
    assert TerminalEventId(id) !in EventsOf(done);
  }

  // ------------------------------------------------------------------ the two ledgers side by side

  function Untimed(row: Row): Row { row.(details := row.details.(occurredAt := 0)) }

  /** The memory ledger shows the database: the same attempts in the same states, the same terminal events, and the
      same release behind each row (a synthetic one up to the moment it was written). */
  ghost predicate Follows(db: Db, m: Memory) {
    SameAttempts(db, m) && SameEvents(db.usage, m.events) && forall i :: 0 <= i < |db.usage| ==> ShowsRow(m, db.usage[i])
  }

  ghost predicate SameAttempts(db: Db, m: Memory) {
    && Filed(m) && m.attempts.Keys == db.attempts.Keys
    && (forall id :: id in m.attempts ==>
          && m.attempts[id].state == db.attempts[id].state
          && m.attempts[id].started.identity == db.attempts[id].identity
          && m.attempts[id].started.deadline == db.attempts[id].deadline
          && (m.attempts[id].release.Some? <==> m.attempts[id].state != Open))
  }

  predicate HasEvent(usage: seq<Row>, e: EventId) { exists i :: 0 <= i < |usage| && usage[i].event == e }

  ghost predicate SameEvents(usage: seq<Row>, events: set<EventId>) { forall e :: e in events <==> HasEvent(usage, e) }

  predicate ShowsRow(m: Memory, row: Row) {
    && row.attempt in m.attempts && m.attempts[row.attempt].release.Some?
    && var c := m.attempts[row.attempt];
    if c.state == Terminal then row == RowOf(c.release.value) else Untimed(row) == Untimed(RowOf(c.release.value))
  }

  datatype Op = StartOp(started: Started) | ReleaseOp(release: Release) | RecoverOp(now: int)

  predicate ValidOp(op: Op) { op.ReleaseOp? ==> op.release.event == TerminalEventId(op.release.attempt) }

  /** What an operation answers: whether a release was counted, how many attempts were recovered. */
  datatype Answer = Silent | Counted(inserted: bool) | Closed(count: nat)

  ghost function Listed(ids: set<string>): (s: seq<string>)
    ensures Distinct(s) && forall id :: id in s <==> id in ids
    ensures |s| == |ids|
  {
    if ids == {} then []
    else
      var id :| id in ids;
      var rest := Listed(ids - {id});
      [id] + rest
  }

  function ExpiredIds(db: Db, before: int): set<string> { set id | id in db.attempts && Expired(db, id, before) }

  ghost function DbStep(db: Db, op: Op): (Db, Answer) {
    match op
    case StartOp(e) => (Start(db, e), Silent)
    case ReleaseOp(r) =>
      (match Close(db, r)
       case None => (db, Counted(false))
       case Some(next) => (next, Counted(|next.usage| > |db.usage|)))
    case RecoverOp(now) => (RecoverAll(db, Listed(ExpiredIds(db, now)), now), Closed(|ExpiredIds(db, now)|))
  }

  function MemoryStep(m: Memory, op: Op): (Memory, Answer) {
    match op
    case StartOp(e) => (WithStart(m, e).0, Silent)
    case ReleaseOp(r) => var (next, applied) := WithRelease(m, r); (next, Counted(applied))
    case RecoverOp(now) => (WithRecovery(m, now), Closed(|Recovered(m, now)|))
  }

  lemma StartAgrees(db: Db, m: Memory, e: Started)
    requires Metered(db) && Follows(db, m)
    ensures Follows(Start(db, e), WithStart(m, e).0)
  {
    hide Metered, SameEvents, HasEvent, ShowsRow;
    var shown := WithStart(m, e).0;
    forall i | 0 <= i < |db.usage| ensures ShowsRow(shown, db.usage[i]) {
      RowStillShown(m, shown, db.usage[i]);
    }
  }

  lemma EventKnownIfClosed(db: Db, m: Memory, id: string)
    requires Metered(db) && Follows(db, m)
    ensures TerminalEventId(id) in m.events <==> HasRow(db, id)
  {
    if HasRow(db, id) {
      var i :| 0 <= i < |db.usage| && db.usage[i].attempt == id;
      assert db.usage[i].event == TerminalEventId(id);
    }
  }

  lemma ReleaseAgrees(db: Db, m: Memory, r: Release)
    requires Metered(db) && Follows(db, m) && r.event == TerminalEventId(r.attempt) && r.attempt in db.attempts
    ensures var (next, answer) := DbStep(db, ReleaseOp(r));
            var (shown, told) := MemoryStep(m, ReleaseOp(r));
            Follows(next, shown) && answer == told
  {
    CloseKeeps(db, r);
    EventKnownIfClosed(db, m, r.attempt);
    var next := Close(db, r).value;
    if db.attempts[r.attempt].state == Open {
      assert !HasRow(db, r.attempt) && next.attempts[r.attempt].state == Terminal;
      assert forall i :: 0 <= i < |db.usage| ==> db.usage[i].attempt != r.attempt;
      hide Metered, Keeps;
      FollowsOnNewRow(db, next, m, r, next.attempts[r.attempt]);
    } else {
      assert HasRow(db, r.attempt);
    }
  }

  /** Closing an attempt on both sides keeps them alike. */
  lemma ClosedAlike(db: Db, next: Db, m: Memory, id: string, closed: Attempt, record: Record, events: set<EventId>)
    requires SameAttempts(db, m) && id in db.attempts && next.attempts == db.attempts[id := closed]
    requires closed.state == record.state != Open && record.release.Some? && record.started == m.attempts[id].started
    requires closed.identity == db.attempts[id].identity && closed.deadline == db.attempts[id].deadline
    ensures SameAttempts(next, Memory(m.attempts[id := record], events))
  {}

  lemma FollowsOnNewRow(db: Db, next: Db, m: Memory, r: Release, closed: Attempt)
    requires Follows(db, m) && r.attempt in db.attempts && next.attempts == db.attempts[r.attempt := closed]
    requires closed.state == Terminal && closed.identity == db.attempts[r.attempt].identity && closed.deadline == db.attempts[r.attempt].deadline
    requires forall i :: 0 <= i < |db.usage| ==> db.usage[i].attempt != r.attempt
    requires next.usage == db.usage + [RowOf(r)] && r.attempt in m.attempts
    ensures Follows(next, Memory(m.attempts[r.attempt := m.attempts[r.attempt].(release := Some(r), state := Terminal)], m.events + {r.event}))
  {
    hide SameEvents, HasEvent, ShowsRow, SameAttempts;
    var record := m.attempts[r.attempt].(release := Some(r), state := Terminal);
    var shown := Memory(m.attempts[r.attempt := record], m.events + {r.event});
    ClosedAlike(db, next, m, r.attempt, closed, record, shown.events);
    OneMoreKnown(db.usage, RowOf(r), m.events);
    NewRowShown(shown, r);
    forall i | 0 <= i < |db.usage| ensures ShowsRow(shown, db.usage[i]) {
      RowStillShown(m, shown, db.usage[i]);
    }
  }

  lemma NewRowShown(m: Memory, r: Release)
    requires r.attempt in m.attempts && m.attempts[r.attempt].state == Terminal && m.attempts[r.attempt].release == Some(r)
    ensures ShowsRow(m, RowOf(r))
  {}

  lemma RowStillShown(m: Memory, shown: Memory, row: Row)
    requires ShowsRow(m, row) && (row.attempt in m.attempts ==> row.attempt in shown.attempts && shown.attempts[row.attempt] == m.attempts[row.attempt])
    ensures ShowsRow(shown, row)
  {}

  lemma OneMoreKnown(usage: seq<Row>, row: Row, events: set<EventId>)
    requires SameEvents(usage, events)
    ensures SameEvents(usage + [row], events + {row.event})
  {
    var next := usage + [row];
    assert next[|usage|] == row;
    forall e ensures e in events + {row.event} <==> HasEvent(next, e) {
      if HasEvent(usage, e) {
        var i :| 0 <= i < |usage| && usage[i].event == e;
        assert next[i].event == e;
      }
    }
  }

  function SyntheticRow(db: Db, id: string, now: int): Row
    requires id in db.attempts
  {
    Row(TerminalEventId(id), id, db.attempts[id].identity, SyntheticDetails(now))
  }

  /** What a recovery of the database comes to: one synthetic row per attempt visited, all of them reconciled. */
  ghost predicate RecoveryShape(db: Db, next: Db, ids: seq<string>, now: int) {
    && next.attempts.Keys == db.attempts.Keys
    && (forall id :: id in db.attempts ==>
          && next.attempts[id].identity == db.attempts[id].identity
          && next.attempts[id].deadline == db.attempts[id].deadline
          && next.attempts[id].state == if id in ids then Reconciled else db.attempts[id].state)
    && |next.usage| == |db.usage| + |ids|
    && (forall i :: 0 <= i < |db.usage| ==> next.usage[i] == db.usage[i])
    && (forall i :: 0 <= i < |ids| ==> ids[i] in db.attempts && next.usage[|db.usage| + i] == SyntheticRow(db, ids[i], now))
  }

  lemma RecoverOneShape(db: Db, id: string, before: int, now: int)
    requires Metered(db) && Expired(db, id, before)
    ensures var next := RecoverOne(db, id, now);
            && next.usage == db.usage + [SyntheticRow(db, id, now)]
            && next.attempts == db.attempts[id := db.attempts[id].(terminalEvent := Some(TerminalEventId(id)), state := Reconciled)]
  {
    ClashIsHasRow(db, SyntheticRow(db, id, now));
  }

  lemma {:induction false} RecoverAllShape(db: Db, ids: seq<string>, before: int, now: int)
    requires Metered(db) && Visits(db, ids, before)
    ensures RecoveryShape(db, RecoverAll(db, ids, now), ids, now)
  {
    hide Metered, RecoverOne, Keeps;
    if ids != [] {
      var init, last := ids[..|ids| - 1], ids[|ids| - 1];
      RecoverAllShape(db, init, before, now);
      RecoverAllKeeps(db, init, before, now);
      var mid := RecoverAll(db, init, now);
      assert last !in init;
      assert Expired(mid, last, before);
      RecoverOneShape(mid, last, before, now);
      assert ids == init + [last];
      ShapePush(db, mid, RecoverAll(db, ids, now), init, last, now);
    }
  }

  lemma ShapePush(db: Db, mid: Db, next: Db, init: seq<string>, last: string, now: int)
    requires RecoveryShape(db, mid, init, now) && last in mid.attempts
    requires next.usage == mid.usage + [SyntheticRow(mid, last, now)]
    requires next.attempts == mid.attempts[last := mid.attempts[last].(terminalEvent := Some(TerminalEventId(last)), state := Reconciled)]
    ensures RecoveryShape(db, next, init + [last], now)
  {
    assert SyntheticRow(mid, last, now) == SyntheticRow(db, last, now);
  }

  lemma RecoverAgrees(db: Db, m: Memory, now: int)
    requires Metered(db) && Follows(db, m)
    ensures var (next, answer) := DbStep(db, RecoverOp(now));
            var (shown, told) := MemoryStep(m, RecoverOp(now));
            Follows(next, shown) && answer == told
  {
    hide Metered, RecoverAll, WithRecovery, RecoveryShape, Recovers, Overdue, ShowsRow, ExpiredIds, Recovered;
    var ids := Listed(ExpiredIds(db, now));
    var next, shown := RecoverAll(db, ids, now), WithRecovery(m, now);
    ListedVisits(db, now);
    RecoverAllShape(db, ids, now, now);
    SameExpired(db, m, now);
    RecoveredStates(db, next, m, ids, now);
    RecoveredEvents(db, next, m, ids, now);
    RecoveredRows(db, next, m, ids, now);
  }

  lemma ListedVisits(db: Db, now: int)
    ensures Visits(db, Listed(ExpiredIds(db, now)), now)
  {
    var ids := Listed(ExpiredIds(db, now));
    assert forall i :: 0 <= i < |ids| ==> ids[i] in ids;
  }

  lemma SameExpired(db: Db, m: Memory, now: int)
    requires Metered(db) && Follows(db, m)
    ensures ExpiredIds(db, now) == Recovered(m, now)
    ensures forall id :: id in m.attempts && Overdue(m.attempts[id], now) ==> Recovers(m, id, now)
  {
    forall id | id in db.attempts ensures Expired(db, id, now) <==> Recovers(m, id, now) {
      EventKnownIfClosed(db, m, id);
    }
  }

  lemma RecoveredStates(db: Db, next: Db, m: Memory, ids: seq<string>, now: int)
    requires Follows(db, m) && RecoveryShape(db, next, ids, now) && (forall id :: id in ids <==> id in Recovered(m, now))
    requires forall id :: id in m.attempts && Overdue(m.attempts[id], now) ==> Recovers(m, id, now)
    ensures var shown := WithRecovery(m, now);
            SameAttempts(next, shown)
  {
  }

  lemma RecoveredEvents(db: Db, next: Db, m: Memory, ids: seq<string>, now: int)
    requires Follows(db, m) && RecoveryShape(db, next, ids, now) && (forall id :: id in ids <==> id in Recovered(m, now))
    ensures SameEvents(next.usage, WithRecovery(m, now).events)
  {
    hide Recovered, RecordAfter, SameAttempts, ShowsRow;
    forall e ensures e in WithRecovery(m, now).events <==> HasEvent(next.usage, e) {
      assert e in m.events <==> HasEvent(db.usage, e);
      RecoveredEvent(db, next, ids, now, Recovered(m, now), e);
    }
  }

  lemma RecoveredEvent(db: Db, next: Db, ids: seq<string>, now: int, recovered: set<string>, e: EventId)
    requires RecoveryShape(db, next, ids, now) && forall id :: id in ids <==> id in recovered
    ensures HasEvent(next.usage, e) <==> HasEvent(db.usage, e) || e in EventsOf(recovered)
  {
    var n := |db.usage|;
    if HasEvent(db.usage, e) {
      var i :| 0 <= i < n && db.usage[i].event == e;
      assert next.usage[i].event == e;
    }
    if e in EventsOf(recovered) {
      var i :| 0 <= i < |ids| && TerminalEventId(ids[i]) == e;
      assert next.usage[n + i].event == e;
    }
    if i :| 0 <= i < |next.usage| && next.usage[i].event == e {
      if i < n {
        assert db.usage[i].event == e;
      } else {
        assert next.usage[n + (i - n)] == SyntheticRow(db, ids[i - n], now);
        assert ids[i - n] in recovered;
      }
    }
  }

  lemma RecoveredRows(db: Db, next: Db, m: Memory, ids: seq<string>, now: int)
    requires Metered(db) && Follows(db, m) && RecoveryShape(db, next, ids, now)
    requires forall id :: id in ids <==> id in Recovered(m, now)
    ensures forall i :: 0 <= i < |next.usage| ==> ShowsRow(WithRecovery(m, now), next.usage[i])
  {
    forall i | 0 <= i < |next.usage| ensures ShowsRow(WithRecovery(m, now), next.usage[i]) {
      if i < |db.usage| {
        var id := db.usage[i].attempt;
        assert ShowsRow(m, db.usage[i]) && HasRow(db, id);
        assert m.attempts[id].state != Open;
      } else {
        var id := ids[i - |db.usage|];
        assert next.usage[|db.usage| + (i - |db.usage|)] == SyntheticRow(db, id, now);
        assert id in Recovered(m, now);
      }
    }
  }

  /** From agreement, one more operation keeps the two ledgers in agreement, states, events, rows and answer, unless
      it releases an attempt nobody has started: the database refuses that, the memory ledger records it. */
  lemma StepAgreesExactly(db: Db, m: Memory, op: Op)
    requires Metered(db) && Follows(db, m) && ValidOp(op)
    ensures var (next, answer) := DbStep(db, op);
            var (shown, told) := MemoryStep(m, op);
            (Follows(next, shown) && answer == told) <==> (op.ReleaseOp? ==> op.release.attempt in db.attempts)
  {
    match op {
      case StartOp(e) => StartAgrees(db, m, e);
      case RecoverOp(now) => RecoverAgrees(db, m, now);
      case ReleaseOp(r) =>
        if r.attempt in db.attempts {
          ReleaseAgrees(db, m, r);
        } else {
          EventKnownIfClosed(db, m, r.attempt);
          assert !HasRow(db, r.attempt);
        }
    }
  }

  // ------------------------------------------------------------------ whole runs

  ghost function DbRun(ops: seq<Op>): Db {
    if ops == [] then EMPTY else DbStep(DbRun(ops[..|ops| - 1]), ops[|ops| - 1]).0
  }

  function MemoryRun(ops: seq<Op>): Memory {
    if ops == [] then BLANK else MemoryStep(MemoryRun(ops[..|ops| - 1]), ops[|ops| - 1]).0
  }

  predicate ValidOps(ops: seq<Op>) { forall k :: 0 <= k < |ops| ==> ValidOp(ops[k]) }

  predicate StartedIn(ops: seq<Op>, id: string) { exists k :: 0 <= k < |ops| && ops[k].StartOp? && ops[k].started.attempt == id }

  predicate ReleasesFollowStarts(ops: seq<Op>) {
    forall k :: 0 <= k < |ops| && ops[k].ReleaseOp? ==> StartedIn(ops[..k], ops[k].release.attempt)
  }

  /** After every operation the ledgers show the same, and they gave the same answers all along. */
  ghost predicate AgreeThroughout(ops: seq<Op>) {
    if ops == [] then Follows(EMPTY, BLANK)
    else
      var init, last := ops[..|ops| - 1], ops[|ops| - 1];
      && AgreeThroughout(init)
      && Follows(DbRun(ops), MemoryRun(ops))
      && DbStep(DbRun(init), last).1 == MemoryStep(MemoryRun(init), last).1
  }

  lemma DbStepKeeps(db: Db, op: Op)
    requires Metered(db) && ValidOp(op)
    ensures var next := DbStep(db, op).0;
            && Metered(next) && Keeps(db, next)
            && next.attempts.Keys == db.attempts.Keys + if op.StartOp? then {op.started.attempt} else {}
  {
    hide Metered, Keeps, Start, Close, RecoverAll;
    match op {
      case StartOp(e) =>
        StartKeeps(db, e);
        StartedKeys(db, e);
      case ReleaseOp(r) => ReleaseKeeps(db, r);
      case RecoverOp(now) =>
        ListedVisits(db, now);
        RecoverAllKeeps(db, Listed(ExpiredIds(db, now)), now, now);
        RecoverAllShape(db, Listed(ExpiredIds(db, now)), now, now);
    }
  }

  lemma StartedKeys(db: Db, e: Started)
    ensures Start(db, e).attempts.Keys == db.attempts.Keys + {e.attempt}
  {}

  lemma ReleaseKeeps(db: Db, r: Release)
    requires Metered(db) && r.event == TerminalEventId(r.attempt)
    ensures var next := DbStep(db, ReleaseOp(r)).0;
            Metered(next) && Keeps(db, next) && next.attempts.Keys == db.attempts.Keys
  {
    hide Metered;
    if r.attempt in db.attempts {
      hide Keeps;
      CloseKeeps(db, r);
    }
  }

  lemma {:induction false} DbRunMetered(ops: seq<Op>)
    requires ValidOps(ops)
    ensures Metered(DbRun(ops))
    ensures forall id :: id in DbRun(ops).attempts <==> StartedIn(ops, id)
  {
    hide Metered, DbStep, Keeps;
    if ops == [] {
      EmptyIsMetered();
    } else {
      var init, last := ops[..|ops| - 1], ops[|ops| - 1];
      DbRunMetered(init);
      DbStepKeeps(DbRun(init), last);
      forall id ensures StartedIn(ops, id) <==> StartedIn(init, id) || (last.StartOp? && last.started.attempt == id) {
        if k :| 0 <= k < |init| && init[k].StartOp? && init[k].started.attempt == id { assert ops[k] == init[k]; }
      }
    }
  }

  lemma EmptyIsMetered()
    ensures Metered(EMPTY)
  {}

  /** The two ledgers agree over a whole run exactly when every release follows the start of its attempt. */
  lemma {:induction false} LedgersAgreeExactly(ops: seq<Op>)
    requires ValidOps(ops)
    ensures AgreeThroughout(ops) <==> ReleasesFollowStarts(ops)
  {
    hide Metered, Follows, DbStep, MemoryStep;
    if ops == [] {
      StartInAgreement();
    } else {
      var init, last := ops[..|ops| - 1], ops[|ops| - 1];
      LedgersAgreeExactly(init);
      DbRunMetered(init);
      FollowSplit(ops);
      if AgreeThroughout(init) {
        AgreedSoFar(init);
        StepAgreesExactly(DbRun(init), MemoryRun(init), last);
      }
    }
  }

  lemma AgreedSoFar(ops: seq<Op>)
    requires AgreeThroughout(ops)
    ensures Follows(DbRun(ops), MemoryRun(ops))
  {}

  lemma StartInAgreement()
    ensures Follows(EMPTY, BLANK)
  {}

  lemma FollowSplit(ops: seq<Op>)
    requires ops != []
    ensures var init, last := ops[..|ops| - 1], ops[|ops| - 1];
            ReleasesFollowStarts(ops) <==> ReleasesFollowStarts(init) && (last.ReleaseOp? ==> StartedIn(init, last.release.attempt))
  {
    hide StartedIn;
    var init := ops[..|ops| - 1];
    assert forall k :: 0 <= k <= |init| ==> ops[..k] == init[..k];
    assert forall k :: 0 <= k < |init| ==> ops[k] == init[k];
  }

  /** A release that overtakes its start: the database meters it when it is redelivered, the memory ledger takes the
      redelivery for a duplicate and leaves the attempt open. */
  lemma OvertakingReleaseIsLost(e: Started, r: Release)
    requires r.attempt == e.attempt && r.event == TerminalEventId(r.attempt)
    ensures var db := DbStep(Start(EMPTY, e), ReleaseOp(r));
            var m := MemoryStep(WithStart(WithRelease(BLANK, r).0, e).0, ReleaseOp(r));
            && Close(EMPTY, r).None?
            && db.0.attempts[e.attempt].state == Terminal && db.1 == Counted(true)
            && m.0.attempts[e.attempt].state == Open && m.1 == Counted(false)
  {
    assert |InsertRow([], RowOf(r))| == 1;
  }
}
