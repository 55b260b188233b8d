/** Metering of attempts in the database (internal/control/ledger.go): the three transactions of the ledger, with the
    invariant that every attempt is metered once. */
module AttemptLedger {
  import opened Outcomes

  /** The terminal event id of an attempt is a digest of its id: injective by construction here. */
  datatype EventId = OfAttempt(attempt: string) | Other(id: string)

  function TerminalEventId(attempt: string): EventId { OfAttempt(attempt) }

  datatype Identity = Identity(request: string, account: string, provider: string, model: string, tenant: string)

  datatype Details = Details(status: int, errorClass: string, tokensIn: int, tokensOut: int, cacheRead: int, cacheWrite: int,
                             source: string, partial: bool, occurredAt: int)

  datatype Started = Started(attempt: string, identity: Identity, deadline: int)

  datatype Release = Release(event: EventId, attempt: string, identity: Identity, details: Details)

  datatype AttemptState = Open | Terminal | Reconciled

  datatype Attempt = Attempt(identity: Identity, deadline: int, state: AttemptState, terminalEvent: Option<EventId>)

  datatype Row = Row(event: EventId, attempt: string, identity: Identity, details: Details)

  /** `penalties` lists the attempts whose release has been applied to the account's health. */
  datatype Db = Db(attempts: map<string, Attempt>, usage: seq<Row>, penalties: seq<string>)

  const EMPTY := Db(map[], [], [])

  /** Both columns are unique. */
  predicate Clashes(usage: seq<Row>, row: Row) {
    exists i :: 0 <= i < |usage| && (usage[i].event == row.event || usage[i].attempt == row.attempt)
  }

  /** INSERT ... ON CONFLICT DO NOTHING. */
  function InsertRow(usage: seq<Row>, row: Row): seq<Row> { if Clashes(usage, row) then usage else usage + [row] }

  function Start(db: Db, e: Started): Db {
    if e.attempt in db.attempts then db else db.(attempts := db.attempts[e.attempt := Attempt(e.identity, e.deadline, Open, None)])
  }

  function RowOf(r: Release): Row { Row(r.event, r.attempt, r.identity, r.details) }

  /** The release transaction; None when the attempt is not persisted yet, which rolls everything back. */
  function Close(db: Db, r: Release): Option<Db> {
    if r.attempt !in db.attempts then None
    else
      var a := db.attempts[r.attempt];
      var closed := a.(terminalEvent := if a.terminalEvent.Some? then a.terminalEvent else Some(r.event),
                       state := if a.state == Reconciled then Reconciled else Terminal);
      var inserted := !Clashes(db.usage, RowOf(r));
      Some(Db(db.attempts[r.attempt := closed], InsertRow(db.usage, RowOf(r)),
              if inserted then db.penalties + [r.attempt] else db.penalties))
  }

  predicate Expired(db: Db, id: string, before: int) {
    id in db.attempts && db.attempts[id].state == Open && db.attempts[id].deadline < before
  }

  function SyntheticDetails(now: int): Details { Details(504, "network", 0, 0, 0, 0, "missing", true, now) }

  function RecoverOne(db: Db, id: string, now: int): Db {
    if id !in db.attempts then db
    else
      var a := db.attempts[id];
      var row := Row(TerminalEventId(id), id, a.identity, SyntheticDetails(now));
      db.(usage := InsertRow(db.usage, row),
          attempts := if a.state == Open then db.attempts[id := a.(terminalEvent := Some(row.event), state := Reconciled)] else db.attempts)
  }

  function RecoverAll(db: Db, ids: seq<string>, now: int): Db {
    if ids == [] then db else RecoverOne(RecoverAll(db, ids[..|ids| - 1], now), ids[|ids| - 1], now)
  }

  predicate Distinct<T(==)>(s: seq<T>) { forall i, j :: 0 <= i < j < |s| ==> s[i] != s[j] }

  /** The rows a recovery visits: expired and open, each once, any subset that nobody has locked. */
  predicate Visits(db: Db, ids: seq<string>, before: int) {
    Distinct(ids) && forall i :: 0 <= i < |ids| ==> Expired(db, ids[i], before)
  }

  // ------------------------------------------------------------------ exactly once

  predicate HasRow(db: Db, id: string) { exists i :: 0 <= i < |db.usage| && db.usage[i].attempt == id }

  /** Rows are of attempts on record, carry their terminal event, and no attempt has two. */
  ghost predicate RowsOk(db: Db) {
    && (forall i, j :: 0 <= i < j < |db.usage| ==> db.usage[i].attempt != db.usage[j].attempt && db.usage[i].event != db.usage[j].event)
    && (forall i :: 0 <= i < |db.usage| ==> db.usage[i].event == TerminalEventId(db.usage[i].attempt))
    && (forall i :: 0 <= i < |db.usage| ==> db.usage[i].attempt in db.attempts)
  }

  ghost predicate StatesOk(db: Db) {
    && (forall id :: id in db.attempts ==> (HasRow(db, id) <==> db.attempts[id].state != Open))
    && (forall id :: id in db.attempts ==>
          db.attempts[id].terminalEvent == if db.attempts[id].state == Open then None else Some(TerminalEventId(id)))
  }

  ghost predicate PenaltiesOk(db: Db) {
    && Distinct(db.penalties)
    && (forall id :: id in db.penalties <==> id in db.attempts && db.attempts[id].state == Terminal)
  }

  /** An attempt has a usage row exactly when it is not open, and never two. Its release is applied to the account
      exactly when it, and not a recovery, closed the attempt, and never twice. */
  ghost predicate Metered(db: Db) { RowsOk(db) && StatesOk(db) && PenaltiesOk(db) }

  /** Nothing recorded is ever rewritten. */
  ghost predicate Keeps(db: Db, later: Db) {
    && db.usage <= later.usage && db.penalties <= later.penalties
    && forall id :: id in db.attempts ==>
         && id in later.attempts && later.attempts[id].identity == db.attempts[id].identity
         && (db.attempts[id].state != Open ==> later.attempts[id] == db.attempts[id])
  }

  lemma KeepsTransitive(a: Db, b: Db, c: Db)
    requires Keeps(a, b) && Keeps(b, c)
    ensures Keeps(a, c)
  {}

  lemma StartKeeps(db: Db, e: Started)
    requires Metered(db)
    ensures Metered(Start(db, e)) && Keeps(db, Start(db, e))
  {
    var next := Start(db, e);
    forall id | id in next.attempts ensures HasRow(next, id) <==> next.attempts[id].state != Open {
      if id !in db.attempts { assert !HasRow(db, id); } else { assert HasRow(db, id) <==> HasRow(next, id); }
    }
  }

  lemma InsertedRow(db: Db, next: Db, row: Row)
    requires next.usage == db.usage + [row]
    ensures HasRow(next, row.attempt)
    ensures forall id :: id != row.attempt ==> (HasRow(next, id) <==> HasRow(db, id))
  {
    assert next.usage[|db.usage|] == row;
    forall id | id != row.attempt ensures HasRow(next, id) <==> HasRow(db, id) {
      if HasRow(db, id) {
        var i :| 0 <= i < |db.usage| && db.usage[i].attempt == id;
        assert next.usage[i].attempt == id;
      }
    }
  }

  lemma ClashIsHasRow(db: Db, row: Row)
    requires Metered(db) && row.event == TerminalEventId(row.attempt)
    ensures Clashes(db.usage, row) <==> HasRow(db, row.attempt)
  {}

  /** A first row for an open attempt, whoever writes it. */
  lemma FirstRowKeeps(db: Db, next: Db, row: Row, state: AttemptState)
    requires Metered(db) && row.event == TerminalEventId(row.attempt) && row.attempt in db.attempts
    requires db.attempts[row.attempt].state == Open && state != Open
    requires next.usage == db.usage + [row]
    requires next.attempts == db.attempts[row.attempt := db.attempts[row.attempt].(terminalEvent := Some(row.event), state := state)]
    requires next.penalties == if state == Terminal then db.penalties + [row.attempt] else db.penalties
    ensures Metered(next) && Keeps(db, next)
  {
    assert !HasRow(db, row.attempt) && row.attempt !in db.penalties;
    FirstRowKeepsRows(db, next, row);
    InsertedRow(db, next, row);
    FirstRowKeepsPenalties(db, next, row, state);
    hide RowsOk, HasRow, PenaltiesOk;
  }

  lemma FirstRowKeepsRows(db: Db, next: Db, row: Row)
    requires RowsOk(db) && row.event == TerminalEventId(row.attempt) && row.attempt in db.attempts && !HasRow(db, row.attempt)
    requires next.usage == db.usage + [row] && db.attempts.Keys <= next.attempts.Keys
    ensures RowsOk(next)
  {
    assert forall i :: 0 <= i < |db.usage| ==> db.usage[i].attempt != row.attempt;
  }

  lemma FirstRowKeepsPenalties(db: Db, next: Db, row: Row, state: AttemptState)
    requires PenaltiesOk(db) && row.attempt in db.attempts && row.attempt !in db.penalties
    requires db.attempts[row.attempt].state == Open && state != Open
    requires next.attempts == db.attempts[row.attempt := db.attempts[row.attempt].(terminalEvent := Some(row.event), state := state)]
    requires next.penalties == if state == Terminal then db.penalties + [row.attempt] else db.penalties
    ensures PenaltiesOk(next)
  {
    assert forall other :: other in next.penalties <==> other in db.penalties || (state == Terminal && other == row.attempt);
  }

  lemma CloseKeeps(db: Db, r: Release)
    requires Metered(db) && r.event == TerminalEventId(r.attempt) && r.attempt in db.attempts
    ensures var next := Close(db, r).value;
            && Metered(next) && Keeps(db, next) && next.attempts[r.attempt].state != Open
            && (db.attempts[r.attempt].state == Open ==> next.usage == db.usage + [RowOf(r)])
            && (db.attempts[r.attempt].state != Open ==> next == db)
  {
    var next := Close(db, r).value;
    var row := RowOf(r);
    ClashIsHasRow(db, row);
    if db.attempts[r.attempt].state == Open {
      assert !HasRow(db, r.attempt);
      FirstRowKeeps(db, next, row, Terminal);
    } else {
      assert HasRow(db, r.attempt);
      assert next.attempts == db.attempts;
    }
  }

  lemma RecoverOneKeeps(db: Db, id: string, before: int, now: int)
    requires Metered(db) && Expired(db, id, before)
    ensures var next := RecoverOne(db, id, now);
            && Metered(next) && Keeps(db, next) && next.attempts[id].state == Reconciled
            && forall other :: other != id && Expired(db, other, before) ==> Expired(next, other, before)
  {
    var next := RecoverOne(db, id, now);
    var row := Row(TerminalEventId(id), id, db.attempts[id].identity, SyntheticDetails(now));
    ClashIsHasRow(db, row);
    assert !HasRow(db, id);
    FirstRowKeeps(db, next, row, Reconciled);
    hide Metered, HasRow, Clashes;
  }

  lemma {:induction false} RecoverAllKeeps(db: Db, ids: seq<string>, before: int, now: int)
    requires Metered(db) && Visits(db, ids, before)
    ensures var next := RecoverAll(db, ids, now);
            && Metered(next) && Keeps(db, next)
            && (forall i :: 0 <= i < |ids| ==> ids[i] in next.attempts && next.attempts[ids[i]].state == Reconciled)
            && (forall id :: id !in ids && Expired(db, id, before) ==> Expired(next, id, before))
  {
    hide Metered, RecoverOne;
    if ids == [] {
      StillMetered(db);
    } else {
      var init, last := ids[..|ids| - 1], ids[|ids| - 1];
      RecoverAllKeeps(db, init, before, now);
      var mid := RecoverAll(db, init, now);
      assert last !in init;
      assert Expired(mid, last, before);
      RecoverOneKeeps(mid, last, before, now);
      KeepsTransitive(db, mid, RecoverAll(db, ids, now));
    }
  }

  lemma StillMetered(db: Db)
    ensures Keeps(db, db)
  {}

  // ------------------------------------------------------------------ what is metered

  /** A row that meters this release: its event and attempt, its identity, what it reported. */
  predicate MetersRelease(row: Row, r: Release) {
    && row.event == r.event && row.attempt == r.attempt
    && row.identity.request == r.identity.request && row.identity.account == r.identity.account
    && row.identity.provider == r.identity.provider && row.identity.model == r.identity.model && row.identity.tenant == r.identity.tenant
    && row.details.status == r.details.status && row.details.errorClass == r.details.errorClass
    && row.details.tokensIn == r.details.tokensIn && row.details.tokensOut == r.details.tokensOut
    && row.details.cacheRead == r.details.cacheRead && row.details.cacheWrite == r.details.cacheWrite
    && row.details.source == r.details.source && row.details.partial == r.details.partial
    && row.details.occurredAt == r.details.occurredAt
  }

  /** A row of an attempt nobody reported: failed at the gateway's timeout, without tokens, its usage missing and partial. */
  predicate MetersSilence(row: Row, id: string, identity: Identity) {
    && row.event == TerminalEventId(id) && row.attempt == id && row.identity == identity
    && row.details.status == 504 && row.details.errorClass == "network"
    && row.details.tokensIn == 0 && row.details.tokensOut == 0 && row.details.cacheRead == 0 && row.details.cacheWrite == 0
    && row.details.source == "missing" && row.details.partial
  }

  /** The release of an open attempt adds one row, which meters that release, and closes the attempt under its event; nothing
      else about the attempt changes, and no other attempt. */
  lemma ReleaseMeans(db: Db, r: Release)
    requires Metered(db) && r.event == TerminalEventId(r.attempt) && r.attempt in db.attempts && db.attempts[r.attempt].state == Open
    ensures Close(db, r).Some?
    ensures var next := Close(db, r).value;
            && |next.usage| == |db.usage| + 1 && next.usage[..|db.usage|] == db.usage && MetersRelease(next.usage[|db.usage|], r)
            && next.attempts.Keys == db.attempts.Keys
            && (forall id :: id in db.attempts && id != r.attempt ==> next.attempts[id] == db.attempts[id])
            && next.attempts[r.attempt] == Attempt(db.attempts[r.attempt].identity, db.attempts[r.attempt].deadline, Terminal, Some(r.event))
            && next.penalties == db.penalties + [r.attempt]
  {
    ClashIsHasRow(db, RowOf(r));
    assert !HasRow(db, r.attempt);
    hide Clashes, HasRow, RowsOk;
  }

  /** A release of an attempt that is not on record is refused; of one that is closed it changes nothing. */
  lemma ReleaseRefused(db: Db, r: Release)
    requires Metered(db) && r.event == TerminalEventId(r.attempt)
    ensures Close(db, r).None? <==> r.attempt !in db.attempts
    ensures r.attempt in db.attempts && db.attempts[r.attempt].state != Open ==> Close(db, r) == Some(db)
  {
    if r.attempt in db.attempts { CloseKeeps(db, r); }
  }

  /** A start puts the attempt on record as open, with its identity and deadline, once. */
  lemma StartMeans(db: Db, e: Started)
    ensures Start(db, e).usage == db.usage && Start(db, e).penalties == db.penalties
    ensures Start(db, e).attempts == if e.attempt in db.attempts then db.attempts else
              db.attempts[e.attempt := Attempt(e.identity, e.deadline, Open, None)]
  {}

  /** A recovery adds one row for an expired open attempt, which says that nobody reported, and reconciles the attempt. */
  lemma RecoveryMeans(db: Db, id: string, before: int, now: int)
    requires Metered(db) && Expired(db, id, before)
    ensures var next := RecoverOne(db, id, now);
            && id in db.attempts && db.attempts[id].state == Open && db.attempts[id].deadline < before
            && |next.usage| == |db.usage| + 1 && next.usage[..|db.usage|] == db.usage
            && MetersSilence(next.usage[|db.usage|], id, db.attempts[id].identity) && next.usage[|db.usage|].details.occurredAt == now
            && next.attempts == db.attempts[id := Attempt(db.attempts[id].identity, db.attempts[id].deadline, Reconciled, Some(TerminalEventId(id)))]
            && next.penalties == db.penalties
  {
    var row := Row(TerminalEventId(id), id, db.attempts[id].identity, SyntheticDetails(now));
    ClashIsHasRow(db, row);
    assert !HasRow(db, id);
    hide Clashes, HasRow, RowsOk;
  }

  // ------------------------------------------------------------------ the database ledger

  class Ledger {
    var attempts: map<string, Attempt>
    var usage: seq<Row>
    var penalties: seq<string>

    ghost function View(): Db
      reads this
    {
      Db(attempts, usage, penalties)
    }

    constructor ()
      ensures View() == EMPTY
    {
      attempts, usage, penalties := map[], [], [];
    }

    method HandleAttemptStarted(e: Started)
      modifies `attempts
      ensures View() == Start(old(View()), e)
    {
      if e.attempt !in attempts {
        attempts := attempts[e.attempt := Attempt(e.identity, e.deadline, Open, None)];
      }
    }

    method Insert(row: Row) returns (affected: nat)
      modifies `usage
      ensures usage == InsertRow(old(usage), row) && affected == if Clashes(old(usage), row) then 0 else 1
    {
      for i := 0 to |usage|
        invariant usage == old(usage)
        invariant forall k :: 0 <= k < i ==> usage[k].event != row.event && usage[k].attempt != row.attempt
      {
        if usage[i].event == row.event || usage[i].attempt == row.attempt { return 0; }
      }
      usage := usage + [row];
      return 1;
    }

    method HandleRelease(r: Release) returns (known: bool)
      modifies this
      ensures known == Close(old(View()), r).Some?
      ensures View() == if known then Close(old(View()), r).value else old(View())
      ensures usage != old(usage) ==>
                |usage| == |old(usage)| + 1 && usage[..|old(usage)|] == old(usage) && MetersRelease(usage[|old(usage)|], r)
    {
      if r.attempt !in attempts { return false; }
      var affected := Insert(RowOf(r));
      var a := attempts[r.attempt];
      attempts := attempts[r.attempt := a.(terminalEvent := if a.terminalEvent.Some? then a.terminalEvent else Some(r.event),
                                           state := if a.state == Reconciled then Reconciled else Terminal)];
      if affected == 1 {
        penalties := penalties + [r.attempt];
      }
      return true;
    }

    /** The rows a recovery selects, in no particular order. */
    method Candidates(before: int, locked: set<string>) returns (ids: seq<string>)
      ensures Visits(View(), ids, before)
      ensures forall id :: id in ids <==> Expired(View(), id, before) && id !in locked
    {
      ids := [];
      var todo := set id | id in attempts && attempts[id].state == Open && attempts[id].deadline < before && id !in locked;
      while todo != {}
        invariant Distinct(ids) && forall id :: id in todo ==> id !in ids
        invariant forall id :: Expired(View(), id, before) && id !in locked <==> id in todo || id in ids
      {
        var id :| id in todo;
        todo := todo - {id};
        ids := ids + [id];
      }
    }

    method Reconcile(id: string, now: int) returns (affected: nat)
      requires id in attempts
      modifies `attempts, `usage
      ensures View() == RecoverOne(old(View()), id, now)
      ensures affected == if old(attempts)[id].state == Open then 1 else 0
    {
      var a := attempts[id];
      var inserted := Insert(Row(TerminalEventId(id), id, a.identity, SyntheticDetails(now)));
      if a.state != Open { return 0; }
      attempts := attempts[id := a.(terminalEvent := Some(TerminalEventId(id)), state := Reconciled)];
      return 1;
    }

    /** Close every expired open attempt that no other transaction has locked with a synthetic release. */
    method RecoverAttempts(before: int, now: int, locked: set<string>) returns (count: nat, visited: seq<string>)
      requires Metered(View())
      modifies this
      ensures Visits(old(View()), visited, before) && count == |visited|
      ensures forall id :: id in visited <==> Expired(old(View()), id, before) && id !in locked
      ensures View() == RecoverAll(old(View()), visited, now)
      ensures Metered(View())
    {
      hide Metered, RecoverOne, Keeps;
      visited := Candidates(before, locked);
      count := 0;
      ghost var start := View();
      for i := 0 to |visited|
        invariant View() == RecoverAll(start, visited[..i], now)
        invariant count == i
      {
        RecoverAllKeeps(start, visited[..i], before, now);
        assert visited[..i + 1][..i] == visited[..i];
        assert visited[i] !in visited[..i];
        assert Expired(View(), visited[i], before);
        var affected := Reconcile(visited[i], now);
        count := count + affected;
      }
      assert visited[..|visited|] == visited;
      RecoverAllKeeps(start, visited, before, now);
    }
  }

  /** What a recovery may take: open attempts whose deadline has passed. */
  lemma ExpiredMeans(db: Db, id: string, before: int)
    ensures Expired(db, id, before) <==> id in db.attempts && db.attempts[id].state == Open && db.attempts[id].deadline < before
  {}
}
