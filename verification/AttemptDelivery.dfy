/** At-least-once delivery of attempt events to the ledger (internal/events/stream.go): any number of consumers,
    redelivery, crashes between any two calls, dead letters and recovery. */
module AttemptDelivery {
  import opened Outcomes
  import opened AttemptLedger

  const MAX_RETRIES := 5

  /** A stream entry once decoded: a start, a release, or something that cannot be used. */
  datatype Message = OfStart(started: Started) | OfRelease(release: Release) | Unusable

  /** Envelope, identity and contract checks; in particular a release must carry its attempt's terminal event id. */
  predicate Usable(m: Message) {
    match m
    case OfStart(_) => true
    case OfRelease(r) => r.event == TerminalEventId(r.attempt)
    case Unusable => false
  }

  /** Where a consumer stands with a message between two calls. */
  datatype Stage = Counting | Handling | Burying | Acking | Clearing

  datatype Work = Work(message: nat, stage: Stage)

  /** How a database transaction can end: committed and known to be, rolled back, or committed with the answer lost. */
  datatype Ending = Committed | RolledBack | AnswerLost

  /** `tries` counts every attempt ever begun on a message; `retries` is the counter key, which is deleted again. */
  datatype World = World(
    db: Db, stream: seq<Message>, delivered: nat, pending: set<nat>, retries: map<nat, nat>, tries: map<nat, nat>,
    dead: set<nat>, consumers: map<nat, Work>)

  const START := World(EMPTY, [], 0, {}, map[], map[], {}, map[])

  function Count(m: map<nat, nat>, k: nat): nat { if k in m then m[k] else 0 }

  /** The handler's transaction: None is an error, and changes nothing. */
  function Handled(db: Db, m: Message): Option<Db> {
    match m
    case OfStart(e) => Some(Start(db, e))
    case OfRelease(r) => Close(db, r)
    case Unusable => None
  }

  /** One call of a consumer working on a message; None when it is done with it or has failed. */
  function WorkStep(w: World, k: Work, ending: Ending): (World, Option<Work>)
    requires k.message < |w.stream|
  {
    var m := k.message;
    match k.stage
    case Counting =>
      if !Usable(w.stream[m]) then (w, Some(Work(m, Burying)))
      else
        var n := Count(w.retries, m) + 1;
        (w.(retries := w.retries[m := n], tries := w.tries[m := Count(w.tries, m) + 1]),
         Some(Work(m, if n > MAX_RETRIES then Burying else Handling)))
    case Handling =>
      (match Handled(w.db, w.stream[m])
       case None => (w, None)
       case Some(next) =>
         match ending
         case Committed => (w.(db := next), Some(Work(m, Acking)))
         case RolledBack => (w, None)
         case AnswerLost => (w.(db := next), None))
    case Burying => (w.(dead := w.dead + {m}), Some(Work(m, Acking)))
    case Acking => (w.(pending := w.pending - {m}), Some(Work(m, Clearing)))
    case Clearing => (w.(retries := w.retries - {m}), None)
  }

  datatype Event =
    | Append(entry: Message)                      // a producer adds to the stream
    | Deliver(consumer: nat)                        // the next undelivered message
    | Reclaim(consumer: nat, message: nat)          // a pending message that has been idle
    | Advance(consumer: nat, ending: Ending)
    | Crash(consumer: nat)
    | CounterExpires(message: nat)
    | Recover(before: int, now: int, ids: seq<string>)

  function Without<K(==), V>(m: map<K, V>, k: K): map<K, V> { m - {k} }

  function Step(w: World, e: Event): World {
    match e
    case Append(m) => w.(stream := w.stream + [m])
    case Deliver(c) =>
      if w.delivered >= |w.stream| || c in w.consumers then w
      else w.(delivered := w.delivered + 1, pending := w.pending + {w.delivered}, consumers := w.consumers[c := Work(w.delivered, Counting)])
    case Reclaim(c, m) =>
      if m !in w.pending || c in w.consumers then w else w.(consumers := w.consumers[c := Work(m, Counting)])
    case Advance(c, ending) =>
      if c !in w.consumers || w.consumers[c].message >= |w.stream| then w
      else
        var (next, k) := WorkStep(w, w.consumers[c], ending);
        next.(consumers := if k.Some? then w.consumers[c := k.value] else Without(w.consumers, c))
    case Crash(c) => w.(consumers := Without(w.consumers, c))
    case CounterExpires(m) => w.(retries := Without(w.retries, m))
    case Recover(before, now, ids) => if Visits(w.db, ids, before) then w.(db := RecoverAll(w.db, ids, now)) else w
  }

  function Run(w: World, events: seq<Event>): World
    decreases |events|
  {
    if events == [] then w else Run(Step(w, events[0]), events[1..])
  }

  // ------------------------------------------------------------------ the invariant

  /** The message has had its effect: the attempt is on record, or it is closed and metered. */
  predicate TookEffect(db: Db, m: Message) {
    match m
    case OfStart(e) => e.attempt in db.attempts
    case OfRelease(r) => r.attempt in db.attempts && db.attempts[r.attempt].state != Open && HasRow(db, r.attempt)
    case Unusable => false
  }

  predicate Settled(w: World, m: nat) { m < |w.stream| && (TookEffect(w.db, w.stream[m]) || m in w.dead) }

  /** A message may be buried: it is unusable, or it has been tried too often. */
  predicate Hopeless(w: World, m: nat) { m < |w.stream| && (!Usable(w.stream[m]) || Count(w.tries, m) > MAX_RETRIES) }

  predicate WorkOk(w: World, k: Work) {
    && k.message < w.delivered && k.message < |w.stream|
    && match k.stage
       case Counting => true
       case Handling => Usable(w.stream[k.message])
       case Burying => Hopeless(w, k.message)
       case Acking => Settled(w, k.message)
       case Clearing => Settled(w, k.message)
  }

  ghost predicate Core(w: World) {
    && Metered(w.db)
    && w.delivered <= |w.stream|
    && (forall m :: m in w.pending ==> m < w.delivered)
    && (forall m: nat :: m < w.delivered ==> m in w.pending || Settled(w, m))
    && (forall m :: m in w.dead ==> Hopeless(w, m))
    && (forall m :: m in w.retries ==> w.retries[m] <= Count(w.tries, m))
  }

  ghost predicate Inv(w: World) { Core(w) && forall c :: c in w.consumers ==> WorkOk(w, w.consumers[c]) }

  /** What no step takes back. */
  ghost predicate Grows(w: World, v: World) {
    && w.stream <= v.stream && w.delivered <= v.delivered && w.dead <= v.dead && Keeps(w.db, v.db)
    && forall m: nat :: Count(w.tries, m) <= Count(v.tries, m)
  }

  lemma EffectStays(db: Db, later: Db, m: Message)
    requires Keeps(db, later) && TookEffect(db, m)
    ensures TookEffect(later, m)
  {
    if m.OfRelease? {
      var i :| 0 <= i < |db.usage| && db.usage[i].attempt == m.release.attempt;
      assert later.usage[i] == db.usage[i];
    }
  }

  lemma CarryOver(w: World, v: World)
    requires Grows(w, v)
    ensures forall m: nat :: Settled(w, m) ==> Settled(v, m)
    ensures forall m: nat :: Hopeless(w, m) ==> Hopeless(v, m)
    ensures forall k :: WorkOk(w, k) ==> WorkOk(v, k)
  {
    hide TookEffect, Keeps;
    forall m: nat | Settled(w, m) ensures Settled(v, m) {
      if TookEffect(w.db, w.stream[m]) { EffectStays(w.db, v.db, w.stream[m]); }
    }
  }

  lemma HandledTakesEffect(db: Db, m: Message)
    requires Metered(db) && Usable(m) && Handled(db, m).Some?
    ensures var next := Handled(db, m).value; Metered(next) && Keeps(db, next) && TookEffect(next, m)
  {
    match m {
      case OfStart(e) => StartKeeps(db, e);
      case OfRelease(r) => CloseKeeps(db, r);
    }
  }

  /** What is needed of a step besides growth. */
  lemma CoreCarries(w: World, v: World)
    requires Core(w) && Grows(w, v) && Metered(v.db) && v.delivered <= |v.stream|
    requires forall m :: m in v.pending ==> m < v.delivered
    requires forall m: nat :: m < v.delivered && m !in v.pending ==> (m < w.delivered && m !in w.pending) || Settled(v, m)
    requires forall m :: m in v.dead - w.dead ==> Hopeless(v, m)
    requires forall m :: m in v.retries ==> v.retries[m] <= Count(v.tries, m)
    ensures Core(v)
  {
    hide Metered, Settled, Hopeless, Count, Keeps;
    CarryOver(w, v);
    forall m | m in v.dead ensures Hopeless(v, m) {
      if m in w.dead { assert Hopeless(w, m); }
    }
  }

  lemma CountingKeeps(w: World, m: nat, v: World)
    requires Core(w) && m < w.delivered && m < |w.stream|
    requires v == w.(retries := w.retries[m := Count(w.retries, m) + 1], tries := w.tries[m := Count(w.tries, m) + 1])
    ensures Core(v) && Grows(w, v) && Count(v.tries, m) >= v.retries[m]
  {
    hide Metered, TookEffect;
    StillMetered(w.db);
    assert Count(w.retries, m) <= Count(w.tries, m);
    CoreCarries(w, v);
  }

  lemma HandlingKeeps(w: World, m: nat, v: World)
    requires Core(w) && m < w.delivered && m < |w.stream| && Usable(w.stream[m])
    requires Handled(w.db, w.stream[m]).Some? && v == w.(db := Handled(w.db, w.stream[m]).value)
    ensures Core(v) && Grows(w, v) && Settled(v, m)
  {
    HandledTakesEffect(w.db, w.stream[m]);
    hide Metered, Handled, TookEffect, Keeps;
    CoreCarries(w, v);
  }

  lemma BuryingKeeps(w: World, m: nat, v: World)
    requires Core(w) && Hopeless(w, m) && v == w.(dead := w.dead + {m})
    ensures Core(v) && Grows(w, v) && Settled(v, m)
  {
    hide Metered, TookEffect;
    StillMetered(w.db);
    CoreCarries(w, v);
  }

  lemma AckingKeeps(w: World, m: nat, v: World)
    requires Core(w) && Settled(w, m) && (v == w.(pending := w.pending - {m}) || v == w.(retries := w.retries - {m}))
    ensures Core(v) && Grows(w, v) && Settled(v, m)
  {
    hide Metered, TookEffect;
    StillMetered(w.db);
    CoreCarries(w, v);
  }

  lemma WorkKeeps(w: World, k: Work, ending: Ending)
    requires Core(w) && WorkOk(w, k)
    ensures var (v, next) := WorkStep(w, k, ending); Core(v) && Grows(w, v) && (next.Some? ==> WorkOk(v, next.value))
  {
    hide Core, Grows, Handled, Settled, Usable;
    var m, v := k.message, WorkStep(w, k, ending).0;
    SameWorld(w);
    match k.stage {
      case Counting => if Usable(w.stream[m]) { CountingKeeps(w, m, v); }
      case Handling => if Handled(w.db, w.stream[m]).Some? && ending != RolledBack { HandlingKeeps(w, m, v); }
      case Burying => BuryingKeeps(w, m, v);
      case Acking => AckingKeeps(w, m, v);
      case Clearing => AckingKeeps(w, m, v);
    }
  }

  lemma AdvanceKeeps(w: World, c: nat, ending: Ending)
    requires Inv(w) && c in w.consumers
    ensures Inv(Step(w, Advance(c, ending))) && Grows(w, Step(w, Advance(c, ending)))
  {
    WorkKeeps(w, w.consumers[c], ending);
    hide WorkStep, Core, Keeps, WorkOk;
    var (u, next) := WorkStep(w, w.consumers[c], ending);
    var v := Step(w, Advance(c, ending));
    assert w.consumers[c].message < |w.stream| by { WorkIsOnStream(w, w.consumers[c]); }
    ConsumersDoNotMatter(u, v);
    CarryOver(w, v);
  }

  lemma WorkIsOnStream(w: World, k: Work)
    requires WorkOk(w, k)
    ensures k.message < |w.stream|
  {}

  lemma ConsumersDoNotMatter(w: World, v: World)
    requires v == w.(consumers := v.consumers)
    ensures Grows(w, v) && (Core(w) ==> Core(v)) && forall k :: WorkOk(w, k) ==> WorkOk(v, k)
  {
    hide Metered, TookEffect;
    StillMetered(w.db);
    if Core(w) { CoreCarries(w, v); }
  }

  lemma StepKeepsInv(w: World, e: Event)
    requires Inv(w)
    ensures Inv(Step(w, e)) && Grows(w, Step(w, e))
  {
    if e.Advance? {
      hide Inv, WorkStep, Grows;
      if e.consumer in w.consumers { AdvanceKeeps(w, e.consumer, e.ending); } else { SameWorld(w); }
    } else {
      var v := Step(w, e);
      StillMetered(w.db);
      if e.Recover? && Visits(w.db, e.ids, e.before) {
        RecoverAllKeeps(w.db, e.ids, e.before, e.now);
      }
      hide Metered, TookEffect, RecoverAll, Keeps;
      assert Grows(w, v);
      CarryOver(w, v);
      CoreCarries(w, v);
    }
  }

  lemma SameWorld(w: World)
    ensures Grows(w, w)
  {
    StillMetered(w.db);
  }

  lemma {:induction false} RunKeepsInv(w: World, events: seq<Event>)
    requires Inv(w)
    ensures Inv(Run(w, events)) && Grows(w, Run(w, events))
    decreases |events|
  {
    hide Inv, Step, Keeps;
    if events == [] {
      StillMetered(w.db);
    } else {
      var next := Step(w, events[0]);
      StepKeepsInv(w, events[0]);
      RunKeepsInv(next, events[1..]);
      KeepsTransitive(w.db, next.db, Run(w, events).db);
    }
  }

  lemma ReachableInv(events: seq<Event>)
    ensures Inv(Run(START, events))
  {
    RunKeepsInv(START, events);
  }

  // ------------------------------------------------------------------ what it is for

  function RowsFor(usage: seq<Row>, id: string): nat {
    if usage == [] then 0 else RowsFor(usage[..|usage| - 1], id) + if usage[|usage| - 1].attempt == id then 1 else 0
  }

  lemma {:induction false} RowsCounted(usage: seq<Row>, id: string)
    requires forall i, j :: 0 <= i < j < |usage| ==> usage[i].attempt != usage[j].attempt
    ensures RowsFor(usage, id) == if exists i :: 0 <= i < |usage| && usage[i].attempt == id then 1 else 0
  {
    if usage != [] {
      var init := usage[..|usage| - 1];
      RowsCounted(init, id);
      assert usage[|usage| - 1].attempt != id ==> forall i :: 0 <= i < |usage| && usage[i].attempt == id ==> init[i].attempt == id;
    }
  }

  lemma {:induction false} PenaltiesCounted(s: seq<string>, id: string)
    requires Distinct(s)
    ensures multiset(s)[id] == if id in s then 1 else 0
  {
    if s != [] {
      var init, last := s[..|s| - 1], s[|s| - 1];
      assert s == init + [last];
      PenaltiesCounted(init, id);
      assert last !in init;
    }
  }

  /** Whatever order of deliveries, redeliveries, crashes and recoveries led here: an attempt on record has no usage
      row while it is open and exactly one afterwards, and its account is penalised once if a release closed it,
      never if a recovery did. An attempt not on record has neither. */
  lemma ExactlyOnce(events: seq<Event>, id: string)
    ensures var db := Run(START, events).db;
            var state := if id in db.attempts then db.attempts[id].state else Open;
            && RowsFor(db.usage, id) == (if state == Open then 0 else 1)
            && multiset(db.penalties)[id] == (if state == Terminal then 1 else 0)
  {
    hide Run;
    ReachableInv(events);
    var db := Run(START, events).db;
    RowsCounted(db.usage, id);
    PenaltiesCounted(db.penalties, id);
    assert HasRow(db, id) <==> exists i :: 0 <= i < |db.usage| && db.usage[i].attempt == id;
  }

  /** A delivered message leaves the pending list only once it has taken effect in a committed transaction, or
      lies in the dead-letter stream; a usable one gets there only after more than five tries. */
  lemma AckedOnlyAfterEffect(events: seq<Event>, m: nat)
    requires m < Run(START, events).delivered && m !in Run(START, events).pending
    ensures var w := Run(START, events);
            && m < |w.stream|
            && (m !in w.dead ==> TookEffect(w.db, w.stream[m]))
            && (m in w.dead && Usable(w.stream[m]) ==> Count(w.tries, m) > 5)
  {
    hide Run, Metered, TookEffect;
    ReachableInv(events);
    assert Settled(Run(START, events), m);
  }

  /** Once metered, a row and the attempt it closed never change again. */
  lemma MeteredForever(before: seq<Event>, after: seq<Event>, i: nat)
    requires i < |Run(START, before).db.usage|
    ensures var now, later := Run(START, before).db, Run(Run(START, before), after).db;
            && i < |later.usage| && later.usage[i] == now.usage[i]
            && var id := now.usage[i].attempt;
            id in now.attempts && id in later.attempts && later.attempts[id] == now.attempts[id]
  {
    hide Run;
    ReachableInv(before);
    RunKeepsInv(Run(START, before), after);
    var now := Run(START, before).db;
    assert HasRow(now, now.usage[i].attempt);
  }

  // ------------------------------------------------------------------ where rows come from

  /** Every attempt on record was started by an entry of the stream; every row of one closed by a release meters a usable
      release of it in the stream; every row of a reconciled one says that nobody reported. */
  ghost predicate Provenance(db: Db, stream: seq<Message>) {
    && (forall id :: id in db.attempts ==> StartedBy(db.attempts[id], stream, id))
    && (forall i :: 0 <= i < |db.usage| ==> RowExplained(db, stream, db.usage[i]))
  }

  ghost predicate StartedBy(a: Attempt, stream: seq<Message>, id: string) {
    exists m :: 0 <= m < |stream| && StartsAttempt(stream[m], id, a)
  }

  predicate StartsAttempt(message: Message, id: string, a: Attempt) {
    message.OfStart? && message.started.attempt == id && message.started.identity == a.identity && message.started.deadline == a.deadline
  }

  ghost predicate RowExplained(db: Db, stream: seq<Message>, row: Row) {
    && row.attempt in db.attempts
    && match db.attempts[row.attempt].state
       case Open => false
       case Terminal => exists m :: 0 <= m < |stream| && stream[m].OfRelease? && Usable(stream[m]) && MetersRelease(row, stream[m].release)
       case Reconciled => MetersSilence(row, row.attempt, db.attempts[row.attempt].identity)
  }

  lemma ProvenanceGrows(db: Db, stream: seq<Message>, longer: seq<Message>)
    requires Provenance(db, stream) && stream <= longer
    ensures Provenance(db, longer)
  {
    hide MetersRelease, MetersSilence, Usable;
    forall id | id in db.attempts ensures StartedBy(db.attempts[id], longer, id) {
      var m :| 0 <= m < |stream| && StartsAttempt(stream[m], id, db.attempts[id]);
      assert StartsAttempt(longer[m], id, db.attempts[id]);
    }
    forall i | 0 <= i < |db.usage| ensures RowExplained(db, longer, db.usage[i]) {
      assert RowExplained(db, stream, db.usage[i]);
      if db.attempts[db.usage[i].attempt].state == Terminal {
        var m :| 0 <= m < |stream| && stream[m].OfRelease? && Usable(stream[m]) && MetersRelease(db.usage[i], stream[m].release);
        assert longer[m] == stream[m];
      }
    }
  }

  /** Earlier rows keep their explanation while attempts that are closed stay as they are. */
  lemma RowsStayExplained(db: Db, next: Db, stream: seq<Message>)
    requires Metered(db) && Provenance(db, stream) && Keeps(db, next)
    ensures forall i :: 0 <= i < |db.usage| ==> next.usage[i] == db.usage[i] && RowExplained(next, stream, db.usage[i])
  {
    hide MetersRelease, MetersSilence, Metered;
    forall i | 0 <= i < |db.usage| ensures next.usage[i] == db.usage[i] && RowExplained(next, stream, db.usage[i]) {
      assert RowExplained(db, stream, db.usage[i]);
    }
  }

  lemma StartExplained(db: Db, stream: seq<Message>, m: nat)
    requires Metered(db) && Provenance(db, stream) && m < |stream| && stream[m].OfStart?
    ensures Provenance(Start(db, stream[m].started), stream)
  {
    hide RowExplained, Metered;
    var next := Start(db, stream[m].started);
    StartKeeps(db, stream[m].started);
    RowsStayExplained(db, next, stream);
    forall id | id in next.attempts ensures StartedBy(next.attempts[id], stream, id) {
      if id !in db.attempts { assert StartsAttempt(stream[m], id, next.attempts[id]); }
    }
  }

  lemma CloseExplained(db: Db, stream: seq<Message>, m: nat)
    requires Metered(db) && Provenance(db, stream) && m < |stream| && stream[m].OfRelease? && Usable(stream[m])
    requires Close(db, stream[m].release).Some?
    ensures Provenance(Close(db, stream[m].release).value, stream)
  {
    hide Close, Metered, MetersRelease, MetersSilence, StartedBy, Keeps;
    var r := stream[m].release;
    ReleaseRefused(db, r);
    if db.attempts[r.attempt].state == Open {
      var next := Close(db, r).value;
      ReleaseMeans(db, r);
      CloseKeeps(db, r);
      RowsStayExplained(db, next, stream);
      MetersItsAttempt(next.usage[|db.usage|], r);
      SameStart(db.attempts[r.attempt], next.attempts[r.attempt], stream, r.attempt);
    }
  }

  lemma MetersItsAttempt(row: Row, r: Release)
    requires MetersRelease(row, r)
    ensures row.attempt == r.attempt
  {}

  lemma SameStart(a: Attempt, b: Attempt, stream: seq<Message>, id: string)
    requires StartedBy(a, stream, id) && b.identity == a.identity && b.deadline == a.deadline
    ensures StartedBy(b, stream, id)
  {
    var m :| 0 <= m < |stream| && StartsAttempt(stream[m], id, a);
    assert StartsAttempt(stream[m], id, b);
  }

  lemma RecoverExplained(db: Db, stream: seq<Message>, id: string, before: int, now: int)
    requires Metered(db) && Provenance(db, stream) && Expired(db, id, before)
    ensures Provenance(RecoverOne(db, id, now), stream)
  {
    hide RecoverOne, Metered, MetersRelease, StartedBy, Keeps;
    var next := RecoverOne(db, id, now);
    RecoveryMeans(db, id, before, now);
    RecoverOneKeeps(db, id, before, now);
    RowsStayExplained(db, next, stream);
    SameStart(db.attempts[id], next.attempts[id], stream, id);
  }

  lemma {:induction false} RecoverAllExplained(db: Db, stream: seq<Message>, ids: seq<string>, before: int, now: int)
    requires Metered(db) && Provenance(db, stream) && Visits(db, ids, before)
    ensures Provenance(RecoverAll(db, ids, now), stream)
  {
    hide Metered, Provenance, RecoverOne, Keeps, Expired;
    if ids != [] {
      var init, last := ids[..|ids| - 1], ids[|ids| - 1];
      assert Distinct(init) && last !in init && forall i :: 0 <= i < |init| ==> init[i] == ids[i];
      RecoverAllExplained(db, stream, init, before, now);
      RecoverAllKeeps(db, init, before, now);
      assert Expired(db, last, before);
      RecoverExplained(RecoverAll(db, init, now), stream, last, before, now);
    }
  }

  lemma StepExplained(w: World, e: Event)
    requires Inv(w) && Provenance(w.db, w.stream)
    ensures Provenance(Step(w, e).db, Step(w, e).stream)
  {
    hide Inv, Provenance, Metered, Usable, Start, Close, RecoverAll;
    MeteredNow(w);
    match e {
      case Append(m) => ProvenanceGrows(w.db, w.stream, w.stream + [m]);
      case Recover(before, now, ids) => if Visits(w.db, ids, before) { RecoverAllExplained(w.db, w.stream, ids, before, now); }
      case Advance(c, _) =>
        if c in w.consumers && w.consumers[c].message < |w.stream| {
          var m := w.consumers[c].message;
          UsableWhenHandled(w, c);
          match w.stream[m] {
            case OfStart(_) => StartExplained(w.db, w.stream, m);
            case OfRelease(r) => if w.consumers[c].stage == Handling && Close(w.db, r).Some? { CloseExplained(w.db, w.stream, m); }
            case Unusable =>
          }
        }
      case _ =>
    }
  }

  lemma MeteredNow(w: World)
    requires Inv(w)
    ensures Metered(w.db)
  {}

  lemma UsableWhenHandled(w: World, c: nat)
    requires Inv(w) && c in w.consumers
    ensures w.consumers[c].message < |w.stream|
    ensures w.consumers[c].stage == Handling ==> Usable(w.stream[w.consumers[c].message])
  {
    assert WorkOk(w, w.consumers[c]);
  }

  lemma {:induction false} RunExplained(w: World, events: seq<Event>)
    requires Inv(w) && Provenance(w.db, w.stream)
    ensures Provenance(Run(w, events).db, Run(w, events).stream)
    decreases |events|
  {
    hide Inv, Provenance, Step;
    if events != [] {
      StepKeepsInv(w, events[0]);
      StepExplained(w, events[0]);
      RunExplained(Step(w, events[0]), events[1..]);
    }
  }

  /** Over every run: a row of an attempt that a release closed carries the event, identity and usage of a usable release of
      that attempt in the stream; a row of a recovered attempt carries the attempt's own identity and says that nothing was
      reported; and every attempt carries identity and deadline of a start in the stream. */
  lemma RowsAreExplained(events: seq<Event>, i: nat)
    requires i < |Run(START, events).db.usage|
    ensures var w := Run(START, events);
            var row := w.db.usage[i];
            && row.attempt in w.db.attempts && w.db.attempts[row.attempt].state != Open
            && StartedBy(w.db.attempts[row.attempt], w.stream, row.attempt)
            && (w.db.attempts[row.attempt].state == Terminal ==>
                  exists m :: 0 <= m < |w.stream| && w.stream[m].OfRelease? && Usable(w.stream[m]) && MetersRelease(row, w.stream[m].release))
            && (w.db.attempts[row.attempt].state == Reconciled ==>
                  MetersSilence(row, row.attempt, w.db.attempts[row.attempt].identity))
  {
    hide Run, Step, MetersRelease, MetersSilence, StartedBy;
    ReachableInv([]);
    assert Run(START, []) == START by { NothingRun(); }
    RunExplained(START, events);
    assert RowExplained(Run(START, events).db, Run(START, events).stream, Run(START, events).db.usage[i]);
  }

  lemma NothingRun()
    ensures Run(START, []) == START
  {}

  // ------------------------------------------------------------------ one consumer, uninterrupted

  function Rank(s: Stage): nat {
    match s case Counting => 4 case Handling => 3 case Burying => 3 case Acking => 2 case Clearing => 1
  }

  /** All the calls for a message, one after the other. */
  function Drive(w: World, k: Work, ending: Ending): World
    requires k.message < |w.stream|
    decreases Rank(k.stage)
  {
    var (next, more) := WorkStep(w, k, ending);
    if more.Some? then Drive(next, more.value, ending) else next
  }

  /** An uninterrupted consumer is one of the interleavings: at most four steps of its own. */
  lemma {:induction false} DriveIsARun(w: World, c: nat, ending: Ending) returns (n: nat)
    requires c in w.consumers && w.consumers[c].message < |w.stream|
    ensures n <= Rank(w.consumers[c].stage)
    ensures Run(w, seq(n, _ => Advance(c, ending))) == Drive(w, w.consumers[c], ending).(consumers := Without(w.consumers, c))
    decreases Rank(w.consumers[c].stage)
  {
    hide Handled;
    var v := Step(w, Advance(c, ending));
    var (next, more) := WorkStep(w, w.consumers[c], ending);
    if more.None? {
      n := 1;
      assert seq(1, _ => Advance(c, ending))[1..] == [];
      assert Run(v, []) == v;
    } else {
      var rest := DriveIsARun(v, c, ending);
      n := rest + 1;
      assert seq(n, _ => Advance(c, ending))[1..] == seq(rest, _ => Advance(c, ending));
      DriveIgnoresConsumers(next, v, more.value, ending);
      assert Without(v.consumers, c) == Without(w.consumers, c);
    }
  }

  lemma WorkIgnoresConsumers(w: World, v: World, k: Work, ending: Ending)
    requires k.message < |w.stream| && v == w.(consumers := v.consumers)
    ensures WorkStep(v, k, ending).1 == WorkStep(w, k, ending).1
    ensures WorkStep(v, k, ending).0 == WorkStep(w, k, ending).0.(consumers := v.consumers)
  {
    hide Handled, Usable, Count;
  }

  lemma {:induction false} DriveIgnoresConsumers(w: World, v: World, k: Work, ending: Ending)
    requires k.message < |w.stream| && v == w.(consumers := v.consumers)
    ensures Drive(v, k, ending) == Drive(w, k, ending).(consumers := v.consumers)
    decreases Rank(k.stage)
  {
    WorkIgnoresConsumers(w, v, k, ending);
    StreamStays(w, k, ending);
    var (next, more) := WorkStep(w, k, ending);
    var moved := WorkStep(v, k, ending).0;
    hide WorkStep;
    if more.Some? {
      DriveIgnoresConsumers(next, moved, more.value, ending);
    }
  }

  lemma StreamStays(w: World, k: Work, ending: Ending)
    requires k.message < |w.stream|
    ensures var (next, more) := WorkStep(w, k, ending);
            next.stream == w.stream && (more.Some? ==> more.value.message == k.message && Rank(more.value.stage) < Rank(k.stage))
  {
    hide Handled, Usable, Count;
  }

  /** What is left to do once a message is in the dead-letter stream, or its transaction has committed. */
  lemma DriveEnd(w: World, m: nat, ending: Ending)
    requires m < |w.stream|
    ensures var acked := w.(pending := w.pending - {m}, retries := w.retries - {m});
            && Drive(w, Work(m, Acking), ending) == acked
            && Drive(w, Work(m, Burying), ending) == acked.(dead := w.dead + {m})
  {
    var buried := w.(dead := w.dead + {m});
    assert Drive(w.(pending := w.pending - {m}), Work(m, Clearing), ending) == w.(pending := w.pending - {m}, retries := w.retries - {m});
    assert Drive(buried.(pending := w.pending - {m}), Work(m, Clearing), ending)
        == buried.(pending := w.pending - {m}, retries := w.retries - {m});
    assert Drive(buried, Work(m, Acking), ending) == buried.(pending := w.pending - {m}, retries := w.retries - {m});
  }

  /** A usable release of an open attempt, processed without interruption, is metered with its own row, closes the
      attempt, is applied to the account and leaves the pending list. */
  lemma UndisturbedReleaseIsMetered(w: World, m: nat, r: Release)
    requires Metered(w.db) && m < |w.stream| && w.stream[m] == OfRelease(r) && Usable(w.stream[m])
    requires r.attempt in w.db.attempts && w.db.attempts[r.attempt].state == Open && Count(w.retries, m) < 5
    ensures var v := Drive(w, Work(m, Counting), Committed);
            && |v.db.usage| == |w.db.usage| + 1 && v.db.usage[..|w.db.usage|] == w.db.usage && MetersRelease(v.db.usage[|w.db.usage|], r)
            && v.db.penalties == w.db.penalties + [r.attempt]
            && r.attempt in v.db.attempts && v.db.attempts[r.attempt].state == Terminal
            && v.pending == w.pending - {m} && m !in v.retries && v.dead == w.dead
  {
    ReleaseMeans(w.db, r);
    hide Metered, MetersRelease, Close, Clashes, Drive, WorkStep, Usable, Count;
    var counted := Counted(w, m);
    var closed := counted.(db := Close(w.db, r).value);
    CountsOnce(w, m, Committed);
    DriveOnce(w, Work(m, Counting), Committed);
    HandlesOnce(counted, m, r);
    DriveOnce(counted, Work(m, Handling), Committed);
    DriveEnd(closed, m, Committed);
  }

  /** A message that cannot be used, or that has already been tried five times, is put into the dead-letter stream, acknowledged
      and forgotten, and changes nothing else. */
  lemma UndisturbedBurial(w: World, m: nat, ending: Ending)
    requires m < |w.stream| && (!Usable(w.stream[m]) || Count(w.retries, m) >= 5)
    ensures var v := Drive(w, Work(m, Counting), ending);
            v.db == w.db && v.dead == w.dead + {m} && v.pending == w.pending - {m} && m !in v.retries
  {
    hide Drive, Usable, Count;
    DriveOnce(w, Work(m, Counting), ending);
    DriveEnd(WorkStep(w, Work(m, Counting), ending).0, m, ending);
  }

  /** The release of an attempt not yet recorded is left pending with one more try counted. */
  lemma UndisturbedStrayRelease(w: World, m: nat, r: Release, ending: Ending)
    requires m < |w.stream| && w.stream[m] == OfRelease(r) && Usable(w.stream[m]) && Count(w.retries, m) < 5
    requires r.attempt !in w.db.attempts
    ensures var v := Drive(w, Work(m, Counting), ending);
            && v.db == w.db && v.dead == w.dead && v.pending == w.pending
            && v.retries == w.retries[m := if m in w.retries then w.retries[m] + 1 else 1]
  {
    hide Drive, WorkStep, Usable;
    CountsOnce(w, m, ending);
    DriveOnce(w, Work(m, Counting), ending);
    DriveOnce(Counted(w, m), Work(m, Handling), ending);
    StrayIsLeft(Counted(w, m), m, r, ending);
  }

  lemma StrayIsLeft(w: World, m: nat, r: Release, ending: Ending)
    requires m < |w.stream| && w.stream[m] == OfRelease(r) && r.attempt !in w.db.attempts
    ensures WorkStep(w, Work(m, Handling), ending) == (w, None)
  {}

  function Counted(w: World, m: nat): World {
    w.(retries := w.retries[m := Count(w.retries, m) + 1], tries := w.tries[m := Count(w.tries, m) + 1])
  }

  lemma CountsOnce(w: World, m: nat, ending: Ending)
    requires m < |w.stream| && Usable(w.stream[m]) && Count(w.retries, m) < MAX_RETRIES
    ensures WorkStep(w, Work(m, Counting), ending) == (Counted(w, m), Some(Work(m, Handling)))
  {
    hide Usable, Handled;
  }

  lemma HandlesOnce(w: World, m: nat, r: Release)
    requires m < |w.stream| && w.stream[m] == OfRelease(r) && Close(w.db, r).Some?
    ensures WorkStep(w, Work(m, Handling), Committed) == (w.(db := Close(w.db, r).value), Some(Work(m, Acking)))
  {
    hide Close, Usable, Count;
  }

  lemma DriveOnce(w: World, k: Work, ending: Ending)
    requires k.message < |w.stream|
    ensures var (next, more) := WorkStep(w, k, ending);
            && (more.Some? ==> more.value.message < |next.stream|)
            && Drive(w, k, ending) == if more.Some? then Drive(next, more.value, ending) else next
  {
    StreamStays(w, k, ending);
    hide WorkStep;
  }

  class Consumer {
    const stream: seq<Message>
    const ledger: Ledger
    var delivered: nat
    var pending: set<nat>
    var retries: map<nat, nat>
    ghost var tries: map<nat, nat>
    var dead: set<nat>

    ghost function View(): World
      reads this, ledger
    {
      World(ledger.View(), stream, delivered, pending, retries, tries, dead, map[])
    }

    constructor (stream: seq<Message>, ledger: Ledger)
      ensures this.stream == stream && this.ledger == ledger
      ensures View() == World(ledger.View(), stream, 0, {}, map[], map[], {}, map[])
    {
      this.stream, this.ledger := stream, ledger;
      delivered, pending, retries, tries, dead := 0, {}, map[], map[], {};
    }

    /** Add to the dead-letter stream, acknowledge, forget the counter. */
    method DeadLetter(m: nat)
      requires m < |stream|
      modifies `dead, `pending, `retries
      ensures View() == old(View()).(dead := old(dead) + {m}, pending := old(pending) - {m}, retries := old(retries) - {m})
    {
      dead := dead + {m};
      pending := pending - {m};
      retries := retries - {m};
    }

    method Process(m: nat, ending: Ending)
      requires m < |stream|
      modifies this, ledger
      ensures View() == Drive(old(View()), Work(m, Counting), ending)
    {
      var message := stream[m];
      if !Usable(message) {
        DriveEnd(View(), m, ending);
        DeadLetter(m);
        return;
      }
      var attempt := Count(retries, m) + 1;
      retries := retries[m := attempt];
      tries := tries[m := Count(tries, m) + 1];
      if attempt > MAX_RETRIES {
        DriveEnd(View(), m, ending);
        DeadLetter(m);
        return;
      }
      if ending == RolledBack { return; }
      match message {
        case OfStart(e) => ledger.HandleAttemptStarted(e);
        case OfRelease(r) =>
          var known := ledger.HandleRelease(r);
          if !known { return; }
      }
      if ending == AnswerLost { return; }
      DriveEnd(View(), m, ending);
      pending := pending - {m};
      retries := retries - {m};
    }
  }
}
