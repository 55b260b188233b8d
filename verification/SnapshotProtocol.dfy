/** Versioned publication of one snapshot bucket, its non-atomic load, and the quota read-modify-write
    (internal/snapshot/redis.go, internal/control/quota_refresh.go). */
module SnapshotProtocol {
  import opened Outcomes

  const VERSION_FIELD := "__version"

  datatype Account = Account(id: string, bucket: string, quota: string, body: string)

  /** A hash field of a data key: the version marker or an account envelope. */
  datatype Field = Marker(version: int) | Envelope(bucket: string, epoch: int, account: Account)

  /** The keys of one bucket. A data key that has expired is absent. */
  datatype Keys = Keys(version: nat, epoch: Option<int>, active: Option<int>, data: map<int, map<string, Field>>)

  datatype LoadError = ActiveMissing | EpochMissing | DataExpired | VersionMismatch | EnvelopeMismatch

  datatype Snapshot = Snapshot(version: int, epoch: int, accounts: seq<Account>)

  /** One `Publish`: what it stored under its version and epoch. */
  datatype Generation = Generation(version: int, epoch: int, accounts: map<string, Account>)

  // ------------------------------------------------------------------ publish

  /** HSET of one field per account, later fields overwriting earlier ones. */
  function Fields(bucket: string, version: int, epoch: int, accounts: seq<Account>): map<string, Field> {
    if accounts == [] then map[VERSION_FIELD := Marker(version)]
    else
      var last := accounts[|accounts| - 1];
      Fields(bucket, version, epoch, accounts[..|accounts| - 1])[last.id := Envelope(bucket, epoch, last)]
  }

  /** The account set such a publish stands for. */
  function Written(accounts: seq<Account>): map<string, Account> {
    if accounts == [] then map[]
    else
      var last := accounts[|accounts| - 1];
      Written(accounts[..|accounts| - 1])[last.id := last]
  }

  predicate Fresh(keys: Keys, expected: int) {
    if keys.epoch.Some? then keys.epoch.value == expected else expected == 0
  }

  /** The publish script: one atomic step. A stale epoch is refused and changes nothing. */
  function Publication(keys: Keys, bucket: string, expected: int, accounts: seq<Account>): Option<Keys> {
    if expected < 0 || (exists a :: a in accounts && a.bucket != bucket) || !Fresh(keys, expected) then None
    else
      var version := keys.version + 1;
      Some(Keys(version, Some(expected + 1), Some(version),
                keys.data[version := Fields(bucket, version, expected + 1, accounts)]))
  }

  // ------------------------------------------------------------------ load

  /** The bucket of an envelope stands for its bucket id, platform and group, which the loader compares one by one. It also
      compares the envelope's version unless that is zero; publishers leave it out, so it is zero here. */
  predicate EnvelopeFits(id: string, field: Field, bucket: string, epoch: int) {
    field.Envelope? && field.bucket == bucket && field.epoch == epoch && field.account.id == id
  }

  /** The accounts listed once each, in any order. */
  predicate Lists(accounts: seq<Account>, m: map<string, Account>) {
    && (forall i :: 0 <= i < |accounts| ==> accounts[i].id in m && m[accounts[i].id] == accounts[i])
    && (forall i, j :: 0 <= i < j < |accounts| ==> accounts[i].id != accounts[j].id)
    && (forall id :: id in m ==> exists i :: 0 <= i < |accounts| && accounts[i].id == id)
  }

  function AccountsOf(values: map<string, Field>): map<string, Account> {
    map id | id in values && values[id].Envelope? :: values[id].account
  }

  predicate Coherent(values: map<string, Field>, bucket: string, version: int, epoch: int) {
    && VERSION_FIELD in values && values[VERSION_FIELD] == Marker(version)
    && forall id :: id in values && id != VERSION_FIELD ==> EnvelopeFits(id, values[id], bucket, epoch)
  }

  /** The checks over the fields of a data key once everything has been read. */
  method Assemble(values: map<string, Field>, bucket: string, version: int, epoch: int) returns (r: Result<Snapshot, LoadError>)
    ensures r.Ok? <==> Coherent(values, bucket, version, epoch)
    ensures r.Ok? ==> r.value.version == version && r.value.epoch == epoch && Lists(r.value.accounts, AccountsOf(values))
  {
    if VERSION_FIELD !in values || values[VERSION_FIELD] != Marker(version) { return Err(VersionMismatch); }
    var accounts: seq<Account> := [];
    var todo := values.Keys - {VERSION_FIELD};
    while todo != {}
      invariant todo <= values.Keys - {VERSION_FIELD}
      invariant Gathered(values, bucket, epoch, todo, accounts)
    {
      var id :| id in todo;
      if !EnvelopeFits(id, values[id], bucket, epoch) { return Err(EnvelopeMismatch); }
      OneMoreGathered(values, bucket, epoch, todo, accounts, id);
      accounts := accounts + [values[id].account];
      todo := todo - {id};
    }
    return Ok(Snapshot(version, epoch, accounts));
  }

  /** The entries outside `todo` all fit and are listed once each. */
  ghost predicate Gathered(values: map<string, Field>, bucket: string, epoch: int, todo: set<string>, accounts: seq<Account>) {
    && (forall id :: id in values && id != VERSION_FIELD && id !in todo ==> EnvelopeFits(id, values[id], bucket, epoch))
    && (forall i :: 0 <= i < |accounts| ==>
          var id := accounts[i].id;
          id in values && id !in todo && id != VERSION_FIELD && values[id].Envelope? && values[id].account == accounts[i])
    && (forall i, j :: 0 <= i < j < |accounts| ==> accounts[i].id != accounts[j].id)
    && (forall id :: id in values && id != VERSION_FIELD && id !in todo ==> exists i :: 0 <= i < |accounts| && accounts[i].id == id)
  }

  lemma OneMoreGathered(values: map<string, Field>, bucket: string, epoch: int, todo: set<string>, accounts: seq<Account>, id: string)
    requires Gathered(values, bucket, epoch, todo, accounts) && id in todo && id in values && id != VERSION_FIELD
    requires EnvelopeFits(id, values[id], bucket, epoch)
    ensures Gathered(values, bucket, epoch, todo - {id}, accounts + [values[id].account])
  {
    var more := accounts + [values[id].account];
    forall other | other in values && other != VERSION_FIELD && other !in todo - {id}
      ensures exists i :: 0 <= i < |more| && more[i].id == other
    {
      if other == id {
        assert more[|accounts|].id == other;
      } else {
        var i :| 0 <= i < |accounts| && accounts[i].id == other;
        assert more[i].id == other;
      }
    }
  }

  /** A load in progress: the four reads happen one at a time. */
  datatype Loader =
    | Start
    | HaveActive(version: int)
    | HaveEpoch(version: int, epoch: int)
    | HaveData(version: int, epoch: int, values: map<string, Field>)
    | Loaded(version: int, epoch: int, values: map<string, Field>)
    | Failed(error: LoadError)

  function LoadStep(l: Loader, keys: Keys, bucket: string): Loader {
    match l
    case Start =>
      if keys.active.None? || keys.active.value <= 0 then Failed(ActiveMissing) else HaveActive(keys.active.value)
    case HaveActive(v) =>
      if keys.epoch.None? then Failed(EpochMissing) else HaveEpoch(v, keys.epoch.value)
    case HaveEpoch(v, e) =>
      HaveData(v, e, if v in keys.data then keys.data[v] else map[])
    case HaveData(v, e, values) =>
      if v !in keys.data then Failed(DataExpired)
      else if Coherent(values, bucket, v, e) then Loaded(v, e, values)
      else Failed(if VERSION_FIELD in values && values[VERSION_FIELD] == Marker(v) then EnvelopeMismatch else VersionMismatch)
    case _ => l
  }

  // ------------------------------------------------------------------ every interleaving

  /** Anyone may publish, any data key may expire, and the loader may take its next read. */
  datatype Event = Published(expected: int, accounts: seq<Account>) | Expired(version: int) | Read

  datatype System = System(bucket: string, keys: Keys, log: seq<Generation>, loader: Loader)

  function Initial(bucket: string): System { System(bucket, Keys(0, None, None, map[]), [], Start) }

  function Step(s: System, e: Event): System {
    match e
    case Published(expected, accounts) =>
      (match Publication(s.keys, s.bucket, expected, accounts)
       case None => s
       case Some(next) => s.(keys := next, log := s.log + [Generation(next.version, expected + 1, Written(accounts))]))
    case Expired(v) => s.(keys := s.keys.(data := s.keys.data - {v}))
    case Read => s.(loader := LoadStep(s.loader, s.keys, s.bucket))
  }

  function Run(s: System, events: seq<Event>): System
    decreases |events|
  {
    if events == [] then s else Run(Step(s, events[0]), events[1..])
  }

  // ------------------------------------------------------------------ the invariant

  /** Every field of a live data key comes from the one generation of that version. */
  ghost predicate HoldsGeneration(values: map<string, Field>, g: Generation, bucket: string) {
    && (forall id :: id in values <==> id == VERSION_FIELD || id in g.accounts)
    && (forall id :: id in g.accounts ==> values[id] == Envelope(bucket, g.epoch, g.accounts[id]))
    && (VERSION_FIELD !in g.accounts ==> values[VERSION_FIELD] == Marker(g.version))
    && (forall id :: id in g.accounts ==> g.accounts[id].id == id && g.accounts[id].bucket == bucket)
  }

  /** The keys and the log, without the load in progress. */
  ghost predicate KeysConsistent(s: System) {
    && s.keys.version == |s.log|
    && (s.log == [] ==> s.keys.epoch.None? && s.keys.active.None?)
    && (s.log != [] ==> s.keys.epoch == Some(|s.log|) && s.keys.active == Some(|s.log|))
    && (forall k :: 0 <= k < |s.log| ==> s.log[k].version == s.log[k].epoch == k + 1)
    && (forall v :: v in s.keys.data ==> 1 <= v <= |s.log| && HoldsGeneration(s.keys.data[v], s.log[v - 1], s.bucket))
  }

  ghost predicate Consistent(s: System) { KeysConsistent(s) && LoaderConsistent(s) }

  ghost predicate LoaderConsistent(s: System) {
    match s.loader
    case HaveActive(v) => 1 <= v <= |s.log|
    case HaveEpoch(v, e) => 1 <= v <= e <= |s.log|
    case HaveData(v, e, values) =>
      1 <= v <= e <= |s.log| && (values == map[] || HoldsGeneration(values, s.log[v - 1], s.bucket))
    case Loaded(v, e, values) =>
      1 <= v <= e <= |s.log| && HoldsGeneration(values, s.log[v - 1], s.bucket) && Coherent(values, s.bucket, v, e)
    case _ => true
  }

  lemma {:induction false} FieldsHold(bucket: string, version: int, epoch: int, accounts: seq<Account>)
    requires forall a :: a in accounts ==> a.bucket == bucket
    ensures HoldsGeneration(Fields(bucket, version, epoch, accounts), Generation(version, epoch, Written(accounts)), bucket)
  {
    if accounts != [] {
      var init, last := accounts[..|accounts| - 1], accounts[|accounts| - 1];
      assert forall a :: a in init ==> a in accounts;
      assert last in accounts;
      FieldsHold(bucket, version, epoch, init);
    }
  }

  lemma PublishKeepsKeys(s: System, expected: int, accounts: seq<Account>)
    requires KeysConsistent(s)
    ensures var next := Step(s, Published(expected, accounts));
            KeysConsistent(next) && s.log <= next.log && next.loader == s.loader && next.bucket == s.bucket
  {
    hide HoldsGeneration, Fields, Written, Publication;
    if Publication(s.keys, s.bucket, expected, accounts).Some? {
      PublicationShape(s.keys, s.bucket, expected, accounts);
      FieldsHold(s.bucket, s.keys.version + 1, expected + 1, accounts);
      var next := Step(s, Published(expected, accounts));
      assert expected == |s.log|;
      assert forall k :: 0 <= k < |s.log| ==> next.log[k] == s.log[k];
    }
  }

  lemma PublicationShape(keys: Keys, bucket: string, expected: int, accounts: seq<Account>)
    requires Publication(keys, bucket, expected, accounts).Some?
    ensures Fresh(keys, expected) && forall a :: a in accounts ==> a.bucket == bucket
    ensures Publication(keys, bucket, expected, accounts).value
         == Keys(keys.version + 1, Some(expected + 1), Some(keys.version + 1),
                 keys.data[keys.version + 1 := Fields(bucket, keys.version + 1, expected + 1, accounts)])
  {
    hide Fields;
  }

  lemma LoadKeeps(s: System)
    requires Consistent(s)
    ensures Consistent(Step(s, Read))
  {
    hide HoldsGeneration;
  }

  lemma LoaderUnaffected(s: System, next: System)
    requires LoaderConsistent(s) && s.log <= next.log && next.loader == s.loader && next.bucket == s.bucket
    ensures LoaderConsistent(next)
  {
    hide HoldsGeneration, Coherent;
  }

  lemma StepKeepsConsistent(s: System, e: Event)
    requires Consistent(s)
    ensures Consistent(Step(s, e))
  {
    match e
    case Published(expected, accounts) =>
      PublishKeepsKeys(s, expected, accounts);
      LoaderUnaffected(s, Step(s, e));
    case Expired(_) =>
      hide HoldsGeneration;
      LoaderUnaffected(s, Step(s, e));
    case Read => LoadKeeps(s);
  }

  lemma {:induction false} RunKeepsConsistent(s: System, events: seq<Event>)
    requires Consistent(s)
    ensures Consistent(Run(s, events))
    decreases |events|
  {
    if events != [] {
      StepKeepsConsistent(s, events[0]);
      RunKeepsConsistent(Step(s, events[0]), events[1..]);
    }
  }

  /** The set of a reachable, completed load is exactly what one publish wrote; if it is not empty the epoch is
      that publish's epoch too. */
  lemma LoadIsOneGeneration(bucket: string, events: seq<Event>)
    requires Run(Initial(bucket), events).loader.Loaded?
    ensures var s := Run(Initial(bucket), events);
            exists g :: g in s.log && g.version == s.loader.version && AccountsOf(s.loader.values) == g.accounts
                        && (g.accounts != map[] ==> g.epoch == s.loader.epoch)
  {
    RunKeepsConsistent(Initial(bucket), events);
    var s := Run(Initial(bucket), events);
    LoadedGeneration(s);
    assert s.log[s.loader.version - 1] in s.log;
  }

  lemma LoadedGeneration(s: System)
    requires Consistent(s) && s.loader.Loaded?
    ensures 1 <= s.loader.version <= s.loader.epoch <= |s.log|
    ensures var g := s.log[s.loader.version - 1];
            && AccountsOf(s.loader.values) == g.accounts
            && (g.accounts != map[] ==> g.epoch == s.loader.epoch)
            && forall id :: id in g.accounts ==> g.accounts[id].id == id && g.accounts[id].bucket == s.bucket
  {
    var g, values := s.log[s.loader.version - 1], s.loader.values;
    assert VERSION_FIELD !in g.accounts;
    if g.accounts != map[] {
      var id :| id in g.accounts;
      assert EnvelopeFits(id, values[id], s.bucket, s.loader.epoch);
    }
  }

  /** With nobody in between, and the newest data still alive, four reads load the newest generation with its own epoch,
      unless an account has taken the name of the version field. */
  lemma UndisturbedLoad(s: System)
    requires Consistent(s) && s.loader == Start && s.log != [] && |s.log| in s.keys.data
    ensures var newest := s.log[|s.log| - 1];
            var v := Step(Step(Step(Step(s, Read), Read), Read), Read);
            && (v.loader.Loaded? <==> VERSION_FIELD !in newest.accounts)
            && (v.loader.Loaded? ==> v.loader.version == v.loader.epoch == |s.log| && AccountsOf(v.loader.values) == newest.accounts)
  {
    var n := |s.log|;
    var newest, values := s.log[n - 1], s.keys.data[n];
    assert HoldsGeneration(values, newest, s.bucket) && newest.version == newest.epoch == n;
    assert s.keys.active == s.keys.epoch == Some(n);
    hide Consistent, Coherent, HoldsGeneration, AccountsOf;
    FitsItself(values, newest, s.bucket);
    var s2 := Step(Step(s, Read), Read);
    assert s2.loader == HaveEpoch(n, n) && s2.keys == s.keys;
    var s3 := Step(s2, Read);
    assert s3.loader == HaveData(n, n, values) && s3.keys == s.keys;
  }

  lemma FitsItself(values: map<string, Field>, g: Generation, bucket: string)
    requires HoldsGeneration(values, g, bucket) && g.version == g.epoch
    ensures Coherent(values, bucket, g.version, g.epoch) <==> VERSION_FIELD !in g.accounts
    ensures VERSION_FIELD !in g.accounts ==> AccountsOf(values) == g.accounts
  {}

  /** For an empty generation the epoch may be a later one: nothing inside it carries an epoch to compare. */
  lemma EmptyGenerationMisdated(bucket: string, later: seq<Account>)
    requires forall a :: a in later ==> a.bucket == bucket
    ensures var s := Run(Initial(bucket), [Published(0, []), Read, Published(1, later), Read, Read, Read]);
            s.loader == Loaded(1, 2, map[VERSION_FIELD := Marker(1)])
            && s.log == [Generation(1, 1, map[]), Generation(2, 2, Written(later))]
  {
    var s0 := Initial(bucket);
    var s1 := Step(s0, Published(0, []));
    var s2 := Step(s1, Read);
    var s3 := Step(s2, Published(1, later));
    var s4 := Step(s3, Read);
    var s5 := Step(s4, Read);
    var s6 := Step(s5, Read);
    assert s1.keys == Keys(1, Some(1), Some(1), map[1 := map[VERSION_FIELD := Marker(1)]]);
    assert s2.loader == HaveActive(1) && s2.keys == s1.keys;
    assert s3.keys.epoch == Some(2) && s3.keys.data[1] == map[VERSION_FIELD := Marker(1)];
    assert s3.log == [Generation(1, 1, map[]), Generation(2, 2, Written(later))];
    assert s5.loader == HaveData(1, 2, map[VERSION_FIELD := Marker(1)]);
    RunSix(s0, [Published(0, []), Read, Published(1, later), Read, Read, Read]);
  }

  lemma RunSix(s: System, e: seq<Event>)
    requires |e| == 6
    ensures Run(s, e) == Step(Step(Step(Step(Step(Step(s, e[0]), e[1]), e[2]), e[3]), e[4]), e[5])
  {
    RunThree(s, e);
    RunThree(Step(Step(Step(s, e[0]), e[1]), e[2]), e[3..]);
    assert e[3..][3..] == [];
  }

  lemma RunThree(s: System, e: seq<Event>)
    requires |e| >= 3
    ensures Run(s, e) == Run(Step(Step(Step(s, e[0]), e[1]), e[2]), e[3..])
  {
    assert e[1..][1..] == e[2..] && e[2..][1..] == e[3..];
    var one := Step(s, e[0]);
    assert Run(one, e[1..]) == Run(Step(one, e[1]), e[2..]);
  }

  // ------------------------------------------------------------------ exactly when a load carries its own epoch

  /** However the load that has read version `v` as active goes on, it does not return another epoch. */
  ghost predicate OwnEpochOnly(s: System, epoch: int) {
    forall events :: Run(s, events).loader.Loaded? ==> Run(s, events).loader.epoch == epoch
  }

  /** The load under way is of version `v`. */
  predicate Reads(l: Loader, v: int) { !l.Start? && (!l.Failed? ==> l.version == v) }

  lemma {:induction false} LogOnlyGrows(s: System, events: seq<Event>)
    ensures s.log <= Run(s, events).log
    decreases |events|
  {
    if events != [] {
      hide Publication, LoadStep, Fields;
      assert s.log <= Step(s, events[0]).log;
      LogOnlyGrows(Step(s, events[0]), events[1..]);
    }
  }

  lemma {:induction false} VersionStays(s: System, events: seq<Event>, v: int)
    requires Reads(s.loader, v)
    ensures Reads(Run(s, events).loader, v)
    decreases |events|
  {
    if events != [] {
      hide Publication, Coherent;
      VersionStays(Step(s, events[0]), events[1..], v);
    }
  }

  /** A data key that has gone never comes back, so a load of it never ends well. */
  lemma {:induction false} GoneForGood(s: System, events: seq<Event>, v: int)
    requires v <= s.keys.version && v !in s.keys.data && Reads(s.loader, v) && !s.loader.Loaded?
    ensures !Run(s, events).loader.Loaded?
    decreases |events|
  {
    if events != [] {
      hide Coherent, Fields;
      GoneForGood(Step(s, events[0]), events[1..], v);
    }
  }

  /** A load that has read its version comes back with that generation's own epoch, whatever happens meanwhile, exactly
      if the generation lists an account or its data has already gone. */
  lemma OwnEpochExactly(s: System)
    requires Consistent(s) && s.loader.HaveActive?
    ensures var g := s.log[s.loader.version - 1];
            OwnEpochOnly(s, g.epoch) <==> g.accounts != map[] || s.loader.version !in s.keys.data
  {
    hide Run;
    var v := s.loader.version;
    var g := s.log[v - 1];
    if v !in s.keys.data {
      forall events ensures !Run(s, events).loader.Loaded? { GoneForGood(s, events, v); }
    } else if g.accounts != map[] {
      forall events | Run(s, events).loader.Loaded? ensures Run(s, events).loader.epoch == g.epoch {
        AccountsKeepTheEpoch(s, events);
      }
    } else {
      EmptyMisdatedFrom(s);
    }
  }

  lemma AccountsKeepTheEpoch(s: System, events: seq<Event>)
    requires Consistent(s) && s.loader.HaveActive? && s.log[s.loader.version - 1].accounts != map[]
    requires Run(s, events).loader.Loaded?
    ensures Run(s, events).loader.epoch == s.log[s.loader.version - 1].epoch
  {
    hide Run, HoldsGeneration, Coherent;
    LogOnlyGrows(s, events);
    VersionStays(s, events, s.loader.version);
    RunKeepsConsistent(s, events);
    LoadedGeneration(Run(s, events));
  }

  /** An empty generation read just before another publish. */
  lemma EmptyMisdatedFrom(s: System)
    requires Consistent(s) && s.loader.HaveActive?
    requires s.loader.version in s.keys.data && s.log[s.loader.version - 1].accounts == map[]
    ensures var later := Run(s, [Published(|s.log|, []), Read, Read, Read]);
            later.loader.Loaded? && later.loader.epoch > s.log[s.loader.version - 1].epoch
  {
    hide Run, Step;
    var events := [Published(|s.log|, []), Read, Read, Read];
    assert events[3..] == [Read];
    RunThree(s, events);
    RunOne(Step(Step(Step(s, events[0]), Read), Read), Read);
    EmptyStays(s);
    ReadsThree(Step(s, events[0]), s.keys.data[s.loader.version]);
  }

  lemma RunOne(s: System, e: Event)
    ensures Run(s, [e]) == Step(s, e)
  {
    hide Step;
    assert [e][1..] == [];
  }

  /** Publishing nothing moves the epoch and leaves the empty generation, which fits any epoch. */
  lemma EmptyStays(s: System)
    requires Consistent(s) && s.loader.HaveActive?
    requires s.loader.version in s.keys.data && s.log[s.loader.version - 1].accounts == map[]
    ensures var v, s1 := s.loader.version, Step(s, Published(|s.log|, []));
            && s1.loader == s.loader && s1.bucket == s.bucket && s1.keys.epoch == Some(|s.log| + 1)
            && v in s1.keys.data && s1.keys.data[v] == s.keys.data[v]
            && Coherent(s.keys.data[v], s.bucket, v, |s.log| + 1) && s.log[v - 1].epoch <= |s.log|
  {
    var v := s.loader.version;
    assert HoldsGeneration(s.keys.data[v], s.log[v - 1], s.bucket);
    hide Fields;
  }

  lemma ReadsThree(s: System, values: map<string, Field>)
    requires s.loader.HaveActive? && s.keys.epoch.Some? && s.loader.version in s.keys.data && s.keys.data[s.loader.version] == values
    requires Coherent(values, s.bucket, s.loader.version, s.keys.epoch.value)
    ensures var later := Step(Step(Step(s, Read), Read), Read);
            later.loader == Loaded(s.loader.version, s.keys.epoch.value, values)
  {
    hide Coherent;
  }

  // ------------------------------------------------------------------ the quota publisher

  /** The loaded list with the first matching account's quota replaced, as the publisher edits it in place. */
  method EditQuota(accounts: seq<Account>, id: string, quota: string) returns (edited: Option<seq<Account>>, same: bool)
    ensures edited.None? && !same <==> forall i :: 0 <= i < |accounts| ==> accounts[i].id != id
    ensures same ==> edited.None? && exists i :: 0 <= i < |accounts| && accounts[i].id == id && accounts[i].quota == quota
    ensures edited.Some? ==> Edits(accounts, edited.value, id, quota)
  {
    same := false;
    for i := 0 to |accounts|
      invariant !same && forall j :: 0 <= j < i ==> accounts[j].id != id
    {
      if accounts[i].id != id { continue; }
      if accounts[i].quota == quota { return None, true; }
      var changed := accounts[i := accounts[i].(quota := quota)];
      assert Edits(accounts, changed, id, quota);
      return Some(changed), false;
    }
    return None, false;
  }

  ghost predicate Edits(before: seq<Account>, after: seq<Account>, id: string, quota: string) {
    exists i :: 0 <= i < |before| && before[i].id == id && after == before[i := before[i].(quota := quota)]
  }

  lemma {:induction false} WrittenListing(accounts: seq<Account>, m: map<string, Account>)
    requires Lists(accounts, m)
    ensures Written(accounts) == m
  {
    WrittenMembers(accounts);
  }

  lemma {:induction false} WrittenMembers(accounts: seq<Account>)
    requires forall i, j :: 0 <= i < j < |accounts| ==> accounts[i].id != accounts[j].id
    ensures forall i :: 0 <= i < |accounts| ==> accounts[i].id in Written(accounts) && Written(accounts)[accounts[i].id] == accounts[i]
    ensures forall id :: id in Written(accounts) ==> exists i :: 0 <= i < |accounts| && accounts[i].id == id
  {
    if accounts != [] {
      var init, last := accounts[..|accounts| - 1], accounts[|accounts| - 1];
      assert forall i :: 0 <= i < |init| ==> init[i] == accounts[i];
      WrittenMembers(init);
      forall id | id in Written(accounts) ensures exists i :: 0 <= i < |accounts| && accounts[i].id == id {
        if id == last.id {
          assert accounts[|accounts| - 1].id == id;
        } else {
          assert id in Written(init);
          var i :| 0 <= i < |init| && init[i].id == id;
          assert accounts[i].id == id;
        }
      }
    }
  }

  lemma EditedListing(before: seq<Account>, after: seq<Account>, m: map<string, Account>, id: string, quota: string)
    requires Lists(before, m) && Edits(before, after, id, quota)
    ensures id in m && Lists(after, m[id := m[id].(quota := quota)])
  {
    var i :| 0 <= i < |before| && before[i].id == id && after == before[i := before[i].(quota := quota)];
    var n := m[id := m[id].(quota := quota)];
    assert m[before[i].id] == before[i];
    forall other | other in n ensures exists j :: 0 <= j < |after| && after[j].id == other {
      assert other in m;
      var j :| 0 <= j < |before| && before[j].id == other;
      assert after[j].id == other;
    }
    forall j, k | 0 <= j < k < |after| ensures after[j].id != after[k].id {
      assert before[j].id != before[k].id;
    }
    forall j | 0 <= j < |after| ensures after[j].id in n && n[after[j].id] == after[j] {
      assert before[j].id in m && m[before[j].id] == before[j];
      if j < i {
        assert before[j].id != before[i].id;
      } else if j > i {
        assert before[i].id != before[j].id;
      }
    }
  }

  /** A publish at the loaded epoch succeeds only while the loaded, non-empty generation is still the newest. */
  lemma LoadedIsNewest(s: System, edited: seq<Account>)
    requires Consistent(s) && s.loader.Loaded? && AccountsOf(s.loader.values) != map[]
    requires Publication(s.keys, s.bucket, s.loader.epoch, edited).Some?
    ensures s.log != [] && s.loader.version == |s.log| && AccountsOf(s.loader.values) == s.log[|s.log| - 1].accounts
  {
    hide HoldsGeneration;
    LoadedGeneration(s);
  }

  /** No lost update: whatever happened between its reads and its write, a generation the quota publisher
      manages to publish is its immediate predecessor with exactly that one quota replaced. */
  lemma QuotaPublishLosesNothing(bucket: string, events: seq<Event>, listed: seq<Account>, edited: seq<Account>, id: string, quota: string)
    requires var s := Run(Initial(bucket), events);
             s.loader.Loaded? && Lists(listed, AccountsOf(s.loader.values)) && Edits(listed, edited, id, quota)
             && Publication(s.keys, bucket, s.loader.epoch, edited).Some?
    ensures var s := Run(Initial(bucket), events);
            var after := Step(s, Published(s.loader.epoch, edited)).log;
            && s.log != [] && |after| == |s.log| + 1 && after[..|s.log|] == s.log
            && var previous := s.log[|s.log| - 1].accounts;
               id in previous && after[|s.log|].accounts == previous[id := previous[id].(quota := quota)]
  {
    hide Consistent, Lists, Edits;
    InitialConsistent(bucket);
    RunKeepsConsistent(Initial(bucket), events);
    BucketStays(Initial(bucket), events);
    hide Run;
    PublishFromLoad(Run(Initial(bucket), events), listed, edited, id, quota);
  }

  lemma InitialConsistent(bucket: string)
    ensures Consistent(Initial(bucket))
  {}

  lemma PublishFromLoad(s: System, listed: seq<Account>, edited: seq<Account>, id: string, quota: string)
    requires Consistent(s) && s.loader.Loaded? && Lists(listed, AccountsOf(s.loader.values)) && Edits(listed, edited, id, quota)
    requires Publication(s.keys, s.bucket, s.loader.epoch, edited).Some?
    ensures var after := Step(s, Published(s.loader.epoch, edited)).log;
            && s.log != [] && |after| == |s.log| + 1 && after[..|s.log|] == s.log
            && var previous := s.log[|s.log| - 1].accounts;
               id in previous && after[|s.log|].accounts == previous[id := previous[id].(quota := quota)]
  {
    hide Consistent, Lists, Edits, Written;
    var all := AccountsOf(s.loader.values);
    EditedListing(listed, edited, all, id, quota);
    WrittenListing(edited, all[id := all[id].(quota := quota)]);
    LoadedIsNewest(s, edited);
  }

  lemma {:induction false} BucketStays(s: System, events: seq<Event>)
    ensures Run(s, events).bucket == s.bucket
    decreases |events|
  {
    if events != [] { BucketStays(Step(s, events[0]), events[1..]); }
  }

  // ------------------------------------------------------------------ what a publish takes and writes

  predicate Names(accounts: seq<Account>, id: string) { exists i :: 0 <= i < |accounts| && accounts[i].id == id }

  /** A publish goes through exactly if its accounts are all of the bucket and it names the epoch there is, or none if there is
      none. */
  lemma PublicationTaken(keys: Keys, bucket: string, expected: int, accounts: seq<Account>)
    ensures Publication(keys, bucket, expected, accounts).Some? <==>
              && expected >= 0 && (forall i :: 0 <= i < |accounts| ==> accounts[i].bucket == bucket)
              && expected == (if keys.epoch.Some? then keys.epoch.value else 0)
  {
    hide Fields;
    assert forall i :: 0 <= i < |accounts| ==> accounts[i] in accounts;
  }

  /** It writes one data key under the next version, which becomes the active one, at the next epoch, and no other key; the data
      key holds, for each id, the envelope of the account listed last under it, and the version unless an account has its name. */
  lemma PublicationWrites(keys: Keys, bucket: string, expected: int, accounts: seq<Account>, id: string)
    requires Publication(keys, bucket, expected, accounts).Some?
    ensures var next := Publication(keys, bucket, expected, accounts).value;
            && next.version == keys.version + 1 && next.active == Some(keys.version + 1) && next.epoch == Some(expected + 1)
            && next.data == keys.data[keys.version + 1 := next.data[keys.version + 1]]
            && var fields := next.data[keys.version + 1];
            && (id in fields <==> id == "__version" || Names(accounts, id))
            && (Names(accounts, id) ==>
                  fields[id].Envelope? && fields[id].bucket == bucket && fields[id].epoch == expected + 1
                  && fields[id].account.id == id && ListedLast(accounts, fields[id].account))
            && (id == "__version" && !Names(accounts, id) ==> fields[id] == Marker(keys.version + 1))
  {
    hide Fields, Written, Names, ListedLast;
    FieldsMean(bucket, keys.version + 1, expected + 1, accounts, id);
  }

  /** The account of this id that the list holds last. */
  ghost predicate ListedLast(accounts: seq<Account>, a: Account) {
    exists k :: 0 <= k < |accounts| && accounts[k] == a && forall j :: k < j < |accounts| ==> accounts[j].id != a.id
  }

  lemma {:induction false} FieldsMean(bucket: string, version: int, epoch: int, accounts: seq<Account>, id: string)
    ensures var fields, written := Fields(bucket, version, epoch, accounts), Written(accounts);
            && (id in written <==> Names(accounts, id))
            && (id in written ==> written[id].id == id && ListedLast(accounts, written[id]))
            && (id in fields <==> id == "__version" || id in written)
            && (id in written ==> fields[id] == Envelope(bucket, epoch, written[id]))
            && (id == "__version" && id !in written ==> fields[id] == Marker(version))
  {
    hide ListedLast, Names;
    if accounts == [] {
      NoNames(id);
    } else {
      var init, last := accounts[..|accounts| - 1], accounts[|accounts| - 1];
      assert accounts == init + [last];
      FieldsMean(bucket, version, epoch, init, id);
      LastIsLast(init, last);
      if id != last.id && id in Written(init) { StaysLast(init, last, Written(init)[id]); }
      NamesPush(init, last, id);
    }
  }

  lemma NoNames(id: string)
    ensures !Names([], id)
  {}

  lemma NamesPush(init: seq<Account>, last: Account, id: string)
    ensures Names(init + [last], id) <==> id == last.id || Names(init, id)
  {
    var all := init + [last];
    assert all[|init|] == last && forall i :: 0 <= i < |init| ==> all[i] == init[i];
    if Names(init, id) {
      var i :| 0 <= i < |init| && init[i].id == id;
      assert all[i].id == id;
    }
  }

  lemma LastIsLast(init: seq<Account>, last: Account)
    ensures ListedLast(init + [last], last)
  {
    assert (init + [last])[|init|] == last;
  }

  lemma StaysLast(init: seq<Account>, last: Account, a: Account)
    requires ListedLast(init, a) && last.id != a.id
    ensures ListedLast(init + [last], a)
  {
    var all := init + [last];
    var k :| 0 <= k < |init| && init[k] == a && forall j :: k < j < |init| ==> init[j].id != a.id;
    assert all[k] == a;
    forall j | k < j < |all| ensures all[j].id != a.id {
      if j < |init| { assert all[j] == init[j]; }
    }
  }

  /** How a read can fail: no active version or no positive one, no epoch, data that has expired by the last read, or fields that
      do not fit the version and epoch read before. */
  lemma LoadFailures(l: Loader, keys: Keys, bucket: string)
    ensures l == Start ==>
              LoadStep(l, keys, bucket) == if keys.active.Some? && keys.active.value > 0 then HaveActive(keys.active.value) else Failed(ActiveMissing)
    ensures l.HaveActive? ==>
              LoadStep(l, keys, bucket) == if keys.epoch.Some? then HaveEpoch(l.version, keys.epoch.value) else Failed(EpochMissing)
    ensures l.HaveData? && l.version !in keys.data ==> LoadStep(l, keys, bucket) == Failed(DataExpired)
    ensures l.HaveData? && l.version in keys.data ==>
              var marked := "__version" in l.values && l.values["__version"] == Marker(l.version);
              var fit := forall id :: id in l.values && id != "__version" ==>
                           l.values[id].Envelope? && l.values[id].bucket == bucket && l.values[id].epoch == l.epoch && l.values[id].account.id == id;
              LoadStep(l, keys, bucket) == if !marked then Failed(VersionMismatch) else if !fit then Failed(EnvelopeMismatch)
                                           else Loaded(l.version, l.epoch, l.values)
    ensures l.Loaded? || l.Failed? ==> LoadStep(l, keys, bucket) == l
  {}

  // ------------------------------------------------------------------ the script as it mutates the keys

  class Bucket {
    const name: string
    var version: nat
    var epoch: Option<int>
    var active: Option<int>
    var data: map<int, map<string, Field>>

    function View(): Keys
      reads this
    {
      Keys(version, epoch, active, data)
    }

    constructor (name: string)
      ensures this.name == name && View() == Initial(name).keys
    {
      this.name := name;
      version, epoch, active, data := 0, None, None, map[];
    }

    method Publish(expected: int, accounts: seq<Account>) returns (published: Option<int>)
      modifies this
      ensures match Publication(old(View()), name, expected, accounts)
              case None => published == None && View() == old(View())
              case Some(next) => published == Some(next.version) && View() == next
    {
      if expected < 0 { return None; }
      for i := 0 to |accounts|
        invariant forall j :: 0 <= j < i ==> accounts[j].bucket == name
      {
        if accounts[i].bucket != name { return None; }
      }
      if (epoch.Some? && epoch.value != expected) || (epoch.None? && expected != 0) { return None; }
      version := version + 1;
      data := data[version := map[VERSION_FIELD := Marker(version)]];
      for i := 0 to |accounts|
        invariant version == old(version) + 1 && epoch == old(epoch) && active == old(active)
        invariant data == old(data)[version := Fields(name, version, expected + 1, accounts[..i])]
      {
        assert accounts[..i + 1][..i] == accounts[..i];
        data := data[version := data[version][accounts[i].id := Envelope(name, expected + 1, accounts[i])]];
      }
      assert accounts[..|accounts|] == accounts;
      active := Some(version);
      epoch := Some(expected + 1);
      return Some(version);
    }
  }
}
