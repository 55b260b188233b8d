/** The gateway's account chooser (internal/gateway/chooser.go): which bucket owns which account, what a bucket
    replacement may touch, and which account a request gets. */
module Chooser {
  import opened Outcomes
  import opened Strings

  /** A remaining amount: not given, not a number, or its sign. */
  datatype Amount = NotGiven | Unreadable | Sign(sign: int)

  datatype QuotaItem = QuotaItem(scope: string, model: string, exact: Amount, fraction: Amount, precise: Amount, remaining: Option<int>)

  datatype Account = Account(
    id: string, provider: string, platform: string, group: string, status: string, credentialKind: string,
    expiresAt: Option<int>, version: int, proxy: string, quota: seq<QuotaItem>, capabilities: seq<string>, excludedModels: seq<string>)

  /** No `validUntil` means no freshness bound. */
  datatype Bucket = Bucket(epoch: int, validUntil: Option<int>, ids: set<string>)

  /** Cooldowns and failure counts are per account and model. Times are in nanoseconds. */
  type CoolKey = (string, string)

  datatype Cooldown = Cooldown(until: int, version: int)

  datatype Tables = Tables(
    accounts: map<string, Account>, buckets: map<string, Bucket>, owner: map<string, string>,
    cooling: map<CoolKey, Cooldown>, failures: map<CoolKey, int>, epoch: int)

  const EMPTY := Tables(map[], map[], map[], map[], map[], 0)

  function BucketKey(platform: string, group: string): string { platform + "\0" + group }

  // ------------------------------------------------------------------ replacing and removing buckets

  /** Drop the cooldowns in `gone`, and the failure counts beside them. */
  function Forget(t: Tables, gone: set<CoolKey>): Tables {
    t.(cooling := t.cooling - gone, failures := t.failures - (gone * t.cooling.Keys))
  }

  function CoolingOf(t: Tables, ids: set<string>): set<CoolKey> { set k | k in t.cooling && k.0 in ids }

  function Outdated(t: Tables, a: Account): set<CoolKey> {
    set k | k in t.cooling && k.0 == a.id && t.cooling[k].version != a.version
  }

  function Drop(t: Tables, ids: set<string>): Tables { t.(accounts := t.accounts - ids, owner := t.owner - ids) }

  /** An account that belongs to this bucket and to no other is installed; the rest are skipped. */
  predicate Mine(t: Tables, a: Account, platform: string, group: string, key: string) {
    a.platform == platform && a.group == group && (a.id in t.owner ==> t.owner[a.id] == key)
  }

  function InstallOne(t: Tables, a: Account, platform: string, group: string, key: string): Tables {
    if !Mine(t, a, platform, group, key) then t
    else Forget(t.(accounts := t.accounts[a.id := a], owner := t.owner[a.id := key]), Outdated(t, a))
  }

  function Install(t: Tables, list: seq<Account>, platform: string, group: string, key: string): Tables {
    if list == [] then t
    else InstallOne(Install(t, list[..|list| - 1], platform, group, key), list[|list| - 1], platform, group, key)
  }

  /** The ids of the list that end up in the bucket. */
  function Installed(t: Tables, list: seq<Account>, platform: string, group: string, key: string): set<string> {
    set a | a in list && Mine(t, a, platform, group, key) :: a.id
  }

  function OldIds(t: Tables, key: string): set<string> { if key in t.buckets then t.buckets[key].ids else {} }

  /** A changed epoch makes the bucket forget its cooldowns. */
  predicate EpochChanged(t: Tables, key: string, epoch: int) {
    key in t.buckets && epoch > 0 && t.buckets[key].epoch > 0 && epoch != t.buckets[key].epoch
  }

  function Cleared(t: Tables, key: string, epoch: int): Tables {
    Drop(if EpochChanged(t, key, epoch) then Forget(t, CoolingOf(t, OldIds(t, key))) else t, OldIds(t, key))
  }

  function Replaced(t: Tables, platform: string, group: string, list: seq<Account>, epoch: int, validUntil: Option<int>): Tables {
    var key := BucketKey(platform, group);
    var clear := Cleared(t, key, epoch);
    var full := Install(clear, list, platform, group, key);
    full.(buckets := full.buckets[key := Bucket(epoch, validUntil, Installed(clear, list, platform, group, key))])
  }

  function Removed(t: Tables, platform: string, group: string): Tables {
    var key := BucketKey(platform, group);
    var gone := Drop(t, OldIds(t, key));
    gone.(buckets := gone.buckets - {key})
  }

  function Listed(list: seq<Account>): map<string, Account> {
    if list == [] then map[] else Listed(list[..|list| - 1])[list[|list| - 1].id := list[|list| - 1]]
  }

  function ForgetOutdated(t: Tables, list: seq<Account>): Tables {
    if list == [] then t
    else var before := ForgetOutdated(t, list[..|list| - 1]); Forget(before, Outdated(before, list[|list| - 1]))
  }

  /** A whole snapshot without buckets: nothing is owned any more. */
  function ReplacedAll(t: Tables, list: seq<Account>, epoch: int): Tables {
    var start := if epoch > 0 && t.epoch > 0 && epoch != t.epoch then t.(cooling := map[], failures := map[]) else t;
    var kept := ForgetOutdated(start, list);
    Tables(Listed(list), map[], map[], kept.cooling, kept.failures, if epoch > 0 then epoch else t.epoch)
  }

  // ------------------------------------------------------------------ ownership

  /** `owner` and the id sets of the buckets are inverse to each other, and whatever is owned is an account. */
  ghost predicate Consistent(t: Tables) {
    && (forall id :: id in t.owner ==> t.owner[id] in t.buckets && id in t.buckets[t.owner[id]].ids)
    && (forall key, id :: key in t.buckets && id in t.buckets[key].ids ==> id in t.owner && t.owner[id] == key)
    && (forall id :: id in t.owner ==> id in t.accounts)
    && (forall id :: id in t.accounts ==> t.accounts[id].id == id)
  }

  /** What an installation into a bucket may touch: accounts nobody else owns. */
  ghost predicate OnlyTouches(t: Tables, u: Tables, ids: set<string>) { SameElsewhere(t, u, ids) && SameCooling(t, u, ids) }

  ghost predicate SameElsewhere(t: Tables, u: Tables, ids: set<string>) {
    && (forall id :: id !in ids ==> (id in u.accounts <==> id in t.accounts) && (id in u.owner <==> id in t.owner))
    && (forall id :: id !in ids && id in t.accounts ==> u.accounts[id] == t.accounts[id])
    && (forall id :: id !in ids && id in t.owner ==> u.owner[id] == t.owner[id])
  }

  ghost predicate SameCooling(t: Tables, u: Tables, ids: set<string>) {
    && (forall k: CoolKey :: k.0 !in ids ==> (k in u.cooling <==> k in t.cooling) && (k in u.failures <==> k in t.failures))
    && (forall k: CoolKey :: k.0 !in ids && k in t.cooling ==> u.cooling[k] == t.cooling[k])
    && (forall k: CoolKey :: k.0 !in ids && k in t.failures ==> u.failures[k] == t.failures[k])
  }

  lemma TouchMore(t: Tables, u: Tables, ids: set<string>, more: set<string>)
    requires OnlyTouches(t, u, ids) && ids <= more
    ensures OnlyTouches(t, u, more)
  {}

  lemma TouchBoth(t: Tables, u: Tables, v: Tables, ids: set<string>)
    requires OnlyTouches(t, u, ids) && OnlyTouches(u, v, ids)
    ensures OnlyTouches(t, v, ids)
  {}

  lemma InstallOneShape(t: Tables, a: Account, platform: string, group: string, key: string)
    requires Mine(t, a, platform, group, key)
    ensures var u := InstallOne(t, a, platform, group, key);
            && u.accounts == t.accounts[a.id := a] && u.owner == t.owner[a.id := key] && u.buckets == t.buckets
            && OnlyTouches(t, u, {a.id})
  {}

  /** The state after installing accounts: nothing but these ids touched, all of them owned, nobody's eligibility changed. */
  ghost predicate InstalledAs(t: Tables, u: Tables, ids: set<string>, list: seq<Account>, platform: string, group: string, key: string) {
    && OnlyTouches(t, u, ids) && u.buckets == t.buckets
    && (forall id :: id in ids ==> id in u.accounts && u.accounts[id].id == id && u.accounts[id] in list && id in u.owner && u.owner[id] == key)
    && (forall a :: Mine(u, a, platform, group, key) <==> Mine(t, a, platform, group, key))
  }

  /** Installing a list: owners only come to the ids installed, and nothing else is touched. */
  lemma {:induction false} InstallShape(t: Tables, list: seq<Account>, platform: string, group: string, key: string)
    ensures InstalledAs(t, Install(t, list, platform, group, key), Installed(t, list, platform, group, key), list, platform, group, key)
  {
    if list != [] {
      hide InstalledAs, Installed, InstallOne;
      var init, last := list[..|list| - 1], list[|list| - 1];
      assert list == init + [last];
      InstallShape(t, init, platform, group, key);
      InstalledPush(t, init, last, platform, group, key);
      InstallStep(t, Install(t, init, platform, group, key), Installed(t, init, platform, group, key), init, last, platform, group, key);
    } else {
      NothingInstalled(t, platform, group, key);
    }
  }

  lemma NothingInstalled(t: Tables, platform: string, group: string, key: string)
    ensures Installed(t, [], platform, group, key) == {} && InstalledAs(t, t, {}, [], platform, group, key)
  {}

  lemma InstallStep(t: Tables, mid: Tables, ids: set<string>, init: seq<Account>, last: Account, platform: string, group: string, key: string)
    requires InstalledAs(t, mid, ids, init, platform, group, key)
    ensures InstalledAs(t, InstallOne(mid, last, platform, group, key),
                        ids + (if Mine(t, last, platform, group, key) then {last.id} else {}), init + [last], platform, group, key)
  {
    hide SameElsewhere, SameCooling, InstallOne;
    assert forall a :: a in init ==> a in init + [last];
    assert last in init + [last];
    if Mine(t, last, platform, group, key) {
      assert Mine(mid, last, platform, group, key);
      InstallOneShape(mid, last, platform, group, key);
      var u, more := InstallOne(mid, last, platform, group, key), ids + {last.id};
      TouchMore(t, mid, ids, more);
      TouchMore(mid, u, {last.id}, more);
      TouchBoth(t, mid, u, more);
    } else {
      NotInstalled(mid, last, platform, group, key);
      assert ids + {} == ids;
    }
  }

  lemma NotInstalled(t: Tables, a: Account, platform: string, group: string, key: string)
    requires !Mine(t, a, platform, group, key)
    ensures InstallOne(t, a, platform, group, key) == t
  {}

  lemma InstalledPush(t: Tables, init: seq<Account>, last: Account, platform: string, group: string, key: string)
    ensures Installed(t, init + [last], platform, group, key)
         == Installed(t, init, platform, group, key) + if Mine(t, last, platform, group, key) then {last.id} else {}
  {
    var list := init + [last];
    assert last in list && forall a :: a in list <==> a in init || a == last;
    forall id | id in Installed(t, list, platform, group, key)
      ensures id in Installed(t, init, platform, group, key) || (Mine(t, last, platform, group, key) && id == last.id)
    {
      var a :| a in list && Mine(t, a, platform, group, key) && a.id == id;
    }
    forall id | id in Installed(t, init, platform, group, key) ensures id in Installed(t, list, platform, group, key) {
      var a :| a in init && Mine(t, a, platform, group, key) && a.id == id;
      assert a in list;
    }
  }

  lemma ClearedShape(t: Tables, key: string, epoch: int)
    requires Consistent(t)
    ensures var u := Cleared(t, key, epoch);
            && OnlyTouches(t, u, OldIds(t, key)) && u.buckets == t.buckets
            && (forall id :: id in u.owner ==> id in t.owner && u.owner[id] == t.owner[id] != key && id in u.accounts)
            && (forall id :: id in u.accounts ==> id in t.accounts && u.accounts[id] == t.accounts[id])
  {}

  /** The list holds an account of this id that the bucket may install. */
  predicate Offered(t: Tables, list: seq<Account>, platform: string, group: string, key: string, id: string) {
    exists a :: a in list && a.id == id && Mine(t, a, platform, group, key)
  }

  /** Replacing one bucket: its new ids are exactly the listed accounts of its platform and group that no other bucket
      owns; no other bucket changes, and neither do the accounts and cooldowns of anything it does not own. */
  lemma ReplaceTouchesOnlyItsOwn(t: Tables, platform: string, group: string, list: seq<Account>, epoch: int, validUntil: Option<int>)
    requires Consistent(t)
    ensures var key := BucketKey(platform, group);
            var u := Replaced(t, platform, group, list, epoch, validUntil);
            && Consistent(u)
            && key in u.buckets
            && OnlyTouches(t, u, OldIds(t, key) + u.buckets[key].ids)
            && (forall id :: id in OldIds(t, key) + u.buckets[key].ids && id in t.owner ==> t.owner[id] == key)
            && (forall other :: other != key ==> (other in u.buckets <==> other in t.buckets))
            && (forall other :: other != key && other in t.buckets ==> u.buckets[other] == t.buckets[other])
            && (forall id :: id in u.buckets[key].ids <==> Offered(t, list, platform, group, key, id))
  {
    hide Cleared, Install, Installed, BucketKey, OnlyTouches, Consistent, OldIds, Offered, Refilled;
    var key := BucketKey(platform, group);
    var clear := Cleared(t, key, epoch);
    var full := Install(clear, list, platform, group, key);
    var ids := Installed(clear, list, platform, group, key);
    var bucket := Bucket(epoch, validUntil, ids);
    ReplacedIsRefilled(t, key, platform, group, list, epoch);
    RefilledBuckets(t, clear, full, key, ids);
    BecomesConsistent(t, clear, full, key, ids, bucket);
    SameTouches(t, full, full.(buckets := full.buckets[key := bucket]), OldIds(t, key) + ids);
  }

  lemma RefilledBuckets(t: Tables, clear: Tables, full: Tables, key: string, ids: set<string>)
    requires Refilled(t, clear, full, key, ids)
    ensures full.buckets == t.buckets
  {}

  lemma ReplacedIsRefilled(t: Tables, key: string, platform: string, group: string, list: seq<Account>, epoch: int)
    requires Consistent(t)
    ensures var clear := Cleared(t, key, epoch);
            var full := Install(clear, list, platform, group, key);
            var ids := Installed(clear, list, platform, group, key);
            && Refilled(t, clear, full, key, ids) && OnlyTouches(t, full, OldIds(t, key) + ids)
            && (forall id :: id in ids <==> Offered(t, list, platform, group, key, id))
            && (forall id :: id in OldIds(t, key) + ids && id in t.owner ==> t.owner[id] == key)
  {
    hide Cleared, Install, Installed, SameElsewhere, SameCooling, Consistent, OldIds, Offered, Mine;
    var clear := Cleared(t, key, epoch);
    var full := Install(clear, list, platform, group, key);
    var ids := Installed(clear, list, platform, group, key);
    ClearedShape(t, key, epoch);
    InstallShape(clear, list, platform, group, key);
    InstalledAreFree(t, clear, list, platform, group, key);
    TouchMore(t, clear, OldIds(t, key), OldIds(t, key) + ids);
    TouchMore(clear, full, ids, OldIds(t, key) + ids);
    TouchBoth(t, clear, full, OldIds(t, key) + ids);
  }

  lemma SameTouches(t: Tables, u: Tables, v: Tables, ids: set<string>)
    requires OnlyTouches(t, u, ids) && v == u.(buckets := v.buckets)
    ensures OnlyTouches(t, v, ids)
  {}

  lemma InstalledAreFree(t: Tables, clear: Tables, list: seq<Account>, platform: string, group: string, key: string)
    requires Consistent(t) && OnlyTouches(t, clear, OldIds(t, key))
    requires forall i :: i in clear.owner ==> i in t.owner && clear.owner[i] == t.owner[i] != key
    ensures var ids := Installed(clear, list, platform, group, key);
            && (forall id :: id in ids <==> Offered(t, list, platform, group, key, id))
            && (forall id :: id in OldIds(t, key) + ids && id in t.owner ==> t.owner[id] == key)
  {
    forall a: Account ensures Mine(clear, a, platform, group, key) <==> Mine(t, a, platform, group, key) {
      OwnedElsewhere(t, clear, key, a.id);
    }
  }

  /** An id is free for the bucket after clearing exactly when no other bucket owned it. */
  lemma OwnedElsewhere(t: Tables, clear: Tables, key: string, id: string)
    requires Consistent(t) && OnlyTouches(t, clear, OldIds(t, key))
    requires forall i :: i in clear.owner ==> i in t.owner && clear.owner[i] == t.owner[i] != key
    ensures id !in clear.owner <==> (id in t.owner ==> t.owner[id] == key)
  {}

  /** What the cleared and refilled tables look like, account by account. */
  ghost predicate Refilled(t: Tables, clear: Tables, full: Tables, key: string, ids: set<string>) {
    && clear.buckets == full.buckets == t.buckets
    && (forall id :: id in clear.owner ==> id in t.owner && clear.owner[id] == t.owner[id] != key && id in clear.accounts)
    && (forall id :: id in clear.accounts ==> id in t.accounts && clear.accounts[id] == t.accounts[id])
    && SameElsewhere(t, clear, OldIds(t, key)) && SameElsewhere(clear, full, ids)
    && (forall id :: id in ids ==> id in full.accounts && full.accounts[id].id == id && id in full.owner && full.owner[id] == key)
    && (forall id :: id in ids && id in t.owner ==> t.owner[id] == key)
  }

  lemma OwnerIsListed(t: Tables, clear: Tables, full: Tables, key: string, ids: set<string>, id: string)
    requires Consistent(t) && Refilled(t, clear, full, key, ids) && id in full.owner
    ensures id in full.accounts
    ensures if id in ids then full.owner[id] == key
            else full.owner[id] != key && full.owner[id] in t.buckets && id in t.buckets[full.owner[id]].ids
  {
    if id !in ids { assert id in clear.owner && id in t.owner; }
  }

  lemma ListedIsOwned(t: Tables, clear: Tables, full: Tables, key: string, ids: set<string>, k: string, id: string)
    requires Consistent(t) && Refilled(t, clear, full, key, ids) && k != key && k in t.buckets && id in t.buckets[k].ids
    ensures id in full.owner && full.owner[id] == k
  {
    OwnedOnce(t, k, key, id);
    assert id !in ids && id in clear.owner;
  }

  lemma BecomesConsistent(t: Tables, clear: Tables, full: Tables, key: string, ids: set<string>, bucket: Bucket)
    requires Consistent(t) && Refilled(t, clear, full, key, ids) && bucket.ids == ids
    ensures Consistent(full.(buckets := full.buckets[key := bucket]))
  {
    hide SameElsewhere, OldIds;
    var u := full.(buckets := full.buckets[key := bucket]);
    forall id | id in u.owner ensures u.owner[id] in u.buckets && id in u.buckets[u.owner[id]].ids && id in u.accounts {
      OwnerIsListed(t, clear, full, key, ids, id);
    }
    forall k, id | k in u.buckets && id in u.buckets[k].ids ensures id in u.owner && u.owner[id] == k {
      if k != key { ListedIsOwned(t, clear, full, key, ids, k, id); }
    }
    forall id | id in u.accounts ensures u.accounts[id].id == id {
      AccountIsNamed(t, clear, full, key, ids, id);
    }
  }

  lemma AccountIsNamed(t: Tables, clear: Tables, full: Tables, key: string, ids: set<string>, id: string)
    requires Consistent(t) && Refilled(t, clear, full, key, ids) && id in full.accounts
    ensures full.accounts[id].id == id
  {
    if id !in ids { assert id in clear.accounts; }
  }

  lemma RemoveTouchesOnlyItsOwn(t: Tables, platform: string, group: string)
    requires Consistent(t)
    ensures var key := BucketKey(platform, group);
            var u := Removed(t, platform, group);
            Consistent(u) && OnlyTouches(t, u, OldIds(t, key)) && key !in u.buckets && u.cooling == t.cooling
            && forall other :: other != key && other in t.buckets ==> other in u.buckets && u.buckets[other] == t.buckets[other]
  {
    hide BucketKey;
    var key, u := BucketKey(platform, group), Removed(t, platform, group);
    DropTouches(t, OldIds(t, key));
    SameTouches(t, Drop(t, OldIds(t, key)), u, OldIds(t, key));
    hide SameElsewhere, SameCooling;
    DroppedConsistent(t, u, key);
  }

  lemma DroppedConsistent(t: Tables, u: Tables, key: string)
    requires Consistent(t) && u.accounts == t.accounts - OldIds(t, key) && u.owner == t.owner - OldIds(t, key) && u.buckets == t.buckets - {key}
    ensures Consistent(u)
  {
    forall id | id in u.owner ensures u.owner[id] in u.buckets && id in u.buckets[u.owner[id]].ids && id in u.accounts {
      assert t.owner[id] in t.buckets && id in t.buckets[t.owner[id]].ids;
    }
    forall k, id | k in u.buckets && id in u.buckets[k].ids ensures id in u.owner && u.owner[id] == k {
      OwnedOnce(t, k, key, id);
    }
  }

  lemma DropTouches(t: Tables, ids: set<string>)
    ensures OnlyTouches(t, Drop(t, ids), ids)
  {}

  lemma OwnedOnce(t: Tables, k: string, key: string, id: string)
    requires Consistent(t) && k in t.buckets && id in t.buckets[k].ids
    ensures id in t.owner && t.owner[id] == k && (k != key ==> id !in OldIds(t, key))
  {}

  // ------------------------------------------------------------------ which cooldowns survive

  lemma {:induction false} InstallCooling(t: Tables, list: seq<Account>, platform: string, group: string, key: string, k: CoolKey)
    ensures var u := Install(t, list, platform, group, key);
            && (k in u.cooling <==>
                  && k in t.cooling
                  && forall a :: a in list && Mine(t, a, platform, group, key) && a.id == k.0 ==> a.version == t.cooling[k].version)
            && (k in u.cooling ==> u.cooling[k] == t.cooling[k])
  {
    if list != [] {
      var init, last := list[..|list| - 1], list[|list| - 1];
      InstallCooling(t, init, platform, group, key, k);
      InstallShape(t, init, platform, group, key);
      assert forall a :: a in list <==> a in init || a == last;
      var mid := Install(t, init, platform, group, key);
      assert Mine(mid, last, platform, group, key) <==> Mine(t, last, platform, group, key);
      OneCooling(mid, last, platform, group, key, k);
      hide Install, InstallOne, Mine;
    }
  }

  lemma OneCooling(t: Tables, a: Account, platform: string, group: string, key: string, k: CoolKey)
    ensures var u := InstallOne(t, a, platform, group, key);
            && (k in u.cooling <==> k in t.cooling && (Mine(t, a, platform, group, key) && a.id == k.0 ==> a.version == t.cooling[k].version))
            && (k in u.cooling ==> u.cooling[k] == t.cooling[k])
  {}

  /** A cooldown survives the replacement of a bucket exactly when the bucket's epoch did not change under it and no
      account installed for it carries another credential version. */
  lemma CooldownSurvivesExactly(t: Tables, platform: string, group: string, list: seq<Account>, epoch: int, validUntil: Option<int>, k: CoolKey)
    requires Consistent(t)
    ensures var key := BucketKey(platform, group);
            var u := Replaced(t, platform, group, list, epoch, validUntil);
            && (k in u.cooling <==>
                  && k in t.cooling
                  && !(EpochChanged(t, key, epoch) && k.0 in OldIds(t, key))
                  && forall a :: a in list && Mine(Cleared(t, key, epoch), a, platform, group, key) && a.id == k.0 ==>
                       a.version == t.cooling[k].version)
            && (k in u.cooling ==> u.cooling[k] == t.cooling[k])
  {
    var key := BucketKey(platform, group);
    InstallCooling(Cleared(t, key, epoch), list, platform, group, key, k);
    hide Install, Mine, BucketKey;
  }

  // ------------------------------------------------------------------ whole runs

  datatype Op =
    | ReplaceOp(platform: string, group: string, list: seq<Account>, epoch: int, validUntil: Option<int>)
    | RemoveOp(platform: string, group: string)
    | ReplaceAllOp(list: seq<Account>, epoch: int)
    | CoolOp(cooling: map<CoolKey, Cooldown>, failures: map<CoolKey, int>)      // any change to cooldowns

  function Apply(t: Tables, op: Op): Tables {
    match op
    case ReplaceOp(platform, group, list, epoch, validUntil) => Replaced(t, platform, group, list, epoch, validUntil)
    case RemoveOp(platform, group) => Removed(t, platform, group)
    case ReplaceAllOp(list, epoch) => ReplacedAll(t, list, epoch)
    case CoolOp(cooling, failures) => t.(cooling := cooling, failures := failures)
  }

  function Run(t: Tables, ops: seq<Op>): Tables
    decreases |ops|
  {
    if ops == [] then t else Run(Apply(t, ops[0]), ops[1..])
  }

  lemma {:induction false} ListedIds(list: seq<Account>)
    ensures forall id :: id in Listed(list) ==> Listed(list)[id].id == id
  {
    if list != [] { ListedIds(list[..|list| - 1]); }
  }

  lemma {:induction false} RunKeepsConsistent(t: Tables, ops: seq<Op>)
    requires Consistent(t)
    ensures Consistent(Run(t, ops))
    decreases |ops|
  {
    if ops != [] {
      hide Replaced, Removed, Listed, ForgetOutdated;
      match ops[0] {
        case ReplaceOp(platform, group, list, epoch, validUntil) => ReplaceTouchesOnlyItsOwn(t, platform, group, list, epoch, validUntil);
        case RemoveOp(platform, group) => RemoveTouchesOnlyItsOwn(t, platform, group);
        case ReplaceAllOp(list, epoch) => ListedIds(list);
        case CoolOp(_, _) =>
      }
      RunKeepsConsistent(Apply(t, ops[0]), ops[1..]);
    }
  }

  /** In every reachable state an account is owned by a bucket exactly when it is in that bucket's id set. */
  lemma OwnersAreInverse(ops: seq<Op>, key: string, id: string)
    ensures var t := Run(EMPTY, ops);
            id in t.owner && t.owner[id] == key <==> key in t.buckets && id in t.buckets[key].ids
  {
    hide Run;
    RunFromEmpty(ops);
  }

  lemma RunFromEmpty(ops: seq<Op>)
    ensures Consistent(Run(EMPTY, ops))
  {
    RunKeepsConsistent(EMPTY, ops);
  }

  // ------------------------------------------------------------------ who gets a request

  datatype Criteria = Criteria(platform: string, group: string, model: string)

  predicate After(until: Option<int>, now: int) { until.None? || until.value > now }

  predicate Supports(a: Account, model: string) {
    model == "" || (model !in a.excludedModels && (a.capabilities == [] || model in a.capabilities))
  }

  predicate Applies(item: QuotaItem, model: string) {
    item.scope == "account" || (item.scope == "model" && item.model != "" && item.model == model)
  }

  /** The first readable amount decides; without any the plain count does, and a missing one counts as left. */
  predicate Positive(item: QuotaItem) {
    if item.exact.Sign? then item.exact.sign > 0
    else if item.fraction.Sign? then item.fraction.sign > 0
    else if item.precise.Sign? then item.precise.sign > 0
    else item.remaining.None? || item.remaining.value > 0
  }

  predicate Measured(item: QuotaItem) {
    item.exact != NotGiven || item.fraction != NotGiven || item.precise != NotGiven || item.remaining.Some?
  }

  predicate HasQuota(a: Account, model: string) {
    forall i :: 0 <= i < |a.quota| ==> !Applies(a.quota[i], model) || Positive(a.quota[i]) || !Measured(a.quota[i])
  }

  /** The account itself suits the request: platform, group, status, a live credential, the model. */
  predicate Fits(a: Account, c: Criteria, now: int) {
    && (c.platform == "" || a.provider == c.platform || a.platform == c.platform)
    && a.group == c.group && a.status == "active"
    && (a.credentialKind == "static" || After(a.expiresAt, now))
    && Supports(a, c.model)
  }

  /** What an account is to a request. */
  datatype Standing = Eligible | NoQuota | EgressBlocked | Stale | Unfit

  datatype Scene = Scene(t: Tables, egress: map<string, int>, now: int, criteria: Criteria, excluded: set<string>)

  function StandingOf(s: Scene, id: string): Standing
    requires id in s.t.accounts
  {
    var a, c := s.t.accounts[id], s.criteria;
    if id in s.excluded then Unfit
    else if id in s.t.owner && s.t.owner[id] in s.t.buckets && !After(s.t.buckets[s.t.owner[id]].validUntil, s.now) then Stale
    else if !Fits(a, c, s.now) then Unfit
    else if (id, c.model) in s.t.cooling && s.t.cooling[(id, c.model)].until > s.now then Unfit
    else if Trim(a.proxy) in s.egress && s.egress[Trim(a.proxy)] > s.now then EgressBlocked
    else if !HasQuota(a, c.model) then NoQuota
    else Eligible
  }

  predicate Stands(s: Scene, id: string, standing: Standing) { id in s.t.accounts && StandingOf(s, id) == standing }

  datatype Refusal = QuotaExhausted | SnapshotStale | EgressRefused | NoAccount

  datatype Lease = Lease(account: Account, ttl: int)

  /** Strings in the order of their characters. */
  predicate Before(a: string, b: string) {
    if b == "" then false
    else if a == "" then true
    else a[0] < b[0] || (a[0] == b[0] && Before(a[1..], b[1..]))
  }

  lemma {:induction false} BeforeTotal(a: string, b: string)
    ensures a == b || Before(a, b) || Before(b, a)
    ensures !(Before(a, b) && Before(b, a)) && !(a == b && Before(a, b))
  {
    if a != "" && b != "" && a[0] == b[0] {
      BeforeTotal(a[1..], b[1..]);
      assert a == [a[0]] + a[1..] && b == [b[0]] + b[1..];
    }
  }

  lemma {:induction false} BeforeTransitive(a: string, b: string, c: string)
    requires Before(a, b) && Before(b, c)
    ensures Before(a, c)
  {
    if a != "" && a[0] == b[0] == c[0] {
      BeforeTransitive(a[1..], b[1..], c[1..]);
    }
  }

  ghost predicate Least(s: Scene, id: string) {
    Stands(s, id, Eligible) && forall other :: Stands(s, other, Eligible) ==> other == id || Before(id, other)
  }

  function LeaseFor(a: Account, now: int): Lease {
    Lease(a, if a.expiresAt.None? || a.expiresAt.value < now then 0 else (a.expiresAt.value - now) / 1_000_000_000)
  }

  ghost predicate Picks(s: Scene, preferred: string, id: string) {
    && id in s.t.accounts
    && if preferred != "" && Stands(s, preferred, Eligible) then id == preferred else Least(s, id)
  }

  /** The answer a request must get: the preferred account if it is eligible, otherwise the least eligible id, otherwise
      the first refusal in the fixed order that some account gives rise to. */
  ghost predicate Answers(s: Scene, preferred: string, r: Result<Lease, Refusal>) {
    if exists id :: Stands(s, id, Eligible) then
      exists id :: Picks(s, preferred, id) && r == Ok(LeaseFor(s.t.accounts[id], s.now))
    else if exists id :: Stands(s, id, NoQuota) then r == Err(QuotaExhausted)
    else if exists id :: Stands(s, id, Stale) then r == Err(SnapshotStale)
    else if exists id :: Stands(s, id, EgressBlocked) then r == Err(EgressRefused)
    else r == Err(NoAccount)
  }

  /** There is only one such answer, so the order in which the accounts are visited cannot matter. */
  lemma AnswerIsUnique(s: Scene, preferred: string, r: Result<Lease, Refusal>, q: Result<Lease, Refusal>)
    requires Answers(s, preferred, r) && Answers(s, preferred, q)
    ensures r == q
  {
    hide StandingOf, LeaseFor;
    if exists id :: Stands(s, id, Eligible) {
      forall a, b | Least(s, a) && Least(s, b) ensures a == b {
        BeforeTotal(a, b);
      }
    }
  }

  // ------------------------------------------------------------------ the object

  class Pool {
    var accounts: map<string, Account>
    var buckets: map<string, Bucket>
    var owner: map<string, string>
    var cooling: map<CoolKey, Cooldown>
    var failures: map<CoolKey, int>
    var egress: map<string, int>
    var epoch: int

    ghost function View(): Tables
      reads this
    {
      Tables(accounts, buckets, owner, cooling, failures, epoch)
    }

    constructor ()
      ensures View() == EMPTY && egress == map[]
    {
      accounts, buckets, owner, cooling, failures, egress, epoch := map[], map[], map[], map[], map[], map[], 0;
    }

    /** Delete these cooldowns one by one, and the failure counts beside them. */
    method ForgetKeys(gone: set<CoolKey>)
      requires gone <= cooling.Keys
      modifies `cooling, `failures
      ensures View() == Forget(old(View()), gone)
    {
      var todo := gone;
      while todo != {}
        invariant todo <= gone
        invariant cooling == old(cooling) - (gone - todo) && failures == old(failures) - (gone - todo)
      {
        var k :| k in todo;
        cooling := cooling - {k};
        failures := failures - {k};
        todo := todo - {k};
      }
      assert gone * old(cooling).Keys == gone;
    }

    /** The cooldowns of some accounts. */
    method FindCooling(ids: set<string>) returns (found: set<CoolKey>)
      ensures found == CoolingOf(View(), ids)
    {
      found := set k | k in cooling && k.0 in ids;
    }

    method ReplaceBucket(platform: string, group: string, list: seq<Account>, epoch: int, validUntil: Option<int>)
      modifies `accounts, `buckets, `owner, `cooling, `failures
      ensures View() == Replaced(old(View()), platform, group, list, epoch, validUntil)
    {
      hide Forget, BucketKey;
      var key := BucketKey(platform, group);
      var previous := if key in buckets then buckets[key].ids else {};
      if key in buckets && epoch > 0 && buckets[key].epoch > 0 && epoch != buckets[key].epoch {
        var mine := FindCooling(previous);
        ForgetKeys(mine);
      }
      accounts := accounts - previous;
      owner := owner - previous;
      ghost var clear := View();
      KeepsBuckets(old(View()), key, epoch);
      assert clear == Cleared(old(View()), key, epoch);
      var ids: set<string> := {};
      for i := 0 to |list|
        invariant View() == Install(clear, list[..i], platform, group, key)
        invariant ids == Installed(clear, list[..i], platform, group, key)
      {
        assert list[..i + 1] == list[..i] + [list[i]] && list[..i + 1][..i] == list[..i];
        InstallShape(clear, list[..i], platform, group, key);
        InstalledPush(clear, list[..i], list[i], platform, group, key);
        var a := list[i];
        if a.platform != platform || a.group != group { continue; }
        if a.id in owner && owner[a.id] != key { continue; }
        InstallAccount(a, platform, group, key);
        ids := ids + {a.id};
      }
      assert list[..|list|] == list;
      buckets := buckets[key := Bucket(epoch, validUntil, ids)];
    }

    /** One account of the list that belongs to the bucket. */
    method InstallAccount(a: Account, platform: string, group: string, key: string)
      requires Mine(View(), a, platform, group, key)
      modifies `accounts, `owner, `cooling, `failures
      ensures View() == InstallOne(old(View()), a, platform, group, key)
    {
      var outdated := set k | k in cooling && k.0 == a.id && cooling[k].version != a.version;
      accounts := accounts[a.id := a];
      owner := owner[a.id := key];
      ForgetKeys(outdated);
    }

    method RemoveBucket(platform: string, group: string)
      modifies `accounts, `buckets, `owner
      ensures View() == Removed(old(View()), platform, group)
    {
      var key := BucketKey(platform, group);
      var ids := if key in buckets then buckets[key].ids else {};
      accounts := accounts - ids;
      owner := owner - ids;
      buckets := buckets - {key};
    }

    method ReplaceAtEpoch(snapshot: seq<Account>, epoch: int)
      modifies `accounts, `buckets, `owner, `cooling, `failures, `epoch
      ensures View() == ReplacedAll(old(View()), snapshot, epoch)
    {
      hide Forget, Listed, ForgetOutdated;
      if epoch > 0 && this.epoch > 0 && epoch != this.epoch {
        cooling := map[];
        failures := map[];
      }
      ghost var start := View();
      NothingListed(start);
      var next: map<string, Account> := map[];
      assert snapshot[..0] == [];
      for i := 0 to |snapshot|
        invariant accounts == start.accounts && this.epoch == start.epoch
        invariant next == Listed(snapshot[..i])
        invariant View() == ForgetOutdated(start, snapshot[..i])
      {
        OneMoreListed(start, snapshot, i);
        var a := snapshot[i];
        next := next[a.id := a];
        ForgetKeys(set k | k in cooling && k.0 == a.id && cooling[k].version != a.version);
      }
      assert snapshot[..|snapshot|] == snapshot;
      buckets := map[];
      owner := map[];
      accounts := next;
      if epoch > 0 {
        this.epoch := epoch;
      }
    }

    /** One pass over the accounts, in whatever order the map yields them. */
    method Survey(criteria: Criteria, excluded: set<string>, now: int)
      returns (ids: set<string>, quotaExcluded: bool, staleExcluded: bool, egressExcluded: bool)
      ensures var s := Scene(View(), egress, now, criteria, excluded);
              && (forall id :: id in ids <==> Stands(s, id, Eligible))
              && (quotaExcluded <==> exists id :: Stands(s, id, NoQuota))
              && (staleExcluded <==> exists id :: Stands(s, id, Stale))
              && (egressExcluded <==> exists id :: Stands(s, id, EgressBlocked))
    {
      hide StandingOf;
      ghost var s := Scene(View(), egress, now, criteria, excluded);
      ids, quotaExcluded, staleExcluded, egressExcluded := {}, false, false, false;
      var todo := accounts.Keys;
      while todo != {}
        invariant todo <= accounts.Keys
        invariant forall id :: id in ids <==> id !in todo && Stands(s, id, Eligible)
        invariant quotaExcluded <==> exists id :: id !in todo && Stands(s, id, NoQuota)
        invariant staleExcluded <==> exists id :: id !in todo && Stands(s, id, Stale)
        invariant egressExcluded <==> exists id :: id !in todo && Stands(s, id, EgressBlocked)
      {
        var id :| id in todo;
        var standing := Judge(id, criteria, excluded, now);
        todo := todo - {id};
        match standing {
          case Eligible => ids := ids + {id};
          case NoQuota => quotaExcluded := true;
          case EgressBlocked => egressExcluded := true;
          case Stale => staleExcluded := true;
          case Unfit =>
        }
      }
    }

    method AcquirePreferring(criteria: Criteria, preferred: string, excluded: set<string>, now: int) returns (r: Result<Lease, Refusal>)
      ensures Answers(Scene(View(), egress, now, criteria, excluded), preferred, r)
    {
      hide StandingOf, LeaseFor;
      ghost var s := Scene(View(), egress, now, criteria, excluded);
      var ids, quotaExcluded, staleExcluded, egressExcluded := Survey(criteria, excluded, now);
      if ids == {} {
        return Err(if quotaExcluded then QuotaExhausted else if staleExcluded then SnapshotStale
                   else if egressExcluded then EgressRefused else NoAccount);
      }
      var chosen := First(ids);
      if preferred != "" && preferred in ids {
        chosen := preferred;
      }
      assert Picks(s, preferred, chosen);
      r := Ok(LeaseFor(accounts[chosen], now));
    }

    method Judge(id: string, criteria: Criteria, excluded: set<string>, now: int) returns (standing: Standing)
      requires id in accounts
      ensures standing == StandingOf(Scene(View(), egress, now, criteria, excluded), id)
    {
      hide Fits, HasQuota, Trim;
      var a := accounts[id];
      if id in excluded { return Unfit; }
      if id in owner && owner[id] in buckets {
        var bucket := buckets[owner[id]];
        if bucket.validUntil.Some? && bucket.validUntil.value <= now { return Stale; }
      }
      if !Fits(a, criteria, now) { return Unfit; }
      if (id, criteria.model) in cooling && cooling[(id, criteria.model)].until > now { return Unfit; }
      var path := Trim(a.proxy);
      if path in egress && egress[path] > now { return EgressBlocked; }
      if !HasQuota(a, criteria.model) { return NoQuota; }
      return Eligible;
    }
  }

  /** The first id in string order. */
  method First(ids: set<string>) returns (first: string)
    requires ids != {}
    ensures first in ids && forall id :: id in ids ==> id == first || Before(first, id)
  {
    first :| first in ids;
    var todo := ids - {first};
    while todo != {}
      invariant first in ids && todo <= ids
      invariant forall id :: id in ids && id !in todo ==> id == first || Before(first, id)
    {
      var id :| id in todo;
      todo := todo - {id};
      BeforeTotal(first, id);
      if Before(id, first) {
        forall other | other in ids && other !in todo ensures other == id || Before(id, other) {
          if other != id && other != first { BeforeTransitive(id, first, other); }
        }
        first := id;
      }
    }
  }

  lemma NothingListed(t: Tables)
    ensures Listed([]) == map[] && ForgetOutdated(t, []) == t
  {}

  lemma OneMoreListed(t: Tables, list: seq<Account>, i: nat)
    requires i < |list|
    ensures Listed(list[..i + 1]) == Listed(list[..i])[list[i].id := list[i]]
    ensures ForgetOutdated(t, list[..i + 1]) == var before := ForgetOutdated(t, list[..i]); Forget(before, Outdated(before, list[i]))
  {
    hide Forget, Outdated;
    assert list[..i + 1][..i] == list[..i];
  }

  lemma KeepsBuckets(t: Tables, key: string, epoch: int)
    ensures Cleared(t, key, epoch).buckets == t.buckets
  {}
}
