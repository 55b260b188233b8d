/** What the chooser's operations mean, field by field: which account may serve a request, what it is leased, and what a
    replacement leaves behind. */
module ChooserLaws {
  import opened Outcomes
  import opened Strings
  import opened Chooser

  // ------------------------------------------------------------------ who may serve a request

  predicate Serves(a: Account, c: Criteria) {
    && (c.platform == "" || a.provider == c.platform || a.platform == c.platform)
    && a.group == c.group && a.status == "active"
  }

  predicate CredentialLives(a: Account, now: int) { a.credentialKind == "static" || a.expiresAt == None || a.expiresAt.value > now }

  predicate Carries(a: Account, model: string) {
    model == "" || (model !in a.excludedModels && (a.capabilities == [] || model in a.capabilities))
  }

  predicate Rested(s: Scene, id: string) {
    (id, s.criteria.model) in s.t.cooling ==> s.t.cooling[(id, s.criteria.model)].until <= s.now
  }

  predicate PathOpen(s: Scene, a: Account) { Trim(a.proxy) in s.egress ==> s.egress[Trim(a.proxy)] <= s.now }

  /** The bucket that owns the account has a freshness bound, and it has passed. */
  predicate Outlived(s: Scene, id: string) {
    && id in s.t.owner && s.t.owner[id] in s.t.buckets
    && s.t.buckets[s.t.owner[id]].validUntil.Some? && s.t.buckets[s.t.owner[id]].validUntil.value <= s.now
  }

  /** A quota item that stands in the way: it is about the account or this model, and the first amount it gives readably is not
      positive, or it gives none readably and its plain count is not positive. */
  predicate Exhausted(item: QuotaItem, model: string) {
    && (item.scope == "account" || (item.scope == "model" && item.model != "" && item.model == model))
    && match (item.exact, item.fraction, item.precise)
       case (Sign(sign), _, _) => sign <= 0
       case (_, Sign(sign), _) => sign <= 0
       case (_, _, Sign(sign)) => sign <= 0
       case _ => item.remaining.Some? && item.remaining.value <= 0
  }

  /** What an account is to a request, in the order in which the reasons count. */
  lemma StandingMeans(s: Scene, id: string)
    requires id in s.t.accounts
    ensures var a, c, standing := s.t.accounts[id], s.criteria, StandingOf(s, id);
            var fits := Serves(a, c) && CredentialLives(a, s.now) && Carries(a, c.model) && Rested(s, id);
            var left := forall i :: 0 <= i < |a.quota| ==> !Exhausted(a.quota[i], c.model);
            && (standing == Stale <==> id !in s.excluded && Outlived(s, id))
            && (standing == Unfit <==> id in s.excluded || (!Outlived(s, id) && !fits))
            && (standing == EgressBlocked <==> id !in s.excluded && !Outlived(s, id) && fits && !PathOpen(s, a))
            && (standing == NoQuota <==> id !in s.excluded && !Outlived(s, id) && fits && PathOpen(s, a) && !left)
            && (standing == Eligible <==> id !in s.excluded && !Outlived(s, id) && fits && PathOpen(s, a) && left)
  {
    hide Trim;
    var a, model := s.t.accounts[id], s.criteria.model;
    assert forall i :: 0 <= i < |a.quota| ==>
      (Exhausted(a.quota[i], model) <==> Applies(a.quota[i], model) && !Positive(a.quota[i]) && Measured(a.quota[i]));
  }

  /** Dictionary order: after the characters the two have in common, the first ends or has the smaller one. */
  ghost predicate Earlier(a: string, b: string) {
    exists k :: EarlierAt(a, b, k)
  }

  predicate EarlierAt(a: string, b: string, k: int) {
    0 <= k <= |a| && k < |b| && a[..k] == b[..k] && (k == |a| || a[k] < b[k])
  }

  lemma {:induction false} BeforeMeans(a: string, b: string)
    ensures Before(a, b) <==> Earlier(a, b)
  {
    if b != "" && (a == "" || a[0] != b[0]) {
      assert a[..0] == b[..0];
      assert Before(a, b) ==> EarlierAt(a, b, 0);
      assert forall k :: EarlierAt(a, b, k) ==> k == 0 || a[..k][0] == b[..k][0];
    } else if b != "" {
      BeforeMeans(a[1..], b[1..]);
      assert a == [a[0]] + a[1..] && b == [b[0]] + b[1..];
      forall k | 0 <= k < |b| ensures EarlierAt(a[1..], b[1..], k) <==> EarlierAt(a, b, k + 1) {
        if k <= |a| - 1 {
          assert a[..k + 1] == [a[0]] + a[1..][..k] && b[..k + 1] == [b[0]] + b[1..][..k];
          assert a[1..][..k] == a[..k + 1][1..] && b[1..][..k] == b[..k + 1][1..];
        }
      }
      if Earlier(a, b) {
        var k :| EarlierAt(a, b, k);
        assert k > 0 && EarlierAt(a[1..], b[1..], k - 1);
      }
      if Earlier(a[1..], b[1..]) {
        var k :| EarlierAt(a[1..], b[1..], k);
        assert EarlierAt(a, b, k + 1);
      }
    }
  }

  /** A lease is of an account that may serve the request, the preferred one or else the earliest by its id, for the whole seconds
      its credential has left, or for none if it does not expire or has expired. */
  lemma LeaseMeans(s: Scene, preferred: string, lease: Lease)
    requires Answers(s, preferred, Ok(lease))
    ensures exists id :: id in s.t.accounts && s.t.accounts[id] == lease.account && Stands(s, id, Eligible)
                         && if preferred != "" && Stands(s, preferred, Eligible) then id == preferred
                            else forall other :: Stands(s, other, Eligible) && other != id ==> Earlier(id, other)
    ensures var expiry := lease.account.expiresAt;
            if expiry.Some? && expiry.value > s.now
            then lease.ttl * 1_000_000_000 <= expiry.value - s.now < (lease.ttl + 1) * 1_000_000_000
            else lease.ttl == 0
  {
    hide StandingOf, Before, Earlier;
    var id :| Picks(s, preferred, id) && lease == LeaseFor(s.t.accounts[id], s.now);
    LeastIsEligible(s, id);
    TtlMeans(s.t.accounts[id], s.now);
    forall other ensures Before(id, other) <==> Earlier(id, other) { BeforeMeans(id, other); }
  }

  /** A request is refused exactly if no account may serve it, and the reason given is the first of these that holds: an account
      has used up its quota, one has outlived its bucket's bound, one is behind a closed path, or there is none of them. */
  lemma RefusalMeans(s: Scene, preferred: string, r: Result<Lease, Refusal>)
    requires Answers(s, preferred, r)
    ensures r.Err? <==> forall id :: id in s.t.accounts ==> StandingOf(s, id) != Eligible
    ensures r.Err? ==>
              var some := (standing: Standing) => exists id :: Stands(s, id, standing);
              && (r.error == QuotaExhausted <==> some(NoQuota))
              && (r.error == SnapshotStale <==> some(Stale) && !some(NoQuota))
              && (r.error == EgressRefused <==> some(EgressBlocked) && !some(NoQuota) && !some(Stale))
              && (r.error == NoAccount <==> !some(NoQuota) && !some(Stale) && !some(EgressBlocked))
  {
    hide StandingOf;
    if r.Err? {
      forall id | id in s.t.accounts ensures StandingOf(s, id) != Eligible { assert Stands(s, id, Eligible) <==> StandingOf(s, id) == Eligible; }
    } else {
      var id :| Picks(s, preferred, id);
      LeastIsEligible(s, id);
    }
  }

  lemma LeastIsEligible(s: Scene, id: string)
    ensures Least(s, id) ==> Stands(s, id, Eligible)
  {}

  lemma TtlMeans(a: Account, now: int)
    ensures var ttl := LeaseFor(a, now).ttl;
            if a.expiresAt.Some? && a.expiresAt.value > now
            then ttl * 1_000_000_000 <= a.expiresAt.value - now < (ttl + 1) * 1_000_000_000
            else ttl == 0
  {}

  // ------------------------------------------------------------------ what a replacement leaves

  /** The id belongs to this bucket or to none. */
  predicate FreeFor(t: Tables, key: string, id: string) { id in t.owner ==> t.owner[id] == key }

  predicate Placed(t: Tables, a: Account, platform: string, group: string, key: string) {
    a.platform == platform && a.group == group && FreeFor(t, key, a.id)
  }

  /** The account of this id that the list holds last among those the bucket may have. */
  ghost predicate LastOf(t: Tables, list: seq<Account>, platform: string, group: string, key: string, a: Account) {
    exists k :: 0 <= k < |list| && list[k] == a && Placed(t, a, platform, group, key)
                && forall j :: k < j < |list| && list[j].id == a.id ==> !Placed(t, list[j], platform, group, key)
  }

  /** Failure counts go exactly where a cooldown goes. */
  ghost predicate FailuresFollow(t: Tables, u: Tables) {
    && u.cooling.Keys <= t.cooling.Keys
    && (forall k :: k in u.failures <==> k in t.failures && !(k in t.cooling && k !in u.cooling))
    && (forall k :: k in u.failures ==> u.failures[k] == t.failures[k])
  }

  lemma FollowTwice(t: Tables, u: Tables, v: Tables)
    requires FailuresFollow(t, u) && FailuresFollow(u, v)
    ensures FailuresFollow(t, v)
  {}

  lemma ForgetFollows(t: Tables, gone: set<CoolKey>)
    ensures FailuresFollow(t, Forget(t, gone))
  {}

  lemma FollowStill(t: Tables, u: Tables, v: Tables)
    requires FailuresFollow(t, u) && v.cooling == u.cooling && v.failures == u.failures
    ensures FailuresFollow(t, v)
  {}

  lemma {:induction false} InstallFollows(t: Tables, list: seq<Account>, platform: string, group: string, key: string)
    ensures FailuresFollow(t, Install(t, list, platform, group, key))
  {
    hide FailuresFollow, Forget, Outdated, Mine;
    if list == [] {
      FollowsItself(t);
    } else {
      var init, a := list[..|list| - 1], list[|list| - 1];
      var mid := Install(t, init, platform, group, key);
      InstallFollows(t, init, platform, group, key);
      if Mine(mid, a, platform, group, key) {
        var moved := mid.(accounts := mid.accounts[a.id := a], owner := mid.owner[a.id := key]);
        FollowStill(t, mid, moved);
        ForgetFollows(moved, Outdated(mid, a));
        FollowTwice(t, moved, Forget(moved, Outdated(mid, a)));
      }
    }
  }

  lemma FollowsItself(t: Tables)
    ensures FailuresFollow(t, t)
  {}

  lemma {:induction false} InstalledLast(t: Tables, list: seq<Account>, platform: string, group: string, key: string, id: string)
    ensures var u := Install(t, list, platform, group, key);
            && (forall a: Account :: Placed(u, a, platform, group, key) <==> Placed(t, a, platform, group, key))
            && (id in Installed(t, list, platform, group, key) ==>
                  id in u.accounts && u.accounts[id].id == id && LastOf(t, list, platform, group, key, u.accounts[id]))
            && (id !in Installed(t, list, platform, group, key) ==>
                  (id in u.accounts <==> id in t.accounts) && (id in u.accounts ==> u.accounts[id] == t.accounts[id]))
  {
    hide Forget, Outdated;
    if list != [] {
      var init, last := list[..|list| - 1], list[|list| - 1];
      assert list == init + [last];
      InstalledLast(t, init, platform, group, key, id);
      InstalledPush(t, init, last, platform, group, key);
      var mid, u := Install(t, init, platform, group, key), Install(t, list, platform, group, key);
      assert Placed(mid, last, platform, group, key) <==> Mine(mid, last, platform, group, key);
      assert Placed(t, last, platform, group, key) <==> Mine(t, last, platform, group, key);
      ForgetLeaves(mid.(accounts := mid.accounts[last.id := last], owner := mid.owner[last.id := key]), Outdated(mid, last));
      if id in Installed(t, list, platform, group, key) {
        if Placed(t, last, platform, group, key) && id == last.id {
          assert list[|init|] == last;
        } else {
          LastStays(t, init, last, platform, group, key, mid.accounts[id]);
        }
      }
    }
  }

  lemma ForgetLeaves(t: Tables, gone: set<CoolKey>)
    ensures Forget(t, gone).accounts == t.accounts && Forget(t, gone).owner == t.owner && Forget(t, gone).buckets == t.buckets
  {}

  lemma LastStays(t: Tables, init: seq<Account>, last: Account, platform: string, group: string, key: string, a: Account)
    requires LastOf(t, init, platform, group, key, a) && !(last.id == a.id && Placed(t, last, platform, group, key))
    ensures LastOf(t, init + [last], platform, group, key, a)
  {
    hide Placed;
    var list := init + [last];
    var k :| 0 <= k < |init| && init[k] == a && Placed(t, a, platform, group, key)
             && forall j :: k < j < |init| && init[j].id == a.id ==> !Placed(t, init[j], platform, group, key);
    assert list[k] == a;
    forall j | k < j < |list| && list[j].id == a.id ensures !Placed(t, list[j], platform, group, key) {
      if j < |init| { assert init[j] == list[j]; }
    }
  }

  /** The bucket's epoch changes under its cooldowns. */
  predicate NewEpoch(t: Tables, key: string, epoch: int) {
    key in t.buckets && epoch > 0 && t.buckets[key].epoch > 0 && t.buckets[key].epoch != epoch
  }

  /** What replacing one bucket does to it: it is filed under its platform and group with its epoch and freshness bound; its ids
      are those of the listed accounts of that platform and group that no other bucket owns, each with the account listed last;
      of the accounts it had, those not listed are gone; a cooldown goes exactly if the epoch changed under an account the
      bucket had, or an account installed has another credential version; and failure counts go with the cooldowns. */
  lemma ReplaceMeans(t: Tables, platform: string, group: string, list: seq<Account>, epoch: int, validUntil: Option<int>)
    requires Consistent(t)
    ensures var key := platform + "\0" + group;
            var u := Replaced(t, platform, group, list, epoch, validUntil);
            && key in u.buckets && u.buckets[key].epoch == epoch && u.buckets[key].validUntil == validUntil
            && u.buckets == t.buckets[key := u.buckets[key]] && u.epoch == t.epoch
            && (forall id :: id in u.buckets[key].ids <==> exists a :: a in list && a.id == id && Placed(t, a, platform, group, key))
            && (forall id :: id in u.buckets[key].ids ==>
                  id in u.accounts && u.accounts[id].id == id && LastOf(t, list, platform, group, key, u.accounts[id]))
            && (key in t.buckets ==> forall id :: id in t.buckets[key].ids && id !in u.buckets[key].ids ==> id !in u.accounts && id !in u.owner)
            && (forall k: CoolKey :: k in t.cooling ==>
                  (k !in u.cooling <==>
                    || (NewEpoch(t, key, epoch) && k.0 in t.buckets[key].ids)
                    || (exists a :: a in list && a.id == k.0 && Placed(t, a, platform, group, key) && a.version != t.cooling[k].version)))
            && FailuresFollow(t, u)
  {
    hide Consistent, Cleared, Install, Installed, FailuresFollow, LastOf, OnlyTouches, Offered, Mine, Placed, OldIds;
    var key := platform + "\0" + group;
    assert key == BucketKey(platform, group);
    var clear := Cleared(t, key, epoch);
    var full := Install(clear, list, platform, group, key);
    ReplaceTouchesOnlyItsOwn(t, platform, group, list, epoch, validUntil);
    ClearedFrees(t, key, epoch);
    OfferedMeans(t, list, platform, group, key);
    ReplaceBuckets(t, platform, group, list, epoch, validUntil);
    forall id | id in Installed(clear, list, platform, group, key)
      ensures id in full.accounts && full.accounts[id].id == id && LastOf(t, list, platform, group, key, full.accounts[id])
    {
      InstalledLast(clear, list, platform, group, key, id);
      SameLast(t, clear, list, platform, group, key, full.accounts[id]);
    }
    forall id | id in OldIds(t, key) && id !in Installed(clear, list, platform, group, key) ensures id !in full.accounts && id !in full.owner {
      InstalledLast(clear, list, platform, group, key, id);
      OwnersInstalled(clear, list, platform, group, key, id);
    }
    OldMeans(t, key);
    InstallFollows(clear, list, platform, group, key);
    FollowTwice(t, clear, full);
    FollowStill(t, full, Replaced(t, platform, group, list, epoch, validUntil));
    forall k: CoolKey | k in t.cooling
      ensures k !in Replaced(t, platform, group, list, epoch, validUntil).cooling <==>
                || (NewEpoch(t, key, epoch) && k.0 in OldIds(t, key))
                || (exists a :: a in list && a.id == k.0 && Placed(t, a, platform, group, key) && a.version != t.cooling[k].version)
    {
      CooldownSurvivesExactly(t, platform, group, list, epoch, validUntil, k);
      forall a: Account ensures Placed(t, a, platform, group, key) <==> Mine(clear, a, platform, group, key) { PlacedIsMine(t, clear, a, platform, group, key); }
    }
  }

  lemma OldMeans(t: Tables, key: string)
    ensures OldIds(t, key) == if key in t.buckets then t.buckets[key].ids else {}
  {}

  lemma ReplaceBuckets(t: Tables, platform: string, group: string, list: seq<Account>, epoch: int, validUntil: Option<int>)
    ensures var key := BucketKey(platform, group);
            var u := Replaced(t, platform, group, list, epoch, validUntil);
            var clear := Cleared(t, key, epoch);
            && u.buckets == t.buckets[key := Bucket(epoch, validUntil, Installed(clear, list, platform, group, key))] && u.epoch == t.epoch
  {
    hide Installed, BucketKey, Mine;
    var key := BucketKey(platform, group);
    InstallLeavesBuckets(Cleared(t, key, epoch), list, platform, group, key);
  }

  lemma {:induction false} InstallLeavesBuckets(t: Tables, list: seq<Account>, platform: string, group: string, key: string)
    ensures var u := Install(t, list, platform, group, key); u.buckets == t.buckets && u.epoch == t.epoch
  {
    if list != [] { InstallLeavesBuckets(t, list[..|list| - 1], platform, group, key); }
  }

  lemma {:induction false} OwnersInstalled(t: Tables, list: seq<Account>, platform: string, group: string, key: string, id: string)
    requires id !in Installed(t, list, platform, group, key)
    ensures id in Install(t, list, platform, group, key).owner <==> id in t.owner
  {
    hide Installed, Install, Mine, SameCooling;
    InstallShape(t, list, platform, group, key);
  }

  /** Clearing the bucket takes exactly its own ids and leaves the placement of every account as it was. */
  lemma ClearedFrees(t: Tables, key: string, epoch: int)
    requires Consistent(t)
    ensures var clear := Cleared(t, key, epoch);
            && FailuresFollow(t, clear)
            && (forall id :: FreeFor(t, key, id) <==> FreeFor(clear, key, id))
            && (forall id :: id in OldIds(t, key) ==> id !in clear.accounts && id !in clear.owner)
            && (EpochChanged(t, key, epoch) <==> NewEpoch(t, key, epoch))
  {
    hide FailuresFollow, Forget, CoolingOf;
    ForgetFollows(t, CoolingOf(t, OldIds(t, key)));
    ForgetLeaves(t, CoolingOf(t, OldIds(t, key)));
    FollowsItself(t);
    var start := if EpochChanged(t, key, epoch) then Forget(t, CoolingOf(t, OldIds(t, key))) else t;
    FollowStill(t, start, Cleared(t, key, epoch));
  }

  lemma PlacedIsMine(t: Tables, clear: Tables, a: Account, platform: string, group: string, key: string)
    requires FreeFor(t, key, a.id) <==> FreeFor(clear, key, a.id)
    ensures Placed(t, a, platform, group, key) <==> Mine(clear, a, platform, group, key)
  {}

  lemma OfferedMeans(t: Tables, list: seq<Account>, platform: string, group: string, key: string)
    ensures forall id :: Offered(t, list, platform, group, key, id) <==> exists a :: a in list && a.id == id && Placed(t, a, platform, group, key)
  {
    forall a: Account ensures Placed(t, a, platform, group, key) <==> Mine(t, a, platform, group, key) {}
  }

  lemma SameLast(t: Tables, clear: Tables, list: seq<Account>, platform: string, group: string, key: string, a: Account)
    requires LastOf(clear, list, platform, group, key, a) && forall id :: FreeFor(t, key, id) <==> FreeFor(clear, key, id)
    ensures LastOf(t, list, platform, group, key, a)
  {
    forall b: Account ensures Placed(t, b, platform, group, key) <==> Placed(clear, b, platform, group, key) {}
    hide Placed;
    var k :| 0 <= k < |list| && list[k] == a && Placed(clear, a, platform, group, key)
             && forall j :: k < j < |list| && list[j].id == a.id ==> !Placed(clear, list[j], platform, group, key);
    assert forall j :: k < j < |list| && list[j].id == a.id ==> !Placed(t, list[j], platform, group, key);
  }

  /** What removing a bucket does: its accounts are gone and so is the bucket; cooldowns and failure counts stay. */
  lemma RemoveMeans(t: Tables, platform: string, group: string)
    requires Consistent(t)
    ensures var key := platform + "\0" + group;
            var u := Removed(t, platform, group);
            && u.buckets == t.buckets - {key} && u.cooling == t.cooling && u.failures == t.failures && u.epoch == t.epoch
            && (key in t.buckets ==> u.accounts == t.accounts - t.buckets[key].ids && u.owner == t.owner - t.buckets[key].ids)
            && (key !in t.buckets ==> u.accounts == t.accounts && u.owner == t.owner)
  {}

  /** The account of this id that the list holds last. */
  ghost predicate LastListed(list: seq<Account>, a: Account) {
    exists k :: 0 <= k < |list| && list[k] == a && forall j :: k < j < |list| ==> list[j].id != a.id
  }

  lemma {:induction false} ListedLast(list: seq<Account>, id: string)
    ensures id in Listed(list) <==> exists a :: a in list && a.id == id
    ensures id in Listed(list) ==> Listed(list)[id].id == id && LastListed(list, Listed(list)[id])
  {
    if list != [] {
      hide LastListed;
      var init, last := list[..|list| - 1], list[|list| - 1];
      assert list == init + [last];
      assert last in list && forall a :: a in list <==> a in init || a == last;
      ListedLast(init, id);
      LastIsLast(init, last);
      if id != last.id && id in Listed(init) { ListedStays(init, last, Listed(init)[id]); }
    }
  }

  lemma LastIsLast(init: seq<Account>, last: Account)
    ensures LastListed(init + [last], last)
  {
    assert (init + [last])[|init|] == last;
  }

  lemma ListedStays(init: seq<Account>, last: Account, a: Account)
    requires LastListed(init, a) && last.id != a.id
    ensures LastListed(init + [last], a)
  {
    var list := init + [last];
    var k :| 0 <= k < |init| && init[k] == a && forall j :: k < j < |init| ==> init[j].id != a.id;
    assert list[k] == a;
    forall j | k < j < |list| ensures list[j].id != a.id {
      if j < |init| { assert list[j] == init[j]; }
    }
  }

  lemma {:induction false} OutdatedGo(t: Tables, list: seq<Account>)
    ensures var u := ForgetOutdated(t, list);
            && FailuresFollow(t, u)
            && (forall k: CoolKey :: k in t.cooling ==>
                  (k !in u.cooling <==> exists a :: a in list && a.id == k.0 && a.version != t.cooling[k].version))
            && (forall k: CoolKey :: k in u.cooling ==> k in t.cooling && u.cooling[k] == t.cooling[k])
  {
    hide FailuresFollow;
    if list == [] {
      FollowsItself(t);
    } else {
      var init, last := list[..|list| - 1], list[|list| - 1];
      assert forall a :: a in list <==> a in init || a == last;
      OutdatedGo(t, init);
      var mid := ForgetOutdated(t, init);
      ForgetFollows(mid, Outdated(mid, last));
      FollowTwice(t, mid, Forget(mid, Outdated(mid, last)));
    }
  }

  /** What replacing everything does: the accounts are those of the list, each as listed last, and nothing is owned any more. If
      the epoch changed all cooldowns and failure counts go, and otherwise a cooldown goes exactly if a listed account of its id
      has another credential version, with its failure count. */
  lemma ReplaceAllMeans(t: Tables, list: seq<Account>, epoch: int)
    ensures var u := ReplacedAll(t, list, epoch);
            && (forall id :: id in u.accounts <==> exists a :: a in list && a.id == id)
            && (forall id :: id in u.accounts ==> u.accounts[id].id == id && LastListed(list, u.accounts[id]))
            && u.buckets == map[] && u.owner == map[] && u.epoch == (if epoch > 0 then epoch else t.epoch)
            && if epoch > 0 && t.epoch > 0 && epoch != t.epoch then u.cooling == map[] && u.failures == map[]
               else
                 && FailuresFollow(t, u)
                 && (forall k: CoolKey :: k in t.cooling ==>
                       (k !in u.cooling <==> exists a :: a in list && a.id == k.0 && a.version != t.cooling[k].version))
                 && (forall k: CoolKey :: k in u.cooling ==> k in t.cooling && u.cooling[k] == t.cooling[k])
  {
    hide FailuresFollow, LastListed, Listed, ForgetOutdated;
    forall id ensures (id in Listed(list) <==> exists a :: a in list && a.id == id) && (id in Listed(list) ==> Listed(list)[id].id == id && LastListed(list, Listed(list)[id])) {
      ListedLast(list, id);
    }
    var start := if epoch > 0 && t.epoch > 0 && epoch != t.epoch then t.(cooling := map[], failures := map[]) else t;
    OutdatedGo(start, list);
    FollowStill(start, ForgetOutdated(start, list), ReplacedAll(t, list, epoch));
    if start.cooling == map[] && start.failures == map[] { NothingToForget(start, ForgetOutdated(start, list)); }
  }

  lemma NothingToForget(t: Tables, u: Tables)
    requires FailuresFollow(t, u) && t.cooling == map[] && t.failures == map[]
    ensures u.cooling == map[] && u.failures == map[]
  {}
}
