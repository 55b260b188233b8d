/** Account fencing (internal/control/fencing.go, internal/control/import.go): a credential is replaced by two conditional
    statements in one transaction, while other holders keep bumping the fence and a re-import bumps the fence and writes a
    new credential in a transaction of its own. Statements see committed rows only, and a row that a transaction has updated
    stays locked until it ends. The rows of one account; accounts do not interact. */
module Fencing {
  import opened Outcomes

  /** `writer` records the fence under which the credential was written last; zero for the first import. */
  datatype Credential = Credential(secret: string, version: nat, writer: nat)

  /** Where a transaction stands. An update of the credential: before its first statement, before its second, before its
      commit. A re-import: before it bumps the fence, before it writes the credential, before its commit. Or over. */
  datatype Stage = First | Second | Commit | Bumping | Writing | Installing | Over(ok: bool)

  /** A transaction, the fence it holds, and the secret it means to write. */
  datatype Holder = Holder(epoch: nat, secret: string, stage: Stage)

  datatype World = World(
    fence: nat, credential: Credential, accountLock: Option<nat>, credentialLock: Option<nat>, holders: map<nat, Holder>)

  function Start(secret: string): World { World(0, Credential(secret, 1, 0), None, None, map[]) }

  /** Another transaction holds the row. */
  predicate Blocked(lock: Option<nat>, i: nat) { lock.Some? && lock.value != i }

  function Released(lock: Option<nat>, i: nat): Option<nat> { if lock == Some(i) then None else lock }

  function Finish(w: World, i: nat, h: Holder, ok: bool): World {
    w.(accountLock := Released(w.accountLock, i), credentialLock := Released(w.credentialLock, i),
       holders := w.holders[i := h.(stage := Over(ok))])
  }

  /** The transaction's next statement would wait for a row. */
  predicate Waits(w: World, i: nat, h: Holder) {
    match h.stage
    case First => Blocked(w.credentialLock, i)
    case Second => Blocked(w.accountLock, i)
    case Bumping => Blocked(w.accountLock, i)
    case Writing => Blocked(w.credentialLock, i)
    case _ => false
  }

  /** One statement of a transaction; a statement that meets a locked row waits. A transaction may be aborted at any point.

      After a wait the model reads the fence afresh. PostgreSQL, at READ COMMITTED, evaluates the first statement's
      subquery on the account against the snapshot the statement began with, so there a holder may pass the first stage
      with a fence that has moved during its wait. It is then in the same position as one whose fence moves between the two
      statements, and the second statement, which tests the fence on the row it locks, refuses both. */
  function Statement(w: World, i: nat, h: Holder, abort: bool): World {
    if abort && !h.stage.Over? then Finish(w, i, h, false)
    else if Waits(w, i, h) then w
    else
      match h.stage
      case First =>
        if w.fence != h.epoch then Finish(w, i, h, false)
        else w.(credentialLock := Some(i), holders := w.holders[i := h.(stage := Second)])
      case Second =>
        if w.fence != h.epoch then Finish(w, i, h, false)
        else w.(accountLock := Some(i), holders := w.holders[i := h.(stage := Commit)])
      case Commit =>
        Finish(w.(credential := Credential(h.secret, w.credential.version + 1, h.epoch)), i, h, true)
      case Bumping =>
        w.(accountLock := Some(i), holders := w.holders[i := h.(epoch := w.fence + 1, stage := Writing)])
      case Writing =>
        w.(credentialLock := Some(i), holders := w.holders[i := h.(stage := Installing)])
      case Installing =>
        Finish(w.(fence := h.epoch, credential := Credential(h.secret, w.credential.version + 1, h.epoch)), i, h, true)
      case Over(_) => w
  }

  datatype Event =
    | Acquire(holder: nat, secret: string)          // bump the fence and hold the new epoch
    | Reimport(holder: nat, secret: string)         // a re-import or a migration of the account begins
    | Bump                                          // an operator action
    | Advance(holder: nat, abort: bool)

  function Step(w: World, e: Event): World {
    match e
    case Acquire(i, secret) =>
      if i in w.holders || w.accountLock.Some? then w
      else w.(fence := w.fence + 1, holders := w.holders[i := Holder(w.fence + 1, secret, First)])
    case Reimport(i, secret) => if i in w.holders then w else w.(holders := w.holders[i := Holder(0, secret, Bumping)])
    case Bump => if w.accountLock.Some? then w else w.(fence := w.fence + 1)
    case Advance(i, abort) => if i in w.holders then Statement(w, i, w.holders[i], abort) else w
  }

  function Run(w: World, events: seq<Event>): World
    decreases |events|
  {
    if events == [] then w else Run(Step(w, events[0]), events[1..])
  }

  // ------------------------------------------------------------------ the invariant

  /** An update under way. */
  predicate Updating(h: Holder) { h.stage == First || h.stage == Second || h.stage == Commit }

  predicate HolderOk(w: World, i: nat, h: Holder) {
    && (Updating(h) ==> 0 < h.epoch <= w.fence && w.credential.writer != h.epoch)
    && (h.stage == Writing || h.stage == Installing ==> h.epoch == w.fence + 1)
    && (h.stage in {Second, Commit, Installing} <==> w.credentialLock == Some(i))
    && (h.stage in {Commit, Writing, Installing} <==> w.accountLock == Some(i))
    && (h.stage == Commit ==> w.fence == h.epoch)
  }

  /** No two updates under way hold the same epoch. */
  ghost predicate Distinct(holders: map<nat, Holder>) {
    forall i, j :: i in holders && j in holders && Updating(holders[i]) && Updating(holders[j]) && i != j ==>
      holders[i].epoch != holders[j].epoch
  }

  ghost predicate Inv(w: World) {
    && (forall i :: i in w.holders ==> HolderOk(w, i, w.holders[i]))
    && Distinct(w.holders)
    && w.credential.writer <= w.fence
    && (w.accountLock.Some? ==> w.accountLock.value in w.holders)
    && (w.credentialLock.Some? ==> w.credentialLock.value in w.holders)
  }

  lemma StepKeepsInv(w: World, e: Event)
    requires Inv(w)
    ensures Inv(Step(w, e)) && w.fence <= Step(w, e).fence
  {
    if e.Advance? {
      hide Inv, Statement;
      if e.holder in w.holders { StatementKeeps(w, e.holder, e.abort); }
    }
  }

  lemma StatementKeeps(w: World, i: nat, abort: bool)
    requires Inv(w) && i in w.holders
    ensures var v := Statement(w, i, w.holders[i], abort); Inv(v) && w.fence <= v.fence
  {
    hide Inv;
    var h := w.holders[i];
    if abort && !h.stage.Over? {
      EndKeeps(w, i, w.fence, w.credential, false);
    } else if !Waits(w, i, h) {
      match h.stage
      case Commit => EndKeeps(w, i, w.fence, Credential(h.secret, w.credential.version + 1, h.epoch), true);
      case Installing => EndKeeps(w, i, h.epoch, Credential(h.secret, w.credential.version + 1, h.epoch), true);
      case Over(_) =>
      case _ => MoveKeeps(w, i);
    }
  }

  /** A transaction that ends gives its rows back; only a commit moves the fence or the credential. */
  lemma EndKeeps(w: World, i: nat, fence: nat, credential: Credential, ok: bool)
    requires Inv(w) && i in w.holders && Ends(w, w.holders[i], fence, credential)
    ensures w.fence <= fence && Inv(Finish(w.(fence := fence, credential := credential), i, w.holders[i], ok))
  {
    hide HolderOk, Ends;
    var v := Finish(w.(fence := fence, credential := credential), i, w.holders[i], ok);
    EndKeepsOne(w, i, fence, credential, ok, i);
    forall j | j in v.holders ensures HolderOk(v, j, v.holders[j]) {
      EndKeepsOne(w, i, fence, credential, ok, j);
    }
  }

  predicate Ends(w: World, h: Holder, fence: nat, credential: Credential) {
    || (fence == w.fence && credential == w.credential)
    || (h.stage == Commit && fence == w.fence && credential.writer == h.epoch)
    || (h.stage == Installing && fence == credential.writer == h.epoch)
  }

  lemma EndKeepsOne(w: World, i: nat, fence: nat, credential: Credential, ok: bool, j: nat)
    requires i in w.holders && j in w.holders && HolderOk(w, i, w.holders[i]) && HolderOk(w, j, w.holders[j])
    requires Distinct(w.holders) && w.credential.writer <= w.fence && Ends(w, w.holders[i], fence, credential)
    ensures var v := Finish(w.(fence := fence, credential := credential), i, w.holders[i], ok);
            HolderOk(v, j, v.holders[j]) && w.fence <= fence && credential.writer <= fence
  {}

  /** A statement that is not the last takes a row, or finds the fence moved and ends. */
  lemma MoveKeeps(w: World, i: nat)
    requires Inv(w) && i in w.holders
    requires var h := w.holders[i]; !Waits(w, i, h) && h.stage in {First, Second, Bumping, Writing}
    ensures var v := Statement(w, i, w.holders[i], false); Inv(v) && w.fence == v.fence
  {
    var h := w.holders[i];
    if (h.stage == First || h.stage == Second) && w.fence != h.epoch {
      EndKeeps(w, i, w.fence, w.credential, false);
    } else {
      TakeKeeps(w, i);
    }
  }

  lemma TakeKeeps(w: World, i: nat)
    requires Inv(w) && i in w.holders
    requires var h := w.holders[i];
             !Waits(w, i, h) && h.stage in {First, Second, Bumping, Writing} && (Updating(h) ==> w.fence == h.epoch)
    ensures var v := Statement(w, i, w.holders[i], false); Inv(v) && w.fence == v.fence
  {
    assert HolderOk(w, i, w.holders[i]);
  }

  lemma {:induction false} RunKeepsInv(w: World, events: seq<Event>)
    requires Inv(w)
    ensures Inv(Run(w, events)) && w.fence <= Run(w, events).fence
    decreases |events|
  {
    hide Inv, Step;
    if events != [] {
      StepKeepsInv(w, events[0]);
      RunKeepsInv(Step(w, events[0]), events[1..]);
    }
  }

  lemma ReachableInv(secret: string, events: seq<Event>)
    ensures Inv(Run(Start(secret), events))
  {
    RunKeepsInv(Start(secret), events);
  }

  // ------------------------------------------------------------------ what it is for

  /** The credential changes only at a commit: of an update whose epoch is the account's fence at that very instant, or of a
      re-import, which moves the fence to its own epoch with the same commit. Either way it gets that transaction's secret,
      the next version, and a later writer than before, which is the fence. */
  lemma WriteIsCurrent(secret: string, events: seq<Event>, e: Event)
    requires Step(Run(Start(secret), events), e).credential != Run(Start(secret), events).credential
    ensures var w := Run(Start(secret), events);
            var v := Step(w, e);
            && e.Advance? && e.holder in w.holders
            && var h := w.holders[e.holder];
            && ((h.stage == Commit && w.fence == h.epoch) || (h.stage == Installing && w.fence + 1 == h.epoch))
            && v.credential == Credential(h.secret, w.credential.version + 1, h.epoch)
            && w.credential.writer < h.epoch == v.fence
            && v.holders[e.holder].stage == Over(true)
  {
    ReachableInv(secret, events);
    hide Run;
    var w := Run(Start(secret), events);
    assert HolderOk(w, e.holder, w.holders[e.holder]);
  }

  /** An update the fence has moved past, and that is not waiting for its commit. */
  predicate Outpaced(w: World, i: nat) {
    i in w.holders && w.holders[i].epoch < w.fence
    && (w.holders[i].stage == First || w.holders[i].stage == Second || w.holders[i].stage == Over(false))
  }

  lemma OutpacedStays(w: World, e: Event, i: nat)
    requires Inv(w) && Outpaced(w, i)
    ensures Outpaced(Step(w, e), i)
  {
    if e.Advance? && e.holder in w.holders {
      assert HolderOk(w, e.holder, w.holders[e.holder]);
    }
  }

  /** It never gets its secret written, whatever happens. */
  lemma {:induction false} OutpacedNeverWrites(w: World, events: seq<Event>, i: nat)
    requires Inv(w) && Outpaced(w, i)
    ensures Outpaced(Run(w, events), i)
    decreases |events|
  {
    hide Inv, Step, Outpaced;
    if events != [] {
      StepKeepsInv(w, events[0]);
      OutpacedStays(w, events[0], i);
      OutpacedNeverWrites(Step(w, events[0]), events[1..], i);
    }
  }

  /** Writers only get later: a credential gives way to one of a later fence, never to one of an earlier. */
  lemma {:induction false} WritersGrow(w: World, events: seq<Event>)
    requires Inv(w)
    ensures var v := Run(w, events); v.credential == w.credential || w.credential.writer < v.credential.writer
    decreases |events|
  {
    hide Inv, Step;
    if events != [] {
      StepKeepsInv(w, events[0]);
      WriterGrows(w, events[0]);
      WritersGrow(Step(w, events[0]), events[1..]);
    }
  }

  lemma WriterGrows(w: World, e: Event)
    requires Inv(w)
    ensures var v := Step(w, e); v.credential == w.credential || w.credential.writer < v.credential.writer
  {
    if e.Advance? && e.holder in w.holders {
      assert HolderOk(w, e.holder, w.holders[e.holder]);
    }
  }

  /** What the fence is for: once a re-import commits, every update that acquired before is refused for good, and the
      imported credential stays until a transaction with a later fence replaces it. */
  lemma ImportIsNotOverwritten(secret: string, before: seq<Event>, j: nat, after: seq<Event>)
    requires var w := Run(Start(secret), before); j in w.holders && w.holders[j].stage == Installing
    ensures var w := Run(Start(secret), before);
            var imported := Step(w, Advance(j, false));
            var v := Run(imported, after);
            && imported.credential == Credential(w.holders[j].secret, w.credential.version + 1, imported.fence)
            && imported.fence == w.fence + 1
            && (v.credential == imported.credential || imported.fence < v.credential.writer)
            && forall i :: i in w.holders && Updating(w.holders[i]) ==> Outpaced(v, i)
  {
    ReachableInv(secret, before);
    hide Run;
    var w := Run(Start(secret), before);
    assert HolderOk(w, j, w.holders[j]);
    var imported := Step(w, Advance(j, false));
    StepKeepsInv(w, Advance(j, false));
    WritersGrow(imported, after);
    forall i | i in w.holders && Updating(w.holders[i]) ensures Outpaced(Run(imported, after), i) {
      assert HolderOk(w, i, w.holders[i]);
      OutpacedNeverWrites(imported, after, i);
    }
  }

  // ------------------------------------------------------------------ and it gets there

  /** With nobody in between a holder's update goes through and leaves no lock behind. */
  lemma UndisturbedUpdateSucceeds(w: World, i: nat, secret: string)
    requires i !in w.holders && w.accountLock == None && w.credentialLock == None
    ensures var next := Advance(i, false);
            var v := Step(Step(Step(Step(w, Acquire(i, secret)), next), next), next);
            && v.fence == w.fence + 1 && v.credential == Credential(secret, w.credential.version + 1, w.fence + 1)
            && v.holders == w.holders[i := Holder(w.fence + 1, secret, Over(true))]
            && v.accountLock == None && v.credentialLock == None
  {
    var next := Advance(i, false);
    var w1 := Step(w, Acquire(i, secret));
    var w2 := Step(w1, next);
    assert w2.holders == w.holders[i := Holder(w.fence + 1, secret, Second)] && w2.credentialLock == Some(i);
    var w3 := Step(w2, next);
    assert w3.holders == w.holders[i := Holder(w.fence + 1, secret, Commit)] && w3.accountLock == Some(i);
  }

  /** So does a re-import. */
  lemma UndisturbedImportSucceeds(w: World, i: nat, secret: string)
    requires i !in w.holders && w.accountLock == None && w.credentialLock == None
    ensures var next := Advance(i, false);
            var v := Step(Step(Step(Step(w, Reimport(i, secret)), next), next), next);
            && v.fence == w.fence + 1 && v.credential == Credential(secret, w.credential.version + 1, w.fence + 1)
            && v.holders == w.holders[i := Holder(w.fence + 1, secret, Over(true))]
            && v.accountLock == None && v.credentialLock == None
  {
    var next := Advance(i, false);
    var w1 := Step(w, Reimport(i, secret));
    var w2 := Step(w1, next);
    assert w2.holders == w.holders[i := Holder(w.fence + 1, secret, Writing)] && w2.accountLock == Some(i);
    var w3 := Step(w2, next);
    assert w3.holders == w.holders[i := Holder(w.fence + 1, secret, Installing)] && w3.credentialLock == Some(i);
  }

  /** Somebody is not done and everybody who is not done waits for a row. */
  ghost predicate Stuck(w: World) {
    && (exists i :: i in w.holders && !w.holders[i].stage.Over?)
    && forall i :: i in w.holders && !w.holders[i].stage.Over? ==> Waits(w, i, w.holders[i])
  }

  /** An update holds the credential and wants the account, a re-import the other way round. */
  ghost predicate Crossed(w: World) {
    exists i, j :: i in w.holders && j in w.holders && w.holders[i].stage == Second && w.holders[j].stage == Writing
  }

  /** The two transactions lock their rows in opposite orders. That is the only way they can all wait for each other, and
      whoever of the two is aborted, the other one goes on. */
  lemma StuckExactly(secret: string, events: seq<Event>)
    ensures var w := Run(Start(secret), events);
            && (Stuck(w) <==> Crossed(w))
            && forall i :: i in w.holders && w.holders[i].stage in {Second, Writing} ==> !Stuck(Step(w, Advance(i, true)))
  {
    ReachableInv(secret, events);
    hide Run;
    var w := Run(Start(secret), events);
    if Stuck(w) { var mover := SomeoneMoves(w); }
    if Crossed(w) { CrossedWait(w); }
    forall i | i in w.holders && w.holders[i].stage in {Second, Writing} ensures !Stuck(Step(w, Advance(i, true))) {
      AbortFrees(w, i);
    }
  }

  /** Somebody who does not wait, unless two have crossed. */
  lemma SomeoneMoves(w: World) returns (j: nat)
    requires Inv(w) && exists i :: i in w.holders && !w.holders[i].stage.Over?
    ensures Crossed(w) || (j in w.holders && !w.holders[j].stage.Over? && !Waits(w, j, w.holders[j]))
  {
    j :| j in w.holders && !w.holders[j].stage.Over?;
    assert HolderOk(w, j, w.holders[j]);
    if Waits(w, j, w.holders[j]) && w.accountLock.Some? {
      j := w.accountLock.value;
      assert HolderOk(w, j, w.holders[j]);
    }
    if Waits(w, j, w.holders[j]) {
      var k := w.credentialLock.value;
      assert HolderOk(w, k, w.holders[k]);
      if w.accountLock.None? { j := k; }
    }
  }

  lemma CrossedWait(w: World)
    requires Inv(w) && Crossed(w)
    ensures Stuck(w)
  {
    var i, j :| i in w.holders && j in w.holders && w.holders[i].stage == Second && w.holders[j].stage == Writing;
    assert HolderOk(w, i, w.holders[i]) && HolderOk(w, j, w.holders[j]);
    forall k | k in w.holders && !w.holders[k].stage.Over? ensures Waits(w, k, w.holders[k]) {
      assert HolderOk(w, k, w.holders[k]);
    }
  }

  lemma AbortFrees(w: World, i: nat)
    requires Inv(w) && i in w.holders && w.holders[i].stage in {Second, Writing}
    ensures !Stuck(Step(w, Advance(i, true)))
  {
    var v := Step(w, Advance(i, true));
    StepKeepsInv(w, Advance(i, true));
    assert HolderOk(w, i, w.holders[i]);
    OneLockFree(v);
    if k :| k in v.holders && !v.holders[k].stage.Over? {
      var mover := SomeoneMoves(v);
    }
  }

  lemma OneLockFree(w: World)
    requires Inv(w) && (w.accountLock == None || w.credentialLock == None)
    ensures !Crossed(w)
  {
    forall i | i in w.holders ensures HolderOk(w, i, w.holders[i]) {}
  }

  /** The second statement is needed: the fence may move between the two, and then the update fails although its
      first statement went through. */
  lemma FenceMovesInBetween(secret: string, rotated: string)
    ensures var w := Run(Start(secret), [Acquire(0, rotated), Advance(0, false), Bump, Advance(0, false)]);
            0 in w.holders && w.holders[0].stage == Over(false) && w.credential == Start(secret).credential && w.credentialLock == None
  {
    var events := [Acquire(0, rotated), Advance(0, false), Bump, Advance(0, false)];
    RunFour(Start(secret), events);
  }

  /** An update and a re-import do meet like that. */
  lemma LocksCross(secret: string, rotated: string, imported: string)
    ensures Crossed(Run(Start(secret), [Acquire(0, rotated), Reimport(1, imported), Advance(0, false), Advance(1, false)]))
  {
    var events := [Acquire(0, rotated), Reimport(1, imported), Advance(0, false), Advance(1, false)];
    RunFour(Start(secret), events);
    var w := Run(Start(secret), events);
    assert w.holders[0].stage == Second && w.holders[1].stage == Writing;
  }

  lemma RunFour(w: World, e: seq<Event>)
    requires |e| == 4
    ensures Run(w, e) == Step(Step(Step(Step(w, e[0]), e[1]), e[2]), e[3])
  {
    hide Step;
    assert e[1..][1..] == e[2..] && e[2..][1..] == e[3..] && e[3..][1..] == [];
    var w1 := Step(w, e[0]);
    var w2 := Step(w1, e[1]);
    var w3 := Step(w2, e[2]);
    assert Run(w1, e[1..]) == Run(w2, e[2..]);
    assert Run(w2, e[2..]) == Run(w3, e[3..]);
    assert Run(w3, e[3..]) == Run(Step(w3, e[3]), []);
  }

  /** Both statements of an update test the fence: one that meets no lock takes its row if the holder's epoch is the account's
      fence, and otherwise ends the update at once, giving back what it holds. */
  lemma FenceIsTested(w: World, i: nat)
    requires i in w.holders && (w.holders[i].stage == First || w.holders[i].stage == Second)
    ensures var h := w.holders[i];
            var v := Step(w, Advance(i, false));
            var lock := if h.stage == First then w.credentialLock else w.accountLock;
            if lock != None && lock != Some(i) then v == w
            else if h.epoch != w.fence then
              && v.holders == w.holders[i := Holder(h.epoch, h.secret, Over(false))]
              && v.fence == w.fence && v.credential == w.credential
              && v.accountLock == (if w.accountLock == Some(i) then None else w.accountLock)
              && v.credentialLock == (if w.credentialLock == Some(i) then None else w.credentialLock)
            else if h.stage == First then v == w.(credentialLock := Some(i), holders := w.holders[i := Holder(h.epoch, h.secret, Second)])
            else v == w.(accountLock := Some(i), holders := w.holders[i := Holder(h.epoch, h.secret, Commit)])
  {}
}
