/** What every reachable state of the user service satisfies. */
module AccountInvariants {
  import opened Common
  import opened Accounts
  import opened AccountRuns
  import Outbox

  // ---------------------------------------------------------------- reading the history

  /** Upgrades, successful resets and deletions of an account. */
  function Bumps(tr: seq<Event>, id: Id): nat {
    if tr == [] then 0
    else
      var e := tr[|tr| - 1];
      Bumps(tr[..|tr| - 1], id) + if e == Upgraded(id) || (e.ResetDone? && e.id == id) || e == Deleted(id) then 1 else 0
  }

  function Count(tr: seq<Event>, e: Event): nat {
    if tr == [] then 0 else Count(tr[..|tr| - 1], e) + if tr[|tr| - 1] == e then 1 else 0
  }

  /** The reset token an account is still waiting for, and when it was issued. */
  function Outstanding(tr: seq<Event>, id: Id): Option<(string, nat)> {
    if tr == [] then None
    else
      var e := tr[|tr| - 1];
      if e.ResetIssued? && e.id == id then Some((e.token, e.at))
      else if (e.ResetDone? && e.id == id) || e == Deleted(id) then None
      else Outstanding(tr[..|tr| - 1], id)
  }

  /** An account's row agrees with what has happened to it. */
  ghost predicate Chronicle(tr: seq<Event>, id: Id, u: User) {
    && u.tokenVersion == Bumps(tr, id)
    && Count(tr, Deleted(id)) == (if Live(u) then 0 else 1)
    && Count(tr, Upgraded(id)) <= (if u.accountType.Registered? then 1 else 0)
    && (match Outstanding(tr, id)
        case None => u.resetToken.None? && u.resetExpiry.None?
        case Some(p) => u.resetToken == Some(Sha256(p.0)) && u.resetExpiry == Some(p.1 + RESET_TTL_MS))
  }

  ghost predicate NoHistory(tr: seq<Event>, id: Id) {
    Bumps(tr, id) == 0 && Count(tr, Deleted(id)) == 0 && Count(tr, Upgraded(id)) == 0 && Outstanding(tr, id).None?
  }

  // ---------------------------------------------------------------- the invariant

  ghost predicate TablesInv(w: World) {
    && UsersOk(w.t.users)
    && DevicesOwned(w.t)
    && w.t.users.Keys <= w.used
    && (forall id :: id in w.t.users && w.t.users[id].resetToken.Some? ==>
        w.t.users[id].resetToken.value.token in w.issued)
  }

  /** A purge found this row deleted before its cutoff. */
  predicate Doomed(users: Users, id: Id, cutoff: int) {
    id in users ==> users[id].deletedAt.Some? && users[id].deletedAt.value < cutoff
  }

  ghost predicate Started(tr: seq<Event>, cutoff: int) {
    exists i :: 0 <= i < |tr| && tr[i].PurgeStarted? && tr[i].at - GRACE_MS == cutoff
  }

  ghost predicate PurgeInv(w: World) {
    && (forall id :: id in w.victims ==>
        id in w.used && Doomed(w.t.users, id, w.victims[id]) && Started(w.trace, w.victims[id]))
    && (forall id :: id in w.stripped ==>
        id in w.used && Doomed(w.t.users, id, w.stripped[id]) && Started(w.trace, w.stripped[id]))
    && (forall id, fp :: id in w.stripped && fp in w.t.devices ==> w.t.devices[fp].userId != id)
  }

  predicate IsDeletedEvent(row: Outbox.Row, id: Id) {
    Outbox.Staged(row.target, row.pattern, row.payload) == DeletedEvent(id)
  }

  ghost predicate EventsInv(w: World) {
    && Outbox.Inv(w.ob)
    && (forall id :: DeletedKey(id) in w.ob.rows ==> id in w.used && IsDeletedEvent(w.ob.rows[DeletedKey(id)], id))
    && (forall id :: id in w.t.users ==> (!Live(w.t.users[id]) <==> DeletedKey(id) in w.ob.rows))
  }

  ghost predicate HistoryInv(w: World) {
    && (forall id :: id in w.t.users ==> Chronicle(w.trace, id, w.t.users[id]))
    && (forall id :: id !in w.used ==> NoHistory(w.trace, id))
    && (forall id :: id in w.unwiped ==> id in w.used && Reported(w.t.users, id, w.unwiped[id]))
  }

  /** `tv` was the version of a registered account. */
  predicate Reported(users: Users, id: Id, tv: nat) {
    id in users ==> users[id].accountType.Registered? && tv <= users[id].tokenVersion
  }

  ghost predicate Inv(w: World) {
    TablesInv(w) && PurgeInv(w) && EventsInv(w) && HistoryInv(w)
  }

  // ---------------------------------------------------------------- preservation

  lemma StepKeepsRows(w: World, a: Action)
    requires Enabled(w, a) && TablesInv(w) && PurgeInv(w)
    ensures UsersOk(NextTables(w, a).users) && DevicesOwned(NextTables(w, a))
  {
    match a
    case Autoreg(fp, platform, ipHash, newId, at) => AutoregKeeps(w.t, fp, platform, ipHash, newId, at);
    case Upgrade(id, p, salt, at, pick) => UpgradeKeeps(w.t, id, p, salt, at, pick);
    case OAuth(p, newId, at, byLink, byEmail) => OAuthKeeps(w.t, p, newId, at, byLink, byEmail);
    case Forgot(email, token, at, pick) => ForgotKeeps(w.t, email, token, at, pick);
    case Reset(token, hash, at, pick) => ResetKeeps(w.t, token, hash, at, pick);
    case Update(id, c) => UpdateKeeps(w.t, id, c);
    case Delete(id, at) => DeleteKeeps(w.t, id, at);
    case PurgeUser(id) => RemoveKeepsUsersOk(w.t.users, id);
    case _ =>
  }

  /** A reset token in a row was issued. */
  lemma StepIssued(w: World, a: Action, id: Id)
    requires Enabled(w, a) && TablesInv(w)
    requires id in NextTables(w, a).users && NextTables(w, a).users[id].resetToken.Some?
    ensures NextTables(w, a).users[id].resetToken.value.token in Next(w, a).issued
  {
    StepRow(w, a, id);
  }

  lemma StepKeepsTables(w: World, a: Action)
    requires Enabled(w, a) && TablesInv(w) && PurgeInv(w)
    ensures TablesInv(Next(w, a))
  {
    StepKeepsRows(w, a);
    var w' := Next(w, a);
    forall id | id in w'.t.users && w'.t.users[id].resetToken.Some?
      ensures w'.t.users[id].resetToken.value.token in w'.issued
    {
      StepIssued(w, a, id);
    }
  }

  /** A step never gives an existing account a new device. */
  lemma StepDevice(w: World, a: Action, fp: Fingerprint)
    requires Enabled(w, a) && w.t.users.Keys <= w.used && fp in NextTables(w, a).devices
    ensures var d := NextTables(w, a).devices[fp];
            (fp in w.t.devices && d.userId == w.t.devices[fp].userId)
            || (a.Autoreg? && a.fp == fp && d.userId == a.newId && EventOf(w, a) == Created(a.newId)
                && a.newId !in w.used)
  {
  }

  /** Deleted rows stay as they are: the step keeps `Doomed`. */
  lemma StepKeepsDoomed(w: World, a: Action, id: Id, cutoff: int)
    requires Enabled(w, a) && w.t.users.Keys <= w.used && id in w.used && Doomed(w.t.users, id, cutoff)
    ensures Doomed(NextTables(w, a).users, id, cutoff)
  {
    if id in NextTables(w, a).users { StepRow(w, a, id); }
  }

  lemma StepKeepsStarted(w: World, a: Action, cutoff: int)
    requires Enabled(w, a)
    ensures Started(w.trace, cutoff) ==> Started(w.trace + [EventOf(w, a)], cutoff)
    ensures EventOf(w, a).PurgeStarted? && EventOf(w, a).at - GRACE_MS == cutoff ==>
              Started(w.trace + [EventOf(w, a)], cutoff)
  {
    var tr := w.trace + [EventOf(w, a)];
    assert tr[|w.trace|] == EventOf(w, a);
    if Started(w.trace, cutoff) {
      var i :| 0 <= i < |w.trace| && w.trace[i].PurgeStarted? && w.trace[i].at - GRACE_MS == cutoff;
      assert tr[i] == w.trace[i];
    }
  }

  lemma StepStripped(w: World, a: Action, id: Id)
    requires Enabled(w, a) && TablesInv(w) && PurgeInv(w) && id in NextStripped(w, a)
    ensures id in w.used && Doomed(NextTables(w, a).users, id, NextStripped(w, a)[id])
    ensures Started(w.trace, NextStripped(w, a)[id])
  {
    StepKeepsDoomed(w, a, id, NextStripped(w, a)[id]);
  }

  lemma StepStrippedDevice(w: World, a: Action, id: Id, fp: Fingerprint)
    requires Enabled(w, a) && TablesInv(w) && PurgeInv(w)
    requires id in NextStripped(w, a) && fp in NextTables(w, a).devices
    ensures NextTables(w, a).devices[fp].userId != id
  {
    StepDevice(w, a, fp);
  }

  lemma StepKeepsPurge(w: World, a: Action)
    requires Enabled(w, a) && TablesInv(w) && PurgeInv(w)
    ensures PurgeInv(Next(w, a))
  {
    var w' := Next(w, a);
    forall id | id in w'.victims
      ensures id in w'.used && Doomed(w'.t.users, id, w'.victims[id]) && Started(w'.trace, w'.victims[id])
    {
      StepVictim(w, a, id);
      StepKeepsStarted(w, a, w'.victims[id]);
    }
    forall id | id in w'.stripped
      ensures id in w'.used && Doomed(w'.t.users, id, w'.stripped[id]) && Started(w'.trace, w'.stripped[id])
    {
      StepStripped(w, a, id);
      StepKeepsStarted(w, a, w'.stripped[id]);
    }
    forall id, fp | id in w'.stripped && fp in w'.t.devices ensures w'.t.devices[fp].userId != id {
      StepStrippedDevice(w, a, id, fp);
    }
  }

  lemma StepVictim(w: World, a: Action, id: Id)
    requires Enabled(w, a) && TablesInv(w) && PurgeInv(w) && id in NextVictims(w, a)
    ensures id in w.used && Doomed(NextTables(w, a).users, id, NextVictims(w, a)[id])
    ensures Started(w.trace, NextVictims(w, a)[id]) || EventOf(w, a) == PurgeStarted(NextVictims(w, a)[id] + GRACE_MS)
  {
    if a.PurgeFind? && id in Expired(w.t.users, a.at) {
    } else {
      StepKeepsDoomed(w, a, id, w.victims[id]);
    }
  }

  lemma DeletedKeyInjective(a: Id, b: Id)
    requires DeletedKey(a) == DeletedKey(b)
    ensures a == b
  {
    assert DeletedKey(a)[|KEY_PREFIX|..] == a;
    assert DeletedKey(b)[|KEY_PREFIX|..] == b;
  }

  lemma StepKeepsEvents(w: World, a: Action)
    requires Enabled(w, a) && TablesInv(w) && EventsInv(w)
    ensures EventsInv(Next(w, a))
  {
    var w' := Next(w, a);
    if a.Dispatch? {
      Outbox.StepKeepsInv(w.ob, a.step);
      Outbox.DispatchKeepsMessages(w.ob, a.step);
    } else if a.Delete? && FindById(w.t, a.id).Ok? {
      Outbox.StepKeepsInv(w.ob, Outbox.Stage(DeletedKey(a.id), DeletedEvent(a.id), a.at));
    }
    forall id | DeletedKey(id) in w'.ob.rows ensures id in w'.used && IsDeletedEvent(w'.ob.rows[DeletedKey(id)], id) {
      if a.Delete? && DeletedKey(id) == DeletedKey(a.id) { DeletedKeyInjective(id, a.id); }
    }
    forall id | id in w'.t.users ensures !Live(w'.t.users[id]) <==> DeletedKey(id) in w'.ob.rows {
      StepRow(w, a, id);
      StepLiveness(w, a, id);
      if a.Delete? && DeletedKey(id) == DeletedKey(a.id) { DeletedKeyInjective(id, a.id); }
    }
  }

  lemma StepLiveness(w: World, a: Action, id: Id)
    requires Enabled(w, a) && w.t.users.Keys <= w.used && id in NextTables(w, a).users
    ensures EventOf(w, a) == Deleted(id) <==> a.Delete? && a.id == id && FindById(w.t, id).Ok?
    ensures !Live(NextTables(w, a).users[id])
            <==> (id in w.t.users && !Live(w.t.users[id])) || EventOf(w, a) == Deleted(id)
  {
    StepRow(w, a, id);
  }

  lemma SnocHistory(tr: seq<Event>, e: Event, id: Id)
    ensures Bumps(tr + [e], id)
            == Bumps(tr, id) + if e == Upgraded(id) || (e.ResetDone? && e.id == id) || e == Deleted(id) then 1 else 0
    ensures forall x :: Count(tr + [e], x) == Count(tr, x) + if e == x then 1 else 0
    ensures Outstanding(tr + [e], id) == (if e.ResetIssued? && e.id == id then Some((e.token, e.at))
                                          else if (e.ResetDone? && e.id == id) || e == Deleted(id) then None
                                          else Outstanding(tr, id))
  {
  }

  lemma RowKeepsChronicle(tr: seq<Event>, e: Event, users: Users, used: set<Id>, users': Users, id: Id)
    requires id in users' && RowStep(users, used, e, users', id)
    requires id in users ==> Chronicle(tr, id, users[id])
    requires id !in used ==> NoHistory(tr, id)
    ensures Chronicle(tr + [e], id, users'[id])
  {
  }

  /** No event is about an account that does not exist yet, except its creation. */
  lemma StepSubject(w: World, a: Action, id: Id)
    requires Enabled(w, a) && w.t.users.Keys <= w.used && id !in w.used
    ensures var e := EventOf(w, a);
            e != Upgraded(id) && e != Deleted(id) && !(e.ResetDone? && e.id == id) && !(e.ResetIssued? && e.id == id)
  {
  }

  lemma StepKeepsHistory(w: World, a: Action)
    requires Enabled(w, a) && TablesInv(w) && HistoryInv(w)
    ensures HistoryInv(Next(w, a))
  {
    var w' := Next(w, a);
    var e := EventOf(w, a);
    forall id | id in w'.t.users ensures Chronicle(w'.trace, id, w'.t.users[id]) {
      StepRow(w, a, id);
      RowKeepsChronicle(w.trace, e, w.t.users, w.used, w'.t.users, id);
    }
    forall id | id !in w'.used ensures NoHistory(w'.trace, id) {
      StepSubject(w, a, id);
      SnocHistory(w.trace, e, id);
    }
    forall id | id in w'.unwiped ensures id in w'.used && Reported(w'.t.users, id, w'.unwiped[id]) {
      StepUnwiped(w, a, id);
    }
  }

  lemma StepUnwiped(w: World, a: Action, id: Id)
    requires Enabled(w, a) && w.t.users.Keys <= w.used && id in NextUnwiped(w, a)
    requires forall i :: i in w.unwiped ==> i in w.used && Reported(w.t.users, i, w.unwiped[i])
    ensures id in w.used && Reported(NextTables(w, a).users, id, NextUnwiped(w, a)[id])
  {
    if id in NextTables(w, a).users { StepRow(w, a, id); }
  }

  lemma StepKeepsInv(w: World, a: Action)
    requires Enabled(w, a) && Inv(w)
    ensures Inv(Next(w, a))
  {
    StepKeepsTables(w, a);
    StepKeepsPurge(w, a);
    StepKeepsEvents(w, a);
    StepKeepsHistory(w, a);
  }

  lemma {:induction false} RunKeepsInv(w: World, acts: seq<Action>, w': World)
    requires Inv(w) && Run(w, acts, w')
    ensures Inv(w')
    decreases |acts|
  {
    if acts != [] {
      StepKeepsInv(w, acts[0]);
      RunKeepsInv(Next(w, acts[0]), acts[1..], w');
    }
  }

  lemma ReachableInv(w: World)
    requires Reachable(w)
    ensures Inv(w)
  {
    var w0, acts :| Init(w0) && Run(w0, acts, w);
    RunKeepsInv(w0, acts, w);
  }
}
