/**
 * Runs of the user service, its outbox and the purge task, interleaved step by
 * step, with the history of what happened to every account.
 */
module AccountRuns {
  import opened Common
  import opened Accounts
  import Outbox

  const GRACE_MS := 30 * 24 * 60 * 60 * 1000

  datatype Event =
    | Created(id: Id)
    | Upgraded(id: Id)
    | ResetIssued(id: Id, token: string, at: nat)
    | ResetDone(id: Id, token: string, at: nat)
    | Deleted(id: Id)
    | PurgeStarted(at: nat)
    | PurgeBegun(id: Id)
    | Purged(id: Id)
    | FingerprintBlocked(fp: Fingerprint)
    | Quiet

  /**
   * `unwiped`: upgrades whose device wipe is still to come, with the version
   * they will report. `victims`: accounts a purge run has found and not yet
   * treated; `stripped`: those whose devices it has removed; both with the
   * cutoff of that run. `used`, `issued` and `trace` are history.
   */
  datatype World = World(
    t: Tables,
    ob: Outbox.State,
    unwiped: map<Id, nat>,
    victims: map<Id, int>,
    stripped: map<Id, int>,
    used: set<Id>,
    issued: set<string>,
    trace: seq<Event>)

  datatype Action =
    | Autoreg(fp: Fingerprint, platform: Option<Platform>, ipHash: Option<string>, newId: Id, at: nat)
    | AutoregAborted(fp: Fingerprint)  // the stale device row went, then the process died
    | Upgrade(id: Id, payload: UpgradePayload, salt: nat, at: nat, pick: Option<Id>)
    | Wipe(id: Id)
    | OAuth(oauth: OAuthPayload, newId: Id, at: nat, byLink: Option<Id>, byEmail: Option<Id>)
    | Forgot(email: string, token: string, at: nat, pick: Option<Id>)
    | Reset(token: string, hash: PasswordHash, at: nat, pick: Option<Id>)
    | Update(id: Id, change: ProfileChange)
    | Delete(id: Id, at: nat)
    | Block(fp: Fingerprint, reason: Option<string>)  // the admin tool
    | PurgeFind(at: nat)
    | PurgeDevices(id: Id)
    | PurgeUser(id: Id)
    | Dispatch(step: Outbox.Action)

  predicate Init(w: World) {
    && w.t == Tables(map[], map[]) && w.ob == Outbox.EMPTY
    && w.unwiped == map[] && w.victims == map[] && w.stripped == map[]
    && w.issued == {} && w.trace == [] && "" !in w.used
  }

  ghost predicate Enabled(w: World, a: Action) {
    match a
    case Autoreg(_, _, _, newId, _) => newId != "" && newId !in w.used
    case AutoregAborted(fp) => fp in w.t.devices && !w.t.devices[fp].isBlocked && !Resolves(w.t, fp)
    case Upgrade(_, p, _, _, pick) => UpgradeAnswer(w.t.users, p, pick)
    case Wipe(id) => id in w.unwiped
    case OAuth(p, newId, _, byLink, byEmail) =>
      newId != "" && newId !in w.used && OAuthAnswers(w.t.users, p, byLink, byEmail)
    case Forgot(email, token, _, pick) => token !in w.issued && EmailAnswer(w.t.users, email, true, pick)
    case Reset(token, _, _, pick) => ResetAnswer(w.t.users, token, pick)
    case Block(fp, _) => fp in w.t.devices
    case PurgeDevices(id) => id in w.victims
    case PurgeUser(id) => id in w.stripped
    case Dispatch(step) => !step.Stage? && Outbox.Enabled(w.ob, step)
    case _ => true
  }

  const KEY_PREFIX := "user.deleted:"

  function DeletedKey(id: Id): Outbox.Key { KEY_PREFIX + id }

  function DeletedEvent(id: Id): Outbox.Staged {
    Outbox.Staged("user", "user.deleted", map["userId" := id])
  }

  ghost function NextTables(w: World, a: Action): Tables
    requires Enabled(w, a)
  {
    match a
    case Autoreg(fp, platform, ipHash, newId, at) => CreateAutoregUser(w.t, fp, platform, ipHash, newId, at).0
    case AutoregAborted(fp) => w.t.(devices := w.t.devices - {fp})
    case Upgrade(id, p, salt, at, pick) => UpgradeAccount(w.t, id, p, salt, at, pick).0
    case Wipe(id) => WipeDevices(w.t, id)
    case OAuth(p, newId, at, byLink, byEmail) => FindOrCreateOAuthUser(w.t, p, newId, at, byLink, byEmail).0
    case Forgot(email, token, at, pick) => ForgotPassword(w.t, email, token, at, pick)
    case Reset(token, hash, at, pick) => ResetPassword(w.t, token, hash, at, pick).0
    case Update(id, c) => UpdateUser(w.t, id, c).0
    case Delete(id, at) => DeleteUser(w.t, id, at).0
    case Block(fp, reason) =>
      w.t.(devices := w.t.devices[fp := w.t.devices[fp].(isBlocked := true, blockedReason := reason)])
    case PurgeDevices(id) => WipeDevices(w.t, id)
    case PurgeUser(id) => w.t.(users := w.t.users - {id})
    case _ => w.t
  }

  ghost function EventOf(w: World, a: Action): Event
    requires Enabled(w, a)
  {
    match a
    case Autoreg(fp, platform, ipHash, newId, at) =>
      if newId in NextTables(w, a).users && newId !in w.t.users then Created(newId) else Quiet
    case OAuth(_, newId, _, _, _) =>
      if newId in NextTables(w, a).users && newId !in w.t.users then Created(newId) else Quiet
    case Upgrade(id, p, salt, at, pick) =>
      if UpgradeAccount(w.t, id, p, salt, at, pick).1.Ok? then Upgraded(id) else Quiet
    case Forgot(_, token, at, pick) => if pick.Some? then ResetIssued(pick.value, token, at) else Quiet
    case Reset(token, hash, at, pick) =>
      if ResetPassword(w.t, token, hash, at, pick).1.Ok? then ResetDone(pick.value, token, at) else Quiet
    case Delete(id, at) => if DeleteUser(w.t, id, at).1.Ok? then Deleted(id) else Quiet
    case Block(fp, _) => FingerprintBlocked(fp)
    case PurgeFind(at) => PurgeStarted(at)
    case PurgeDevices(id) => PurgeBegun(id)
    case PurgeUser(id) => Purged(id)
    case _ => Quiet
  }

  /** The rows a purge run started at `at` finds. */
  function Expired(users: Users, at: nat): map<Id, int> {
    map id | id in users && users[id].deletedAt.Some? && users[id].deletedAt.value < at - GRACE_MS :: at - GRACE_MS
  }

  ghost function NextOutbox(w: World, a: Action): Outbox.State
    requires Enabled(w, a)
  {
    match a
    case Delete(id, at) =>
      if FindById(w.t, id).Ok? then Outbox.StageNext(w.ob, DeletedKey(id), DeletedEvent(id), at) else w.ob
    case Dispatch(step) => Outbox.Next(w.ob, step)
    case _ => w.ob
  }

  ghost function NextUnwiped(w: World, a: Action): map<Id, nat>
    requires Enabled(w, a)
  {
    match a
    case Upgrade(id, p, salt, at, pick) =>
      var r := UpgradeAccount(w.t, id, p, salt, at, pick).1;
      if r.Ok? then w.unwiped[id := r.value.tokenVersion] else w.unwiped
    case Wipe(id) => w.unwiped - {id}
    case _ => w.unwiped
  }

  ghost function NextVictims(w: World, a: Action): map<Id, int>
    requires Enabled(w, a)
  {
    match a
    case PurgeFind(at) => w.victims + Expired(w.t.users, at)
    case PurgeDevices(id) => w.victims - {id}
    case _ => w.victims
  }

  ghost function NextStripped(w: World, a: Action): map<Id, int>
    requires Enabled(w, a)
  {
    match a
    case PurgeDevices(id) => w.stripped[id := w.victims[id]]
    case PurgeUser(id) => w.stripped - {id}
    case _ => w.stripped
  }

  ghost function Next(w: World, a: Action): World
    requires Enabled(w, a)
  {
    World(NextTables(w, a), NextOutbox(w, a), NextUnwiped(w, a), NextVictims(w, a), NextStripped(w, a),
          w.used + NextTables(w, a).users.Keys,
          if a.Forgot? then w.issued + {a.token} else w.issued,
          w.trace + [EventOf(w, a)])
  }

  ghost predicate Run(w: World, acts: seq<Action>, w': World)
    decreases |acts|
  {
    if acts == [] then w' == w
    else Enabled(w, acts[0]) && Run(Next(w, acts[0]), acts[1..], w')
  }

  ghost predicate Reachable(w: World) {
    exists w0, acts :: Init(w0) && Run(w0, acts, w)
  }

  lemma {:induction false} RunSnoc(w: World, acts: seq<Action>, m: World, a: Action)
    requires Run(w, acts, m) && Enabled(m, a)
    ensures Run(w, acts + [a], Next(m, a))
    decreases |acts|
  {
    if acts == [] {
      assert ([] + [a])[1..] == [];
      assert Run(Next(m, a), [], Next(m, a));
    } else {
      RunSnoc(Next(w, acts[0]), acts[1..], m, a);
      assert (acts + [a])[1..] == acts[1..] + [a];
    }
  }

  lemma ReachableByStep(w: World, a: Action)
    requires Reachable(w) && Enabled(w, a)
    ensures Reachable(Next(w, a))
  {
    var w0, acts :| Init(w0) && Run(w0, acts, w);
    RunSnoc(w0, acts, w, a);
  }

  // ---------------------------------------------------------------- one row, one step

  /** What one step does to one account that exists afterwards. */
  ghost predicate RowStep(users: Users, used: set<Id>, e: Event, users': Users, id: Id)
    requires id in users'
  {
    var u' := users'[id];
    if id !in users then
      e == Created(id) && id !in used && Live(u') && u'.tokenVersion == 0 && u'.resetToken.None? && u'.resetExpiry.None?
    else
      var u := users[id];
      if e == Upgraded(id) then
        && Live(u) && u.accountType.Autoreg? && u'.accountType.Registered?
        && u'.tokenVersion == u.tokenVersion + 1
        && (u'.resetToken, u'.resetExpiry, u'.deletedAt) == (u.resetToken, u.resetExpiry, u.deletedAt)
      else if e.ResetIssued? && e.id == id then
        Live(u) && u' == u.(resetToken := Some(Sha256(e.token)), resetExpiry := Some(e.at + RESET_TTL_MS))
      else if e.ResetDone? && e.id == id then
        && Live(u) && u.resetToken == Some(Sha256(e.token)) && u.resetExpiry.Some? && e.at <= u.resetExpiry.value
        && u'.passwordHash.Some?
        && u' == u.(passwordHash := u'.passwordHash, resetToken := None, resetExpiry := None,
            tokenVersion := u.tokenVersion + 1)
      else if e == Deleted(id) then
        && Live(u) && u'.deletedAt.Some?
        && u' == u.(deletedAt := u'.deletedAt, email := None, passwordHash := None, resetToken := None,
            resetExpiry := None,
                    tokenVersion := u.tokenVersion + 1)
      else
        && u' == u.(links := u'.links, profile := u'.profile)
        && (u' != u ==> Live(u) && e.Quiet?)
  }

  lemma UpgradeEffect(t: Tables, id: Id, p: UpgradePayload, salt: nat, now: nat, pick: Option<Id>)
    ensures var (t', r) := UpgradeAccount(t, id, p, salt, now, pick);
            && t'.devices == t.devices
            && (r.Err? ==> t' == t)
            && (r.Ok? ==>
                  && id in t.users && id in t'.users && t'.users == t.users[id := t'.users[id]]
                  && RowStep(t.users, {}, Upgraded(id), t'.users, id)
                  && r.value == Session(id, Registered, t'.users[id].tokenVersion))
  {
  }

  /** An upgrade reports the version its row has after it, and no other report changes. */
  lemma UpgradeIsReported(w: World, a: Action)
    requires a.Upgrade? && Enabled(w, a)
    ensures EventOf(w, a) == Upgraded(a.id) ==>
              && a.id in NextTables(w, a).users
              && NextUnwiped(w, a) == w.unwiped[a.id := NextTables(w, a).users[a.id].tokenVersion]
    ensures EventOf(w, a) != Upgraded(a.id) ==> NextUnwiped(w, a) == w.unwiped && NextTables(w, a) == w.t
  {
    UpgradeEffect(w.t, a.id, a.payload, a.salt, a.at, a.pick);
  }

  lemma UpgradeRow(w: World, a: Action, id: Id)
    requires a.Upgrade? && Enabled(w, a) && id in NextTables(w, a).users && w.t.users.Keys <= w.used
    ensures RowStep(w.t.users, w.used, EventOf(w, a), NextTables(w, a).users, id)
  {
    UpgradeEffect(w.t, a.id, a.payload, a.salt, a.at, a.pick);
  }

  lemma OAuthRow(w: World, a: Action, id: Id)
    requires a.OAuth? && Enabled(w, a) && id in NextTables(w, a).users && w.t.users.Keys <= w.used
    ensures RowStep(w.t.users, w.used, EventOf(w, a), NextTables(w, a).users, id)
  {
  }

  lemma SessionlessRow(w: World, a: Action, id: Id)
    requires a.Forgot? || a.Reset? || a.Update? || a.Delete?
    requires Enabled(w, a) && id in NextTables(w, a).users && w.t.users.Keys <= w.used
    ensures RowStep(w.t.users, w.used, EventOf(w, a), NextTables(w, a).users, id)
  {
  }

  lemma StepRow(w: World, a: Action, id: Id)
    requires Enabled(w, a) && id in NextTables(w, a).users && w.t.users.Keys <= w.used
    ensures RowStep(w.t.users, w.used, EventOf(w, a), NextTables(w, a).users, id)
  {
    if a.Upgrade? { UpgradeRow(w, a, id); }
    else if a.OAuth? { OAuthRow(w, a, id); }
    else if a.Forgot? || a.Reset? || a.Update? || a.Delete? { SessionlessRow(w, a, id); }
  }

  lemma StepRemoves(w: World, a: Action, id: Id)
    requires Enabled(w, a) && id in w.t.users && id !in NextTables(w, a).users
    ensures a == PurgeUser(id) && EventOf(w, a) == Purged(id)
  {
  }
}
