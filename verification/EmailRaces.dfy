/**
 * Handlers that claim an e-mail address, split between their reads and their
 * flush and interleaved arbitrarily: what the unique index makes of the race.
 */
module EmailRaces {
  import opened Common
  import opened Accounts

  /** What a handler has in memory when it reaches its flush. */
  datatype Pending =
    | Update(id: Id, loaded: User, changed: User)  // an upgrade of the row it loaded
    | Create(id: Id, row: User)                    // a new account of an OAuth sign-in

  datatype Answer =
    | Won(id: Id, email: Option<string>)
    | Lost(email: Option<string>)  // 409 EMAIL_EXISTS
    | Vanished(id: Id)             // the row was purged meanwhile: the update matched nothing

  datatype State = State(users: Users, pending: map<nat, Pending>, answers: map<nat, Answer>)

  datatype Action =
    | UpgradeReads(pid: nat, id: Id, p: UpgradePayload, salt: nat, at: nat, pick: Option<Id>)
    | OAuthReads(pid: nat, oauth: OAuthPayload, newId: Id, at: nat, byLink: Option<Id>, byEmail: Option<Id>)
    | Flush(pid: nat)
    | Others(users: Users)  // every handler that claims no address: it may only release some, and its ids are fresh

  /** The update the ORM sends: the fields that differ from the loaded row, applied to the row of now. */
  function Patch(row: User, loaded: User, changed: User): User {
    User(
      if changed.accountType != loaded.accountType then changed.accountType else row.accountType,
      if changed.email != loaded.email then changed.email else row.email,
      if changed.passwordHash != loaded.passwordHash then changed.passwordHash else row.passwordHash,
      if changed.links != loaded.links then changed.links else row.links,
      if changed.tokenVersion != loaded.tokenVersion then changed.tokenVersion else row.tokenVersion,
      if changed.resetToken != loaded.resetToken then changed.resetToken else row.resetToken,
      if changed.resetExpiry != loaded.resetExpiry then changed.resetExpiry else row.resetExpiry,
      if changed.upgradedAt != loaded.upgradedAt then changed.upgradedAt else row.upgradedAt,
      if changed.deletedAt != loaded.deletedAt then changed.deletedAt else row.deletedAt,
      if changed.profile != loaded.profile then changed.profile else row.profile)
  }

  /** The row a flush would leave, if it gets past the index. */
  function Written(users: Users, p: Pending): User
    requires p.Update? ==> p.id in users
  {
    match p
    case Update(id, loaded, changed) => Patch(users[id], loaded, changed)
    case Create(_, row) => row
  }

  ghost predicate Enabled(s: State, a: Action) {
    match a
    case UpgradeReads(pid, _, p, _, _, pick) =>
      pid !in s.pending && pid !in s.answers && UpgradeAnswer(s.users, p, pick)
    case OAuthReads(pid, p, newId, _, byLink, byEmail) =>
      && pid !in s.pending && pid !in s.answers && newId !in s.users && OAuthAnswers(s.users, p, byLink, byEmail)
      && (forall q :: q in s.pending ==> s.pending[q].id != newId)
    case Flush(pid) => pid in s.pending && pid !in s.answers
    case Others(users) =>
      && (forall id :: id in users && users[id].email.Some? ==> id in s.users && users[id].email == s.users[id].email)
      && (forall q :: q in s.pending && s.pending[q].id !in s.users ==> s.pending[q].id !in users)
  }

  function FlushNext(s: State, pid: nat): State
    requires pid in s.pending
  {
    var p := s.pending[pid];
    var rest := s.pending - {pid};
    if p.Update? && p.id !in s.users then State(s.users, rest, s.answers[pid := Vanished(p.id)])
    else
      var row := Written(s.users, p);
      if EmailTaken(s.users, p.id, row.email) then State(s.users, rest, s.answers[pid := Lost(row.email)])
      else State(s.users[p.id := row], rest, s.answers[pid := Won(p.id, row.email)])
  }

  ghost function Next(s: State, a: Action): State
    requires Enabled(s, a)
  {
    match a
    case UpgradeReads(pid, id, p, salt, at, pick) =>
      var built := BuildUpgrade(s.users, id, p, salt, at, pick);
      if built.Ok? then s.(pending := s.pending[pid := Update(id, s.users[id], built.value)])
      else if built.error.EmailExists? then s.(answers := s.answers[pid := Lost(p.email)])
      else s
    case OAuthReads(pid, p, newId, at, byLink, byEmail) =>
      if byLink.Some? || (Mergeable(p) && byEmail.Some?) then s
      else s.(pending := s.pending[pid := Create(newId, OAuthUser(p.identity, p.email, p.name, at))])
    case Flush(pid) => FlushNext(s, pid)
    case Others(users) => s.(users := users)
  }

  ghost predicate Run(s: State, acts: seq<Action>, t: State)
    decreases |acts|
  {
    if acts == [] then t == s
    else Enabled(s, acts[0]) && Run(Next(s, acts[0]), acts[1..], t)
  }

  // ---------------------------------------------------------------- what holds

  lemma StepKeepsEmailsUnique(s: State, a: Action)
    requires Enabled(s, a) && EmailsUnique(s.users)
    ensures EmailsUnique(Next(s, a).users)
  {
  }

  /** No interleaving gives two rows the same address. */
  lemma {:induction false} RacesKeepEmailsUnique(s: State, acts: seq<Action>, t: State)
    requires EmailsUnique(s.users) && Run(s, acts, t)
    ensures EmailsUnique(t.users)
    decreases |acts|
  {
    if acts != [] {
      StepKeepsEmailsUnique(s, acts[0]);
      RacesKeepEmailsUnique(Next(s, acts[0]), acts[1..], t);
    }
  }

  /** Split at the flush and undisturbed, an upgrade does what the atomic handler does. */
  lemma UndisturbedUpgrade(s: State, pid: nat, id: Id, p: UpgradePayload, salt: nat, at: nat, pick: Option<Id>)
    requires Enabled(s, UpgradeReads(pid, id, p, salt, at, pick)) && BuildUpgrade(s.users, id, p, salt, at, pick).Ok?
    ensures var m := Next(s, UpgradeReads(pid, id, p, salt, at, pick));
            var t := Tables(s.users, map[]);
            && Enabled(m, Flush(pid))
            && Next(m, Flush(pid)).users == UpgradeAccount(t, id, p, salt, at, pick).0.users
            && (Next(m, Flush(pid)).answers[pid].Won? <==> UpgradeAccount(t, id, p, salt, at, pick).1.Ok?)
  {
  }

  /** The same for a sign-up; a sign-in that answers with an account that is there claims nothing. */
  lemma UndisturbedSignUp(s: State, pid: nat, p: OAuthPayload, newId: Id, at: nat, byLink: Option<Id>,
                          byEmail: Option<Id>)
    requires Enabled(s, OAuthReads(pid, p, newId, at, byLink, byEmail))
    ensures var m := Next(s, OAuthReads(pid, p, newId, at, byLink, byEmail));
            var (t', r) := FindOrCreateOAuthUser(Tables(s.users, map[]), p, newId, at, byLink, byEmail);
            && (pid in m.pending ==>
                  && Enabled(m, Flush(pid)) && Next(m, Flush(pid)).users == t'.users
                  && (Next(m, Flush(pid)).answers[pid].Won? <==> r.Ok?))
            && (pid !in m.pending ==> m == s && r.Ok? && r.value.id in s.users)
  {
  }

  /** Who is refused changes nothing, and is refused because another row holds the address. */
  lemma LoserChangesNothing(s: State, a: Action, pid: nat)
    requires Enabled(s, a) && pid !in s.answers && pid in Next(s, a).answers && Next(s, a).answers[pid].Lost?
    ensures Next(s, a).users == s.users
    ensures exists other :: other in s.users && s.users[other].email.Some? && s.users[other].email == Next(s,
            a).answers[pid].email
  {
  }

  ghost predicate Held(users: Users, email: string) {
    exists id :: id in users && users[id].email == Some(email)
  }

  /** This step takes the address away from a row that held it. */
  ghost predicate Releases(s: State, a: Action, email: string)
    requires Enabled(s, a)
  {
    exists id ::
      && id in s.users && s.users[id].email == Some(email)
      && (id in Next(s, a).users ==> Next(s, a).users[id].email != Some(email))
  }

  ghost predicate Keeps(s: State, acts: seq<Action>, email: string)
    decreases |acts|
  {
    acts != [] ==> Enabled(s, acts[0]) && !Releases(s, acts[0], email) && Keeps(Next(s, acts[0]), acts[1..], email)
  }

  ghost predicate WinnersHold(s: State, email: string) {
    forall pid :: pid in s.answers && s.answers[pid].Won? && s.answers[pid].email == Some(email) ==>
      s.answers[pid].id in s.users && s.users[s.answers[pid].id].email == Some(email)
  }

  ghost predicate LosersLostToSomeone(s: State, email: string) {
    forall pid :: pid in s.answers && s.answers[pid].Lost? && s.answers[pid].email == Some(email) ==>
        Held(s.users, email)
  }

  ghost predicate HoldersWon(s: State, email: string) {
    forall id :: id in s.users && s.users[id].email == Some(email) ==>
        exists pid :: pid in s.answers && s.answers[pid] == Won(id, Some(email))
  }

  /** The answers given about one address agree with who holds it. */
  ghost predicate Settled(s: State, email: string) {
    EmailsUnique(s.users) && WinnersHold(s, email) && LosersLostToSomeone(s, email) && HoldersWon(s, email)
  }

  lemma HolderStays(s: State, a: Action, email: string)
    requires Enabled(s, a) && !Releases(s, a, email) && Held(s.users, email)
    ensures Held(Next(s, a).users, email)
  {
  }

  lemma FlushHolders(s: State, pid: nat, email: string)
    requires Enabled(s, Flush(pid)) && HoldersWon(s, email)
    ensures HoldersWon(FlushNext(s, pid), email)
  {
    var t := FlushNext(s, pid);
    forall id | id in t.users && t.users[id].email == Some(email)
      ensures exists q :: q in t.answers && t.answers[q] == Won(id, Some(email))
    {
      if id in s.users && s.users[id].email == Some(email) {
        var q :| q in s.answers && s.answers[q] == Won(id, Some(email));
        assert t.answers[q] == s.answers[q];
      } else {
        assert t.answers[pid] == Won(id, Some(email));
      }
    }
  }

  lemma FlushWinners(s: State, pid: nat, email: string)
    requires Enabled(s, Flush(pid)) && WinnersHold(s, email) && !Releases(s, Flush(pid), email)
    ensures WinnersHold(FlushNext(s, pid), email)
  {
  }

  lemma FlushLosers(s: State, pid: nat, email: string)
    requires Enabled(s, Flush(pid)) && LosersLostToSomeone(s, email) && !Releases(s, Flush(pid), email)
    ensures LosersLostToSomeone(FlushNext(s, pid), email)
  {
    if Held(s.users, email) { HolderStays(s, Flush(pid), email); }
  }

  lemma FlushKeepsSettled(s: State, pid: nat, email: string)
    requires Enabled(s, Flush(pid)) && Settled(s, email) && !Releases(s, Flush(pid), email)
    ensures Settled(FlushNext(s, pid), email)
  {
    StepKeepsEmailsUnique(s, Flush(pid));
    FlushHolders(s, pid, email);
    FlushWinners(s, pid, email);
    FlushLosers(s, pid, email);
  }

  lemma ReadKeepsSettled(s: State, a: Action, email: string)
    requires Enabled(s, a) && (a.UpgradeReads? || a.OAuthReads?) && Settled(s, email)
    ensures Settled(Next(s, a), email)
  {
    var t := Next(s, a);
    assert forall q :: q in s.answers ==> q in t.answers && t.answers[q] == s.answers[q];
    forall id | id in t.users && t.users[id].email == Some(email)
      ensures exists q :: q in t.answers && t.answers[q] == Won(id, Some(email))
    {
      var q :| q in s.answers && s.answers[q] == Won(id, Some(email));
      assert t.answers[q] == s.answers[q];
    }
  }

  lemma OthersKeepSettled(s: State, users: Users, email: string)
    requires Enabled(s, Others(users)) && Settled(s, email) && !Releases(s, Others(users), email)
    ensures Settled(s.(users := users), email)
  {
    if Held(s.users, email) { HolderStays(s, Others(users), email); }
  }

  lemma {:induction false} RunKeepsSettled(s: State, acts: seq<Action>, t: State, email: string)
    requires Settled(s, email) && Run(s, acts, t) && Keeps(s, acts, email)
    ensures Settled(t, email)
    decreases |acts|
  {
    if acts != [] {
      match acts[0] {
        case Flush(pid) => FlushKeepsSettled(s, pid, email);
        case Others(users) => OthersKeepSettled(s, users, email);
        case _ => ReadKeepsSettled(s, acts[0], email);
      }
      RunKeepsSettled(Next(s, acts[0]), acts[1..], t, email);
    }
  }

  /**
   * A contested address has exactly one winner. Start with nobody holding it and
   * let any number of handlers race, with no account giving the address up: as
   * soon as one of them has been answered, one account holds the address, every
   * success names that account, and every other contender was told EMAIL_EXISTS.
   */
  lemma ContestedEmailHasOneWinner(s: State, acts: seq<Action>, t: State, email: string, pid: nat)
    requires EmailsUnique(s.users) && s.answers == map[] && !Held(s.users, email)
    requires Run(s, acts, t) && Keeps(s, acts, email)
    requires pid in t.answers && !t.answers[pid].Vanished? && t.answers[pid].email == Some(email)
    ensures exists winner ::
              && winner in t.users && t.users[winner].email == Some(email)
              && (forall q :: q in t.answers && t.answers[q].Won? && t.answers[q].email == Some(email) ==>
                  t.answers[q].id == winner)
              && (exists q :: q in t.answers && t.answers[q] == Won(winner, Some(email)))
  {
    RunKeepsSettled(s, acts, t, email);
    assert Held(t.users, email);
    var winner :| winner in t.users && t.users[winner].email == Some(email);
    forall q | q in t.answers && t.answers[q].Won? && t.answers[q].email == Some(email)
      ensures t.answers[q].id == winner {
      assert t.users[t.answers[q].id].email == t.users[winner].email;
    }
  }

  /** A flush writes the fields the handler changed, and keeps what others have written to the rest in the meantime. */
  lemma PatchIsFieldwise(row: User, loaded: User, changed: User)
    ensures var w := Patch(row, loaded, changed);
            && (changed == loaded ==> w == row) && (row == loaded ==> w == changed)
            && w.email == (if changed.email == loaded.email then row.email else changed.email)
            && w.profile == (if changed.profile == loaded.profile then row.profile else changed.profile)
            && w.links == (if changed.links == loaded.links then row.links else changed.links)
            && w.passwordHash
               == (if changed.passwordHash == loaded.passwordHash then row.passwordHash else changed.passwordHash)
            && w.tokenVersion
               == (if changed.tokenVersion == loaded.tokenVersion then row.tokenVersion else changed.tokenVersion)
            && w.accountType
               == (if changed.accountType == loaded.accountType then row.accountType else changed.accountType)
            && w.upgradedAt == (if changed.upgradedAt == loaded.upgradedAt then row.upgradedAt else changed.upgradedAt)
            && (changed.resetToken == loaded.resetToken ==> w.resetToken == row.resetToken)
            && (changed.resetExpiry == loaded.resetExpiry ==> w.resetExpiry == row.resetExpiry)
            && w.deletedAt == (if changed.deletedAt == loaded.deletedAt then row.deletedAt else changed.deletedAt)
  {
  }

  // ---------------------------------------------------------------- late flushes

  /** What a handler has in memory: an upgrade of a row it saw live and anonymous, or a row of a fresh id. */
  predicate BuiltOk(users: Users, p: Pending) {
    match p
    case Update(id, loaded, changed) =>
      && Live(loaded) && loaded.accountType.Autoreg?
      && changed.accountType.Registered? && changed.deletedAt == loaded.deletedAt
    case Create(id, row) => id !in users
  }

  ghost predicate PendingOk(s: State) {
    && (forall pid :: pid in s.pending ==> BuiltOk(s.users, s.pending[pid]))
    && (forall p, q :: p in s.pending && q in s.pending && p != q && s.pending[p].Create? ==>
        s.pending[q].id != s.pending[p].id)
  }

  lemma FlushKeepsPendingOk(s: State, pid: nat)
    requires Enabled(s, Flush(pid)) && PendingOk(s)
    ensures PendingOk(FlushNext(s, pid))
  {
  }

  lemma UpgradeKeepsPendingOk(s: State, a: Action)
    requires a.UpgradeReads? && Enabled(s, a) && PendingOk(s)
    ensures PendingOk(Next(s, a))
  {
  }

  lemma StepKeepsPendingOk(s: State, a: Action)
    requires Enabled(s, a) && PendingOk(s)
    ensures PendingOk(Next(s, a))
  {
    if a.Flush? { FlushKeepsPendingOk(s, a.pid); } else if a.UpgradeReads? { UpgradeKeepsPendingOk(s, a); }
  }

  lemma {:induction false} RunKeepsPendingOk(s: State, acts: seq<Action>, t: State)
    requires PendingOk(s) && Run(s, acts, t)
    ensures PendingOk(t)
    decreases |acts|
  {
    if acts != [] {
      StepKeepsPendingOk(s, acts[0]);
      RunKeepsPendingOk(Next(s, acts[0]), acts[1..], t);
    }
  }

  /**
   * This flush is a late one: an update, loaded while the account was live, of a
   * row deleted since, that meets a free address.
   */
  predicate LateFlush(s: State, pid: nat, id: Id)
    requires pid in s.pending
  {
    var p := s.pending[pid];
    && p.Update? && p.id == id && Live(p.loaded)
    && id in s.users && !Live(s.users[id])
    && !EmailTaken(s.users, id, Written(s.users, p).email)
  }

  /**
   * Deletion is final for a flush exactly unless it is a late one whose update is
   * not yet in the row; a row deleted while anonymous is changed by every late
   * flush. Even then it stays deleted.
   */
  lemma FlushChangesDeletedIff(s0: State, acts: seq<Action>, s: State, pid: nat, id: Id)
    requires s0.pending == map[] && Run(s0, acts, s) && Enabled(s, Flush(pid))
    requires id in s.users && !Live(s.users[id])
    ensures var users' := FlushNext(s, pid).users;
            && id in users' && users'[id].deletedAt == s.users[id].deletedAt
            && (users'[id] != s.users[id] <==> LateFlush(s, pid, id) && Written(s.users, s.pending[pid]) != s.users[id])
            && (s.users[id].accountType.Autoreg? ==> (users'[id] != s.users[id] <==> LateFlush(s, pid, id)))
  {
    RunKeepsPendingOk(s0, acts, s);
    assert BuiltOk(s.users, s.pending[pid]);
  }

  /**
   * What the index does not protect: an upgrade that loaded its row before the
   * account was deleted, and flushes after, puts the address back on the deleted
   * row. Deletion is final only for handlers that do not overlap.
   */
  lemma LateFlushReattachesAddress(s: State, pid: nat, email: string)
    requires pid in s.pending && pid !in s.answers && s.pending[pid].Update? && s.pending[pid].id in s.users
    requires !Live(s.users[s.pending[pid].id]) && Live(s.pending[pid].loaded) && Live(s.pending[pid].changed)
    requires s.pending[pid].changed.email == Some(email) && s.pending[pid].loaded.email != Some(email)
             && !Held(s.users, email)
    ensures var t := FlushNext(s, pid);
            var id := s.pending[pid].id;
            id in t.users && !Live(t.users[id]) && t.users[id].email == Some(email)
                && t.answers[pid] == Won(id, Some(email))
  {
  }

  /** The run that does it: the upgrade reads, the account is deleted, the upgrade flushes. */
  lemma LateFlushArises(s: State, pid: nat, id: Id, p: UpgradePayload, salt: nat, at: nat, deletedAt: nat)
    requires UsersOk(s.users) && pid !in s.pending && pid !in s.answers
    requires p.via.None? && UpgradeAnswer(s.users, p, None) && BuildUpgrade(s.users, id, p, salt, at, None).Ok?
    ensures var deleted := DeleteUser(Tables(s.users, map[]), id, deletedAt).0.users;
            exists t :: Run(s, [UpgradeReads(pid, id, p, salt, at, None), Others(deleted), Flush(pid)], t)
                        && id in t.users && t.users[id].deletedAt == Some(deletedAt) && t.users[id].email == p.email
                        && pid in t.answers && t.answers[pid] == Won(id, p.email)
  {
    var deleted := DeleteUser(Tables(s.users, map[]), id, deletedAt).0.users;
    var m := Next(s, UpgradeReads(pid, id, p, salt, at, None));
    var n := Next(m, Others(deleted));
    assert UserOk(s.users[id]);
    LateFlushReattachesAddress(n, pid, p.email.value);
    RunOfThree(s, UpgradeReads(pid, id, p, salt, at, None), m, Others(deleted), n, Flush(pid), Next(n, Flush(pid)));
  }

  lemma RunOfThree(s0: State, a0: Action, s1: State, a1: Action, s2: State, a2: Action, s3: State)
    requires Enabled(s0, a0) && s1 == Next(s0, a0) && Enabled(s1, a1) && s2 == Next(s1, a1) && Enabled(s2, a2)
             && s3 == Next(s2, a2)
    ensures Run(s0, [a0, a1, a2], s3)
  {
    assert Run(s3, [], s3);
    assert [a2][1..] == [];
    assert Run(s2, [a2], s3);
    assert [a1, a2][1..] == [a2];
    assert Run(s1, [a1, a2], s3);
    assert [a0, a1, a2][1..] == [a1, a2];
  }
}
