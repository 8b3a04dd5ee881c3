/**
 * What each handler answers and leaves, case by case: every refusal with its exact
 * condition, and every field of what it writes.
 */
module HandlerOutcomes {
  import opened Common
  import opened Accounts
  import AR = AccountRuns
  import Outbox

  /** Some row, deleted or not, other than `id` has this address. */
  predicate HeldByAnother(users: Users, id: Id, email: string) {
    exists other :: other in users && other != id && users[other].email == Some(email)
  }

  predicate LiveHolder(users: Users, identity: Identity, id: Id) {
    id in users && Live(users[id]) && Holds(users[id], identity)
  }

  predicate LiveAddress(users: Users, email: string, id: Id) {
    id in users && Live(users[id]) && users[id].email == Some(email)
  }

  // ---------------------------------------------------------------- autoreg

  /** An unblocked device that resolves to no anonymous account gets a new one, with the defaults. */
  lemma AutoregCreates(t: Tables, fp: Fingerprint, platform: Option<Platform>, ipHash: Option<string>,
                       newId: Id, now: nat)
    requires newId !in t.users && !Resolves(t, fp) && !(fp in t.devices && t.devices[fp].isBlocked)
    ensures var (t', r) := CreateAutoregUser(t, fp, platform, ipHash, newId, now);
            && r == Ok(Session(newId, AccountType.Autoreg, 0))
            && t'.users.Keys == t.users.Keys + {newId} && t'.devices.Keys == t.devices.Keys + {fp}
            && (forall id :: id in t.users ==> t'.users[id] == t.users[id])
            && (forall f :: f in t.devices && f != fp ==> t'.devices[f] == t.devices[f])
            && t'.users[newId] == User(AccountType.Autoreg, None, None, [], 0, None, None, None, None,
                                       Profile(None, "UTC", Ru, None, false))
            && t'.devices[fp] == Device(if platform == Some(Ios) then Ios else Android, newId, now, ipHash, false, None)
  {
    var t' := CreateAutoregUser(t, fp, platform, ipHash, newId, now).0;
    assert t'.users.Keys == t.users.Keys + {newId};
    assert t'.devices.Keys == t.devices.Keys + {fp};
    if platform.Some? { assert platform.value.Android? || platform.value.Ios?; }
  }

  /** A device that resolves is only marked as seen; its address hash is replaced by a non-empty new one. */
  lemma AutoregTouches(t: Tables, fp: Fingerprint, platform: Option<Platform>, ipHash: Option<string>,
                       newId: Id, now: nat)
    requires Resolves(t, fp) && !t.devices[fp].isBlocked
    ensures var (t', r) := CreateAutoregUser(t, fp, platform, ipHash, newId, now);
            var d, d' := t.devices[fp], t'.devices[fp];
            && r == Ok(Session(d.userId, AccountType.Autoreg, t.users[d.userId].tokenVersion))
            && t'.users == t.users && t'.devices == t.devices[fp := d']
            && d' == d.(lastSeenAt := now, lastIpHash := d'.lastIpHash)
            && (ipHash == None || ipHash == Some("") ==> d'.lastIpHash == d.lastIpHash)
            && (ipHash.Some? && ipHash.value != "" ==> d'.lastIpHash == ipHash)
  {
  }

  /** An autoreg that dies half way has dropped the stale device and no more; trying again ends as it would have. */
  lemma AbortedAutoreg(w: AR.World, fp: Fingerprint, platform: Option<Platform>, ipHash: Option<string>,
                       newId: Id, now: nat)
    requires AR.Enabled(w, AR.AutoregAborted(fp))
    ensures var t := AR.NextTables(w, AR.AutoregAborted(fp));
            && t.users == w.t.users && t.devices == w.t.devices - {fp}
            && CreateAutoregUser(t, fp, platform, ipHash, newId, now)
               == CreateAutoregUser(w.t, fp, platform, ipHash, newId, now)
  {
    var t := AR.NextTables(w, AR.AutoregAborted(fp));
    var d := CreateAutoregUser(w.t, fp, platform, ipHash, newId, now).0.devices[fp];
    assert t.devices[fp := d] == w.t.devices[fp := d];
  }

  // ---------------------------------------------------------------- login

  /** A login succeeds exactly with the live account's address and password, and gives its id, type and version. */
  lemma LoginIff(t: Tables, email: string, password: string, pick: Option<Id>)
    requires UsersOk(t.users) && EmailAnswer(t.users, email, true, pick)
    ensures var r := Login(t, email, password, pick);
            && (r.Ok? <==> exists id, salt :: LiveAddress(t.users, email, id)
                                              && t.users[id].passwordHash == Some(Argon2(password, salt)))
            && (r.Err? ==> r.error == TokenInvalid)
            && (r.Ok? ==> LiveAddress(t.users, email, r.value.id)
                          && r.value.accountType == t.users[r.value.id].accountType
                          && r.value.tokenVersion == t.users[r.value.id].tokenVersion)
  {
    if pick.Some? && t.users[pick.value].passwordHash.Some? {
      var h := t.users[pick.value].passwordHash.value;
      assert t.users[pick.value].passwordHash == Some(Argon2(h.password, h.salt));
    }
  }

  // ---------------------------------------------------------------- upgrade

  /** The address an upgrade would leave on the account. */
  function NewAddress(user: User, p: UpgradePayload): Option<string> {
    if p.via.None? || p.email.Some? then p.email else user.email
  }

  predicate Upgradable(users: Users, id: Id) {
    id in users && Live(users[id]) && users[id].accountType.Autoreg?
  }

  predicate Sufficient(p: UpgradePayload) {
    if p.via.None? then Truthy(p.email) && Truthy(p.password) else Truthy(p.providerUserId)
  }

  /** Every refusal of an upgrade has exactly its own reason, and changes nothing. */
  lemma UpgradeRefusals(t: Tables, id: Id, p: UpgradePayload, salt: nat, now: nat, pick: Option<Id>)
    requires UsersOk(t.users) && UpgradeAnswer(t.users, p, pick)
    ensures var (t', r) := UpgradeAccount(t, id, p, salt, now, pick);
            && (r == Err(NotFound) <==> !(id in t.users && Live(t.users[id])))
            && (r == Err(AlreadyUpgraded) <==>
                  id in t.users && Live(t.users[id]) && t.users[id].accountType == Registered)
            && (r.Err? && r.error.BadRequest? <==> Upgradable(t.users, id) && !Sufficient(p))
            && (r.Err? && r.error.OAuthCollision? ==> p.via.Some? && Upgradable(t.users, id) && Sufficient(p))
            && (r == Err(EmailExists) <==>
                  && Upgradable(t.users, id) && Sufficient(p) && !(r.Err? && r.error.OAuthCollision?)
                  && NewAddress(t.users[id], p).Some? && HeldByAnother(t.users, id, NewAddress(t.users[id], p).value))
            && (r.Err? ==> t' == t && r.error != TokenInvalid && !r.error.DeviceBlocked?)
  {
  }

  /** What a successful upgrade leaves on the account, field by field; nothing else changes before the wipe. */
  lemma UpgradeLeaves(t: Tables, id: Id, p: UpgradePayload, salt: nat, now: nat, pick: Option<Id>)
    requires UpgradeAccount(t, id, p, salt, now, pick).1.Ok?
    ensures var (t', r) := UpgradeAccount(t, id, p, salt, now, pick);
            && id in t.users && t'.devices == t.devices && t'.users.Keys == t.users.Keys
            && (forall other :: other in t.users && other != id ==> t'.users[other] == t.users[other])
            && (var u, u' := t.users[id], t'.users[id];
                && r.value == Session(id, Registered, u.tokenVersion + 1)
                && u'.accountType == Registered && u'.tokenVersion == u.tokenVersion + 1
                && u'.upgradedAt == Some(now) && u'.deletedAt == u.deletedAt
                && (u'.resetToken, u'.resetExpiry) == (u.resetToken, u.resetExpiry)
                && u'.email == NewAddress(u, p)
                && u'.profile == u.profile.(name := u'.profile.name)
                && u'.profile.name == (if p.name.Some? && p.name.value != "" then p.name else u.profile.name)
                && (p.via.None? ==> u'.links == u.links && u'.passwordHash == Some(Argon2(p.password.value, salt)))
                && (p.via.Some? ==>
                      && u'.passwordHash == u.passwordHash && p.providerUserId.Some?
                      && u'.links == u.links + [Link(Identity(p.via.value, p.providerUserId.value), p.email, now)]))
  {
  }

  // ---------------------------------------------------------------- OAuth sign-in

  /** An identity some live account holds signs in to that account and changes nothing. */
  lemma OAuthReturns(t: Tables, p: OAuthPayload, newId: Id, now: nat, byLink: Option<Id>, byEmail: Option<Id>, id: Id)
    requires UsersOk(t.users) && OAuthAnswers(t.users, p, byLink, byEmail) && LiveHolder(t.users, p.identity, id)
    ensures FindOrCreateOAuthUser(t, p, newId, now, byLink, byEmail)
            == (t, Ok(Session(id, t.users[id].accountType, t.users[id].tokenVersion)))
  {
    assert byLink == Some(id);
  }

  /** Otherwise, a vouched address some live account has signs in to that account, and links the identity to it. */
  lemma OAuthMerges(t: Tables, p: OAuthPayload, newId: Id, now: nat, byLink: Option<Id>, byEmail: Option<Id>, id: Id)
    requires UsersOk(t.users) && OAuthAnswers(t.users, p, byLink, byEmail)
    requires forall other :: !LiveHolder(t.users, p.identity, other)
    requires p.emailVerified && p.email.Some? && p.email.value != "" && LiveAddress(t.users, p.email.value, id)
    ensures var u := t.users[id];
            FindOrCreateOAuthUser(t, p, newId, now, byLink, byEmail)
            == (t.(users := t.users[id := u.(links := u.links + [Link(p.identity, p.email, now)])]),
                Ok(Session(id, u.accountType, u.tokenVersion)))
  {
    if byLink.Some? { assert LiveHolder(t.users, p.identity, byLink.value); }
    assert byEmail == Some(id);
  }

  /** Otherwise an account is created, with the address, vouched for or not, unless some row has that address. */
  lemma OAuthCreates(t: Tables, p: OAuthPayload, newId: Id, now: nat, byLink: Option<Id>, byEmail: Option<Id>)
    requires UsersOk(t.users) && OAuthAnswers(t.users, p, byLink, byEmail) && newId !in t.users
    requires forall other :: !LiveHolder(t.users, p.identity, other)
    requires Mergeable(p) ==> forall other :: !LiveAddress(t.users, p.email.value, other)
    ensures var created := User(Registered, p.email, None, [Link(p.identity, p.email, now)], 0, None, None, None, None,
                                Profile(p.name, "UTC", Ru, None, false));
            FindOrCreateOAuthUser(t, p, newId, now, byLink, byEmail)
            == if p.email.Some? && HeldByAnother(t.users, newId, p.email.value) then (t, Err(EmailExists))
               else (t.(users := t.users[newId := created]), Ok(Session(newId, Registered, 0)))
  {
    if byLink.Some? { assert LiveHolder(t.users, p.identity, byLink.value); }
    if Mergeable(p) && byEmail.Some? { assert LiveAddress(t.users, p.email.value, byEmail.value); }
  }

  // ---------------------------------------------------------------- password reset

  /** A forgotten password puts a token, good for an hour, on the live account with the address, and no more. */
  lemma ForgotLeaves(t: Tables, email: string, token: string, now: nat, pick: Option<Id>)
    requires UsersOk(t.users) && EmailAnswer(t.users, email, true, pick)
    ensures forall id :: LiveAddress(t.users, email, id) ==>
              ForgotPassword(t, email, token, now, pick)
              == t.(users := t.users[id := t.users[id].(resetToken := Some(Sha256(token)),
                                                        resetExpiry := Some(now + 3_600_000))])
    ensures (forall id :: !LiveAddress(t.users, email, id)) ==> ForgotPassword(t, email, token, now, pick) == t
  {
    if pick.Some? { assert LiveAddress(t.users, email, pick.value); }
    forall id | LiveAddress(t.users, email, id) ensures pick == Some(id) {}
  }

  /** A refused reset changes nothing; a successful one writes the new hash, spends the token and bumps the version. */
  lemma ResetLeaves(t: Tables, token: string, hash: PasswordHash, now: nat, pick: Option<Id>)
    requires UsersOk(t.users) && ResetAnswer(t.users, token, pick)
    ensures var (t', r) := ResetPassword(t, token, hash, now, pick);
            && (r.Err? ==> r.error == TokenInvalid && t' == t)
            && (r.Ok? ==>
                  && pick.Some? && t.users[pick.value].resetToken == Some(Sha256(token))
                  && t.users[pick.value].resetExpiry.Some? && now <= t.users[pick.value].resetExpiry.value
                  && (var u := t.users[pick.value];
                      t' == t.(users := t.users[pick.value := u.(passwordHash := Some(hash), resetToken := None,
                                                                 resetExpiry := None,
                                                                 tokenVersion := u.tokenVersion + 1)])))
  {
  }

  // ---------------------------------------------------------------- profile and deletion

  /** An update gives every field that is present its value, an explicit null included, and keeps every other. */
  lemma UpdateSets(t: Tables, id: Id, c: ProfileChange)
    requires id in t.users && Live(t.users[id])
    ensures var (t', r) := UpdateUser(t, id, c);
            && id in t'.users && r == Ok(t'.users[id])
            && (var p, p' := t.users[id].profile, t'.users[id].profile;
                && (forall x :: c.name == Some(x) ==> p'.name == x) && (c.name.None? ==> p'.name == p.name)
                && (forall x :: c.tz == Some(x) ==> p'.tz == x) && (c.tz.None? ==> p'.tz == p.tz)
                && (forall x :: c.locale == Some(x) ==> p'.locale == x) && (c.locale.None? ==> p'.locale == p.locale)
                && (forall x :: c.avatarUrl == Some(x) ==> p'.avatarUrl == x)
                && (c.avatarUrl.None? ==> p'.avatarUrl == p.avatarUrl)
                && (forall x :: c.onboardingCompleted == Some(x) ==> p'.onboardingCompleted == x)
                && (c.onboardingCompleted.None? ==> p'.onboardingCompleted == p.onboardingCompleted))
  {
  }

  /** Deleting succeeds exactly on live accounts, and stamps the row with the time the purge goes by. */
  lemma DeleteLeaves(t: Tables, id: Id, now: nat)
    ensures var (t', r) := DeleteUser(t, id, now);
            && (r.Ok? <==> id in t.users && Live(t.users[id]))
            && (r.Err? ==> r.error == NotFound && t' == t)
            && (r.Ok? ==>
                  && t'.devices == t.devices && t'.users.Keys == t.users.Keys
                  && (forall other :: other in t.users && other != id ==> t'.users[other] == t.users[other])
                  && t'.users[id].deletedAt == Some(now) && t'.users[id].tokenVersion == t.users[id].tokenVersion + 1
                  && (t'.users[id].accountType, t'.users[id].upgradedAt)
                     == (t.users[id].accountType, t.users[id].upgradedAt))
  {
  }

  /** The event of a deletion, written out. */
  lemma DeletionEventIs(id: Id)
    ensures AR.DeletedKey(id) == "user.deleted:" + id
    ensures AR.DeletedEvent(id) == Outbox.Staged("user", "user.deleted", map["userId" := id])
  {
  }

  /** A purge started at `at` finds exactly the accounts deleted more than 30 days, 2,592,000,000 ms, before. */
  lemma ExpiredIff(users: Users, at: nat, id: Id)
    ensures id in AR.Expired(users, at)
            <==> id in users && users[id].deletedAt.Some? && at - users[id].deletedAt.value > 2_592_000_000
  {
  }

  /** An account is found by id exactly while it is live. */
  lemma FoundIff(t: Tables, id: Id)
    ensures FindById(t, id) == if id in t.users && t.users[id].deletedAt == None then Ok(t.users[id]) else Err(NotFound)
  {
  }
}
