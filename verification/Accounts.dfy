/**
 * The user service: its rows, and the effect of each request handler on them.
 *
 * A handler is a function from the tables it finds to the tables it leaves and
 * its reply. What a query answers is a parameter (`pick`): a query may return
 * any matching row, and the `...Answer` predicates say which values are
 * possible. Fresh object ids, salts, reset tokens and the clock are parameters.
 */
module Accounts {
  import opened Common

  type Id = string
  type Fingerprint = string

  datatype AccountType = Autoreg | Registered
  datatype Provider = Google | Apple | Vk | Yandex
  datatype Platform = Android | Ios
  datatype Locale = Ru | En

  /** What an OAuth provider calls its user. */
  datatype Identity = Identity(provider: Provider, providerUserId: string)
  datatype Link = Link(identity: Identity, email: Option<string>, linkedAt: nat)

  /** Hashes as injective functions of what they hash. */
  datatype PasswordHash = Argon2(password: string, salt: nat)
  datatype Digest = Sha256(token: string)

  datatype Profile = Profile(
    name: Option<string>, tz: string, locale: Locale, avatarUrl: Option<string>, onboardingCompleted: bool)

  datatype User = User(
    accountType: AccountType,
    email: Option<string>,
    passwordHash: Option<PasswordHash>,
    links: seq<Link>,
    tokenVersion: nat,
    resetToken: Option<Digest>,
    resetExpiry: Option<nat>,
    upgradedAt: Option<nat>,
    deletedAt: Option<nat>,
    profile: Profile)

  datatype Device = Device(
    platform: Platform, userId: Id, lastSeenAt: nat, lastIpHash: Option<string>,
    isBlocked: bool, blockedReason: Option<string>)

  type Users = map<Id, User>

  /** The `devices` collection is keyed by its unique index. */
  datatype Tables = Tables(users: Users, devices: map<Fingerprint, Device>)

  datatype Error =
    | NotFound
    | AlreadyUpgraded
    | BadRequest(message: string)
    | EmailExists
    | OAuthCollision(conflictingUserId: Id)
    | TokenInvalid
    | DeviceBlocked(reason: string)

  /** What the gateway mints a token pair from. */
  datatype Session = Session(id: Id, accountType: AccountType, tokenVersion: nat)

  type Reply<+T> = Result<T, Error>

  const RESET_TTL_MS := 60 * 60 * 1000

  predicate Live(u: User) { u.deletedAt.None? }

  predicate Holds(u: User, identity: Identity) {
    exists i :: 0 <= i < |u.links| && u.links[i].identity == identity
  }

  // ---------------------------------------------------------------- queries

  predicate EmailAnswer(users: Users, email: string, liveOnly: bool, pick: Option<Id>) {
    match pick
    case Some(id) => id in users && users[id].email == Some(email) && (liveOnly ==> Live(users[id]))
    case None => forall id :: id in users ==> !(users[id].email == Some(email) && (liveOnly ==> Live(users[id])))
  }

  predicate LinkAnswer(users: Users, identity: Identity, liveOnly: bool, pick: Option<Id>) {
    match pick
    case Some(id) => id in users && Holds(users[id], identity) && (liveOnly ==> Live(users[id]))
    case None => forall id :: id in users ==> !(Holds(users[id], identity) && (liveOnly ==> Live(users[id])))
  }

  predicate ResetAnswer(users: Users, token: string, pick: Option<Id>) {
    match pick
    case Some(id) => id in users && users[id].resetToken == Some(Sha256(token)) && Live(users[id])
    case None => forall id :: id in users ==> !(users[id].resetToken == Some(Sha256(token)) && Live(users[id]))
  }

  /** The unique sparse index: does some other row already hold this address? */
  predicate EmailTaken(users: Users, id: Id, email: Option<string>) {
    email.Some? && exists other :: other in users && other != id && users[other].email == email
  }

  // ---------------------------------------------------------------- handlers

  const NEW_PROFILE := Profile(None, "UTC", Ru, None, false)

  function AnonymousUser(): User {
    User(Autoreg, None, None, [], 0, None, None, None, None, NEW_PROFILE)
  }

  function OAuthUser(identity: Identity, email: Option<string>, name: Option<string>, now: nat): User {
    User(Registered, email, None, [Link(identity, email, now)], 0, None, None, None, None, NEW_PROFILE.(name := name))
  }

  /** Does the fingerprint still resolve to an anonymous account? */
  predicate Resolves(t: Tables, fp: Fingerprint) {
    fp in t.devices && t.devices[fp].userId in t.users && t.users[t.devices[fp].userId].accountType.Autoreg?
  }

  function CreateAutoregUser(t: Tables, fp: Fingerprint, platform: Option<Platform>, ipHash: Option<string>,
      newId: Id, now: nat)
    : (Tables, Reply<Session>)
  {
    if fp in t.devices && t.devices[fp].isBlocked then
      (t, Err(DeviceBlocked(if t.devices[fp].blockedReason.Some? then t.devices[fp].blockedReason.value
          else "policy_violation")))
    else if Resolves(t, fp) then
      var d := t.devices[fp];
      var seen := d.(lastSeenAt := now, lastIpHash := if Truthy(ipHash) then ipHash else d.lastIpHash);
      (t.(devices := t.devices[fp := seen]), Ok(Session(d.userId, Autoreg, t.users[d.userId].tokenVersion)))
    else
      var d := Device(if platform.Some? then platform.value else Android, newId, now, ipHash, false, None);
      (Tables(t.users[newId := AnonymousUser()], t.devices[fp := d]), Ok(Session(newId, Autoreg, 0)))
  }

  function Login(t: Tables, email: string, password: string, pick: Option<Id>): Reply<Session>
    requires EmailAnswer(t.users, email, true, pick)
  {
    if pick.None? then Err(TokenInvalid)
    else
      var user := t.users[pick.value];
      if user.passwordHash.None? || user.passwordHash.value.password != password then Err(TokenInvalid)
      else Ok(Session(pick.value, user.accountType, user.tokenVersion))
  }

  /** `via` is None for the "email" method. */
  datatype UpgradePayload = UpgradePayload(
    via: Option<Provider>, email: Option<string>, password: Option<string>, name: Option<string>,
        providerUserId: Option<string>)

  /** The one query an upgrade makes before it flushes. */
  predicate UpgradeAnswer(users: Users, p: UpgradePayload, pick: Option<Id>) {
    if p.via.None? then Truthy(p.email) ==> EmailAnswer(users, p.email.value, false, pick)
    else Truthy(p.providerUserId) ==> LinkAnswer(users, Identity(p.via.value, p.providerUserId.value), false, pick)
  }

  /** The query can always be answered. */
  lemma SomeUpgradeAnswer(users: Users, p: UpgradePayload) returns (pick: Option<Id>)
    ensures UpgradeAnswer(users, p, pick)
  {
    pick := None;
    if p.via.None? && Truthy(p.email) {
      if id :| id in users && users[id].email == Some(p.email.value) { pick := Some(id); }
    } else if p.via.Some? && Truthy(p.providerUserId) {
      if id :| id in users && Holds(users[id], Identity(p.via.value, p.providerUserId.value)) { pick := Some(id); }
    }
  }

  function Upgraded(user: User, name: Option<string>, now: nat): User {
    user.(accountType := Registered, upgradedAt := Some(now), tokenVersion := user.tokenVersion + 1,
          profile := if Truthy(name) then user.profile.(name := name) else user.profile)
  }

  /** `em.flush()` of one changed or new row, with the unique index on the address. */
  function FlushUser(t: Tables, id: Id, row: User): (Tables, Reply<Session>) {
    if EmailTaken(t.users, id, row.email) then (t, Err(EmailExists))
    else (t.(users := t.users[id := row]), Ok(Session(id, row.accountType, row.tokenVersion)))
  }

  /** The row an upgrade has built in memory when it reaches its flush, or the error it stops with before. */
  function BuildUpgrade(users: Users, id: Id, p: UpgradePayload, salt: nat, now: nat, pick: Option<Id>): Reply<User> {
    if id !in users || !Live(users[id]) then Err(NotFound)
    else
      var user := users[id];
      if !user.accountType.Autoreg? then Err(AlreadyUpgraded)
      else if p.via.None? then
        if !Truthy(p.email) || !Truthy(p.password) then Err(BadRequest("Email and password required"))
        else if pick.Some? && pick.value != id then Err(EmailExists)
        else Ok(Upgraded(user.(email := p.email, passwordHash := Some(Argon2(p.password.value, salt))), p.name, now))
      else if !Truthy(p.providerUserId) then Err(BadRequest("providerUserId required for OAuth upgrade"))
      else if pick.Some? && pick.value != id then Err(OAuthCollision(pick.value))
      else
        var link := Link(Identity(p.via.value, p.providerUserId.value), p.email, now);
        Ok(Upgraded(user.(email := Coalesce(p.email, user.email), links := user.links + [link]), p.name, now))
  }

  /** `upgradeAccount` up to and including its flush; the device wipe is a step of its own. */
  function UpgradeAccount(t: Tables, id: Id, p: UpgradePayload, salt: nat, now: nat, pick: Option<Id>): (Tables,
      Reply<Session>) {
    match BuildUpgrade(t.users, id, p, salt, now, pick)
    case Err(e) => (t, Err(e))
    case Ok(row) => FlushUser(t, id, row)
  }

  function WipeDevices(t: Tables, id: Id): Tables {
    t.(devices := map fp | fp in t.devices && t.devices[fp].userId != id :: t.devices[fp])
  }

  datatype OAuthPayload = OAuthPayload(identity: Identity, email: Option<string>, emailVerified: bool,
      name: Option<string>)

  predicate Mergeable(p: OAuthPayload) { Truthy(p.email) && p.emailVerified }

  predicate OAuthAnswers(users: Users, p: OAuthPayload, byLink: Option<Id>, byEmail: Option<Id>) {
    LinkAnswer(users, p.identity, true, byLink) && (Mergeable(p) ==> EmailAnswer(users, p.email.value, true, byEmail))
  }

  lemma SomeEmailAnswer(users: Users, email: string) returns (pick: Option<Id>)
    ensures EmailAnswer(users, email, true, pick)
  {
    pick := None;
    if id :| id in users && users[id].email == Some(email) && Live(users[id]) { pick := Some(id); }
  }

  function FindOrCreateOAuthUser(t: Tables, p: OAuthPayload, newId: Id, now: nat, byLink: Option<Id>,
      byEmail: Option<Id>)
    : (Tables, Reply<Session>)
    requires OAuthAnswers(t.users, p, byLink, byEmail)
  {
    if byLink.Some? then
      var user := t.users[byLink.value];
      (t, Ok(Session(byLink.value, user.accountType, user.tokenVersion)))
    else if Mergeable(p) && byEmail.Some? then
      var id := byEmail.value;
      var user := t.users[id];
      (t.(users := t.users[id := user.(links := user.links + [Link(p.identity, p.email, now)])]),
       Ok(Session(id, user.accountType, user.tokenVersion)))
    else FlushUser(t, newId, OAuthUser(p.identity, p.email, p.name, now))
  }

  function ForgotPassword(t: Tables, email: string, token: string, now: nat, pick: Option<Id>): Tables
    requires EmailAnswer(t.users, email, true, pick)
  {
    if pick.None? then t
    else t.(users := t.users[pick.value :=
              t.users[pick.value].(resetToken := Some(Sha256(token)), resetExpiry := Some(now + RESET_TTL_MS))])
  }

  /** The row a reset applies to, if it goes through. */
  predicate ResetAccepted(users: Users, now: nat, pick: Option<Id>) {
    pick.Some? && pick.value in users && users[pick.value].resetExpiry.Some?
        && !(users[pick.value].resetExpiry.value < now)
  }

  function ResetPassword(t: Tables, token: string, hash: PasswordHash, now: nat, pick: Option<Id>): (Tables, Reply<()>)
    requires ResetAnswer(t.users, token, pick)
  {
    if !ResetAccepted(t.users, now, pick) then (t, Err(TokenInvalid))
    else
      var user := t.users[pick.value];
      (t.(users := t.users[pick.value := user.(passwordHash := Some(hash), resetToken := None, resetExpiry := None,
                                               tokenVersion := user.tokenVersion + 1)]),
       Ok(()))
  }

  function FindById(t: Tables, id: Id): Reply<User> {
    if id !in t.users || !Live(t.users[id]) then Err(NotFound) else Ok(t.users[id])
  }

  /** Absent fields are `None`; an explicit null of a nullable field is `Some(None)`. */
  datatype ProfileChange = ProfileChange(
    name: Option<Option<string>>, tz: Option<string>, locale: Option<Locale>, avatarUrl: Option<Option<string>>,
        onboardingCompleted: Option<bool>)

  function UpdateUser(t: Tables, id: Id, c: ProfileChange): (Tables, Reply<User>) {
    if FindById(t, id).Err? then (t, Err(NotFound))
    else
      var p := t.users[id].profile;
      var p' := Profile(
        if c.name.Some? then c.name.value else p.name,
        if c.tz.Some? then c.tz.value else p.tz,
        if c.locale.Some? then c.locale.value else p.locale,
        if c.avatarUrl.Some? then c.avatarUrl.value else p.avatarUrl,
        if c.onboardingCompleted.Some? then c.onboardingCompleted.value else p.onboardingCompleted);
      var user := t.users[id].(profile := p');
      (t.(users := t.users[id := user]), Ok(user))
  }

  /** The row part of `deleteUser`; the staged event is added by the caller's transition. */
  function DeleteUser(t: Tables, id: Id, now: nat): (Tables, Reply<()>) {
    if FindById(t, id).Err? then (t, Err(NotFound))
    else
      var user := t.users[id];
      (t.(users := t.users[id := user.(deletedAt := Some(now), email := None, passwordHash := None,
                                       resetToken := None, resetExpiry := None,
                                           tokenVersion := user.tokenVersion + 1)]),
       Ok(()))
  }

  // ---------------------------------------------------------------- what the tables keep

  /** Per-row facts: a deleted row holds nothing to sign in with, an anonymous one never did. */
  predicate UserOk(u: User) {
    && (u.resetToken.Some? <==> u.resetExpiry.Some?)
    && (!Live(u) ==> u.email.None? && u.passwordHash.None? && u.resetToken.None?)
    && (u.accountType.Autoreg? ==> u.email.None? && u.passwordHash.None? && u.links == [] && u.resetToken.None?)
  }

  ghost predicate EmailsUnique(users: Users) {
    forall a, b :: a in users && b in users && users[a].email.Some? && users[a].email == users[b].email ==> a == b
  }

  ghost predicate IdentitiesUnique(users: Users) {
    forall a, b, identity ::
      && a in users && b in users && Live(users[a]) && Live(users[b])
      && Holds(users[a], identity) && Holds(users[b], identity)
      ==> a == b
  }

  ghost predicate ResetsUnique(users: Users) {
    forall a, b ::
      a in users && b in users && users[a].resetToken.Some? && users[a].resetToken == users[b].resetToken ==> a == b
  }

  ghost predicate UsersOk(users: Users) {
    && (forall id :: id in users ==> UserOk(users[id]))
    && EmailsUnique(users)
    && IdentitiesUnique(users)
    && ResetsUnique(users)
  }

  ghost predicate DevicesOwned(t: Tables) {
    forall fp :: fp in t.devices ==> t.devices[fp].userId in t.users
  }

  lemma HoldsSnoc(u: User, link: Link, identity: Identity)
    ensures Holds(u.(links := u.links + [link]), identity) <==> Holds(u, identity) || link.identity == identity
  {
    var v := u.(links := u.links + [link]);
    assert v.links[|u.links|] == link;
    if Holds(u, identity) {
      var i :| 0 <= i < |u.links| && u.links[i].identity == identity;
      assert v.links[i].identity == identity;
    }
  }

  /** A row that replaces `users[id]` without gaining an address, an identity or a reset token. */
  lemma ReplaceKeepsUsersOk(users: Users, id: Id, row: User)
    requires UsersOk(users) && UserOk(row)
    requires row.email.Some? ==> !EmailTaken(users, id, row.email)
    requires Live(row) ==>
             forall other, identity :: other in users && other != id && Live(users[other]) && Holds(row,
                 identity) ==> !Holds(users[other], identity)
    requires row.resetToken.Some? ==> forall other :: other in users && other != id ==>
             users[other].resetToken != row.resetToken
    ensures UsersOk(users[id := row])
  {
  }

  lemma RemoveKeepsUsersOk(users: Users, id: Id)
    requires UsersOk(users)
    ensures UsersOk(users - {id})
  {
  }

  /** `row` is `users[id]` with no new address, identity or token. */
  ghost predicate NoGain(users: Users, id: Id, row: User) {
    && id in users
    && (row.email.Some? ==> row.email == users[id].email)
    && row.links == users[id].links
    && (row.resetToken.Some? ==> row.resetToken == users[id].resetToken)
    && (Live(row) ==> Live(users[id]))
  }

  lemma NoGainKeepsUsersOk(users: Users, id: Id, row: User)
    requires UsersOk(users) && UserOk(row) && NoGain(users, id, row)
    ensures UsersOk(users[id := row])
  {
  }

  lemma AutoregKeeps(t: Tables, fp: Fingerprint, platform: Option<Platform>, ipHash: Option<string>, newId: Id,
      now: nat)
    requires UsersOk(t.users) && DevicesOwned(t) && newId !in t.users
    ensures var t' := CreateAutoregUser(t, fp, platform, ipHash, newId, now).0; UsersOk(t'.users) && DevicesOwned(t')
  {
    ReplaceKeepsUsersOk(t.users, newId, AnonymousUser());
  }

  lemma UpgradeKeeps(t: Tables, id: Id, p: UpgradePayload, salt: nat, now: nat, pick: Option<Id>)
    requires UsersOk(t.users) && DevicesOwned(t) && UpgradeAnswer(t.users, p, pick)
    ensures var t' := UpgradeAccount(t, id, p, salt, now, pick).0; UsersOk(t'.users) && DevicesOwned(t')
  {
    var (t', r) := UpgradeAccount(t, id, p, salt, now, pick);
    if r.Ok? {
      var user, row := t.users[id], t'.users[id];
      if p.via.Some? {
        var link := Link(Identity(p.via.value, p.providerUserId.value), p.email, now);
        forall other, identity | other in t.users && other != id && Live(t.users[other]) && Holds(row, identity)
          ensures !Holds(t.users[other], identity)
        {
          HoldsSnoc(user, link, identity);
          assert !Holds(user, identity);
          assert Holds(user.(links := user.links + [link]), identity);
          assert pick.None? || !Holds(user, link.identity);
        }
      }
      ReplaceKeepsUsersOk(t.users, id, row);
    }
  }

  lemma OAuthKeeps(t: Tables, p: OAuthPayload, newId: Id, now: nat, byLink: Option<Id>, byEmail: Option<Id>)
    requires UsersOk(t.users) && DevicesOwned(t) && newId !in t.users && OAuthAnswers(t.users, p, byLink, byEmail)
    ensures var t' := FindOrCreateOAuthUser(t, p, newId, now, byLink, byEmail).0; UsersOk(t'.users) && DevicesOwned(t')
  {
    var (t', r) := FindOrCreateOAuthUser(t, p, newId, now, byLink, byEmail);
    if byLink.None? && r.Ok? {
      var id := r.value.id;
      var row := t'.users[id];
      var link := Link(p.identity, p.email, now);
      forall other, identity | other in t.users && other != id && Live(t.users[other]) && Holds(row, identity)
        ensures !Holds(t.users[other], identity)
      {
        if id in t.users { HoldsSnoc(t.users[id], link, identity); }
      }
      ReplaceKeepsUsersOk(t.users, id, row);
    }
  }

  lemma ForgotKeeps(t: Tables, email: string, token: string, now: nat, pick: Option<Id>)
    requires UsersOk(t.users) && DevicesOwned(t) && EmailAnswer(t.users, email, true, pick)
    requires forall id :: id in t.users ==> t.users[id].resetToken != Some(Sha256(token))
    ensures var t' := ForgotPassword(t, email, token, now, pick); UsersOk(t'.users) && DevicesOwned(t')
  {
  }

  lemma ResetKeeps(t: Tables, token: string, hash: PasswordHash, now: nat, pick: Option<Id>)
    requires UsersOk(t.users) && DevicesOwned(t) && ResetAnswer(t.users, token, pick)
    ensures var t' := ResetPassword(t, token, hash, now, pick).0; UsersOk(t'.users) && DevicesOwned(t')
  {
  }

  lemma UpdateKeeps(t: Tables, id: Id, c: ProfileChange)
    requires UsersOk(t.users) && DevicesOwned(t)
    ensures var t' := UpdateUser(t, id, c).0; UsersOk(t'.users) && DevicesOwned(t')
  {
    var (t', r) := UpdateUser(t, id, c);
    if r.Ok? { NoGainKeepsUsersOk(t.users, id, t'.users[id]); }
  }

  lemma DeleteKeeps(t: Tables, id: Id, now: nat)
    requires UsersOk(t.users) && DevicesOwned(t)
    ensures var t' := DeleteUser(t, id, now).0; UsersOk(t'.users) && DevicesOwned(t')
  {
  }
}
