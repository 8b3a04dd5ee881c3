/** The user service as an object over its collections: one method per request handler. */
module UsersService {
  import opened Common
  import opened Accounts
  import opened DuplicateKey
  import AR = AccountRuns
  import Outbox

  class Service {
    var users: Users
    var devices: map<Fingerprint, Device>
    var rows: Outbox.Rows

    ghost function Db(): Tables
      reads this
    {
      Tables(users, devices)
    }

    ghost predicate Valid()
      reads this
    {
      UsersOk(users) && DevicesOwned(Db())
    }

    constructor ()
      ensures Valid() && Db() == Tables(map[], map[]) && rows == map[]
    {
      users, devices, rows := map[], map[], map[];
    }

    // -------------------------------------------------------------- the database

    method FindByEmail(email: string, liveOnly: bool) returns (pick: Option<Id>)
      ensures EmailAnswer(users, email, liveOnly, pick)
    {
      if id :| id in users && users[id].email == Some(email) && (liveOnly ==> Live(users[id])) {
        pick := Some(id);
      } else {
        pick := None;
      }
    }

    method FindByLink(identity: Identity, liveOnly: bool) returns (pick: Option<Id>)
      ensures LinkAnswer(users, identity, liveOnly, pick)
    {
      if id :| id in users && Holds(users[id], identity) && (liveOnly ==> Live(users[id])) {
        pick := Some(id);
      } else {
        pick := None;
      }
    }

    method FindByReset(hash: Digest) returns (pick: Option<Id>)
      ensures ResetAnswer(users, hash.token, pick)
    {
      if id :| id in users && users[id].resetToken == Some(hash) && Live(users[id]) {
        pick := Some(id);
      } else {
        pick := None;
      }
    }

    /** Writes one row, unless the unique index on the address refuses it. */
    method Flush(id: Id, row: User) returns (err: Option<DbError>)
      modifies this`users
      ensures if EmailTaken(old(users), id, row.email) then users == old(users) && err.Some?
              && IsDuplicateKeyError(err.value, "email")
              else users == old(users)[id := row] && err.None?
    {
      if row.email.Some? && exists other :: other in users && other != id && users[other].email == row.email {
        return Some(DbError(E11000, None, Some({"email"})));
      }
      users := users[id := row];
      return None;
    }

    // -------------------------------------------------------------- handlers

    method CreateAutoregUser(fp: Fingerprint, platform: Option<Platform>, ipHash: Option<string>, newId: Id, now: nat)
      returns (r: Reply<Session>)
      requires Valid() && newId !in users
      modifies this`users, this`devices
      ensures Valid() && (Db(), r) == Accounts.CreateAutoregUser(old(Db()), fp, platform, ipHash, newId, now)
    {
      AutoregKeeps(Db(), fp, platform, ipHash, newId, now);
      ghost var before := devices;
      if fp in devices {
        var existing := devices[fp];
        if existing.isBlocked {
          return Err(DeviceBlocked(if existing.blockedReason.Some? then existing.blockedReason.value
              else "policy_violation"));
        }
        if existing.userId !in users || users[existing.userId].accountType != Autoreg {
          devices := devices - {fp};
        } else {
          existing := existing.(lastSeenAt := now);
          if Truthy(ipHash) { existing := existing.(lastIpHash := ipHash); }
          devices := devices[fp := existing];
          return Ok(Session(existing.userId, Autoreg, users[existing.userId].tokenVersion));
        }
      }
      users := users[newId := AnonymousUser()];
      devices := devices[fp := Device(if platform.Some? then platform.value
          else Android, newId, now, ipHash, false, None)];
      assert devices == before[fp := devices[fp]];
      r := Ok(Session(newId, Autoreg, 0));
    }

    /** The address is unique, so every possible answer of the query gives this reply. */
    method Login(email: string, password: string) returns (r: Reply<Session>)
      requires Valid()
      ensures forall pick :: EmailAnswer(users, email, true, pick) ==> r == Accounts.Login(Db(), email, password, pick)
    {
      var found := FindByEmail(email, true);
      if found.None? { return Err(TokenInvalid); }
      var user := users[found.value];
      var valid := user.passwordHash.Some? && user.passwordHash.value.password == password;
      if !valid { return Err(TokenInvalid); }
      r := Ok(Session(found.value, user.accountType, user.tokenVersion));
    }

    method UpgradeAccount(id: Id, p: UpgradePayload, salt: nat, now: nat)
        returns (r: Reply<Session>, ghost pick: Option<Id>)
      requires Valid()
      modifies this`users, this`devices
      ensures Valid() && UpgradeAnswer(old(users), p, pick)
      ensures r == Accounts.UpgradeAccount(old(Db()), id, p, salt, now, pick).1
      ensures var t := Accounts.UpgradeAccount(old(Db()), id, p, salt, now, pick).0;
              Db() == if r.Ok? then Accounts.WipeDevices(t, id) else t
    {
      ghost var t := Db();
      r, pick := UpgradeRow(id, p, salt, now);
      UpgradeKeeps(t, id, p, salt, now, pick);
      if r.Ok? {
        devices := map fp | fp in devices && devices[fp].userId != id :: devices[fp];
      }
    }

    /** `upgradeAccount` up to and including its flush. */
    method UpgradeRow(id: Id, p: UpgradePayload, salt: nat, now: nat)
        returns (r: Reply<Session>, ghost pick: Option<Id>)
      modifies this`users
      ensures UpgradeAnswer(old(users), p, pick)
              && (Db(), r) == Accounts.UpgradeAccount(old(Db()), id, p, salt, now, pick)
    {
      pick := SomeUpgradeAnswer(users, p);
      if id !in users || users[id].deletedAt.Some? { return Err(NotFound), pick; }
      var user := users[id];
      if user.accountType != Autoreg { return Err(AlreadyUpgraded), pick; }
      if p.via.None? {
        if !Truthy(p.email) || !Truthy(p.password) { return Err(BadRequest("Email and password required")), pick; }
        var existing := FindByEmail(p.email.value, false);
        pick := existing;
        if existing.Some? && existing.value != id { return Err(EmailExists), pick; }
        user := user.(email := p.email, passwordHash := Some(Argon2(p.password.value, salt)));
      } else {
        if !Truthy(p.providerUserId) { return Err(BadRequest("providerUserId required for OAuth upgrade")), pick; }
        var identity := Identity(p.via.value, p.providerUserId.value);
        var clash := FindByLink(identity, false);
        pick := clash;
        if clash.Some? && clash.value != id { return Err(OAuthCollision(clash.value)), pick; }
        user := user.(email := Coalesce(p.email, user.email), links := user.links + [Link(identity, p.email, now)]);
      }
      r := FlushUpgrade(id, user, p.name, now);
    }

    method FlushUpgrade(id: Id, found: User, name: Option<string>, now: nat) returns (r: Reply<Session>)
      modifies this`users
      ensures (Db(), r) == Accounts.FlushUser(old(Db()), id, Upgraded(found, name, now))
    {
      var user := found;
      if Truthy(name) { user := user.(profile := user.profile.(name := name)); }
      user := user.(accountType := Registered);
      user := user.(upgradedAt := Some(now));
      user := user.(tokenVersion := user.tokenVersion + 1);
      var err := Flush(id, user);
      if err.Some? && IsDuplicateKeyError(err.value, "email") { return Err(EmailExists); }
      r := Ok(Session(id, Registered, user.tokenVersion));
    }

    method FindOrCreateOAuthUser(p: OAuthPayload, newId: Id, now: nat)
      returns (r: Reply<Session>, ghost byLink: Option<Id>, ghost byEmail: Option<Id>)
      requires Valid() && newId !in users
      modifies this`users
      ensures Valid() && OAuthAnswers(old(users), p, byLink, byEmail)
      ensures (Db(), r) == Accounts.FindOrCreateOAuthUser(old(Db()), p, newId, now, byLink, byEmail)
    {
      byEmail := None;
      if Mergeable(p) { byEmail := SomeEmailAnswer(users, p.email.value); }
      var byProvider := FindByLink(p.identity, true);
      byLink := byProvider;
      if byProvider.Some? {
        var user := users[byProvider.value];
        return Ok(Session(byProvider.value, user.accountType, user.tokenVersion)), byLink, byEmail;
      }
      if Mergeable(p) {
        var found := FindByEmail(p.email.value, true);
        byEmail := found;
        if found.Some? {
          OAuthKeeps(Db(), p, newId, now, byLink, byEmail);
          var user := users[found.value];
          user := user.(links := user.links + [Link(p.identity, p.email, now)]);
          users := users[found.value := user];
          return Ok(Session(found.value, user.accountType, user.tokenVersion)), byLink, byEmail;
        }
      }
      OAuthKeeps(Db(), p, newId, now, byLink, byEmail);
      var user := OAuthUser(p.identity, p.email, p.name, now);
      var err := Flush(newId, user);
      if err.Some? && IsDuplicateKeyError(err.value, "email") { return Err(EmailExists), byLink, byEmail; }
      r := Ok(Session(newId, user.accountType, user.tokenVersion));
    }

    method ForgotPassword(email: string, token: string, now: nat) returns (ghost pick: Option<Id>)
      requires Valid() && forall id :: id in users ==> users[id].resetToken != Some(Sha256(token))
      modifies this`users
      ensures Valid() && EmailAnswer(old(users), email, true, pick)
      ensures Db() == Accounts.ForgotPassword(old(Db()), email, token, now, pick)
    {
      var found := FindByEmail(email, true);
      pick := found;
      ForgotKeeps(Db(), email, token, now, pick);
      if found.None? { return; }
      var user := users[found.value];
      user := user.(resetToken := Some(Sha256(token)));
      user := user.(resetExpiry := Some(now + RESET_TTL_MS));
      users := users[found.value := user];
    }

    method ResetPassword(token: string, newPassword: string, salt: nat, now: nat)
        returns (r: Reply<()>, ghost pick: Option<Id>)
      requires Valid()
      modifies this`users
      ensures Valid() && ResetAnswer(old(users), token, pick)
      ensures (Db(), r) == Accounts.ResetPassword(old(Db()), token, Argon2(newPassword, salt), now, pick)
    {
      ghost var t := Db();
      r, pick := ResetRow(token, newPassword, salt, now);
      ResetKeeps(t, token, Argon2(newPassword, salt), now, pick);
    }

    /** The handler itself, whatever state it finds. */
    method ResetRow(token: string, newPassword: string, salt: nat, now: nat)
        returns (r: Reply<()>, ghost pick: Option<Id>)
      modifies this`users
      ensures ResetAnswer(old(users), token, pick)
      ensures (Db(), r) == Accounts.ResetPassword(old(Db()), token, Argon2(newPassword, salt), now, pick)
    {
      var found := FindByReset(Sha256(token));
      pick := found;
      if found.None? { return Err(TokenInvalid), pick; }
      var user := users[found.value];
      if user.resetExpiry.None? || user.resetExpiry.value < now { return Err(TokenInvalid), pick; }
      user := WithPassword(user, newPassword, salt);
      users := users[found.value := user];
      r := Ok(());
    }

    static method WithPassword(found: User, newPassword: string, salt: nat) returns (user: User)
      ensures user == found.(passwordHash := Some(Argon2(newPassword, salt)), resetToken := None, resetExpiry := None,
                             tokenVersion := found.tokenVersion + 1)
    {
      user := found.(passwordHash := Some(Argon2(newPassword, salt)));
      user := user.(resetToken := None);
      user := user.(resetExpiry := None);
      user := user.(tokenVersion := user.tokenVersion + 1);
    }

    method UpdateUser(id: Id, c: ProfileChange) returns (r: Reply<User>)
      requires Valid()
      modifies this`users
      ensures Valid() && (Db(), r) == Accounts.UpdateUser(old(Db()), id, c)
    {
      UpdateKeeps(Db(), id, c);
      if id !in users || users[id].deletedAt.Some? { return Err(NotFound); }
      var p := users[id].profile;
      if c.name.Some? { p := p.(name := c.name.value); }
      if c.tz.Some? { p := p.(tz := c.tz.value); }
      if c.locale.Some? { p := p.(locale := c.locale.value); }
      if c.avatarUrl.Some? { p := p.(avatarUrl := c.avatarUrl.value); }
      if c.onboardingCompleted.Some? { p := p.(onboardingCompleted := c.onboardingCompleted.value); }
      users := users[id := users[id].(profile := p)];
      r := Ok(users[id]);
    }

    /** The row and its event land in the same flush. */
    method DeleteUser(id: Id, now: nat) returns (r: Reply<()>)
      requires Valid()
      modifies this`users, this`rows
      ensures Valid() && (Db(), r) == Accounts.DeleteUser(old(Db()), id, now)
      ensures rows == if r.Ok? then Outbox.StageRows(old(rows), AR.DeletedKey(id), AR.DeletedEvent(id), now)
              else old(rows)
    {
      DeleteKeeps(Db(), id, now);
      r := DeleteRow(id, now);
    }

    method DeleteRow(id: Id, now: nat) returns (r: Reply<()>)
      modifies this`users, this`rows
      ensures (Db(), r) == Accounts.DeleteUser(old(Db()), id, now)
      ensures rows == if r.Ok? then Outbox.StageRows(old(rows), AR.DeletedKey(id), AR.DeletedEvent(id), now)
              else old(rows)
    {
      if id !in users || users[id].deletedAt.Some? { return Err(NotFound); }
      var user := Scrubbed(users[id], now);
      rows := Outbox.StageRows(rows, AR.DeletedKey(id), AR.DeletedEvent(id), now);
      users := users[id := user];
      r := Ok(());
    }

    static method Scrubbed(found: User, now: nat) returns (user: User)
      ensures user == found.(deletedAt := Some(now), email := None, passwordHash := None, resetToken := None,
              resetExpiry := None,
                             tokenVersion := found.tokenVersion + 1)
    {
      user := found.(deletedAt := Some(now));
      user := user.(email := None);
      user := user.(passwordHash := None);
      user := user.(resetToken := None);
      user := user.(resetExpiry := None);
      user := user.(tokenVersion := user.tokenVersion + 1);
    }
  }
}
