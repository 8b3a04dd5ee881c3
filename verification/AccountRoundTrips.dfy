/** What one handler does, seen through the others. */
module AccountRoundTrips {
  import opened Common
  import opened Accounts

  /** After an upgrade by e-mail, that address and password sign in to the account, and no other password does. */
  lemma UpgradeThenLogin(t: Tables, id: Id, p: UpgradePayload, salt: nat, now: nat, pick: Option<Id>,
      password: string, found: Option<Id>)
    requires UsersOk(t.users) && DevicesOwned(t) && UpgradeAnswer(t.users, p, pick) && p.via.None?
    requires UpgradeAccount(t, id, p, salt, now, pick).1.Ok?
    requires EmailAnswer(UpgradeAccount(t, id, p, salt, now, pick).0.users, p.email.value, true, found)
    ensures Login(UpgradeAccount(t, id, p, salt, now, pick).0, p.email.value, password, found)
            == if password == p.password.value then Ok(Session(id, Registered, t.users[id].tokenVersion + 1))
                else Err(TokenInvalid)
  {
    UpgradeKeeps(t, id, p, salt, now, pick);
    var t' := UpgradeAccount(t, id, p, salt, now, pick).0;
    assert t'.users[id].email == p.email && Live(t'.users[id]);
  }

  /** After an upgrade by a provider, that identity resolves to the account. */
  lemma UpgradeThenOAuth(t: Tables, id: Id, p: UpgradePayload, salt: nat, now: nat, pick: Option<Id>, found: Option<Id>)
    requires UsersOk(t.users) && DevicesOwned(t) && UpgradeAnswer(t.users, p, pick) && p.via.Some?
    requires UpgradeAccount(t, id, p, salt, now, pick).1.Ok?
    requires LinkAnswer(UpgradeAccount(t, id, p, salt, now, pick).0.users,
             Identity(p.via.value, p.providerUserId.value), true, found)
    ensures found == Some(id)
  {
    UpgradeKeeps(t, id, p, salt, now, pick);
    var t' := UpgradeAccount(t, id, p, salt, now, pick).0;
    var identity := Identity(p.via.value, p.providerUserId.value);
    HoldsSnoc(t.users[id], Link(identity, p.email, now), identity);
    var n := |t.users[id].links|;
    assert t'.users[id].links[n].identity == identity;
    assert Holds(t'.users[id], identity) && Live(t'.users[id]);
  }

  /** Once the wipe has run, no fingerprint resolves to the upgraded account, and only its devices are gone. */
  lemma WipeUnbinds(t: Tables, id: Id, fp: Fingerprint)
    ensures var t' := WipeDevices(t, id);
            && t'.users == t.users
            && (fp in t'.devices <==> fp in t.devices && t.devices[fp].userId != id)
            && (fp in t'.devices ==> t'.devices[fp] == t.devices[fp] && t'.devices[fp].userId != id)
  {
  }

  /** A forgotten password can be replaced for an hour; then the new one signs in and the old version is behind. */
  lemma ForgotThenReset(t: Tables, email: string, token: string, now: nat, pick: Option<Id>,
                        newPassword: string, salt: nat, later: nat, holder: Option<Id>)
    requires UsersOk(t.users) && DevicesOwned(t) && EmailAnswer(t.users, email, true, pick) && pick.Some?
    requires forall id :: id in t.users ==> t.users[id].resetToken != Some(Sha256(token))
    requires ResetAnswer(ForgotPassword(t, email, token, now, pick).users, token, holder)
    ensures var t1 := ForgotPassword(t, email, token, now, pick);
            var (t2, r) := ResetPassword(t1, token, Argon2(newPassword, salt), later, holder);
            && (r.Ok? <==> later <= now + 3_600_000)
            && (r.Ok? ==>
                  && pick.value in t2.users && t2.users[pick.value].tokenVersion == t.users[pick.value].tokenVersion + 1
                  && (forall found, password :: EmailAnswer(t2.users, email, true, found) ==>
                        (Login(t2, email, password, found).Ok? <==> password == newPassword)
                        && (password == newPassword ==> Login(t2, email, password, found).value.id == pick.value))
                  && (forall again, h, when :: ResetAnswer(t2.users, token, again) ==>
                      ResetPassword(t2, token, h, when, again).1.Err?))
  {
    var t1 := ForgotPassword(t, email, token, now, pick);
    ForgotKeeps(t, email, token, now, pick);
    assert t1.users[pick.value].resetToken == Some(Sha256(token)) && Live(t1.users[pick.value]);
    assert holder == pick;
    var (t2, r) := ResetPassword(t1, token, Argon2(newPassword, salt), later, holder);
    ResetKeeps(t1, token, Argon2(newPassword, salt), later, holder);
    if r.Ok? {
      assert t2.users[pick.value].email == Some(email) && Live(t2.users[pick.value]);
    }
  }

  /** Deleting scrubs address, password and reset token, and nothing else: the name is gone only if there was none. */
  lemma DeleteScrubs(t: Tables, id: Id, now: nat)
    requires DeleteUser(t, id, now).1.Ok?
    ensures var u, u' := t.users[id], DeleteUser(t, id, now).0.users[id];
            && u'.email.None? && u'.passwordHash.None? && u'.resetToken.None? && u'.resetExpiry.None?
            && u'.profile == u.profile && u'.links == u.links
            && (u'.profile.name.None? <==> u.profile.name.None?)
  {
  }

  /**
   * A deleted account answers no query by address or reset token and no live
   * query by identity, and its address is free again. The query by identity that
   * does not ask for live rows still finds it: it keeps every identity it held.
   */
  lemma DeleteThenGone(t: Tables, id: Id, now: nat, pick: Option<Id>)
    requires UsersOk(t.users) && DeleteUser(t, id, now).1.Ok?
    ensures var t' := DeleteUser(t, id, now).0;
            && FindById(t', id).Err?
            && (forall email, liveOnly :: EmailAnswer(t'.users, email, liveOnly, pick) ==> pick != Some(id))
            && (forall identity :: LinkAnswer(t'.users, identity, true, pick) ==> pick != Some(id))
            && (forall identity :: LinkAnswer(t'.users, identity, false, Some(id)) <==> Holds(t.users[id], identity))
            && (forall token :: ResetAnswer(t'.users, token, pick) ==> pick != Some(id))
            && (forall other :: other in t'.users && t.users[id].email.Some? ==>
                t'.users[other].email != t.users[id].email)
  {
    forall identity ensures Holds(DeleteUser(t, id, now).0.users[id], identity) <==> Holds(t.users[id], identity) {
      SameLinks(t.users[id], DeleteUser(t, id, now).0.users[id], identity);
    }
  }

  lemma SameLinks(u: User, v: User, identity: Identity)
    requires u.links == v.links
    ensures Holds(u, identity) <==> Holds(v, identity)
  {
  }

  // ---------------------------------------------------------------- identities of deleted accounts

  predicate SomeoneHolds(users: Users, identity: Identity) {
    exists id :: id in users && Holds(users[id], identity)
  }

  predicate IsCollision(r: Reply<Session>) {
    r.Err? && r.error.OAuthCollision?
  }

  /**
   * An anonymous account's upgrade by a provider is refused as a collision
   * exactly if any row holds the identity, deleted ones included, and names a
   * row that does.
   */
  lemma OAuthUpgradeCollidesIff(t: Tables, id: Id, p: UpgradePayload, salt: nat, now: nat, pick: Option<Id>)
    requires UsersOk(t.users) && UpgradeAnswer(t.users, p, pick)
    requires id in t.users && Live(t.users[id]) && t.users[id].accountType.Autoreg?
    requires p.via.Some? && Truthy(p.providerUserId)
    ensures var identity := Identity(p.via.value, p.providerUserId.value);
            var r := UpgradeAccount(t, id, p, salt, now, pick).1;
            && (IsCollision(r) <==> SomeoneHolds(t.users, identity))
            && (IsCollision(r) ==>
                r.error.conflictingUserId in t.users && Holds(t.users[r.error.conflictingUserId], identity))
  {
    assert UserOk(t.users[id]);
  }

  /** So once an account is deleted, nobody can upgrade with an identity it held, whatever the query answers. */
  lemma DeletedIdentityBlocksUpgrade(t: Tables, dead: Id, at: nat, id: Id, p: UpgradePayload, salt: nat, now: nat,
      pick: Option<Id>)
    requires UsersOk(t.users) && DevicesOwned(t) && DeleteUser(t, dead, at).1.Ok?
    requires p.via.Some? && Truthy(p.providerUserId)
             && Holds(t.users[dead], Identity(p.via.value, p.providerUserId.value))
    requires id != dead && id in t.users && Live(t.users[id]) && t.users[id].accountType.Autoreg?
    requires UpgradeAnswer(DeleteUser(t, dead, at).0.users, p, pick)
    ensures IsCollision(UpgradeAccount(DeleteUser(t, dead, at).0, id, p, salt, now, pick).1)
    ensures UpgradeAnswer(DeleteUser(t, dead, at).0.users, p, Some(dead))
    ensures UpgradeAccount(DeleteUser(t, dead, at).0, id, p, salt, now, Some(dead)).1 == Err(OAuthCollision(dead))
  {
    var identity := Identity(p.via.value, p.providerUserId.value);
    var t' := DeleteUser(t, dead, at).0;
    DeleteKeeps(t, dead, at);
    SameLinks(t.users[dead], t'.users[dead], identity);
    assert SomeoneHolds(t'.users, identity);
    OAuthUpgradeCollidesIff(t', id, p, salt, now, pick);
  }

  /**
   * The shortest such story: sign up with a provider, delete the account, start
   * again anonymously, and upgrade with the same provider.
   */
  lemma SignUpDeleteReturn(user: string, fp: Fingerprint, platform: Platform, a: Id, b: Id, pick: Option<Id>)
    requires user != "" && a != b
    ensures var identity := Identity(Google, user);
            var t0 := Tables(map[], map[]);
            var t1 := FindOrCreateOAuthUser(t0, OAuthPayload(identity, None, false, None), a, 0, None, None).0;
            var t2 := DeleteUser(t1, a, 1).0;
            var t3 := CreateAutoregUser(t2, fp, Some(platform), None, b, 2).0;
            var p := UpgradePayload(Some(Google), None, None, None, Some(user));
            UpgradeAnswer(t3.users, p, pick) ==> UpgradeAccount(t3, b, p, 0, 3, pick) == (t3, Err(OAuthCollision(a)))
  {
    var identity := Identity(Google, user);
    var p := OAuthPayload(identity, None, false, None);
    var t1 := FindOrCreateOAuthUser(Tables(map[], map[]), p, a, 0, None, None).0;
    var t2 := DeleteUser(t1, a, 1).0;
    var t3 := CreateAutoregUser(t2, fp, Some(platform), None, b, 2).0;
    assert t3.users[a].links[0].identity == identity && Holds(t3.users[a], identity);
    assert t3.users[b].links == [] && !Holds(t3.users[b], identity);
  }

  /** The change that writes a whole profile back. */
  function Restoring(p: Profile): ProfileChange {
    ProfileChange(Some(p.name), Some(p.tz), Some(p.locale), Some(p.avatarUrl), Some(p.onboardingCompleted))
  }

  /** A profile update reaches one live account and nothing but its profile; repeating it changes nothing more. */
  lemma UpdateIsLocal(t: Tables, id: Id, c: ProfileChange)
    ensures var (t', r) := UpdateUser(t, id, c);
            && (r.Ok? <==> FindById(t, id).Ok?)
            && (r.Err? ==> t' == t)
            && (r.Ok? ==>
                  && t'.users.Keys == t.users.Keys && t'.devices == t.devices
                  && (forall other :: other in t.users && other != id ==> t'.users[other] == t.users[other])
                  && t'.users[id] == t.users[id].(profile := t'.users[id].profile)
                  && UpdateUser(t', id, c).0 == t'
                  && UpdateUser(t', id, Restoring(t.users[id].profile)).0 == t)
  {
  }
}
