/** What the user service guarantees over whole runs. */
module AccountTheorems {
  import opened Common
  import opened Accounts
  import opened AccountRuns
  import opened AccountInvariants
  import RoundTrips = AccountRoundTrips

  /** The events between two states of a run. */
  ghost function Since(w: World, w': World): seq<Event> {
    if |w.trace| <= |w'.trace| then w'.trace[|w.trace|..] else []
  }

  lemma {:induction false} TraceGrows(w: World, acts: seq<Action>, w': World)
    requires Run(w, acts, w')
    ensures w.trace <= w'.trace && w.used <= w'.used
    decreases |acts|
  {
    if acts != [] { TraceGrows(Next(w, acts[0]), acts[1..], w'); }
  }

  /** The first event of a non-empty run, and the rest. */
  lemma SinceCons(w: World, acts: seq<Action>, w': World)
    requires acts != [] && Run(w, acts, w')
    ensures Since(w, w') == [EventOf(w, acts[0])] + Since(Next(w, acts[0]), w')
  {
    TraceGrows(Next(w, acts[0]), acts[1..], w');
  }

  lemma ReachableChronicle(w: World, id: Id)
    requires Reachable(w) && id in w.t.users
    ensures Chronicle(w.trace, id, w.t.users[id])
  {
    ReachableInv(w);
  }

  lemma ReachableNoHistory(w: World, id: Id)
    requires Reachable(w) && id !in w.used
    ensures NoHistory(w.trace, id) && id !in w.t.users
  {
    ReachableInv(w);
  }

  // ---------------------------------------------------------------- deletion and purge

  /** A soft-deleted row is never changed again; it can only be removed, by the purge. */
  lemma {:induction false} DeletionIsFinal(w: World, acts: seq<Action>, w': World, id: Id)
    requires Reachable(w) && Run(w, acts, w') && id in w.t.users && !Live(w.t.users[id])
    ensures if id in w'.t.users then w'.t.users[id] == w.t.users[id] else Purged(id) in Since(w, w')
    ensures id in w'.used
    decreases |acts|
  {
    ReachableInv(w);
    if acts != [] {
      var m := Next(w, acts[0]);
      ReachableByStep(w, acts[0]);
      SinceCons(w, acts, w');
      if id in m.t.users {
        StepRow(w, acts[0], id);
        DeletionIsFinal(m, acts[1..], w', id);
      } else {
        StepRemoves(w, acts[0], id);
        StaysGone(m, acts[1..], w', id);
      }
    }
  }

  /** An account id that has been used and is gone never names an account again. */
  lemma {:induction false} StaysGone(w: World, acts: seq<Action>, w': World, id: Id)
    requires Reachable(w) && Run(w, acts, w') && id in w.used && id !in w.t.users
    ensures id in w'.used && id !in w'.t.users
    decreases |acts|
  {
    if acts != [] {
      ReachableInv(w);
      ReachableByStep(w, acts[0]);
      if id in NextTables(w, acts[0]).users { StepRow(w, acts[0], id); }
      StaysGone(Next(w, acts[0]), acts[1..], w', id);
    }
  }

  lemma ReachableStripped(w: World, id: Id)
    requires Reachable(w) && id in w.stripped
    ensures Doomed(w.t.users, id, w.stripped[id]) && Started(w.trace, w.stripped[id])
    ensures forall fp :: fp in w.t.devices ==> w.t.devices[fp].userId != id
  {
    ReachableInv(w);
  }

  /** A row the purge is about to remove was deleted more than 30 days before that purge run started. */
  lemma PurgeOnlyExpired(w: World, id: Id)
    requires Reachable(w) && Enabled(w, PurgeUser(id)) && id in w.t.users
    ensures exists i :: 0 <= i < |w.trace| && w.trace[i].PurgeStarted?
                        && w.t.users[id].deletedAt.Some? && w.t.users[id].deletedAt.value < w.trace[i].at - GRACE_MS
    ensures forall fp :: fp in w.t.devices ==> w.t.devices[fp].userId != id
  {
    ReachableStripped(w, id);
    var i :| 0 <= i < |w.trace| && w.trace[i].PurgeStarted? && w.trace[i].at - GRACE_MS == w.stripped[id];
  }

  /** A purge can remove every account deleted more than 30 days before it, and its devices with it. */
  lemma PurgeCompletes(w: World, id: Id, at: nat)
    requires id in w.t.users && w.t.users[id].deletedAt.Some? && at - w.t.users[id].deletedAt.value > 2_592_000_000
    ensures Enabled(w, PurgeFind(at))
    ensures var found := Next(w, PurgeFind(at));
            && Enabled(found, PurgeDevices(id))
            && (var stripped := Next(found, PurgeDevices(id));
                && (forall fp :: fp in stripped.t.devices <==> fp in w.t.devices && w.t.devices[fp].userId != id)
                && Enabled(stripped, PurgeUser(id))
                && Next(stripped, PurgeUser(id)).t.users == w.t.users - {id})
  {
    var found := Next(w, PurgeFind(at));
    assert id in Expired(w.t.users, at);
    assert id in found.victims;
  }

  /** Device rows never dangle, whatever is interleaved with the two halves of a purge. */
  lemma DevicesNeverDangle(w: World, fp: Fingerprint)
    requires Reachable(w) && fp in w.t.devices
    ensures w.t.devices[fp].userId in w.t.users
  {
    ReachableInv(w);
  }

  /** `tokenVersion` is the number of upgrades, successful resets and deletions. */
  lemma TokenVersionIsACount(w: World, id: Id)
    requires Reachable(w) && id in w.t.users
    ensures w.t.users[id].tokenVersion == Bumps(w.trace, id)
  {
    ReachableInv(w);
    assert Chronicle(w.trace, id, w.t.users[id]);
  }

  // ---------------------------------------------------------------- identities and credentials

  /**
   * From its deletion until its purge an account keeps its identities to itself:
   * in every later state of the run an upgrade with one of them is a collision.
   */
  lemma DeletedIdentityBlocksUntilPurge(w: World, acts: seq<Action>, w': World, dead: Id, id: Id, p: UpgradePayload,
      salt: nat, now: nat, pick: Option<Id>)
    requires Reachable(w) && Run(w, acts, w') && dead in w.t.users && !Live(w.t.users[dead])
    requires Purged(dead) !in Since(w, w')
    requires p.via.Some? && Truthy(p.providerUserId)
             && Holds(w.t.users[dead], Identity(p.via.value, p.providerUserId.value))
    requires id in w'.t.users && Live(w'.t.users[id]) && w'.t.users[id].accountType.Autoreg?
             && UpgradeAnswer(w'.t.users, p, pick)
    ensures RoundTrips.IsCollision(UpgradeAccount(w'.t, id, p, salt, now, pick).1)
  {
    DeletionIsFinal(w, acts, w', dead);
    RunReachable(w, acts, w');
    ReachableInv(w');
    RoundTrips.OAuthUpgradeCollidesIff(w'.t, id, p, salt, now, pick);
  }

  lemma {:induction false} RunReachable(w: World, acts: seq<Action>, w': World)
    requires Reachable(w) && Run(w, acts, w')
    ensures Reachable(w')
    decreases |acts|
  {
    if acts != [] {
      ReachableByStep(w, acts[0]);
      RunReachable(Next(w, acts[0]), acts[1..], w');
    }
  }

  lemma IdentityHasOneLiveAccount(w: World, identity: Identity, a: Id, b: Id)
    requires Reachable(w) && a in w.t.users && b in w.t.users
    requires Live(w.t.users[a]) && Live(w.t.users[b]) && Holds(w.t.users[a], identity) && Holds(w.t.users[b], identity)
    ensures a == b
  {
    ReachableInv(w);
  }

  lemma EmailHasOneAccount(w: World, a: Id, b: Id)
    requires Reachable(w) && a in w.t.users && b in w.t.users
    requires w.t.users[a].email.Some? && w.t.users[a].email == w.t.users[b].email
    ensures a == b
  {
    ReachableInv(w);
  }

  /**
   * Signing in through a provider changes at most one existing account, and only
   * if that provider vouched for its address.
   */
  lemma OnlyVerifiedEmailMerges(t: Tables, p: OAuthPayload, newId: Id, now: nat, byLink: Option<Id>,
      byEmail: Option<Id>, id: Id)
    requires newId !in t.users && OAuthAnswers(t.users, p, byLink, byEmail) && id in t.users
    ensures var t' := FindOrCreateOAuthUser(t, p, newId, now, byLink, byEmail).0;
            && id in t'.users
            && (t'.users[id] != t.users[id] ==>
                  && p.emailVerified && Truthy(p.email) && t.users[id].email == p.email && Live(t.users[id])
                  && t'.users[id] == t.users[id].(links := t.users[id].links + [Link(p.identity, p.email, now)])
                  && (forall other :: other in t.users && Live(t.users[other]) ==> !Holds(t.users[other], p.identity)))
  {
  }

  /** After a successful sign-in the identity resolves to the account that was returned. */
  lemma OAuthIsStable(t: Tables, p: OAuthPayload, newId: Id, now: nat, byLink: Option<Id>, byEmail: Option<Id>,
      again: Option<Id>)
    requires UsersOk(t.users) && DevicesOwned(t) && newId !in t.users && OAuthAnswers(t.users, p, byLink, byEmail)
    requires FindOrCreateOAuthUser(t, p, newId, now, byLink, byEmail).1.Ok?
    requires LinkAnswer(FindOrCreateOAuthUser(t, p, newId, now, byLink, byEmail).0.users, p.identity, true, again)
    ensures again == Some(FindOrCreateOAuthUser(t, p, newId, now, byLink, byEmail).1.value.id)
  {
    var (t', r) := FindOrCreateOAuthUser(t, p, newId, now, byLink, byEmail);
    OAuthKeeps(t, p, newId, now, byLink, byEmail);
    var id := r.value.id;
    if byLink.None? {
      if id in t.users { HoldsSnoc(t.users[id], Link(p.identity, p.email, now), p.identity); }
      else { assert t'.users[id].links[0].identity == p.identity; }
    }
    assert Holds(t'.users[id], p.identity) && Live(t'.users[id]);
  }

  /** An anonymous account holds nothing to sign in with. */
  lemma AnonymousHoldsNothing(w: World, id: Id)
    requires Reachable(w) && id in w.t.users && w.t.users[id].accountType.Autoreg?
    ensures var u := w.t.users[id];
            u.email.None? && u.passwordHash.None? && u.links == [] && u.resetToken.None? && u.resetExpiry.None?
  {
    ReachableInv(w);
    assert UserOk(w.t.users[id]);
  }

  /** So the type the gateway hard-codes for these sign-ins is always the right one. */
  lemma LoginOnlyFindsRegistered(w: World, email: string, password: string, pick: Option<Id>)
    requires Reachable(w) && EmailAnswer(w.t.users, email, true, pick) && Login(w.t, email, password, pick).Ok?
    ensures var s := Login(w.t, email, password, pick).value;
            && s.accountType == Registered
            && s.id in w.t.users && Live(w.t.users[s.id]) && w.t.users[s.id].email == Some(email)
            && w.t.users[s.id].passwordHash.Some? && w.t.users[s.id].passwordHash.value.password == password
            && s.tokenVersion == w.t.users[s.id].tokenVersion
  {
    ReachableInv(w);
    assert UserOk(w.t.users[pick.value]);
  }

  lemma OAuthOnlyFindsRegistered(w: World, p: OAuthPayload, newId: Id, now: nat, byLink: Option<Id>,
      byEmail: Option<Id>)
    requires Reachable(w) && OAuthAnswers(w.t.users, p, byLink, byEmail)
    requires FindOrCreateOAuthUser(w.t, p, newId, now, byLink, byEmail).1.Ok?
    ensures var (t', r) := FindOrCreateOAuthUser(w.t, p, newId, now, byLink, byEmail);
            && r.value.accountType == Registered
            && r.value.id in t'.users && Live(t'.users[r.value.id])
            && r.value.tokenVersion == t'.users[r.value.id].tokenVersion
                && t'.users[r.value.id].accountType == Registered
  {
    ReachableInv(w);
    if byLink.Some? { assert UserOk(w.t.users[byLink.value]); }
    else if Mergeable(p) && byEmail.Some? { assert UserOk(w.t.users[byEmail.value]); }
  }

  /** The account type moves once at most, and never back. */
  lemma UpgradedAtMostOnce(w: World, id: Id)
    requires Reachable(w) && id in w.t.users
    ensures Count(w.trace, Upgraded(id)) <= 1
    ensures Count(w.trace, Upgraded(id)) == 1 ==> w.t.users[id].accountType == Registered
  {
    ReachableInv(w);
    assert Chronicle(w.trace, id, w.t.users[id]);
  }

  // ---------------------------------------------------------------- fingerprints

  ghost predicate ResolvesTo(t: Tables, fp: Fingerprint, id: Id) {
    Resolves(t, fp) && t.devices[fp].userId == id && !t.devices[fp].isBlocked
  }

  /** The events that end what a fingerprint resolves to. */
  predicate Unbinds(e: Event, fp: Fingerprint, id: Id) {
    e == Upgraded(id) || e == PurgeBegun(id) || e == FingerprintBlocked(fp)
  }

  lemma StepKeepsDevice(w: World, a: Action, fp: Fingerprint)
    requires Enabled(w, a) && Resolves(w.t, fp) && !w.t.devices[fp].isBlocked && w.t.users.Keys <= w.used
    requires !(a.Block? && a.fp == fp)
    requires !(a.Wipe? || a.PurgeDevices?) || a.id != w.t.devices[fp].userId
    ensures fp in NextTables(w, a).devices && !NextTables(w, a).devices[fp].isBlocked
    ensures NextTables(w, a).devices[fp].userId == w.t.devices[fp].userId
  {
  }

  lemma StepKeepsAnonymous(w: World, a: Action, id: Id)
    requires Enabled(w, a) && w.t.users.Keys <= w.used && id in w.t.users && w.t.users[id].accountType.Autoreg?
    requires EventOf(w, a) != Upgraded(id) && a != PurgeUser(id)
    ensures id in NextTables(w, a).users && NextTables(w, a).users[id].accountType.Autoreg?
  {
    if id in NextTables(w, a).users { StepRow(w, a, id); } else { StepRemoves(w, a, id); }
  }

  lemma StepKeepsFingerprint(w: World, a: Action, fp: Fingerprint, id: Id)
    requires Inv(w) && Enabled(w, a) && ResolvesTo(w.t, fp, id) && !Unbinds(EventOf(w, a), fp, id)
    ensures ResolvesTo(NextTables(w, a), fp, id)
  {
    StepKeepsDevice(w, a, fp);
    StepKeepsAnonymous(w, a, id);
  }

  ghost predicate Undisturbed(es: seq<Event>, fp: Fingerprint, id: Id) {
    forall i :: 0 <= i < |es| ==> !Unbinds(es[i], fp, id)
  }

  lemma UndisturbedCons(e: Event, es: seq<Event>, fp: Fingerprint, id: Id)
    requires Undisturbed([e] + es, fp, id)
    ensures !Unbinds(e, fp, id) && Undisturbed(es, fp, id)
  {
    assert ([e] + es)[0] == e;
    forall i | 0 <= i < |es| ensures !Unbinds(es[i], fp, id) { assert ([e] + es)[i + 1] == es[i]; }
  }

  /**
   * A fingerprint keeps resolving to its account, over any run in which that
   * account is neither upgraded nor purged and the device is not blocked.
   */
  lemma {:induction false} FingerprintSticks(w: World, acts: seq<Action>, w': World, fp: Fingerprint, id: Id)
    requires Reachable(w) && Run(w, acts, w') && ResolvesTo(w.t, fp, id)
    requires Undisturbed(Since(w, w'), fp, id)
    ensures ResolvesTo(w'.t, fp, id)
    decreases |acts|
  {
    if acts != [] {
      ReachableInv(w);
      var m := Next(w, acts[0]);
      SinceCons(w, acts, w');
      UndisturbedCons(EventOf(w, acts[0]), Since(m, w'), fp, id);
      StepKeepsFingerprint(w, acts[0], fp, id);
      ReachableByStep(w, acts[0]);
      FingerprintSticks(m, acts[1..], w', fp, id);
    }
  }

  /** While it resolves, autoreg returns that account and adds no row. */
  lemma ResolvedAutoreg(t: Tables, fp: Fingerprint, platform: Option<Platform>, ipHash: Option<string>, newId: Id,
      now: nat, id: Id)
    requires ResolvesTo(t, fp, id)
    ensures var (t', r) := CreateAutoregUser(t, fp, platform, ipHash, newId, now);
            && r == Ok(Session(id, AccountType.Autoreg, t.users[id].tokenVersion))
            && t'.users == t.users && t'.devices.Keys == t.devices.Keys
            && (forall other :: other in t.devices && other != fp ==> t'.devices[other] == t.devices[other])
            && ResolvesTo(t', fp, id)
  {
  }

  /**
   * Whatever autoreg answers is an anonymous account that was never upgraded, and
   * the fingerprint now resolves to it.
   */
  lemma AutoregNeverReturnsUpgraded(w: World, fp: Fingerprint, platform: Option<Platform>, ipHash: Option<string>,
      newId: Id, now: nat)
    requires Reachable(w) && newId !in w.used && CreateAutoregUser(w.t, fp, platform, ipHash, newId, now).1.Ok?
    ensures var (t', r) := CreateAutoregUser(w.t, fp, platform, ipHash, newId, now);
            && ResolvesTo(t', fp, r.value.id)
            && Count(w.trace, Upgraded(r.value.id)) == 0
            && (r.value.id in w.t.users <==> Resolves(w.t, fp))
  {
    var id := CreateAutoregUser(w.t, fp, platform, ipHash, newId, now).1.value.id;
    if Resolves(w.t, fp) { ReachableChronicle(w, id); } else { ReachableNoHistory(w, id); }
  }

  // ---------------------------------------------------------------- reset tokens

  predicate Supersedes(e: Event, id: Id) {
    (e.ResetIssued? && e.id == id) || (e.ResetDone? && e.id == id) || e == Deleted(id)
  }

  /** `token` is the latest one issued to the account, unused, and the account was not deleted since. */
  ghost predicate Awaiting(tr: seq<Event>, id: Id, token: string, at: nat) {
    exists i :: 0 <= i < |tr| && tr[i] == ResetIssued(id, token, at) && forall j :: i < j < |tr| ==>
        !Supersedes(tr[j], id)
  }

  lemma {:induction false} OutstandingIsAwaited(tr: seq<Event>, id: Id, token: string, at: nat)
    ensures Outstanding(tr, id) == Some((token, at)) <==> Awaiting(tr, id, token, at)
  {
    if tr != [] {
      var n := |tr| - 1;
      OutstandingIsAwaited(tr[..n], id, token, at);
      if Awaiting(tr[..n], id, token, at) && !Supersedes(tr[n], id) {
        var i :| 0 <= i < n && tr[..n][i] == ResetIssued(id, token, at) && forall j :: i < j < n ==>
            !Supersedes(tr[..n][j], id);
        assert tr[i] == ResetIssued(id, token, at);
        forall j | i < j < |tr| ensures !Supersedes(tr[j], id) { if j < n { assert tr[j] == tr[..n][j]; } }
      }
      if Awaiting(tr, id, token, at) {
        var i :| 0 <= i < |tr| && tr[i] == ResetIssued(id, token, at) && forall j :: i < j < |tr| ==>
            !Supersedes(tr[j], id);
        if i < n {
          assert tr[..n][i] == tr[i];
          forall j | i < j < n ensures !Supersedes(tr[..n][j], id) { assert tr[j] == tr[..n][j]; }
        }
      }
    }
  }

  /** Some live account is waiting for this token, and it is at most an hour old. */
  ghost predicate Redeemable(w: World, token: string, now: nat) {
    exists id: Id, at: nat ::
      Awaiting(w.trace, id, token, at) && id in w.t.users && Live(w.t.users[id]) && now <= at + RESET_TTL_MS
  }

  /**
   * A reset goes through exactly when its token is the latest one issued to a
   * live account, has not been used, and is at most an hour old.
   */
  lemma ResetSucceedsIff(w: World, token: string, hash: PasswordHash, now: nat, pick: Option<Id>)
    requires Reachable(w) && ResetAnswer(w.t.users, token, pick)
    ensures ResetPassword(w.t, token, hash, now, pick).1.Ok? <==> Redeemable(w, token, now)
  {
    if ResetPassword(w.t, token, hash, now, pick).1.Ok? {
      var id := pick.value;
      ReachableChronicle(w, id);
      var p := Outstanding(w.trace, id).value;
      OutstandingIsAwaited(w.trace, id, p.0, p.1);
      assert Awaiting(w.trace, id, token, p.1);
    }
    if Redeemable(w, token, now) {
      var id: Id, at: nat :| Awaiting(w.trace, id, token, at) && id in w.t.users && Live(w.t.users[id])
          && now <= at + RESET_TTL_MS;
      ReachableChronicle(w, id);
      OutstandingIsAwaited(w.trace, id, token, at);
      assert w.t.users[id].resetToken == Some(Sha256(token));
      assert pick.Some?;
      OneHolder(w, id, pick.value);
    }
  }

  lemma OneHolder(w: World, a: Id, b: Id)
    requires Reachable(w) && a in w.t.users && b in w.t.users
    requires w.t.users[a].resetToken.Some? && w.t.users[a].resetToken == w.t.users[b].resetToken
    ensures a == b
  {
    ReachableInv(w);
  }

  /** How often a token has been used. */
  function Uses(tr: seq<Event>, token: string): nat {
    if tr == [] then 0
    else Uses(tr[..|tr| - 1], token) + if tr[|tr| - 1].ResetDone? && tr[|tr| - 1].token == token then 1 else 0
  }

  ghost predicate Spent(w: World, token: string) {
    && Uses(w.trace, token) <= 1
    && (Uses(w.trace, token) == 1 ==>
          token in w.issued && forall id :: id in w.t.users ==> w.t.users[id].resetToken != Some(Sha256(token)))
  }

  lemma ResetDoneWasHeld(w: World, a: Action)
    requires Enabled(w, a) && EventOf(w, a).ResetDone?
    ensures var e := EventOf(w, a); e.id in w.t.users && w.t.users[e.id].resetToken == Some(Sha256(e.token))
  {
  }

  lemma StepKeepsUnheld(w: World, a: Action, token: string, id: Id)
    requires Enabled(w, a) && w.t.users.Keys <= w.used && ResetsUnique(w.t.users) && id in NextTables(w, a).users
    requires (token in w.issued && forall i :: i in w.t.users ==> w.t.users[i].resetToken != Some(Sha256(token)))
             || (EventOf(w, a).ResetDone? && EventOf(w, a).token == token)
    ensures NextTables(w, a).users[id].resetToken != Some(Sha256(token))
  {
    StepRow(w, a, id);
    if EventOf(w, a).ResetDone? { ResetDoneWasHeld(w, a); }
  }

  lemma StepKeepsSpent(w: World, a: Action, token: string)
    requires Enabled(w, a) && w.t.users.Keys <= w.used && ResetsUnique(w.t.users) && Spent(w, token)
    requires forall id :: id in w.t.users && w.t.users[id].resetToken.Some? ==>
             w.t.users[id].resetToken.value.token in w.issued
    ensures Spent(Next(w, a), token)
  {
    var w', e := Next(w, a), EventOf(w, a);
    assert w'.trace[..|w.trace|] == w.trace;
    if e.ResetDone? { ResetDoneWasHeld(w, a); }
    if Uses(w'.trace, token) == 1 {
      forall id | id in w'.t.users ensures w'.t.users[id].resetToken != Some(Sha256(token)) {
        StepKeepsUnheld(w, a, token, id);
      }
    }
  }

  lemma {:induction false} RunKeepsSpent(w: World, acts: seq<Action>, w': World, token: string)
    requires Inv(w) && Run(w, acts, w') && Spent(w, token)
    ensures Spent(w', token)
    decreases |acts|
  {
    if acts != [] {
      StepKeepsSpent(w, acts[0], token);
      StepKeepsInv(w, acts[0]);
      RunKeepsSpent(Next(w, acts[0]), acts[1..], w', token);
    }
  }

  /** A reset token works at most once. */
  lemma ResetTokenUsedAtMostOnce(w: World, token: string)
    requires Reachable(w)
    ensures Uses(w.trace, token) <= 1
  {
    var w0, acts :| Init(w0) && Run(w0, acts, w);
    RunKeepsSpent(w0, acts, w, token);
  }
}
