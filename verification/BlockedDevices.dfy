/** A blocked device gets no account and no session. */
module BlockedDevices {
  import opened Common
  import opened Accounts
  import AR = AccountRuns
  import S = Sessions

  predicate Blocked(t: Tables, fp: Fingerprint) {
    fp in t.devices && t.devices[fp].isBlocked
  }

  /** Autoreg refuses a blocked device, with the reason on record, and touches nothing. */
  lemma BlockedIsRefused(t: Tables, fp: Fingerprint, platform: Option<Platform>, ipHash: Option<string>,
                         newId: Id, now: nat)
    requires Blocked(t, fp)
    ensures var reason := t.devices[fp].blockedReason;
            CreateAutoregUser(t, fp, platform, ipHash, newId, now)
            == (t, Err(DeviceBlocked(if reason.Some? then reason.value else "policy_violation")))
  {
  }

  /** And it refuses no other: exactly blocked devices are turned away. */
  lemma RefusedIffBlocked(t: Tables, fp: Fingerprint, platform: Option<Platform>, ipHash: Option<string>,
                          newId: Id, now: nat)
    ensures CreateAutoregUser(t, fp, platform, ipHash, newId, now).1.Err? <==> Blocked(t, fp)
  {
  }

  // ---------------------------------------------------------------- over runs

  /** A step keeps a blocked device's row blocked, with its account and platform, unless it removes the row. */
  lemma StepKeepsBlock(w: AR.World, a: AR.Action, fp: Fingerprint)
    requires AR.Enabled(w, a) && Blocked(w.t, fp) && fp in AR.NextTables(w, a).devices
    ensures Blocked(AR.NextTables(w, a), fp)
    ensures var d, d' := w.t.devices[fp], AR.NextTables(w, a).devices[fp];
            d' == d || (a.Block? && a.fp == fp && d' == d.(blockedReason := a.reason))
  {
  }

  /** Only the wipe or the purge of its account removes it. */
  lemma StepRemovesBlocked(w: AR.World, a: AR.Action, fp: Fingerprint)
    requires AR.Enabled(w, a) && Blocked(w.t, fp) && fp !in AR.NextTables(w, a).devices
    ensures (a.Wipe? || a.PurgeDevices?) && a.id == w.t.devices[fp].userId
  {
  }

  /** Blocking a device blocks it, for the reason given, and changes nothing else about it. */
  lemma BlockBlocks(w: AR.World, fp: Fingerprint, reason: Option<string>)
    requires AR.Enabled(w, AR.Block(fp, reason))
    ensures Blocked(AR.NextTables(w, AR.Block(fp, reason)), fp)
    ensures AR.NextTables(w, AR.Block(fp, reason)).devices[fp]
            == w.t.devices[fp].(isBlocked := true, blockedReason := reason)
  {
  }

  /** The block is one of autoreg alone: logins by password and by provider answer as before it. */
  lemma LoginsIgnoreBlocks(w: AR.World, fp: Fingerprint, reason: Option<string>, email: string, password: string,
                           p: OAuthPayload, newId: Id, now: nat, pick: Option<Id>, byLink: Option<Id>,
                           byEmail: Option<Id>)
    requires AR.Enabled(w, AR.Block(fp, reason)) && UsersOk(w.t.users)
    requires EmailAnswer(w.t.users, email, true, pick) && OAuthAnswers(w.t.users, p, byLink, byEmail)
    ensures var t := AR.NextTables(w, AR.Block(fp, reason));
            && Login(t, email, password, pick) == Login(w.t, email, password, pick)
            && FindOrCreateOAuthUser(t, p, newId, now, byLink, byEmail).1
               == FindOrCreateOAuthUser(w.t, p, newId, now, byLink, byEmail).1
  {
  }

  /** The device's row is there in every state of the run. */
  ghost predicate Throughout(w: AR.World, acts: seq<AR.Action>, fp: Fingerprint)
    decreases |acts|
  {
    && fp in w.t.devices
    && (acts != [] ==> AR.Enabled(w, acts[0]) && Throughout(AR.Next(w, acts[0]), acts[1..], fp))
  }

  /** Until its row is removed, a blocked device stays blocked, and every autoreg with it is refused. */
  lemma {:induction false} BlockLasts(w: AR.World, acts: seq<AR.Action>, w': AR.World, fp: Fingerprint)
    requires AR.Run(w, acts, w') && Blocked(w.t, fp) && Throughout(w, acts, fp)
    ensures Blocked(w'.t, fp) && w'.t.devices[fp].userId == w.t.devices[fp].userId
    ensures forall platform, ipHash, newId, now ::
              CreateAutoregUser(w'.t, fp, platform, ipHash, newId, now).0 == w'.t
              && CreateAutoregUser(w'.t, fp, platform, ipHash, newId, now).1.Err?
    decreases |acts|
  {
    if acts != [] {
      StepKeepsBlock(w, acts[0], fp);
      BlockLasts(AR.Next(w, acts[0]), acts[1..], w', fp);
    }
  }

  // ---------------------------------------------------------------- at the gateway

  /** While it is blocked, no sign-in with the device is answered. */
  lemma BlockedNeverSignsIn(w: S.World, fp: Fingerprint, platform: Option<Platform>, ipHash: Option<string>,
                            newId: Id, at: nat, header: Option<string>, rid: nat)
    requires Blocked(w.accounts.t, fp)
    ensures !S.Enabled(w, S.SignIn(AR.Autoreg(fp, platform, ipHash, newId, at), header, rid))
  {
  }

  lemma GatewayStepKeepsBlock(w: S.World, a: S.Action, fp: Fingerprint)
    requires S.Enabled(w, a) && Blocked(w.accounts.t, fp) && fp in S.NextAccounts(w, a).t.devices
    ensures Blocked(S.NextAccounts(w, a).t, fp)
  {
    match a
    case Service(s) => StepKeepsBlock(w.accounts, s, fp);
    case SignIn(s, _, _) => StepKeepsBlock(w.accounts, s, fp);
    case UpgradeAnswered(id, _, _) => StepKeepsBlock(w.accounts, AR.Wipe(id), fp);
    case _ =>
  }

  /** Over a run of the gateway: from a block until the row is removed, no step signs the device in. */
  lemma {:induction false} BlockedDeviceIsKeptOut(ws: seq<S.World>, j: nat, k: nat, fp: Fingerprint)
    requires S.Run(ws) && j <= k < |ws| && Blocked(ws[j].accounts.t, fp)
    requires forall i :: j <= i <= k ==> fp in ws[i].accounts.t.devices
    ensures Blocked(ws[k].accounts.t, fp)
    ensures forall platform, ipHash, newId, at, header, rid ::
              !S.Enabled(ws[k], S.SignIn(AR.Autoreg(fp, platform, ipHash, newId, at), header, rid))
  {
    if j < k {
      BlockedDeviceIsKeptOut(ws, j, k - 1, fp);
      BlockNext(ws, k - 1, fp);
    }
    forall platform, ipHash, newId, at, header, rid
      ensures !S.Enabled(ws[k], S.SignIn(AR.Autoreg(fp, platform, ipHash, newId, at), header, rid))
    {
      BlockedNeverSignsIn(ws[k], fp, platform, ipHash, newId, at, header, rid);
    }
  }

  lemma BlockNext(ws: seq<S.World>, k: nat, fp: Fingerprint)
    requires S.Run(ws) && k + 1 < |ws| && Blocked(ws[k].accounts.t, fp) && fp in ws[k + 1].accounts.t.devices
    ensures Blocked(ws[k + 1].accounts.t, fp)
  {
    assert S.StepAt(ws, k);
    var a :| S.Enabled(ws[k], a) && ws[k + 1] == S.Next(ws[k], a);
    GatewayStepKeepsBlock(ws[k], a, fp);
  }
}
