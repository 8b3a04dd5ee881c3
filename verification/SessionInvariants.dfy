/** What every reachable state of the gateway's sessions satisfies. */
module SessionInvariants {
  import opened Common
  import opened Accounts
  import opened RefreshGuards
  import opened TokenStore
  import opened Sessions
  import AR = AccountRuns
  import AI = AccountInvariants
  import AT = AccountTheorems

  // ---------------------------------------------------------------- type coherence of one claim

  /** A claim of type and version is not ahead of the account, and right whenever it is current. */
  ghost predicate Coherent(a: AR.World, sub: Id, accountType: AccountType, tv: nat) {
    && sub in a.used
    && (sub in a.t.users ==> tv <= a.t.users[sub].tokenVersion
                             && (tv == a.t.users[sub].tokenVersion ==> accountType == a.t.users[sub].accountType))
  }

  lemma CoherentStays(a: AR.World, s: AR.Action, sub: Id, accountType: AccountType, tv: nat)
    requires AR.Enabled(a, s) && a.t.users.Keys <= a.used && Coherent(a, sub, accountType, tv)
    ensures Coherent(AR.Next(a, s), sub, accountType, tv)
  {
    if sub in AR.NextTables(a, s).users { AR.StepRow(a, s, sub); }
  }

  lemma UsedKeys(a: AR.World)
    requires AR.Reachable(a)
    ensures a.t.users.Keys <= a.used
  {
    AI.ReachableInv(a);
  }

  // ---------------------------------------------------------------- the invariant

  ghost predicate SameDevice(header: Option<string>, deviceId: string) {
    header.Some? && Trim(header.value) == deviceId
  }

  /** A rotation in flight: its token, its device, and the order of its reads. */
  ghost predicate InFlight(w: World, tok: nat, header: Option<string>, validatedAt: nat) {
    && HasTok(w, tok)
    && SameDevice(header, w.tokens[tok].claims.deviceId.value) && w.tokens[tok].claims.deviceId.value != ""
    && validatedAt < w.steps
    && (w.tokens[tok].claims.jti.value in w.closed ==> validatedAt < w.closed[w.tokens[tok].claims.jti.value])
  }

  ghost predicate RequestOk(w: World, r: Request) {
    match r
    case Minting(sub, accountType, deviceId, tv) =>
      Coherent(w.accounts, sub, accountType, tv) && deviceId != "" && Trimmed(deviceId)
    case Validated(tok, header, validatedAt) => InFlight(w, tok, header, validatedAt)
    case VersionRead(tok, header, validatedAt, readAt, tv) =>
      InFlight(w, tok, header, validatedAt) && validatedAt < readAt < w.steps
    case Accepted(tok, header, validatedAt, readAt, tv, clock) =>
      && InFlight(w, tok, header, validatedAt) && validatedAt < readAt < w.steps
      && tv == TvOf(w.tokens[tok].claims) && clock <= w.now
    case Closed(tok, header, validatedAt, readAt, tv, closedAt) =>
      && InFlight(w, tok, header, validatedAt) && validatedAt < readAt < closedAt <= w.steps
      && tv == TvOf(w.tokens[tok].claims)
      && w.tokens[tok].claims.jti.value in w.closed && w.closed[w.tokens[tok].claims.jti.value] <= closedAt
    case LoggingOut(tok, clock) => tok < |w.tokens| && clock <= w.now
  }

  /** The claims a rotation hands down: subject, type, device and version (a missing one counts as 0). */
  predicate SameClaims(a: Claims, b: Claims) {
    a.sub == b.sub && a.accountType == b.accountType && a.deviceId == b.deviceId && TvOf(a) == TvOf(b)
  }

  ghost predicate TokenOk(w: World, i: nat)
    requires i < |w.tokens|
  {
    var t := w.tokens[i];
    && (t.claims.sub.Some? ==> t.claims.sub.value in w.accounts.used)
    && (t.claims.jti.Some? && t.claims.exp.Some? && t.claims.jti.value in w.closed ==>
          Shut(w.entries, t.claims.jti.value, t.claims.exp.value, w.now))
    && (t.origin.Rotated? ==>
          && t.origin.parent < i
          && HasTok(w, t.origin.parent)
          && SameClaims(w.tokens[t.origin.parent].claims, t.claims)
          && SameDevice(t.origin.header, t.claims.deviceId.value)
          && t.origin.validatedAt < t.origin.readAt < t.origin.closedAt <= w.steps
          && w.tokens[t.origin.parent].claims.jti.value in w.closed
          && t.origin.validatedAt < w.closed[w.tokens[t.origin.parent].claims.jti.value] <= t.origin.closedAt)
  }

  ghost predicate Inv(w: World) {
    && AR.Reachable(w.accounts)
    && JtisDistinct(w.tokens)
    && (forall rid :: rid in w.requests ==> RequestOk(w, w.requests[rid]))
    && (forall i :: 0 <= i < |w.tokens| ==> TokenOk(w, i))
  }

  /** Every token out there is coherent with its account. */
  ghost predicate TokensCoherent(w: World) {
    forall i :: 0 <= i < |w.tokens| && w.tokens[i].claims.sub.Some? ==>
      Coherent(w.accounts, w.tokens[i].claims.sub.value, w.tokens[i].claims.accountType, TvOf(w.tokens[i].claims))
  }

  // ---------------------------------------------------------------- what no step undoes

  ghost predicate Extends(w: World, w': World) {
    && w'.steps == w.steps + 1 && w.now <= w'.now
    && w.tokens <= w'.tokens
    && w.accounts.used <= w'.accounts.used
    && (forall jti :: jti in w.closed ==> jti in w'.closed && w'.closed[jti] == w.closed[jti])
    && (forall jti :: jti in w'.closed && jti !in w.closed ==> w'.closed[jti] == w.steps + 1)
  }

  lemma StepExtends(w: World, a: Action)
    requires Enabled(w, a)
    ensures Extends(w, Next(w, a))
  {
  }

  lemma StepReachable(w: World, a: Action)
    requires Enabled(w, a) && AR.Reachable(w.accounts)
    ensures AR.Reachable(NextAccounts(w, a))
  {
    match a
    case Service(s) => AR.ReachableByStep(w.accounts, s);
    case SignIn(s, _, _) => AR.ReachableByStep(w.accounts, s);
    case UpgradeAnswered(id, _, _) => AR.ReachableByStep(w.accounts, AR.Wipe(id));
    case _ =>
  }

  lemma StepCoherent(w: World, a: Action, sub: Id, accountType: AccountType, tv: nat)
    requires Enabled(w, a) && AR.Reachable(w.accounts) && Coherent(w.accounts, sub, accountType, tv)
    ensures Coherent(NextAccounts(w, a), sub, accountType, tv)
  {
    UsedKeys(w.accounts);
    match a
    case Service(s) => CoherentStays(w.accounts, s, sub, accountType, tv);
    case SignIn(s, _, _) => CoherentStays(w.accounts, s, sub, accountType, tv);
    case UpgradeAnswered(id, _, _) => CoherentStays(w.accounts, AR.Wipe(id), sub, accountType, tv);
    case _ =>
  }

  lemma RequestStays(w: World, a: Action, r: Request)
    requires Enabled(w, a) && AR.Reachable(w.accounts) && RequestOk(w, r)
    ensures RequestOk(Next(w, a), r)
  {
    StepExtends(w, a);
    if r.Minting? { StepCoherent(w, a, r.sub, r.accountType, r.tv); }
    else { RequestFrame(w, Next(w, a), r); }
  }

  lemma RequestFrame(w: World, w': World, r: Request)
    requires Extends(w, w') && RequestOk(w, r) && !r.Minting?
    ensures RequestOk(w', r)
  {
  }

  /** A closed jti belongs to a token, and was closed at or before the present step. */
  ghost predicate ClosedOk(w: World) {
    forall jti :: jti in w.closed ==>
      w.closed[jti] <= w.steps && exists i :: 0 <= i < |w.tokens| && w.tokens[i].claims.jti == Some(jti)
  }

  // ---------------------------------------------------------------- new requests

  lemma SignInCoherent(w: World, s: AR.Action)
    requires AR.Reachable(w.accounts) && AR.Enabled(w.accounts, s) && SignInAnswered(w, s)
    ensures var session := SignInSession(w, s);
            Coherent(AR.Next(w.accounts, s), session.id, if s.Autoreg? then AccountType.Autoreg
                else Registered, session.tokenVersion)
  {
    UsedKeys(w.accounts);
    if s.OAuth? { AT.OAuthOnlyFindsRegistered(w.accounts, s.oauth, s.newId, s.at, s.byLink, s.byEmail); }
  }

  lemma UpgradeCoherent(w: World, id: Id)
    requires AR.Reachable(w.accounts) && id in w.accounts.unwiped
    ensures Coherent(AR.Next(w.accounts, AR.Wipe(id)), id, Registered, w.accounts.unwiped[id])
  {
    AI.ReachableInv(w.accounts);
    assert AI.Reported(w.accounts.t.users, id, w.accounts.unwiped[id]);
  }

  lemma NewMinting(w: World, a: Action)
    requires Enabled(w, a) && AR.Reachable(w.accounts) && (a.SignIn? || a.PasswordLogin? || a.UpgradeAnswered?)
    ensures RequestOk(Next(w, a), NextRequests(w, a)[a.rid])
  {
    DeviceIdPresentIff(a.header.value);
    UsedKeys(w.accounts);
    match a
    case SignIn(s, _, _) => SignInCoherent(w, s);
    case PasswordLogin(email, password, pick, _, _) => AT.LoginOnlyFindsRegistered(w.accounts, email, password, pick);
    case UpgradeAnswered(id, _, _) => UpgradeCoherent(w, id);
  }

  /** A token whose blacklisting has finished does not pass the gate: so a new rotation's jti is not closed. */
  lemma GateMeansOpen(w: World, tok: nat, header: Option<string>)
    requires HasTok(w, tok) && TokenOk(w, tok)
    requires Gate(w.tokens[tok].claims, header, Ok(Listed(w.entries, w.tokens[tok].claims.jti.value, w.now)), w.now).Ok?
    ensures w.tokens[tok].claims.jti.value !in w.closed
    ensures SameDevice(header, w.tokens[tok].claims.deviceId.value) && w.tokens[tok].claims.deviceId.value != ""
  {
  }

  lemma NewRotation(w: World, a: Action)
    requires Enabled(w, a) && Inv(w) && ClosedOk(w) && (a.Present? || a.ReadVersion? || a.Compare?)
    ensures RequestOk(Next(w, a), NextRequests(w, a)[a.rid])
  {
    if a.Present? {
      assert TokenOk(w, a.tok);
      GateMeansOpen(w, a.tok, a.header);
    } else {
      assert RequestOk(w, w.requests[a.rid]);
    }
  }

  lemma NewClosed(w: World, a: Action)
    requires Enabled(w, a) && Inv(w) && ClosedOk(w) && a.Blacklist?
    ensures RequestOk(Next(w, a), NextRequests(w, a)[a.rid])
  {
    assert RequestOk(w, w.requests[a.rid]);
  }

  lemma StepKeepsRequests(w: World, a: Action, rid: nat)
    requires Enabled(w, a) && Inv(w) && ClosedOk(w) && rid in NextRequests(w, a)
    ensures RequestOk(Next(w, a), NextRequests(w, a)[rid])
  {
    if rid in w.requests && NextRequests(w, a)[rid] == w.requests[rid] {
      RequestStays(w, a, w.requests[rid]);
    } else if a.SignIn? || a.PasswordLogin? || a.UpgradeAnswered? {
      NewMinting(w, a);
    } else if a.Blacklist? {
      NewClosed(w, a);
    } else if !a.LogoutStart? {
      NewRotation(w, a);
    }
  }

  // ---------------------------------------------------------------- tokens

  /** Two tokens with the same jti are the same token. */
  lemma JtiIdentifies(tokens: seq<Token>, i: nat, j: nat)
    requires JtisDistinct(tokens) && i < |tokens| && j < |tokens|
    requires tokens[i].claims.jti.Some? && tokens[i].claims.jti == tokens[j].claims.jti
    ensures i == j
  {
  }

  lemma TokenStaysShut(w: World, a: Action, i: nat)
    requires Enabled(w, a) && Inv(w) && i < |w.tokens|
    requires w.tokens[i].claims.jti.Some? && w.tokens[i].claims.exp.Some?
             && w.tokens[i].claims.jti.value in NextClosed(w, a)
    ensures Shut(NextEntries(w, a), w.tokens[i].claims.jti.value, w.tokens[i].claims.exp.value, Next(w, a).now)
  {
    assert TokenOk(w, i);
    var c := w.tokens[i].claims;
    if a.Blacklist? || a.LogoutWrite? {
      var r := w.requests[a.rid];
      assert RequestOk(w, r);
      var d := w.tokens[r.tok].claims;
      WriteShuts(w.entries, d.jti.value, d.exp.value, r.clock, w.now);
      if c.jti == d.jti { JtiIdentifies(w.tokens, i, r.tok); }
    }
  }

  lemma OldToken(w: World, a: Action, i: nat)
    requires Enabled(w, a) && Inv(w) && i < |w.tokens|
    ensures TokenOk(Next(w, a), i)
  {
    StepExtends(w, a);
    assert TokenOk(w, i);
    if w.tokens[i].claims.jti.Some? && w.tokens[i].claims.exp.Some?
        && w.tokens[i].claims.jti.value in NextClosed(w, a) {
      TokenStaysShut(w, a, i);
    }
    assert Next(w, a).tokens[i] == w.tokens[i];
  }

  lemma NewMinted(w: World, a: Action)
    requires Enabled(w, a) && Inv(w) && ClosedOk(w) && a.Mint?
    ensures TokenOk(Next(w, a), |w.tokens|)
  {
    assert RequestOk(w, w.requests[a.rid]);
    assert a.jti !in w.closed;
  }

  lemma NewRotated(w: World, a: Action)
    requires Enabled(w, a) && Inv(w) && ClosedOk(w) && a.Rotate?
    ensures TokenOk(Next(w, a), |w.tokens|)
  {
    var r := w.requests[a.rid];
    assert RequestOk(w, r) && TokenOk(w, r.tok);
    assert a.jti !in w.closed;
    assert Next(w, a).tokens[r.tok] == w.tokens[r.tok];
  }

  lemma StepKeepsClosed(w: World, a: Action)
    requires Enabled(w, a) && ClosedOk(w)
    ensures ClosedOk(Next(w, a))
  {
    var w' := Next(w, a);
    forall jti | jti in w'.closed
      ensures w'.closed[jti] <= w'.steps && exists i :: 0 <= i < |w'.tokens| && w'.tokens[i].claims.jti == Some(jti)
    {
      if jti in w.closed {
        var i :| 0 <= i < |w.tokens| && w.tokens[i].claims.jti == Some(jti);
        assert w'.tokens[i] == w.tokens[i];
      } else {
        var i := w.requests[a.rid].tok;
        assert w'.tokens[i].claims.jti == Some(jti);
      }
    }
  }

  lemma StepKeepsJtis(w: World, a: Action)
    requires Enabled(w, a) && JtisDistinct(w.tokens)
    ensures JtisDistinct(NextTokens(w, a))
  {
  }

  lemma StepKeepsInv(w: World, a: Action)
    requires Enabled(w, a) && Inv(w) && ClosedOk(w)
    ensures Inv(Next(w, a)) && ClosedOk(Next(w, a))
  {
    var w' := Next(w, a);
    StepReachable(w, a);
    StepKeepsJtis(w, a);
    StepKeepsClosed(w, a);
    forall rid | rid in w'.requests ensures RequestOk(w', w'.requests[rid]) { StepKeepsRequests(w, a, rid); }
    forall i | 0 <= i < |w'.tokens| ensures TokenOk(w', i) {
      if i < |w.tokens| { OldToken(w, a, i); } else if a.Mint? { NewMinted(w, a); } else { NewRotated(w, a); }
    }
  }

  lemma NextInv(ws: seq<World>, k: nat)
    requires Run(ws) && k + 1 < |ws| && Inv(ws[k]) && ClosedOk(ws[k])
    ensures Inv(ws[k + 1]) && ClosedOk(ws[k + 1]) && ws[k + 1].steps == ws[k].steps + 1
  {
    assert StepAt(ws, k);
    var a :| Enabled(ws[k], a) && ws[k + 1] == Next(ws[k], a);
    StepKeepsInv(ws[k], a);
  }

  lemma {:induction false} RunInv(ws: seq<World>, i: nat)
    requires Run(ws) && i < |ws|
    ensures Inv(ws[i]) && ClosedOk(ws[i]) && ws[i].steps == i
  {
    if i > 0 {
      RunInv(ws, i - 1);
      NextInv(ws, i - 1);
    }
  }
}
