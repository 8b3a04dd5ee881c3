/** Refreshing over time: how long a minted token lives, and how often it can be used. */
module RefreshRuns {
  import opened Common
  import opened Accounts
  import opened RefreshGuards
  import opened TokenStore
  import opened Sessions
  import opened SessionInvariants
  import AR = AccountRuns
  import AI = AccountInvariants
  import AT = AccountTheorems

  // ---------------------------------------------------------------- minted tokens

  /** Account ids are never empty. */
  lemma {:induction false} RunKeepsIds(w: AR.World, acts: seq<AR.Action>, w': AR.World)
    requires AR.Run(w, acts, w') && "" !in w.used && w.t.users.Keys <= w.used
    ensures "" !in w'.used
    decreases |acts|
  {
    if acts != [] {
      StepKeepsIds(w, acts[0]);
      RunKeepsIds(AR.Next(w, acts[0]), acts[1..], w');
    }
  }

  lemma StepKeepsIds(w: AR.World, a: AR.Action)
    requires AR.Enabled(w, a) && "" !in w.used && w.t.users.Keys <= w.used
    ensures "" !in AR.Next(w, a).used && AR.Next(w, a).t.users.Keys <= AR.Next(w, a).used
  {
    if "" in AR.NextTables(w, a).users { AR.StepRow(w, a, ""); }
  }

  lemma IdsAreNotEmpty(w: AR.World)
    requires AR.Reachable(w)
    ensures "" !in w.used
  {
    var w0, acts :| AR.Init(w0) && AR.Run(w0, acts, w);
    RunKeepsIds(w0, acts, w);
  }

  /** Claims that are complete, for a device id that is one. */
  predicate Complete(c: Claims) {
    Truthy(c.sub) && Truthy(c.jti) && Truthy(c.deviceId) && Trimmed(c.deviceId.value) && c.exp.Some?
  }

  lemma CompleteLives(c: Claims, header: Option<string>, later: nat)
    requires Complete(c) && c.exp.value > 0 && RequireDeviceId(header) == Ok(c.deviceId.value)
    ensures Gate(c, header, Ok(false), later).Ok? <==> later < 1000 * c.exp.value
  {
    GateAcceptsIff(c, header, Ok(false), later);
  }

  lemma OwnDevice(d: string)
    requires d != "" && Trimmed(d)
    ensures RequireDeviceId(Some(d)) == Ok(d)
  {
    TrimmedIsFixed(d);
  }

  lemma MintComplete(w: World, a: Action)
    requires Inv(w) && Enabled(w, a) && a.Mint?
    ensures |NextTokens(w, a)| == |w.tokens| + 1 && Complete(NextTokens(w, a)[|w.tokens|].claims)
    ensures NextTokens(w, a)[|w.tokens|].claims.jti == Some(a.jti)
    ensures NextTokens(w, a)[|w.tokens|].claims.exp == Some(w.now / 1000 + w.lifetime)
  {
    IdsAreNotEmpty(w.accounts);
    assert RequestOk(w, w.requests[a.rid]);
  }

  lemma RotateComplete(w: World, a: Action)
    requires Inv(w) && Enabled(w, a) && a.Rotate?
    ensures |NextTokens(w, a)| == |w.tokens| + 1 && Complete(NextTokens(w, a)[|w.tokens|].claims)
    ensures NextTokens(w, a)[|w.tokens|].claims.jti == Some(a.jti)
    ensures NextTokens(w, a)[|w.tokens|].claims.exp == Some(w.now / 1000 + w.lifetime)
  {
    IdsAreNotEmpty(w.accounts);
    var r := w.requests[a.rid];
    assert RequestOk(w, r) && TokenOk(w, r.tok);
    var _, _ := TrimShape(r.header.value);
  }

  /**
   * A minted token, by a sign-in or by a rotation, passes the gate from its own
   * device exactly until `lifetime` seconds after the second it was minted in, and
   * no entry of the store stands against it.
   */
  lemma MintedTokenLives(w: World, a: Action, later: nat)
    requires Inv(w) && Enabled(w, a) && (a.Mint? || a.Rotate?) && w.lifetime > 0
    ensures |NextTokens(w, a)| == |w.tokens| + 1
    ensures var c := NextTokens(w, a)[|w.tokens|].claims;
            && c.jti == Some(a.jti) && !Listed(NextEntries(w, a), a.jti, later)
            && (Gate(c, c.deviceId, Ok(false), later).Ok? <==> later < 1000 * (w.now / 1000 + w.lifetime))
  {
    if a.Mint? { MintComplete(w, a); } else { RotateComplete(w, a); }
    var c := NextTokens(w, a)[|w.tokens|].claims;
    OwnDevice(c.deviceId.value);
    CompleteLives(c, c.deviceId, later);
  }

  /** What a sign-in is answered with, seen from the user service. */
  ghost function Answer(w: World, a: Action): Reply<Session>
    requires Enabled(w, a) && (a.SignIn? || a.PasswordLogin? || a.UpgradeAnswered?)
  {
    match a
    case SignIn(Autoreg(fp, platform, ipHash, newId, at), _, _) =>
      CreateAutoregUser(w.accounts.t, fp, platform, ipHash, newId, at).1
    case SignIn(OAuth(p, newId, at, byLink, byEmail), _, _) =>
      FindOrCreateOAuthUser(w.accounts.t, p, newId, at, byLink, byEmail).1
    case PasswordLogin(email, password, pick, _, _) => Login(w.accounts.t, email, password, pick)
    case UpgradeAnswered(id, _, _) => Ok(Session(id, Registered, w.accounts.unwiped[id]))
    case _ => Err(NotFound)
  }

  lemma SignInRequests(w: World, a: Action)
    requires Inv(w) && Enabled(w, a) && (a.SignIn? || a.PasswordLogin? || a.UpgradeAnswered?)
    ensures a.rid in NextRequests(w, a) && NextRequests(w, a)[a.rid].Minting?
    ensures var r := NextRequests(w, a)[a.rid];
            Answer(w, a) == Ok(Session(r.sub, r.accountType, r.tv)) && RequireDeviceId(a.header) == Ok(r.deviceId)
  {
    match a
    case SignIn(s, _, _) =>
      if s.OAuth? { AT.OAuthOnlyFindsRegistered(w.accounts, s.oauth, s.newId, s.at, s.byLink, s.byEmail); }
    case PasswordLogin(email, password, pick, _, _) => AT.LoginOnlyFindsRegistered(w.accounts, email, password, pick);
    case _ =>
  }

  /**
   * Every sign-in leads to a token for exactly the account, type and version the
   * user service answered with, although the gateway hard-codes the type, and for
   * exactly the device that asked.
   */
  lemma SignInMints(w: World, a: Action, m: World, jti: string)
    requires Inv(w) && Enabled(w, a) && (a.SignIn? || a.PasswordLogin? || a.UpgradeAnswered?)
    requires a.rid in m.requests && m.requests[a.rid] == NextRequests(w, a)[a.rid] && FreshJti(m, jti)
    ensures Enabled(m, Mint(a.rid, jti)) && |NextTokens(m, Mint(a.rid, jti))| == |m.tokens| + 1
    ensures var c := NextTokens(m, Mint(a.rid, jti))[|m.tokens|].claims;
            && c.sub.Some? && c.tv.Some? && c.deviceId.Some?
            && Answer(w, a) == Ok(Session(c.sub.value, c.accountType, c.tv.value))
            && RequireDeviceId(a.header) == Ok(c.deviceId.value)
  {
    SignInRequests(w, a);
  }

  // ---------------------------------------------------------------- usable tokens

  /** The token passes the gate now and its version is current. */
  ghost predicate Usable(w: World, tok: nat, header: Option<string>) {
    && Current(w, tok)
    && Gate(w.tokens[tok].claims, header, Ok(Listed(w.entries, w.tokens[tok].claims.jti.value, w.now)), w.now).Ok?
  }

  ghost predicate Current(w: World, tok: nat) {
    && HasTok(w, tok)
    && FindById(w.accounts.t, w.tokens[tok].claims.sub.value).Ok?
    && w.accounts.t.users[w.tokens[tok].claims.sub.value].tokenVersion == TvOf(w.tokens[tok].claims)
  }

  /** A freshly minted token can be refreshed at once exactly if its account is live and still at that version. */
  lemma MintedIsUsableIff(w: World, rid: nat, jti: string, header: Option<string>)
    requires Inv(w) && Enabled(w, Mint(rid, jti)) && w.lifetime > 0
    requires RequireDeviceId(header) == Ok(w.requests[rid].deviceId)
    ensures var r := w.requests[rid];
            Usable(Next(w, Mint(rid, jti)), |w.tokens|, header)
            <==> FindById(w.accounts.t, r.sub).Ok? && w.accounts.t.users[r.sub].tokenVersion == r.tv
  {
    MintComplete(w, Mint(rid, jti));
    CompleteLives(NextTokens(w, Mint(rid, jti))[|w.tokens|].claims, header, w.now);
  }

  /** A token from before versions were introduced is current exactly while its account is at version 0. */
  lemma MissingVersionIsZero(w: World, tok: nat)
    requires HasTok(w, tok) && w.tokens[tok].claims.tv.None?
    ensures Current(w, tok) <==>
              && FindById(w.accounts.t, w.tokens[tok].claims.sub.value).Ok?
              && w.accounts.t.users[w.tokens[tok].claims.sub.value].tokenVersion == 0
  {
  }

  /** `m` differs from `w` in its step count and in request `rid` only. */
  ghost predicate Moved(w: World, m: World, rid: nat, r: Request) {
    m == w.(steps := m.steps, requests := w.requests[rid := r])
  }

  lemma UsableMoved(w: World, m: World, rid: nat, r: Request, tok: nat, header: Option<string>)
    requires Moved(w, m, rid, r)
    ensures Current(w, tok) ==> Current(m, tok)
    ensures Usable(w, tok, header) ==> Usable(m, tok, header)
  {
  }

  /** Some steps take the gateway from `w` to `t`. */
  ghost predicate Leads(w: World, t: World) {
    exists ws :: Trace(ws, w, t)
  }

  ghost predicate Trace(ws: seq<World>, w: World, t: World) {
    |ws| > 0 && ws[0] == w && ws[|ws| - 1] == t && forall i :: 0 <= i < |ws| - 1 ==> StepAt(ws, i)
  }

  lemma LeadsNowhere(w: World)
    ensures Leads(w, w)
  {
    assert Trace([w], w, w);
  }

  lemma LeadsTrans(a: World, b: World, c: World)
    requires Leads(a, b) && Leads(b, c)
    ensures Leads(a, c)
  {
    var p :| Trace(p, a, b);
    var q :| Trace(q, b, c);
    var ws := p + q[1..];
    forall i | 0 <= i < |ws| - 1 ensures StepAt(ws, i) {
      if i < |p| - 1 {
        assert StepAt(p, i) && ws[i] == p[i] && ws[i + 1] == p[i + 1];
      } else {
        var k := i - (|p| - 1);
        assert StepAt(q, k) && ws[i] == q[k] && ws[i + 1] == q[k + 1];
      }
    }
    assert Trace(ws, a, c);
  }

  lemma LeadsByStep(w: World, a: Action)
    requires Enabled(w, a)
    ensures Leads(w, Next(w, a))
  {
    var ws := [w, Next(w, a)];
    assert Step(ws[0], ws[1]);
    assert Trace(ws, w, Next(w, a));
  }

  lemma LeadsOn(w: World, m: World, a: Action)
    requires Leads(w, m) && Enabled(m, a)
    ensures Leads(w, Next(m, a))
  {
    LeadsByStep(m, a);
    LeadsTrans(w, m, Next(m, a));
  }

  lemma PresentStep(w0: World, w: World, tok: nat, header: Option<string>, rid: nat) returns (m: World)
    requires Leads(w0, w) && Usable(w, tok, header) && rid !in w.requests
    ensures Leads(w0, m) && Moved(w, m, rid, Validated(tok, header, w.steps)) && m.steps == w.steps + 1
  {
    m := Next(w, Present(tok, header, rid));
    LeadsOn(w0, w, Present(tok, header, rid));
  }

  lemma ReadStep(w0: World, w: World, rid: nat, tok: nat, header: Option<string>, validatedAt: nat) returns (m: World)
    requires Leads(w0, w) && rid in w.requests && w.requests[rid] == Validated(tok, header, validatedAt)
             && Current(w, tok)
    ensures Leads(w0, m) && m.steps == w.steps + 1
    ensures Moved(w, m, rid, VersionRead(tok, header, validatedAt, w.steps, TvOf(w.tokens[tok].claims)))
  {
    m := Next(w, ReadVersion(rid));
    LeadsOn(w0, w, ReadVersion(rid));
  }

  lemma CompareStep(w0: World, w: World, rid: nat, tok: nat, header: Option<string>, validatedAt: nat, readAt: nat)
    returns (m: World)
    requires Leads(w0, w) && Current(w, tok)
    requires rid in w.requests
             && w.requests[rid] == VersionRead(tok, header, validatedAt, readAt, TvOf(w.tokens[tok].claims))
    ensures Leads(w0, m)
            && Moved(w, m, rid, Accepted(tok, header, validatedAt, readAt, TvOf(w.tokens[tok].claims), w.now))
  {
    m := Next(w, Compare(rid));
    LeadsOn(w0, w, Compare(rid));
  }

  lemma MovedTwice(w: World, m: World, t: World, rid: nat, q: Request, r: Request)
    requires Moved(w, m, rid, q) && Moved(m, t, rid, r)
    ensures Moved(w, t, rid, r)
  {
    assert w.requests[rid := q][rid := r] == w.requests[rid := r];
  }

  /** A usable token gets as far as the blacklist write, changing nothing but its own request. */
  lemma RefreshFirstHalf(w0: World, w: World, tok: nat, header: Option<string>, rid: nat) returns (m: World)
    requires Leads(w0, w) && Usable(w, tok, header) && rid !in w.requests
    ensures Leads(w0, m)
    ensures Moved(w, m, rid, Accepted(tok, header, w.steps, w.steps + 1, TvOf(w.tokens[tok].claims), w.now))
  {
    var tv := TvOf(w.tokens[tok].claims);
    var q1, q2 := Validated(tok, header, w.steps), VersionRead(tok, header, w.steps, w.steps + 1, tv);
    var w1 := PresentStep(w0, w, tok, header, rid);
    UsableMoved(w, w1, rid, q1, tok, header);
    var w2 := ReadStep(w0, w1, rid, tok, header, w.steps);
    UsableMoved(w1, w2, rid, q2, tok, header);
    m := CompareStep(w0, w2, rid, tok, header, w.steps, w.steps + 1);
    MovedTwice(w, w1, w2, rid, q1, q2);
    MovedTwice(w, w2, m, rid, q2, m.requests[rid]);
  }

  /** `t` has one token more than `w`, a rotation of `tok`, and at most the old token's entry. */
  ghost predicate Rotated(w: World, t: World, tok: nat, tv: nat, jti: string)
    requires HasTok(w, tok)
  {
    var parent := w.tokens[tok].claims;
    && (t.accounts, t.now, t.lifetime) == (w.accounts, w.now, w.lifetime)
    && |t.tokens| == |w.tokens| + 1 && w.tokens <= t.tokens
    && (var child := t.tokens[|w.tokens|];
        && child.origin.Rotated? && child.origin.parent == tok
        && child.claims.sub == parent.sub && child.claims.accountType == parent.accountType
        && child.claims.deviceId == parent.deviceId
        && child.claims.tv == Some(tv) && child.claims.jti == Some(jti)
        && child.claims.exp == Some(w.now / 1000 + w.lifetime))
    && (forall j :: j in t.entries ==> j in w.entries || parent.jti == Some(j))
  }

  lemma BlacklistStep(w: World, rid: nat) returns (m: World)
    requires rid in w.requests && w.requests[rid].Accepted? && HasTok(w, w.requests[rid].tok)
    ensures Enabled(w, Blacklist(rid)) && m == Next(w, Blacklist(rid))
    ensures (m.accounts, m.now, m.lifetime, m.tokens) == (w.accounts, w.now, w.lifetime, w.tokens)
    ensures rid in m.requests && m.requests[rid].Closed? && m.requests == w.requests[rid := m.requests[rid]]
    ensures (m.requests[rid].tok, m.requests[rid].tv) == (w.requests[rid].tok, w.requests[rid].tv)
    ensures forall j :: j in m.entries ==> j in w.entries || w.tokens[w.requests[rid].tok].claims.jti == Some(j)
  {
    m := Next(w, Blacklist(rid));
  }

  lemma RotateStep(m: World, rid: nat, jti: string) returns (t: World)
    requires rid in m.requests && m.requests[rid].Closed? && HasTok(m, m.requests[rid].tok) && FreshJti(m, jti)
    ensures Enabled(m, Rotate(rid, jti)) && t == Next(m, Rotate(rid, jti))
    ensures t.requests == m.requests - {rid} && t.entries == m.entries
    ensures Rotated(m, t, m.requests[rid].tok, m.requests[rid].tv, jti)
  {
    t := Next(m, Rotate(rid, jti));
  }

  /** An accepted refresh finishes: it closes the old token and mints the new one. */
  lemma RefreshSecondHalf(w0: World, w: World, rid: nat, jti: string) returns (t: World)
    requires Leads(w0, w) && FreshJti(w, jti)
    requires rid in w.requests && w.requests[rid].Accepted? && HasTok(w, w.requests[rid].tok)
    ensures Leads(w0, t) && t.requests == w.requests - {rid}
    ensures Rotated(w, t, w.requests[rid].tok, w.requests[rid].tv, jti)
  {
    var m := BlacklistStep(w, rid);
    t := RotateStep(m, rid, jti);
    LeadsOn(w0, w, Blacklist(rid));
    LeadsOn(w0, m, Rotate(rid, jti));
  }

  lemma FreshStays(w: World, t: World, tok: nat, tv: nat, jti: string, other: string)
    requires HasTok(w, tok) && Rotated(w, t, tok, tv, jti) && FreshJti(w, other) && other != jti
    ensures FreshJti(t, other)
  {
    forall i | 0 <= i < |t.tokens| ensures t.tokens[i].claims.jti != Some(other) {
      if i < |w.tokens| { assert t.tokens[i] == w.tokens[i]; }
    }
  }

  lemma RotatedIsUsable(w: World, t: World, tok: nat, jti: string, header: Option<string>)
    requires Usable(w, tok, header) && FreshJti(w, jti) && w.lifetime > 0
    requires Rotated(w, t, tok, TvOf(w.tokens[tok].claims), jti)
    ensures Usable(t, |w.tokens|, header)
  {
    var c := t.tokens[|w.tokens|].claims;
    GateAcceptsIff(w.tokens[tok].claims, header, Ok(Listed(w.entries, w.tokens[tok].claims.jti.value, w.now)), w.now);
    GateAcceptsIff(c, header, Ok(Listed(t.entries, jti, t.now)), t.now);
  }

  /** An undisturbed refresh of a usable token succeeds, hands its claims on, and gives a usable token. */
  lemma UsableTokenRefreshes(w: World, tok: nat, header: Option<string>, rid: nat, jti: string) returns (t: World)
    requires Usable(w, tok, header) && rid !in w.requests && FreshJti(w, jti)
    ensures Leads(w, t) && |t.tokens| == |w.tokens| + 1
    ensures SameClaims(w.tokens[tok].claims, t.tokens[|w.tokens|].claims)
            && t.tokens[|w.tokens|].claims.jti == Some(jti)
    ensures w.lifetime > 0 ==> Usable(t, |w.tokens|, header)
    ensures rid !in t.requests && t.requests == w.requests
    ensures t.lifetime == w.lifetime && forall j :: j != jti && FreshJti(w, j) ==> FreshJti(t, j)
  {
    LeadsNowhere(w);
    var m := RefreshFirstHalf(w, w, tok, header, rid);
    t := RefreshSecondHalf(w, m, rid, jti);
    var tv := TvOf(w.tokens[tok].claims);
    assert Rotated(w, t, tok, tv, jti);
    forall j | j != jti && FreshJti(w, j) ensures FreshJti(t, j) { FreshStays(w, t, tok, tv, jti, j); }
    if w.lifetime > 0 { RotatedIsUsable(w, t, tok, jti, header); }
  }

  /** All of these can serve as ids of tokens to come. */
  predicate AllFresh(w: World, jtis: seq<string>) {
    Distinct(jtis) && forall i :: 0 <= i < |jtis| ==> FreshJti(w, jtis[i])
  }

  lemma OneMoreRefresh(w: World, tok: nat, header: Option<string>, rid: nat, jtis: seq<string>) returns (m: World)
    requires Usable(w, tok, header) && rid !in w.requests && w.lifetime > 0 && jtis != [] && AllFresh(w, jtis)
    ensures Leads(w, m) && |m.tokens| == |w.tokens| + 1 && m.lifetime > 0 && rid !in m.requests
    ensures Usable(m, |w.tokens|, header) && AllFresh(m, jtis[1..])
  {
    m := UsableTokenRefreshes(w, tok, header, rid, jtis[0]);
    forall i | 0 <= i < |jtis[1..]| ensures FreshJti(m, jtis[1..][i]) { assert jtis[1..][i] == jtis[i + 1]; }
  }

  /** Undisturbed refreshes can go on for ever: each token of the chain is usable when its turn comes. */
  lemma {:induction false} RefreshesGoOn(w: World, tok: nat, header: Option<string>, rid: nat, jtis: seq<string>)
    returns (t: World)
    requires Usable(w, tok, header) && rid !in w.requests && w.lifetime > 0 && AllFresh(w, jtis)
    ensures Leads(w, t) && |t.tokens| == |w.tokens| + |jtis|
    ensures Usable(t, if jtis == [] then tok else |t.tokens| - 1, header)
    decreases |jtis|
  {
    if jtis == [] {
      LeadsNowhere(w);
      t := w;
    } else {
      var m := OneMoreRefresh(w, tok, header, rid, jtis);
      var rest := jtis[1..];
      t := RefreshesGoOn(m, |w.tokens|, header, rid, rest);
      LeadsTrans(w, m, t);
      assert rest == [] ==> |t.tokens| - 1 == |w.tokens|;
    }
  }

  /** A usable token stays usable, as time passes, exactly until its expiry. */
  lemma UsableUntilExpiry(w: World, tok: nat, header: Option<string>, ms: nat)
    requires Usable(w, tok, header) && w.tokens[tok].claims.jti.value !in w.entries
    ensures Usable(Next(w, Tick(ms)), tok, header) <==> w.now + ms < 1000 * w.tokens[tok].claims.exp.value
  {
    var c := w.tokens[tok].claims;
    GateAcceptsIff(c, header, Ok(Listed(w.entries, c.jti.value, w.now)), w.now);
    GateAcceptsIff(c, header, Ok(Listed(w.entries, c.jti.value, w.now + ms)), w.now + ms);
  }

  lemma BothHalfDone(w: World, tok: nat, header: Option<string>, r1: nat, r2: nat) returns (m: World)
    requires Usable(w, tok, header) && r1 !in w.requests && r2 !in w.requests && r1 != r2
    ensures Leads(w, m) && m.tokens == w.tokens && HasTok(m, tok)
    ensures r1 in m.requests && m.requests[r1].Accepted? && m.requests[r1].tok == tok
    ensures r2 in m.requests && m.requests[r2].Accepted? && m.requests[r2].tok == tok
    ensures m.entries == w.entries
  {
    LeadsNowhere(w);
    var a := RefreshFirstHalf(w, w, tok, header, r1);
    UsableMoved(w, a, r1, a.requests[r1], tok, header);
    m := RefreshFirstHalf(w, a, tok, header, r2);
  }

  lemma BothFinished(w0: World, w: World, tok: nat, r1: nat, r2: nat, j1: string, j2: string) returns (t: World)
    requires Leads(w0, w) && HasTok(w, tok) && r1 != r2
    requires r1 in w.requests && w.requests[r1].Accepted? && w.requests[r1].tok == tok
    requires r2 in w.requests && w.requests[r2].Accepted? && w.requests[r2].tok == tok
    requires FreshJti(w, j1) && FreshJti(w, j2) && j1 != j2
    ensures Leads(w0, t) && |t.tokens| == |w.tokens| + 2
    ensures forall i :: |w.tokens| <= i < |t.tokens| ==> t.tokens[i].origin.Rotated? && t.tokens[i].origin.parent == tok
  {
    var m := RefreshSecondHalf(w0, w, r1, j1);
    FreshStays(w, m, tok, w.requests[r1].tv, j1, j2);
    assert m.tokens[tok] == w.tokens[tok];
    t := RefreshSecondHalf(w0, m, r2, j2);
  }

  /**
   * Single use is not unconditional: any usable token can be rotated twice, by
   * two refreshes that both read the blacklist before either writes it.
   */
  lemma OverlappingRefreshesBothSucceed(w: World, tok: nat, header: Option<string>, r1: nat, r2: nat, j1: string,
      j2: string)
    returns (t: World)
    requires Usable(w, tok, header) && r1 !in w.requests && r2 !in w.requests && r1 != r2
    requires FreshJti(w, j1) && FreshJti(w, j2) && j1 != j2
    ensures Leads(w, t) && |t.tokens| == |w.tokens| + 2
    ensures forall i :: |w.tokens| <= i < |t.tokens| ==> t.tokens[i].origin.Rotated? && t.tokens[i].origin.parent == tok
  {
    var m := BothHalfDone(w, tok, header, r1, r2);
    t := BothFinished(w, m, tok, r1, r2, j1, j2);
  }
}
