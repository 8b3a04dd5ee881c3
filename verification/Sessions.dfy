/**
 * The gateway's sessions over the user service: minting, rotating and revoking
 * refresh tokens, with every rotation split at each of its remote calls and
 * interleaved with everything else.
 */
module Sessions {
  import opened Common
  import opened Accounts
  import opened RefreshGuards
  import opened TokenStore
  import AR = AccountRuns

  /**
   * Where a token came from; for a rotation, the token presented, the device
   * header sent with it, and at which steps of the run the blacklist was read,
   * the version was read, and the blacklisting of the old token was finished.
   */
  datatype Origin =
    | Legacy
    | SignedIn
    | Rotated(parent: nat, header: Option<string>, validatedAt: nat, readAt: nat, closedAt: nat)

  datatype Token = Token(claims: Claims, origin: Origin)

  /** A request the gateway is in the middle of. `tok` indexes the token presented. */
  datatype Request =
    | Minting(sub: Id, accountType: AccountType, deviceId: string, tv: nat)
    | Validated(tok: nat, header: Option<string>, validatedAt: nat)
    | VersionRead(tok: nat, header: Option<string>, validatedAt: nat, readAt: nat, tv: nat)
    | Accepted(tok: nat, header: Option<string>, validatedAt: nat, readAt: nat, tv: nat, clock: nat)
    | Closed(tok: nat, header: Option<string>, validatedAt: nat, readAt: nat, tv: nat, closedAt: nat)
    | LoggingOut(tok: nat, clock: nat)

  /**
   * `closed` is history: the step after which a blacklisting call for a jti had
   * first finished. `lifetime` is the configured one of refresh tokens, in seconds.
   */
  datatype World = World(
    accounts: AR.World,
    now: nat,
    steps: nat,
    lifetime: nat,
    tokens: seq<Token>,
    entries: Entries,
    closed: map<string, nat>,
    requests: map<nat, Request>)

  datatype Action =
    | Tick(ms: nat)
    | Service(a: AR.Action)  // a step of the user service that the gateway does not turn into a token
    | SignIn(a: AR.Action, header: Option<string>, rid: nat)  // autoreg or OAuth, answered
    | PasswordLogin(email: string, password: string, pick: Option<Id>, header: Option<string>, rid: nat)
    | UpgradeAnswered(id: Id, header: Option<string>, rid: nat)  // the device wipe, then the answer
    | Mint(rid: nat, jti: string)
    | Present(tok: nat, header: Option<string>, rid: nat)
    | ReadVersion(rid: nat)
    | Compare(rid: nat)
    | Blacklist(rid: nat)
    | Rotate(rid: nat, jti: string)
    | LogoutStart(tok: nat, rid: nat)
    | LogoutWrite(rid: nat)
    | Drop(rid: nat)  // refused, failed, or lost

  function TvOf(c: Claims): nat {
    if c.tv.Some? then c.tv.value else 0
  }

  /** `issueTokenPair`: the refresh claims. */
  function Issue(sub: Id, accountType: AccountType, deviceId: string, tv: nat, jti: string, now: nat,
      lifetime: nat): Claims {
    Claims(Some(sub), accountType, Some(jti), Some(deviceId), Some(tv), Some(now / 1000 + lifetime))
  }

  /** A random id: no token has it, and the store has no entry for it. */
  predicate FreshJti(w: World, jti: string) {
    jti != "" && jti !in w.entries && forall i :: 0 <= i < |w.tokens| ==> w.tokens[i].claims.jti != Some(jti)
  }

  predicate Asked(w: World, rid: nat) { rid in w.requests }

  ghost predicate SignInAnswered(w: World, a: AR.Action) {
    match a
    case Autoreg(fp, platform, ipHash, newId, at) =>
      CreateAutoregUser(w.accounts.t, fp, platform, ipHash, newId, at).1.Ok?
    case OAuth(p, newId, at, byLink, byEmail) =>
      OAuthAnswers(w.accounts.t.users, p, byLink, byEmail)
          && FindOrCreateOAuthUser(w.accounts.t, p, newId, at, byLink, byEmail).1.Ok?
    case _ => false
  }

  ghost function SignInSession(w: World, a: AR.Action): Session
    requires SignInAnswered(w, a)
  {
    match a
    case Autoreg(fp, platform, ipHash, newId, at) =>
      CreateAutoregUser(w.accounts.t, fp, platform, ipHash, newId, at).1.value
    case OAuth(p, newId, at, byLink, byEmail) =>
      FindOrCreateOAuthUser(w.accounts.t, p, newId, at, byLink, byEmail).1.value
  }

  predicate HasTok(w: World, tok: nat) {
    && tok < |w.tokens|
    && w.tokens[tok].claims.sub.Some? && w.tokens[tok].claims.jti.Some?
    && w.tokens[tok].claims.deviceId.Some? && w.tokens[tok].claims.exp.Some?
  }

  ghost predicate Enabled(w: World, a: Action) {
    match a
    case Tick(_) => true
    case Service(s) => AR.Enabled(w.accounts, s)
    case SignIn(s, header, rid) =>
      AR.Enabled(w.accounts, s) && SignInAnswered(w, s) && RequireDeviceId(header).Ok? && !Asked(w, rid)
    case PasswordLogin(email, password, pick, header, rid) =>
      && EmailAnswer(w.accounts.t.users, email, true, pick) && Login(w.accounts.t, email, password, pick).Ok?
      && RequireDeviceId(header).Ok? && !Asked(w, rid)
    case UpgradeAnswered(id, header, rid) => id in w.accounts.unwiped && RequireDeviceId(header).Ok? && !Asked(w, rid)
    case Mint(rid, jti) => Asked(w, rid) && w.requests[rid].Minting? && FreshJti(w, jti)
    case Present(tok, header, rid) =>
      && HasTok(w, tok) && !Asked(w, rid)
      && Gate(w.tokens[tok].claims, header, Ok(Listed(w.entries, w.tokens[tok].claims.jti.value, w.now)), w.now).Ok?
    case ReadVersion(rid) =>
      && Asked(w, rid) && w.requests[rid].Validated? && HasTok(w, w.requests[rid].tok)
      && FindById(w.accounts.t, w.tokens[w.requests[rid].tok].claims.sub.value).Ok?
    case Compare(rid) =>
      && Asked(w, rid) && w.requests[rid].VersionRead? && HasTok(w, w.requests[rid].tok)
      && TvOf(w.tokens[w.requests[rid].tok].claims) == w.requests[rid].tv
    case Blacklist(rid) => Asked(w, rid) && w.requests[rid].Accepted? && HasTok(w, w.requests[rid].tok)
    case Rotate(rid, jti) =>
      Asked(w, rid) && w.requests[rid].Closed? && HasTok(w, w.requests[rid].tok) && FreshJti(w, jti)
    case LogoutStart(tok, rid) =>
      && tok < |w.tokens| && !Asked(w, rid) && Truthy(w.tokens[tok].claims.jti) && w.tokens[tok].claims.exp.Some?
      && !JwtExpired(w.tokens[tok].claims.exp.value, w.now)
    case LogoutWrite(rid) =>
      && Asked(w, rid) && w.requests[rid].LoggingOut? && w.requests[rid].tok < |w.tokens|
      && w.tokens[w.requests[rid].tok].claims.jti.Some? && w.tokens[w.requests[rid].tok].claims.exp.Some?
    case Drop(rid) => Asked(w, rid)
  }

  ghost function NextAccounts(w: World, a: Action): AR.World
    requires Enabled(w, a)
  {
    match a
    case Service(s) => AR.Next(w.accounts, s)
    case SignIn(s, _, _) => AR.Next(w.accounts, s)
    case UpgradeAnswered(id, _, _) => AR.Next(w.accounts, AR.Wipe(id))
    case _ => w.accounts
  }

  ghost function NextTokens(w: World, a: Action): seq<Token>
    requires Enabled(w, a)
  {
    match a
    case Mint(rid, jti) =>
      var r := w.requests[rid];
      w.tokens + [Token(Issue(r.sub, r.accountType, r.deviceId, r.tv, jti, w.now, w.lifetime), SignedIn)]
    case Rotate(rid, jti) =>
      var r := w.requests[rid];
      var c := w.tokens[r.tok].claims;
      w.tokens + [Token(Issue(c.sub.value, c.accountType, c.deviceId.value, r.tv, jti, w.now, w.lifetime),
                        Rotated(r.tok, r.header, r.validatedAt, r.readAt, r.closedAt))]
    case _ => w.tokens
  }

  ghost function NextRequests(w: World, a: Action): map<nat, Request>
    requires Enabled(w, a)
  {
    match a
    case SignIn(s, header, rid) =>
      var session := SignInSession(w, s);
      var hardCoded := if s.Autoreg? then AccountType.Autoreg else Registered;
      w.requests[rid := Minting(session.id, hardCoded, RequireDeviceId(header).value, session.tokenVersion)]
    case PasswordLogin(email, password, pick, header, rid) =>
      var session := Login(w.accounts.t, email, password, pick).value;
      w.requests[rid := Minting(session.id, Registered, RequireDeviceId(header).value, session.tokenVersion)]
    case UpgradeAnswered(id, header, rid) =>
      w.requests[rid := Minting(id, Registered, RequireDeviceId(header).value, w.accounts.unwiped[id])]
    case Present(tok, header, rid) => w.requests[rid := Validated(tok, header, w.steps)]
    case ReadVersion(rid) =>
      var r := w.requests[rid];
      var tv := w.accounts.t.users[w.tokens[r.tok].claims.sub.value].tokenVersion;
      w.requests[rid := VersionRead(r.tok, r.header, r.validatedAt, w.steps, tv)]
    case Compare(rid) =>
      var r := w.requests[rid];
      w.requests[rid := Accepted(r.tok, r.header, r.validatedAt, r.readAt, r.tv, w.now)]
    case Blacklist(rid) =>
      var r := w.requests[rid];
      w.requests[rid := Closed(r.tok, r.header, r.validatedAt, r.readAt, r.tv, w.steps + 1)]
    case LogoutStart(tok, rid) => w.requests[rid := LoggingOut(tok, w.now)]
    case Mint(rid, _) => w.requests - {rid}
    case Rotate(rid, _) => w.requests - {rid}
    case LogoutWrite(rid) => w.requests - {rid}
    case Drop(rid) => w.requests - {rid}
    case _ => w.requests
  }

  ghost function NextEntries(w: World, a: Action): Entries
    requires Enabled(w, a)
  {
    if a.Blacklist? || a.LogoutWrite? then
      var c := w.tokens[w.requests[a.rid].tok].claims;
      Write(w.entries, c.jti.value, c.exp.value, w.requests[a.rid].clock, w.now)
    else w.entries
  }

  ghost function NextClosed(w: World, a: Action): map<string, nat>
    requires Enabled(w, a)
  {
    if a.Blacklist? || a.LogoutWrite? then
      var jti := w.tokens[w.requests[a.rid].tok].claims.jti.value;
      if jti in w.closed then w.closed else w.closed[jti := w.steps + 1]
    else w.closed
  }

  ghost function Next(w: World, a: Action): World
    requires Enabled(w, a)
  {
    World(NextAccounts(w, a), if a.Tick? then w.now + a.ms else w.now, w.steps + 1, w.lifetime,
          NextTokens(w, a), NextEntries(w, a), NextClosed(w, a), NextRequests(w, a))
  }

  /** Any state of the service, with any tokens that are already out; no two share a jti. */
  ghost predicate Init(w: World) {
    && AR.Reachable(w.accounts)
    && w.steps == 0 && w.closed == map[] && w.requests == map[]
    && (forall i :: 0 <= i < |w.tokens| ==>
          w.tokens[i].origin.Legacy?
              && (w.tokens[i].claims.sub.Some? ==> w.tokens[i].claims.sub.value in w.accounts.used))
    && JtisDistinct(w.tokens)
  }

  ghost predicate JtisDistinct(tokens: seq<Token>) {
    forall i, j :: 0 <= i < j < |tokens| && tokens[i].claims.jti.Some? ==> tokens[i].claims.jti != tokens[j].claims.jti
  }

  ghost predicate Step(w: World, w': World) {
    exists a :: Enabled(w, a) && w' == Next(w, a)
  }

  ghost predicate StepAt(ws: seq<World>, i: nat) {
    i + 1 < |ws| && Step(ws[i], ws[i + 1])
  }

  /** A run, as the sequence of its states: `ws[i]` is the state after i steps. */
  ghost predicate Run(ws: seq<World>) {
    |ws| > 0 && Init(ws[0]) && forall i :: 0 <= i < |ws| - 1 ==> StepAt(ws, i)
  }
}
