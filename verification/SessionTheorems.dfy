/** What the gateway guarantees about refresh tokens over whole runs. */
module SessionTheorems {
  import opened Common
  import opened Accounts
  import opened RefreshGuards
  import opened TokenStore
  import opened Sessions
  import opened SessionInvariants
  import AR = AccountRuns
  import AT = AccountTheorems

  // ---------------------------------------------------------------- lineages

  /** Token `d` came from token `a` by a chain of rotations (possibly empty). */
  ghost predicate Descends(tokens: seq<Token>, d: nat, a: nat)
    requires d < |tokens|
    decreases d
  {
    d == a || (tokens[d].origin.Rotated? && tokens[d].origin.parent < d && Descends(tokens, tokens[d].origin.parent, a))
  }

  /** A lineage keeps subject, type, device and version, and only its device ever rotates it. */
  lemma {:induction false} LineageKeepsClaims(w: World, d: nat, a: nat)
    requires Inv(w) && d < |w.tokens| && a < |w.tokens| && Descends(w.tokens, d, a)
    ensures SameClaims(w.tokens[a].claims, w.tokens[d].claims)
    ensures d != a ==>
              && w.tokens[d].origin.Rotated? && w.tokens[d].claims.sub.Some?
              && w.tokens[a].claims.deviceId.Some?
                  && SameDevice(w.tokens[d].origin.header, w.tokens[a].claims.deviceId.value)
    decreases d
  {
    if d != a {
      assert TokenOk(w, d);
      LineageKeepsClaims(w, w.tokens[d].origin.parent, a);
    }
  }

  // ---------------------------------------------------------------- revocation

  /** The account is gone, deleted, or past version `v`. */
  ghost predicate Passed(a: AR.World, sub: Id, v: nat) {
    sub in a.used && (sub in a.t.users && Live(a.t.users[sub]) ==> a.t.users[sub].tokenVersion > v)
  }

  lemma PassedByService(a: AR.World, s: AR.Action, sub: Id, v: nat)
    requires AR.Enabled(a, s) && a.t.users.Keys <= a.used && Passed(a, sub, v)
    ensures Passed(AR.Next(a, s), sub, v)
  {
    if sub in AR.NextTables(a, s).users { AR.StepRow(a, s, sub); }
  }

  lemma StepPassed(w: World, a: Action, sub: Id, v: nat)
    requires Enabled(w, a) && AR.Reachable(w.accounts) && Passed(w.accounts, sub, v)
    ensures Passed(NextAccounts(w, a), sub, v)
  {
    UsedKeys(w.accounts);
    match a
    case Service(s) => PassedByService(w.accounts, s, sub, v);
    case SignIn(s, _, _) => PassedByService(w.accounts, s, sub, v);
    case UpgradeAnswered(id, _, _) => PassedByService(w.accounts, AR.Wipe(id), sub, v);
    case _ =>
  }

  lemma RunStep(ws: seq<World>, k: nat) returns (a: Action)
    requires Run(ws) && k + 1 < |ws|
    ensures Enabled(ws[k], a) && ws[k + 1] == Next(ws[k], a)
    ensures AR.Reachable(ws[k].accounts)
  {
    RunInv(ws, k);
    assert StepAt(ws, k);
    a :| Enabled(ws[k], a) && ws[k + 1] == Next(ws[k], a);
  }

  lemma PassedNext(ws: seq<World>, k: nat, sub: Id, v: nat)
    requires Run(ws) && k + 1 < |ws| && Passed(ws[k].accounts, sub, v)
    ensures Passed(ws[k + 1].accounts, sub, v)
  {
    var a := RunStep(ws, k);
    StepPassed(ws[k], a, sub, v);
  }

  lemma {:induction false} PassedStays(ws: seq<World>, j: nat, k: nat, sub: Id, v: nat)
    requires Run(ws) && j <= k < |ws| && Passed(ws[j].accounts, sub, v)
    ensures Passed(ws[k].accounts, sub, v)
  {
    if j < k {
      PassedStays(ws, j, k - 1, sub, v);
      PassedNext(ws, k - 1, sub, v);
    }
  }

  /** At step `k` of the run the account was live with this version. */
  ghost predicate WasVersion(ws: seq<World>, k: nat, sub: Id, tv: nat) {
    && k < |ws|
    && FindById(ws[k].accounts.t, sub).Ok?
    && ws[k].accounts.t.users[sub].tokenVersion == tv
  }

  /** At step `readAt` the token presented existed, and its account was live with this version. */
  ghost predicate ReadOf(ws: seq<World>, w: World, tok: nat, readAt: nat, tv: nat) {
    && HasTok(w, tok)
    && WasVersion(ws, readAt, w.tokens[tok].claims.sub.value, tv)
    && tok < |ws[readAt].tokens|
  }

  ghost predicate RequestRead(ws: seq<World>, w: World, r: Request) {
    r.VersionRead? || r.Accepted? || r.Closed? ==> ReadOf(ws, w, r.tok, r.readAt, r.tv)
  }

  ghost predicate TokenRead(ws: seq<World>, t: Token) {
    t.origin.Rotated? ==>
      && t.claims.sub.Some? && WasVersion(ws, t.origin.readAt, t.claims.sub.value, TvOf(t.claims))
      && t.origin.parent < |ws[t.origin.readAt].tokens|
  }

  lemma ReadStays(ws: seq<World>, w: World, w': World, tok: nat, readAt: nat, tv: nat)
    requires ReadOf(ws, w, tok, readAt, tv) && w.tokens <= w'.tokens
    ensures ReadOf(ws, w', tok, readAt, tv)
  {
    assert w'.tokens[tok] == w.tokens[tok];
  }

  /** A step that leaves a request with a version read has kept that read, unless it made it. */
  lemma StepKeepsRead(w: World, a: Action, rid: nat)
    requires Enabled(w, a) && rid in NextRequests(w, a)
    requires var r := NextRequests(w, a)[rid]; r.VersionRead? || r.Accepted? || r.Closed?
    requires a != ReadVersion(rid)
    ensures var r := NextRequests(w, a)[rid];
            && rid in w.requests
                && (w.requests[rid].VersionRead? || w.requests[rid].Accepted? || w.requests[rid].Closed?)
            && (r.tok, r.readAt, r.tv) == (w.requests[rid].tok, w.requests[rid].readAt, w.requests[rid].tv)
  {
  }

  lemma StepRequestRead(ws: seq<World>, w: World, a: Action, rid: nat)
    requires Enabled(w, a) && w.steps < |ws| && ws[w.steps] == w && rid in NextRequests(w, a)
    requires rid in w.requests ==> RequestRead(ws, w, w.requests[rid])
    ensures RequestRead(ws, Next(w, a), NextRequests(w, a)[rid])
  {
    StepExtends(w, a);
    var r := NextRequests(w, a)[rid];
    if r.VersionRead? || r.Accepted? || r.Closed? {
      if a != ReadVersion(rid) { StepKeepsRead(w, a, rid); }
      ReadStays(ws, w, Next(w, a), r.tok, r.readAt, r.tv);
    }
  }

  lemma RunSteps(ws: seq<World>, n: nat)
    requires Run(ws) && n < |ws|
    ensures ws[n].steps == n
  {
    RunInv(ws, n);
  }

  lemma StepTokenRead(ws: seq<World>, w: World, a: Action, i: nat)
    requires Enabled(w, a) && i < |NextTokens(w, a)|
    requires i < |w.tokens| ==> TokenRead(ws, w.tokens[i])
    requires a.Rotate? ==> RequestRead(ws, w, w.requests[a.rid])
    ensures TokenRead(ws, NextTokens(w, a)[i])
  {
  }

  ghost predicate AllRead(ws: seq<World>, w: World) {
    && (forall rid :: rid in w.requests ==> RequestRead(ws, w, w.requests[rid]))
    && (forall i :: 0 <= i < |w.tokens| ==> TokenRead(ws, w.tokens[i]))
  }

  lemma StepAllRead(ws: seq<World>, w: World, a: Action)
    requires Enabled(w, a) && w.steps < |ws| && ws[w.steps] == w && AllRead(ws, w)
    ensures AllRead(ws, Next(w, a))
  {
    var w' := Next(w, a);
    forall rid | rid in w'.requests ensures RequestRead(ws, w', w'.requests[rid]) { StepRequestRead(ws, w, a, rid); }
    forall i | 0 <= i < |w'.tokens| ensures TokenRead(ws, w'.tokens[i]) { StepTokenRead(ws, w, a, i); }
  }

  /** Every rotation's version was really the account's, at the step recorded, and its token was already out. */
  lemma {:induction false} VersionsWereRead(ws: seq<World>, n: nat)
    requires Run(ws) && n < |ws|
    ensures AllRead(ws, ws[n])
  {
    if n > 0 {
      VersionsWereRead(ws, n - 1);
      RunSteps(ws, n - 1);
      var a := RunStep(ws, n - 1);
      StepAllRead(ws, ws[n - 1], a);
    }
  }

  /**
   * Once an account has passed the version of a token, no refresh whose version
   * read comes later is accepted for that token or anything descended from it:
   * every rotation in the lineage read the version before that moment.
   */
  lemma RevocationCoversLineages(ws: seq<World>, j: nat, n: nat, root: nat, d: nat)
    requires Run(ws) && j < |ws| && n < |ws| && root < |ws[n].tokens| && d < |ws[n].tokens|
    requires Descends(ws[n].tokens, d, root) && d != root
    requires ws[n].tokens[root].claims.sub.Some?
    requires Passed(ws[j].accounts, ws[n].tokens[root].claims.sub.value, TvOf(ws[n].tokens[root].claims))
    ensures ws[n].tokens[d].origin.Rotated? && ws[n].tokens[d].origin.readAt < j
  {
    RunInv(ws, n);
    LineageKeepsClaims(ws[n], d, root);
    VersionsWereRead(ws, n);
    var t := ws[n].tokens[d];
    assert TokenRead(ws, t);
    if t.origin.readAt >= j {
      PassedStays(ws, j, t.origin.readAt, t.claims.sub.value, TvOf(t.claims));
    }
  }

  // ---------------------------------------------------------------- tokens of deleted accounts

  /** The account has been deleted, and perhaps purged since. */
  ghost predicate Dead(a: AR.World, id: Id) {
    id in a.used && (id in a.t.users ==> !Live(a.t.users[id]))
  }

  /**
   * From its deletion on, no version read for an account succeeds: so no token of
   * it that was minted later is ever rotated, and no earlier one except by a
   * refresh that had read the version before.
   */
  lemma DeadAccountNeverRotates(ws: seq<World>, j: nat, n: nat, i: nat, id: Id)
    requires Run(ws) && j < |ws| && n < |ws| && Dead(ws[j].accounts, id)
    requires i < |ws[n].tokens| && ws[n].tokens[i].origin.Rotated? && ws[n].tokens[i].claims.sub == Some(id)
    ensures ws[n].tokens[i].origin.readAt < j && ws[n].tokens[i].origin.parent < |ws[j].tokens|
  {
    VersionsWereRead(ws, n);
    var t := ws[n].tokens[i];
    assert TokenRead(ws, t);
    if t.origin.readAt >= j {
      PassedStays(ws, j, t.origin.readAt, id, TvOf(t.claims));
    } else {
      RunExtends(ws, t.origin.readAt, j);
    }
  }

  /**
   * Autoreg does answer with a deleted anonymous account while the fingerprint
   * resolves to it, and the gateway mints a token from the answer; but that token
   * can only expire.
   */
  lemma AutoregOfDeletedIsBarren(ws: seq<World>, j: nat, fp: Fingerprint, platform: Option<Platform>,
                                 ipHash: Option<string>, newId: Id, now: nat, id: Id)
    requires Run(ws) && j < |ws|
    requires AT.ResolvesTo(ws[j].accounts.t, fp, id) && !Live(ws[j].accounts.t.users[id])
    ensures CreateAutoregUser(ws[j].accounts.t, fp, platform, ipHash, newId, now).1
            == Ok(Session(id, AccountType.Autoreg, ws[j].accounts.t.users[id].tokenVersion))
    ensures forall n, i :: 0 <= n < |ws| && 0 <= i < |ws[n].tokens|
                           && ws[n].tokens[i].origin.Rotated? && ws[n].tokens[i].claims.sub == Some(id)
              ==> ws[n].tokens[i].origin.readAt < j && ws[n].tokens[i].origin.parent < |ws[j].tokens|
  {
    AT.ResolvedAutoreg(ws[j].accounts.t, fp, platform, ipHash, newId, now, id);
    RunInv(ws, j);
    UsedKeys(ws[j].accounts);
    forall n, i | 0 <= n < |ws| && 0 <= i < |ws[n].tokens|
                  && ws[n].tokens[i].origin.Rotated? && ws[n].tokens[i].claims.sub == Some(id)
      ensures ws[n].tokens[i].origin.readAt < j && ws[n].tokens[i].origin.parent < |ws[j].tokens|
    {
      DeadAccountNeverRotates(ws, j, n, i, id);
    }
  }

  // ---------------------------------------------------------------- blacklisting

  lemma NextExtends(ws: seq<World>, k: nat)
    requires Run(ws) && k + 1 < |ws|
    ensures Extends(ws[k], ws[k + 1])
  {
    var a := RunStep(ws, k);
    StepExtends(ws[k], a);
  }

  lemma {:induction false} RunExtends(ws: seq<World>, i: nat, k: nat)
    requires Run(ws) && i <= k < |ws|
    ensures ws[i].tokens <= ws[k].tokens
    ensures forall jti :: jti in ws[i].closed ==> jti in ws[k].closed && ws[k].closed[jti] == ws[i].closed[jti]
  {
    if i < k {
      RunExtends(ws, i, k - 1);
      NextExtends(ws, k - 1);
    }
  }

  /** A refresh or a logout that gets as far as its write has finished blacklisting its token. */
  lemma FinishedCallsClose(w: World, a: Action)
    requires Inv(w) && Enabled(w, a) && (a.Blacklist? || a.LogoutWrite?)
    ensures var c := w.tokens[w.requests[a.rid].tok].claims;
            && c.jti.Some? && c.exp.Some? && c.jti.value in NextClosed(w, a)
            && (Listed(NextEntries(w, a), c.jti.value, w.now) || w.now >= 1000 * c.exp.value)
  {
    assert RequestOk(w, w.requests[a.rid]);
    var c := w.tokens[w.requests[a.rid].tok].claims;
    WriteShuts(w.entries, c.jti.value, c.exp.value, w.requests[a.rid].clock, w.now);
    ShutForever(NextEntries(w, a), c.jti.value, c.exp.value, w.now, w.now);
  }

  /** The last look at the clock of a refresh or logout, and its write. */
  predicate WriteOf(a: Action, b: Action) {
    (a.Compare? && b.Blacklist? && a.rid == b.rid) || (a.LogoutStart? && b.LogoutWrite? && a.rid == b.rid)
  }

  /** If the write comes at once, the entry is kept until its token expires, and less than a second longer. */
  lemma EntryGoesWithToken(w: World, a: Action, b: Action)
    requires Inv(w) && Enabled(w, a) && WriteOf(a, b) && Enabled(Next(w, a), b)
    ensures var m := Next(w, a);
            var c := m.tokens[m.requests[b.rid].tok].claims;
            && c.jti.Some? && c.exp.Some?
            && (w.now < 1000 * c.exp.value ==>
                  && c.jti.value in NextEntries(m, b)
                  && 1000 * c.exp.value <= NextEntries(m, b)[c.jti.value] < 1000 * c.exp.value + 1000)
  {
    var m := Next(w, a);
    var c := m.tokens[m.requests[b.rid].tok].claims;
    if w.now < 1000 * c.exp.value { EntryLifetime(w.entries, c.jti.value, c.exp.value, w.now, w.now); }
  }

  /** A logout with a token that has not expired gets as far. */
  lemma LogoutGetsThrough(w: World, tok: nat, rid: nat)
    requires tok < |w.tokens| && rid !in w.requests && Truthy(w.tokens[tok].claims.jti)
    requires w.tokens[tok].claims.exp.Some? && w.now < 1000 * w.tokens[tok].claims.exp.value
    ensures Enabled(w, LogoutStart(tok, rid)) && Enabled(Next(w, LogoutStart(tok, rid)), LogoutWrite(rid))
  {
  }

  /**
   * Once a refresh or a logout has finished blacklisting a token, the gate turns
   * that token away in every later state, at every later instant, with any
   * header, whether or not the store answers.
   */
  lemma BlacklistedNeverReturns(ws: seq<World>, i: nat, k: nat, tok: nat, header: Option<string>, up: bool, later: nat)
    requires Run(ws) && i <= k < |ws| && tok < |ws[i].tokens| && ws[k].now <= later
    requires ws[i].tokens[tok].claims.jti.Some? && ws[i].tokens[tok].claims.jti.value in ws[i].closed
    ensures var c := ws[i].tokens[tok].claims;
            Gate(c, header, if up then Ok(Listed(ws[k].entries, c.jti.value, later)) else Err(()), later).Err?
  {
    RunInv(ws, k);
    RunExtends(ws, i, k);
    var c := ws[i].tokens[tok].claims;
    assert ws[k].tokens[tok] == ws[i].tokens[tok];
    assert TokenOk(ws[k], tok);
    if c.exp.Some? { ShutForever(ws[k].entries, c.jti.value, c.exp.value, ws[k].now, later); }
  }

  /**
   * One token can be rotated twice only by overlapping refreshes: each of the
   * two read the blacklist before the other had finished writing it.
   */
  lemma ReuseOnlyByOverlap(ws: seq<World>, n: nat, a: nat, b: nat)
    requires Run(ws) && n < |ws| && a < |ws[n].tokens| && b < |ws[n].tokens|
    requires ws[n].tokens[a].origin.Rotated? && ws[n].tokens[b].origin.Rotated?
    requires ws[n].tokens[a].origin.parent == ws[n].tokens[b].origin.parent
    ensures ws[n].tokens[a].origin.validatedAt < ws[n].tokens[b].origin.closedAt
    ensures ws[n].tokens[b].origin.validatedAt < ws[n].tokens[a].origin.closedAt
  {
    RunInv(ws, n);
    assert TokenOk(ws[n], a) && TokenOk(ws[n], b);
  }

  // ---------------------------------------------------------------- type coherence

  lemma StepKeepsCoherence(w: World, a: Action)
    requires Enabled(w, a) && Inv(w) && TokensCoherent(w)
    ensures TokensCoherent(Next(w, a))
  {
    var w' := Next(w, a);
    forall i | 0 <= i < |w'.tokens| && w'.tokens[i].claims.sub.Some?
      ensures Coherent(w'.accounts, w'.tokens[i].claims.sub.value, w'.tokens[i].claims.accountType,
              TvOf(w'.tokens[i].claims))
    {
      if i < |w.tokens| {
        StepCoherent(w, a, w.tokens[i].claims.sub.value, w.tokens[i].claims.accountType, TvOf(w.tokens[i].claims));
      } else {
        assert RequestOk(w, w.requests[a.rid]);
      }
    }
  }

  lemma NextCoherent(ws: seq<World>, k: nat)
    requires Run(ws) && k + 1 < |ws| && TokensCoherent(ws[k])
    ensures TokensCoherent(ws[k + 1])
  {
    var a := RunStep(ws, k);
    RunInv(ws, k);
    StepKeepsCoherence(ws[k], a);
  }

  lemma {:induction false} RunKeepsCoherence(ws: seq<World>, n: nat)
    requires Run(ws) && n < |ws| && TokensCoherent(ws[0])
    ensures TokensCoherent(ws[n])
  {
    if n > 0 {
      RunKeepsCoherence(ws, n - 1);
      NextCoherent(ws, n - 1);
    }
  }

  /**
   * If the tokens out at the start are coherent (none ahead of its account, each
   * current one of the right type), then in every reachable state a token whose
   * version is current carries its account's current type.
   */
  lemma CurrentTokensHaveTheRightType(ws: seq<World>, n: nat, i: nat)
    requires Run(ws) && n < |ws| && TokensCoherent(ws[0]) && i < |ws[n].tokens|
    requires var c := ws[n].tokens[i].claims;
             c.sub.Some? && c.sub.value in ws[n].accounts.t.users
                 && TvOf(c) == ws[n].accounts.t.users[c.sub.value].tokenVersion
    ensures ws[n].tokens[i].claims.accountType == ws[n].accounts.t.users[ws[n].tokens[i].claims.sub.value].accountType
  {
    RunKeepsCoherence(ws, n);
  }
}
