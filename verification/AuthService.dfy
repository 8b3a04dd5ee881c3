/** The gateway's `refresh` and `logout` as imperative code over the token store. */
module AuthService {
  import opened Common
  import opened Accounts
  import opened RefreshGuards
  import opened TokenStore
  import opened Sessions

  datatype Failure =
    | Revoked                     // 401 token_invalid
    | UpstreamError(status: int)  // whatever the user service answered
    | StoreDown

  /** What a provider's verifier returns besides the identity, and what the client claims. */
  datatype Verified = Verified(email: Option<string>, emailVerified: Option<bool>, name: Option<string>)
  datatype Claimed = Claimed(email: Option<string>, name: Option<string>)

  /**
   * The request `oauthLogin` sends: what the verifier returned, completed by what
   * the client claims. A claimed address never counts as verified.
   */
  function OAuthRequest(identity: Identity, v: Verified, c: Claimed): OAuthPayload {
    OAuthPayload(identity, Coalesce(v.email, c.email), Truthy(v.email) && v.emailVerified == Some(true),
                 Coalesce(v.name, c.name))
  }

  /**
   * Only an address the provider itself returned and vouched for can merge
   * accounts; what the client claims is used only where the provider said nothing.
   */
  lemma ClaimedEmailNeverMerges(identity: Identity, v: Verified, c: Claimed)
    ensures var p := OAuthRequest(identity, v, c);
            && (Mergeable(p) <==> Truthy(v.email) && v.emailVerified == Some(true))
            && (Mergeable(p) ==> p.email == v.email)
            && p.identity == identity
            && (v.email.Some? ==> p.email == v.email) && (v.email.None? ==> p.email == c.email)
            && (v.name.Some? ==> p.name == v.name) && (v.name.None? ==> p.name == c.name)
  {
  }

  class Auth {
    const store: Store

    constructor (store: Store)
      ensures this.store == store
    {
      this.store := store;
    }

    /**
     * `refresh`. `version` is the answer of the version RPC, or its HTTP status;
     * `clock`, `at` and `now` are the instants at which the ttl is computed, the
     * blacklist written and the new pair signed; `up` says whether the store answers.
     */
    method Refresh(userId: Id, oldJti: string, oldExp: int, deviceId: string, accountType: AccountType,
        presentedTv: Option<nat>,
                   version: Result<nat, int>, clock: nat, at: nat, up: bool, jti: string, now: nat, lifetime: nat)
      returns (r: Result<Claims, Failure>)
      requires clock <= at <= now
      modifies store
      ensures r.Ok? <==>
                && version.Ok? && version.value == (if presentedTv.Some? then presentedTv.value else 0)
                && (up || Ttl(oldExp, clock) <= 0)
      ensures r.Ok? ==>
                && r.value == Issue(userId, accountType, deviceId, version.value, jti, now, lifetime)
                && (forall later :: later >= at ==> Listed(store.entries, oldJti, later) || JwtExpired(oldExp, later))
      ensures r.Ok? && userId != "" && jti != "" && lifetime > 0 ==>
                forall header, later: nat :: RequireDeviceId(header) == Ok(deviceId) ==>
                  (Gate(r.value, header, Ok(false), later).Ok? <==> later < 1000 * (now / 1000 + lifetime))
      ensures r.Err? ==> store.entries == old(store.entries)
      ensures version.Err? ==> r == Err(if version.error == 404 then Revoked else UpstreamError(version.error))
      ensures version.Ok? && version.value != (if presentedTv.Some? then presentedTv.value else 0) ==> r == Err(Revoked)
    {
      match version {
        case Err(status) =>
          if status == 404 { return Err(Revoked); }
          return Err(UpstreamError(status));
        case Ok(tokenVersion) =>
          var claimedTv := if presentedTv.Some? then presentedTv.value else 0;
          if claimedTv != tokenVersion { return Err(Revoked); }
          var closed := store.BlacklistRefreshToken(oldJti, oldExp, clock, at, up);
          if closed.Err? { return Err(StoreDown); }
          r := Ok(Claims(Some(userId), accountType, Some(jti), Some(deviceId), Some(tokenVersion),
              Some(now / 1000 + lifetime)));
      }
    }

    /**
     * `logout`: always a success to the caller. `verified` is the token's claims
     * if its signature and expiry check out. The token is shut out exactly when
     * it can be named and the store took the write.
     */
    method Logout(verified: Option<Claims>, clock: nat, at: nat, up: bool) returns (success: bool)
      requires clock <= at
      modifies store
      ensures success
      ensures var named := verified.Some? && Truthy(verified.value.jti) && verified.value.exp.Some?
              && verified.value.exp.value != 0;
              if named && up then
                store.entries == Write(old(store.entries), verified.value.jti.value, verified.value.exp.value, clock,
                    at)
              else store.entries == old(store.entries)
    {
      success := true;
      if verified.None? { return; }
      var c := verified.value;
      if Truthy(c.jti) && c.exp.Some? && c.exp.value != 0 {
        var _ := store.BlacklistRefreshToken(c.jti.value, c.exp.value, clock, at, up);
      }
    }
  }
}
