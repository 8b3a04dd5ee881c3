/** The blacklist of refresh tokens: timed entries in a key-value store. */
module TokenStore {
  import opened Common
  import opened RefreshGuards

  /** Live until the stored instant, in milliseconds. */
  type Entries = map<string, int>

  function Ttl(exp: int, clock: nat): int {
    exp - clock / 1000
  }

  /** `SET key 1 EX ttl` executed at `at`, for a ttl computed from a clock read at `clock`. */
  function Write(es: Entries, jti: string, exp: int, clock: nat, at: nat): Entries {
    if Ttl(exp, clock) > 0 then es[jti := at + 1000 * Ttl(exp, clock)] else es
  }

  predicate Listed(es: Entries, jti: string, now: nat) {
    jti in es && now < es[jti]
  }

  /** From `now` on, this token is turned away: by its entry, and after that by its expiry. */
  predicate Shut(es: Entries, jti: string, exp: int, now: nat) {
    (jti in es && es[jti] >= 1000 * exp) || JwtExpired(exp, now)
  }

  /** An entry outlives its token, and by less than a second plus the delay of the write. */
  lemma EntryLifetime(es: Entries, jti: string, exp: int, clock: nat, at: nat)
    requires clock <= at && Ttl(exp, clock) > 0
    ensures jti in Write(es, jti, exp, clock, at)
    ensures 1000 * exp <= Write(es, jti, exp, clock, at)[jti] < 1000 * exp + 1000 + (at - clock)
  {
  }

  /**
   * The entry is seen for exactly the whole seconds the token had left; so at every
   * instant until the expiry, and at none a second and the delay of the write after it.
   */
  lemma ListedUntil(es: Entries, jti: string, exp: int, clock: nat, at: nat, later: nat)
    requires clock <= at <= later && Ttl(exp, clock) > 0
    ensures Listed(Write(es, jti, exp, clock, at), jti, later) <==> later - at < 1000 * (exp - clock / 1000)
    ensures later < 1000 * exp ==> Listed(Write(es, jti, exp, clock, at), jti, later)
    ensures later >= 1000 * exp + 1000 + (at - clock) ==> !Listed(Write(es, jti, exp, clock, at), jti, later)
  {
    EntryLifetime(es, jti, exp, clock, at);
  }

  /** A finished call shuts the token out, also when it wrote nothing. */
  lemma WriteShuts(es: Entries, jti: string, exp: int, clock: nat, at: nat)
    requires clock <= at
    ensures Shut(Write(es, jti, exp, clock, at), jti, exp, at)
    ensures forall other: string, e: int,
            t: nat :: (other != jti || e == exp) && t <= at && Shut(es, other,
                e, t) ==> Shut(Write(es, jti, exp, clock, at), other, e, at)
  {
  }

  /** What `Shut` means: at every later millisecond the token is listed or expired. */
  lemma ShutForever(es: Entries, jti: string, exp: int, now: nat, later: nat)
    requires now <= later && Shut(es, jti, exp, now)
    ensures Listed(es, jti, later) || JwtExpired(exp, later)
  {
  }

  class Store {
    var entries: Entries

    constructor ()
      ensures entries == map[]
    {
      entries := map[];
    }

    /**
     * `blacklistRefreshToken`: the clock reads `clock`, the store executes the
     * write at `at`; `up` says whether it answers.
     */
    method BlacklistRefreshToken(jti: string, exp: int, clock: nat, at: nat, up: bool) returns (r: Result<(), ()>)
      requires clock <= at
      modifies this
      ensures r.Ok? <==> up || Ttl(exp, clock) <= 0
      ensures entries == if r.Ok? then Write(old(entries), jti, exp, clock, at) else old(entries)
      ensures r.Ok? ==> forall later :: later >= at ==> Listed(entries, jti, later) || JwtExpired(exp, later)
      ensures forall other :: other != jti ==>
              (other in entries <==> other in old(entries)) && (other in entries ==>
                  entries[other] == old(entries)[other])
    {
      WriteShuts(entries, jti, exp, clock, at);
      var ttl := exp - clock / 1000;
      if ttl > 0 {
        if !up { return Err(()); }
        entries := entries[jti := at + 1000 * ttl];
      }
      r := Ok(());
      forall later: nat | later >= at ensures Listed(entries, jti, later) || JwtExpired(exp, later) {
        ShutForever(entries, jti, exp, at, later);
      }
    }

    /**
     * `isBlacklisted`: a store that does not answer is an error, never a "no"; and
     * a "no" means that no unexpired token with this jti has been shut out.
     */
    method IsBlacklisted(jti: string, now: nat, up: bool) returns (r: Result<bool, ()>)
      ensures r == if up then Ok(Listed(entries, jti, now)) else Err(())
      ensures r == Ok(false) ==> forall exp :: Shut(entries, jti, exp, now) ==> JwtExpired(exp, now)
    {
      if !up { return Err(()); }
      r := Ok(jti in entries && now < entries[jti]);
    }
  }
}
