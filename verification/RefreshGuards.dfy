/** The checks a refresh token passes before the gateway starts to rotate it. */
module RefreshGuards {
  import opened Common
  import opened Accounts

  /** The claims of a refresh token; older tokens lack some of them. `exp` is in seconds. */
  datatype Claims = Claims(
    sub: Option<Id>, accountType: AccountType, jti: Option<string>, deviceId: Option<string>, tv: Option<nat>,
        exp: Option<int>)

  datatype Rejection =
    | TokenExpired
    | TokenMalformed
    | DeviceClaimMissing
    | TokenRevoked
    | StoreUnavailable
    | JtiOrExpMissing
    | DeviceHeaderMissing
    | DeviceMismatch

  /** White space as `String.prototype.trim` understands it. */
  predicate IsSpace(c: char) {
    '\t' <= c <= '\r' || c == ' ' || c == '\U{00A0}' || c == '\U{1680}' || '\U{2000}' <= c <= '\U{200A}'
    || c == '\U{2028}' || c == '\U{2029}' || c == '\U{202F}' || c == '\U{205F}' || c == '\U{3000}' || c == '\U{FEFF}'
  }

  function TrimStart(s: string): string {
    if s != "" && IsSpace(s[0]) then TrimStart(s[1..]) else s
  }

  function TrimEnd(s: string): string {
    if s != "" && IsSpace(s[|s| - 1]) then TrimEnd(s[..|s| - 1]) else s
  }

  function Trim(s: string): string {
    TrimEnd(TrimStart(s))
  }

  /** `requireDeviceId`. */
  function RequireDeviceId(header: Option<string>): Result<string, Rejection> {
    var v := Trim(if header.Some? then header.value else "");
    if v == "" then Err(DeviceHeaderMissing) else Ok(v)
  }

  /** The expiry rule of section 4.1.4 of RFC 7519, on a clock in milliseconds. */
  predicate JwtExpired(exp: int, now: nat) {
    now / 1000 >= exp
  }

  /** `JwtRefreshStrategy.validate`; `blacklisted` is the store's answer, or its failure. */
  function Validate(c: Claims, blacklisted: Result<bool, ()>): Result<Claims, Rejection> {
    if !Truthy(c.sub) || !Truthy(c.jti) then Err(TokenMalformed)
    else if !Truthy(c.deviceId) then Err(DeviceClaimMissing)
    else if blacklisted.Err? then Err(StoreUnavailable)
    else if blacklisted.value then Err(TokenRevoked)
    else Ok(c)
  }

  /** The checks `AuthController.refresh` makes before it calls the service. */
  function CheckDevice(c: Claims, header: Option<string>): Result<Claims, Rejection> {
    if !Truthy(c.jti) || c.exp.None? || c.exp.value == 0 then Err(JtiOrExpMissing)
    else if RequireDeviceId(header).Err? then Err(DeviceHeaderMissing)
    else if c.deviceId != Some(RequireDeviceId(header).value) then Err(DeviceMismatch)
    else Ok(c)
  }

  /** Everything between the arrival of a signed token and the call of `AuthService.refresh`. */
  function Gate(c: Claims, header: Option<string>, blacklisted: Result<bool, ()>, now: nat): Result<Claims, Rejection> {
    if c.exp.Some? && JwtExpired(c.exp.value, now) then Err(TokenExpired)
    else if Validate(c, blacklisted).Err? then Err(Validate(c, blacklisted).error)
    else CheckDevice(c, header)
  }

  // ---------------------------------------------------------------- trimming

  predicate Trimmed(s: string) {
    s != "" ==> !IsSpace(s[0]) && !IsSpace(s[|s| - 1])
  }

  lemma {:induction false} TrimStartShape(s: string) returns (i: nat)
    ensures i <= |s| && TrimStart(s) == s[i..] && forall j :: 0 <= j < i ==> IsSpace(s[j])
    ensures i < |s| ==> !IsSpace(s[i])
  {
    i := 0;
    if s != "" && IsSpace(s[0]) {
      var rest := s[1..];
      var k := TrimStartShape(rest);
      assert rest[k..] == s[k + 1..];
      forall j | 0 <= j < k + 1 ensures IsSpace(s[j]) { if j > 0 { assert rest[j - 1] == s[j]; } }
      i := k + 1;
    }
  }

  lemma {:induction false} TrimEndShape(s: string) returns (j: nat)
    ensures j <= |s| && TrimEnd(s) == s[..j] && forall k :: j <= k < |s| ==> IsSpace(s[k])
    ensures j > 0 ==> !IsSpace(s[j - 1])
  {
    j := |s|;
    if s != "" && IsSpace(s[|s| - 1]) {
      var rest := s[..|s| - 1];
      j := TrimEndShape(rest);
      assert rest[..j] == s[..j];
      forall k | j <= k < |s| ensures IsSpace(s[k]) { if k < |rest| { assert rest[k] == s[k]; } }
    }
  }

  /** Trimming cuts white space off both ends, and nothing else. */
  lemma TrimShape(s: string) returns (i: nat, j: nat)
    ensures i <= j <= |s| && Trim(s) == s[i..j] && forall k :: 0 <= k < |s| && !(i <= k < j) ==> IsSpace(s[k])
    ensures Trimmed(Trim(s))
  {
    i := TrimStartShape(s);
    var m := s[i..];
    var n := TrimEndShape(m);
    j := i + n;
    forall k | 0 <= k < |s| && !(i <= k < j) ensures IsSpace(s[k]) {
      if k >= i { assert m[k - i] == s[k]; }
    }
    assert m[..n] == s[i..j];
    if n > 0 { assert s[i..j][0] == s[i] && s[i..j][n - 1] == m[n - 1]; }
  }

  lemma TrimmedIsFixed(s: string)
    requires Trimmed(s)
    ensures Trim(s) == s
  {
  }

  /** A device id is present exactly when the header has a character that is not white space. */
  lemma DeviceIdPresentIff(h: string)
    ensures RequireDeviceId(Some(h)).Ok? <==> exists k :: 0 <= k < |h| && !IsSpace(h[k])
    ensures RequireDeviceId(Some(h)).Ok? ==> Trimmed(RequireDeviceId(Some(h)).value)
  {
    var i, j := TrimShape(h);
    if i < j { assert Trim(h)[0] == h[i]; }
  }

  /** A token the gate lets through is unexpired, complete, not revoked, and came from its own device. */
  lemma GateAcceptsIff(c: Claims, header: Option<string>, blacklisted: Result<bool, ()>, now: nat)
    ensures Gate(c, header, blacklisted, now).Ok? <==>
              && Truthy(c.sub) && Truthy(c.jti) && Truthy(c.deviceId)
              && c.exp.Some? && c.exp.value != 0 && now < 1000 * c.exp.value
              && blacklisted == Ok(false)
              && header.Some? && Trim(header.value) == c.deviceId.value
  {
  }

  /** What a token that is turned away is told: each reason with exactly its own condition, in this order. */
  lemma RejectionReasons(c: Claims, header: Option<string>, blacklisted: Result<bool, ()>, now: nat)
    ensures var r := Gate(c, header, blacklisted, now);
            var expired := c.exp.Some? && now >= 1000 * c.exp.value;
            var named := Truthy(c.sub) && Truthy(c.jti);
            var bound := named && Truthy(c.deviceId);
            var open := bound && blacklisted == Ok(false);
            var dated := open && c.exp.Some? && c.exp.value != 0;
            && (r == Err(TokenExpired) <==> expired)
            && (r == Err(TokenMalformed) <==> !expired && !named)
            && (r == Err(DeviceClaimMissing) <==> !expired && named && !bound)
            && (r == Err(StoreUnavailable) <==> !expired && bound && blacklisted.Err?)
            && (r == Err(TokenRevoked) <==> !expired && bound && blacklisted == Ok(true))
            && (r == Err(JtiOrExpMissing) <==> !expired && open && !dated)
            && (r == Err(DeviceHeaderMissing) <==> !expired && dated && RequireDeviceId(header).Err?)
            && (r == Err(DeviceMismatch) <==>
                  !expired && dated && RequireDeviceId(header).Ok? && RequireDeviceId(header).value != c.deviceId.value)
            && (r.Ok? ==> r.value == c)
  {
  }

  /** White space is exactly these twenty-five characters. */
  lemma SpacesAre(c: char)
    ensures IsSpace(c) <==>
              c in {'\U{0009}', '\U{000A}', '\U{000B}', '\U{000C}', '\U{000D}', '\U{0020}', '\U{00A0}', '\U{1680}',
                    '\U{2000}', '\U{2001}', '\U{2002}', '\U{2003}', '\U{2004}', '\U{2005}', '\U{2006}', '\U{2007}',
                    '\U{2008}', '\U{2009}', '\U{200A}', '\U{2028}', '\U{2029}', '\U{202F}', '\U{205F}', '\U{3000}',
                    '\U{FEFF}'}
  {
  }

  /** The header a token was bound with is always accepted as its own device again. */
  lemma BoundDeviceMatches(header: Option<string>, again: string)
    requires RequireDeviceId(header).Ok?
    ensures var d := RequireDeviceId(header).value;
            && RequireDeviceId(Some(d)) == Ok(d)
            && (RequireDeviceId(Some(again)) == Ok(d) <==> Trim(again) == d)
  {
    var _, _ := TrimShape(if header.Some? then header.value else "");
    TrimmedIsFixed(RequireDeviceId(header).value);
  }
}
