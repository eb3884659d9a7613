/** Login, refresh, logout and enrolment requests as functions of the stores they read and write. */
module AuthRequests {
  import opened Common
  import opened AuthModel
  import opened AuthSerial
  import opened BackupCodes
  import opened MfaProtocol
  import ChallengeStore
  import FactorStore
  import TokenStore
  import OpaqueTokens

  datatype Auth = Auth(
    accounts: map<UserId, Account>,
    activeTenants: set<string>,
    challenges: ChallengeStore.Rows,
    factors: FactorStore.Rows,
    tokens: TokenStore.Rows)

  /** Values drawn or configured when a token or challenge is issued. */
  datatype Draw = Draw(jti: Jti, secretHash: string, familyId: string, expiresAt: int)

  datatype LoginResult = Denied | Challenged | SignedIn(session: Session)

  /** `issueTokenPair`. */
  function Mint(a: Auth, user: UserId, family: Option<string>, draw: Draw): (Auth, Option<Session>)
    requires user in a.accounts
  {
    var account := a.accounts[user];
    if !MayMint(a.activeTenants, account) then (a, None)
    else
      var token := RefreshToken(user, draw.secretHash, family.GetOr(draw.familyId), draw.expiresAt);
      (a.(tokens := a.tokens[draw.jti := token]), Some(SessionFor(user, account)))
  }

  /** The checks of `login` before any second factor; `tenantRole` is the portal the request came through. */
  predicate PasswordAccepted(
    crypto: Crypto, account: Account, password: string, scope: Scope, tenantRole: Option<Role>)
  {
    && account.passwordHash != []
    && ScopeMatches(scope, account)
    && account.isActive
    && (scope.Tenant? ==> !account.emailPending)
    && crypto.matches(password, account.passwordHash)
    && (scope.Tenant? ==> tenantRole.Some? && account.role == tenantRole)
  }

  function Login(
    crypto: Crypto, a: Auth, user: UserId, password: string, scope: Scope, tenantRole: Option<Role>,
    maxAttempts: nat, draw: Draw): (Auth, LoginResult)
  {
    if user !in a.accounts || !PasswordAccepted(crypto, a.accounts[user], password, scope, tenantRole) then (a, Denied)
    else if user in a.factors && a.factors[user].isTotpEnabled then
      var ticket := Challenge(draw.secretHash, Some(user), Totp, scope, tenantRole, None, maxAttempts,
                              draw.expiresAt, 0, None);
      (a.(challenges := a.challenges[draw.jti := ticket]), Challenged)
    else
      var (a', session) := Mint(a, user, None, draw);
      (a', if session.Some? then SignedIn(session.value) else Denied)
  }

  /** `isEligibleForEmailCodeLogin`. */
  predicate EligibleForEmailCode(a: Auth, user: UserId, scope: Scope, tenantRole: Option<Role>) {
    && user in a.accounts && a.accounts[user].isActive && ScopeMatches(scope, a.accounts[user])
    && (scope.Tenant? ==> a.accounts[user].role == tenantRole && !a.accounts[user].emailPending)
    && (user in a.factors ==> a.factors[user].isEmailCodeLoginEnabled)
  }

  /** `requestLoginCode`: an ineligible address gets a challenge with neither owner nor code. */
  function RequestLoginCode(
    a: Auth, user: UserId, scope: Scope, tenantRole: Option<Role>, codeHash: string, maxAttempts: nat, draw: Draw): Auth
  {
    var eligible := EligibleForEmailCode(a, user, scope, tenantRole);
    var ticket := Challenge(draw.secretHash, if eligible then Some(user) else None, EmailCode, scope, tenantRole,
                            if eligible then Some(codeHash) else None, maxAttempts, draw.expiresAt, 0, None);
    a.(challenges := a.challenges[draw.jti := ticket])
  }

  function WorldOf(a: Auth, now: int): World {
    World(now, a.accounts, a.activeTenants, a.challenges, a.factors, map[], map[], Begin)
  }

  function VerifyMfa(crypto: Crypto, now: int, a: Auth, raw: string, code: string, draw: Draw): (Auth, Option<Session>) {
    match OpaqueTokens.Parse(raw)
    case None => (a, None)
    case Some(token) =>
      var v := VerifyChallenge(crypto, WorldOf(a, now), token, code);
      var checked := a.(challenges := v.challenges, factors := v.factors);
      if v.session.None? then (checked, None)
      else
        var stored := RefreshToken(v.session.value.userId, draw.secretHash, draw.familyId, draw.expiresAt);
        (checked.(tokens := a.tokens[draw.jti := stored]), v.session)
  }

  /** The live token a refresh or logout request presents, if its secret is right. */
  function Presented(crypto: Crypto, a: Auth, raw: string): Option<Jti> {
    match OpaqueTokens.Parse(raw)
    case None => None
    case Some(token) =>
      if token.jti in a.tokens && crypto.matches(token.secret, a.tokens[token.jti].secretHash) then Some(token.jti)
      else None
  }

  /** The token a refresh request rotates: live, presented with its secret, owned by an existing user. */
  function Rotated(crypto: Crypto, now: int, a: Auth, raw: string): Option<Jti> {
    match Presented(crypto, a, raw)
    case None => None
    case Some(jti) => if now < a.tokens[jti].expiresAt && a.tokens[jti].userId in a.accounts then Some(jti) else None
  }

  function Refresh(crypto: Crypto, now: int, a: Auth, raw: string, draw: Draw): (Auth, Option<Session>) {
    match OpaqueTokens.Parse(raw)
    case None => (a, None)
    case Some(token) =>
      if token.jti !in a.tokens then (a, None)
      else
        var row := a.tokens[token.jti];
        var without := a.(tokens := a.tokens - {token.jti});
        if row.expiresAt <= now then (without, None)
        else if !crypto.matches(token.secret, row.secretHash) then (a, None)
        else if row.userId !in a.accounts then (without, None)
        else Mint(without, row.userId, Some(row.familyId), draw)
  }

  function Logout(crypto: Crypto, a: Auth, raw: Option<string>): Auth {
    if raw.None? || Presented(crypto, a, raw.value).None? then a
    else a.(tokens := a.tokens - {Presented(crypto, a, raw.value).value})
  }

  /** `resetMfaForUser` and the end of `disableTotp`. */
  function DropProtection(a: Auth, user: UserId): Auth {
    a.(factors := FactorStore.DisableTotp(a.factors, user),
       challenges := ChallengeStore.DeleteByUserId(a.challenges, user),
       tokens := TokenStore.DeleteByUserId(a.tokens, user))
  }

  function ResetMfa(a: Auth, user: UserId): (Auth, bool) {
    if user in a.accounts then (DropProtection(a, user), true) else (a, false)
  }

  function StartEnrollment(a: Auth, user: UserId, encrypted: string, expiresAt: int): (Auth, bool) {
    if user in a.factors && a.factors[user].isTotpEnabled then (a, false)
    else (a.(factors := FactorStore.StartTotpEnrollment(a.factors, user, encrypted, expiresAt)), true)
  }

  /** The pending secret a code may confirm now. */
  function Confirmable(crypto: Crypto, now: int, a: Auth, user: UserId): Option<string> {
    if user !in a.factors || a.factors[user].isTotpEnabled then None
    else
      var row := a.factors[user];
      if row.pendingSecret.GetOr("") == [] then None
      else if row.pendingExpiresAt.Some? && row.pendingExpiresAt.value <= now then None
      else crypto.decrypt(row.pendingSecret.value)
  }

  function EnableTotp(
    crypto: Crypto, now: int, a: Auth, user: UserId, code: string, hashes: seq<string>): (Auth, bool)
  {
    match Confirmable(crypto, now, a, user)
    case None => (a, false)
    case Some(secret) =>
      if |DigitsOf(code)| != 6 || crypto.totpStep(DigitsOf(code), secret, now, None).None? then (a, false)
      else
        var (factors, found) := FactorStore.ActivateTotp(
          a.factors, user, a.factors[user].pendingSecret.value, FactorStore.Fresh(hashes), now);
        (a.(factors := factors), found)
  }

  /** `assertPasswordMatches`. */
  predicate PasswordConfirmed(crypto: Crypto, a: Auth, user: UserId, password: string) {
    && user in a.accounts && a.accounts[user].passwordHash != []
    && crypto.matches(password, a.accounts[user].passwordHash)
  }

  function DisableTotp(
    crypto: Crypto, now: int, a: Auth, user: UserId, password: string, code: string): (Auth, bool)
  {
    if user !in a.factors || !a.factors[user].isTotpEnabled || !PasswordConfirmed(crypto, a, user, password) then
      (a, false)
    else
      var (factors, verdict) := VerifyFactor(crypto, now, a.factors, user, code);
      var checked := a.(factors := factors);
      if verdict.Passed? then (DropProtection(checked, user), true) else (checked, false)
  }

  function RegenerateBackupCodes(
    crypto: Crypto, now: int, a: Auth, user: UserId, password: string, hashes: seq<string>): (Auth, bool)
  {
    if user !in a.factors || !a.factors[user].isTotpEnabled || !PasswordConfirmed(crypto, a, user, password) then
      (a, false)
    else (a.(factors := FactorStore.ReplaceBackupCodes(a.factors, user, FactorStore.Fresh(hashes), now)), true)
  }
}
