/** The service classes, serving one request at a time over the repositories. */
module AuthServices {
  import opened Common
  import opened AuthModel
  import opened AuthRepositories
  import opened AuthRequests
  import opened BackupCodes
  import opened MfaProtocol
  import AuthSerial
  import ChallengeStore
  import FactorStore
  import OpaqueTokens

  class MfaChallengeService {
    const repository: MfaChallengeRepository

    constructor (repository: MfaChallengeRepository)
      ensures this.repository == repository
    {
      this.repository := repository;
    }

    /** A challenge with no attempt counted, under the identifier drawn for it. */
    method Issue(owner: Option<UserId>, purpose: Purpose, scope: Scope, tenantRole: Option<Role>, codeHash: Option<string>,
                 maxAttempts: nat, draw: Draw)
      modifies repository
      ensures repository.rows == old(repository.rows)[draw.jti :=
                Challenge(draw.secretHash, owner, purpose, scope, tenantRole, codeHash, maxAttempts, draw.expiresAt, 0, None)]
    {
      repository.Create(draw.jti, Challenge(draw.secretHash, owner, purpose, scope, tenantRole, codeHash, maxAttempts,
                                            draw.expiresAt, 0, None));
    }

    method Load(crypto: Crypto, now: int, token: OpaqueTokens.Token) returns (ticket: Option<Challenge>)
      modifies repository
      ensures (repository.rows, ticket) == AuthSerial.Load(crypto, now, old(repository.rows), token)
    {
      var found := repository.FindByJti(token.jti);
      if found.None? || found.value.consumedAt.Some? {
        return None;
      }
      if found.value.expiresAt <= now {
        repository.DeleteByJti(token.jti);
        return None;
      }
      if found.value.attemptCount >= found.value.maxAttempts {
        repository.DeleteByJti(token.jti);
        return None;
      }
      ticket := if crypto.matches(token.secret, found.value.secretHash) then found else None;
    }

    method RegisterFailedAttempt(jti: Jti, ticket: Challenge)
      modifies repository
      ensures repository.rows == AuthSerial.FailAttempt(old(repository.rows), jti, ticket.maxAttempts)
    {
      var attempts := repository.RecordFailedAttempt(jti);
      var used := attempts.GetOr(ticket.maxAttempts);
      var remaining := if ticket.maxAttempts - used > 0 then ticket.maxAttempts - used else 0;
      if remaining == 0 {
        repository.DeleteByJti(jti);
      }
    }

    method Consume(jti: Jti, now: int) returns (won: bool)
      modifies repository
      ensures (repository.rows, won) == ChallengeStore.TryConsume(old(repository.rows), jti, now)
    {
      won := repository.TryConsume(jti, now);
    }

    method ClearForUser(user: UserId)
      modifies repository
      ensures repository.rows == ChallengeStore.DeleteByUserId(old(repository.rows), user)
    {
      repository.DeleteByUserId(user);
    }
  }

  class MfaVerificationService {
    const repository: UserMfaRepository

    constructor (repository: UserMfaRepository)
      ensures this.repository == repository
    {
      this.repository := repository;
    }

    method Verify(crypto: Crypto, now: int, user: UserId, code: string) returns (verdict: AuthSerial.Verdict)
      modifies repository
      ensures (repository.rows, verdict) == AuthSerial.VerifyFactor(crypto, now, old(repository.rows), user, code)
    {
      var found := repository.FindByUserId(user);
      if found.None? || !found.value.isTotpEnabled {
        return AuthSerial.Failed;
      }
      if LooksLikeBackupCode(code) {
        var spent := repository.MarkBackupCodeUsed(user, crypto.lookupHash(Normalize(code)), now);
        return if spent then AuthSerial.Passed else AuthSerial.Failed;
      }
      var encrypted := found.value.totpSecret;
      if encrypted.None? || encrypted.value == [] || |DigitsOf(code)| != 6 {
        return AuthSerial.Failed;
      }
      var secret := crypto.decrypt(encrypted.value);
      if secret.None? {
        return AuthSerial.Broken;
      }
      var step := crypto.totpStep(DigitsOf(code), secret.value, now, found.value.lastUsedTotpStep);
      if step.None? {
        return AuthSerial.Failed;
      }
      var claimed := repository.TryConsumeTotpStep(user, step.value);
      return if claimed then AuthSerial.Passed else AuthSerial.Failed;
    }
  }

  class AuthService {
    const challenges: MfaChallengeService
    const verification: MfaVerificationService
    const tokens: RefreshTokenRepository
    var accounts: map<UserId, Account>
    var activeTenants: set<string>

    constructor (challenges: MfaChallengeService, verification: MfaVerificationService, tokens: RefreshTokenRepository,
                 accounts: map<UserId, Account>, activeTenants: set<string>)
      ensures this.challenges == challenges && this.verification == verification && this.tokens == tokens
      ensures this.accounts == accounts && this.activeTenants == activeTenants
    {
      this.challenges, this.verification, this.tokens := challenges, verification, tokens;
      this.accounts, this.activeTenants := accounts, activeTenants;
    }

    ghost function Snapshot(): Auth
      reads this, challenges.repository, verification.repository, tokens
    {
      Auth(accounts, activeTenants, challenges.repository.rows, verification.repository.rows, tokens.rows)
    }

    method IssueTokenPair(user: UserId, family: Option<string>, draw: Draw) returns (session: Option<Session>)
      requires user in accounts
      modifies tokens
      ensures (Snapshot(), session) == Mint(old(Snapshot()), user, family, draw)
    {
      var account := accounts[user];
      if !account.isPlatformAdmin {
        if account.tenantId !in activeTenants || account.emailPending {
          return None;
        }
      }
      var familyId := family.GetOr(draw.familyId);
      tokens.CreateToken(draw.jti, RefreshToken(user, draw.secretHash, familyId, draw.expiresAt));
      session := Some(SessionFor(user, account));
    }

    method Login(
      crypto: Crypto, user: UserId, password: string, scope: Scope, tenantRole: Option<Role>, maxAttempts: nat,
      draw: Draw) returns (result: LoginResult)
      modifies challenges.repository, tokens
      ensures (Snapshot(), result)
           == AuthRequests.Login(crypto, old(Snapshot()), user, password, scope, tenantRole, maxAttempts, draw)
    {
      if user !in accounts || accounts[user].passwordHash == [] {
        return Denied;
      }
      var account := accounts[user];
      if !ScopeMatches(scope, account) || !account.isActive {
        return Denied;
      }
      if scope.Tenant? && account.emailPending {
        return Denied;
      }
      if !crypto.matches(password, account.passwordHash) {
        return Denied;
      }
      if scope.Tenant? && (tenantRole.None? || account.role != tenantRole) {
        return Denied;
      }
      var mfa := verification.repository.FindByUserId(user);
      if mfa.Some? && mfa.value.isTotpEnabled {
        challenges.Issue(Some(user), Totp, scope, tenantRole, None, maxAttempts, draw);
        return Challenged;
      }
      var session := IssueTokenPair(user, None, draw);
      result := if session.Some? then SignedIn(session.value) else Denied;
    }

    /** An ineligible address is answered the same way, with a challenge that has neither owner nor code. */
    method RequestLoginCode(user: UserId, scope: Scope, tenantRole: Option<Role>, codeHash: string, maxAttempts: nat, draw: Draw)
      modifies challenges.repository
      ensures Snapshot() == AuthRequests.RequestLoginCode(old(Snapshot()), user, scope, tenantRole, codeHash, maxAttempts, draw)
    {
      var eligible := false;
      if user in accounts && accounts[user].isActive && ScopeMatches(scope, accounts[user]) {
        var account := accounts[user];
        if scope.Platform? || (account.role == tenantRole && !account.emailPending) {
          var mfa := verification.repository.FindByUserId(user);
          eligible := mfa.None? || mfa.value.isEmailCodeLoginEnabled;
        }
      }
      challenges.Issue(if eligible then Some(user) else None, EmailCode, scope, tenantRole,
                       if eligible then Some(codeHash) else None, maxAttempts, draw);
    }

    method VerifyMfaChallenge(crypto: Crypto, now: int, raw: string, code: string, draw: Draw)
      returns (session: Option<Session>)
      modifies challenges.repository, verification.repository, tokens
      ensures (Snapshot(), session) == VerifyMfa(crypto, now, old(Snapshot()), raw, code, draw)
    {
      var parsed := OpaqueTokens.Parse(raw);
      if parsed.None? {
        return None;
      }
      var jti := parsed.value.jti;
      var loaded := challenges.Load(crypto, now, parsed.value);
      if loaded.None? || loaded.value.owner == None || loaded.value.owner == Some("") {
        return None;
      }
      var ticket, user := loaded.value, loaded.value.owner.value;
      if user !in accounts || !ScopeMatches(ticket.scope, accounts[user]) || !accounts[user].isActive {
        return None;
      }
      var verdict;
      if ticket.purpose.EmailCode? {
        verdict := if EmailCodeMatches(crypto, code, ticket.codeHash) then AuthSerial.Passed else AuthSerial.Failed;
      } else {
        verdict := verification.Verify(crypto, now, user, code);
      }
      if verdict.Broken? {
        return None;
      }
      if verdict.Failed? {
        challenges.RegisterFailedAttempt(jti, ticket);
        return None;
      }
      var won := challenges.Consume(jti, now);
      if !won {
        return None;
      }
      session := IssueTokenPair(user, None, draw);
      if session.Some? {
        challenges.ClearForUser(user);
      }
    }

    method Refresh(crypto: Crypto, now: int, raw: string, draw: Draw) returns (session: Option<Session>)
      modifies tokens
      ensures (Snapshot(), session) == AuthRequests.Refresh(crypto, now, old(Snapshot()), raw, draw)
    {
      var parsed := OpaqueTokens.Parse(raw);
      if parsed.None? {
        return None;
      }
      var record := tokens.FindByJti(parsed.value.jti);
      if record.None? {
        return None;
      }
      if record.value.expiresAt <= now {
        tokens.DeleteByJti(parsed.value.jti);
        return None;
      }
      if !crypto.matches(parsed.value.secret, record.value.secretHash) {
        return None;
      }
      if record.value.userId !in accounts {
        tokens.DeleteByJti(parsed.value.jti);
        return None;
      }
      tokens.DeleteByJti(parsed.value.jti);
      session := IssueTokenPair(record.value.userId, Some(record.value.familyId), draw);
    }

    method Logout(crypto: Crypto, raw: Option<string>)
      modifies tokens
      ensures Snapshot() == AuthRequests.Logout(crypto, old(Snapshot()), raw)
    {
      if raw.None? {
        return;
      }
      var parsed := OpaqueTokens.Parse(raw.value);
      if parsed.None? {
        return;
      }
      var record := tokens.FindByJti(parsed.value.jti);
      if record.Some? && crypto.matches(parsed.value.secret, record.value.secretHash) {
        tokens.DeleteByJti(parsed.value.jti);
      }
    }

    method ResetMfaForUser(user: UserId) returns (done: bool)
      modifies challenges.repository, verification.repository, tokens
      ensures (Snapshot(), done) == ResetMfa(old(Snapshot()), user)
    {
      if user !in accounts {
        return false;
      }
      verification.repository.DisableTotp(user);
      challenges.ClearForUser(user);
      tokens.DeleteByUserId(user);
      done := true;
    }
  }

  /** Enrolment and management of a user's own second factor. */
  class MfaService {
    const auth: AuthService

    constructor (auth: AuthService)
      ensures this.auth == auth
    {
      this.auth := auth;
    }

    method StartTotpEnrollment(user: UserId, encrypted: string, expiresAt: int) returns (done: bool)
      modifies auth.verification.repository
      ensures (auth.Snapshot(), done) == AuthRequests.StartEnrollment(old(auth.Snapshot()), user, encrypted, expiresAt)
    {
      var existing := auth.verification.repository.FindByUserId(user);
      if existing.Some? && existing.value.isTotpEnabled {
        return false;
      }
      auth.verification.repository.StartTotpEnrollment(user, encrypted, expiresAt);
      done := true;
    }

    method EnableTotp(crypto: Crypto, now: int, user: UserId, code: string, hashes: seq<string>) returns (done: bool)
      modifies auth.verification.repository
      ensures (auth.Snapshot(), done) == AuthRequests.EnableTotp(crypto, now, old(auth.Snapshot()), user, code, hashes)
    {
      var record := auth.verification.repository.FindByUserId(user);
      if record.None? || record.value.isTotpEnabled {
        return false;
      }
      var pending := record.value.pendingSecret;
      if pending.None? || pending.value == [] {
        return false;
      }
      if record.value.pendingExpiresAt.Some? && record.value.pendingExpiresAt.value <= now {
        return false;
      }
      var secret := crypto.decrypt(pending.value);
      if secret.None? || |DigitsOf(code)| != 6 || crypto.totpStep(DigitsOf(code), secret.value, now, None).None? {
        return false;
      }
      done := auth.verification.repository.ActivateTotp(user, pending.value, FactorStore.Fresh(hashes), now);
    }

    method DisableTotp(crypto: Crypto, now: int, user: UserId, password: string, code: string) returns (done: bool)
      modifies auth.challenges.repository, auth.verification.repository, auth.tokens
      ensures (auth.Snapshot(), done)
           == AuthRequests.DisableTotp(crypto, now, old(auth.Snapshot()), user, password, code)
    {
      var record := auth.verification.repository.FindByUserId(user);
      if record.None? || !record.value.isTotpEnabled {
        return false;
      }
      if user !in auth.accounts || auth.accounts[user].passwordHash == []
         || !crypto.matches(password, auth.accounts[user].passwordHash) {
        return false;
      }
      var verdict := auth.verification.Verify(crypto, now, user, code);
      if !verdict.Passed? {
        return false;
      }
      auth.verification.repository.DisableTotp(user);
      auth.challenges.ClearForUser(user);
      auth.tokens.DeleteByUserId(user);
      done := true;
    }

    method RegenerateBackupCodes(crypto: Crypto, now: int, user: UserId, password: string, hashes: seq<string>)
      returns (done: bool)
      modifies auth.verification.repository
      ensures (auth.Snapshot(), done)
           == AuthRequests.RegenerateBackupCodes(crypto, now, old(auth.Snapshot()), user, password, hashes)
    {
      var record := auth.verification.repository.FindByUserId(user);
      if record.None? || !record.value.isTotpEnabled {
        return false;
      }
      if user !in auth.accounts || auth.accounts[user].passwordHash == []
         || !crypto.matches(password, auth.accounts[user].passwordHash) {
        return false;
      }
      auth.verification.repository.ReplaceBackupCodes(user, FactorStore.Fresh(hashes), now);
      done := true;
    }
  }
}
