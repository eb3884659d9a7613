/** What each authentication request answers and changes, spelled out on the stored fields. */
module AuthOutcomes {
  import opened Common
  import opened AuthModel
  import opened AuthRequests
  import opened BackupCodes
  import AuthRuns
  import AuthSerial
  import ChallengeStore
  import FactorStore
  import JsText
  import MfaProtocol
  import OpaqueTokens
  import TokenStore

  // ----- the conditions, field by field -----

  /** An operator signs in on the platform, everybody else through a tenant whose id is not blank. */
  ghost predicate InScope(scope: Scope, account: Account) {
    match scope
    case Platform => account.isPlatformAdmin
    case Tenant => !account.isPlatformAdmin && exists c <- account.tenantId :: !JsText.IsSpace(c)
  }

  /** The row a token is stored for is an operator's, or one of an active tenant with a verified address. */
  ghost predicate MayHoldTokens(a: Auth, account: Account) {
    account.isPlatformAdmin || (account.tenantId in a.activeTenants && !account.emailPending)
  }

  /** Operators have no role. */
  ghost function SessionOf(user: UserId, account: Account): MfaProtocol.Session {
    MfaProtocol.Session(user, account.isPlatformAdmin, if account.isPlatformAdmin then None else account.role)
  }

  ghost predicate PassesPassword(crypto: Crypto, a: Auth, user: UserId, password: string, scope: Scope, tenantRole: Option<Role>) {
    && user in a.accounts
    && var account := a.accounts[user];
       && account.passwordHash != "" && crypto.matches(password, account.passwordHash)
       && InScope(scope, account) && account.isActive
       && (scope.Tenant? ==> !account.emailPending && tenantRole.Some? && account.role == tenantRole)
  }

  ghost predicate HasSecondFactor(a: Auth, user: UserId) {
    user in a.factors && a.factors[user].isTotpEnabled
  }

  /** The stored row can be completed with this secret now. */
  ghost predicate IsOpen(crypto: Crypto, now: int, row: Challenge, secret: string) {
    && row.consumedAt.None? && now < row.expiresAt && row.attemptCount < row.maxAttempts
    && crypto.matches(secret, row.secretHash)
  }

  ghost predicate MayComplete(a: Auth, row: Challenge) {
    && row.owner.Some? && row.owner.value != "" && row.owner.value in a.accounts
    && InScope(row.scope, a.accounts[row.owner.value]) && a.accounts[row.owner.value].isActive
  }

  ghost predicate IsEmailedCode(crypto: Crypto, codeHash: Option<string>, code: string) {
    && codeHash.Some? && codeHash.value != ""
    && |DigitsOf(code)| == 6 && crypto.matches(DigitsOf(code), codeHash.value)
  }

  /** Twelve letters and digits are read as a recovery code, never as a code of the authenticator. */
  ghost predicate IsUnusedRecoveryCode(crypto: Crypto, factor: Factor, code: string) {
    |Normalize(code)| == 12 && crypto.lookupHash(Normalize(code)) in FactorStore.Unused(factor.backupCodes)
  }

  ghost predicate CanReadSecret(crypto: Crypto, factor: Factor) {
    factor.totpSecret.Some? && factor.totpSecret.value != "" && crypto.decrypt(factor.totpSecret.value).Some?
  }

  /** The time step that the authenticator's code stands for. */
  ghost function StepOf(crypto: Crypto, now: int, factor: Factor, code: string): Option<int>
    requires CanReadSecret(crypto, factor)
  {
    crypto.totpStep(DigitsOf(code), crypto.decrypt(factor.totpSecret.value).value, now, factor.lastUsedTotpStep)
  }

  ghost predicate IsNewStep(crypto: Crypto, now: int, factor: Factor, code: string) {
    && |Normalize(code)| != 12 && |DigitsOf(code)| == 6
    && CanReadSecret(crypto, factor)
    && var step := StepOf(crypto, now, factor, code);
       step.Some? && (factor.lastUsedTotpStep.None? || factor.lastUsedTotpStep.value < step.value)
  }

  ghost predicate IsRightFactor(crypto: Crypto, now: int, a: Auth, user: UserId, code: string) {
    && HasSecondFactor(a, user)
    && (IsUnusedRecoveryCode(crypto, a.factors[user], code) || IsNewStep(crypto, now, a.factors[user], code))
  }

  ghost predicate IsRightCode(crypto: Crypto, now: int, a: Auth, row: Challenge, code: string) {
    match row.purpose
    case EmailCode => IsEmailedCode(crypto, row.codeHash, code)
    case Totp => row.owner.Some? && IsRightFactor(crypto, now, a, row.owner.value, code)
  }

  /** The check of a code ends in an exception: the stored secret cannot be read. */
  ghost predicate CheckThrows(crypto: Crypto, a: Auth, user: UserId, code: string) {
    && HasSecondFactor(a, user) && |Normalize(code)| != 12 && |DigitsOf(code)| == 6
    && a.factors[user].totpSecret.Some? && a.factors[user].totpSecret.value != ""
    && crypto.decrypt(a.factors[user].totpSecret.value).None?
  }

  lemma ScopeIsSpelled(scope: Scope, account: Account)
    ensures MfaProtocol.ScopeMatches(scope, account) <==> InScope(scope, account)
  {
    var k, m := JsText.TrimIsPart(account.tenantId);
    JsText.TrimShape(account.tenantId);
    var rest := JsText.Trim(account.tenantId);
    assert rest != "" ==> rest[0] in account.tenantId && !JsText.IsSpace(rest[0]);
  }

  // ----- signing in with a password -----

  /**
   * A password sign-in is answered with a challenge, a session, or a refusal, and changes one challenge, one token, or
   * nothing.
   */
  lemma LoginOutcome(crypto: Crypto, a: Auth, user: UserId, password: string, scope: Scope, tenantRole: Option<Role>,
                     maxAttempts: nat, draw: Draw)
    ensures var (after, answer) := Login(crypto, a, user, password, scope, tenantRole, maxAttempts, draw);
            if PassesPassword(crypto, a, user, password, scope, tenantRole) && HasSecondFactor(a, user) then
              && answer == Challenged
              && after == a.(challenges := a.challenges[draw.jti :=
                   Challenge(draw.secretHash, Some(user), Totp, scope, tenantRole, None, maxAttempts, draw.expiresAt, 0, None)])
            else if PassesPassword(crypto, a, user, password, scope, tenantRole) && MayHoldTokens(a, a.accounts[user]) then
              && answer == SignedIn(SessionOf(user, a.accounts[user]))
              && after == a.(tokens := a.tokens[draw.jti := RefreshToken(user, draw.secretHash, draw.familyId, draw.expiresAt)])
            else
              answer == Denied && after == a
  {
    if user in a.accounts {
      ScopeIsSpelled(scope, a.accounts[user]);
    }
  }

  // ----- asking for an emailed code -----

  /** Everybody who asks gets a challenge; it has an owner and a code exactly for those who may sign in this way. */
  lemma LoginCodeOutcome(a: Auth, user: UserId, scope: Scope, tenantRole: Option<Role>, codeHash: string, maxAttempts: nat, draw: Draw)
    ensures var eligible :=
              && user in a.accounts && a.accounts[user].isActive && InScope(scope, a.accounts[user])
              && (scope.Tenant? ==> a.accounts[user].role == tenantRole && !a.accounts[user].emailPending)
              && (user in a.factors ==> a.factors[user].isEmailCodeLoginEnabled);
            RequestLoginCode(a, user, scope, tenantRole, codeHash, maxAttempts, draw)
            == a.(challenges := a.challenges[draw.jti :=
                 if eligible
                 then Challenge(draw.secretHash, Some(user), EmailCode, scope, tenantRole, Some(codeHash), maxAttempts, draw.expiresAt, 0, None)
                 else Challenge(draw.secretHash, None, EmailCode, scope, tenantRole, None, maxAttempts, draw.expiresAt, 0, None)])
  {
    if user in a.accounts {
      ScopeIsSpelled(scope, a.accounts[user]);
    }
  }

  // ----- the second factor -----

  /** What a checked code leaves of the factor rows: one recovery code less, a later step, or the same. */
  ghost predicate FactorSpent(crypto: Crypto, now: int, a: Auth, user: UserId, code: string, after: FactorStore.Rows) {
    if !IsRightFactor(crypto, now, a, user, code) then after == a.factors
    else
      && user in after && after == a.factors[user := after[user]]
      && if IsUnusedRecoveryCode(crypto, a.factors[user], code) then
           && after[user] == a.factors[user].(backupCodes := after[user].backupCodes)
           && FactorStore.Unused(after[user].backupCodes)
              == FactorStore.Unused(a.factors[user].backupCodes) - multiset{crypto.lookupHash(Normalize(code))}
           && SpentAt(a.factors[user].backupCodes, after[user].backupCodes, now)
         else after[user] == a.factors[user].(lastUsedTotpStep := StepOf(crypto, now, a.factors[user], code))
  }

  /** One entry is marked with the moment, no entry is added, dropped or changed otherwise. */
  ghost predicate SpentAt(before: seq<BackupCode>, after: seq<BackupCode>, now: int) {
    |after| == |before| &&
    exists i :: 0 <= i < |before| && before[i].usedAt.None? && after == before[i := before[i].(usedAt := Some(now))]
  }

  lemma FactorOutcome(crypto: Crypto, now: int, a: Auth, user: UserId, code: string)
    ensures var (after, verdict) := AuthSerial.VerifyFactor(crypto, now, a.factors, user, code);
            && (verdict.Passed? <==> IsRightFactor(crypto, now, a, user, code))
            && (verdict.Broken? <==> CheckThrows(crypto, a, user, code))
            && FactorSpent(crypto, now, a, user, code, after)
  {
    if HasSecondFactor(a, user) && |Normalize(code)| == 12 {
      var codes, h := a.factors[user].backupCodes, crypto.lookupHash(Normalize(code));
      FactorStore.SpendTakesOne(codes, h, now);
      var i := FactorStore.FirstUnused(codes, h);
      if i < |codes| {
        var spent := codes[i := codes[i].(usedAt := Some(now))];
        assert SpentAt(codes, spent, now);
        assert a.factors[user := a.factors[user].(backupCodes := spent)] == AuthSerial.VerifyFactor(crypto, now, a.factors, user, code).0;
      }
    }
  }

  /** A failed check counts; the one that reaches the cap removes the row. */
  ghost predicate AttemptCounted(challenges: ChallengeStore.Rows, jti: Jti, after: ChallengeStore.Rows)
    requires jti in challenges
  {
    var row := challenges[jti];
    after == if row.attemptCount + 1 >= row.maxAttempts then challenges - {jti}
             else challenges[jti := row.(attemptCount := row.attemptCount + 1)]
  }

  ghost predicate OthersRemain(challenges: ChallengeStore.Rows, user: UserId, after: ChallengeStore.Rows) {
    && (forall j :: j in after <==> j in challenges && challenges[j].owner != Some(user))
    && (forall j <- after :: after[j] == challenges[j])
  }

  /** What a request leaves that presents an open challenge of a user who may complete it. */
  ghost predicate Completes(crypto: Crypto, now: int, a: Auth, jti: Jti, code: string, draw: Draw, after: Auth,
                            session: Option<MfaProtocol.Session>)
    requires jti in a.challenges && MayComplete(a, a.challenges[jti])
  {
    var row := a.challenges[jti];
    var user, account := row.owner.value, a.accounts[row.owner.value];
    && after.accounts == a.accounts && after.activeTenants == a.activeTenants
    && (if row.purpose.Totp? then FactorSpent(crypto, now, a, user, code, after.factors) else after.factors == a.factors)
    && if !IsRightCode(crypto, now, a, row, code) then
         && session == None && after.tokens == a.tokens
         && if row.purpose.Totp? && CheckThrows(crypto, a, user, code) then after.challenges == a.challenges
            else AttemptCounted(a.challenges, jti, after.challenges)
       else if !MayHoldTokens(a, account) then
         && session == None && after.tokens == a.tokens
         && after.challenges == a.challenges[jti := row.(consumedAt := Some(now))]
       else
         && session == Some(SessionOf(user, account))
         && after.tokens == a.tokens[draw.jti := RefreshToken(user, draw.secretHash, draw.familyId, draw.expiresAt)]
         && OthersRemain(a.challenges, user, after.challenges)
  }

  /** The whole of a verification request: for every stored row, every code and every user. */
  ghost predicate Verified(crypto: Crypto, now: int, a: Auth, raw: string, code: string, draw: Draw, after: Auth,
                           session: Option<MfaProtocol.Session>)
  {
    match OpaqueTokens.Parse(raw)
    case None => session == None && after == a
    case Some(token) =>
      if token.jti !in a.challenges || a.challenges[token.jti].consumedAt.Some? then session == None && after == a
      else
        var row := a.challenges[token.jti];
        if row.expiresAt <= now || row.maxAttempts <= row.attemptCount then
          session == None && after == a.(challenges := a.challenges - {token.jti})
        else if !crypto.matches(token.secret, row.secretHash) || !MayComplete(a, row) then session == None && after == a
        else Completes(crypto, now, a, token.jti, code, draw, after, session)
  }

  lemma VerifyOutcome(crypto: Crypto, now: int, a: Auth, raw: string, code: string, draw: Draw)
    ensures var (after, session) := VerifyMfa(crypto, now, a, raw, code, draw);
            Verified(crypto, now, a, raw, code, draw, after, session)
  {
    if OpaqueTokens.Parse(raw).Some? {
      var token := OpaqueTokens.Parse(raw).value;
      if token.jti in a.challenges && IsOpen(crypto, now, a.challenges[token.jti], token.secret) {
        if MayComplete(a, a.challenges[token.jti]) {
          JudgedOutcome(crypto, now, a, token.jti, code);
        } else {
          StayOutcome(crypto, now, a, token.jti, code);
        }
      }
    }
  }

  /** The stores after the code has been judged. */
  ghost predicate Judged(a: Auth, now: int, jti: Jti, right: bool, throws: bool, v: AuthSerial.Verified)
    requires jti in a.challenges && MayComplete(a, a.challenges[jti])
  {
    var row := a.challenges[jti];
    var user, account := row.owner.value, a.accounts[row.owner.value];
    if throws then v.session == None && v.challenges == a.challenges
    else if !right then v.session == None && AttemptCounted(a.challenges, jti, v.challenges)
    else if !MayHoldTokens(a, account) then
      v.session == None && v.challenges == a.challenges[jti := row.(consumedAt := Some(now))]
    else v.session == Some(SessionOf(user, account)) && OthersRemain(a.challenges, user, v.challenges)
  }

  lemma VerdictOutcome(now: int, a: Auth, jti: Jti, factors: FactorStore.Rows, verdict: AuthSerial.Verdict)
    requires jti in a.challenges && a.challenges[jti].consumedAt.None? && MayComplete(a, a.challenges[jti])
    ensures var row := a.challenges[jti];
            var user := row.owner.value;
            var v := AuthSerial.AfterVerdict(AuthRequests.WorldOf(a, now), jti, row, a.accounts[user], user, factors, verdict);
            v.factors == factors && Judged(a, now, jti, verdict.Passed?, verdict.Broken?, v)
  {
  }

  lemma JudgedOutcome(crypto: Crypto, now: int, a: Auth, jti: Jti, code: string)
    requires jti in a.challenges && a.challenges[jti].consumedAt.None? && MayComplete(a, a.challenges[jti])
    ensures var row := a.challenges[jti];
            var user := row.owner.value;
            var v := AuthSerial.VerifyLoaded(crypto, AuthRequests.WorldOf(a, now), jti, row, code);
            && Judged(a, now, jti, IsRightCode(crypto, now, a, row, code), row.purpose.Totp? && CheckThrows(crypto, a, user, code), v)
            && if row.purpose.Totp? then FactorSpent(crypto, now, a, user, code, v.factors) else v.factors == a.factors
  {
    var row := a.challenges[jti];
    var user := row.owner.value;
    ScopeIsSpelled(row.scope, a.accounts[user]);
    if row.purpose.Totp? {
      FactorOutcome(crypto, now, a, user, code);
      var (factors, verdict) := AuthSerial.VerifyFactor(crypto, now, a.factors, user, code);
      VerdictOutcome(now, a, jti, factors, verdict);
    } else {
      VerdictOutcome(now, a, jti, a.factors, if IsEmailedCode(crypto, row.codeHash, code) then AuthSerial.Passed else AuthSerial.Failed);
    }
  }

  /** The owner may not complete the challenge: nothing is checked and nothing counted. */
  lemma StayOutcome(crypto: Crypto, now: int, a: Auth, jti: Jti, code: string)
    requires jti in a.challenges && !MayComplete(a, a.challenges[jti])
    ensures AuthSerial.VerifyLoaded(crypto, AuthRequests.WorldOf(a, now), jti, a.challenges[jti], code)
            == AuthSerial.Verified(a.challenges, a.factors, None)
  {
    var row := a.challenges[jti];
    if row.owner.Some? && row.owner.value in a.accounts {
      ScopeIsSpelled(row.scope, a.accounts[row.owner.value]);
    }
  }

  /** A session is issued exactly for an open challenge, its secret, a user in good standing, and a right code. */
  lemma VerifySucceedsIff(crypto: Crypto, now: int, a: Auth, raw: string, code: string, draw: Draw)
    ensures VerifyMfa(crypto, now, a, raw, code, draw).1.Some? <==>
            && OpaqueTokens.Parse(raw).Some?
            && var token := OpaqueTokens.Parse(raw).value;
               && token.jti in a.challenges
               && var row := a.challenges[token.jti];
                  && IsOpen(crypto, now, row, token.secret)
                  && MayComplete(a, row) && MayHoldTokens(a, a.accounts[row.owner.value])
                  && IsRightCode(crypto, now, a, row, code)
  {
    VerifyOutcome(crypto, now, a, raw, code, draw);
  }

  // ----- refresh and logout -----

  /** A refresh with the right secret of a live token replaces it by one of its family. */
  lemma RefreshOutcome(crypto: Crypto, now: int, a: Auth, raw: string, draw: Draw)
    ensures var (after, session) := Refresh(crypto, now, a, raw, draw);
            match OpaqueTokens.Parse(raw)
            case None => session == None && after == a
            case Some(token) =>
              if token.jti !in a.tokens then session == None && after == a
              else
                var row := a.tokens[token.jti];
                var without := a.(tokens := a.tokens - {token.jti});
                if now < row.expiresAt && !crypto.matches(token.secret, row.secretHash) then session == None && after == a
                else if row.expiresAt <= now || row.userId !in a.accounts || !MayHoldTokens(a, a.accounts[row.userId]) then
                  session == None && after == without
                else
                  var account := a.accounts[row.userId];
                  && session == Some(SessionOf(row.userId, account))
                  && after == without.(tokens := without.tokens[draw.jti :=
                                RefreshToken(row.userId, draw.secretHash, row.familyId, draw.expiresAt)])
  {
  }

  /** The token that counts as rotated: a live one of a known user, presented with its secret. */
  lemma RotationOutcome(crypto: Crypto, now: int, a: Auth, raw: string, jti: Jti)
    ensures Rotated(crypto, now, a, raw) == Some(jti) <==>
            && OpaqueTokens.Parse(raw).Some?
            && var token := OpaqueTokens.Parse(raw).value;
               && token.jti == jti && jti in a.tokens && crypto.matches(token.secret, a.tokens[jti].secretHash)
               && now < a.tokens[jti].expiresAt && a.tokens[jti].userId in a.accounts
  {
  }

  /** Only the secret of a token takes it away, whether it has expired or not. */
  lemma LogoutOutcome(crypto: Crypto, a: Auth, raw: Option<string>)
    ensures var after := Logout(crypto, a, raw);
            && after == a.(tokens := after.tokens)
            && (forall j <- after.tokens :: j in a.tokens && after.tokens[j] == a.tokens[j])
            && (forall j <- a.tokens :: j !in after.tokens <==>
                  && raw.Some? && OpaqueTokens.Parse(raw.value).Some?
                  && var token := OpaqueTokens.Parse(raw.value).value;
                     token.jti == j && crypto.matches(token.secret, a.tokens[j].secretHash))
  {
  }

  // ----- managing the second factor -----

  /** Nothing is left of the factor but the preference, and nothing else of the user is changed. */
  ghost predicate Cleared(a: Auth, user: UserId, after: Auth) {
    && after.accounts == a.accounts && after.activeTenants == a.activeTenants
    && OthersRemain(a.challenges, user, after.challenges)
    && (forall j :: j in after.tokens <==> j in a.tokens && a.tokens[j].userId != user)
    && (forall j <- after.tokens :: after.tokens[j] == a.tokens[j])
    && after.factors == if user !in a.factors then a.factors
                        else a.factors[user := Factor(false, None, None, None, None, None, [], None, a.factors[user].isEmailCodeLoginEnabled)]
  }

  lemma ResetOutcome(a: Auth, user: UserId)
    ensures var (after, done) := ResetMfa(a, user);
            (done <==> user in a.accounts) && if done then Cleared(a, user, after) else after == a
  {
  }

  ghost predicate ConfirmsPassword(crypto: Crypto, a: Auth, user: UserId, password: string) {
    user in a.accounts && a.accounts[user].passwordHash != "" && crypto.matches(password, a.accounts[user].passwordHash)
  }

  /** Password and code together clear the factor; a request that lacks one changes nothing. */
  lemma DisableOutcome(crypto: Crypto, now: int, a: Auth, user: UserId, password: string, code: string)
    ensures var (after, done) := DisableTotp(crypto, now, a, user, password, code);
            && (done <==> ConfirmsPassword(crypto, a, user, password) && IsRightFactor(crypto, now, a, user, code))
            && if done then Cleared(a, user, after) else after == a
  {
    FactorOutcome(crypto, now, a, user, code);
  }

  lemma RegenerateOutcome(crypto: Crypto, now: int, a: Auth, user: UserId, password: string, hashes: seq<string>)
    ensures var (after, done) := RegenerateBackupCodes(crypto, now, a, user, password, hashes);
            && (done <==> HasSecondFactor(a, user) && ConfirmsPassword(crypto, a, user, password))
            && if !done then after == a
               else
                 && user in after.factors && IsFreshSet(after.factors[user].backupCodes, hashes)
                 && after == a.(factors := a.factors[user := a.factors[user].(
                      backupCodes := after.factors[user].backupCodes, backupCodesGeneratedAt := Some(now))])
  {
  }

  ghost predicate IsFreshSet(codes: seq<BackupCode>, hashes: seq<string>) {
    |codes| == |hashes| && forall i :: 0 <= i < |hashes| ==> codes[i] == BackupCode(hashes[i], None)
  }

  /** An enrolment may be started anew until it is confirmed. */
  lemma EnrollmentOutcome(a: Auth, user: UserId, encrypted: string, expiresAt: int)
    ensures var (after, done) := AuthRequests.StartEnrollment(a, user, encrypted, expiresAt);
            && (done <==> !HasSecondFactor(a, user))
            && if !done then after == a
               else
                 var row := if user in a.factors then a.factors[user]
                            else Factor(false, None, None, None, None, None, [], None, true);
                 after == a.(factors := a.factors[user := row.(pendingSecret := Some(encrypted), pendingExpiresAt := Some(expiresAt))])
  {
  }

  /** The pending secret becomes the secret on a code that it confirms in time. */
  lemma EnableOutcome(crypto: Crypto, now: int, a: Auth, user: UserId, code: string, hashes: seq<string>)
    ensures var (after, done) := EnableTotp(crypto, now, a, user, code, hashes);
            && (done <==>
                  && user in a.factors && !a.factors[user].isTotpEnabled
                  && var row := a.factors[user];
                     && row.pendingSecret.Some? && row.pendingSecret.value != ""
                     && (row.pendingExpiresAt.None? || now < row.pendingExpiresAt.value)
                     && |DigitsOf(code)| == 6
                     && crypto.decrypt(row.pendingSecret.value).Some?
                     && crypto.totpStep(DigitsOf(code), crypto.decrypt(row.pendingSecret.value).value, now, None).Some?)
            && if !done then after == a
               else
                 && user in after.factors && IsFreshSet(after.factors[user].backupCodes, hashes)
                 && after == a.(factors := a.factors[user := Factor(
                      true, a.factors[user].pendingSecret, None, None, Some(now), None, after.factors[user].backupCodes, Some(now),
                      a.factors[user].isEmailCodeLoginEnabled)])
  {
  }

  // ----- the requests around a verification are steps of its transition system -----

  /** Enrolment, reset and regeneration change the factor rows as the steps of that name do. */
  lemma ManagementIsSteps(crypto: Crypto, now: int, a: Auth, user: UserId, encrypted: string, expiresAt: int, code: string,
                          password: string, hashes: seq<string>)
    ensures var w := AuthRequests.WorldOf(a, now);
            && (AuthRequests.StartEnrollment(a, user, encrypted, expiresAt).1 ==>
                  AuthRequests.StartEnrollment(a, user, encrypted, expiresAt).0.factors
                  == MfaProtocol.Manage(w, MfaProtocol.StartEnrollment(user, encrypted, expiresAt)).factors)
            && (EnableTotp(crypto, now, a, user, code, hashes).1 ==>
                  && user in a.factors && a.factors[user].pendingSecret.Some?
                  && var step := MfaProtocol.Activate(user, a.factors[user].pendingSecret.value, hashes);
                     && MfaProtocol.Enabled(w, step)
                     && EnableTotp(crypto, now, a, user, code, hashes).0.factors == MfaProtocol.Manage(w, step).factors)
            && (ResetMfa(a, user).1 ==> ResetMfa(a, user).0.factors == MfaProtocol.Manage(w, MfaProtocol.Disable(user)).factors)
            && (RegenerateBackupCodes(crypto, now, a, user, password, hashes).1 ==>
                  RegenerateBackupCodes(crypto, now, a, user, password, hashes).0.factors
                  == MfaProtocol.Manage(w, MfaProtocol.ReplaceCodes(user, hashes)).factors)
  {
  }

  /** So does a code that a disable request checks: it spends a recovery code, claims a step, or leaves the rows alone. */
  lemma CheckIsAStep(crypto: Crypto, now: int, a: Auth, user: UserId, code: string)
    ensures var w := AuthRequests.WorldOf(a, now);
            var after := AuthSerial.VerifyFactor(crypto, now, a.factors, user, code).0;
            if !IsRightFactor(crypto, now, a, user, code) then after == a.factors
            else if IsUnusedRecoveryCode(crypto, a.factors[user], code) then
              after == MfaProtocol.Manage(w, MfaProtocol.SpendElsewhere(user, crypto.lookupHash(Normalize(code)))).factors
            else after == MfaProtocol.Manage(w, MfaProtocol.ClaimElsewhere(user, StepOf(crypto, now, a.factors[user], code).value)).factors
  {
    if !IsRightFactor(crypto, now, a, user, code) {
      FactorOutcome(crypto, now, a, user, code);
    } else if IsUnusedRecoveryCode(crypto, a.factors[user], code) {
      SpendIsAStep(crypto, now, a, user, code);
    } else {
      ClaimIsAStep(crypto, now, a, user, code);
    }
  }

  lemma SpendIsAStep(crypto: Crypto, now: int, a: Auth, user: UserId, code: string)
    requires HasSecondFactor(a, user) && IsUnusedRecoveryCode(crypto, a.factors[user], code)
    ensures AuthSerial.VerifyFactor(crypto, now, a.factors, user, code).0
            == MfaProtocol.Manage(AuthRequests.WorldOf(a, now), MfaProtocol.SpendElsewhere(user, crypto.lookupHash(Normalize(code)))).factors
  {
  }

  lemma ClaimIsAStep(crypto: Crypto, now: int, a: Auth, user: UserId, code: string)
    requires HasSecondFactor(a, user) && IsNewStep(crypto, now, a.factors[user], code)
    ensures AuthSerial.VerifyFactor(crypto, now, a.factors, user, code).0
            == MfaProtocol.Manage(AuthRequests.WorldOf(a, now),
                                  MfaProtocol.ClaimElsewhere(user, StepOf(crypto, now, a.factors[user], code).value)).factors
  {
  }

  // ----- over any request -----

  /** The request proves who makes it: a password, an open challenge with its code, or the secret of a live token. */
  ghost predicate Earns(crypto: Crypto, now: int, a: Auth, q: AuthRuns.Request, user: UserId) {
    match q
    case LoginWith(who, password, scope, role, _, _) =>
      who == user && PassesPassword(crypto, a, user, password, scope, role) && !HasSecondFactor(a, user)
    case VerifyCode(raw, code, _) =>
      && OpaqueTokens.Parse(raw).Some?
      && var token := OpaqueTokens.Parse(raw).value;
         && token.jti in a.challenges && a.challenges[token.jti].owner == Some(user)
         && IsOpen(crypto, now, a.challenges[token.jti], token.secret)
         && IsRightCode(crypto, now, a, a.challenges[token.jti], code)
    case RefreshWith(raw, _) =>
      && OpaqueTokens.Parse(raw).Some?
      && var token := OpaqueTokens.Parse(raw).value;
         && token.jti in a.tokens && a.tokens[token.jti].userId == user
         && now < a.tokens[token.jti].expiresAt && crypto.matches(token.secret, a.tokens[token.jti].secretHash)
    case _ => false
  }

  /** Whatever is served, a token appears only for a user who has earned it, in good standing. */
  lemma TokensAreEarned(crypto: Crypto, now: int, a: Auth, q: AuthRuns.Request, jti: Jti)
    requires jti !in a.tokens && jti in AuthRuns.Serve(crypto, now, a, q).tokens
    ensures var user := AuthRuns.Serve(crypto, now, a, q).tokens[jti].userId;
            Earns(crypto, now, a, q, user) && user in a.accounts && MayHoldTokens(a, a.accounts[user])
  {
    match q
    case LoginWith(user, password, scope, role, max, draw) => LoginOutcome(crypto, a, user, password, scope, role, max, draw);
    case VerifyCode(raw, code, draw) => VerifyOutcome(crypto, now, a, raw, code, draw);
    case RefreshWith(raw, draw) => RefreshOutcome(crypto, now, a, raw, draw);
    case LogoutWith(token) => LogoutOutcome(crypto, a, token);
    case DisableWith(user, password, code) => DisableOutcome(crypto, now, a, user, password, code);
    case OperatorReset(user) => ResetOutcome(a, user);
    case _ =>
  }

  /**
   * So a user with an enabled second factor gets a token only for an open challenge of theirs with a right code, or in
   * place of a live token of theirs: a password is never enough.
   */
  lemma SecondFactorGuardsTokens(crypto: Crypto, now: int, a: Auth, q: AuthRuns.Request, jti: Jti)
    requires jti !in a.tokens && jti in AuthRuns.Serve(crypto, now, a, q).tokens
    ensures var user := AuthRuns.Serve(crypto, now, a, q).tokens[jti].userId;
            HasSecondFactor(a, user) ==> (q.VerifyCode? || q.RefreshWith?) && Earns(crypto, now, a, q, user)
  {
    TokensAreEarned(crypto, now, a, q, jti);
  }

  /** A challenge with an owner appears only after that user's password, or where a code is mailed to that user. */
  lemma ChallengesAreEarned(crypto: Crypto, now: int, a: Auth, q: AuthRuns.Request, jti: Jti)
    requires jti !in a.challenges && jti in AuthRuns.Serve(crypto, now, a, q).challenges
    ensures var owner := AuthRuns.Serve(crypto, now, a, q).challenges[jti].owner;
            match q
            case LoginWith(user, password, scope, role, _, _) =>
              owner == Some(user) && PassesPassword(crypto, a, user, password, scope, role) && HasSecondFactor(a, user)
            case AskLoginCode(user, _, _, _, _, _) => owner == Some(user) || owner == None
            case _ => false
  {
    match q
    case LoginWith(user, password, scope, role, max, draw) => LoginOutcome(crypto, a, user, password, scope, role, max, draw);
    case VerifyCode(raw, code, draw) => VerifyOutcome(crypto, now, a, raw, code, draw);
    case RefreshWith(raw, draw) => RefreshOutcome(crypto, now, a, raw, draw);
    case LogoutWith(token) => LogoutOutcome(crypto, a, token);
    case DisableWith(user, password, code) => DisableOutcome(crypto, now, a, user, password, code);
    case OperatorReset(user) => ResetOutcome(a, user);
    case _ =>
  }
}
