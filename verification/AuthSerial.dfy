/** The authentication requests as functions of the stores, when they are served one after another. */
module AuthSerial {
  import opened Common
  import opened AuthModel
  import opened BackupCodes
  import opened MfaProtocol
  import opened MfaSerial
  import MfaSafety
  import ChallengeStore
  import FactorStore
  import TokenStore
  import OpaqueTokens

  // ----- the second factor -----

  /** `MfaChallengeService.load`. */
  function Load(crypto: Crypto, now: int, rows: ChallengeStore.Rows, token: OpaqueTokens.Token)
    : (ChallengeStore.Rows, Option<Challenge>)
  {
    if token.jti !in rows || rows[token.jti].consumedAt.Some? then (rows, None)
    else
      var ticket := rows[token.jti];
      if ticket.expiresAt <= now || ticket.attemptCount >= ticket.maxAttempts then
        (ChallengeStore.DeleteByJti(rows, token.jti), None)
      else (rows, if crypto.matches(token.secret, ticket.secretHash) then Some(ticket) else None)
  }

  /** `MfaChallengeService.registerFailedAttempt`. */
  function FailAttempt(rows: ChallengeStore.Rows, jti: Jti, maxAttempts: nat): ChallengeStore.Rows {
    var (counted, attempts) := ChallengeStore.RecordFailedAttempt(rows, jti);
    if attempts.GetOr(maxAttempts) >= maxAttempts then ChallengeStore.DeleteByJti(counted, jti) else counted
  }

  /** Broken: the stored secret cannot be decrypted and the request ends with an exception. */
  datatype Verdict = Passed | Failed | Broken

  /** `MfaVerificationService.verify`. */
  function VerifyFactor(crypto: Crypto, now: int, rows: FactorStore.Rows, user: UserId, code: string)
    : (FactorStore.Rows, Verdict)
  {
    if user !in rows || !rows[user].isTotpEnabled then (rows, Failed)
    else if LooksLikeBackupCode(code) then
      var (rows', spent) := FactorStore.MarkBackupCodeUsed(rows, user, crypto.lookupHash(Normalize(code)), now);
      (rows', if spent then Passed else Failed)
    else if rows[user].totpSecret.GetOr("") == [] || |DigitsOf(code)| != 6 then (rows, Failed)
    else
      match crypto.decrypt(rows[user].totpSecret.value)
      case None => (rows, Broken)
      case Some(secret) =>
        match crypto.totpStep(DigitsOf(code), secret, now, rows[user].lastUsedTotpStep)
        case None => (rows, Failed)
        case Some(step) =>
          var (rows', claimed) := FactorStore.TryConsumeTotpStep(rows, user, step);
          (rows', if claimed then Passed else Failed)
  }

  datatype Verified = Verified(challenges: ChallengeStore.Rows, factors: FactorStore.Rows, session: Option<Session>)

  /** The check of `issueTokenPair` on the user row and its tenant. */
  predicate MayMint(activeTenants: set<string>, account: Account) {
    account.isPlatformAdmin || (account.tenantId in activeTenants && !account.emailPending)
  }

  /** The end of `verifyMfaChallenge`, once the code was accepted. */
  function FinishLogin(w: World, factors: FactorStore.Rows, jti: Jti, user: UserId, account: Account): Verified {
    var (challenges, won) := ChallengeStore.TryConsume(w.challenges, jti, w.now);
    if !won || !MayMint(w.activeTenants, account) then Verified(challenges, factors, None)
    else Verified(ChallengeStore.DeleteByUserId(challenges, user), factors, Some(SessionFor(user, account)))
  }

  /** `verifyMfaChallenge`, from the loaded challenge on. */
  function VerifyLoaded(crypto: Crypto, w: World, jti: Jti, ticket: Challenge, code: string): Verified {
    var stay := Verified(w.challenges, w.factors, None);
    if ticket.owner == None || ticket.owner == Some("") then stay
    else
      var user := ticket.owner.value;
      if user !in w.accounts || !ScopeMatches(ticket.scope, w.accounts[user]) || !w.accounts[user].isActive then stay
      else
        var (factors, verdict) :=
          if ticket.purpose.EmailCode? then
            (w.factors, if EmailCodeMatches(crypto, code, ticket.codeHash) then Passed else Failed)
          else VerifyFactor(crypto, w.now, w.factors, user, code);
        AfterVerdict(w, jti, ticket, w.accounts[user], user, factors, verdict)
  }

  /** A failed check counts against the challenge; a passed one consumes it. */
  function AfterVerdict(
    w: World, jti: Jti, ticket: Challenge, account: Account, user: UserId, factors: FactorStore.Rows, verdict: Verdict)
    : Verified
  {
    match verdict
    case Broken => Verified(w.challenges, factors, None)
    case Failed => Verified(FailAttempt(w.challenges, jti, ticket.maxAttempts), factors, None)
    case Passed => FinishLogin(w, factors, jti, user, account)
  }

  function VerifyChallenge(crypto: Crypto, w: World, token: OpaqueTokens.Token, code: string): Verified {
    var (challenges, loaded) := Load(crypto, w.now, w.challenges, token);
    if loaded.None? then Verified(challenges, w.factors, None)
    else VerifyLoaded(crypto, w, token.jti, loaded.value, code)
  }

  ghost predicate Agrees(w: World, jti: Jti, e: Effect, v: Verified) {
    && e.challenges == v.challenges && e.factors == v.factors
    && MfaSafety.Sessions(e.history, jti)
       == MfaSafety.Sessions(w.history, jti) + (if v.session.Some? then [v.session.value] else [])
  }

  lemma AloneFromConsume(crypto: Crypto, w: World, f: Flight)
    requires f.pc.Consume?
    ensures Agrees(w, f.jti, Alone(crypto, w, f), FinishLogin(w, w.factors, f.jti, f.user, f.account))
  {
    var e := Progress(crypto, w, f);
    if e.next.Some? {
      var w1 := After(w, e);
      var f1 := f.(pc := Pc.Tenant);
      assert Alone(crypto, w, f) == Alone(crypto, w1, f1);
      if MayMint(w.activeTenants, f.account) {
        var f2 := f.(pc := Store);
        assert Alone(crypto, w1, f1) == Alone(crypto, w1, f2);
        var w3 := After(w1, Progress(crypto, w1, f2));
        assert Alone(crypto, w1, f2) == Alone(crypto, w3, f.(pc := Clear));
      }
    }
  }

  lemma AloneFromRecord(crypto: Crypto, w: World, f: Flight)
    requires f.pc == Pc.Record
    ensures Agrees(w, f.jti, Alone(crypto, w, f),
                   Verified(FailAttempt(w.challenges, f.jti, f.ticket.maxAttempts), w.factors, None))
  {
    var e := Progress(crypto, w, f);
    if e.next.Some? {
      assert Alone(crypto, w, f) == Alone(crypto, After(w, e), f.(pc := Retire));
    }
  }

  /** The sessions already issued do not change under events of the code check. */
  lemma AloneAfterVerdict(crypto: Crypto, w: World, f: Flight, e: Effect)
    requires f.pc in {Pc.Factor, Spend, Claim} && e == Progress(crypto, w, f)
    requires e.next == Some(f.(pc := Consume)) || e.next == Some(f.(pc := Pc.Record))
    requires e.challenges == w.challenges
    ensures var verdict := if e.next.value.pc.Consume? then Passed else Failed;
            Agrees(w, f.jti, Alone(crypto, w, f),
                   AfterVerdict(w, f.jti, f.ticket, f.account, f.user, e.factors, verdict))
  {
    MfaSafety.ProgressSessions(crypto, w, f);
    var w' := After(w, e);
    if e.next.value.pc.Consume? {
      AloneFromConsume(crypto, w', e.next.value);
      assert FinishLogin(w', w'.factors, f.jti, f.user, f.account) == FinishLogin(w, e.factors, f.jti, f.user, f.account);
    } else {
      AloneFromRecord(crypto, w', e.next.value);
    }
  }

  lemma AloneFromClaim(crypto: Crypto, w: World, f: Flight)
    requires f.pc.Spend? || f.pc.Claim?
    ensures var (factors, done) :=
              if f.pc.Spend? then FactorStore.MarkBackupCodeUsed(w.factors, f.user, f.codeHash, w.now)
              else FactorStore.TryConsumeTotpStep(w.factors, f.user, f.step);
            Agrees(w, f.jti, Alone(crypto, w, f),
                   AfterVerdict(w, f.jti, f.ticket, f.account, f.user, factors, if done then Passed else Failed))
  {
    AloneAfterVerdict(crypto, w, f, Progress(crypto, w, f));
  }

  /** The three ways the check of a TOTP challenge goes on, and what the verification service says. */
  lemma CheckMatchesService(crypto: Crypto, w: World, f: Flight)
    requires f.pc == Pc.Factor && f.ticket.purpose.Totp?
    ensures var e := Progress(crypto, w, f);
            var (factors, verdict) := VerifyFactor(crypto, w.now, w.factors, f.user, f.code);
            && e.challenges == w.challenges && e.factors == w.factors
            && (e.next.None? ==> verdict.Broken? && factors == w.factors && e.history == w.history)
            && (e.next.Some? ==>
                  (if e.next.value.pc.Record? then
                     e.next.value == f.(pc := Pc.Record) && verdict.Failed? && factors == w.factors
                   else
                     && e.history == w.history && (e.next.value.pc.Spend? || e.next.value.pc.Claim?)
                     && e.next.value.(pc := f.pc, codeHash := f.codeHash, step := f.step, reading := f.reading) == f
                     && (factors, verdict.Passed?)
                        == (if e.next.value.pc.Spend? then
                              FactorStore.MarkBackupCodeUsed(w.factors, f.user, e.next.value.codeHash, w.now)
                            else FactorStore.TryConsumeTotpStep(w.factors, f.user, e.next.value.step))
                     && !verdict.Broken?))
  {
  }

  lemma AloneFromTotp(crypto: Crypto, w: World, f: Flight, factors: FactorStore.Rows, verdict: Verdict)
    requires f.pc == Pc.Factor && f.ticket.purpose.Totp?
    requires (factors, verdict) == VerifyFactor(crypto, w.now, w.factors, f.user, f.code)
    ensures Agrees(w, f.jti, Alone(crypto, w, f),
                   AfterVerdict(w, f.jti, f.ticket, f.account, f.user, factors, verdict))
  {
    var e := Progress(crypto, w, f);
    CheckMatchesService(crypto, w, f);
    if e.next.Some? && e.next.value.pc.Record? {
      AloneAfterVerdict(crypto, w, f, e);
    } else if e.next.Some? {
      assert After(w, e) == w;
      AloneFromClaim(crypto, w, e.next.value);
    }
  }

  lemma AloneFromFactor(crypto: Crypto, w: World, f: Flight)
    requires f.pc == Pc.Factor && f.ticket.owner == Some(f.user) && f.user != ""
    requires f.user in w.accounts && f.account == w.accounts[f.user]
    requires ScopeMatches(f.ticket.scope, f.account) && f.account.isActive
    ensures Agrees(w, f.jti, Alone(crypto, w, f), VerifyLoaded(crypto, w, f.jti, f.ticket, f.code))
  {
    if f.ticket.purpose.Totp? {
      var (factors, verdict) := VerifyFactor(crypto, w.now, w.factors, f.user, f.code);
      AloneFromTotp(crypto, w, f, factors, verdict);
    } else {
      AloneAfterVerdict(crypto, w, f, Progress(crypto, w, f));
    }
  }

  /** An uninterrupted request does what the sequential reading of the code says. */
  lemma AloneIsVerifyChallenge(crypto: Crypto, w: World, token: OpaqueTokens.Token, code: string)
    ensures Agrees(w, token.jti, Alone(crypto, w, Arrive(token, code)), VerifyChallenge(crypto, w, token, code))
  {
    var f := Arrive(token, code);
    var e := Progress(crypto, w, f);
    if e.next.Some? && e.next.value.pc.User? {
      var f1 := e.next.value;
      assert Alone(crypto, w, f) == Alone(crypto, w, f1);
      var e1 := Progress(crypto, w, f1);
      if e1.next.Some? {
        assert Alone(crypto, w, f1) == Alone(crypto, w, e1.next.value);
        AloneFromFactor(crypto, w, e1.next.value);
      }
    } else if e.next.Some? {
      assert Alone(crypto, w, f) == Alone(crypto, w, f.(pc := Discard));
    }
  }
}
