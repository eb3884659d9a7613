/**
 * Completing a login with a second factor, as a transition system.
 *
 * Every step is one atomic database operation. A verification request in flight is a program
 * counter with its locals; the steps of different requests, and of the enrolment, reset and
 * clean-up requests around them, interleave in any order.
 */
module MfaProtocol {
  import opened Common
  import opened AuthModel
  import opened BackupCodes
  import opened JsText
  import ChallengeStore
  import FactorStore
  import OpaqueTokens

  type RequestId = nat

  /** What the check of an authenticator code read: the clock, the stored secret, and the step used last. */
  datatype Reading = Reading(now: int, secret: string, lastStep: Option<int>)

  /** What a factor was accepted for, with the code as it was submitted. */
  datatype Proof =
    | ByTotp(step: int, code: string, reading: Reading)
    | ByBackupCode(codeHash: string, code: string)
    | ByEmailCode(code: string)

  datatype Session = Session(userId: UserId, platformAdmin: bool, tenantRole: Option<Role>)

  /** What an observer of the database and of the responses sees. */
  datatype Event =
    | StepClaimed(user: UserId, step: int)
    | StepsReset(user: UserId)
    | CodesInstalled(user: UserId, hashes: seq<string>)
    | CodeSpent(user: UserId, codeHash: string)
    | FactorAccepted(jti: Jti, user: UserId, proof: Proof)
    | WrongGuess(jti: Jti)
    | AttemptRecorded(jti: Jti)
    | SessionIssued(jti: Jti, session: Session)

  datatype History = Begin | Then(past: History, event: Event)

  /** The next database step of a `verifyMfaChallenge` request. */
  datatype Pc = Load | Discard | User | Factor | Spend | Claim | Record | Retire | Consume | Tenant | Store | Clear

  /** A request in flight: its program counter and its locals. */
  datatype Flight = Flight(
    pc: Pc,
    jti: Jti,
    secret: string,
    code: string,
    ticket: Challenge,
    user: UserId,
    account: Account,
    codeHash: string,
    step: int,
    reading: Reading)

  /** Locals before they are assigned. */
  const NO_TICKET := Challenge("", None, Totp, Scope.Tenant, None, None, 0, 0, 0, None)
  const NO_ACCOUNT := Account("", false, false, "", None, false)
  const NO_READING := Reading(0, "", None)

  function Arrive(token: OpaqueTokens.Token, code: string): Flight {
    Flight(Load, token.jti, token.secret, code, NO_TICKET, "", NO_ACCOUNT, "", 0, NO_READING)
  }

  datatype World = World(
    now: int,
    accounts: map<UserId, Account>,
    activeTenants: set<string>,
    challenges: ChallengeStore.Rows,
    factors: FactorStore.Rows,
    flights: map<RequestId, Flight>,
    issued: map<Jti, Challenge>,
    history: History)
  {
    function Record(event: Event): World {
      this.(history := Then(history, event))
    }

    /** The effect of a step that writes nothing: the request goes on as `next`, or ends. */
    function Quiet(next: Option<Flight>): Effect {
      Effect(challenges, factors, history, next)
    }
  }

  /** What one step of a request does: the new collections, and how the request goes on. */
  datatype Effect = Effect(
    challenges: ChallengeStore.Rows, factors: FactorStore.Rows, history: History, next: Option<Flight>)
  {
    function Record(event: Event): Effect {
      this.(history := Then(history, event))
    }
  }

  predicate Initial(w: World) {
    w.challenges == map[] && w.factors == map[] && w.flights == map[] && w.issued == map[] && w.history.Begin?
  }

  /** `assertLoginScopeMatchesUser`. */
  predicate ScopeMatches(scope: Scope, account: Account) {
    match scope
    case Platform => account.isPlatformAdmin
    case Tenant => !account.isPlatformAdmin && Trim(account.tenantId) != []
  }

  /** `EmailCodeService.verify`: a missing or empty stored hash always fails. */
  predicate EmailCodeMatches(crypto: Crypto, code: string, codeHash: Option<string>) {
    && codeHash.Some? && codeHash.value != []
    && |DigitsOf(code)| == 6
    && crypto.matches(DigitsOf(code), codeHash.value)
  }

  function AfterLoad(crypto: Crypto, w: World, f: Flight): Option<Flight> {
    if f.jti !in w.challenges then None
    else
      var ticket := w.challenges[f.jti];
      if ticket.consumedAt.Some? then None
      else if ticket.expiresAt <= w.now || ticket.attemptCount >= ticket.maxAttempts then Some(f.(pc := Discard))
      else if !crypto.matches(f.secret, ticket.secretHash) then None
      else if ticket.owner == None || ticket.owner == Some("") then None
      else Some(f.(pc := User, ticket := ticket, user := ticket.owner.value))
  }

  function AfterUser(w: World, f: Flight): Option<Flight> {
    if f.user in w.accounts && ScopeMatches(f.ticket.scope, w.accounts[f.user]) && w.accounts[f.user].isActive then
      Some(f.(pc := Pc.Factor, account := w.accounts[f.user]))
    else None
  }

  function AfterTenant(w: World, f: Flight): Option<Flight> {
    if f.account.isPlatformAdmin || (f.account.tenantId in w.activeTenants && !f.account.emailPending) then
      Some(f.(pc := Store))
    else None
  }

  function Reject(w: World, f: Flight): Effect {
    w.Quiet(Some(f.(pc := Pc.Record))).Record(WrongGuess(f.jti))
  }

  function Accept(w: World, f: Flight, proof: Proof): Effect {
    w.Quiet(Some(f.(pc := Consume))).Record(FactorAccepted(f.jti, f.user, proof))
  }

  /** The check of the submitted code, up to its first write. */
  function AfterFactor(crypto: Crypto, w: World, f: Flight): Effect {
    if f.ticket.purpose.EmailCode? then
      if EmailCodeMatches(crypto, f.code, f.ticket.codeHash) then Accept(w, f, ByEmailCode(f.code)) else Reject(w, f)
    else if f.user !in w.factors || !w.factors[f.user].isTotpEnabled then Reject(w, f)
    else if LooksLikeBackupCode(f.code) then
      w.Quiet(Some(f.(pc := Spend, codeHash := crypto.lookupHash(Normalize(f.code)))))
    else AfterTotpRead(crypto, w, f, w.factors[f.user])
  }

  function AfterTotpRead(crypto: Crypto, w: World, f: Flight, factor: Factor): Effect {
    if factor.totpSecret.GetOr("") == [] || |DigitsOf(f.code)| != 6 then Reject(w, f)
    else
      match crypto.decrypt(factor.totpSecret.value)
      case None => w.Quiet(None) // decryption throws: the request ends without a guess being judged
      case Some(secret) =>
        match crypto.totpStep(DigitsOf(f.code), secret, w.now, factor.lastUsedTotpStep)
        case None => Reject(w, f)
        case Some(step) =>
          w.Quiet(Some(f.(pc := Claim, step := step, reading := Reading(w.now, factor.totpSecret.value, factor.lastUsedTotpStep))))
  }

  /** The next database step of one verification request. */
  function Progress(crypto: Crypto, w: World, f: Flight): Effect {
    match f.pc
    case Load => w.Quiet(AfterLoad(crypto, w, f))
    case Discard => w.Quiet(None).(challenges := ChallengeStore.DeleteByJti(w.challenges, f.jti))
    case User => w.Quiet(AfterUser(w, f))
    case Factor => AfterFactor(crypto, w, f)
    case Spend =>
      var (factors, spent) := FactorStore.MarkBackupCodeUsed(w.factors, f.user, f.codeHash, w.now);
      if spent then Accept(w.(factors := factors).Record(CodeSpent(f.user, f.codeHash)), f, ByBackupCode(f.codeHash, f.code))
      else Reject(w, f)
    case Claim =>
      var (factors, claimed) := FactorStore.TryConsumeTotpStep(w.factors, f.user, f.step);
      if claimed then Accept(w.(factors := factors).Record(StepClaimed(f.user, f.step)), f, ByTotp(f.step, f.code, f.reading))
      else Reject(w, f)
    case Record =>
      var (challenges, attempts) := ChallengeStore.RecordFailedAttempt(w.challenges, f.jti);
      var exhausted := attempts.GetOr(f.ticket.maxAttempts) >= f.ticket.maxAttempts;
      w.Quiet(if exhausted then Some(f.(pc := Retire)) else None).(challenges := challenges)
        .Record(AttemptRecorded(f.jti))
    case Retire => w.Quiet(None).(challenges := ChallengeStore.DeleteByJti(w.challenges, f.jti))
    case Consume =>
      var (challenges, won) := ChallengeStore.TryConsume(w.challenges, f.jti, w.now);
      w.Quiet(if won then Some(f.(pc := Pc.Tenant)) else None).(challenges := challenges)
    case Tenant => w.Quiet(AfterTenant(w, f))
    case Store => w.Quiet(Some(f.(pc := Clear))).Record(SessionIssued(f.jti, SessionFor(f.user, f.account)))
    case Clear => w.Quiet(None).(challenges := ChallengeStore.DeleteByUserId(w.challenges, f.user))
  }

  /** The world after request `r` made a step with this effect. */
  function Settle(w: World, r: RequestId, e: Effect): World {
    w.(challenges := e.challenges, factors := e.factors, history := e.history,
       flights := if e.next.Some? then w.flights[r := e.next.value] else w.flights - {r})
  }

  /** `issueTokenPair`: the session carries the flags of the user row that was read. */
  function SessionFor(user: UserId, account: Account): Session {
    Session(user, account.isPlatformAdmin, if account.isPlatformAdmin then None else account.role)
  }

  datatype Step =
    | Advance(request: RequestId)
    | Submit(request: RequestId, raw: string, code: string)
    | Issue(jti: Jti, challenge: Challenge)
    | Expire(jti: Jti)
    | ClearChallenges(user: UserId)
    | Tick(now: int)
    | SetAccount(user: UserId, account: Account)
    | DropAccount(user: UserId)
    | SetTenants(tenants: set<string>)
    | StartEnrollment(user: UserId, pending: string, expiresAt: int)
    | Activate(user: UserId, totpSecret: string, hashes: seq<string>)
    | Disable(user: UserId)
    | ReplaceCodes(user: UserId, hashes: seq<string>)
    | SetEmailCodeLogin(user: UserId, enabled: bool)
    | ForgetFactor(user: UserId)
    | ClaimElsewhere(user: UserId, step: int)
    | SpendElsewhere(user: UserId, codeHash: string)

  predicate Enabled(w: World, s: Step) {
    match s
    case Advance(r) => r in w.flights
    case Submit(r, raw, _) => r !in w.flights && OpaqueTokens.Parse(raw).Some?
    // A fresh identifier, no attempt counted yet, and `readPositiveInteger` attempts allowed.
    case Issue(jti, c) => jti !in w.issued && c.attemptCount == 0 && c.consumedAt.None? && c.maxAttempts > 0
    case Tick(now) => w.now <= now
    // `enableTotp` refuses an empty pending secret.
    case Activate(_, secret, _) => secret != []
    case _ => true
  }

  function Apply(crypto: Crypto, w: World, s: Step): World
    requires Enabled(w, s)
  {
    match s
    case Advance(r) => Settle(w, r, Progress(crypto, w, w.flights[r]))
    case Submit(r, raw, code) => w.(flights := w.flights[r := Arrive(OpaqueTokens.Parse(raw).value, code)])
    case Issue(jti, c) => w.(challenges := w.challenges[jti := c], issued := w.issued[jti := c])
    case Expire(jti) => w.(challenges := ChallengeStore.DeleteByJti(w.challenges, jti))
    case ClearChallenges(user) => w.(challenges := ChallengeStore.DeleteByUserId(w.challenges, user))
    case Tick(now) => w.(now := now)
    case SetAccount(user, account) => w.(accounts := w.accounts[user := account])
    case DropAccount(user) => w.(accounts := w.accounts - {user})
    case SetTenants(tenants) => w.(activeTenants := tenants)
    case _ => Manage(w, s)
  }

  /** The steps of the enrolment, reset and preference requests on the factor collection. */
  function Manage(w: World, s: Step): World {
    match s
    case StartEnrollment(user, pending, expiresAt) =>
      w.(factors := FactorStore.StartTotpEnrollment(w.factors, user, pending, expiresAt))
    case Activate(user, secret, hashes) =>
      var (factors, found) := FactorStore.ActivateTotp(w.factors, user, secret, FactorStore.Fresh(hashes), w.now);
      if found then w.(factors := factors).Record(StepsReset(user)).Record(CodesInstalled(user, hashes)) else w
    case Disable(user) =>
      w.(factors := FactorStore.DisableTotp(w.factors, user)).Record(StepsReset(user)).Record(CodesInstalled(user, []))
    case ReplaceCodes(user, hashes) =>
      if user in w.factors then
        w.(factors := FactorStore.ReplaceBackupCodes(w.factors, user, FactorStore.Fresh(hashes), w.now))
          .Record(CodesInstalled(user, hashes))
      else w
    case SetEmailCodeLogin(user, enabled) => w.(factors := FactorStore.SetEmailCodeLogin(w.factors, user, enabled))
    case ForgetFactor(user) =>
      w.(factors := w.factors - {user}).Record(StepsReset(user)).Record(CodesInstalled(user, []))
    // The code check of a disable request, which goes through the same conditional updates.
    case ClaimElsewhere(user, step) =>
      var (factors, claimed) := FactorStore.TryConsumeTotpStep(w.factors, user, step);
      if claimed then w.(factors := factors).Record(StepClaimed(user, step)) else w
    case SpendElsewhere(user, codeHash) =>
      var (factors, spent) := FactorStore.MarkBackupCodeUsed(w.factors, user, codeHash, w.now);
      if spent then w.(factors := factors).Record(CodeSpent(user, codeHash)) else w
    case _ => w
  }

  ghost predicate Next(crypto: Crypto, w: World, w': World) {
    exists s :: Enabled(w, s) && w' == Apply(crypto, w, s)
  }

  ghost predicate IsStep(crypto: Crypto, run: seq<World>, i: nat)
    requires 0 < i < |run|
  {
    Next(crypto, run[i - 1], run[i])
  }

  /** A run: a start state and any interleaving of steps after it. */
  ghost predicate IsRun(crypto: Crypto, run: seq<World>) {
    && run != [] && Initial(run[0])
    && forall i :: 0 < i < |run| ==> IsStep(crypto, run, i)
  }
}
