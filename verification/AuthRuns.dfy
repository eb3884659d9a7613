/** What every sequence of served requests keeps: token families, factor records, and a clean disable. */
module AuthRuns {
  import opened Common
  import opened AuthModel
  import opened AuthSerial
  import opened AuthRequests
  import opened MfaProtocol
  import BackupCodes
  import ChallengeStore
  import FactorStore
  import TokenStore
  import OpaqueTokens

  datatype Request =
    | LoginWith(user: UserId, password: string, scope: Scope, tenantRole: Option<Role>, maxAttempts: nat, draw: Draw)
    | AskLoginCode(user: UserId, scope: Scope, tenantRole: Option<Role>, codeHash: string, maxAttempts: nat, draw: Draw)
    | VerifyCode(raw: string, code: string, draw: Draw)
    | RefreshWith(raw: string, draw: Draw)
    | LogoutWith(token: Option<string>)
    | Enroll(user: UserId, encrypted: string, expiresAt: int)
    | ConfirmEnrollment(user: UserId, code: string, hashes: seq<string>)
    | DisableWith(user: UserId, password: string, code: string)
    | Regenerate(user: UserId, password: string, hashes: seq<string>)
    | OperatorReset(user: UserId)
    | UsersChange(accounts: map<UserId, Account>, activeTenants: set<string>)

  function Serve(crypto: Crypto, now: int, a: Auth, q: Request): Auth {
    match q
    case LoginWith(user, password, scope, role, max, draw) => Login(crypto, a, user, password, scope, role, max, draw).0
    case AskLoginCode(user, scope, role, codeHash, max, draw) =>
      RequestLoginCode(a, user, scope, role, codeHash, max, draw)
    case VerifyCode(raw, code, draw) => VerifyMfa(crypto, now, a, raw, code, draw).0
    case RefreshWith(raw, draw) => Refresh(crypto, now, a, raw, draw).0
    case LogoutWith(token) => Logout(crypto, a, token)
    case Enroll(user, encrypted, expiresAt) => AuthRequests.StartEnrollment(a, user, encrypted, expiresAt).0
    case ConfirmEnrollment(user, code, hashes) => EnableTotp(crypto, now, a, user, code, hashes).0
    case DisableWith(user, password, code) => DisableTotp(crypto, now, a, user, password, code).0
    case Regenerate(user, password, hashes) => RegenerateBackupCodes(crypto, now, a, user, password, hashes).0
    case OperatorReset(user) => ResetMfa(a, user).0
    case UsersChange(accounts, tenants) => a.(accounts := accounts, activeTenants := tenants)
  }

  /** The stores with the identifiers drawn so far and the refresh tokens rotated so far. */
  datatype Ledger = Ledger(auth: Auth, jtis: set<Jti>, families: set<string>, rotations: multiset<Jti>)

  function DrawOf(q: Request): Option<Draw> {
    if q.LoginWith? || q.AskLoginCode? || q.VerifyCode? || q.RefreshWith? then Some(q.draw) else None
  }

  /** Drawn identifiers are new, and a generation of recovery codes has ten entries. */
  predicate Possible(l: Ledger, q: Request) {
    && (DrawOf(q).Some? ==> DrawOf(q).value.jti !in l.jtis && DrawOf(q).value.familyId !in l.families)
    && (q.ConfirmEnrollment? || q.Regenerate? ==> |q.hashes| == BackupCodes.CODE_COUNT)
  }

  function RotatedBy(crypto: Crypto, now: int, a: Auth, q: Request): Option<Jti> {
    if q.RefreshWith? then Rotated(crypto, now, a, q.raw) else None
  }

  function Enter(crypto: Crypto, now: int, l: Ledger, q: Request): Ledger {
    Record(l, Serve(crypto, now, l.auth, q), DrawOf(q), RotatedBy(crypto, now, l.auth, q))
  }

  function Record(l: Ledger, a: Auth, draw: Option<Draw>, rotated: Option<Jti>): Ledger {
    Ledger(
      a,
      if draw.Some? then l.jtis + {draw.value.jti} else l.jtis,
      if draw.Some? then l.families + {draw.value.familyId} else l.families,
      if rotated.Some? then l.rotations + multiset{rotated.value} else l.rotations)
  }

  predicate Empty(l: Ledger) {
    l.auth.tokens == map[] && l.auth.factors == map[] && l.auth.challenges == map[] && l.rotations == multiset{}
  }

  ghost predicate IsServed(crypto: Crypto, run: seq<Ledger>) {
    && run != [] && Empty(run[0])
    && forall i :: 0 < i < |run| ==> Follows(crypto, run[i - 1], run[i])
  }

  ghost predicate Follows(crypto: Crypto, l: Ledger, l': Ledger) {
    exists now, q :: Possible(l, q) && l' == Enter(crypto, now, l, q)
  }

  // ----- refresh rotation -----

  ghost predicate FamiliesDistinct(tokens: TokenStore.Rows) {
    forall j, k :: j in tokens && k in tokens && tokens[j].familyId == tokens[k].familyId ==> j == k
  }

  ghost predicate Rotating(l: Ledger) {
    && FamiliesDistinct(l.auth.tokens)
    && (forall j :: j in l.auth.tokens ==> j in l.jtis && l.auth.tokens[j].familyId in l.families)
    && (forall j :: l.rotations[j] <= 1 && (j in l.rotations ==> j in l.jtis && j !in l.auth.tokens))
  }

  /** A request removes tokens, and adds at most the one it drew: in a new family, or in place of the rotated one. */
  ghost predicate TokensMove(tokens: TokenStore.Rows, tokens': TokenStore.Rows, draw: Option<Draw>, rotated: Option<Jti>) {
    && (rotated.Some? ==> rotated.value in tokens)
    && (forall j :: j in tokens' ==>
          || (j in tokens && tokens'[j] == tokens[j] && rotated != Some(j))
          || (draw.Some? && j == draw.value.jti
              && (tokens'[j].familyId == draw.value.familyId
                  || (rotated.Some? && tokens'[j].familyId == tokens[rotated.value].familyId))))
  }

  lemma ServeMovesTokens(crypto: Crypto, now: int, a: Auth, q: Request)
    requires DrawOf(q).Some? ==> DrawOf(q).value.jti !in a.tokens
    ensures TokensMove(a.tokens, Serve(crypto, now, a, q).tokens, DrawOf(q), RotatedBy(crypto, now, a, q))
  {
    match q
    case RefreshWith(raw, draw) => RefreshMovesTokens(crypto, now, a, raw, draw);
    case LoginWith(_, _, _, _, _, _) => case AskLoginCode(_, _, _, _, _, _) => case VerifyCode(_, _, _) =>
    case LogoutWith(_) => case Enroll(_, _, _) => case ConfirmEnrollment(_, _, _) =>
    case DisableWith(_, _, _) => case Regenerate(_, _, _) => case OperatorReset(_) => case UsersChange(_, _) =>
  }

  lemma RefreshMovesTokens(crypto: Crypto, now: int, a: Auth, raw: string, draw: Draw)
    requires draw.jti !in a.tokens
    ensures TokensMove(a.tokens, Refresh(crypto, now, a, raw, draw).0.tokens, Some(draw), Rotated(crypto, now, a, raw))
  {
  }

  lemma RotatingAfterMove(l: Ledger, a: Auth, draw: Option<Draw>, rotated: Option<Jti>)
    requires Rotating(l) && TokensMove(l.auth.tokens, a.tokens, draw, rotated)
    requires draw.Some? ==> draw.value.jti !in l.jtis && draw.value.familyId !in l.families
    ensures Rotating(Record(l, a, draw, rotated))
  {
  }

  lemma RotatingKept(crypto: Crypto, now: int, l: Ledger, q: Request)
    requires Rotating(l) && Possible(l, q)
    ensures Rotating(Enter(crypto, now, l, q))
  {
    ServeMovesTokens(crypto, now, l.auth, q);
    RotatingAfterMove(l, Serve(crypto, now, l.auth, q), DrawOf(q), RotatedBy(crypto, now, l.auth, q));
  }

  // ----- factor records -----

  /** A disabled record holds no recovery codes, an enabled one holds a full set. */
  ghost predicate HoldsItsCodes(factor: Factor) {
    |factor.backupCodes| == if factor.isTotpEnabled then 10 else 0
  }

  ghost predicate CodesFit(rows: FactorStore.Rows) {
    forall u :: u in rows ==> HoldsItsCodes(rows[u])
  }

  lemma VerifyFactorKeepsCodes(crypto: Crypto, now: int, rows: FactorStore.Rows, user: UserId, code: string)
    requires CodesFit(rows)
    ensures CodesFit(VerifyFactor(crypto, now, rows, user, code).0)
  {
  }

  lemma CodesFitKept(crypto: Crypto, now: int, l: Ledger, q: Request)
    requires CodesFit(l.auth.factors) && Possible(l, q)
    ensures CodesFit(Serve(crypto, now, l.auth, q).factors)
  {
    match q
    case LoginWith(_, _, _, _, _, _) => case AskLoginCode(_, _, _, _, _, _) =>
    case VerifyCode(raw, code, _) => VerifyMfaKeepsCodes(crypto, now, l.auth, raw, code, q.draw);
    case RefreshWith(_, _) => case LogoutWith(_) => case Enroll(_, _, _) => case ConfirmEnrollment(_, _, _) =>
    case DisableWith(user, _, code) => VerifyFactorKeepsCodes(crypto, now, l.auth.factors, user, code);
    case Regenerate(_, _, _) => case OperatorReset(_) => case UsersChange(_, _) =>
  }

  lemma VerifyMfaKeepsCodes(crypto: Crypto, now: int, a: Auth, raw: string, code: string, draw: Draw)
    requires CodesFit(a.factors)
    ensures CodesFit(VerifyMfa(crypto, now, a, raw, code, draw).0.factors)
  {
    forall user {
      VerifyFactorKeepsCodes(crypto, now, a.factors, user, code);
    }
  }

  // ----- the theorems -----

  lemma {:induction false} ServedRunKeeps(crypto: Crypto, run: seq<Ledger>, i: nat)
    requires IsServed(crypto, run) && i < |run|
    ensures Rotating(run[i]) && CodesFit(run[i].auth.factors)
  {
    if i > 0 {
      ServedRunKeeps(crypto, run, i - 1);
      assert Follows(crypto, run[i - 1], run[i]);
      var now, q :| Possible(run[i - 1], q) && run[i] == Enter(crypto, now, run[i - 1], q);
      RotatingKept(crypto, now, run[i - 1], q);
      CodesFitKept(crypto, now, run[i - 1], q);
    }
  }

  /** Each token family has at most one live token, and each token is rotated at most once. */
  lemma OneLiveTokenPerFamily(crypto: Crypto, run: seq<Ledger>, i: nat)
    requires IsServed(crypto, run) && i < |run|
    ensures FamiliesDistinct(run[i].auth.tokens)
    ensures forall j :: run[i].rotations[j] <= 1
  {
    ServedRunKeeps(crypto, run, i);
  }

  lemma CodesFitTheRecord(crypto: Crypto, run: seq<Ledger>, i: nat, user: UserId)
    requires IsServed(crypto, run) && i < |run| && user in run[i].auth.factors
    ensures HoldsItsCodes(run[i].auth.factors[user])
  {
    ServedRunKeeps(crypto, run, i);
  }

  /** The user has no pending challenge, no session, and no second factor left. */
  ghost predicate Unprotected(a: Auth, user: UserId) {
    && (forall j :: j in a.challenges ==> a.challenges[j].owner != Some(user))
    && (forall j :: j in a.tokens ==> a.tokens[j].userId != user)
    && (user in a.factors ==> !a.factors[user].isTotpEnabled && a.factors[user].backupCodes == []
                              && a.factors[user].totpSecret.None? && a.factors[user].pendingSecret.None?)
  }

  /** A completed disable or operator reset leaves the user no challenge and no refresh token. */
  lemma DisableSignsOutEverywhere(
    crypto: Crypto, now: int, a: Auth, user: UserId, password: string, code: string)
    ensures DisableTotp(crypto, now, a, user, password, code).1 ==>
              Unprotected(DisableTotp(crypto, now, a, user, password, code).0, user)
    ensures ResetMfa(a, user).1 ==> Unprotected(ResetMfa(a, user).0, user)
    ensures ResetMfa(a, user).1 <==> user in a.accounts
  {
  }

  /** A rotation takes the presented token away and puts one in its place, of the same user and the same family. */
  lemma RefreshStaysInFamily(crypto: Crypto, now: int, a: Auth, raw: string, draw: Draw)
    ensures var (after, session) := Refresh(crypto, now, a, raw, draw);
            && after.challenges == a.challenges && after.factors == a.factors
            && (session.Some? ==>
                 && Rotated(crypto, now, a, raw).Some?
                 && var was := Rotated(crypto, now, a, raw).value;
                    && session.value.userId == a.tokens[was].userId
                    && after.tokens == (a.tokens - {was})[draw.jti :=
                         RefreshToken(a.tokens[was].userId, draw.secretHash, a.tokens[was].familyId, draw.expiresAt)])
            && (session.None? ==> forall j <- after.tokens :: j in a.tokens && after.tokens[j] == a.tokens[j])
            && (forall j <- a.tokens :: j !in after.tokens ==>
                 OpaqueTokens.Parse(raw).Some? && OpaqueTokens.Parse(raw).value.jti == j)
  {
  }

  // ----- where serving one request at a time is needed -----

  /**
   * The write of a regenerate request keeps the record fitting its codes exactly when the factor is
   * still enabled at that moment; a disable request in between leaves codes on a disabled record.
   */
  lemma RegenerateRacesDisable(rows: FactorStore.Rows, user: UserId, hashes: seq<string>, now: int)
    requires user in rows && |hashes| == 10
    ensures rows[user].isTotpEnabled <==>
            HoldsItsCodes(FactorStore.ReplaceBackupCodes(rows, user, FactorStore.Fresh(hashes), now)[user])
    ensures var late := FactorStore.ReplaceBackupCodes(
              FactorStore.DisableTotp(rows, user), user, FactorStore.Fresh(hashes), now)[user];
            !late.isTotpEnabled && |late.backupCodes| == 10
  {
  }
}
