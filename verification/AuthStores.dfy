/** Entities of the second-factor and session protocol. */
module AuthModel {
  import opened Common

  type UserId = string
  type Jti = string

  datatype Scope = Tenant | Platform
  datatype Role = Admin | Member
  datatype Purpose = Totp | EmailCode

  datatype Challenge = Challenge(
    secretHash: string,
    owner: Option<UserId>,
    purpose: Purpose,
    scope: Scope,
    tenantRole: Option<Role>,
    codeHash: Option<string>,
    maxAttempts: nat,
    expiresAt: int,
    attemptCount: nat,
    consumedAt: Option<int>)

  datatype BackupCode = BackupCode(codeHash: string, usedAt: Option<int>)

  datatype Factor = Factor(
    isTotpEnabled: bool,
    totpSecret: Option<string>,
    pendingSecret: Option<string>,
    pendingExpiresAt: Option<int>,
    totpEnabledAt: Option<int>,
    lastUsedTotpStep: Option<int>,
    backupCodes: seq<BackupCode>,
    backupCodesGeneratedAt: Option<int>,
    isEmailCodeLoginEnabled: bool)

  datatype RefreshToken = RefreshToken(userId: UserId, secretHash: string, familyId: string, expiresAt: int)

  /** The fields of a user row that the protocol reads. */
  datatype Account = Account(
    passwordHash: string,
    isPlatformAdmin: bool,
    isActive: bool,
    tenantId: string,
    role: Option<Role>,
    emailPending: bool)

  /** The libraries: bcrypt, the keyed digest, secret decryption, and the TOTP check of otplib. */
  datatype Crypto = Crypto(
    matches: (string, string) -> bool,
    lookupHash: string -> string,
    decrypt: string -> Option<string>,
    totpStep: (string, string, int, Option<int>) -> Option<int>)
}

/** The challenge collection: one function for each atomic database step. */
module ChallengeStore {
  import opened Common
  import opened AuthModel

  type Rows = map<Jti, Challenge>

  function RecordFailedAttempt(rows: Rows, jti: Jti): (Rows, Option<nat>) {
    if jti in rows then
      var counted := rows[jti].(attemptCount := rows[jti].attemptCount + 1);
      (rows[jti := counted], Some(counted.attemptCount))
    else (rows, None)
  }

  function TryConsume(rows: Rows, jti: Jti, now: int): (Rows, bool) {
    if jti in rows && rows[jti].consumedAt.None? then (rows[jti := rows[jti].(consumedAt := Some(now))], true)
    else (rows, false)
  }

  function DeleteByJti(rows: Rows, jti: Jti): Rows {
    rows - {jti}
  }

  function DeleteByUserId(rows: Rows, user: UserId): Rows {
    map jti | jti in rows && rows[jti].owner != Some(user) :: rows[jti]
  }
}

/** The per-user factor collection: one function for each atomic database step. */
module FactorStore {
  import opened Common
  import opened AuthModel

  type Rows = map<UserId, Factor>

  /** The row an upsert inserts, with the schema defaults. */
  const EMPTY := Factor(false, None, None, None, None, None, [], None, true)

  function StartTotpEnrollment(rows: Rows, user: UserId, pending: string, expiresAt: int): Rows {
    var row := if user in rows then rows[user] else EMPTY;
    rows[user := row.(pendingSecret := Some(pending), pendingExpiresAt := Some(expiresAt))]
  }

  function ActivateTotp(rows: Rows, user: UserId, secret: string, codes: seq<BackupCode>, now: int): (Rows, bool) {
    if user !in rows then (rows, false)
    else
      var row := rows[user].(
        totpSecret := Some(secret), isTotpEnabled := true, totpEnabledAt := Some(now),
        backupCodes := codes, backupCodesGeneratedAt := Some(now),
        pendingSecret := None, pendingExpiresAt := None, lastUsedTotpStep := None);
      (rows[user := row], true)
  }

  function DisableTotp(rows: Rows, user: UserId): Rows {
    if user !in rows then rows
    else
      rows[user := Factor(false, None, None, None, None, None, [], None, rows[user].isEmailCodeLoginEnabled)]
  }

  function TryConsumeTotpStep(rows: Rows, user: UserId, step: int): (Rows, bool) {
    if user in rows && (rows[user].lastUsedTotpStep.None? || rows[user].lastUsedTotpStep.value < step) then
      (rows[user := rows[user].(lastUsedTotpStep := Some(step))], true)
    else (rows, false)
  }

  /** The position of the first unused entry with this hash, or the length when there is none. */
  function FirstUnused(codes: seq<BackupCode>, codeHash: string): (index: nat)
    ensures index <= |codes|
    ensures index < |codes| ==> codes[index].codeHash == codeHash && codes[index].usedAt.None?
    ensures forall k :: 0 <= k < index ==> codes[k].codeHash == codeHash ==> codes[k].usedAt.Some?
  {
    if codes == [] || (codes[0].codeHash == codeHash && codes[0].usedAt.None?) then 0
    else 1 + FirstUnused(codes[1..], codeHash)
  }

  function MarkBackupCodeUsed(rows: Rows, user: UserId, codeHash: string, now: int): (Rows, bool) {
    if user !in rows then (rows, false)
    else
      var codes := rows[user].backupCodes;
      var index := FirstUnused(codes, codeHash);
      if index == |codes| then (rows, false)
      else
        var spent := codes[index := codes[index].(usedAt := Some(now))];
        (rows[user := rows[user].(backupCodes := spent)], true)
  }

  function ReplaceBackupCodes(rows: Rows, user: UserId, codes: seq<BackupCode>, now: int): Rows {
    if user !in rows then rows
    else rows[user := rows[user].(backupCodes := codes, backupCodesGeneratedAt := Some(now))]
  }

  function SetEmailCodeLogin(rows: Rows, user: UserId, enabled: bool): Rows {
    var row := if user in rows then rows[user] else EMPTY;
    rows[user := row.(isEmailCodeLoginEnabled := enabled)]
  }

  /** The stored form of freshly generated codes. */
  function Fresh(hashes: seq<string>): (codes: seq<BackupCode>)
    ensures |codes| == |hashes|
  {
    seq(|hashes|, i requires 0 <= i < |hashes| => BackupCode(hashes[i], None))
  }

  /** The hashes that can still be redeemed. */
  function Unused(codes: seq<BackupCode>): multiset<string> {
    if codes == [] then multiset{}
    else (if codes[0].usedAt.None? then multiset{codes[0].codeHash} else multiset{}) + Unused(codes[1..])
  }

  /** `buildStatus`: the number of codes reported as remaining. */
  function Remaining(codes: seq<BackupCode>): nat {
    if codes == [] then 0
    else (if codes[0].usedAt.None? then 1 else 0) + Remaining(codes[1..])
  }

  lemma {:induction false} RemainingIsUnused(codes: seq<BackupCode>)
    ensures Remaining(codes) == |Unused(codes)|
  {
    if codes != [] {
      RemainingIsUnused(codes[1..]);
    }
  }

  lemma {:induction false} FreshIsUnused(hashes: seq<string>)
    ensures Unused(Fresh(hashes)) == multiset(hashes)
  {
    if hashes != [] {
      FreshIsUnused(hashes[1..]);
      assert hashes == [hashes[0]] + hashes[1..];
      assert Fresh(hashes)[1..] == Fresh(hashes[1..]);
    }
  }

  /** Spending takes exactly one copy of the hash out of the unused codes; it fails when there is none. */
  lemma {:induction false} SpendTakesOne(codes: seq<BackupCode>, codeHash: string, now: int)
    ensures var index := FirstUnused(codes, codeHash);
            && (index == |codes| <==> codeHash !in Unused(codes))
            && (index < |codes| ==>
                  Unused(codes[index := codes[index].(usedAt := Some(now))]) == Unused(codes) - multiset{codeHash})
  {
    if codes != [] {
      var index := FirstUnused(codes, codeHash);
      var first, rest := codes[0], codes[1..];
      SpendTakesOne(rest, codeHash, now);
      assert codes == [first] + rest;
      if index == 0 {
        SpendFirst(first, rest, now);
      } else if index < |codes| {
        var spent := codes[index].(usedAt := Some(now));
        assert FirstUnused(rest, codeHash) == index - 1;
        assert codes[index := spent] == [first] + rest[index - 1 := spent];
        TakeFromRest(if first.usedAt.None? then multiset{first.codeHash} else multiset{}, Unused(rest), codeHash);
        UnusedFirst(first, rest[index - 1 := spent]);
        UnusedFirst(first, rest);
      } else {
        UnusedFirst(first, rest);
      }
    }
  }

  lemma UnusedFirst(first: BackupCode, rest: seq<BackupCode>)
    ensures Unused([first] + rest) == (if first.usedAt.None? then multiset{first.codeHash} else multiset{}) + Unused(rest)
  {
    assert ([first] + rest)[1..] == rest;
  }

  lemma SpendFirst(first: BackupCode, rest: seq<BackupCode>, now: int)
    requires first.usedAt.None?
    ensures first.codeHash in Unused([first] + rest)
    ensures Unused(([first] + rest)[0 := first.(usedAt := Some(now))]) == Unused([first] + rest) - multiset{first.codeHash}
  {
    var spent := first.(usedAt := Some(now));
    assert ([first] + rest)[0 := spent] == [spent] + rest;
    UnusedFirst(first, rest);
    UnusedFirst(spent, rest);
  }

  lemma TakeFromRest(a: multiset<string>, b: multiset<string>, x: string)
    requires x in b
    ensures a + (b - multiset{x}) == (a + b) - multiset{x}
  {
  }
}

/** The refresh-token collection. */
module TokenStore {
  import opened Common
  import opened AuthModel

  type Rows = map<Jti, RefreshToken>

  function DeleteByUserId(rows: Rows, user: UserId): Rows {
    map jti | jti in rows && rows[jti].userId != user :: rows[jti]
  }
}
