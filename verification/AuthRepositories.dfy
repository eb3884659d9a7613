/** The repository classes. Each method is one atomic step on the collection it owns. */
module AuthRepositories {
  import opened Common
  import opened AuthModel
  import ChallengeStore
  import FactorStore
  import TokenStore

  class MfaChallengeRepository {
    var rows: ChallengeStore.Rows

    constructor ()
      ensures rows == map[]
    {
      rows := map[];
    }

    method Create(jti: Jti, challenge: Challenge)
      modifies this
      ensures rows == old(rows)[jti := challenge]
    {
      rows := rows[jti := challenge];
    }

    method FindByJti(jti: Jti) returns (found: Option<Challenge>)
      ensures found.Some? <==> jti in rows
      ensures found.Some? ==> found.value == rows[jti]
    {
      found := if jti in rows then Some(rows[jti]) else None;
    }

    method RecordFailedAttempt(jti: Jti) returns (attempts: Option<nat>)
      modifies this
      ensures (rows, attempts) == ChallengeStore.RecordFailedAttempt(old(rows), jti)
    {
      if jti in rows {
        var attempt := rows[jti].attemptCount + 1;
        rows := rows[jti := rows[jti].(attemptCount := attempt)];
        attempts := Some(attempt);
      } else {
        attempts := None;
      }
    }

    method TryConsume(jti: Jti, now: int) returns (won: bool)
      modifies this
      ensures (rows, won) == ChallengeStore.TryConsume(old(rows), jti, now)
    {
      won := jti in rows && rows[jti].consumedAt.None?;
      if won {
        rows := rows[jti := rows[jti].(consumedAt := Some(now))];
      }
    }

    method DeleteByJti(jti: Jti)
      modifies this
      ensures rows == ChallengeStore.DeleteByJti(old(rows), jti)
    {
      rows := rows - {jti};
    }

    method DeleteByUserId(user: UserId)
      modifies this
      ensures rows == ChallengeStore.DeleteByUserId(old(rows), user)
    {
      rows := map jti | jti in rows && rows[jti].owner != Some(user) :: rows[jti];
    }
  }

  class UserMfaRepository {
    var rows: FactorStore.Rows

    constructor ()
      ensures rows == map[]
    {
      rows := map[];
    }

    method FindByUserId(user: UserId) returns (found: Option<Factor>)
      ensures found.Some? <==> user in rows
      ensures found.Some? ==> found.value == rows[user]
    {
      found := if user in rows then Some(rows[user]) else None;
    }

    method StartTotpEnrollment(user: UserId, pending: string, expiresAt: int)
      modifies this
      ensures rows == FactorStore.StartTotpEnrollment(old(rows), user, pending, expiresAt)
    {
      if user !in rows {
        rows := rows[user := FactorStore.EMPTY];
      }
      rows := rows[user := rows[user].(pendingSecret := Some(pending), pendingExpiresAt := Some(expiresAt))];
    }

    method ActivateTotp(user: UserId, secret: string, codes: seq<BackupCode>, now: int) returns (found: bool)
      modifies this
      ensures (rows, found) == FactorStore.ActivateTotp(old(rows), user, secret, codes, now)
    {
      found := user in rows;
      if found {
        var row := rows[user].(totpSecret := Some(secret), isTotpEnabled := true, totpEnabledAt := Some(now));
        row := row.(backupCodes := codes, backupCodesGeneratedAt := Some(now));
        row := row.(pendingSecret := None, pendingExpiresAt := None, lastUsedTotpStep := None);
        rows := rows[user := row];
      }
    }

    method DisableTotp(user: UserId)
      modifies this
      ensures rows == FactorStore.DisableTotp(old(rows), user)
    {
      if user in rows {
        var row := rows[user].(isTotpEnabled := false, backupCodes := []);
        row := row.(totpSecret := None, pendingSecret := None, pendingExpiresAt := None);
        row := row.(totpEnabledAt := None, lastUsedTotpStep := None, backupCodesGeneratedAt := None);
        rows := rows[user := row];
      }
    }

    method TryConsumeTotpStep(user: UserId, step: int) returns (claimed: bool)
      modifies this
      ensures (rows, claimed) == FactorStore.TryConsumeTotpStep(old(rows), user, step)
    {
      claimed := user in rows && (rows[user].lastUsedTotpStep.None? || rows[user].lastUsedTotpStep.value < step);
      if claimed {
        rows := rows[user := rows[user].(lastUsedTotpStep := Some(step))];
      }
    }

    method MarkBackupCodeUsed(user: UserId, codeHash: string, now: int) returns (spent: bool)
      modifies this
      ensures (rows, spent) == FactorStore.MarkBackupCodeUsed(old(rows), user, codeHash, now)
    {
      spent := false;
      if user in rows {
        var codes := rows[user].backupCodes;
        var index := FactorStore.FirstUnused(codes, codeHash);
        if index < |codes| {
          codes := codes[index := codes[index].(usedAt := Some(now))];
          rows := rows[user := rows[user].(backupCodes := codes)];
          spent := true;
        }
      }
    }

    method ReplaceBackupCodes(user: UserId, codes: seq<BackupCode>, now: int)
      modifies this
      ensures rows == FactorStore.ReplaceBackupCodes(old(rows), user, codes, now)
    {
      if user in rows {
        rows := rows[user := rows[user].(backupCodes := codes, backupCodesGeneratedAt := Some(now))];
      }
    }
  }

  class RefreshTokenRepository {
    var rows: TokenStore.Rows

    constructor ()
      ensures rows == map[]
    {
      rows := map[];
    }

    method FindByJti(jti: Jti) returns (found: Option<RefreshToken>)
      ensures found.Some? <==> jti in rows
      ensures found.Some? ==> found.value == rows[jti]
    {
      found := if jti in rows then Some(rows[jti]) else None;
    }

    method CreateToken(jti: Jti, token: RefreshToken)
      modifies this
      ensures rows == old(rows)[jti := token]
    {
      rows := rows[jti := token];
    }

    method DeleteByJti(jti: Jti)
      modifies this
      ensures rows == old(rows) - {jti}
    {
      rows := rows - {jti};
    }

    method DeleteByUserId(user: UserId)
      modifies this
      ensures rows == TokenStore.DeleteByUserId(old(rows), user)
    {
      rows := map jti | jti in rows && rows[jti].userId != user :: rows[jti];
    }
  }
}
