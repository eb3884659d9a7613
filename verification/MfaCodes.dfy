/** When a record fits its recovery codes, over every interleaving of the database steps. */
module MfaCodes {
  import opened Common
  import opened AuthModel
  import opened MfaProtocol
  import opened MfaSafety
  import AuthRuns
  import BackupCodes
  import FactorStore

  /** Every generation of codes has ten entries. */
  predicate Generates(s: Step) {
    (s.Activate? ==> |s.hashes| == BackupCodes.CODE_COUNT) && (s.ReplaceCodes? ==> |s.hashes| == BackupCodes.CODE_COUNT)
  }

  ghost predicate IsStepOf(crypto: Crypto, run: seq<World>, steps: seq<Step>, i: nat)
    requires i < |steps| && |run| == |steps| + 1
  {
    Enabled(run[i], steps[i]) && Generates(steps[i]) && run[i + 1] == Apply(crypto, run[i], steps[i])
  }

  ghost predicate IsRunOf(crypto: Crypto, run: seq<World>, steps: seq<Step>) {
    && |run| == |steps| + 1 && Initial(run[0])
    && forall i :: 0 <= i < |steps| ==> IsStepOf(crypto, run, steps, i)
  }

  /** A disabled record holds no codes, an enabled one holds ten. */
  ghost predicate Fits(factors: FactorStore.Rows, user: UserId) {
    user in factors ==> AuthRuns.HoldsItsCodes(factors[user])
  }

  /** The write of a regenerate request, after the check that the factor is enabled, meets a disabled one. */
  predicate RegeneratesDisabled(w: World, s: Step, user: UserId) {
    s.ReplaceCodes? && s.user == user && user in w.factors && !w.factors[user].isTotpEnabled
  }

  lemma ProgressKeepsFit(crypto: Crypto, w: World, f: Flight, user: UserId)
    requires Fits(w.factors, user)
    ensures Fits(Progress(crypto, w, f).factors, user)
  {
    match f.pc
    case Load => case Discard => case User =>
    case Factor => FactorCheckIsQuiet(crypto, w, f);
    case Spend => case Claim => case Record => case Retire => case Consume => case Tenant => case Store => case Clear =>
  }

  lemma ManageKeepsFitIff(w: World, s: Step, user: UserId)
    requires Fits(w.factors, user) && Generates(s)
    ensures Fits(Manage(w, s).factors, user) <==> !RegeneratesDisabled(w, s, user)
  {
  }

  lemma StepKeepsFitIff(crypto: Crypto, w: World, s: Step, user: UserId)
    requires Fits(w.factors, user) && Enabled(w, s) && Generates(s)
    ensures Fits(Apply(crypto, w, s).factors, user) <==> !RegeneratesDisabled(w, s, user)
  {
    if s.Advance? {
      ProgressKeepsFit(crypto, w, w.flights[s.request], user);
    } else {
      ManageKeepsFitIff(w, s, user);
    }
  }

  /** In every interleaving a user's record fits its codes at all times exactly if no regeneration met a disabled factor. */
  lemma {:induction false} FitsIffNoLateRegeneration(crypto: Crypto, run: seq<World>, steps: seq<Step>, user: UserId, i: nat)
    requires IsRunOf(crypto, run, steps) && i <= |steps|
    ensures (forall n :: 0 <= n <= i ==> Fits(run[n].factors, user))
            <==> (forall n :: 0 <= n < i ==> !RegeneratesDisabled(run[n], steps[n], user))
  {
    if i > 0 {
      FitsIffNoLateRegeneration(crypto, run, steps, user, i - 1);
      assert IsStepOf(crypto, run, steps, i - 1);
      if Fits(run[i - 1].factors, user) {
        StepKeepsFitIff(crypto, run[i - 1], steps[i - 1], user);
      }
    }
  }
}
