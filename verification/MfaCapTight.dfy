/** The bound on wrong guesses is exact: for every budget and every number of clients some run reaches it. */
module MfaCapTight {
  import opened Common
  import opened AuthModel
  import opened MfaProtocol
  import opened MfaSafety
  import ChallengeStore
  import OpaqueTokens

  const JTI := "7"
  const SECRET := "s"
  const OPERATOR := "operator"

  /** A library in which every secret matches itself; the other functions play no part. */
  const CRYPTO := Crypto((plain, hash) => plain == hash, value => value, _ => None, (_, _, _, _) => None)

  const ADMIN := Account("p", true, true, "", None, false)

  function Ticket(maxAttempts: nat, attempts: nat): Challenge {
    Challenge(SECRET, Some(OPERATOR), EmailCode, Platform, None, None, maxAttempts, 1, attempts, None)
  }

  function Start(): World {
    World(0, map[OPERATOR := ADMIN], {}, map[], map[], map[], map[], Begin)
  }

  /** The challenge is open with this many attempts counted. */
  predicate IsOpen(w: World, maxAttempts: nat, attempts: nat) {
    && w.now == 0 && w.accounts == map[OPERATOR := ADMIN]
    && w.challenges == map[JTI := Ticket(maxAttempts, attempts)]
    && w.issued == map[JTI := Ticket(maxAttempts, 0)]
  }

  ghost predicate AtMost(run: seq<World>, k: nat) {
    forall n :: 0 <= n < |run| ==> |run[n].flights| <= k
  }

  function Last(run: seq<World>): World
    requires run != []
  {
    run[|run| - 1]
  }

  lemma Extend(run: seq<World>, s: Step, k: nat) returns (longer: seq<World>)
    requires IsRun(CRYPTO, run) && AtMost(run, k) && Enabled(Last(run), s)
    requires |Apply(CRYPTO, Last(run), s).flights| <= k
    ensures IsRun(CRYPTO, longer) && AtMost(longer, k) && Last(longer) == Apply(CRYPTO, Last(run), s)
  {
    longer := run + [Apply(CRYPTO, Last(run), s)];
    assert Next(CRYPTO, Last(run), Last(longer));
    forall i | 0 < i < |longer| ensures IsStep(CRYPTO, longer, i) {
      if i < |run| {
        assert IsStep(CRYPTO, run, i);
      }
    }
  }

  lemma Update(flights: map<RequestId, Flight>, r: RequestId, f: Flight)
    ensures |flights[r := f]| == |flights| + One(r !in flights)
  {
    assert flights[r := f].Keys == flights.Keys + {r};
    if r in flights {
      assert flights.Keys + {r} == flights.Keys;
    }
  }

  /** One quiet step of request `r` on an open challenge. */
  lemma Move(run: seq<World>, r: RequestId, e: Effect, k: nat) returns (longer: seq<World>)
    requires IsRun(CRYPTO, run) && AtMost(run, k) && r in Last(run).flights && |Last(run).flights| <= k
    requires e == Progress(CRYPTO, Last(run), Last(run).flights[r]) && e.next.Some?
    requires e.challenges == Last(run).challenges && e.factors == Last(run).factors
    ensures IsRun(CRYPTO, longer) && AtMost(longer, k)
    ensures Last(longer) == Last(run).(flights := Last(run).flights[r := e.next.value], history := e.history)
  {
    Update(Last(run).flights, r, e.next.value);
    longer := Extend(run, Advance(r), k);
  }

  /** The flight of a client that sends a wrong code, at each program counter. */
  function Client(pc: Pc, maxAttempts: nat, attempts: nat): Flight {
    var f := Arrive(OpaqueTokens.Token(JTI, SECRET), "");
    if pc.Load? then f
    else
      var loaded := f.(pc := pc, ticket := Ticket(maxAttempts, attempts), user := OPERATOR);
      if pc.User? then loaded else loaded.(account := ADMIN)
  }

  lemma ClientProgress(w: World, maxAttempts: nat, attempts: nat)
    requires IsOpen(w, maxAttempts, attempts) && attempts < maxAttempts
    ensures Progress(CRYPTO, w, Client(Load, maxAttempts, attempts))
         == w.Quiet(Some(Client(User, maxAttempts, attempts)))
    ensures Progress(CRYPTO, w, Client(User, maxAttempts, attempts))
         == w.Quiet(Some(Client(Pc.Factor, maxAttempts, attempts)))
    ensures Progress(CRYPTO, w, Client(Pc.Factor, maxAttempts, attempts))
         == w.Quiet(Some(Client(Pc.Record, maxAttempts, attempts))).Record(WrongGuess(JTI))
  {
  }

  lemma Submission(run: seq<World>, r: RequestId, k: nat) returns (longer: seq<World>)
    requires IsRun(CRYPTO, run) && AtMost(run, k) && r !in Last(run).flights && |Last(run).flights| < k
    ensures IsRun(CRYPTO, longer) && AtMost(longer, k)
    ensures Last(longer) == Last(run).(flights := Last(run).flights[r := Client(Load, 0, 0)])
  {
    var token := OpaqueTokens.Token(JTI, SECRET);
    OpaqueTokens.RoundTrip(token);
    Update(Last(run).flights, r, Arrive(token, ""));
    longer := Extend(run, Submit(r, OpaqueTokens.Format(token), ""), k);
  }

  function NextPc(pc: Pc): Pc {
    if pc.Load? then User else if pc.User? then Pc.Factor else Pc.Record
  }

  /** One step of a client on its way to a wrong guess. */
  lemma ClientStep(run: seq<World>, r: RequestId, k: nat, maxAttempts: nat, attempts: nat, pc: Pc) returns (longer: seq<World>)
    requires IsRun(CRYPTO, run) && AtMost(run, k) && IsOpen(Last(run), maxAttempts, attempts) && attempts < maxAttempts
    requires pc in {Load, User, Pc.Factor} && r in Last(run).flights && |Last(run).flights| <= k
    requires Last(run).flights[r] == Client(pc, maxAttempts, attempts)
    ensures IsRun(CRYPTO, longer) && AtMost(longer, k)
    ensures var w := Last(run);
            Last(longer) == w.(flights := w.flights[r := Client(NextPc(pc), maxAttempts, attempts)],
                               history := if pc == Pc.Factor then Then(w.history, WrongGuess(JTI)) else w.history)
    ensures |Last(longer).flights| <= k
  {
    ClientProgress(Last(run), maxAttempts, attempts);
    longer := Move(run, r, Progress(CRYPTO, Last(run), Last(run).flights[r]), k);
    Update(Last(run).flights, r, Client(NextPc(pc), maxAttempts, attempts));
  }

  /** While attempts are left, one more client can have a guess judged wrong. */
  lemma Guess(run: seq<World>, r: RequestId, k: nat, maxAttempts: nat, attempts: nat) returns (longer: seq<World>)
    requires IsRun(CRYPTO, run) && AtMost(run, k) && IsOpen(Last(run), maxAttempts, attempts)
    requires r !in Last(run).flights && |Last(run).flights| < k && attempts < maxAttempts
    ensures IsRun(CRYPTO, longer) && AtMost(longer, k)
    ensures Last(longer) == Last(run).(flights := Last(run).flights[r := Client(Pc.Record, maxAttempts, attempts)],
                                       history := Then(Last(run).history, WrongGuess(JTI)))
  {
    longer := Entry(run, r, k, maxAttempts, attempts);
    longer := ClientStep(longer, r, k, maxAttempts, attempts, User);
    longer := ClientStep(longer, r, k, maxAttempts, attempts, Pc.Factor);
  }

  /** One more client gets past `load`. */
  lemma Entry(run: seq<World>, r: RequestId, k: nat, maxAttempts: nat, attempts: nat) returns (longer: seq<World>)
    requires IsRun(CRYPTO, run) && AtMost(run, k) && IsOpen(Last(run), maxAttempts, attempts)
    requires r !in Last(run).flights && |Last(run).flights| < k && attempts < maxAttempts
    ensures IsRun(CRYPTO, longer) && AtMost(longer, k) && |Last(longer).flights| <= k
    ensures Last(longer) == Last(run).(flights := Last(run).flights[r := Client(User, maxAttempts, attempts)])
  {
    Update(Last(run).flights, r, Client(Load, 0, 0));
    longer := Submission(run, r, k);
    longer := ClientStep(longer, r, k, maxAttempts, attempts, Load);
  }

  /** Clients one after another use up all attempts but one. */
  lemma {:induction false} UseUp(k: nat, maxAttempts: nat, attempts: nat) returns (run: seq<World>)
    requires k > 0 && attempts < maxAttempts
    ensures IsRun(CRYPTO, run) && AtMost(run, k) && IsOpen(Last(run), maxAttempts, attempts)
    ensures Last(run).flights == map[] && WrongGuesses(Last(run).history, JTI) == attempts
  {
    if attempts == 0 {
      run := [Start()];
      run := Extend(run, Issue(JTI, Ticket(maxAttempts, 0)), k);
    } else {
      run := UseUp(k, maxAttempts, attempts - 1);
      run := Guess(run, 0, k, maxAttempts, attempts - 1);
      run := CountAttempt(run, k, maxAttempts, attempts - 1);
    }
  }

  /** A lone failure is counted and its request ends. */
  lemma CountAttempt(run: seq<World>, k: nat, maxAttempts: nat, attempts: nat) returns (longer: seq<World>)
    requires IsRun(CRYPTO, run) && AtMost(run, k) && IsOpen(Last(run), maxAttempts, attempts)
    requires attempts + 1 < maxAttempts && Last(run).flights == map[0 := Client(Pc.Record, maxAttempts, attempts)]
    ensures IsRun(CRYPTO, longer) && AtMost(longer, k) && IsOpen(Last(longer), maxAttempts, attempts + 1)
    ensures Last(longer).flights == map[] && Last(longer).history == Then(Last(run).history, AttemptRecorded(JTI))
  {
    var w := Last(run);
    var counted := map[JTI := Ticket(maxAttempts, attempts + 1)];
    CountProgress(w, maxAttempts, attempts);
    assert w.flights - {0} == map[];
    longer := Extend(run, Advance(0), k);
  }

  lemma CountProgress(w: World, maxAttempts: nat, attempts: nat)
    requires IsOpen(w, maxAttempts, attempts) && attempts + 1 < maxAttempts
    ensures Progress(CRYPTO, w, Client(Pc.Record, maxAttempts, attempts))
         == w.Quiet(None).(challenges := map[JTI := Ticket(maxAttempts, attempts + 1)]).Record(AttemptRecorded(JTI))
  {
  }

  /** Then `n` clients pass `load` before any of them reports its failure. */
  lemma {:induction false} Crowd(k: nat, maxAttempts: nat, n: nat) returns (run: seq<World>)
    requires 0 < maxAttempts && 0 < k && n <= k
    ensures IsRun(CRYPTO, run) && AtMost(run, k) && IsOpen(Last(run), maxAttempts, maxAttempts - 1)
    ensures |Last(run).flights| == n && forall r :: r in Last(run).flights ==> r < n
    ensures WrongGuesses(Last(run).history, JTI) == maxAttempts - 1 + n
  {
    if n == 0 {
      run := UseUp(k, maxAttempts, maxAttempts - 1);
    } else {
      run := Crowd(k, maxAttempts, n - 1);
      var flights := Last(run).flights;
      run := Guess(run, n - 1, k, maxAttempts, maxAttempts - 1);
      Update(flights, n - 1, Client(Pc.Record, maxAttempts, maxAttempts - 1));
    }
  }

  /** For `k` requests in flight and any positive budget, `maxAttempts + k - 1` wrong guesses do occur. */
  lemma CapIsReached(k: nat, maxAttempts: nat) returns (run: seq<World>)
    requires k > 0 && maxAttempts > 0
    ensures IsRun(CRYPTO, run) && AtMost(run, k)
    ensures JTI in Last(run).issued && Last(run).issued[JTI].maxAttempts == maxAttempts
    ensures WrongGuesses(Last(run).history, JTI) == maxAttempts + k - 1
  {
    run := Crowd(k, maxAttempts, k);
  }
}
