/** What every reachable state of the second-factor protocol keeps. */
module MfaSafety {
  import opened Common
  import opened AuthModel
  import opened BackupCodes
  import opened MfaProtocol
  import ChallengeStore
  import FactorStore
  import OpaqueTokens

  // ----- reading the history -----

  function WrongGuesses(h: History, jti: Jti): nat {
    match h
    case Begin => 0
    case Then(past, e) => WrongGuesses(past, jti) + (if e == WrongGuess(jti) then 1 else 0)
  }

  function Recorded(h: History, jti: Jti): nat {
    match h
    case Begin => 0
    case Then(past, e) => Recorded(past, jti) + (if e == AttemptRecorded(jti) then 1 else 0)
  }

  /** The sessions issued for one challenge, oldest first. */
  function Sessions(h: History, jti: Jti): seq<Session> {
    match h
    case Begin => []
    case Then(past, e) => if e.SessionIssued? && e.jti == jti then Sessions(past, jti) + [e.session] else Sessions(past, jti)
  }

  /** A factor of this user was accepted for this challenge. */
  predicate AcceptedFor(h: History, jti: Jti, user: UserId) {
    match h
    case Begin => false
    case Then(past, e) => (e.FactorAccepted? && e.jti == jti && e.user == user) || AcceptedFor(past, jti, user)
  }

  /** Every session comes after an accepted factor of its own user for its own challenge. */
  predicate Authorized(h: History) {
    match h
    case Begin => true
    case Then(past, e) => Authorized(past) && (e.SessionIssued? ==> AcceptedFor(past, e.jti, e.session.userId))
  }

  /** The library reads this time step off the six digits of the code, with the secret and at the moment of the reading. */
  ghost predicate IsCodeOfStep(crypto: Crypto, code: string, reading: Reading, step: int) {
    && |Normalize(code)| != 12 && |DigitsOf(code)| == 6
    && reading.secret != "" && crypto.decrypt(reading.secret).Some?
    && crypto.totpStep(DigitsOf(code), crypto.decrypt(reading.secret).value, reading.now, reading.lastStep) == Some(step)
  }

  /** The twelve letters and digits of the code have this lookup hash. */
  ghost predicate IsCodeOfHash(crypto: Crypto, code: string, codeHash: string) {
    |Normalize(code)| == 12 && codeHash == crypto.lookupHash(Normalize(code))
  }

  /** The six digits of the code are those of the stored, non-empty hash. */
  ghost predicate IsEmailedCode(crypto: Crypto, code: string, codeHash: Option<string>) {
    codeHash.Some? && codeHash.value != "" && |DigitsOf(code)| == 6 && crypto.matches(DigitsOf(code), codeHash.value)
  }

  /**
   * Every accepted factor is backed: by a right code of the authenticator and the claim of its step, by a recovery code
   * and its spending, or by the code that was emailed for the challenge.
   */
  ghost predicate Backed(crypto: Crypto, issued: map<Jti, Challenge>, h: History) {
    match h
    case Begin => true
    case Then(past, e) =>
      && Backed(crypto, issued, past)
      && (e.FactorAccepted? ==>
        match e.proof
        case ByTotp(step, code, reading) =>
          past.Then? && past.event == StepClaimed(e.user, step) && IsCodeOfStep(crypto, code, reading, step)
        case ByBackupCode(codeHash, code) =>
          past.Then? && past.event == CodeSpent(e.user, codeHash) && IsCodeOfHash(crypto, code, codeHash)
        case ByEmailCode(code) =>
          && e.jti in issued && issued[e.jti].purpose.EmailCode? && issued[e.jti].owner == Some(e.user)
          && IsEmailedCode(crypto, code, issued[e.jti].codeHash))
  }

  /** The time steps claimed since the last activation or disabling, oldest first. */
  function Claims(h: History, user: UserId): seq<int> {
    match h
    case Begin => []
    case Then(past, e) =>
      if e == StepsReset(user) then []
      else if e.StepClaimed? && e.user == user then Claims(past, user) + [e.step]
      else Claims(past, user)
  }

  /** The codes installed last, and those of them spent since. */
  function Installed(h: History, user: UserId): multiset<string> {
    match h
    case Begin => multiset{}
    case Then(past, e) => if e.CodesInstalled? && e.user == user then multiset(e.hashes) else Installed(past, user)
  }

  function Spent(h: History, user: UserId): multiset<string> {
    match h
    case Begin => multiset{}
    case Then(past, e) =>
      if e.CodesInstalled? && e.user == user then multiset{}
      else if e.CodeSpent? && e.user == user then Spent(past, user) + multiset{e.codeHash}
      else Spent(past, user)
  }

  // ----- tickets: what a challenge was issued for never changes -----

  predicate SameTicket(a: Challenge, b: Challenge) {
    a.(attemptCount := 0, consumedAt := None) == b.(attemptCount := 0, consumedAt := None)
  }

  /** The request has read the challenge and has not yet reported a failure. */
  predicate HoldsTicket(f: Flight) {
    f.pc !in {Load, Discard, Retire}
  }

  ghost predicate FlightOk(issued: map<Jti, Challenge>, f: Flight) {
    && (HoldsTicket(f) ==> f.jti in issued && SameTicket(f.ticket, issued[f.jti]) && f.ticket.owner == Some(f.user))
    && (HoldsTicket(f) && !f.pc.User? ==> ScopeMatches(f.ticket.scope, f.account))
  }

  ghost predicate Tickets(w: World) {
    && (forall j :: j in w.challenges ==> j in w.issued && SameTicket(w.challenges[j], w.issued[j]))
    && (forall r :: r in w.flights ==> FlightOk(w.issued, w.flights[r]))
  }

  /** What may happen to a challenge row: attempts are counted and it is consumed, once and for all. */
  predicate Evolves(a: Challenge, b: Challenge) {
    SameTicket(b, a) && (a.consumedAt.Some? ==> b.consumedAt.Some?)
  }

  /** No challenge appears, and the remaining ones evolve. */
  ghost predicate NoNewTicket(before: ChallengeStore.Rows, after: ChallengeStore.Rows) {
    forall j :: j in after ==> j in before && Evolves(before[j], after[j])
  }

  lemma ProgressKeepsTickets(crypto: Crypto, w: World, f: Flight)
    ensures NoNewTicket(w.challenges, Progress(crypto, w, f).challenges)
  {
    match f.pc
    case Load =>
    case Discard =>
    case User =>
    case Factor => FactorCheckIsQuiet(crypto, w, f);
    case Spend =>
    case Claim =>
    case Record => 
    case Retire => 
    case Consume =>
    case Tenant =>
    case Store =>
    case Clear =>
  }

  /** Checking the code writes no collection; it may only reject or accept on record. */
  lemma FactorCheckIsQuiet(crypto: Crypto, w: World, f: Flight)
    ensures var e := AfterFactor(crypto, w, f);
            && e.challenges == w.challenges && e.factors == w.factors
            && (e.next.Some? ==>
                  && e.next.value.(pc := f.pc, codeHash := f.codeHash, step := f.step, reading := f.reading) == f
                  && e.next.value.pc in {Spend, Claim, Pc.Record, Consume})
            && (e.history == w.history || e == Reject(w, f) || e == Accept(w, f, ByEmailCode(f.code)))
  {
  }

  lemma ProgressKeepsFlight(crypto: Crypto, w: World, f: Flight)
    requires Tickets(w) && FlightOk(w.issued, f)
    ensures var next := Progress(crypto, w, f).next;
            next.Some? ==> next.value.jti == f.jti && FlightOk(w.issued, next.value)
  {
    match f.pc
    case Load =>
    case Discard =>
    case User =>
    case Factor => FactorCheckIsQuiet(crypto, w, f);
    case Spend =>
    case Claim =>
    case Record => 
    case Retire => 
    case Consume =>
    case Tenant =>
    case Store =>
    case Clear =>
  }

  /** What the steps around the verification requests leave alone. */
  ghost predicate Surroundings(w: World, w': World) {
    && (forall r :: r in w'.flights ==> w'.flights[r].pc.Load? || (r in w.flights && w'.flights[r] == w.flights[r]))
    && (forall r :: r in w.flights ==> r in w'.flights && w'.flights[r] == w.flights[r])
    && (forall j :: j in w.issued ==> j in w'.issued && w'.issued[j] == w.issued[j])
    && (forall j :: j in w'.challenges && j in w.issued ==> j in w.challenges && w'.challenges[j] == w.challenges[j])
    && (forall j :: j in w'.challenges && j !in w.issued ==>
          j in w'.issued && w'.issued[j] == w'.challenges[j] && w'.challenges[j].attemptCount == 0)
    && (forall j :: j in w'.issued && j !in w.issued ==> w'.issued[j].maxAttempts > 0)
  }

  /** The surrounding steps leave no mark on what a challenge led to. */
  ghost predicate SameVerdicts(h: History, h': History) {
    && (forall j :: Sessions(h', j) == Sessions(h, j))
    && (forall j :: WrongGuesses(h', j) == WrongGuesses(h, j) && Recorded(h', j) == Recorded(h, j))
    && (forall j, u :: AcceptedFor(h, j, u) ==> AcceptedFor(h', j, u))
    && (Authorized(h) ==> Authorized(h'))
  }

  lemma SurroundingSteps(crypto: Crypto, w: World, s: Step)
    requires Tickets(w) && Enabled(w, s) && !s.Advance?
    ensures Surroundings(w, Apply(crypto, w, s))
  {
    var w' := Apply(crypto, w, s);
    match s
    case Submit(r, raw, code) => SubmitIsSurrounding(w, r, Arrive(OpaqueTokens.Parse(raw).value, code));
    case Issue(j, challenge) => IssueIsSurrounding(w, j, challenge);
    case Expire(_) => FewerChallenges(w, w');
    case ClearChallenges(_) => FewerChallenges(w, w');
    case Tick(_) => FewerChallenges(w, w');
    case SetAccount(_, _) => FewerChallenges(w, w');
    case DropAccount(_) => FewerChallenges(w, w');
    case SetTenants(_) => FewerChallenges(w, w');
    case _ => ManageTouchesFactorsOnly(w, s); FewerChallenges(w, w');
  }

  lemma FewerChallenges(w: World, w': World)
    requires Tickets(w) && w'.flights == w.flights && w'.issued == w.issued
    requires forall j :: j in w'.challenges ==> j in w.challenges && w'.challenges[j] == w.challenges[j]
    ensures Surroundings(w, w')
  {
  }

  lemma SubmitIsSurrounding(w: World, r: RequestId, f: Flight)
    requires Tickets(w) && r !in w.flights && f.pc.Load?
    ensures Surroundings(w, w.(flights := w.flights[r := f]))
  {
  }

  lemma IssueIsSurrounding(w: World, jti: Jti, challenge: Challenge)
    requires Tickets(w) && jti !in w.issued && challenge.attemptCount == 0 && challenge.maxAttempts > 0
    ensures Surroundings(w, w.(challenges := w.challenges[jti := challenge], issued := w.issued[jti := challenge]))
  {
  }

  lemma ManageTouchesFactorsOnly(w: World, s: Step)
    ensures Manage(w, s).(factors := w.factors, history := w.history) == w
  {
  }

  /** An event about a user's factors, not about a challenge. */
  predicate IsFactorEvent(e: Event) {
    e.StepClaimed? || e.StepsReset? || e.CodesInstalled? || e.CodeSpent?
  }

  /** `h'` is `h` with at most two factor events after it. */
  predicate AddsFactorEvents(h: History, h': History) {
    || h' == h
    || (h'.Then? && IsFactorEvent(h'.event)
        && (h'.past == h || (h'.past.Then? && IsFactorEvent(h'.past.event) && h'.past.past == h)))
  }

  lemma FactorEventsAreSilent(h: History, h': History)
    requires AddsFactorEvents(h, h')
    ensures SameVerdicts(h, h')
  {
    if h' != h && h'.past != h {
      FactorEventsAreSilent(h, h'.past);
      assert SameVerdicts(h'.past, h');
    }
  }

  lemma SurroundingHistory(crypto: Crypto, w: World, s: Step)
    requires Enabled(w, s) && !s.Advance?
    ensures SameVerdicts(w.history, Apply(crypto, w, s).history)
    ensures AddsFactorEvents(w.history, Apply(crypto, w, s).history)
  {
    assert AddsFactorEvents(w.history, Apply(crypto, w, s).history);
    FactorEventsAreSilent(w.history, Apply(crypto, w, s).history);
  }

  lemma TicketsKept(crypto: Crypto, w: World, s: Step)
    requires Tickets(w) && Enabled(w, s)
    ensures Tickets(Apply(crypto, w, s))
  {
    if s.Advance? {
      ProgressKeepsTickets(crypto, w, w.flights[s.request]);
      ProgressKeepsFlight(crypto, w, w.flights[s.request]);
    } else {
      SurroundingSteps(crypto, w, s);
    }
  }

  // ----- what a step puts on record -----

  /** The guess was judged wrong by this step. */
  predicate Judges(e: Effect) {
    e.next.Some? && e.next.value.pc == Pc.Record
  }

  /** A factor was accepted and the session is still to come. */
  predicate Accepted(f: Flight) {
    f.pc in {Consume, Pc.Tenant, Store}
  }

  /** The events of one step, by what the step did. */
  ghost predicate OnRecord(crypto: Crypto, w: World, f: Flight, e: Effect) {
    if Judges(e) then e.history == Then(w.history, WrongGuess(f.jti))
    else if f.pc == Pc.Record then e.history == Then(w.history, AttemptRecorded(f.jti))
    else if f.pc.Store? then e.history == Then(w.history, SessionIssued(f.jti, SessionFor(f.user, f.account)))
    else if !Accepted(f) && e.next.Some? && Accepted(e.next.value) then
      match f.pc
      case Spend =>
        e.history == Then(Then(w.history, CodeSpent(f.user, f.codeHash)),
                          FactorAccepted(f.jti, f.user, ByBackupCode(f.codeHash, f.code)))
      case Claim =>
        e.history == Then(Then(w.history, StepClaimed(f.user, f.step)),
                          FactorAccepted(f.jti, f.user, ByTotp(f.step, f.code, f.reading)))
      case _ =>
        && f.ticket.purpose.EmailCode? && IsEmailedCode(crypto, f.code, f.ticket.codeHash)
        && e.history == Then(w.history, FactorAccepted(f.jti, f.user, ByEmailCode(f.code)))
    else e.history == w.history
  }

  lemma CheckIsOnRecord(crypto: Crypto, w: World, f: Flight)
    requires f.pc == Pc.Factor
    ensures OnRecord(crypto, w, f, AfterFactor(crypto, w, f))
  {
    FactorCheckIsQuiet(crypto, w, f);
  }

  lemma ProgressIsOnRecord(crypto: Crypto, w: World, f: Flight)
    ensures OnRecord(crypto, w, f, Progress(crypto, w, f))
  {
    match f.pc
    case Load => case Discard => case User =>
    case Factor => CheckIsOnRecord(crypto, w, f);
    case Spend => case Claim => case Record => case Retire => case Consume => case Tenant => case Store => case Clear =>
  }

  lemma ProgressKeepsUser(crypto: Crypto, w: World, f: Flight)
    ensures var next := Progress(crypto, w, f).next;
            next.Some? && HoldsTicket(f) ==> next.value.user == f.user
    ensures var next := Progress(crypto, w, f).next;
            next.Some? && Accepted(next.value) ==> Accepted(f) || f.pc in {Pc.Factor, Spend, Claim}
  {
    match f.pc
    case Load => case Discard => case User =>
    case Factor => FactorCheckIsQuiet(crypto, w, f);
    case Spend => case Claim => case Record => case Retire => case Consume => case Tenant => case Store => case Clear =>
  }

  // ----- one session per challenge -----

  /** The request won the challenge and has not issued its session yet. */
  predicate Minting(f: Flight) {
    f.pc in {Pc.Tenant, Store}
  }

  predicate SessionMatches(ticket: Challenge, session: Session) {
    ticket.owner == Some(session.userId) && (session.platformAdmin <==> ticket.scope.Platform?)
  }

  /** Nobody can win this challenge any more. */
  predicate IsSpent(w: World, jti: Jti) {
    jti in w.issued && (jti in w.challenges ==> w.challenges[jti].consumedAt.Some?)
  }

  ghost predicate SessionsUnique(w: World) {
    && (forall j :: |Sessions(w.history, j)| <= 1)
    && (forall j :: Sessions(w.history, j) != [] ==>
          IsSpent(w, j) && SessionMatches(w.issued[j], Sessions(w.history, j)[0]))
    && (forall r :: r in w.flights && Minting(w.flights[r]) ==>
          IsSpent(w, w.flights[r].jti) && Sessions(w.history, w.flights[r].jti) == [])
    && MintersDiffer(w.flights)
  }

  /** No two requests mint for the same challenge. */
  ghost predicate MintersDiffer(flights: map<RequestId, Flight>) {
    forall r, q :: r in flights && q in flights && r != q && Minting(flights[r]) && Minting(flights[q]) ==>
      flights[r].jti != flights[q].jti
  }

  lemma ProgressSessions(crypto: Crypto, w: World, f: Flight)
    ensures forall j :: Sessions(Progress(crypto, w, f).history, j) == Sessions(w.history, j)
                    + (if f.pc.Store? && j == f.jti then [SessionFor(f.user, f.account)] else [])
  {
    ProgressIsOnRecord(crypto, w, f);
  }

  /** Only a winning consumption makes a request mint. */
  lemma ProgressMints(crypto: Crypto, w: World, f: Flight)
    requires FlightOk(w.issued, f)
    ensures var e := Progress(crypto, w, f);
            e.next.Some? && Minting(e.next.value) && !Minting(f) ==>
              && f.pc.Consume? && f.jti in w.challenges && w.challenges[f.jti].consumedAt.None?
              && f.jti in e.challenges && e.challenges[f.jti].consumedAt.Some?
  {
    match f.pc
    case Load => case Discard => case User =>
    case Factor => FactorCheckIsQuiet(crypto, w, f);
    case Spend => case Claim => case Record => case Retire => case Consume => case Tenant => case Store => case Clear =>
  }

  lemma MintersStillDiffer(w: World, r: RequestId, e: Effect)
    requires SessionsUnique(w) && r in w.flights
    requires e.next.Some? ==> e.next.value.jti == w.flights[r].jti
    requires e.next.Some? && Minting(e.next.value) && !Minting(w.flights[r]) ==> !IsSpent(w, w.flights[r].jti)
    ensures MintersDiffer(Settle(w, r, e).flights)
  {
  }

  /** The step that issues the session ends the minting. */
  lemma UniqueAfterMint(w: World, r: RequestId, e: Effect)
    requires SessionsUnique(w) && r in w.flights && FlightOk(w.issued, w.flights[r])
    requires NoNewTicket(w.challenges, e.challenges) && w.flights[r].pc.Store?
    requires e.next.Some? && e.next.value.pc.Clear?
    requires var f := w.flights[r];
             && Sessions(e.history, f.jti) == Sessions(w.history, f.jti) + [SessionFor(f.user, f.account)]
             && (forall j :: j != f.jti ==> Sessions(e.history, j) == Sessions(w.history, j))
    ensures SessionsUnique(Settle(w, r, e))
  {
    var f := w.flights[r];
    assert Sessions(e.history, f.jti) == [SessionFor(f.user, f.account)];
    assert SessionMatches(w.issued[f.jti], SessionFor(f.user, f.account));
  }

  lemma UniqueAfterMove(w: World, r: RequestId, e: Effect)
    requires SessionsUnique(w) && r in w.flights
    requires NoNewTicket(w.challenges, e.challenges)
    requires e.next.Some? ==> e.next.value.jti == w.flights[r].jti
    requires forall j :: Sessions(e.history, j) == Sessions(w.history, j)
    requires e.next.Some? && Minting(e.next.value) && !Minting(w.flights[r]) ==>
               var j := w.flights[r].jti;
               j in e.challenges && w.challenges[j].consumedAt.None? && e.challenges[j].consumedAt.Some? && j in w.issued
    ensures SessionsUnique(Settle(w, r, e))
  {
    MintersStillDiffer(w, r, e);
  }

  lemma UniqueInSurroundings(w: World, w': World)
    requires Tickets(w) && SessionsUnique(w) && Surroundings(w, w') && SameVerdicts(w.history, w'.history)
    ensures SessionsUnique(w')
  {
    assert forall j :: IsSpent(w, j) ==> IsSpent(w', j);
    forall j ensures |Sessions(w'.history, j)| <= 1 {
      assert Sessions(w'.history, j) == Sessions(w.history, j);
    }
    forall j | Sessions(w'.history, j) != [] ensures IsSpent(w', j) && SessionMatches(w'.issued[j], Sessions(w'.history, j)[0]) {
      assert Sessions(w'.history, j) == Sessions(w.history, j) && IsSpent(w, j);
    }
    forall r | r in w'.flights && Minting(w'.flights[r])
      ensures IsSpent(w', w'.flights[r].jti) && Sessions(w'.history, w'.flights[r].jti) == []
    {
      assert r in w.flights && w'.flights[r] == w.flights[r];
    }
  }

  lemma SessionsStayUnique(crypto: Crypto, w: World, s: Step)
    requires Tickets(w) && SessionsUnique(w) && Enabled(w, s)
    ensures SessionsUnique(Apply(crypto, w, s))
  {
    if s.Advance? {
      var f := w.flights[s.request];
      ProgressKeepsTickets(crypto, w, f);
      ProgressKeepsFlight(crypto, w, f);
      ProgressSessions(crypto, w, f);
      ProgressMints(crypto, w, f);
      if f.pc.Store? {
        UniqueAfterMint(w, s.request, Progress(crypto, w, f));
      } else {
        UniqueAfterMove(w, s.request, Progress(crypto, w, f));
      }
    } else {
      SurroundingSteps(crypto, w, s);
      SurroundingHistory(crypto, w, s);
      UniqueInSurroundings(w, Apply(crypto, w, s));
    }
  }

  // ----- every session follows an accepted factor -----

  /** What the request is about to claim or spend is what its code stands for. */
  ghost predicate HasReadCode(crypto: Crypto, f: Flight) {
    && (f.pc.Spend? ==> IsCodeOfHash(crypto, f.code, f.codeHash))
    && (f.pc.Claim? ==> IsCodeOfStep(crypto, f.code, f.reading, f.step))
  }

  lemma ProgressReadsCode(crypto: Crypto, w: World, f: Flight)
    ensures Progress(crypto, w, f).next.Some? ==> HasReadCode(crypto, Progress(crypto, w, f).next.value)
  {
    match f.pc
    case Load => case Discard => case User => case Factor => case Spend => case Claim => case Record =>
    case Retire => case Consume => case Tenant => case Store => case Clear =>
  }

  ghost predicate Sanctioned(crypto: Crypto, w: World) {
    && Authorized(w.history) && Backed(crypto, w.issued, w.history)
    && (forall r <- w.flights :: HasReadCode(crypto, w.flights[r]))
    && (forall r :: r in w.flights && Accepted(w.flights[r]) ==>
          AcceptedFor(w.history, w.flights[r].jti, w.flights[r].user))
  }

  lemma {:induction false} BackedMonotone(
    crypto: Crypto, issued: map<Jti, Challenge>, issued': map<Jti, Challenge>, h: History, h': History)
    requires Backed(crypto, issued, h) && AddsFactorEvents(h, h')
    requires forall j :: j in issued ==> j in issued' && issued'[j] == issued[j]
    ensures Backed(crypto, issued', h')
  {
    if h' != h {
      BackedMonotone(crypto, issued, issued', h, h'.past);
    } else if h.Then? {
      BackedMonotone(crypto, issued, issued', h.past, h.past);
    }
  }

  lemma ProgressIsSanctioned(crypto: Crypto, w: World, f: Flight)
    requires FlightOk(w.issued, f) && HasReadCode(crypto, f) && Authorized(w.history) && Backed(crypto, w.issued, w.history)
    requires Accepted(f) ==> AcceptedFor(w.history, f.jti, f.user)
    ensures var e := Progress(crypto, w, f);
            && Authorized(e.history) && Backed(crypto, w.issued, e.history)
            && (forall j, u :: AcceptedFor(w.history, j, u) ==> AcceptedFor(e.history, j, u))
            && (e.next.Some? && Accepted(e.next.value) ==> AcceptedFor(e.history, f.jti, e.next.value.user))
  {
    ProgressIsOnRecord(crypto, w, f);
    ProgressKeepsUser(crypto, w, f);
  }

  lemma StaysSanctioned(crypto: Crypto, w: World, s: Step)
    requires Tickets(w) && Sanctioned(crypto, w) && Enabled(w, s)
    ensures Sanctioned(crypto, Apply(crypto, w, s))
  {
    var w' := Apply(crypto, w, s);
    if s.Advance? {
      ProgressIsSanctioned(crypto, w, w.flights[s.request]);
      ProgressReadsCode(crypto, w, w.flights[s.request]);
      ProgressKeepsFlight(crypto, w, w.flights[s.request]);
    } else {
      SurroundingSteps(crypto, w, s);
      SurroundingHistory(crypto, w, s);
      BackedMonotone(crypto, w.issued, w'.issued, w.history, w'.history);
    }
  }

  // ----- the attempt cap -----

  /** The request passed `load` for this challenge; its guess is not judged wrong and it has not ended. */
  predicate IsPending(f: Flight, jti: Jti) {
    f.jti == jti && f.pc in {User, Pc.Factor, Spend, Claim, Consume, Pc.Tenant, Store, Clear}
  }

  /** The guess was judged wrong and the attempt is still to be recorded. */
  predicate IsJudged(f: Flight, jti: Jti) {
    f.jti == jti && f.pc == Pc.Record
  }

  type Flights = map<RequestId, Flight>

  ghost function Pending(flights: Flights, jti: Jti): set<RequestId> {
    set r | r in flights && IsPending(flights[r], jti)
  }

  ghost function Judged(flights: Flights, jti: Jti): set<RequestId> {
    set r | r in flights && IsJudged(flights[r], jti)
  }

  ghost predicate Counted(w: World) {
    && (forall j :: j in w.challenges ==> w.challenges[j].attemptCount == Recorded(w.history, j))
    && (forall j :: WrongGuesses(w.history, j) == Recorded(w.history, j) + |Judged(w.flights, j)|)
    && (forall j :: j !in w.issued ==> WrongGuesses(w.history, j) == 0)
  }

  /** The requests in flight that present this challenge. */
  ghost function Presenting(flights: Flights, jti: Jti): set<RequestId> {
    set r | r in flights && flights[r].jti == jti
  }

  ghost predicate WithinCap(w: World, jti: Jti, k: nat) {
    jti in w.issued ==> WrongGuesses(w.history, jti) + |Pending(w.flights, jti)| <= w.issued[jti].maxAttempts + k - 1
  }

  lemma {:induction false} SubsetSize<T>(a: set<T>, b: set<T>)
    requires a <= b
    ensures |a| <= |b|
  {
    if a != {} {
      var x :| x in a;
      SubsetSize(a - {x}, b - {x});
    }
  }

  function One(b: bool): nat {
    if b then 1 else 0
  }

  /** A step that judges a guess wrong puts it on record; so does the step that counts it. */
  lemma ProgressCounts(crypto: Crypto, w: World, f: Flight)
    ensures var e := Progress(crypto, w, f);
            && (forall j :: WrongGuesses(e.history, j) == WrongGuesses(w.history, j) + One(j == f.jti && Judges(e)))
            && (forall j :: Recorded(e.history, j) == Recorded(w.history, j) + One(IsJudged(f, j)))
  {
    ProgressIsOnRecord(crypto, w, f);
  }

  /** Which requests a step lets past `load`, and where a judged one goes. */
  lemma ProgressAdmits(crypto: Crypto, w: World, f: Flight)
    ensures var e := Progress(crypto, w, f);
            && (e.next.Some? ==> e.next.value.jti == f.jti)
            && (Judges(e) ==> IsPending(f, f.jti))
            && (IsJudged(f, f.jti) ==> e.next.None? || e.next.value.pc == Retire)
            && (e.next.Some? && IsPending(e.next.value, f.jti) && !IsPending(f, f.jti) ==>
                  && !IsJudged(f, f.jti) && f.jti in w.challenges
                  && w.challenges[f.jti].attemptCount < w.challenges[f.jti].maxAttempts)
  {
    match f.pc
    case Load => case Discard => case User =>
    case Factor => FactorCheckIsQuiet(crypto, w, f);
    case Spend => case Claim => case Record => case Retire => case Consume => case Tenant => case Store => case Clear =>
  }

  lemma ProgressAttempts(crypto: Crypto, w: World, f: Flight)
    ensures var e := Progress(crypto, w, f);
            forall j :: j in e.challenges ==>
              (j in w.challenges && e.challenges[j].attemptCount == w.challenges[j].attemptCount + One(IsJudged(f, j)))
  {
    match f.pc
    case Load => case Discard => case User =>
    case Factor => FactorCheckIsQuiet(crypto, w, f);
    case Spend => case Claim => case Record => case Retire => case Consume => case Tenant => case Store => case Clear =>
  }

  function Moved(flights: Flights, r: RequestId, next: Option<Flight>): Flights {
    if next.Some? then flights[r := next.value] else flights - {r}
  }

  /** A step of request `r` changes the set of pending requests at `r` only. */
  lemma OneMoves(before: set<RequestId>, after: set<RequestId>, r: RequestId)
    requires before - {r} == after - {r}
    ensures |after| == |before| - One(r in before) + One(r in after)
  {
    var others := before - {r};
    assert before == if r in before then others + {r} else others;
    assert after == if r in after then others + {r} else others;
  }

  lemma MovePending(flights: Flights, r: RequestId, next: Option<Flight>, j: Jti)
    requires r in flights
    ensures |Pending(Moved(flights, r, next), j)| == |Pending(flights, j)| - One(IsPending(flights[r], j))
                                                     + One(next.Some? && IsPending(next.value, j))
  {
    assert Pending(flights, j) - {r} == Pending(Moved(flights, r, next), j) - {r};
    OneMoves(Pending(flights, j), Pending(Moved(flights, r, next), j), r);
  }

  lemma MoveJudged(flights: Flights, r: RequestId, next: Option<Flight>, j: Jti)
    requires r in flights
    ensures |Judged(Moved(flights, r, next), j)| == |Judged(flights, j)| - One(IsJudged(flights[r], j))
                                                   + One(next.Some? && IsJudged(next.value, j))
  {
    assert Judged(flights, j) - {r} == Judged(Moved(flights, r, next), j) - {r};
    OneMoves(Judged(flights, j), Judged(Moved(flights, r, next), j), r);
  }

  /** A request still at `load` is in neither set, so the two leave room for it. */
  lemma RoomForOneMore(flights: Flights, r: RequestId, j: Jti)
    requires r in flights && flights[r].jti == j && !IsPending(flights[r], j) && !IsJudged(flights[r], j)
    ensures |Pending(flights, j)| + |Judged(flights, j)| + 1 <= |Presenting(flights, j)|
  {
    var others := Pending(flights, j) + Judged(flights, j);
    assert Pending(flights, j) !! Judged(flights, j) && r !in others;
    SubsetSize(others + {r}, Presenting(flights, j));
  }

  lemma CountedAfterMove(crypto: Crypto, w: World, r: RequestId)
    requires r in w.flights && Tickets(w) && Counted(w)
    ensures Counted(Settle(w, r, Progress(crypto, w, w.flights[r])))
  {
    var e := Progress(crypto, w, w.flights[r]);
    ProgressCounts(crypto, w, w.flights[r]);
    ProgressAdmits(crypto, w, w.flights[r]);
    ProgressAttempts(crypto, w, w.flights[r]);
    forall j {
      MoveJudged(w.flights, r, e.next, j);
    }
  }

  /** Admitting a request: the attempts left plus the other requests for the challenge leave room for it. */
  lemma CapAfterMove(crypto: Crypto, w: World, r: RequestId, j: Jti, k: nat)
    requires r in w.flights && Tickets(w) && Counted(w) && WithinCap(w, j, k) && |Presenting(w.flights, j)| <= k
    ensures WithinCap(Settle(w, r, Progress(crypto, w, w.flights[r])), j, k)
  {
    var f := w.flights[r];
    ProgressCounts(crypto, w, f);
    ProgressAdmits(crypto, w, f);
    MovePending(w.flights, r, Progress(crypto, w, f).next, j);
    if j == f.jti && !IsPending(f, j) && !IsJudged(f, j) {
      RoomForOneMore(w.flights, r, j);
    }
  }

  /** The surrounding steps add no pending and no judged request. */
  lemma SameSets(w: World, w': World)
    requires Tickets(w) && Surroundings(w, w')
    ensures forall j :: Pending(w'.flights, j) == Pending(w.flights, j)
    ensures forall j :: Judged(w'.flights, j) == Judged(w.flights, j)
    ensures forall j :: j !in w.issued ==> Pending(w.flights, j) == {}
  {
  }

  lemma CountsKept(crypto: Crypto, w: World, s: Step)
    requires Tickets(w) && Counted(w) && Enabled(w, s)
    ensures Counted(Apply(crypto, w, s))
  {
    if s.Advance? {
      CountedAfterMove(crypto, w, s.request);
    } else {
      SurroundingSteps(crypto, w, s);
      SurroundingHistory(crypto, w, s);
      SameSets(w, Apply(crypto, w, s));
    }
  }

  lemma CapInSurroundings(w: World, w': World, j: Jti, k: nat)
    requires Tickets(w) && Counted(w) && WithinCap(w, j, k)
    requires Surroundings(w, w') && SameVerdicts(w.history, w'.history)
    ensures WithinCap(w', j, k)
  {
    SameSets(w, w');
    assert WrongGuesses(w'.history, j) == WrongGuesses(w.history, j);
    assert Pending(w'.flights, j) == Pending(w.flights, j);
  }

  lemma CapKept(crypto: Crypto, w: World, s: Step, j: Jti, k: nat)
    requires Tickets(w) && Counted(w) && WithinCap(w, j, k) && Enabled(w, s) && |Presenting(w.flights, j)| <= k
    ensures WithinCap(Apply(crypto, w, s), j, k)
  {
    if s.Advance? {
      CapAfterMove(crypto, w, s.request, j, k);
    } else {
      SurroundingSteps(crypto, w, s);
      SurroundingHistory(crypto, w, s);
      CapInSurroundings(w, Apply(crypto, w, s), j, k);
    }
  }

  // ----- the factor of a user: time steps, recovery codes, and the record itself -----

  predicate Increasing(steps: seq<int>) {
    forall i, k :: 0 <= i < k < |steps| ==> steps[i] < steps[k]
  }

  /** The row of a user, if there is one. */
  function RowOf(factors: FactorStore.Rows, user: UserId): Option<Factor> {
    if user in factors then Some(factors[user]) else None
  }

  /** The stored step is the last one claimed since the reset, and claims only grow. */
  ghost predicate StepsTracked(row: Option<Factor>, claims: seq<int>) {
    && Increasing(claims)
    && (if row.Some? && row.value.lastUsedTotpStep.Some? then
          claims != [] && claims[|claims| - 1] == row.value.lastUsedTotpStep.value
        else claims == [])
  }

  function UnusedOf(row: Option<Factor>): multiset<string> {
    if row.Some? then FactorStore.Unused(row.value.backupCodes) else multiset{}
  }

  /** TOTP is enabled exactly while an active secret and an enabled date are present. */
  ghost predicate RecordConsistent(factor: Factor) {
    && (factor.isTotpEnabled <==> factor.totpSecret.Some?)
    && (factor.isTotpEnabled <==> factor.totpEnabledAt.Some?)
    && (factor.totpSecret.Some? ==> factor.totpSecret.value != [])
  }

  ghost predicate UserOk(row: Option<Factor>, h: History, user: UserId) {
    && StepsTracked(row, Claims(h, user))
    && Installed(h, user) == UnusedOf(row) + Spent(h, user)
    && (row.Some? ==> RecordConsistent(row.value))
  }

  ghost predicate FactorsOk(factors: FactorStore.Rows, h: History) {
    forall u :: UserOk(RowOf(factors, u), h, u)
  }

  /** An event about another user, or about a challenge, changes nothing for this user. */
  lemma Elsewhere(row: Option<Factor>, h: History, e: Event, user: UserId)
    requires UserOk(row, h, user) && (IsFactorEvent(e) ==> e.user != user)
    ensures UserOk(row, Then(h, e), user)
  {
    assert Claims(Then(h, e), user) == Claims(h, user);
    assert Installed(Then(h, e), user) == Installed(h, user);
    assert Spent(Then(h, e), user) == Spent(h, user);
  }

  lemma OwnClaim(row: Factor, h: History, user: UserId, step: int)
    requires UserOk(Some(row), h, user)
    requires row.lastUsedTotpStep.None? || row.lastUsedTotpStep.value < step
    ensures UserOk(Some(row.(lastUsedTotpStep := Some(step))), Then(h, StepClaimed(user, step)), user)
  {
    var h' := Then(h, StepClaimed(user, step));
    assert Claims(h', user) == Claims(h, user) + [step];
    assert Installed(h', user) == Installed(h, user);
    assert Spent(h', user) == Spent(h, user);
  }

  lemma OwnInstall(row: Option<Factor>, h: History, user: UserId, hashes: seq<string>)
    requires StepsTracked(row, Claims(h, user)) && (row.Some? ==> RecordConsistent(row.value))
    requires UnusedOf(row) == multiset(hashes)
    ensures UserOk(row, Then(h, CodesInstalled(user, hashes)), user)
  {
    var h' := Then(h, CodesInstalled(user, hashes));
    assert Claims(h', user) == Claims(h, user);
    assert Installed(h', user) == multiset(hashes);
    assert Spent(h', user) == multiset{};
  }

  lemma ClaimStep(factors: FactorStore.Rows, h: History, user: UserId, step: int)
    requires FactorsOk(factors, h) && FactorStore.TryConsumeTotpStep(factors, user, step).1
    ensures FactorsOk(FactorStore.TryConsumeTotpStep(factors, user, step).0, Then(h, StepClaimed(user, step)))
  {
    var factors' := FactorStore.TryConsumeTotpStep(factors, user, step).0;
    forall u ensures UserOk(RowOf(factors', u), Then(h, StepClaimed(user, step)), u) {
      assert UserOk(RowOf(factors, u), h, u);
      if u != user {
        Elsewhere(RowOf(factors, u), h, StepClaimed(user, step), u);
      } else {
        OwnClaim(factors[user], h, user, step);
      }
    }
  }

  lemma SpendCode(factors: FactorStore.Rows, h: History, user: UserId, codeHash: string, now: int)
    requires FactorsOk(factors, h) && FactorStore.MarkBackupCodeUsed(factors, user, codeHash, now).1
    ensures FactorsOk(FactorStore.MarkBackupCodeUsed(factors, user, codeHash, now).0, Then(h, CodeSpent(user, codeHash)))
  {
    var factors' := FactorStore.MarkBackupCodeUsed(factors, user, codeHash, now).0;
    forall u ensures UserOk(RowOf(factors', u), Then(h, CodeSpent(user, codeHash)), u) {
      assert UserOk(RowOf(factors, u), h, u);
      if u != user {
        Elsewhere(RowOf(factors, u), h, CodeSpent(user, codeHash), u);
      } else {
        FactorStore.SpendTakesOne(factors[user].backupCodes, codeHash, now);
        OwnSpend(factors[user], factors'[user], h, user, codeHash);
      }
    }
  }

  lemma OwnSpend(row: Factor, row': Factor, h: History, user: UserId, codeHash: string)
    requires UserOk(Some(row), h, user) && row'.(backupCodes := row.backupCodes) == row
    requires var unused := FactorStore.Unused(row.backupCodes);
             codeHash in unused && FactorStore.Unused(row'.backupCodes) == unused - multiset{codeHash}
    ensures UserOk(Some(row'), Then(h, CodeSpent(user, codeHash)), user)
  {
    var h' := Then(h, CodeSpent(user, codeHash));
    MoveOne(FactorStore.Unused(row.backupCodes), Spent(h, user), codeHash);
    assert Claims(h', user) == Claims(h, user);
    assert Installed(h', user) == Installed(h, user);
    assert Spent(h', user) == Spent(h, user) + multiset{codeHash};
    assert StepsTracked(Some(row'), Claims(h', user));
    assert RecordConsistent(row');
  }

  lemma MoveOne(a: multiset<string>, b: multiset<string>, x: string)
    requires x in a
    ensures a + b == (a - multiset{x}) + (b + multiset{x})
  {
  }

  /** New rows for one user only. */
  ghost predicate OnlyUser(factors: FactorStore.Rows, factors': FactorStore.Rows, user: UserId) {
    forall u :: u != user ==> RowOf(factors', u) == RowOf(factors, u)
  }

  lemma ResetSteps(factors: FactorStore.Rows, factors': FactorStore.Rows, h: History, user: UserId, hashes: seq<string>)
    requires FactorsOk(factors, h) && OnlyUser(factors, factors', user)
    requires user in factors' ==> RecordConsistent(factors'[user]) && factors'[user].lastUsedTotpStep.None?
    requires UnusedOf(RowOf(factors', user)) == multiset(hashes)
    ensures FactorsOk(factors', Then(Then(h, StepsReset(user)), CodesInstalled(user, hashes)))
  {
    var h' := Then(h, StepsReset(user));
    forall u ensures UserOk(RowOf(factors', u), Then(h', CodesInstalled(user, hashes)), u) {
      assert UserOk(RowOf(factors, u), h, u);
      if u != user {
        Elsewhere(RowOf(factors, u), h, StepsReset(user), u);
        Elsewhere(RowOf(factors, u), h', CodesInstalled(user, hashes), u);
      } else {
        assert Claims(h', user) == [];
        OwnInstall(RowOf(factors', user), h', user, hashes);
      }
    }
  }

  lemma ReplaceCodesOnly(factors: FactorStore.Rows, h: History, user: UserId, hashes: seq<string>, now: int)
    requires FactorsOk(factors, h) && user in factors
    ensures FactorsOk(FactorStore.ReplaceBackupCodes(factors, user, FactorStore.Fresh(hashes), now),
                      Then(h, CodesInstalled(user, hashes)))
  {
    FactorStore.FreshIsUnused(hashes);
    NewCodesOnly(factors, FactorStore.ReplaceBackupCodes(factors, user, FactorStore.Fresh(hashes), now), h, user, hashes);
  }

  lemma NewCodesOnly(factors: FactorStore.Rows, factors': FactorStore.Rows, h: History, user: UserId, hashes: seq<string>)
    requires FactorsOk(factors, h) && OnlyUser(factors, factors', user) && user in factors && user in factors'
    requires factors'[user].(backupCodes := factors[user].backupCodes,
                             backupCodesGeneratedAt := factors[user].backupCodesGeneratedAt) == factors[user]
    requires FactorStore.Unused(factors'[user].backupCodes) == multiset(hashes)
    ensures FactorsOk(factors', Then(h, CodesInstalled(user, hashes)))
  {
    forall u ensures UserOk(RowOf(factors', u), Then(h, CodesInstalled(user, hashes)), u) {
      assert UserOk(RowOf(factors, u), h, u);
      if u == user {
        OwnInstall(RowOf(factors', user), h, user, hashes);
      } else {
        Elsewhere(RowOf(factors, u), h, CodesInstalled(user, hashes), u);
      }
    }
  }

  lemma ActivateKeepsFactors(w: World, user: UserId, secret: string, hashes: seq<string>)
    requires FactorsOk(w.factors, w.history) && secret != []
    ensures var w' := Manage(w, Activate(user, secret, hashes)); FactorsOk(w'.factors, w'.history)
  {
    FactorStore.FreshIsUnused(hashes);
    if user in w.factors {
      ResetSteps(w.factors, Manage(w, Activate(user, secret, hashes)).factors, w.history, user, hashes);
    }
  }

  lemma ManageKeepsFactors(w: World, s: Step)
    requires FactorsOk(w.factors, w.history) && Enabled(w, s)
    ensures FactorsOk(Manage(w, s).factors, Manage(w, s).history)
  {
    match s
    case Activate(user, secret, hashes) => ActivateKeepsFactors(w, user, secret, hashes);
    case ReplaceCodes(user, hashes) =>
      if user in w.factors {
        ReplaceCodesOnly(w.factors, w.history, user, hashes, w.now);
      }
    case ClaimElsewhere(user, step) =>
      if FactorStore.TryConsumeTotpStep(w.factors, user, step).1 {
        ClaimStep(w.factors, w.history, user, step);
      }
    case SpendElsewhere(user, codeHash) =>
      if FactorStore.MarkBackupCodeUsed(w.factors, user, codeHash, w.now).1 {
        SpendCode(w.factors, w.history, user, codeHash, w.now);
      }
    case Disable(user) => DisableKeepsFactors(w.factors, w.history, user);
    case ForgetFactor(user) => ForgetKeepsFactors(w.factors, w.history, user);
    case StartEnrollment(user, pending, expiresAt) =>
      SettingsOnly(w.factors, FactorStore.StartTotpEnrollment(w.factors, user, pending, expiresAt), w.history);
    case SetEmailCodeLogin(user, enabled) =>
      SettingsOnly(w.factors, FactorStore.SetEmailCodeLogin(w.factors, user, enabled), w.history);
    case _ =>
  }

  lemma DisableKeepsFactors(factors: FactorStore.Rows, h: History, user: UserId)
    requires FactorsOk(factors, h)
    ensures FactorsOk(FactorStore.DisableTotp(factors, user), Then(Then(h, StepsReset(user)), CodesInstalled(user, [])))
  {
    ResetSteps(factors, FactorStore.DisableTotp(factors, user), h, user, []);
  }

  lemma ForgetKeepsFactors(factors: FactorStore.Rows, h: History, user: UserId)
    requires FactorsOk(factors, h)
    ensures FactorsOk(factors - {user}, Then(Then(h, StepsReset(user)), CodesInstalled(user, [])))
  {
    ResetSteps(factors, factors - {user}, h, user, []);
  }

  /** The row differs in pending enrolment and preferences at most. */
  predicate SameFactor(row: Factor, row': Factor) {
    row'.(pendingSecret := row.pendingSecret, pendingExpiresAt := row.pendingExpiresAt,
          isEmailCodeLoginEnabled := row.isEmailCodeLoginEnabled) == row
  }

  /** Pending enrolments and preferences do not touch what is tracked here. */
  lemma SettingsOnly(factors: FactorStore.Rows, factors': FactorStore.Rows, h: History)
    requires FactorsOk(factors, h)
    requires forall u :: u in factors ==> u in factors'
    requires forall u :: u in factors' ==> SameFactor(if u in factors then factors[u] else FactorStore.EMPTY, factors'[u])
    ensures FactorsOk(factors', h)
  {
    forall u ensures UserOk(RowOf(factors', u), h, u) {
      assert UserOk(RowOf(factors, u), h, u);
      if u in factors' {
        OwnSettings(RowOf(factors, u), factors'[u], h, u);
      }
    }
  }

  lemma OwnSettings(row: Option<Factor>, row': Factor, h: History, user: UserId)
    requires UserOk(row, h, user) && SameFactor(row.GetOr(FactorStore.EMPTY), row')
    ensures UserOk(Some(row'), h, user)
  {
  }

  lemma SpendKeepsFactors(crypto: Crypto, w: World, f: Flight)
    requires FactorsOk(w.factors, w.history) && f.pc.Spend?
    ensures var e := Progress(crypto, w, f); FactorsOk(e.factors, e.history)
  {
    var e := Progress(crypto, w, f);
    if FactorStore.MarkBackupCodeUsed(w.factors, f.user, f.codeHash, w.now).1 {
      SpendCode(w.factors, w.history, f.user, f.codeHash, w.now);
      ChallengeEvent(e.factors, e.history.past, e.history);
    } else {
      ChallengeEvent(w.factors, w.history, e.history);
    }
  }

  lemma ClaimKeepsFactors(crypto: Crypto, w: World, f: Flight)
    requires FactorsOk(w.factors, w.history) && f.pc.Claim?
    ensures var e := Progress(crypto, w, f); FactorsOk(e.factors, e.history)
  {
    var e := Progress(crypto, w, f);
    if FactorStore.TryConsumeTotpStep(w.factors, f.user, f.step).1 {
      ClaimStep(w.factors, w.history, f.user, f.step);
      ChallengeEvent(e.factors, e.history.past, e.history);
    } else {
      ChallengeEvent(w.factors, w.history, e.history);
    }
  }

  lemma ProgressKeepsFactors(crypto: Crypto, w: World, f: Flight)
    requires FactorsOk(w.factors, w.history)
    ensures var e := Progress(crypto, w, f); FactorsOk(e.factors, e.history)
  {
    var e := Progress(crypto, w, f);
    match f.pc
    case Load => case Discard => case User => case Retire => case Consume => case Tenant => case Clear =>
    case Factor => FactorCheckIsQuiet(crypto, w, f); ChallengeEvent(w.factors, w.history, e.history);
    case Spend => SpendKeepsFactors(crypto, w, f);
    case Claim => ClaimKeepsFactors(crypto, w, f);
    case Record => ChallengeEvent(w.factors, w.history, e.history);
    case Store => ChallengeEvent(w.factors, w.history, e.history);
  }

  lemma ChallengeEvent(factors: FactorStore.Rows, h: History, h': History)
    requires FactorsOk(factors, h)
    requires h' == h || (h'.Then? && h'.past == h && !IsFactorEvent(h'.event))
    ensures FactorsOk(factors, h')
  {
    if h' != h {
      forall u ensures UserOk(RowOf(factors, u), h', u) {
        Elsewhere(RowOf(factors, u), h, h'.event, u);
      }
    }
  }

  lemma FactorsKept(crypto: Crypto, w: World, s: Step)
    requires FactorsOk(w.factors, w.history) && Enabled(w, s)
    ensures var w' := Apply(crypto, w, s); FactorsOk(w'.factors, w'.history)
  {
    if s.Advance? {
      ProgressKeepsFactors(crypto, w, w.flights[s.request]);
    } else {
      ManageKeepsFactors(w, s);
    }
  }

  // ----- the theorems: every state of every run -----

  ghost predicate Safe(crypto: Crypto, w: World) {
    Tickets(w) && SessionsUnique(w) && Sanctioned(crypto, w) && Counted(w) && FactorsOk(w.factors, w.history)
  }

  lemma NextIsSafe(crypto: Crypto, w: World, w': World)
    requires Safe(crypto, w) && Next(crypto, w, w')
    ensures Safe(crypto, w')
  {
    var s :| Enabled(w, s) && w' == Apply(crypto, w, s);
    TicketsKept(crypto, w, s);
    SessionsStayUnique(crypto, w, s);
    StaysSanctioned(crypto, w, s);
    CountsKept(crypto, w, s);
    FactorsKept(crypto, w, s);
  }

  lemma {:induction false} RunIsSafe(crypto: Crypto, run: seq<World>, i: nat)
    requires IsRun(crypto, run) && i < |run|
    ensures Safe(crypto, run[i])
  {
    if i > 0 {
      RunIsSafe(crypto, run, i - 1);
      assert IsStep(crypto, run, i);
      NextIsSafe(crypto, run[i - 1], run[i]);
    }
  }

  lemma NextKeepsCap(crypto: Crypto, w: World, w': World, jti: Jti, k: nat)
    requires Safe(crypto, w) && Next(crypto, w, w') && WithinCap(w, jti, k) && |Presenting(w.flights, jti)| <= k
    ensures WithinCap(w', jti, k)
  {
    var s :| Enabled(w, s) && w' == Apply(crypto, w, s);
    CapKept(crypto, w, s, jti, k);
  }

  /**
   * With at most `k` requests for a challenge in flight at a time, the wrong guesses judged against it, plus the
   * requests past `load` whose guess is still open, stay within its attempts plus `k - 1`.
   */
  lemma {:induction false} AttemptCap(crypto: Crypto, run: seq<World>, jti: Jti, k: nat, i: nat)
    requires IsRun(crypto, run) && i < |run|
    requires forall n :: 0 <= n < |run| ==> |Presenting(run[n].flights, jti)| <= k
    ensures WithinCap(run[i], jti, k)
  {
    if i > 0 {
      RunIsSafe(crypto, run, i - 1);
      AttemptCap(crypto, run, jti, k, i - 1);
      assert IsStep(crypto, run, i);
      NextKeepsCap(crypto, run[i - 1], run[i], jti, k);
    }
  }

  /** Clients that wait for each answer about a challenge get at most `maxAttempts` wrong guesses. */
  lemma SerialClientsStayWithinMaxAttempts(crypto: Crypto, run: seq<World>, i: nat, jti: Jti)
    requires IsRun(crypto, run) && i < |run| && jti in run[i].issued
    requires forall n :: 0 <= n < |run| ==> |Presenting(run[n].flights, jti)| <= 1
    ensures WrongGuesses(run[i].history, jti) <= run[i].issued[jti].maxAttempts
  {
    AttemptCap(crypto, run, jti, 1, i);
  }

  lemma {:induction false} SessionsFollowAcceptance(h: History, jti: Jti)
    requires Authorized(h)
    ensures forall s <- Sessions(h, jti) :: AcceptedFor(h, jti, s.userId)
  {
    if h.Then? {
      SessionsFollowAcceptance(h.past, jti);
    }
  }

  lemma OneSessionIn(w: World, jti: Jti)
    requires SessionsUnique(w) && Authorized(w.history)
    ensures var sessions := Sessions(w.history, jti);
            && |sessions| <= 1
            && (forall s <- sessions :: jti in w.issued && SessionMatches(w.issued[jti], s) && AcceptedFor(w.history, jti, s.userId))
  {
    SessionsFollowAcceptance(w.history, jti);
    assert |Sessions(w.history, jti)| <= 1;
  }

  /**
   * A challenge yields at most one session. The session is its owner's, follows a factor accepted
   * for that owner and that challenge, and is a platform session exactly for the platform scope.
   */
  lemma OneSessionPerChallenge(crypto: Crypto, run: seq<World>, i: nat, jti: Jti)
    requires IsRun(crypto, run) && i < |run|
    ensures var sessions := Sessions(run[i].history, jti);
            && |sessions| <= 1
            && (forall s <- sessions :: jti in run[i].issued && SessionMatches(run[i].issued[jti], s)
                                        && AcceptedFor(run[i].history, jti, s.userId))
    ensures Backed(crypto, run[i].issued, run[i].history)
  {
    RunIsSafe(crypto, run, i);
    OneSessionIn(run[i], jti);
  }

  /** A decoy challenge, issued for an unknown address, never yields a session. */
  lemma DecoysYieldNothing(crypto: Crypto, run: seq<World>, i: nat, jti: Jti)
    requires IsRun(crypto, run) && i < |run| && jti in run[i].issued && run[i].issued[jti].owner.None?
    ensures Sessions(run[i].history, jti) == []
  {
    RunIsSafe(crypto, run, i);
  }

  /** Between two resets the claimed time steps strictly increase, so no code is redeemed twice. */
  lemma StepsNeverReplayed(crypto: Crypto, run: seq<World>, i: nat, user: UserId)
    requires IsRun(crypto, run) && i < |run|
    ensures Increasing(Claims(run[i].history, user))
  {
    RunIsSafe(crypto, run, i);
    assert UserOk(RowOf(run[i].factors, user), run[i].history, user);
  }

  /**
   * From one generation of recovery codes to the next, the spent codes and the number reported as
   * remaining add up to the codes installed, and no entry is spent twice.
   */
  lemma BackupCodesConserved(crypto: Crypto, run: seq<World>, i: nat, user: UserId)
    requires IsRun(crypto, run) && i < |run|
    ensures var h := run[i].history;
            && Spent(h, user) <= Installed(h, user)
            && (user in run[i].factors ==>
                  |Spent(h, user)| + FactorStore.Remaining(run[i].factors[user].backupCodes) == |Installed(h, user)|)
  {
    RunIsSafe(crypto, run, i);
    assert UserOk(RowOf(run[i].factors, user), run[i].history, user);
    if user in run[i].factors {
      FactorStore.RemainingIsUnused(run[i].factors[user].backupCodes);
    }
  }

  /** At every database step, TOTP is enabled exactly while secret and date are present. */
  lemma FactorRecordsConsistent(crypto: Crypto, run: seq<World>, i: nat, user: UserId)
    requires IsRun(crypto, run) && i < |run| && user in run[i].factors
    ensures RecordConsistent(run[i].factors[user])
  {
    RunIsSafe(crypto, run, i);
    assert UserOk(RowOf(run[i].factors, user), run[i].history, user);
  }
}
