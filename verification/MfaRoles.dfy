/** Which role a session issued after a challenge carries: that of the user row, as one particular step read it. */
module MfaRoles {
  import opened Common
  import opened AuthModel
  import opened JsText
  import opened MfaProtocol
  import opened MfaSafety
  import AuthOutcomes
  import OpaqueTokens

  /** The role a session gets from a user row. */
  function RoleOf(account: Account): Option<Role> {
    if account.isPlatformAdmin then None else account.role
  }

  /** The request has read the user row. */
  predicate PastUser(f: Flight) {
    HoldsTicket(f) && !f.pc.User?
  }

  /** Request `r` reads the row of this user for this challenge in its next step. */
  ghost predicate ReadsUser(run: seq<World>, n: nat, r: RequestId, jti: Jti, user: UserId) {
    && n < |run| && r in run[n].flights && user in run[n].accounts
    && var f := run[n].flights[r]; f.pc.User? && f.jti == jti && f.user == user
  }

  lemma ProgressKeepsAccount(crypto: Crypto, w: World, f: Flight)
    ensures var next := Progress(crypto, w, f).next;
            next.Some? && PastUser(next.value) ==>
              && next.value.jti == f.jti && next.value.user == f.user
              && (if f.pc.User? then f.user in w.accounts && next.value.account == w.accounts[f.user] && next.value.account.isActive
                  else PastUser(f) && next.value.account == f.account)
  {
    match f.pc
    case Load => case Discard => case User =>
    case Factor => FactorCheckIsQuiet(crypto, w, f);
    case Spend => case Claim => case Record => case Retire => case Consume => case Tenant => case Store => case Clear =>
  }

  /** A flight that a step did not advance is still what it was, unless it has just arrived. */
  lemma OthersWait(crypto: Crypto, w: World, s: Step, r: RequestId)
    requires Tickets(w) && Enabled(w, s) && r in Apply(crypto, w, s).flights
    requires PastUser(Apply(crypto, w, s).flights[r])
    ensures if s == Advance(r) then r in w.flights && Progress(crypto, w, w.flights[r]).next == Some(Apply(crypto, w, s).flights[r])
            else r in w.flights && Apply(crypto, w, s).flights[r] == w.flights[r]
  {
    if !s.Advance? {
      SurroundingSteps(crypto, w, s);
    }
  }

  /** Where a request past the user step has its row from. */
  ghost predicate RowHandedOn(w: World, w': World, r: RequestId) {
    && r in w.flights && r in w'.flights
    && var f, f' := w.flights[r], w'.flights[r];
       && f'.jti == f.jti && f'.user == f.user
       && (if f.pc.User? then f.user in w.accounts && f'.account == w.accounts[f.user] && f'.account.isActive
           else PastUser(f) && f'.account == f.account)
  }

  lemma StepHandsRowOn(crypto: Crypto, w: World, s: Step, r: RequestId)
    requires Tickets(w) && Enabled(w, s) && r in Apply(crypto, w, s).flights
    requires PastUser(Apply(crypto, w, s).flights[r])
    ensures RowHandedOn(w, Apply(crypto, w, s), r)
  {
    OthersWait(crypto, w, s, r);
    if s == Advance(r) {
      ProgressKeepsAccount(crypto, w, w.flights[r]);
    }
  }

  lemma NextHandsRowOn(crypto: Crypto, w: World, w': World, r: RequestId)
    requires Tickets(w) && Next(crypto, w, w') && r in w'.flights && PastUser(w'.flights[r])
    ensures RowHandedOn(w, w', r)
  {
    var s :| Enabled(w, s) && w' == Apply(crypto, w, s);
    StepHandsRowOn(crypto, w, s, r);
  }

  /** A request past the user step carries the row as some earlier step of the run read it. */
  lemma {:induction false} AccountWasRead(crypto: Crypto, run: seq<World>, i: nat, r: RequestId) returns (n: nat)
    requires IsRun(crypto, run) && i < |run| && r in run[i].flights && PastUser(run[i].flights[r])
    ensures n < i && var f := run[i].flights[r];
            ReadsUser(run, n, r, f.jti, f.user) && run[n].accounts[f.user] == f.account && f.account.isActive
  {
    assert i > 0;
    RunIsSafe(crypto, run, i - 1);
    assert IsStep(crypto, run, i);
    NextHandsRowOn(crypto, run[i - 1], run[i], r);
    if run[i - 1].flights[r].pc.User? {
      n := i - 1;
    } else {
      n := AccountWasRead(crypto, run, i - 1, r);
    }
  }

  /** Each session was issued by a request at its store step. */
  lemma {:induction false} SessionWasStored(crypto: Crypto, run: seq<World>, i: nat, jti: Jti, session: Session)
    returns (n: nat, r: RequestId)
    requires IsRun(crypto, run) && i < |run| && session in Sessions(run[i].history, jti)
    ensures n < i && r in run[n].flights && run[n].flights[r].pc.Store? && run[n].flights[r].jti == jti
    ensures session == SessionFor(run[n].flights[r].user, run[n].flights[r].account)
  {
    assert i > 0;
    RunIsSafe(crypto, run, i - 1);
    assert IsStep(crypto, run, i);
    if session in Sessions(run[i - 1].history, jti) {
      n, r := SessionWasStored(crypto, run, i - 1, jti, session);
    } else {
      r := NextSessionIsStored(crypto, run[i - 1], run[i], jti, session);
      n := i - 1;
    }
  }

  lemma NextSessionIsStored(crypto: Crypto, w: World, w': World, jti: Jti, session: Session) returns (r: RequestId)
    requires Tickets(w) && Next(crypto, w, w')
    requires session !in Sessions(w.history, jti) && session in Sessions(w'.history, jti)
    ensures r in w.flights && w.flights[r].pc.Store? && w.flights[r].jti == jti
    ensures session == SessionFor(w.flights[r].user, w.flights[r].account)
  {
    var s :| Enabled(w, s) && w' == Apply(crypto, w, s);
    SessionIsNew(crypto, w, s, jti, session);
    r := s.request;
  }

  lemma SessionIsNew(crypto: Crypto, w: World, s: Step, jti: Jti, session: Session)
    requires Tickets(w) && Enabled(w, s)
    requires session !in Sessions(w.history, jti) && session in Sessions(Apply(crypto, w, s).history, jti)
    ensures s.Advance? && w.flights[s.request].pc.Store? && w.flights[s.request].jti == jti
    ensures session == SessionFor(w.flights[s.request].user, w.flights[s.request].account)
  {
    if s.Advance? {
      ProgressSessions(crypto, w, w.flights[s.request]);
    } else {
      SurroundingHistory(crypto, w, s);
    }
  }

  /**
   * In every interleaving the role and the platform flag of a session are those of its owner's row as the request's
   * user step read it; so the session has the role stored in its challenge exactly if that row had it then.
   */
  lemma RoleIsThatOfTheRowRead(crypto: Crypto, run: seq<World>, i: nat, jti: Jti, session: Session)
    returns (n: nat, r: RequestId)
    requires IsRun(crypto, run) && i < |run| && session in Sessions(run[i].history, jti)
    ensures n < i && ReadsUser(run, n, r, jti, session.userId)
    ensures session == SessionFor(session.userId, run[n].accounts[session.userId])
    ensures jti in run[i].issued && run[i].issued[jti].owner == Some(session.userId)
    ensures session.tenantRole == run[i].issued[jti].tenantRole
            <==> RoleOf(run[n].accounts[session.userId]) == run[i].issued[jti].tenantRole
  {
    var m;
    m, r := SessionWasStored(crypto, run, i, jti, session);
    n := AccountWasRead(crypto, run, m, r);
    OneSessionPerChallenge(crypto, run, i, jti);
  }

  /** The request is at its tenant step, with a row that the step lets pass. */
  ghost predicate PassesTenant(w: World, r: RequestId, jti: Jti, user: UserId, account: Account) {
    && r in w.flights
    && var f := w.flights[r];
       f.pc == Pc.Tenant && f.jti == jti && f.user == user && f.account == account
       && (account.isPlatformAdmin || (account.tenantId in w.activeTenants && !account.emailPending))
  }

  lemma StoreFollowsTenant(crypto: Crypto, w: World, w': World, r: RequestId)
    requires Tickets(w) && Next(crypto, w, w') && r in w'.flights && w'.flights[r].pc.Store?
    ensures r in w.flights
    ensures var f := w'.flights[r];
            w.flights[r] == f || PassesTenant(w, r, f.jti, f.user, f.account)
  {
    var s :| Enabled(w, s) && w' == Apply(crypto, w, s);
    OthersWait(crypto, w, s, r);
    if s == Advance(r) {
      StoreComesFrom(crypto, w, w.flights[r]);
    }
  }

  lemma StoreComesFrom(crypto: Crypto, w: World, f: Flight)
    ensures var next := Progress(crypto, w, f).next;
            next.Some? && next.value.pc.Store? ==>
              && f.pc == Pc.Tenant && next.value == f.(pc := Store)
              && (f.account.isPlatformAdmin || (f.account.tenantId in w.activeTenants && !f.account.emailPending))
  {
    match f.pc
    case Load => case Discard => case User =>
    case Factor => FactorCheckIsQuiet(crypto, w, f);
    case Spend => case Claim => case Record => case Retire => case Consume => case Tenant => case Store => case Clear =>
  }

  lemma {:induction false} TenantWasChecked(crypto: Crypto, run: seq<World>, i: nat, r: RequestId) returns (n: nat)
    requires IsRun(crypto, run) && i < |run| && r in run[i].flights && run[i].flights[r].pc.Store?
    ensures n < i && var f := run[i].flights[r]; PassesTenant(run[n], r, f.jti, f.user, f.account)
  {
    assert i > 0;
    RunIsSafe(crypto, run, i - 1);
    assert IsStep(crypto, run, i);
    StoreFollowsTenant(crypto, run[i - 1], run[i], r);
    if run[i - 1].flights[r] == run[i].flights[r] {
      n := TenantWasChecked(crypto, run, i - 1, r);
    } else {
      n := i - 1;
    }
  }

  /**
   * In every interleaving a session goes to a user who was active and in the challenge's scope when the request read the
   * row, and whose tenant, for anyone but an operator, was active when it looked.
   */
  lemma SessionNeedsGoodStanding(crypto: Crypto, run: seq<World>, i: nat, jti: Jti, session: Session)
    returns (n: nat, m: nat, r: RequestId)
    requires IsRun(crypto, run) && i < |run| && session in Sessions(run[i].history, jti)
    ensures n < i && m < i && ReadsUser(run, n, r, jti, session.userId) && jti in run[i].issued
    ensures var account := run[n].accounts[session.userId];
            && account.isActive && AuthOutcomes.InScope(run[i].issued[jti].scope, account)
            && PassesTenant(run[m], r, jti, session.userId, account)
  {
    var k;
    k, r := SessionWasStored(crypto, run, i, jti, session);
    n := AccountWasRead(crypto, run, k, r);
    m := TenantWasChecked(crypto, run, k, r);
    RunIsSafe(crypto, run, k);
    IssuedStays(crypto, run, k, i, jti);
    AuthOutcomes.ScopeIsSpelled(run[k].flights[r].ticket.scope, run[k].flights[r].account);
  }

  // ----- challenges that were issued with the user's role of the moment -----

  /** Step `m` issues the challenge, with the role its owner has at that moment, as `login` demands. */
  ghost predicate IssuedWithRole(run: seq<World>, m: nat, jti: Jti) {
    && m + 1 < |run| && jti !in run[m].issued && jti in run[m + 1].issued
    && var ticket := run[m + 1].issued[jti];
       && ticket.owner.Some? && ticket.owner.value in run[m].accounts
       && ticket.tenantRole == RoleOf(run[m].accounts[ticket.owner.value])
  }

  lemma StepKeepsIssued(crypto: Crypto, w: World, w': World, jti: Jti)
    requires Next(crypto, w, w') && jti in w.issued
    ensures jti in w'.issued && w'.issued[jti] == w.issued[jti]
  {
    var s :| Enabled(w, s) && w' == Apply(crypto, w, s);
    if !s.Advance? && !s.Issue? {
      ManageTouchesFactorsOnly(w, s);
    }
  }

  /** What a challenge was issued for is never forgotten or changed. */
  lemma {:induction false} IssuedStays(crypto: Crypto, run: seq<World>, m: nat, i: nat, jti: Jti)
    requires IsRun(crypto, run) && m <= i < |run| && jti in run[m].issued
    ensures jti in run[i].issued && run[i].issued[jti] == run[m].issued[jti]
  {
    if m < i {
      IssuedStays(crypto, run, m, i - 1, jti);
      assert IsStep(crypto, run, i);
      StepKeepsIssued(crypto, run[i - 1], run[i], jti);
    }
  }

  /** Before a challenge is issued nobody is past `load` for it. */
  lemma UnissuedIsUnread(crypto: Crypto, run: seq<World>, n: nat, r: RequestId, jti: Jti, user: UserId)
    requires IsRun(crypto, run) && ReadsUser(run, n, r, jti, user)
    ensures jti in run[n].issued
  {
    RunIsSafe(crypto, run, n);
    assert FlightOk(run[n].issued, run[n].flights[r]);
  }

  /**
   * A session keeps the role its challenge was issued with exactly if its owner's role at the user step, which comes
   * after the issue, is the one of the issue.
   */
  lemma RoleIsKeptIffUnchanged(crypto: Crypto, run: seq<World>, m: nat, i: nat, jti: Jti, session: Session)
    returns (n: nat, r: RequestId)
    requires IsRun(crypto, run) && i < |run| && session in Sessions(run[i].history, jti) && IssuedWithRole(run, m, jti)
    ensures m < n < i && ReadsUser(run, n, r, jti, session.userId) && session.userId in run[m].accounts
    ensures jti in run[i].issued
    ensures session.tenantRole == run[i].issued[jti].tenantRole
            <==> RoleOf(run[n].accounts[session.userId]) == RoleOf(run[m].accounts[session.userId])
  {
    n, r := RoleIsThatOfTheRowRead(crypto, run, i, jti, session);
    UnissuedIsUnread(crypto, run, n, r, jti, session.userId);
    if n <= m {
      IssuedStays(crypto, run, n, m, jti);
      assert false;
    }
    IssuedStays(crypto, run, m + 1, i, jti);
  }

  // ----- a run in which the role changes -----

  ghost predicate Ends(crypto: Crypto, run: seq<World>, w: World) {
    IsRun(crypto, run) && run[|run| - 1] == w
  }

  lemma Extend(crypto: Crypto, run: seq<World>, w: World, s: Step) returns (longer: seq<World>)
    requires Ends(crypto, run, w) && Enabled(w, s)
    ensures Ends(crypto, longer, Apply(crypto, w, s)) && run < longer
  {
    longer := run + [Apply(crypto, w, s)];
    assert Next(crypto, w, Apply(crypto, w, s));
    forall i | 0 < i < |longer| ensures IsStep(crypto, longer, i) {
      if i < |run| {
        assert IsStep(crypto, run, i);
      }
    }
  }

  /** The only request, from one flight to the next. */
  lemma Move(crypto: Crypto, run: seq<World>, w: World, f: Flight, e: Effect) returns (longer: seq<World>)
    requires Ends(crypto, run, w) && w.flights == map[0 := f] && Progress(crypto, w, f) == e && e.next.Some?
    ensures Ends(crypto, longer, Settle(w, 0, e)) && Settle(w, 0, e).flights == map[0 := e.next.value]
  {
    longer := Extend(crypto, run, w, Advance(0));
  }

  /** A tenant user, an emailed-code challenge of theirs, and the token and code that go with it. */
  ghost predicate Opening(crypto: Crypto, account: Account, token: OpaqueTokens.Token, ticket: Challenge, code: string) {
    && OpaqueTokens.WellFormed(token) && crypto.matches(token.secret, ticket.secretHash)
    && ticket.owner.Some? && ticket.owner.value != "" && ticket.purpose.EmailCode? && ticket.scope == Scope.Tenant
    && EmailCodeMatches(crypto, code, ticket.codeHash)
    && ticket.maxAttempts > 0 && ticket.attemptCount == 0 && ticket.consumedAt.None?
    && ScopeMatches(ticket.scope, account) && account.isActive && !account.emailPending
  }

  /** The challenge is issued, the user's role is changed, the code arrives, and `load` lets it through. */
  lemma RoleChangesInBetween(crypto: Crypto, account: Account, token: OpaqueTokens.Token, ticket: Challenge, code: string, role: Role)
    returns (run: seq<World>, w: World)
    requires Opening(crypto, account, token, ticket, code)
    ensures Ends(crypto, run, w)
    ensures var user := ticket.owner.value;
            var f := Flight(User, token.jti, token.secret, code, ticket, user, NO_ACCOUNT, "", 0, NO_READING);
            w == World(ticket.expiresAt - 1, map[user := account.(role := Some(role))], {account.tenantId},
                       map[token.jti := ticket], map[], map[0 := f], map[token.jti := ticket], Begin)
  {
    var user, later := ticket.owner.value, account.(role := Some(role));
    OpaqueTokens.RoundTrip(token);
    w := World(ticket.expiresAt - 1, map[user := account], {account.tenantId}, map[], map[], map[], map[], Begin);
    run := [w];
    run := Extend(crypto, run, w, Issue(token.jti, ticket));
    w := w.(challenges := map[token.jti := ticket], issued := map[token.jti := ticket]);
    run := Extend(crypto, run, w, SetAccount(user, later));
    w := w.(accounts := map[user := later]);
    run := Extend(crypto, run, w, Submit(0, OpaqueTokens.Format(token), code));
    w := w.(flights := map[0 := Arrive(token, code)]);
    var f := Arrive(token, code).(pc := User, ticket := ticket, user := user);
    run := Move(crypto, run, w, Arrive(token, code), w.Quiet(Some(f)));
    w := w.(flights := map[0 := f]);
  }

  /** So a challenge issued for one role can end in a session with another, whatever the library and the code. */
  lemma RoleOfChallengeIsNotBinding(crypto: Crypto, account: Account, token: OpaqueTokens.Token, ticket: Challenge, code: string, role: Role)
    returns (run: seq<World>)
    requires Opening(crypto, account, token, ticket, code)
    requires account.role == ticket.tenantRole && ticket.tenantRole != Some(role)
    ensures IsRun(crypto, run)
    ensures var w := run[|run| - 1];
            && token.jti in w.issued && w.issued[token.jti] == ticket
            && Sessions(w.history, token.jti) == [Session(ticket.owner.value, false, Some(role))]
  {
    var w;
    run, w := RoleChangesInBetween(crypto, account, token, ticket, code, role);
    var user, later := ticket.owner.value, account.(role := Some(role));
    var f := Flight(User, token.jti, token.secret, code, ticket, user, NO_ACCOUNT, "", 0, NO_READING);
    var g := f.(pc := Pc.Factor, account := later);
    run := Move(crypto, run, w, f, w.Quiet(Some(g)));
    w := w.(flights := map[0 := g]);
    var h := Then(Begin, FactorAccepted(token.jti, user, ByEmailCode(code)));
    run := Move(crypto, run, w, g, w.Quiet(Some(g.(pc := Consume))).(history := h));
    w := w.(flights := map[0 := g.(pc := Consume)], history := h);
    var consumed := map[token.jti := ticket.(consumedAt := Some(w.now))];
    run := Move(crypto, run, w, g.(pc := Consume), w.Quiet(Some(g.(pc := Pc.Tenant))).(challenges := consumed));
    w := w.(flights := map[0 := g.(pc := Pc.Tenant)], challenges := consumed);
    run := Move(crypto, run, w, g.(pc := Pc.Tenant), w.Quiet(Some(g.(pc := Store))));
    w := w.(flights := map[0 := g.(pc := Store)]);
    h := Then(h, SessionIssued(token.jti, Session(user, false, Some(role))));
    run := Move(crypto, run, w, g.(pc := Store), w.Quiet(Some(g.(pc := Clear))).(history := h));
    assert Sessions(h.past, token.jti) == [];
  }
}
