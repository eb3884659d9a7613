/** Refresh requests in flight, interleaved at every database step with each other and with everything else. */
module RefreshRace {
  import opened Common
  import opened AuthModel
  import opened AuthRequests
  import AuthSerial
  import OpaqueTokens
  import TokenStore

  type RequestId = nat

  /** The next database step of a `refresh` request. */
  datatype Pc = Find | DropExpired | ReadUser | DropOrphan | Delete | CheckTenant | Create

  datatype Flight = Flight(pc: Pc, jti: Jti, secret: string, row: RefreshToken, account: Account)

  /** Locals before they are assigned. */
  const NO_ROW := RefreshToken("", "", "", 0)
  const NO_ACCOUNT := Account("", false, false, "", None, false)

  /** `jtis` and `families` hold every identifier drawn so far. */
  datatype World = World(
    now: int,
    accounts: map<UserId, Account>,
    activeTenants: set<string>,
    tokens: TokenStore.Rows,
    flights: map<RequestId, Flight>,
    jtis: set<Jti>,
    families: set<string>)

  datatype Effect = Effect(tokens: TokenStore.Rows, next: Option<Flight>)

  function AfterFind(crypto: Crypto, w: World, f: Flight): Option<Flight> {
    if f.jti !in w.tokens then None
    else if w.tokens[f.jti].expiresAt <= w.now then Some(f.(pc := DropExpired))
    else if !crypto.matches(f.secret, w.tokens[f.jti].secretHash) then None
    else Some(f.(pc := ReadUser, row := w.tokens[f.jti]))
  }

  /** One database step; `draw` holds the new identifiers that the last step uses. */
  function Progress(crypto: Crypto, w: World, f: Flight, draw: Draw): Effect {
    match f.pc
    case Find => Effect(w.tokens, AfterFind(crypto, w, f))
    case DropExpired => Effect(w.tokens - {f.jti}, None)
    case ReadUser =>
      Effect(w.tokens, Some(if f.row.userId in w.accounts then f.(pc := Delete, account := w.accounts[f.row.userId])
                            else f.(pc := DropOrphan)))
    case DropOrphan => Effect(w.tokens - {f.jti}, None)
    case Delete => Effect(w.tokens - {f.jti}, Some(f.(pc := CheckTenant)))
    case CheckTenant =>
      Effect(w.tokens, if AuthSerial.MayMint(w.activeTenants, f.account) then Some(f.(pc := Create)) else None)
    case Create =>
      Effect(w.tokens[draw.jti := RefreshToken(f.row.userId, draw.secretHash, f.row.familyId, draw.expiresAt)], None)
  }

  datatype Step =
    | Advance(request: RequestId, draw: Draw)
    | Submit(request: RequestId, token: OpaqueTokens.Token)
    | SignIn(jti: Jti, row: RefreshToken)
    | Remove(jti: Jti)
    | RemoveUser(user: UserId)
    | Tick(now: int)
    | SetUsers(accounts: map<UserId, Account>, activeTenants: set<string>)

  /** Identifiers are new when they are drawn; a sign-in opens a family of its own. */
  predicate Enabled(w: World, s: Step) {
    match s
    case Advance(r, draw) => r in w.flights && (w.flights[r].pc.Create? ==> draw.jti !in w.jtis)
    case Submit(r, _) => r !in w.flights
    case SignIn(jti, row) => jti !in w.jtis && row.familyId !in w.families
    case Tick(now) => w.now <= now
    case _ => true
  }

  function Arrive(token: OpaqueTokens.Token): Flight {
    Flight(Find, token.jti, token.secret, NO_ROW, NO_ACCOUNT)
  }

  function Apply(crypto: Crypto, w: World, s: Step): World
    requires Enabled(w, s)
  {
    match s
    case Advance(r, draw) =>
      var e := Progress(crypto, w, w.flights[r], draw);
      w.(tokens := e.tokens,
         flights := if e.next.Some? then w.flights[r := e.next.value] else w.flights - {r},
         jtis := if w.flights[r].pc.Create? then w.jtis + {draw.jti} else w.jtis)
    case Submit(r, token) => w.(flights := w.flights[r := Arrive(token)])
    case SignIn(jti, row) =>
      w.(tokens := w.tokens[jti := row], jtis := w.jtis + {jti}, families := w.families + {row.familyId})
    case Remove(jti) => w.(tokens := w.tokens - {jti})
    case RemoveUser(user) => w.(tokens := TokenStore.DeleteByUserId(w.tokens, user))
    case Tick(now) => w.(now := now)
    case SetUsers(accounts, activeTenants) => w.(accounts := accounts, activeTenants := activeTenants)
  }

  predicate Initial(w: World) {
    w.tokens == map[] && w.flights == map[]
  }

  ghost predicate IsStep(crypto: Crypto, worlds: seq<World>, steps: seq<Step>, i: nat)
    requires i < |steps| && |worlds| == |steps| + 1
  {
    Enabled(worlds[i], steps[i]) && worlds[i + 1] == Apply(crypto, worlds[i], steps[i])
  }

  ghost predicate IsRun(crypto: Crypto, worlds: seq<World>, steps: seq<Step>) {
    && |worlds| == |steps| + 1 && Initial(worlds[0])
    && forall i :: 0 <= i < |steps| ==> IsStep(crypto, worlds, steps, i)
  }

  // ----- the claims on a family -----

  /** The request has read its token and passed the checks on it; it has not deleted it yet. */
  predicate Holds(f: Flight) {
    f.pc.ReadUser? || f.pc.Delete?
  }

  /** The request is on its way to mint a token. */
  predicate Rotates(f: Flight) {
    Holds(f) || f.pc.CheckTenant? || f.pc.Create?
  }

  ghost predicate IsHeld(flights: map<RequestId, Flight>, jti: Jti) {
    exists r :: r in flights && Holds(flights[r]) && flights[r].jti == jti
  }

  datatype Claim = Live(jti: Jti) | Rotation(request: RequestId)

  /** What may still be used in a family: its live tokens that no request is about to replace, and those requests. */
  ghost predicate IsClaim(w: World, family: string, c: Claim) {
    match c
    case Live(jti) => jti in w.tokens && w.tokens[jti].familyId == family && !IsHeld(w.flights, jti)
    case Rotation(r) => r in w.flights && Rotates(w.flights[r]) && w.flights[r].row.familyId == family
  }

  ghost predicate AtMostOne(w: World, family: string) {
    forall a, b :: IsClaim(w, family, a) && IsClaim(w, family, b) ==> a == b
  }

  /** The step reads a token of the family that another request in flight has read and not yet deleted. */
  ghost predicate SecondRead(crypto: Crypto, w: World, s: Step, family: string) {
    && s.Advance? && s.request in w.flights && w.flights[s.request].pc.Find?
    && var f := w.flights[s.request];
       var next := AfterFind(crypto, w, f);
       next.Some? && next.value.pc.ReadUser? && next.value.row.familyId == family && IsHeld(w.flights, f.jti)
  }

  // ----- rows never change, identifiers are never drawn twice -----

  ghost predicate FlightSound(w: World, f: Flight) {
    Rotates(f) ==>
      && f.jti in w.jtis && f.row.familyId in w.families
      && (Holds(f) && f.jti in w.tokens ==> w.tokens[f.jti] == f.row)
      && (!Holds(f) ==> f.jti !in w.tokens)
  }

  ghost predicate Sound(w: World) {
    && (forall j <- w.tokens :: j in w.jtis && w.tokens[j].familyId in w.families)
    && (forall r <- w.flights :: FlightSound(w, w.flights[r]))
  }

  lemma StepKeepsSound(crypto: Crypto, w: World, s: Step)
    requires Sound(w) && Enabled(w, s)
    ensures Sound(Apply(crypto, w, s))
  {
    var w' := Apply(crypto, w, s);
    forall r <- w'.flights ensures FlightSound(w', w'.flights[r]) {
      if r in w.flights {
        assert FlightSound(w, w.flights[r]);
      }
    }
  }

  lemma {:induction false} RunKeepsSound(crypto: Crypto, worlds: seq<World>, steps: seq<Step>, i: nat)
    requires IsRun(crypto, worlds, steps) && i <= |steps|
    ensures Sound(worlds[i])
  {
    if i > 0 {
      RunKeepsSound(crypto, worlds, steps, i - 1);
      assert IsStep(crypto, worlds, steps, i - 1);
      StepKeepsSound(crypto, worlds[i - 1], steps[i - 1]);
    }
  }

  // ----- one step -----

  /** The claim before a step that a claim after it goes back to: a token is read, given back, or replaced. */
  function OriginOf(w: World, s: Step, c: Claim): Claim {
    if !s.Advance? || s.request !in w.flights then c
    else
      var f := w.flights[s.request];
      if f.pc.Find? && c == Rotation(s.request) then Live(f.jti)
      else if f.pc.ReadUser? && c == Live(f.jti) then Rotation(s.request)
      else if f.pc.Create? && c == Live(s.draw.jti) then Rotation(s.request)
      else c
  }

  /** A token stays held while its holder waits. */
  lemma HeldStays(crypto: Crypto, w: World, s: Step, jti: Jti)
    requires Enabled(w, s)
    ensures IsHeld(w.flights, jti) && (s.Advance? ==> !Holds(w.flights[s.request]) || w.flights[s.request].jti != jti) ==>
              IsHeld(Apply(crypto, w, s).flights, jti)
  {
    if IsHeld(w.flights, jti) && (s.Advance? ==> !Holds(w.flights[s.request]) || w.flights[s.request].jti != jti) {
      var q :| q in w.flights && Holds(w.flights[q]) && w.flights[q].jti == jti;
      assert Apply(crypto, w, s).flights[q] == w.flights[q];
    }
  }

  lemma AdvanceHasOrigin(crypto: Crypto, w: World, s: Step, family: string, c: Claim)
    requires Sound(w) && Enabled(w, s) && s.Advance? && !SecondRead(crypto, w, s, family)
    requires IsClaim(Apply(crypto, w, s), family, c)
    ensures IsClaim(w, family, OriginOf(w, s, c))
  {
    assert FlightSound(w, w.flights[s.request]);
    if c.Live? {
      HeldStays(crypto, w, s, c.jti);
    }
  }

  /** Apart from a second read and from a sign-in, no step makes a claim out of nothing. */
  lemma ClaimHasOrigin(crypto: Crypto, w: World, s: Step, family: string, c: Claim)
    requires Sound(w) && Enabled(w, s) && !SecondRead(crypto, w, s, family)
    requires IsClaim(Apply(crypto, w, s), family, c)
    ensures IsClaim(w, family, OriginOf(w, s, c)) || (s.SignIn? && s.row.familyId == family && c == Live(s.jti))
  {
    if s.Advance? {
      AdvanceHasOrigin(crypto, w, s, family, c);
    } else if c.Live? {
      HeldStays(crypto, w, s, c.jti);
    }
  }

  lemma OriginsDiffer(crypto: Crypto, w: World, s: Step, family: string, a: Claim, b: Claim)
    requires Sound(w) && Enabled(w, s) && OriginOf(w, s, a) == OriginOf(w, s, b)
    requires IsClaim(Apply(crypto, w, s), family, a) && IsClaim(Apply(crypto, w, s), family, b)
    ensures a == b
  {
    if s.Advance? {
      var f, w' := w.flights[s.request], Apply(crypto, w, s);
      assert FlightSound(w, f);
      if f.pc.Find? && s.request in w'.flights && Holds(w'.flights[s.request]) {
        assert IsHeld(w'.flights, f.jti);
      }
    }
  }

  lemma NewFamilyIsEmpty(w: World, family: string, c: Claim)
    requires Sound(w) && family !in w.families
    ensures !IsClaim(w, family, c)
  {
    if c.Rotation? && c.request in w.flights {
      assert FlightSound(w, w.flights[c.request]);
    }
  }

  lemma StepKeepsAtMostOne(crypto: Crypto, w: World, s: Step, family: string)
    requires Sound(w) && Enabled(w, s) && AtMostOne(w, family) && !SecondRead(crypto, w, s, family)
    ensures AtMostOne(Apply(crypto, w, s), family)
  {
    var w' := Apply(crypto, w, s);
    forall a, b | IsClaim(w', family, a) && IsClaim(w', family, b) ensures a == b {
      ClaimHasOrigin(crypto, w, s, family, a);
      ClaimHasOrigin(crypto, w, s, family, b);
      if s.SignIn? && s.row.familyId == family {
        NewFamilyIsEmpty(w, family, OriginOf(w, s, a));
        NewFamilyIsEmpty(w, family, OriginOf(w, s, b));
      } else {
        OriginsDiffer(crypto, w, s, family, a, b);
      }
    }
  }

  lemma SecondReadMakesTwo(crypto: Crypto, w: World, s: Step, family: string)
    requires Sound(w) && Enabled(w, s) && SecondRead(crypto, w, s, family)
    ensures !AtMostOne(Apply(crypto, w, s), family)
  {
    var r, w' := s.request, Apply(crypto, w, s);
    var jti := w.flights[r].jti;
    var q :| q in w.flights && Holds(w.flights[q]) && w.flights[q].jti == jti;
    assert FlightSound(w, w.flights[q]);
    assert IsClaim(w', family, Rotation(q)) && IsClaim(w', family, Rotation(r)) && q != r;
  }

  // ----- every interleaving -----

  ghost predicate SingleUntil(worlds: seq<World>, family: string, i: nat)
    requires i < |worlds|
  {
    forall n :: 0 <= n <= i ==> AtMostOne(worlds[n], family)
  }

  ghost predicate ReadOnceUntil(crypto: Crypto, worlds: seq<World>, steps: seq<Step>, family: string, i: nat)
    requires i <= |steps| && |worlds| == |steps| + 1
  {
    forall n :: 0 <= n < i ==> !SecondRead(crypto, worlds[n], steps[n], family)
  }

  /**
   * In every interleaving: a family has at most one live token or rotation at all times exactly if no request ever
   * read a token of it that another request had read and not yet deleted.
   */
  lemma {:induction false} SingleIffReadOnce(crypto: Crypto, worlds: seq<World>, steps: seq<Step>, family: string, i: nat)
    requires IsRun(crypto, worlds, steps) && i <= |steps|
    ensures SingleUntil(worlds, family, i) <==> ReadOnceUntil(crypto, worlds, steps, family, i)
  {
    if i > 0 {
      var w, s := worlds[i - 1], steps[i - 1];
      SingleIffReadOnce(crypto, worlds, steps, family, i - 1);
      RunKeepsSound(crypto, worlds, steps, i - 1);
      assert IsStep(crypto, worlds, steps, i - 1);
      if SecondRead(crypto, w, s, family) {
        SecondReadMakesTwo(crypto, w, s, family);
      } else if SingleUntil(worlds, family, i - 1) {
        StepKeepsAtMostOne(crypto, w, s, family);
      }
    }
  }

  /** So no family ever has two live tokens, unless one of its tokens was read twice. */
  lemma ReadOnceKeepsOneToken(crypto: Crypto, worlds: seq<World>, steps: seq<Step>, family: string, i: nat, a: Jti, b: Jti)
    requires IsRun(crypto, worlds, steps) && i <= |steps| && ReadOnceUntil(crypto, worlds, steps, family, i)
    requires a in worlds[i].tokens && b in worlds[i].tokens
    requires worlds[i].tokens[a].familyId == family && worlds[i].tokens[b].familyId == family
    ensures a == b
  {
    SingleIffReadOnce(crypto, worlds, steps, family, i);
    RunKeepsSound(crypto, worlds, steps, i);
    assert AtMostOne(worlds[i], family);
    var c := ClaimOn(worlds[i], family, a);
    var d := ClaimOn(worlds[i], family, b);
  }

  /** Each live token has a claim of its own: itself, or a request that holds it. */
  lemma ClaimOn(w: World, family: string, jti: Jti) returns (c: Claim)
    requires Sound(w) && jti in w.tokens && w.tokens[jti].familyId == family
    ensures IsClaim(w, family, c)
    ensures c == Live(jti) || (c.Rotation? && Holds(w.flights[c.request]) && w.flights[c.request].jti == jti)
  {
    if IsHeld(w.flights, jti) {
      var q :| q in w.flights && Holds(w.flights[q]) && w.flights[q].jti == jti;
      assert FlightSound(w, w.flights[q]);
      c := Rotation(q);
    } else {
      c := Live(jti);
    }
  }

  // ----- signing out everywhere -----

  ghost predicate SignedOut(w: World, user: UserId) {
    forall j <- w.tokens :: w.tokens[j].userId != user
  }

  /** The request is on its way to mint a token for the user. */
  predicate RotatesFor(w: World, r: RequestId, user: UserId) {
    r in w.flights && Rotates(w.flights[r]) && w.flights[r].row.userId == user
  }

  predicate MintsFor(w: World, s: Step, user: UserId) {
    s.Advance? && RotatesFor(w, s.request, user) && w.flights[s.request].pc.Create?
  }

  ghost predicate SignsIn(s: Step, user: UserId) {
    s.SignIn? && s.row.userId == user
  }

  ghost predicate NoSignInBetween(steps: seq<Step>, n: nat, i: nat, user: UserId)
    requires i <= |steps|
  {
    forall m :: n < m < i ==> !SignsIn(steps[m], user)
  }

  ghost predicate StaysSignedOut(worlds: seq<World>, n: nat, i: nat, user: UserId)
    requires i < |worlds|
  {
    forall m :: n < m <= i ==> SignedOut(worlds[m], user)
  }

  /** At step `m` a request mints for the user that was on its way to do so at `n` and ever since. */
  ghost predicate LateMint(worlds: seq<World>, steps: seq<Step>, n: nat, m: nat, user: UserId)
    requires n <= m < |steps| && |worlds| == |steps| + 1
  {
    MintsFor(worlds[m], steps[m], user) && forall k :: n <= k <= m ==> RotatesFor(worlds[k], steps[m].request, user)
  }

  /** Tokens of a user come from a sign-in or from a rotation. */
  lemma TokenHasSource(crypto: Crypto, w: World, s: Step, user: UserId)
    requires Enabled(w, s) && SignedOut(w, user) && !SignsIn(s, user)
    ensures SignedOut(Apply(crypto, w, s), user) <==> !MintsFor(w, s, user)
  {
    var w' := Apply(crypto, w, s);
    if MintsFor(w, s, user) {
      assert s.draw.jti in w'.tokens && w'.tokens[s.draw.jti].userId == user;
    }
  }

  /** Nobody starts to rotate a token of a user who has none. */
  lemma RotationHasSource(crypto: Crypto, w: World, s: Step, r: RequestId, user: UserId)
    requires Enabled(w, s) && SignedOut(w, user) && RotatesFor(Apply(crypto, w, s), r, user)
    ensures RotatesFor(w, r, user)
  {
  }

  lemma {:induction false} RotationIsOld(crypto: Crypto, worlds: seq<World>, steps: seq<Step>, n: nat, m: nat, k: nat, r: RequestId, user: UserId)
    requires IsRun(crypto, worlds, steps) && n < |steps| && steps[n] == RemoveUser(user)
    requires n <= k <= m <= |steps| && StaysSignedOut(worlds, n, m, user) && RotatesFor(worlds[m], r, user)
    ensures RotatesFor(worlds[k], r, user)
  {
    if k < m {
      assert IsStep(crypto, worlds, steps, m - 1);
      if m - 1 > n {
        assert SignedOut(worlds[m - 1], user);
        RotationHasSource(crypto, worlds[m - 1], steps[m - 1], r, user);
      }
      RotationIsOld(crypto, worlds, steps, n, m - 1, k, r, user);
    }
  }

  /**
   * In every interleaving: a user whose tokens have all been removed stays without one until the next sign-in exactly
   * if no refresh that was on its way at the removal has reached its create step since.
   */
  lemma {:induction false} StaysSignedOutIff(crypto: Crypto, worlds: seq<World>, steps: seq<Step>, n: nat, i: nat, user: UserId)
    requires IsRun(crypto, worlds, steps) && n < i <= |steps|
    requires steps[n] == RemoveUser(user) && NoSignInBetween(steps, n, i, user)
    ensures StaysSignedOut(worlds, n, i, user) <==> forall m :: n < m < i ==> !LateMint(worlds, steps, n, m, user)
  {
    assert IsStep(crypto, worlds, steps, i - 1);
    if i == n + 1 {
      assert SignedOut(worlds[i], user);
    } else {
      StaysSignedOutIff(crypto, worlds, steps, n, i - 1, user);
      if StaysSignedOut(worlds, n, i - 1, user) {
        LastStepOfStretch(crypto, worlds, steps, n, i - 1, user);
      }
    }
  }

  lemma LastStepOfStretch(crypto: Crypto, worlds: seq<World>, steps: seq<Step>, n: nat, m: nat, user: UserId)
    requires IsRun(crypto, worlds, steps) && n < m < |steps| && steps[n] == RemoveUser(user)
    requires StaysSignedOut(worlds, n, m, user) && !SignsIn(steps[m], user)
    ensures SignedOut(worlds[m + 1], user) <==> !LateMint(worlds, steps, n, m, user)
  {
    assert IsStep(crypto, worlds, steps, m);
    assert SignedOut(worlds[m], user);
    TokenHasSource(crypto, worlds[m], steps[m], user);
    if MintsFor(worlds[m], steps[m], user) {
      forall k | n <= k <= m ensures RotatesFor(worlds[k], steps[m].request, user) {
        RotationIsOld(crypto, worlds, steps, n, m, k, steps[m].request, user);
      }
    }
  }

  // ----- a request by itself -----

  function Rank(pc: Pc): nat {
    match pc
    case Find => 0
    case ReadUser => 1
    case Delete => 2
    case CheckTenant => 3
    case Create => 4
    case DropExpired => 4
    case DropOrphan => 4
  }

  /** What a request does to the tokens when no other step comes in between. */
  function Alone(crypto: Crypto, w: World, f: Flight, draw: Draw): TokenStore.Rows
    decreases 5 - Rank(f.pc)
  {
    var e := Progress(crypto, w, f, draw);
    if e.next.None? then e.tokens else Alone(crypto, w.(tokens := e.tokens), e.next.value, draw)
  }

  function WorldOf(a: Auth, now: int): World {
    World(now, a.accounts, a.activeTenants, a.tokens, map[], {}, {})
  }

  lemma AloneFromUser(crypto: Crypto, w: World, f: Flight, draw: Draw)
    requires f.pc.ReadUser?
    ensures var without := w.tokens - {f.jti};
            Alone(crypto, w, f, draw)
            == if f.row.userId in w.accounts && AuthSerial.MayMint(w.activeTenants, w.accounts[f.row.userId])
               then without[draw.jti := RefreshToken(f.row.userId, draw.secretHash, f.row.familyId, draw.expiresAt)]
               else without
  {
    if f.row.userId in w.accounts {
      var g := f.(account := w.accounts[f.row.userId]);
      var w' := w.(tokens := w.tokens - {f.jti});
      assert Alone(crypto, w, f, draw) == Alone(crypto, w, g.(pc := Delete), draw);
      assert Alone(crypto, w, g.(pc := Delete), draw) == Alone(crypto, w', g.(pc := CheckTenant), draw);
      if AuthSerial.MayMint(w.activeTenants, g.account) {
        assert Alone(crypto, w', g.(pc := CheckTenant), draw) == Alone(crypto, w', g.(pc := Create), draw);
      }
    } else {
      assert Alone(crypto, w, f, draw) == Alone(crypto, w, f.(pc := DropOrphan), draw);
    }
  }

  /** Uninterrupted, the steps are the refresh request as it is served alone. */
  lemma AloneIsRefresh(crypto: Crypto, a: Auth, now: int, raw: string, draw: Draw)
    requires OpaqueTokens.Parse(raw).Some?
    ensures Alone(crypto, WorldOf(a, now), Arrive(OpaqueTokens.Parse(raw).value), draw)
            == Refresh(crypto, now, a, raw, draw).0.tokens
  {
    var w, f := WorldOf(a, now), Arrive(OpaqueTokens.Parse(raw).value);
    var next := AfterFind(crypto, w, f);
    if next.Some? && next.value.pc.ReadUser? {
      assert Alone(crypto, w, f, draw) == Alone(crypto, w, next.value, draw);
      AloneFromUser(crypto, w, next.value, draw);
    } else if next.Some? {
      assert Alone(crypto, w, f, draw) == Alone(crypto, w, next.value, draw);
    }
  }

  // ----- a run in which a family forks -----

  ghost predicate Ends(crypto: Crypto, worlds: seq<World>, steps: seq<Step>, w: World) {
    IsRun(crypto, worlds, steps) && worlds[|steps|] == w
  }

  lemma Extend(crypto: Crypto, worlds: seq<World>, steps: seq<Step>, w: World, s: Step)
    returns (longer: seq<World>, more: seq<Step>)
    requires Ends(crypto, worlds, steps, w) && Enabled(w, s)
    ensures Ends(crypto, longer, more, Apply(crypto, w, s))
    ensures longer == worlds + [Apply(crypto, w, s)] && more == steps + [s]
  {
    longer, more := worlds + [Apply(crypto, w, s)], steps + [s];
    forall i | 0 <= i < |more| ensures IsStep(crypto, longer, more, i) {
      if i < |steps| {
        assert IsStep(crypto, worlds, steps, i);
      }
    }
  }

  /** Requests 0 and 1 make the same step, one after the other. */
  lemma BothAdvance(crypto: Crypto, worlds: seq<World>, steps: seq<Step>, w: World, f: Flight, e: Effect, draw: Draw)
    returns (longer: seq<World>, more: seq<Step>)
    requires Ends(crypto, worlds, steps, w) && w.flights == map[0 := f, 1 := f] && !f.pc.Create? && e.next.Some?
    requires Progress(crypto, w, f, draw) == e && Progress(crypto, w.(tokens := e.tokens), f, draw) == e
    ensures Ends(crypto, longer, more, w.(tokens := e.tokens, flights := map[0 := e.next.value, 1 := e.next.value]))
  {
    longer, more := Extend(crypto, worlds, steps, w, Advance(0, draw));
    var w1 := w.(tokens := e.tokens, flights := map[0 := e.next.value, 1 := f]);
    assert Apply(crypto, w, Advance(0, draw)) == w1;
    assert Progress(crypto, w1, f, draw) == e;
    longer, more := Extend(crypto, longer, more, w1, Advance(1, draw));
  }

  /** The request that a client makes with a live token, and the user and tenant that let it through. */
  predicate Acceptable(crypto: Crypto, now: int, row: RefreshToken, token: OpaqueTokens.Token, account: Account, tenants: set<string>) {
    now < row.expiresAt && crypto.matches(token.secret, row.secretHash) && AuthSerial.MayMint(tenants, account)
  }

  lemma TwoReaders(crypto: Crypto, now: int, row: RefreshToken, token: OpaqueTokens.Token, account: Account,
                   tenants: set<string>, draw: Draw)
    returns (worlds: seq<World>, steps: seq<Step>, w: World)
    requires Acceptable(crypto, now, row, token, account, tenants)
    ensures Ends(crypto, worlds, steps, w)
    ensures var f := Flight(ReadUser, token.jti, token.secret, row, NO_ACCOUNT);
            w == World(now, map[row.userId := account], tenants, map[token.jti := row], map[0 := f, 1 := f],
                       {token.jti}, {row.familyId})
  {
    var start := World(now, map[row.userId := account], tenants, map[], map[], {}, {});
    worlds, steps := [start], [];
    worlds, steps := Extend(crypto, worlds, steps, start, SignIn(token.jti, row));
    w := start.(tokens := map[token.jti := row], jtis := {token.jti}, families := {row.familyId});
    assert Apply(crypto, start, SignIn(token.jti, row)) == w;
    worlds, steps := Extend(crypto, worlds, steps, w, Submit(0, token));
    worlds, steps := Extend(crypto, worlds, steps, w.(flights := map[0 := Arrive(token)]), Submit(1, token));
    w := w.(flights := map[0 := Arrive(token), 1 := Arrive(token)]);
    var next := Some(Flight(ReadUser, token.jti, token.secret, row, NO_ACCOUNT));
    worlds, steps := BothAdvance(crypto, worlds, steps, w, Arrive(token), Effect(w.tokens, next), draw);
    w := w.(flights := map[0 := next.value, 1 := next.value]);
  }

  /** Two requests that both read a token before either deletes it leave two live tokens in its family. */
  lemma RacingRefreshesForkTheFamily(crypto: Crypto, now: int, row: RefreshToken, token: OpaqueTokens.Token,
                                     account: Account, tenants: set<string>, first: Draw, second: Draw)
    returns (worlds: seq<World>, steps: seq<Step>)
    requires Acceptable(crypto, now, row, token, account, tenants)
    requires token.jti != first.jti && token.jti != second.jti && first.jti != second.jti
    ensures IsRun(crypto, worlds, steps)
    ensures var tokens := worlds[|steps|].tokens;
            && first.jti in tokens && second.jti in tokens && first.jti != second.jti
            && tokens[first.jti].familyId == row.familyId && tokens[second.jti].familyId == row.familyId
  {
    var w;
    worlds, steps, w := TwoReaders(crypto, now, row, token, account, tenants, first);
    var f := Flight(ReadUser, token.jti, token.secret, row, NO_ACCOUNT);
    var g := f.(pc := Delete, account := account);
    worlds, steps := BothAdvance(crypto, worlds, steps, w, f, Effect(w.tokens, Some(g)), first);
    w := w.(flights := map[0 := g, 1 := g]);
    var h := g.(pc := CheckTenant);
    worlds, steps := BothAdvance(crypto, worlds, steps, w, g, Effect(w.tokens - {token.jti}, Some(h)), first);
    w := w.(tokens := w.tokens - {token.jti}, flights := map[0 := h, 1 := h]);
    var c := h.(pc := Create);
    worlds, steps := BothAdvance(crypto, worlds, steps, w, h, Effect(w.tokens, Some(c)), first);
    w := w.(flights := map[0 := c, 1 := c]);
    worlds, steps := Extend(crypto, worlds, steps, w, Advance(0, first));
    worlds, steps := Extend(crypto, worlds, steps, Apply(crypto, w, Advance(0, first)), Advance(1, second));
  }

  /** The user signs in, a refresh reads the token, and all tokens of the user are removed. */
  lemma RemovedInFlight(crypto: Crypto, now: int, row: RefreshToken, token: OpaqueTokens.Token,
                        account: Account, tenants: set<string>, draw: Draw)
    returns (worlds: seq<World>, steps: seq<Step>, w: World)
    requires Acceptable(crypto, now, row, token, account, tenants)
    ensures Ends(crypto, worlds, steps, w) && SignedOut(w, row.userId)
    ensures w == World(now, map[row.userId := account], tenants, map[],
                       map[0 := Flight(ReadUser, token.jti, token.secret, row, NO_ACCOUNT)], {token.jti}, {row.familyId})
    ensures steps == [SignIn(token.jti, row), Submit(0, token), Advance(0, draw), RemoveUser(row.userId)]
  {
    var start := World(now, map[row.userId := account], tenants, map[], map[], {}, {});
    w := start.(tokens := map[token.jti := row], jtis := {token.jti}, families := {row.familyId});
    worlds, steps := Extend(crypto, [start], [], start, SignIn(token.jti, row));
    assert Apply(crypto, start, SignIn(token.jti, row)) == w;
    worlds, steps := Extend(crypto, worlds, steps, w, Submit(0, token));
    w := w.(flights := map[0 := Arrive(token)]);
    worlds, steps := Extend(crypto, worlds, steps, w, Advance(0, draw));
    var read := w.(flights := map[0 := Flight(ReadUser, token.jti, token.secret, row, NO_ACCOUNT)]);
    assert Apply(crypto, w, Advance(0, draw)) == read;
    worlds, steps := Extend(crypto, worlds, steps, read, RemoveUser(row.userId));
    w := read.(tokens := map[]);
    assert Apply(crypto, read, RemoveUser(row.userId)) == w;
  }

  /** A refresh that has read its token outlives the removal of all tokens of its user, and the user is signed in again. */
  lemma RefreshOutlivesSignOut(crypto: Crypto, now: int, row: RefreshToken, token: OpaqueTokens.Token,
                               account: Account, tenants: set<string>, draw: Draw)
    returns (worlds: seq<World>, steps: seq<Step>)
    requires Acceptable(crypto, now, row, token, account, tenants) && token.jti != draw.jti
    ensures IsRun(crypto, worlds, steps)
    ensures |steps| == 8 && steps[3] == RemoveUser(row.userId) && NoSignInBetween(steps, 3, 8, row.userId)
    ensures SignedOut(worlds[4], row.userId) && !SignedOut(worlds[8], row.userId)
  {
    var w;
    worlds, steps, w := RemovedInFlight(crypto, now, row, token, account, tenants, draw);
    var f := w.flights[0].(pc := Delete, account := account);
    var go := Advance(0, draw);
    worlds, steps := Extend(crypto, worlds, steps, w, go);
    assert Apply(crypto, w, go) == w.(flights := map[0 := f]);
    worlds, steps := Extend(crypto, worlds, steps, w.(flights := map[0 := f]), go);
    assert Apply(crypto, w.(flights := map[0 := f]), go) == w.(flights := map[0 := f.(pc := CheckTenant)]);
    worlds, steps := Extend(crypto, worlds, steps, w.(flights := map[0 := f.(pc := CheckTenant)]), go);
    var last := w.(flights := map[0 := f.(pc := Create)]);
    assert Apply(crypto, w.(flights := map[0 := f.(pc := CheckTenant)]), go) == last;
    worlds, steps := Extend(crypto, worlds, steps, last, go);
    assert draw.jti in Apply(crypto, last, go).tokens;
  }
}
