/**
 * A verification request that is not interrupted, and the two forms of it: the request scheduled
 * alone in the transition system, and the run of its effects on the collections.
 */
module MfaSerial {
  import opened Common
  import opened AuthModel
  import opened MfaProtocol

  /** Every step moves the program counter up, so a request ends after at most eight steps. */
  function Rank(pc: Pc): nat {
    match pc
    case Load => 0
    case User => 1
    case Factor => 2
    case Spend => 3
    case Claim => 3
    case Record => 4
    case Consume => 4
    case Discard => 5
    case Retire => 5
    case Tenant => 5
    case Store => 6
    case Clear => 7
  }

  lemma ProgressClimbs(crypto: Crypto, w: World, f: Flight)
    ensures var next := Progress(crypto, w, f).next; next.Some? ==> Rank(next.value.pc) > Rank(f.pc)
  {
    match f.pc
    case Load => case Discard => case User => case Factor => case Spend => case Claim => case Record =>
    case Retire => case Consume => case Tenant => case Store => case Clear =>
  }

  function After(w: World, e: Effect): World {
    w.(challenges := e.challenges, factors := e.factors, history := e.history)
  }

  /** What one request does when no other step comes in between. */
  function Alone(crypto: Crypto, w: World, f: Flight): Effect
    decreases 8 - Rank(f.pc)
  {
    ProgressClimbs(crypto, w, f);
    var e := Progress(crypto, w, f);
    if e.next.None? then e else Alone(crypto, After(w, e), e.next.value)
  }

  /** The transition system under a scheduler that picks request `r` until it has ended. */
  function Drive(crypto: Crypto, w: World, r: RequestId): World
    requires r in w.flights
    decreases 8 - Rank(w.flights[r].pc)
  {
    ProgressClimbs(crypto, w, w.flights[r]);
    var w' := Settle(w, r, Progress(crypto, w, w.flights[r]));
    if r in w'.flights then Drive(crypto, w', r) else w'
  }

  lemma ProgressIgnoresFlights(crypto: Crypto, w: World, flights: map<RequestId, Flight>, f: Flight)
    ensures Progress(crypto, w.(flights := flights), f) == Progress(crypto, w, f)
  {
    match f.pc
    case Load => case Discard => case User => case Factor => case Spend => case Claim => case Record =>
    case Retire => case Consume => case Tenant => case Store => case Clear =>
  }

  lemma {:induction false} AloneIgnoresFlights(crypto: Crypto, w: World, flights: map<RequestId, Flight>, f: Flight)
    ensures Alone(crypto, w.(flights := flights), f) == Alone(crypto, w, f)
    decreases 8 - Rank(f.pc)
  {
    ProgressIgnoresFlights(crypto, w, flights, f);
    ProgressClimbs(crypto, w, f);
    var e := Progress(crypto, w, f);
    if e.next.Some? {
      AloneIgnoresFlights(crypto, After(w, e), flights, e.next.value);
    }
  }

  /** Both forms agree, so what holds of every interleaving holds of uninterrupted requests. */
  lemma {:induction false} DriveIsAlone(crypto: Crypto, w: World, r: RequestId)
    requires r in w.flights
    ensures Drive(crypto, w, r) == After(w, Alone(crypto, w, w.flights[r])).(flights := w.flights - {r})
    decreases 8 - Rank(w.flights[r].pc)
  {
    var f := w.flights[r];
    ProgressClimbs(crypto, w, f);
    var e := Progress(crypto, w, f);
    var w' := Settle(w, r, e);
    if e.next.Some? {
      DriveIsAlone(crypto, w', r);
      AloneIgnoresFlights(crypto, After(w, e), w'.flights, e.next.value);
      assert After(w, e).(flights := w'.flights) == w';
      assert w'.flights - {r} == w.flights - {r};
    }
  }

  lemma SettleIsAStep(crypto: Crypto, w: World, r: RequestId)
    requires r in w.flights
    ensures Next(crypto, w, Settle(w, r, Progress(crypto, w, w.flights[r])))
  {
    assert Enabled(w, Advance(r)) && Apply(crypto, w, Advance(r)) == Settle(w, r, Progress(crypto, w, w.flights[r]));
  }

  /** Driving one request extends a run to a run. */
  lemma {:induction false} DriveExtendsRun(crypto: Crypto, run: seq<World>, r: RequestId) returns (longer: seq<World>)
    requires IsRun(crypto, run) && r in run[|run| - 1].flights
    ensures IsRun(crypto, longer) && run < longer
    ensures longer[|longer| - 1] == Drive(crypto, run[|run| - 1], r)
    decreases 8 - Rank(run[|run| - 1].flights[r].pc)
  {
    var w := run[|run| - 1];
    var w' := Settle(w, r, Progress(crypto, w, w.flights[r]));
    SettleIsAStep(crypto, w, r);
    longer := run + [w'];
    forall i | 0 < i < |longer| ensures IsStep(crypto, longer, i) {
      if i < |run| {
        assert IsStep(crypto, run, i);
      }
    }
    if r in w'.flights {
      ProgressClimbs(crypto, w, w.flights[r]);
      longer := DriveExtendsRun(crypto, longer, r);
    }
  }
}
