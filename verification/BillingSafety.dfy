/** Idempotence of the webhooks, and what a tenant is entitled to after a deletion. */
module BillingSafety {
  import opened Common
  import opened BillingModel

  // ----- idempotence -----

  /** The inputs that take effect: direct writes, and of each event the first delivery whose claim is inserted. */
  function Accepted(claims: set<string>, inputs: seq<Input>): seq<Input>
    decreases |inputs|
  {
    if inputs == [] then []
    else
      var first := inputs[0];
      if Claims(claims, first) then [first] + Accepted(claims + {first.event.id}, inputs[1..])
      else if first.Direct? then [first] + Accepted(claims, inputs[1..])
      else Accepted(claims, inputs[1..])
  }

  lemma {:induction false} ProcessFirst(s: State, plans: Catalogue, inputs: seq<Input>)
    requires inputs != []
    ensures Process(s, plans, inputs) == Process(Handle(s, plans, inputs[0]), plans, inputs[1..])
  {
    if |inputs| > 1 {
      var front := inputs[..|inputs| - 1];
      ProcessFirst(s, plans, front);
      assert front[1..] == inputs[1..][..|inputs| - 2];
    } else {
      assert inputs[..0] == [] && inputs[1..] == [];
    }
  }

  /** Deliveries that are not accepted leave no trace at all, in the rows, the claims or the notices. */
  lemma {:induction false} WebhooksAreIdempotent(s: State, plans: Catalogue, inputs: seq<Input>)
    ensures Process(s, plans, inputs) == Process(s, plans, Accepted(s.claims, inputs))
    decreases |inputs|
  {
    if inputs != [] {
      var first := inputs[0];
      var next := Handle(s, plans, first);
      ProcessFirst(s, plans, inputs);
      WebhooksAreIdempotent(next, plans, inputs[1..]);
      if next != s || first.Direct? || Claims(s.claims, first) {
        var rest := Accepted(next.claims, inputs[1..]);
        assert Accepted(s.claims, inputs) == [first] + rest;
        ProcessFirst(s, plans, [first] + rest);
        assert ([first] + rest)[1..] == rest;
      }
    }
  }

  ghost predicate IsNew(claims: set<string>, input: Input) {
    input.Webhook? ==> input.event.id !in claims && !input.insertFails
  }

  ghost predicate IdsDiffer(a: Input, b: Input) {
    a.Webhook? && b.Webhook? ==> a.event.id != b.event.id
  }

  /** Accepted deliveries are new ones, each id once. */
  lemma {:induction false} AcceptedOnce(claims: set<string>, inputs: seq<Input>)
    ensures forall i :: 0 <= i < |Accepted(claims, inputs)| ==> IsNew(claims, Accepted(claims, inputs)[i])
    ensures forall i, k :: 0 <= i < k < |Accepted(claims, inputs)| ==> IdsDiffer(Accepted(claims, inputs)[i], Accepted(claims, inputs)[k])
    decreases |inputs|
  {
    if inputs != [] {
      var first := inputs[0];
      var next := if Claims(claims, first) then claims + {first.event.id} else claims;
      AcceptedOnce(next, inputs[1..]);
      var rest := Accepted(next, inputs[1..]);
      assert forall i :: 0 <= i < |rest| ==> IsNew(next, rest[i]) && IsNew(claims, rest[i]);
      if Claims(claims, first) || first.Direct? {
        assert Accepted(claims, inputs) == [first] + rest;
        assert forall i :: 0 <= i < |rest| ==> IdsDiffer(first, rest[i]);
      } else {
        assert Accepted(claims, inputs) == rest;
      }
    }
  }

  /** An event is accepted unless it was claimed before or none of its inserts goes through. */
  lemma {:induction false} EveryEventIsAccepted(claims: set<string>, inputs: seq<Input>, i: nat)
    requires i < |inputs| && Claims(claims, inputs[i])
    ensures exists k :: 0 <= k < |Accepted(claims, inputs)| && Accepted(claims, inputs)[k].Webhook?
                        && Accepted(claims, inputs)[k].event.id == inputs[i].event.id
    decreases |inputs|
  {
    var first := inputs[0];
    var taken := Accepted(claims, inputs);
    var next := if Claims(claims, first) then claims + {first.event.id} else claims;
    if Claims(claims, first) && first.event.id == inputs[i].event.id {
      assert taken[0] == first;
    } else {
      var rest := Accepted(next, inputs[1..]);
      EveryEventIsAccepted(next, inputs[1..], i - 1);
      var k :| 0 <= k < |rest| && rest[k].Webhook? && rest[k].event.id == inputs[i].event.id;
      assert taken == rest || taken == [first] + rest;
      if taken != rest {
        assert taken[k + 1] == rest[k];
      }
    }
  }

  /** The first input of its kind: a direct write, or the first delivery of an unclaimed event whose insert goes through. */
  ghost predicate IsFirst(claims: set<string>, inputs: seq<Input>, n: nat)
    requires n < |inputs|
  {
    inputs[n].Direct? ||
    (Claims(claims, inputs[n]) && !ClaimedEarlier(claims, inputs, n, inputs[n].event.id))
  }

  ghost predicate ClaimedEarlier(claims: set<string>, inputs: seq<Input>, n: nat, id: string)
    requires n <= |inputs|
  {
    exists m :: 0 <= m < n && Claims(claims, inputs[m]) && inputs[m].event.id == id
  }

  /** The inputs at those positions, in their order. */
  ghost function Firsts(claims: set<string>, inputs: seq<Input>, n: nat): seq<Input>
    requires n <= |inputs|
  {
    if n == 0 then []
    else Firsts(claims, inputs, n - 1) + (if IsFirst(claims, inputs, n - 1) then [inputs[n - 1]] else [])
  }

  lemma FirstsShift(claims: set<string>, inputs: seq<Input>, n: nat)
    requires n + 1 < |inputs|
    ensures var next := if Claims(claims, inputs[0]) then claims + {inputs[0].event.id} else claims;
            IsFirst(claims, inputs, n + 1) <==> IsFirst(next, inputs[1..], n)
  {
    var first, rest := inputs[0], inputs[1..];
    var next := if Claims(claims, first) then claims + {first.event.id} else claims;
    if rest[n].Webhook? {
      var id := rest[n].event.id;
      assert forall m :: 0 <= m < n ==> rest[m] == inputs[m + 1];
      if ClaimedEarlier(next, rest, n, id) {
        var m :| 0 <= m < n && Claims(next, rest[m]) && rest[m].event.id == id;
        assert Claims(claims, inputs[m + 1]) && inputs[m + 1].event.id == id;
      }
      if ClaimedEarlier(claims, inputs, n + 1, id) && id !in next {
        var m :| 0 <= m < n + 1 && Claims(claims, inputs[m]) && inputs[m].event.id == id;
        assert Claims(next, rest[m - 1]) && rest[m - 1].event.id == id;
      }
    }
  }

  lemma {:induction false} FirstsOfRest(claims: set<string>, inputs: seq<Input>, n: nat)
    requires n + 1 <= |inputs|
    ensures var next := if Claims(claims, inputs[0]) then claims + {inputs[0].event.id} else claims;
            Firsts(claims, inputs, n + 1) == Firsts(claims, inputs, 1) + Firsts(next, inputs[1..], n)
  {
    if n > 0 {
      FirstsOfRest(claims, inputs, n - 1);
      FirstsShift(claims, inputs, n - 1);
    }
  }

  /** Accepted are exactly the first occurrences, in the order in which they came in. */
  lemma {:induction false} AcceptedAreFirsts(claims: set<string>, inputs: seq<Input>)
    ensures Accepted(claims, inputs) == Firsts(claims, inputs, |inputs|)
    decreases |inputs|
  {
    if inputs != [] {
      var first := inputs[0];
      var next := if Claims(claims, first) then claims + {first.event.id} else claims;
      AcceptedAreFirsts(next, inputs[1..]);
      FirstsOfRest(claims, inputs, |inputs| - 1);
      assert Firsts(claims, inputs, 0) == [];
      assert Firsts(claims, inputs, 1) == if Claims(claims, first) || first.Direct? then [first] else [];
    }
  }

  // ----- events that are lost -----

  predicate Delivers(input: Input, id: string) {
    input.Webhook? && input.event.id == id
  }

  /** Every delivery of the event meets a failing insert. */
  ghost predicate NeverInserted(inputs: seq<Input>, id: string) {
    forall i :: 0 <= i < |inputs| && Delivers(inputs[i], id) ==> inputs[i].insertFails
  }

  function Without(inputs: seq<Input>, id: string): seq<Input> {
    if inputs == [] then []
    else
      var last := inputs[|inputs| - 1];
      Without(inputs[..|inputs| - 1], id) + (if Delivers(last, id) then [] else [last])
  }

  lemma {:induction false} ClaimedIff(s: State, plans: Catalogue, inputs: seq<Input>, id: string)
    ensures id in Process(s, plans, inputs).claims <==> id in s.claims || !NeverInserted(inputs, id)
  {
    if inputs != [] {
      var front, last := inputs[..|inputs| - 1], inputs[|inputs| - 1];
      ClaimedIff(s, plans, front, id);
      NeverInsertedLonger(inputs, id);
    }
  }

  lemma NeverInsertedLonger(inputs: seq<Input>, id: string)
    requires inputs != []
    ensures var front, last := inputs[..|inputs| - 1], inputs[|inputs| - 1];
            NeverInserted(inputs, id) <==> NeverInserted(front, id) && (Delivers(last, id) ==> last.insertFails)
  {
    var front := inputs[..|inputs| - 1];
    assert forall i :: 0 <= i < |front| ==> front[i] == inputs[i];
    if NeverInserted(inputs, id) {
      forall i | 0 <= i < |front| && Delivers(front[i], id) ensures front[i].insertFails {
        assert Delivers(inputs[i], id);
      }
    }
  }

  /** The state in which the input at `i` arrives. */
  function Before(s: State, plans: Catalogue, inputs: seq<Input>, i: nat): State
    requires i <= |inputs|
  {
    Process(s, plans, inputs[..i])
  }

  lemma BeforeNext(s: State, plans: Catalogue, inputs: seq<Input>, i: nat)
    requires i < |inputs|
    ensures Before(s, plans, inputs, i + 1) == Handle(Before(s, plans, inputs, i), plans, inputs[i])
  {
    assert inputs[..i + 1][..i] == inputs[..i];
  }

  /** The delivery that claims the event: its first one of an id not claimed before whose insert goes through. */
  ghost predicate TakenAt(claims: set<string>, inputs: seq<Input>, n: nat, id: string)
    requires n < |inputs|
  {
    Delivers(inputs[n], id) && IsFirst(claims, inputs, n)
  }

  lemma TakenIffClaims(s: State, plans: Catalogue, inputs: seq<Input>, i: nat, id: string)
    requires i < |inputs| && Delivers(inputs[i], id)
    ensures TakenAt(s.claims, inputs, i, id) <==> Claims(Before(s, plans, inputs, i).claims, inputs[i])
  {
    var front := inputs[..i];
    ClaimedIff(s, plans, front, id);
    if ClaimedEarlier(s.claims, inputs, i, id) {
      var m :| 0 <= m < i && Claims(s.claims, inputs[m]) && inputs[m].event.id == id;
      assert Delivers(front[m], id) && !front[m].insertFails;
    } else if id !in s.claims {
      forall m | 0 <= m < |front| && Delivers(front[m], id) ensures front[m].insertFails {
        assert front[m] == inputs[m];
      }
    }
  }

  ghost predicate SameRowsAndNotices(a: State, b: State) {
    a.rows == b.rows && a.notices == b.notices
  }

  /** No delivery of the event writes a row or announces anything. */
  ghost predicate IsLost(s: State, plans: Catalogue, inputs: seq<Input>, id: string) {
    forall i :: 0 <= i < |inputs| && Delivers(inputs[i], id) ==>
      SameRowsAndNotices(Before(s, plans, inputs, i), Before(s, plans, inputs, i + 1))
  }

  // What a handler meets when it is entered, and on which it neither writes nor announces.

  /** A lookup at Stripe fails, or something the handler needs is missing. */
  predicate GivesUp(rows: Rows, body: Body) {
    match body
    case CheckoutSessionCompleted(mode, metadataTenantId, clientReferenceId, subscriptionId, retrieved) =>
      || mode != Some("subscription")
      || (!IsTruthy(metadataTenantId) && !IsTruthy(clientReferenceId))
      || !IsTruthy(subscriptionId)
      || retrieved.None?
      || !IsTruthy(retrieved.value.priceId)
    case SubscriptionUpdated(subscription, customer) => HasNoTenant(rows, subscription, customer)
    case SubscriptionDeleted(subscription, customer) => HasNoTenant(rows, subscription, customer)
    case InvoicePaymentFailed(_, invoiceCustomer, customer) => HasNoPayer(invoiceCustomer, customer)
    case InvoicePaid(_, invoiceCustomer, customer) => HasNoPayer(invoiceCustomer, customer)
    case OtherEvent => true
  }

  predicate HasNoTenant(rows: Rows, subscription: StripeSubscription, customer: CustomerLookup) {
    var i := FindBySubscriptionId(rows, subscription.id);
    || customer.LookupFails?
    || ((customer.CustomerDeleted? || !IsTruthy(customer.tenantId)) && (i == |rows| || rows[i].tenantId == ""))
  }

  predicate HasNoPayer(invoiceCustomer: Option<string>, customer: CustomerLookup) {
    !IsTruthy(invoiceCustomer) || customer.LookupFails? || customer.CustomerDeleted? || !IsTruthy(customer.tenantId)
  }

  /** A field to be set holds its value already. */
  predicate Holds<T(==)>(given: Option<T>, kept: T) {
    given.None? || given.value == kept
  }

  predicate HoldsToo<T(==)>(given: Option<T>, kept: Option<T>) {
    given.None? || given == kept
  }

  /** The row says already what the write would make it say. */
  predicate IsUpToDate(rows: Rows, tenantId: string, op: Op) {
    var i := FindByTenantId(rows, tenantId);
    match op
    case Upsert(update) =>
      && i < |rows|
      && Holds(update.status, rows[i].status)
      && Holds(update.planKey, rows[i].planKey)
      && HoldsToo(update.customerId, rows[i].customerId)
      && HoldsToo(update.subscriptionId, rows[i].subscriptionId)
      && HoldsToo(update.priceId, rows[i].priceId)
      && HoldsToo(update.periodStart, rows[i].periodStart)
      && HoldsToo(update.periodEnd, rows[i].periodEnd)
      && Holds(update.cancelAtPeriodEnd, rows[i].cancelAtPeriodEnd)
    case Cancel(customerId, periodEnd) =>
      i < |rows| ==>
        && rows[i].status == "canceled" && rows[i].customerId == Some(customerId) && !rows[i].cancelAtPeriodEnd
        && HoldsToo(periodEnd, rows[i].periodEnd) && rows[i].subscriptionId.None? && rows[i].priceId.None?
  }

  /** Only a checkout or an update is not announced, and only while no end of period is known. */
  predicate HasNoEnd(rows: Rows, tenantId: string, body: Body) {
    var i := FindByTenantId(rows, tenantId);
    match body
    case CheckoutSessionCompleted(_, _, _, _, _) => i < |rows| && rows[i].periodEnd.None?
    case SubscriptionUpdated(subscription, _) =>
      var k := FindBySubscriptionId(rows, subscription.id);
      i < |rows| && rows[i].periodEnd.None? && (k < |rows| ==> rows[k].periodEnd.None?)
    case _ => false
  }

  predicate HasNoEffect(rows: Rows, plans: Catalogue, body: Body, fault: Fault) {
    || fault.BeforeWrite?
    || GivesUp(rows, body)
    || match Decide(rows, plans, body)
       case None => fault.BeforeNotice?
       case Some(decision) =>
         IsUpToDate(rows, decision.tenantId, decision.op) && (fault.BeforeNotice? || HasNoEnd(rows, decision.tenantId, body))
  }

  lemma WriteIsIdleIff(rows: Rows, tenantId: string, op: Op)
    ensures Write(rows, tenantId, op) == rows <==> IsUpToDate(rows, tenantId, op)
  {
    var i := FindByTenantId(rows, tenantId);
    var after := Write(rows, tenantId, op);
    if i < |rows| {
      assert after[i] == rows[i] ==> after == rows;
    }
  }

  lemma DecidesIff(rows: Rows, plans: Catalogue, body: Body)
    ensures GivesUp(rows, body) ==> Decide(rows, plans, body).None? && Announce(rows, plans, body) == []
    ensures Decide(rows, plans, body).None? && !GivesUp(rows, body) ==> |Announce(rows, plans, body)| == 1
  {
  }

  lemma IdleIsSilentIff(rows: Rows, plans: Catalogue, body: Body)
    requires var decision := Decide(rows, plans, body);
             decision.Some? && IsUpToDate(rows, decision.value.tenantId, decision.value.op)
    ensures Announce(rows, plans, body) == [] <==> HasNoEnd(rows, Decide(rows, plans, body).value.tenantId, body)
  {
    var decision := Decide(rows, plans, body).value;
    WriteIsIdleIff(rows, decision.tenantId, decision.op);
  }

  lemma DispatchIsIdleIff(s: State, plans: Catalogue, body: Body, fault: Fault)
    ensures SameRowsAndNotices(s, Dispatch(s, plans, body, fault)) <==> HasNoEffect(s.rows, plans, body, fault)
  {
    var decision := Decide(s.rows, plans, body);
    DecidesIff(s.rows, plans, body);
    if decision.Some? {
      WriteIsIdleIff(s.rows, decision.value.tenantId, decision.value.op);
      if IsUpToDate(s.rows, decision.value.tenantId, decision.value.op) {
        IdleIsSilentIff(s.rows, plans, body);
      }
    }
  }

  lemma DeliveryIsIdleIff(s: State, plans: Catalogue, inputs: seq<Input>, i: nat, id: string)
    requires i < |inputs| && Delivers(inputs[i], id)
    ensures SameRowsAndNotices(Before(s, plans, inputs, i), Before(s, plans, inputs, i + 1)) <==>
            (TakenAt(s.claims, inputs, i, id) ==>
               HasNoEffect(Before(s, plans, inputs, i).rows, plans, inputs[i].event.body, inputs[i].fault))
  {
    var mid := Before(s, plans, inputs, i);
    BeforeNext(s, plans, inputs, i);
    TakenIffClaims(s, plans, inputs, i, id);
    DispatchIsIdleIff(mid.(claims := mid.claims + {id}), plans, inputs[i].event.body, inputs[i].fault);
  }

  /**
   * The claim comes first and errors are swallowed: an event is lost exactly if no delivery claims it, or the one that
   * does meets a handler that fails, gives up, or finds nothing to write and nothing to announce.
   */
  lemma EventIsLostIff(s: State, plans: Catalogue, inputs: seq<Input>, id: string)
    ensures IsLost(s, plans, inputs, id) <==>
            forall n :: 0 <= n < |inputs| && TakenAt(s.claims, inputs, n, id) ==>
              HasNoEffect(Before(s, plans, inputs, n).rows, plans, inputs[n].event.body, inputs[n].fault)
  {
    if IsLost(s, plans, inputs, id) {
      forall n | 0 <= n < |inputs| && TakenAt(s.claims, inputs, n, id)
        ensures HasNoEffect(Before(s, plans, inputs, n).rows, plans, inputs[n].event.body, inputs[n].fault)
      {
        DeliveryIsIdleIff(s, plans, inputs, n, id);
        assert SameRowsAndNotices(Before(s, plans, inputs, n), Before(s, plans, inputs, n + 1));
      }
    } else {
      var i :| 0 <= i < |inputs| && Delivers(inputs[i], id)
               && !SameRowsAndNotices(Before(s, plans, inputs, i), Before(s, plans, inputs, i + 1));
      DeliveryIsIdleIff(s, plans, inputs, i, id);
      assert TakenAt(s.claims, inputs, i, id);
    }
  }

  /** Only one delivery claims an event, and whatever a later one would find out, it changes nothing at all. */
  lemma RetriesAreDropped(s: State, plans: Catalogue, inputs: seq<Input>, n: nat, i: nat, id: string)
    requires n < |inputs| && TakenAt(s.claims, inputs, n, id)
    requires i < |inputs| && i != n && Delivers(inputs[i], id)
    ensures !TakenAt(s.claims, inputs, i, id) && Before(s, plans, inputs, i + 1) == Before(s, plans, inputs, i)
  {
    if n < i {
      assert Claims(s.claims, inputs[n]) && ClaimedEarlier(s.claims, inputs, i, id);
    } else if Claims(s.claims, inputs[i]) {
      assert false;
    }
    BeforeNext(s, plans, inputs, i);
    TakenIffClaims(s, plans, inputs, i, id);
  }

  /** Equal but for the claim on one event. */
  ghost predicate SameButFor(a: State, b: State, id: string) {
    SameRowsAndNotices(a, b) && a.claims - {id} == b.claims - {id}
  }

  lemma HandleKeepsSame(a: State, b: State, plans: Catalogue, input: Input, id: string)
    requires SameButFor(a, b, id) && !Delivers(input, id)
    ensures SameButFor(Handle(a, plans, input), Handle(b, plans, input), id)
  {
    if input.Webhook? {
      var other := input.event.id;
      assert other in a.claims <==> other in a.claims - {id};
      assert other in b.claims <==> other in b.claims - {id};
      assert a.claims + {other} - {id} == (a.claims - {id}) + {other};
      assert b.claims + {other} - {id} == (b.claims - {id}) + {other};
    }
  }

  lemma {:induction false} LostLeavesSame(s: State, plans: Catalogue, inputs: seq<Input>, id: string)
    requires IsLost(s, plans, inputs, id)
    ensures SameButFor(Process(s, plans, inputs), Process(s, plans, Without(inputs, id)), id)
  {
    if inputs != [] {
      var front, last := inputs[..|inputs| - 1], inputs[|inputs| - 1];
      LostOfFront(s, plans, inputs, id);
      LostLeavesSame(s, plans, front, id);
      if Delivers(last, id) {
        assert Without(inputs, id) == Without(front, id);
        assert inputs[..|inputs|] == inputs;
        assert SameRowsAndNotices(Before(s, plans, inputs, |front|), Before(s, plans, inputs, |front| + 1));
      } else {
        var kept := Without(inputs, id);
        assert kept[..|kept| - 1] == Without(front, id);
        HandleKeepsSame(Process(s, plans, front), Process(s, plans, Without(front, id)), plans, last, id);
      }
    }
  }

  lemma LostOfFront(s: State, plans: Catalogue, inputs: seq<Input>, id: string)
    requires inputs != [] && IsLost(s, plans, inputs, id)
    ensures IsLost(s, plans, inputs[..|inputs| - 1], id)
  {
    var front := inputs[..|inputs| - 1];
    forall i | 0 <= i < |front| && Delivers(front[i], id)
      ensures SameRowsAndNotices(Before(s, plans, front, i), Before(s, plans, front, i + 1))
    {
      assert Delivers(inputs[i], id) && front[..i] == inputs[..i] && front[..i + 1] == inputs[..i + 1];
      assert SameRowsAndNotices(Before(s, plans, inputs, i), Before(s, plans, inputs, i + 1));
    }
  }

  /** After everything else has been processed, too, rows and notices are as if a lost event had never been sent. */
  lemma LostLeavesNoTrace(s: State, plans: Catalogue, inputs: seq<Input>, id: string)
    requires IsLost(s, plans, inputs, id)
    ensures SameRowsAndNotices(Process(s, plans, inputs), Process(s, plans, Without(inputs, id)))
  {
    LostLeavesSame(s, plans, inputs, id);
  }

  lemma UpsertedRow(rows: Rows, tenantId: string, update: Update)
    ensures RowOf(Write(rows, tenantId, Upsert(update)), tenantId)
            == Some(Updated(RowOf(rows, tenantId).GetOr(NewRow(tenantId)), update))
  {
    var i := FindByTenantId(rows, tenantId);
    var after := Write(rows, tenantId, Upsert(update));
    assert forall k :: 0 <= k < i ==> after[k] == rows[k];
    assert after[i].tenantId == tenantId;
    assert FindByTenantId(after, tenantId) == i;
  }

  /**
   * From any state: one lookup that fails, at the first delivery, and the event is lost although its insert went
   * through. Without that delivery the next one would have made the tenant's row say what the subscription says.
   */
  lemma FailedLookupLosesEvent(s: State, plans: Catalogue, id: string, subscription: StripeSubscription, tenantId: string)
    requires id !in s.claims && tenantId != ""
    ensures var failing := Webhook(Event(id, SubscriptionUpdated(subscription, LookupFails)), false, NoFault);
            var retry := Webhook(Event(id, SubscriptionUpdated(subscription, CustomerFound(Some(tenantId)))), false, NoFault);
            && IsLost(s, plans, [failing, retry], id) && SameRowsAndNotices(s, Process(s, plans, [failing, retry]))
            && !NeverInserted([failing, retry], id)
            && var row := RowOf(Process(s, plans, [retry]).rows, tenantId);
               row.Some? && row.value.status == subscription.status && row.value.subscriptionId == Some(subscription.id)
  {
    var failing := Webhook(Event(id, SubscriptionUpdated(subscription, LookupFails)), false, NoFault);
    var retry := Webhook(Event(id, SubscriptionUpdated(subscription, CustomerFound(Some(tenantId)))), false, NoFault);
    var inputs := [failing, retry];
    assert Delivers(inputs[0], id) && TakenAt(s.claims, inputs, 0, id);
    assert Before(s, plans, inputs, 0) == s;
    forall n | 0 <= n < |inputs| && TakenAt(s.claims, inputs, n, id) ensures n == 0 {
      if n != 0 {
        RetriesAreDropped(s, plans, inputs, 0, n, id);
      }
    }
    EventIsLostIff(s, plans, inputs, id);
    BeforeNext(s, plans, inputs, 0);
    BeforeNext(s, plans, inputs, 1);
    assert inputs[..2] == inputs;
    assert [retry][..0] == [];
    var decision := Decide(s.rows, plans, retry.event.body).value;
    UpsertedRow(s.rows, tenantId, decision.op.update);
  }

  // ----- one row per tenant -----

  ghost predicate OneRowPerTenant(rows: Rows) {
    forall i, k :: 0 <= i < k < |rows| ==> rows[i].tenantId != rows[k].tenantId
  }

  lemma WriteKeepsOneRow(rows: Rows, tenantId: string, op: Op)
    requires OneRowPerTenant(rows)
    ensures OneRowPerTenant(Write(rows, tenantId, op))
  {
  }

  lemma {:induction false} ProcessKeepsOneRow(s: State, plans: Catalogue, inputs: seq<Input>)
    requires OneRowPerTenant(s.rows)
    ensures OneRowPerTenant(Process(s, plans, inputs).rows)
  {
    if inputs != [] {
      var front, last := inputs[..|inputs| - 1], inputs[|inputs| - 1];
      ProcessKeepsOneRow(s, plans, front);
      var mid := Process(s, plans, front);
      var write := WriteOf(mid, plans, last);
      HandleWrites(mid, plans, last);
      if write.Some? {
        WriteKeepsOneRow(mid.rows, write.value.tenantId, write.value.op);
      }
    }
  }

  /** The write that an input makes, if any. */
  function WriteOf(s: State, plans: Catalogue, input: Input): Option<Decision> {
    match input
    case Direct(tenantId, update) => Some(Decision(tenantId, Upsert(update)))
    case Webhook(event, _, fault) =>
      if Claims(s.claims, input) && !fault.BeforeWrite? then Decide(s.rows, plans, event.body) else None
  }

  lemma HandleWrites(s: State, plans: Catalogue, input: Input)
    ensures var write := WriteOf(s, plans, input);
            Handle(s, plans, input).rows == if write.None? then s.rows else Write(s.rows, write.value.tenantId, write.value.op)
  {
  }

  // ----- the history of one tenant's row -----

  function OpsFor(s: State, plans: Catalogue, inputs: seq<Input>, tenantId: string): seq<Op> {
    if inputs == [] then []
    else
      var front := inputs[..|inputs| - 1];
      var write := WriteOf(Process(s, plans, front), plans, inputs[|inputs| - 1]);
      OpsFor(s, plans, front, tenantId) + (if write.Some? && write.value.tenantId == tenantId then [write.value.op] else [])
  }

  function AfterOp(row: Option<Row>, tenantId: string, op: Op): Option<Row> {
    match op
    case Upsert(update) => Some(Updated(row.GetOr(NewRow(tenantId)), update))
    case Cancel(customerId, periodEnd) => if row.Some? then Some(Canceled(row.value, customerId, periodEnd)) else None
  }

  function AfterOps(row: Option<Row>, tenantId: string, ops: seq<Op>): Option<Row> {
    if ops == [] then row else AfterOp(AfterOps(row, tenantId, ops[..|ops| - 1]), tenantId, ops[|ops| - 1])
  }

  lemma WriteOnRow(rows: Rows, tenantId: string, op: Op, other: string)
    requires OneRowPerTenant(rows)
    ensures RowOf(Write(rows, tenantId, op), other)
            == if other == tenantId then AfterOp(RowOf(rows, tenantId), tenantId, op) else RowOf(rows, other)
  {
    var after := Write(rows, tenantId, op);
    var i, k := FindByTenantId(rows, other), FindByTenantId(after, other);
    assert |rows| <= |after| && forall m :: 0 <= m < |rows| ==> after[m].tenantId == rows[m].tenantId;
    if other == tenantId {
      assert after == rows || after[i].tenantId == other;
      assert i < |after| ==> k == i;
    } else if i < |rows| {
      assert after[i] == rows[i] && k == i;
    } else {
      assert forall m :: 0 <= m < |after| ==> after[m].tenantId != other;
    }
  }

  /** A tenant's row is the result of that tenant's writes, and of nothing else. */
  lemma {:induction false} RowIsItsHistory(s: State, plans: Catalogue, inputs: seq<Input>, tenantId: string)
    requires OneRowPerTenant(s.rows)
    ensures RowOf(Process(s, plans, inputs).rows, tenantId)
            == AfterOps(RowOf(s.rows, tenantId), tenantId, OpsFor(s, plans, inputs, tenantId))
  {
    if inputs != [] {
      var front, last := inputs[..|inputs| - 1], inputs[|inputs| - 1];
      RowIsItsHistory(s, plans, front, tenantId);
      ProcessKeepsOneRow(s, plans, front);
      var mid := Process(s, plans, front);
      var write := WriteOf(mid, plans, last);
      HandleWrites(mid, plans, last);
      var ops := OpsFor(s, plans, inputs, tenantId);
      if write.Some? {
        WriteOnRow(mid.rows, write.value.tenantId, write.value.op, tenantId);
        if write.value.tenantId == tenantId {
          assert ops[..|ops| - 1] == OpsFor(s, plans, front, tenantId);
        } else {
          assert ops == OpsFor(s, plans, front, tenantId);
        }
      } else {
        assert ops == OpsFor(s, plans, front, tenantId);
      }
    }
  }

  // ----- after a deletion -----

  /** The status set last. */
  function LatestStatus(ops: seq<Op>): Option<string> {
    if ops == [] then None
    else
      match ops[|ops| - 1]
      case Upsert(update) => if update.status.Some? then update.status else LatestStatus(ops[..|ops| - 1])
      case Cancel(_, _) => Some("canceled")
  }

  /** The price set last, unless a later deletion removed it. */
  function LatestPrice(ops: seq<Op>): Option<string> {
    if ops == [] then None
    else
      match ops[|ops| - 1]
      case Upsert(update) => if update.priceId.Some? then update.priceId else LatestPrice(ops[..|ops| - 1])
      case Cancel(_, _) => None
  }

  ghost predicate Reactivated(ops: seq<Op>) {
    LatestStatus(ops) in {Some("active"), Some("trialing")} && IsTruthy(LatestPrice(ops))
  }

  lemma {:induction false} StatusAndPriceAfterDeletion(row: Option<Row>, tenantId: string, ops: seq<Op>)
    requires row.Some? ==> row.value.status == "canceled" && row.value.priceId == None
    ensures var after := AfterOps(row, tenantId, ops);
            if after.None? then LatestPrice(ops).None? && LatestStatus(ops) in {None, Some("canceled")}
            else
              && after.value.priceId == LatestPrice(ops)
              && (if LatestStatus(ops) in {None, Some("canceled")} then after.value.status in {"canceled", "inactive"}
                  else LatestStatus(ops) == Some(after.value.status))
  {
    if ops != [] {
      StatusAndPriceAfterDeletion(row, tenantId, ops[..|ops| - 1]);
    }
  }

  lemma ActiveIffReactivated(row: Option<Row>, tenantId: string, ops: seq<Op>)
    requires row.Some? ==> row.value.status == "canceled" && row.value.priceId == None
    ensures HasActiveSubscription(AfterOps(row, tenantId, ops)) <==> Reactivated(ops)
  {
    StatusAndPriceAfterDeletion(row, tenantId, ops);
  }

  /**
   * From a deletion on, a tenant has the free limits and no assistant, until the status set last is an active one
   * and a price has been set since; both directions.
   */
  lemma FloorAfterDeletion(s: State, plans: Catalogue, deletion: Input, inputs: seq<Input>, tenantId: string, isTierName: string -> bool)
    requires OneRowPerTenant(s.rows)
    requires var write := WriteOf(s, plans, deletion);
             write.Some? && write.value.tenantId == tenantId && write.value.op.Cancel?
    ensures var after := Handle(s, plans, deletion);
            var ops := OpsFor(after, plans, inputs, tenantId);
            var row := RowOf(Process(after, plans, inputs).rows, tenantId);
            && (HasActiveSubscription(row) <==> Reactivated(ops))
            && (!Reactivated(ops) ==> ResolveFeatureLimits(row, plans) == FREE_FLOOR && !ResolveAiChatbotAccess(row, plans, isTierName))
  {
    var write := WriteOf(s, plans, deletion).value;
    HandleWrites(s, plans, deletion);
    WriteKeepsOneRow(s.rows, write.tenantId, write.op);
    WriteOnRow(s.rows, write.tenantId, write.op, tenantId);
    var after := Handle(s, plans, deletion);
    RowIsItsHistory(after, plans, inputs, tenantId);
    ActiveIffReactivated(RowOf(after.rows, tenantId), tenantId, OpsFor(after, plans, inputs, tenantId));
  }

  /** No single upsert has to set both: a price under an inactive status, then an active status without a price. */
  lemma ReactivationInTwoParts(row: Row, priceId: string)
    requires row.status == "canceled" && row.priceId == None && priceId != ""
    ensures var none := Update(None, None, None, None, None, None, None, None);
            var priced := Upsert(none.(status := Some("past_due"), priceId := Some(priceId)));
            var active := Upsert(none.(status := Some("active")));
            && !HasActiveSubscription(AfterOps(Some(row), row.tenantId, [priced]))
            && !HasActiveSubscription(AfterOps(Some(row), row.tenantId, [active]))
            && HasActiveSubscription(AfterOps(Some(row), row.tenantId, [priced, active]))
  {
    var none := Update(None, None, None, None, None, None, None, None);
    var priced := Upsert(none.(status := Some("past_due"), priceId := Some(priceId)));
    var active := Upsert(none.(status := Some("active")));
    assert [priced, active][..1] == [priced];
  }

  /** A plan found in the catalogue decides alone: the plan key mirrored in the row has no say. */
  lemma CatalogueDecidesAiAccess(row: Row, plans: Catalogue, planKey: string, isTierName: string -> bool)
    requires HasActiveSubscription(Some(row)) && row.priceId.value in plans
    ensures ResolveAiChatbotAccess(Some(row.(planKey := planKey)), plans, isTierName)
            == ResolveAiChatbotAccess(Some(row), plans, isTierName)
    ensures var features := plans[row.priceId.value].features;
            features.Some? && features.value.aiChatbot.Some? ==>
              ResolveAiChatbotAccess(Some(row), plans, isTierName) == features.value.aiChatbot.value
  {
  }
}
