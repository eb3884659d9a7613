/** Stripe webhooks, the subscription row they maintain, and what the row entitles a tenant to. */
module BillingModel {
  import opened Common

  /** A row of the collection; the database keeps `tenantId` unique, but a lookup by subscription is not. */
  datatype Row = Row(
    tenantId: string,
    planKey: string,
    status: string,
    customerId: Option<string>,
    subscriptionId: Option<string>,
    priceId: Option<string>,
    periodStart: Option<int>,
    periodEnd: Option<int>,
    cancelAtPeriodEnd: bool)

  /** In the order of insertion. */
  type Rows = seq<Row>

  datatype Update = Update(
    status: Option<string>,
    planKey: Option<string>,
    customerId: Option<string>,
    subscriptionId: Option<string>,
    priceId: Option<string>,
    periodStart: Option<int>,
    periodEnd: Option<int>,
    cancelAtPeriodEnd: Option<bool>)

  /** The two kinds of write: an upsert of the fields given, and the mark of a deleted subscription. */
  datatype Op = Upsert(update: Update) | Cancel(customerId: string, periodEnd: Option<int>)

  // ----- the catalogue -----

  datatype Limits = Limits(
    maxWorkspaces: Option<nat>,
    maxUsers: Option<nat>,
    maxFileAssets: Option<nat>,
    maxStorageMb: Option<nat>)

  datatype Features = Features(limits: Limits, aiChatbot: Option<bool>)
  datatype Plan = Plan(name: string, features: Option<Features>)

  /** Plans by price id, archived ones included. */
  type Catalogue = map<string, Plan>

  // ----- events -----

  datatype StripeSubscription = StripeSubscription(
    id: string,
    customer: string,
    status: string,
    currentPeriodStart: Option<int>,
    currentPeriodEnd: Option<int>,
    cancelAtPeriodEnd: bool,
    priceId: Option<string>)

  /** What Stripe answers when the customer is retrieved. */
  datatype CustomerLookup = LookupFails | CustomerDeleted | CustomerFound(tenantId: Option<string>)

  datatype Body =
    | CheckoutSessionCompleted(mode: Option<string>, metadataTenantId: Option<string>, clientReferenceId: Option<string>,
                               subscriptionId: Option<string>, retrieved: Option<StripeSubscription>)
    | SubscriptionUpdated(subscription: StripeSubscription, customer: CustomerLookup)
    | SubscriptionDeleted(subscription: StripeSubscription, customer: CustomerLookup)
    | InvoicePaymentFailed(invoiceId: string, invoiceCustomer: Option<string>, customer: CustomerLookup)
    | InvoicePaid(invoiceId: string, invoiceCustomer: Option<string>, customer: CustomerLookup)
    | OtherEvent

  datatype Event = Event(id: string, body: Body)

  datatype Notice =
    | CheckoutNotice(tenantId: string, subscriptionId: string, periodEnd: int, planName: Option<string>)
    | UpdatedNotice(tenantId: string, subscriptionId: string, periodEnd: int, cancelAtPeriodEnd: bool)
    | EndedNotice(tenantId: string, subscriptionId: string)
    | InvoiceFailedNotice(tenantId: string, invoiceId: string)
    | InvoicePaidNotice(tenantId: string, invoiceId: string)

  datatype State = State(claims: set<string>, rows: Rows, notices: seq<Notice>)

  // ----- the rows -----

  /** The place of the first row that matches, or the number of rows. */
  function FindByTenantId(rows: Rows, tenantId: string): (i: nat)
    ensures i <= |rows|
    ensures i < |rows| ==> rows[i].tenantId == tenantId
    ensures forall k :: 0 <= k < i ==> rows[k].tenantId != tenantId
  {
    if rows == [] || rows[0].tenantId == tenantId then 0 else 1 + FindByTenantId(rows[1..], tenantId)
  }

  function FindBySubscriptionId(rows: Rows, subscriptionId: string): (i: nat)
    ensures i <= |rows|
    ensures i < |rows| ==> rows[i].subscriptionId == Some(subscriptionId)
  {
    if rows == [] || rows[0].subscriptionId == Some(subscriptionId) then 0 else 1 + FindBySubscriptionId(rows[1..], subscriptionId)
  }

  function RowOf(rows: Rows, tenantId: string): Option<Row> {
    var i := FindByTenantId(rows, tenantId);
    if i < |rows| then Some(rows[i]) else None
  }

  /** The schema's defaults. */
  function NewRow(tenantId: string): Row {
    Row(tenantId, "", "inactive", None, None, None, None, None, false)
  }

  function Or<T>(given: Option<T>, kept: Option<T>): Option<T> {
    if given.Some? then given else kept
  }

  function Updated(row: Row, update: Update): Row {
    Row(row.tenantId, update.planKey.GetOr(row.planKey), update.status.GetOr(row.status),
        Or(update.customerId, row.customerId), Or(update.subscriptionId, row.subscriptionId), Or(update.priceId, row.priceId),
        Or(update.periodStart, row.periodStart), Or(update.periodEnd, row.periodEnd),
        update.cancelAtPeriodEnd.GetOr(row.cancelAtPeriodEnd))
  }

  function Canceled(row: Row, customerId: string, periodEnd: Option<int>): Row {
    row.(status := "canceled", customerId := Some(customerId), cancelAtPeriodEnd := false,
         periodEnd := Or(periodEnd, row.periodEnd), subscriptionId := None, priceId := None)
  }

  function Write(rows: Rows, tenantId: string, op: Op): Rows {
    var i := FindByTenantId(rows, tenantId);
    match op
    case Upsert(update) =>
      if i < |rows| then rows[i := Updated(rows[i], update)] else rows + [Updated(NewRow(tenantId), update)]
    case Cancel(customerId, periodEnd) =>
      if i < |rows| then rows[i := Canceled(rows[i], customerId, periodEnd)] else rows
  }

  // ----- the handlers -----

  const MAX_TIME: int := 8640000000000000

  function StripeUnixToDate(seconds: Option<int>): Option<int> {
    if seconds.Some? && -MAX_TIME <= seconds.value * 1000 <= MAX_TIME then Some(seconds.value * 1000) else None
  }

  predicate IsTruthy(s: Option<string>) {
    s.Some? && s.value != ""
  }

  function PlanAt(plans: Catalogue, priceId: string): Option<Plan> {
    if priceId in plans then Some(plans[priceId]) else None
  }

  function SubscriptionUpdate(subscription: StripeSubscription, planKey: string, priceId: Option<string>): Update {
    Update(Some(subscription.status), Some(planKey), Some(subscription.customer), Some(subscription.id), priceId,
           StripeUnixToDate(subscription.currentPeriodStart), StripeUnixToDate(subscription.currentPeriodEnd),
           Some(subscription.cancelAtPeriodEnd))
  }

  /** The tenant a subscription belongs to: by its customer, else by the row that holds the subscription. */
  function TenantOf(rows: Rows, subscription: StripeSubscription, customer: CustomerLookup): Option<string> {
    var i := FindBySubscriptionId(rows, subscription.id);
    if customer.LookupFails? then None
    else if customer.CustomerFound? && IsTruthy(customer.tenantId) then customer.tenantId
    else if i < |rows| && rows[i].tenantId != "" then Some(rows[i].tenantId)
    else None
  }

  datatype Decision = Decision(tenantId: string, op: Op)

  /** The one write that an event makes to the rows, if it makes any. */
  function Decide(rows: Rows, plans: Catalogue, body: Body): Option<Decision> {
    match body
    case CheckoutSessionCompleted(mode, metadataTenantId, clientReferenceId, subscriptionId, retrieved) =>
      var tenantId := if IsTruthy(metadataTenantId) then metadataTenantId else clientReferenceId;
      if mode != Some("subscription") || !IsTruthy(tenantId) || !IsTruthy(subscriptionId)
         || retrieved.None? || !IsTruthy(retrieved.value.priceId)
      then None
      else
        var priceId := retrieved.value.priceId.value;
        var plan := PlanAt(plans, priceId);
        Some(Decision(tenantId.value,
                      Upsert(SubscriptionUpdate(retrieved.value, if plan.Some? then plan.value.name else priceId, Some(priceId)))))
    case SubscriptionUpdated(subscription, customer) =>
      var tenantId := TenantOf(rows, subscription, customer);
      if tenantId.None? then None
      else
        var i := FindBySubscriptionId(rows, subscription.id);
        var planKey := if i < |rows| then rows[i].planKey else "";
        if !IsTruthy(subscription.priceId) then
          Some(Decision(tenantId.value, Upsert(SubscriptionUpdate(subscription, planKey, None))))
        else
          var plan := PlanAt(plans, subscription.priceId.value);
          Some(Decision(tenantId.value,
                        Upsert(SubscriptionUpdate(subscription, if plan.Some? then plan.value.name else subscription.priceId.value,
                                                  subscription.priceId))))
    case SubscriptionDeleted(subscription, customer) =>
      var tenantId := TenantOf(rows, subscription, customer);
      if tenantId.None? then None
      else Some(Decision(tenantId.value, Cancel(subscription.customer, StripeUnixToDate(subscription.currentPeriodEnd))))
    case _ => None
  }

  function InvoiceTenant(invoiceCustomer: Option<string>, customer: CustomerLookup): Option<string> {
    if IsTruthy(invoiceCustomer) && customer.CustomerFound? && IsTruthy(customer.tenantId) then customer.tenantId else None
  }

  /** The end of the period in the tenant's row once the write is made, else `otherwise`. */
  function PeriodEndAfter(rows: Rows, decision: Decision, otherwise: Option<int>): Option<int> {
    var row := RowOf(Write(rows, decision.tenantId, decision.op), decision.tenantId);
    Or(if row.Some? then row.value.periodEnd else None, otherwise)
  }

  /** What is announced: for subscription events only once the write is made, and only if an end of period is known. */
  function Announce(rows: Rows, plans: Catalogue, body: Body): seq<Notice> {
    var decision := Decide(rows, plans, body);
    match body
    case CheckoutSessionCompleted(_, _, _, _, retrieved) =>
      if decision.None? || retrieved.None? then []
      else
        var end := PeriodEndAfter(rows, decision.value, None);
        var plan := PlanAt(plans, retrieved.value.priceId.GetOr(""));
        if end.None? then []
        else
          [CheckoutNotice(decision.value.tenantId, retrieved.value.id, end.value,
                          if plan.Some? then Some(plan.value.name) else None)]
    case SubscriptionUpdated(subscription, _) =>
      if decision.None? then []
      else
        var i := FindBySubscriptionId(rows, subscription.id);
        var end := PeriodEndAfter(rows, decision.value, if i < |rows| then rows[i].periodEnd else None);
        if end.None? then []
        else [UpdatedNotice(decision.value.tenantId, subscription.id, end.value, subscription.cancelAtPeriodEnd)]
    case SubscriptionDeleted(subscription, _) =>
      if decision.None? then [] else [EndedNotice(decision.value.tenantId, subscription.id)]
    case InvoicePaymentFailed(invoiceId, invoiceCustomer, customer) =>
      var tenantId := InvoiceTenant(invoiceCustomer, customer);
      if tenantId.Some? then [InvoiceFailedNotice(tenantId.value, invoiceId)] else []
    case InvoicePaid(invoiceId, invoiceCustomer, customer) =>
      var tenantId := InvoiceTenant(invoiceCustomer, customer);
      if tenantId.Some? then [InvoicePaidNotice(tenantId.value, invoiceId)] else []
    case OtherEvent => []
  }

  /**
   * An error that the database throws into the handler, at an access before the write takes effect or behind it.
   * Like a lookup at Stripe that fails, it is logged and swallowed.
   */
  datatype Fault = NoFault | BeforeWrite | BeforeNotice

  function Dispatch(s: State, plans: Catalogue, body: Body, fault: Fault): State {
    if fault.BeforeWrite? then s
    else
      var decision := Decide(s.rows, plans, body);
      var rows := if decision.None? then s.rows else Write(s.rows, decision.value.tenantId, decision.value.op);
      s.(rows := rows, notices := s.notices + if fault.BeforeNotice? then [] else Announce(s.rows, plans, body))
  }

  /**
   * What reaches the store: a delivered webhook, or a write of the billing service itself. Any failure to insert
   * the claim, not only a duplicate one, reads as "not ours"; `insertFails` stands for the other failures.
   */
  datatype Input =
    | Webhook(event: Event, insertFails: bool, fault: Fault)
    | Direct(tenantId: string, update: Update)

  predicate Claims(claims: set<string>, input: Input) {
    input.Webhook? && !input.insertFails && input.event.id !in claims
  }

  function Handle(s: State, plans: Catalogue, input: Input): State {
    match input
    case Direct(tenantId, update) => s.(rows := Write(s.rows, tenantId, Upsert(update)))
    case Webhook(event, _, fault) =>
      if Claims(s.claims, input) then Dispatch(s.(claims := s.claims + {event.id}), plans, event.body, fault) else s
  }

  function Process(s: State, plans: Catalogue, inputs: seq<Input>): State {
    if inputs == [] then s else Handle(Process(s, plans, inputs[..|inputs| - 1]), plans, inputs[|inputs| - 1])
  }

  // ----- entitlements -----

  const FREE_FLOOR := Limits(Some(1), Some(3), Some(50), Some(500))

  predicate HasActiveSubscription(row: Option<Row>) {
    row.Some? && row.value.status in {"active", "trialing"} && IsTruthy(row.value.priceId)
  }

  function ResolveFeatureLimits(row: Option<Row>, plans: Catalogue): Limits {
    if !HasActiveSubscription(row) then FREE_FLOOR
    else
      var plan := PlanAt(plans, row.value.priceId.value);
      if plan.None? || plan.value.features.None? then FREE_FLOOR else plan.value.features.value.limits
  }

  function ResolveAiChatbotAccess(row: Option<Row>, plans: Catalogue, isTierName: string -> bool): bool {
    if !HasActiveSubscription(row) then false
    else
      var plan := PlanAt(plans, row.value.priceId.value);
      if plan.Some? then
        var flag := if plan.value.features.Some? then plan.value.features.value.aiChatbot else None;
        flag.GetOr(isTierName(plan.value.name))
      else
        row.value.planKey != "" && isTierName(row.value.planKey)
  }
}
