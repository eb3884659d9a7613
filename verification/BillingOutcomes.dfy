/** What each webhook leaves of the subscription row and announces, field by field, and what a row entitles to. */
module BillingOutcomes {
  import opened Common
  import opened BillingModel

  // ----- rows -----

  /** The tenant's row, or the first one that holds the subscription. */
  ghost function StoredRow(rows: Rows, tenantId: string): Option<Row> {
    if rows == [] then None else if rows[0].tenantId == tenantId then Some(rows[0]) else StoredRow(rows[1..], tenantId)
  }

  ghost function HolderOf(rows: Rows, subscriptionId: string): Option<Row> {
    if rows == [] then None
    else if rows[0].subscriptionId == Some(subscriptionId) then Some(rows[0])
    else HolderOf(rows[1..], subscriptionId)
  }

  /** The tenant's row replaced, or a new one at the end. */
  ghost function WithRow(rows: Rows, row: Row): Rows {
    if rows == [] then [row]
    else if rows[0].tenantId == row.tenantId then [row] + rows[1..]
    else [rows[0]] + WithRow(rows[1..], row)
  }

  ghost function RowOrDefault(rows: Rows, tenantId: string): Row {
    var row := StoredRow(rows, tenantId);
    if row.Some? then row.value else Row(tenantId, "", "inactive", None, None, None, None, None, false)
  }

  lemma {:induction false} RowIsStored(rows: Rows, tenantId: string)
    ensures RowOf(rows, tenantId) == StoredRow(rows, tenantId)
    ensures var i := FindByTenantId(rows, tenantId);
            && (i < |rows| <==> StoredRow(rows, tenantId).Some?) && (i < |rows| ==> StoredRow(rows, tenantId) == Some(rows[i]))
  {
    if rows != [] && rows[0].tenantId != tenantId {
      RowIsStored(rows[1..], tenantId);
    }
  }

  lemma {:induction false} HolderIsFound(rows: Rows, subscriptionId: string)
    ensures var i := FindBySubscriptionId(rows, subscriptionId);
            && (i < |rows| <==> HolderOf(rows, subscriptionId).Some?) && (i < |rows| ==> HolderOf(rows, subscriptionId) == Some(rows[i]))
  {
    if rows != [] && rows[0].subscriptionId != Some(subscriptionId) {
      HolderIsFound(rows[1..], subscriptionId);
    }
  }

  lemma {:induction false} PlacedRow(rows: Rows, row: Row)
    ensures var i := FindByTenantId(rows, row.tenantId);
            WithRow(rows, row) == if i < |rows| then rows[i := row] else rows + [row]
  {
    if rows != [] && rows[0].tenantId != row.tenantId {
      PlacedRow(rows[1..], row);
      assert rows == [rows[0]] + rows[1..];
    }
  }

  lemma {:induction false} StoredAfter(rows: Rows, row: Row)
    ensures StoredRow(WithRow(rows, row), row.tenantId) == Some(row)
    ensures forall other :: other != row.tenantId ==> StoredRow(WithRow(rows, row), other) == StoredRow(rows, other)
  {
    if rows != [] && rows[0].tenantId != row.tenantId {
      StoredAfter(rows[1..], row);
      assert WithRow(rows, row)[1..] == WithRow(rows[1..], row);
    }
  }

  /** An upsert sets the fields given and keeps the others, on the tenant's row or on one with the defaults. */
  lemma UpsertOutcome(rows: Rows, tenantId: string, update: Update)
    ensures var was := RowOrDefault(rows, tenantId);
            Write(rows, tenantId, Upsert(update))
            == WithRow(rows, Row(
                 tenantId,
                 if update.planKey.Some? then update.planKey.value else was.planKey,
                 if update.status.Some? then update.status.value else was.status,
                 if update.customerId.Some? then update.customerId else was.customerId,
                 if update.subscriptionId.Some? then update.subscriptionId else was.subscriptionId,
                 if update.priceId.Some? then update.priceId else was.priceId,
                 if update.periodStart.Some? then update.periodStart else was.periodStart,
                 if update.periodEnd.Some? then update.periodEnd else was.periodEnd,
                 if update.cancelAtPeriodEnd.Some? then update.cancelAtPeriodEnd.value else was.cancelAtPeriodEnd))
  {
    RowIsStored(rows, tenantId);
    PlacedRow(rows, Updated(RowOrDefault(rows, tenantId), update));
  }

  /** A cancellation keeps plan key, start and, if none is sent, end; it makes no row. */
  ghost function AfterCancellation(rows: Rows, tenantId: string, customerId: string, end: Option<int>): Rows {
    var row := StoredRow(rows, tenantId);
    if row.None? then rows
    else
      WithRow(rows, Row(tenantId, row.value.planKey, "canceled", Some(customerId), None, None, row.value.periodStart,
                        if end.Some? then end else row.value.periodEnd, false))
  }

  lemma CancelOutcome(rows: Rows, tenantId: string, customerId: string, end: Option<int>)
    ensures Write(rows, tenantId, Cancel(customerId, end)) == AfterCancellation(rows, tenantId, customerId, end)
  {
    RowIsStored(rows, tenantId);
    if StoredRow(rows, tenantId).Some? {
      PlacedRow(rows, Canceled(StoredRow(rows, tenantId).value, customerId, end));
    }
  }

  // ----- events -----

  /** Milliseconds, for seconds within the range of dates. */
  ghost function Moment(seconds: Option<int>): Option<int> {
    if seconds.Some? && -8640000000000 <= seconds.value <= 8640000000000 then Some(1000 * seconds.value) else None
  }

  ghost predicate IsGiven(s: Option<string>) {
    s.Some? && s.value != ""
  }

  ghost function NameOf(plans: Catalogue, priceId: string): Option<string> {
    if priceId in plans then Some(plans[priceId].name) else None
  }

  /** The row that a subscription makes of the one before: only a missing price, start or end is kept. */
  ghost function SubscribedRow(was: Row, tenantId: string, subscription: StripeSubscription, planKey: string, priceId: Option<string>): Row {
    var start, end := Moment(subscription.currentPeriodStart), Moment(subscription.currentPeriodEnd);
    Row(tenantId, planKey, subscription.status, Some(subscription.customer), Some(subscription.id),
        if priceId.Some? then priceId else was.priceId,
        if start.Some? then start else was.periodStart,
        if end.Some? then end else was.periodEnd,
        subscription.cancelAtPeriodEnd)
  }

  lemma SubscribedOutcome(rows: Rows, tenantId: string, subscription: StripeSubscription, planKey: string, priceId: Option<string>)
    ensures Write(rows, tenantId, Upsert(SubscriptionUpdate(subscription, planKey, priceId)))
            == WithRow(rows, SubscribedRow(RowOrDefault(rows, tenantId), tenantId, subscription, planKey, priceId))
    ensures RowOf(WithRow(rows, SubscribedRow(RowOrDefault(rows, tenantId), tenantId, subscription, planKey, priceId)), tenantId)
            == Some(SubscribedRow(RowOrDefault(rows, tenantId), tenantId, subscription, planKey, priceId))
  {
    var row := SubscribedRow(RowOrDefault(rows, tenantId), tenantId, subscription, planKey, priceId);
    UpsertOutcome(rows, tenantId, SubscriptionUpdate(subscription, planKey, priceId));
    StoredAfter(rows, row);
    RowIsStored(WithRow(rows, row), tenantId);
  }

  /** An event that its delivery claims and whose handler meets no fault. */
  ghost predicate IsClaimed(s: State, input: Input) {
    input.Webhook? && !input.insertFails && input.event.id !in s.claims && input.fault.NoFault?
  }

  /** A checkout writes the row of its tenant from the subscription it retrieved. */
  lemma CheckoutOutcome(s: State, plans: Catalogue, input: Input)
    requires IsClaimed(s, input) && input.event.body.CheckoutSessionCompleted?
    ensures var body, after := input.event.body, Handle(s, plans, input);
            var tenantId := if IsGiven(body.metadataTenantId) then body.metadataTenantId else body.clientReferenceId;
            && after.claims == s.claims + {input.event.id}
            && if body.mode == Some("subscription") && IsGiven(tenantId) && IsGiven(body.subscriptionId)
                  && body.retrieved.Some? && IsGiven(body.retrieved.value.priceId)
               then
                 var subscription, priceId := body.retrieved.value, body.retrieved.value.priceId.value;
                 var name := NameOf(plans, priceId);
                 var row := SubscribedRow(RowOrDefault(s.rows, tenantId.value), tenantId.value, subscription,
                                          if name.Some? then name.value else priceId, Some(priceId));
                 && after.rows == WithRow(s.rows, row)
                 && after.notices == s.notices + (if row.periodEnd.None? then []
                                                  else [CheckoutNotice(tenantId.value, subscription.id, row.periodEnd.value, name)])
               else after.rows == s.rows && after.notices == s.notices
  {
    var body := input.event.body;
    var tenantId := if IsGiven(body.metadataTenantId) then body.metadataTenantId else body.clientReferenceId;
    if IsGiven(tenantId) && body.retrieved.Some? && IsGiven(body.retrieved.value.priceId) {
      var priceId := body.retrieved.value.priceId.value;
      var name := NameOf(plans, priceId);
      SubscribedOutcome(s.rows, tenantId.value, body.retrieved.value, if name.Some? then name.value else priceId, Some(priceId));
    }
  }

  /** The tenant of a subscription: the one its customer names, or the one whose row holds it; none if the lookup fails. */
  ghost function SubscriptionTenant(rows: Rows, subscription: StripeSubscription, customer: CustomerLookup): Option<string> {
    var holder := HolderOf(rows, subscription.id);
    match customer
    case LookupFails => None
    case CustomerFound(named) =>
      if IsGiven(named) then named
      else if holder.Some? && holder.value.tenantId != "" then Some(holder.value.tenantId) else None
    case CustomerDeleted => if holder.Some? && holder.value.tenantId != "" then Some(holder.value.tenantId) else None
  }

  lemma TenantIsSpelled(rows: Rows, subscription: StripeSubscription, customer: CustomerLookup)
    ensures TenantOf(rows, subscription, customer) == SubscriptionTenant(rows, subscription, customer)
  {
    HolderIsFound(rows, subscription.id);
  }

  /** The price sent, if any, names the plan; else the holder's plan key is kept. */
  ghost function UpdatedPlanKey(rows: Rows, plans: Catalogue, subscription: StripeSubscription): string {
    var holder := HolderOf(rows, subscription.id);
    if !IsGiven(subscription.priceId) then (if holder.Some? then holder.value.planKey else "")
    else if subscription.priceId.value in plans then plans[subscription.priceId.value].name
    else subscription.priceId.value
  }

  ghost function UpdatedRow(rows: Rows, plans: Catalogue, subscription: StripeSubscription, tenantId: string): Row {
    SubscribedRow(RowOrDefault(rows, tenantId), tenantId, subscription, UpdatedPlanKey(rows, plans, subscription),
                  if IsGiven(subscription.priceId) then subscription.priceId else None)
  }

  lemma UpdateDecision(rows: Rows, plans: Catalogue, body: Body)
    requires body.SubscriptionUpdated?
    ensures var subscription := body.subscription;
            var tenantId := SubscriptionTenant(rows, subscription, body.customer);
            Decide(rows, plans, body)
            == if tenantId.None? then None
               else Some(Decision(tenantId.value, Upsert(SubscriptionUpdate(
                           subscription, UpdatedPlanKey(rows, plans, subscription),
                           if IsGiven(subscription.priceId) then subscription.priceId else None))))
  {
    TenantIsSpelled(rows, body.subscription, body.customer);
    HolderIsFound(rows, body.subscription.id);
  }

  /** An update writes the row of that tenant, and announces the end of its period, or else of the holder's. */
  lemma UpdateOutcome(s: State, plans: Catalogue, input: Input)
    requires IsClaimed(s, input) && input.event.body.SubscriptionUpdated?
    ensures var subscription, after := input.event.body.subscription, Handle(s, plans, input);
            var tenantId := SubscriptionTenant(s.rows, subscription, input.event.body.customer);
            && after.claims == s.claims + {input.event.id}
            && if tenantId.None? then after.rows == s.rows && after.notices == s.notices
               else
                 var holder := HolderOf(s.rows, subscription.id);
                 var row := UpdatedRow(s.rows, plans, subscription, tenantId.value);
                 var end := if row.periodEnd.Some? then row.periodEnd
                            else if holder.Some? then holder.value.periodEnd else None;
                 && after.rows == WithRow(s.rows, row)
                 && after.notices == s.notices + (if end.None? then []
                      else [UpdatedNotice(tenantId.value, subscription.id, end.value, subscription.cancelAtPeriodEnd)])
  {
    var body := input.event.body;
    var tenantId := SubscriptionTenant(s.rows, body.subscription, body.customer);
    UpdateDecision(s.rows, plans, body);
    if tenantId.Some? {
      HolderIsFound(s.rows, body.subscription.id);
      SubscribedOutcome(s.rows, tenantId.value, body.subscription, UpdatedPlanKey(s.rows, plans, body.subscription),
                        if IsGiven(body.subscription.priceId) then body.subscription.priceId else None);
    }
  }

  /** A deletion cancels the row of that tenant and announces the end. */
  lemma DeletionOutcome(s: State, plans: Catalogue, input: Input)
    requires IsClaimed(s, input) && input.event.body.SubscriptionDeleted?
    ensures var subscription, after := input.event.body.subscription, Handle(s, plans, input);
            var tenantId := SubscriptionTenant(s.rows, subscription, input.event.body.customer);
            && after.claims == s.claims + {input.event.id}
            && if tenantId.None? then after.rows == s.rows && after.notices == s.notices
               else
                 && after.rows == AfterCancellation(s.rows, tenantId.value, subscription.customer, Moment(subscription.currentPeriodEnd))
                 && after.notices == s.notices + [EndedNotice(tenantId.value, subscription.id)]
  {
    var subscription := input.event.body.subscription;
    var tenantId := SubscriptionTenant(s.rows, subscription, input.event.body.customer);
    TenantIsSpelled(s.rows, subscription, input.event.body.customer);
    if tenantId.Some? {
      CancelOutcome(s.rows, tenantId.value, subscription.customer, Moment(subscription.currentPeriodEnd));
    }
  }

  /** The tenant that pays an invoice, as its customer names it. */
  ghost function Payer(invoiceCustomer: Option<string>, customer: CustomerLookup): Option<string> {
    if IsGiven(invoiceCustomer) && customer.CustomerFound? && IsGiven(customer.tenantId) then customer.tenantId else None
  }

  /** Invoices are announced to their payer and change no row; other events do nothing. */
  lemma InvoiceOutcome(s: State, plans: Catalogue, input: Input)
    requires IsClaimed(s, input)
    ensures var body, after := input.event.body, Handle(s, plans, input);
            match body
            case InvoicePaymentFailed(invoiceId, invoiceCustomer, customer) =>
              var payer := Payer(invoiceCustomer, customer);
              after == State(s.claims + {input.event.id}, s.rows,
                             s.notices + if payer.Some? then [InvoiceFailedNotice(payer.value, invoiceId)] else [])
            case InvoicePaid(invoiceId, invoiceCustomer, customer) =>
              var payer := Payer(invoiceCustomer, customer);
              after == State(s.claims + {input.event.id}, s.rows,
                             s.notices + if payer.Some? then [InvoicePaidNotice(payer.value, invoiceId)] else [])
            case OtherEvent => after == State(s.claims + {input.event.id}, s.rows, s.notices)
            case _ => true
  {
  }

  /** A fault leaves out the notice, and one ahead of the write leaves out the write as well; the claim stays. */
  lemma FaultOutcome(s: State, plans: Catalogue, input: Input)
    requires input.Webhook? && !input.insertFails && input.event.id !in s.claims
    ensures var after := Handle(s, plans, input);
            var smooth := Handle(s, plans, input.(fault := NoFault));
            match input.fault
            case NoFault => after == smooth
            case BeforeWrite => after == State(smooth.claims, s.rows, s.notices)
            case BeforeNotice => after == State(smooth.claims, smooth.rows, s.notices)
  {
  }

  /** A delivery that does not claim its event does nothing at all, and a direct write is an upsert. */
  lemma OtherInputsOutcome(s: State, plans: Catalogue, input: Input)
    ensures input.Webhook? && (input.insertFails || input.event.id in s.claims) ==> Handle(s, plans, input) == s
    ensures input.Direct? ==> Handle(s, plans, input) == s.(rows := Write(s.rows, input.tenantId, Upsert(input.update)))
  {
  }

  // ----- entitlements -----

  /** A status that is paid for, and a price to look up. */
  ghost predicate IsPaying(row: Option<Row>) {
    row.Some? && (row.value.status == "active" || row.value.status == "trialing") && IsGiven(row.value.priceId)
  }

  /** One workspace, three users, fifty files and 500 MB, unless a paid plan of the catalogue says otherwise. */
  lemma LimitsOutcome(row: Option<Row>, plans: Catalogue)
    ensures ResolveFeatureLimits(row, plans)
            == if IsPaying(row) && row.value.priceId.value in plans && plans[row.value.priceId.value].features.Some?
               then plans[row.value.priceId.value].features.value.limits
               else Limits(Some(1), Some(3), Some(50), Some(500))
  {
  }

  /** The assistant: by the plan's own flag, else by the name of the plan, else by the plan key kept in the row. */
  lemma AccessOutcome(row: Option<Row>, plans: Catalogue, isTierName: string -> bool)
    ensures ResolveAiChatbotAccess(row, plans, isTierName) <==>
            && IsPaying(row)
            && var priceId := row.value.priceId.value;
               if priceId !in plans then row.value.planKey != "" && isTierName(row.value.planKey)
               else if plans[priceId].features.Some? && plans[priceId].features.value.aiChatbot.Some?
               then plans[priceId].features.value.aiChatbot.value
               else isTierName(plans[priceId].name)
  {
  }
}
