/** The webhook service and the two collections it writes, changed in place. */
module BillingServices {
  import opened Common
  import Model = BillingModel
  import Safety = BillingSafety

  class StripeWebhookEventRepository {
    var claims: set<string>

    constructor ()
      ensures claims == {}
    {
      claims := {};
    }

    /** Any failure of the insert, a duplicate id or another one, answers `false`. */
    method ClaimEvent(eventId: string, insertFails: bool) returns (owns: bool)
      modifies this
      ensures owns == (!insertFails && eventId !in old(claims))
      ensures claims == if owns then old(claims) + {eventId} else old(claims)
    {
      owns := !insertFails && eventId !in claims;
      if owns {
        claims := claims + {eventId};
      }
    }
  }

  class SubscriptionRepository {
    var rows: Model.Rows

    constructor ()
      ensures rows == []
    {
      rows := [];
    }

    method FindByTenantId(tenantId: string) returns (found: Option<Model.Row>)
      ensures found == Model.RowOf(rows, tenantId)
    {
      var i := Model.FindByTenantId(rows, tenantId);
      found := if i < |rows| then Some(rows[i]) else None;
    }

    method FindByStripeSubscriptionId(subscriptionId: string) returns (found: Option<Model.Row>)
      ensures var i := Model.FindBySubscriptionId(rows, subscriptionId);
              found == if i < |rows| then Some(rows[i]) else None
    {
      var i := Model.FindBySubscriptionId(rows, subscriptionId);
      found := if i < |rows| then Some(rows[i]) else None;
    }

    /** The fields given are set one by one; the others keep their values. */
    method Filled(was: Model.Row, input: Model.Update) returns (row: Model.Row)
      ensures row == Model.Updated(was, input)
    {
      row := was;
      if input.status.Some? { row := row.(status := input.status.value); }
      if input.planKey.Some? { row := row.(planKey := input.planKey.value); }
      if input.customerId.Some? { row := row.(customerId := input.customerId); }
      if input.subscriptionId.Some? { row := row.(subscriptionId := input.subscriptionId); }
      if input.priceId.Some? { row := row.(priceId := input.priceId); }
      if input.periodStart.Some? { row := row.(periodStart := input.periodStart); }
      if input.periodEnd.Some? { row := row.(periodEnd := input.periodEnd); }
      if input.cancelAtPeriodEnd.Some? { row := row.(cancelAtPeriodEnd := input.cancelAtPeriodEnd.value); }
    }

    method UpsertForTenant(tenantId: string, input: Model.Update) returns (row: Model.Row)
      modifies this
      ensures rows == Model.Write(old(rows), tenantId, Model.Upsert(input))
      ensures Model.RowOf(rows, tenantId) == Some(row)
    {
      var i := Model.FindByTenantId(rows, tenantId);
      row := Filled(if i < |rows| then rows[i] else Model.NewRow(tenantId), input);
      Safety.UpsertedRow(rows, tenantId, input);
      if i < |rows| {
        rows := rows[i := row];
      } else {
        rows := rows + [row];
      }
    }

    method SetStripeCustomerId(tenantId: string, customerId: string) returns (row: Model.Row)
      modifies this
      ensures rows == Model.Write(old(rows), tenantId, Model.Upsert(
                        Model.Update(None, None, Some(customerId), None, None, None, None, None)))
    {
      row := UpsertForTenant(tenantId, Model.Update(None, None, Some(customerId), None, None, None, None, None));
    }

    /** Only an existing row is marked. */
    method MarkCanceledByTenant(tenantId: string, customerId: string, periodEnd: Option<int>)
      modifies this
      ensures rows == Model.Write(old(rows), tenantId, Model.Cancel(customerId, periodEnd))
    {
      var i := Model.FindByTenantId(rows, tenantId);
      if i < |rows| {
        var row := rows[i].(status := "canceled", customerId := Some(customerId), cancelAtPeriodEnd := false);
        if periodEnd.Some? {
          row := row.(periodEnd := periodEnd);
        }
        rows := rows[i := row.(subscriptionId := None, priceId := None)];
      }
    }
  }

  class StripeWebhookService {
    const events: StripeWebhookEventRepository
    const subscriptions: SubscriptionRepository
    const plans: Model.Catalogue
    var notices: seq<Model.Notice>

    constructor (events: StripeWebhookEventRepository, subscriptions: SubscriptionRepository, plans: Model.Catalogue)
      ensures this.events == events && this.subscriptions == subscriptions && this.plans == plans && notices == []
    {
      this.events, this.subscriptions, this.plans := events, subscriptions, plans;
      notices := [];
    }

    ghost function State(): Model.State
      reads this, events, subscriptions
    {
      Model.State(events.claims, subscriptions.rows, notices)
    }

    /** What the handler throws is swallowed, and the claim stays. */
    method HandleEvent(event: Model.Event, insertFails: bool, fault: Model.Fault)
      modifies this, events, subscriptions
      ensures State() == Model.Handle(old(State()), plans, Model.Webhook(event, insertFails, fault))
    {
      var owns := events.ClaimEvent(event.id, insertFails);
      if !owns {
        return;
      }
      Dispatch(event.body, fault);
    }

    method Dispatch(body: Model.Body, fault: Model.Fault)
      modifies this, subscriptions
      ensures State() == Model.Dispatch(old(State()), plans, body, fault)
    {
      match body
      case CheckoutSessionCompleted(_, _, _, _, _) => OnCheckoutSessionCompleted(body, fault);
      case SubscriptionUpdated(_, _) => OnSubscriptionUpdated(body, fault);
      case SubscriptionDeleted(_, _) => OnSubscriptionDeleted(body, fault);
      case InvoicePaymentFailed(invoiceId, invoiceCustomer, customer) =>
        var tenantId := Model.InvoiceTenant(invoiceCustomer, customer);
        if tenantId.Some? && fault.NoFault? {
          notices := notices + [Model.InvoiceFailedNotice(tenantId.value, invoiceId)];
        }
      case InvoicePaid(invoiceId, invoiceCustomer, customer) =>
        var tenantId := Model.InvoiceTenant(invoiceCustomer, customer);
        if tenantId.Some? && fault.NoFault? {
          notices := notices + [Model.InvoicePaidNotice(tenantId.value, invoiceId)];
        }
      case OtherEvent =>
    }

    method OnCheckoutSessionCompleted(body: Model.Body, fault: Model.Fault)
      requires body.CheckoutSessionCompleted?
      modifies this, subscriptions
      ensures State() == Model.Dispatch(old(State()), plans, body, fault)
    {
      if body.mode != Some("subscription") {
        return;
      }
      var tenantId := if Model.IsTruthy(body.metadataTenantId) then body.metadataTenantId else body.clientReferenceId;
      if !Model.IsTruthy(tenantId) || !Model.IsTruthy(body.subscriptionId) || body.retrieved.None? {
        return;
      }
      var subscription := body.retrieved.value;
      if !Model.IsTruthy(subscription.priceId) {
        return;
      }
      if fault.BeforeWrite? {
        return;
      }
      var priceId := subscription.priceId.value;
      var plan := Model.PlanAt(plans, priceId);
      var updated := subscriptions.UpsertForTenant(
        tenantId.value,
        Model.SubscriptionUpdate(subscription, if plan.Some? then plan.value.name else priceId, Some(priceId)));
      if updated.periodEnd.Some? && fault.NoFault? {
        notices := notices + [Model.CheckoutNotice(tenantId.value, subscription.id, updated.periodEnd.value,
                                                   if plan.Some? then Some(plan.value.name) else None)];
      }
    }

    method OnSubscriptionUpdated(body: Model.Body, fault: Model.Fault)
      requires body.SubscriptionUpdated?
      modifies this, subscriptions
      ensures State() == Model.Dispatch(old(State()), plans, body, fault)
    {
      var subscription := body.subscription;
      var existing := subscriptions.FindByStripeSubscriptionId(subscription.id);
      var tenantId := Model.TenantOf(subscriptions.rows, subscription, body.customer);
      if tenantId.None? {
        return;
      }
      if fault.BeforeWrite? {
        return;
      }
      var planKey := if existing.Some? then existing.value.planKey else "";
      var priceId := None;
      if Model.IsTruthy(subscription.priceId) {
        priceId := subscription.priceId;
        var plan := Model.PlanAt(plans, priceId.value);
        planKey := if plan.Some? then plan.value.name else priceId.value;
      }
      var updated := subscriptions.UpsertForTenant(tenantId.value, Model.SubscriptionUpdate(subscription, planKey, priceId));
      var end := Model.Or(updated.periodEnd, if existing.Some? then existing.value.periodEnd else None);
      if end.Some? && fault.NoFault? {
        notices := notices + [Model.UpdatedNotice(tenantId.value, subscription.id, end.value, subscription.cancelAtPeriodEnd)];
      }
    }

    method OnSubscriptionDeleted(body: Model.Body, fault: Model.Fault)
      requires body.SubscriptionDeleted?
      modifies this, subscriptions
      ensures State() == Model.Dispatch(old(State()), plans, body, fault)
    {
      var tenantId := Model.TenantOf(subscriptions.rows, body.subscription, body.customer);
      if tenantId.None? {
        return;
      }
      if fault.BeforeWrite? {
        return;
      }
      subscriptions.MarkCanceledByTenant(tenantId.value, body.subscription.customer,
                                         Model.StripeUnixToDate(body.subscription.currentPeriodEnd));
      if fault.NoFault? {
        notices := notices + [Model.EndedNotice(tenantId.value, body.subscription.id)];
      }
    }
  }
}
