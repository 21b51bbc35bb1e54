/**
  * `OrderHandler` (bot/handlers/order_handler.py): the six-step order
  * conversation. Each handler reads one message, validates it, stores one
  * key of `user_data` and returns the next state, or returns its own state
  * and stores nothing; the last step inserts the order, attempts the admin
  * notification, clears `user_data` and ends the conversation.
  */
module OrderFlow {
  import opened Text
  import opened Civil
  import opened Validators
  import opened Tables
  import opened BotConfig
  import opened Conversation
  import opened Notifications
  import Listing

  /** The keys the steps before the last store, in order. */
  const OrderSteps: seq<string> := [CustomerNameKey, CompanyNameKey, ProductTypeKey, QuantityKey, DeliveryDateKey]

  /** The only key whose value may be `None`: a skipped company. */
  const NullableKeys: set<string> := {CompanyNameKey}

  /** The replies that mean "no company", after `lower()` and `strip()`. */
  predicate SkipsCompany(text: string) {
    Trim(Lower(text)) in ["skip", "none", "personal", "-"]
  }

  /**
    * What the company step stores: `None` for a skip word, the validated
    * name otherwise, and nothing (`None` here) when validation fails.
    */
  function CompanyStep(text: string): (r: Option<Value>)
    ensures SkipsCompany(text) ==> r == Some(Null)
    ensures !SkipsCompany(text) ==> (r.Some? <==> ValidateCompanyName(text).ok)
    ensures !SkipsCompany(text) && r.Some? ==> r.value == Str(Trim(text))
  {
    if SkipsCompany(text) then Some(Null)
    else
      var v := ValidateCompanyName(text);
      if v.ok then Some(Str(v.value)) else None
  }

  /**
    * The service the product step selects from the stripped text `t`: a
    * number picks that entry of the list (1-based) and nothing else; any
    * other text goes through the name matching of the validators.
    */
  function ProductChoice(t: string, names: seq<string>): (r: Option<string>)
    ensures r.Some? ==> r.value in names
    ensures ParseInt(t).Some? ==> (r.Some? <==> 1 <= ParseInt(t).value <= |names|)
    ensures ParseInt(t).None? ==> (r.Some? <==> ServiceVerdict(t, names).ok)
  {
    match ParseInt(t)
    case Some(n) => if 0 <= n - 1 < |names| then Some(names[n - 1]) else None
    case None =>
      var v := ServiceVerdict(t, names);
      if v.ok then Some(v.value) else None
  }

  /** Typing the position of a service in the list selects that service. */
  lemma ProductByNumber(n: int, names: seq<string>)
    requires 1 <= n <= |names|
    ensures ProductChoice(IntToString(n), names) == Some(names[n - 1])
  {
    IntToStringRoundTrip(n);
  }

  /**
    * A number past the end of the list selects nothing, with no fallback to
    * name matching: not even a service whose name is that number.
    */
  lemma ProductNumberNoFallback(n: int, names: seq<string>)
    requires n > |names| && IntToString(n) in names
    ensures ProductChoice(IntToString(n), names) == None
  {
    IntToStringRoundTrip(n);
  }

  /** `user_data.get('company_name')`. */
  function CompanyOf(data: map<string, Value>): Value {
    if CompanyNameKey in data then data[CompanyNameKey] else Null
  }

  /** The keys the final step reads with `[...]` are there and none of them is `None`. */
  predicate Ready(data: map<string, Value>) {
    && CustomerNameKey in data && ProductTypeKey in data && QuantityKey in data && DeliveryDateKey in data
    && data[CustomerNameKey] != Null && data[ProductTypeKey] != Null
    && data[QuantityKey] != Null && data[DeliveryDateKey] != Null
  }

  /** Whether the final step stores an order: no `KeyError`, no `IntegrityError`, no failed insert. */
  predicate Places(data: map<string, Value>, fault: Fault) {
    Ready(data) && fault != StoreFault
  }

  /** The row `create_order` inserts for the collected data. */
  function OrderFor(data: map<string, Value>, contact: string, userId: int): OrderRow
    requires Ready(data)
  {
    OrderRow(data[CustomerNameKey], CompanyOf(data), data[ProductTypeKey], data[QuantityKey],
             data[DeliveryDateKey], Str(contact), Pending, Some(userId), Null)
  }

  /** The admin notification for the order stored under `id`. */
  function NoticeFor(id: int, data: map<string, Value>, contact: string): Notice
    requires Ready(data)
  {
    NewOrder(id, data[CustomerNameKey], CompanyOf(data), data[ProductTypeKey], data[QuantityKey],
             data[DeliveryDateKey], Str(contact))
  }

  /** Once the five earlier steps have run, the final step has everything it reads. */
  lemma CollectedIsReady(data: map<string, Value>)
    requires Holds(data, OrderSteps, 5, NullableKeys)
    ensures Ready(data)
  {
    var keys := Stored(OrderSteps, 5);
    assert OrderSteps[..5] == OrderSteps;
    assert CustomerNameKey == OrderSteps[0] && ProductTypeKey == OrderSteps[2];
    assert QuantityKey == OrderSteps[3] && DeliveryDateKey == OrderSteps[4];
  }

  /** While the flow waits in step `state`, `user_data` holds exactly what the earlier steps stored. */
  ghost predicate InProgress(state: int, data: map<string, Value>) {
    InStep(state, WaitingName, OrderSteps, NullableKeys, data)
  }

  class OrderConversation {
    const ctx: UserContext
    const orders: OrderModel
    const services: ServiceModel
    const notifier: Notifier
    const rule: ContactRule
    /** The state the conversation handler recorded from the last step. */
    var state: int

    constructor(ctx: UserContext, orders: OrderModel, services: ServiceModel, notifier: Notifier, rule: ContactRule)
      ensures this.ctx == ctx && this.orders == orders && this.services == services
      ensures this.notifier == notifier && this.rule == rule && state == End
    {
      this.ctx := ctx;
      this.orders := orders;
      this.services := services;
      this.notifier := notifier;
      this.rule := rule;
      state := End;
    }


    /** `start_order_conversation`. */
    method StartOrderConversation() returns (next: int)
      modifies this`state, ctx
      ensures next == WaitingName && state == next && ctx.userData == map[]
      ensures InProgress(next, ctx.userData)
    {
      ctx.userData := map[];
      state := WaitingName;
      return WaitingName;
    }

    /** `handle_name`. */
    method HandleName(text: string) returns (next: int)
      modifies this`state, ctx
      ensures state == next
      ensures var r := ValidateName(text);
              if r.ok then next == WaitingCompany && ctx.userData == old(ctx.userData)[CustomerNameKey := Str(r.value)]
              else next == WaitingName && ctx.userData == old(ctx.userData)
      ensures InProgress(WaitingName, old(ctx.userData)) ==> InProgress(next, ctx.userData)
    {
      var r := ValidateName(text);
      if !r.ok {
        state := WaitingName;
        return WaitingName;
      }
      Record(WaitingName, Str(r.value));
      return WaitingCompany;
    }

    /** `handle_company`: a skip word stores `None`, anything else must pass `validate_company_name`. */
    method HandleCompany(text: string) returns (next: int)
      modifies this`state, ctx
      ensures state == next
      ensures var c := CompanyStep(text);
              if c.Some? then next == WaitingProduct && ctx.userData == old(ctx.userData)[CompanyNameKey := c.value]
              else next == WaitingCompany && ctx.userData == old(ctx.userData)
      ensures InProgress(WaitingCompany, old(ctx.userData)) ==> InProgress(next, ctx.userData)
    {
      var c := CompanyStep(text);
      if c.None? {
        state := WaitingCompany;
        return WaitingCompany;
      }
      Record(WaitingCompany, c.value);
      return WaitingProduct;
    }

    /**
      * `handle_product`. `offered` is the list of active service names the
      * step matches against: every active service's name once, in name order.
      */
    method HandleProduct(text: string) returns (next: int, offered: seq<string>)
      requires services.Valid()
      modifies this`state, ctx
      ensures state == next
      ensures OffersActive(offered)
      ensures var choice := ProductChoice(Trim(text), offered);
              if choice.Some? && choice.value != "" then
                next == WaitingQuantity && ctx.userData == old(ctx.userData)[ProductTypeKey := Str(choice.value)]
              else next == WaitingProduct && ctx.userData == old(ctx.userData)
      ensures InProgress(WaitingProduct, old(ctx.userData)) ==> InProgress(next, ctx.userData)
    {
      offered := OfferedServices();
      var selected := SelectProduct(Trim(text), offered);
      if selected.None? || selected.value == "" {
        state := WaitingProduct;
        return WaitingProduct, offered;
      }
      Record(WaitingProduct, Str(selected.value));
      return WaitingQuantity, offered;
    }

    /** Every active service's name once, in strictly increasing name order. */
    ghost predicate OffersActive(offered: seq<string>)
      reads services
    {
      && (forall name :: name in offered <==> exists id :: id in services.rows && services.rows[id].isActive && services.rows[id].name == name)
      && (forall i, j :: 0 <= i < j < |offered| ==> Listing.TextBefore(offered[i], offered[j]))
    }

    /** `[service['name'] for service in service_model.get_active_services()]`. */
    method OfferedServices() returns (offered: seq<string>)
      requires services.Valid()
      ensures OffersActive(offered)
    {
      var ids := services.GetActiveServices();
      offered := services.Names(ids);
      OfferedNames(ids, offered);
    }

    /** The `try`/`except ValueError` of the product step. */
    method SelectProduct(t: string, offered: seq<string>) returns (selected: Option<string>)
      ensures selected == ProductChoice(t, offered)
    {
      selected := None;
      var n := ParseInt(t);
      if n.Some? {
        var index := n.value - 1;
        if 0 <= index < |offered| {
          selected := Some(offered[index]);
        }
      } else {
        var ok, matched := ValidateServiceSelection(t, offered);
        if ok {
          selected := Some(matched);
        }
      }
    }

    /** The names of the listed services are exactly the active names. */
    lemma OfferedNames(ids: seq<int>, offered: seq<string>)
      requires Listing.Selects(ids, services.rows, (r: ServiceRow) => r.isActive)
      requires |offered| == |ids| && forall i :: 0 <= i < |ids| ==> offered[i] == services.rows[ids[i]].name
      requires forall i, j :: 0 <= i < j < |ids| ==> Listing.TextBefore(services.rows[ids[i]].name, services.rows[ids[j]].name)
      ensures OffersActive(offered)
    {
      forall name | name in offered
        ensures exists id :: id in services.rows && services.rows[id].isActive && services.rows[id].name == name
      {
        var i :| 0 <= i < |offered| && offered[i] == name;
        var id := ids[i];
        assert id in services.rows && services.rows[id].isActive && services.rows[id].name == name;
      }
      forall name | exists id :: id in services.rows && services.rows[id].isActive && services.rows[id].name == name
        ensures name in offered
      {
        var id :| id in services.rows && services.rows[id].isActive && services.rows[id].name == name;
        assert id in ids;
        var i :| 0 <= i < |ids| && ids[i] == id;
        assert offered[i] == name;
      }
    }

    /** `handle_quantity`. */
    method HandleQuantity(text: string) returns (next: int)
      modifies this`state, ctx
      ensures state == next
      ensures var r := ValidateQuantity(text);
              if r.ok then next == WaitingDelivery && ctx.userData == old(ctx.userData)[QuantityKey := Num(r.value)]
              else next == WaitingQuantity && ctx.userData == old(ctx.userData)
      ensures InProgress(WaitingQuantity, old(ctx.userData)) ==> InProgress(next, ctx.userData)
    {
      var r := ValidateQuantity(text);
      if !r.ok {
        state := WaitingQuantity;
        return WaitingQuantity;
      }
      Record(WaitingQuantity, Num(r.value));
      return WaitingDelivery;
    }

    /** `handle_delivery_date`, with the clock reading `now`. */
    method HandleDeliveryDate(text: string, now: Moment) returns (next: int)
      requires IsValidDate(now.date)
      modifies this`state, ctx
      ensures state == next
      ensures var r := DeliveryVerdict(now, text);
              if r.ok then next == WaitingContact && ctx.userData == old(ctx.userData)[DeliveryDateKey := Str(r.value)]
              else next == WaitingDelivery && ctx.userData == old(ctx.userData)
      ensures InProgress(WaitingDelivery, old(ctx.userData)) ==> InProgress(next, ctx.userData)
    {
      var ok, formatted := ValidateDeliveryDate(text, now);
      if !ok {
        state := WaitingDelivery;
        return WaitingDelivery;
      }
      Record(WaitingDelivery, Str(formatted));
      return WaitingContact;
    }

    /**
      * `handle_contact`: on a valid contact, one `create_order` call with the
      * collected fields and the user's id, then at most one notification,
      * only for a stored order; `user_data` is cleared and the conversation
      * ends whether or not the order was stored.
      */
    method HandleContact(text: string, userId: int, fault: Fault) returns (next: int)
      requires orders.Valid()
      modifies this`state, ctx, orders, notifier
      ensures orders.Valid() && state == next
      ensures !ValidateContact(rule, text).ok ==>
                && next == WaitingContact && ctx.userData == old(ctx.userData)
                && orders.rows == old(orders.rows) && orders.nextId == old(orders.nextId)
                && notifier.attempts == old(notifier.attempts)
      ensures ValidateContact(rule, text).ok ==> next == End && ctx.userData == map[]
      ensures ValidateContact(rule, text).ok ==>
                Submitted(old(ctx.userData), ValidateContact(rule, text).value, userId, fault,
                          old(orders.rows), old(orders.nextId), old(notifier.attempts))
      ensures InProgress(WaitingContact, old(ctx.userData)) && fault != StoreFault ==> Places(old(ctx.userData), fault)
    {
      if InProgress(WaitingContact, ctx.userData) {
        CollectedIsReady(ctx.userData);
      }
      var c := ValidateContact(rule, text);
      if !c.ok {
        state := WaitingContact;
        return WaitingContact;
      }
      ghost var before := ctx.userData;
      ctx.userData := ctx.userData[ContactInfoKey := Str(c.value)];
      SubmitOrder(ctx.userData, before, c.value, userId, fault);
      ctx.userData := map[];
      state := End;
      return End;
    }

    /**
      * What the final step did to the table and the notifications: with
      * `Places`, one new row under the next id and, without a fault, one
      * notification for it; otherwise neither.
      */
    ghost predicate Submitted(data: map<string, Value>, contact: string, userId: int, fault: Fault,
                              rows0: map<int, OrderRow>, next0: int, attempts0: seq<Notice>)
      reads orders, notifier
    {
      if Places(data, fault) then
        && orders.rows == rows0[next0 := OrderFor(data, contact, userId)]
        && next0 !in rows0 && orders.nextId == next0 + 1
        && notifier.attempts == attempts0 + (if fault == NoFault then [NoticeFor(next0, data, contact)] else [])
      else
        orders.rows == rows0 && orders.nextId == next0 && notifier.attempts == attempts0
    }

    /** The `try` block of the final step, on `user_data` with the contact stored. */
    method SubmitOrder(data: map<string, Value>, ghost before: map<string, Value>, contact: string, userId: int, fault: Fault)
      requires orders.Valid()
      requires data == before[ContactInfoKey := Str(contact)]
      modifies orders, notifier
      ensures orders.Valid()
      ensures Submitted(before, contact, userId, fault, old(orders.rows), old(orders.nextId), old(notifier.attempts))
    {
      if fault != StoreFault && CustomerNameKey in data && ProductTypeKey in data && QuantityKey in data && DeliveryDateKey in data {
        assert data[CustomerNameKey] == before[CustomerNameKey] && data[ProductTypeKey] == before[ProductTypeKey];
        assert data[QuantityKey] == before[QuantityKey] && data[DeliveryDateKey] == before[DeliveryDateKey];
        var company := if CompanyNameKey in data then data[CompanyNameKey] else Null;
        assert company == CompanyOf(before);
        var ok, id := orders.CreateOrder(data[CustomerNameKey], company, data[ProductTypeKey], data[QuantityKey],
                                         data[DeliveryDateKey], Str(contact), Some(userId), Null);
        if ok && fault == NoFault {
          notifier.Notify(NewOrder(id, data[CustomerNameKey], company, data[ProductTypeKey], data[QuantityKey],
                                   data[DeliveryDateKey], Str(contact)));
        }
      } else {
        assert !Places(before, fault);
      }
    }

    /** Stores the value step `step` collected under its key and moves on to the next step. */
    method Record(step: int, v: Value)
      requires WaitingName <= step < WaitingContact && (v != Null || OrderSteps[step - WaitingName] in NullableKeys)
      modifies this`state, ctx
      ensures state == step + 1 && ctx.userData == old(ctx.userData)[OrderSteps[step - WaitingName] := v]
      ensures InProgress(step, old(ctx.userData)) ==> InProgress(step + 1, ctx.userData)
    {
      if InProgress(step, ctx.userData) {
        Advance(step, WaitingName, OrderSteps, NullableKeys, ctx.userData, v);
      }
      ctx.userData := ctx.userData[OrderSteps[step - WaitingName] := v];
      state := step + 1;
    }

    /** `cancel_order`: from any state, nothing stored. */
    method CancelOrder() returns (next: int)
      modifies this`state, ctx
      ensures next == End && state == End && ctx.userData == map[]
    {
      ctx.userData := map[];
      state := End;
      return End;
    }
  }
}
