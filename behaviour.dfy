/** What each view does to the store, stated against the open order it acts
    on: which quantities and memberships change, by how much, and that nothing
    else does. */
module Behaviour {
  import opened Records
  import opened Lookup
  import opened Views
  import opened Invariant

  /** `st'` holds the OrderItems of `st`, quantities unchanged, plus the one
      `get_or_create` makes for `slug` (at the default quantity) if there was
      none. */
  ghost predicate OnlyGetOrCreate(st: Store, st': Store, slug: Slug)
  {
    && st'.orderItems.Keys == st.orderItems.Keys + {slug}
    && (forall s :: s in st.orderItems ==> st'.orderItems[s] == st.orderItems[s])
    && (slug !in st.orderItems ==> st'.orderItems[slug] == st.defaultQuantity)
  }

  /** No open order holds the item (there is no open order, or it does not
      contain the item). */
  ghost predicate NotInOpenOrder(st: Store, slug: Slug)
  {
    forall i :: 0 <= i < |st.orders| && !st.orders[i].ordered ==> slug !in st.orders[i].items
  }

  // ---------------------------------------------------------------------
  // Cart views

  /** An unknown slug is a 404 for every cart view, with no change. */
  lemma UnknownItemChangesNothing(st: Store, slug: Slug)
    requires slug !in st.catalog
    ensures AddToCart(st, slug) == Step(st, ItemNotFound)
    ensures RemoveFromCart(st, slug) == Step(st, ItemNotFound)
    ensures RemoveSingleFromCart(st, slug) == Step(st, ItemNotFound)
  {
  }

  /** Adding an item the open order already holds raises its quantity by
      exactly one and changes nothing else. */
  lemma AddToCartIncrementsHeldItem(st: Store, slug: Slug, i: nat)
    requires Inv(st)
    requires i < |st.orders| && !st.orders[i].ordered && slug in st.orders[i].items
    ensures slug in st.orderItems
    ensures AddToCart(st, slug) == Step(st.(orderItems := st.orderItems[slug := st.orderItems[slug] + 1]), QuantityUpdated)
  {
    assert OrderConsistent(st, st.orders[i]);
    FirstOpenIsTheOpenOrder(st.orders, i);
  }

  /** Adding an item the open order does not hold attaches its OrderItem with
      the quantity `get_or_create` gave it: the default for a new OrderItem,
      the old quantity for one removed earlier. Nothing else changes. */
  lemma AddToCartAttachesItem(st: Store, slug: Slug, i: nat)
    requires Inv(st) && slug in st.catalog
    requires i < |st.orders| && !st.orders[i].ordered && slug !in st.orders[i].items
    ensures var r := AddToCart(st, slug);
      && r.response == AddedToCart
      && r.store == st.(orderItems := r.store.orderItems,
                        orders := st.orders[i := st.orders[i].(items := st.orders[i].items + {slug})])
      && OnlyGetOrCreate(st, r.store, slug)
  {
    FirstOpenIsTheOpenOrder(st.orders, i);
  }

  /** Adding with no open order creates exactly one order: open, with no
      address, coupon or payment, holding only this item. It becomes the open
      order, and it is the only one. */
  lemma AddToCartCreatesOrder(st: Store, slug: Slug)
    requires Inv(st) && slug in st.catalog
    requires forall j :: 0 <= j < |st.orders| ==> st.orders[j].ordered
    ensures var r := AddToCart(st, slug);
      && r.response == AddedToCart
      && r.store == st.(orderItems := r.store.orderItems,
                        orders := st.orders + [Order({slug}, false, None, None, None)])
      && OnlyGetOrCreate(st, r.store, slug)
      && FirstOpen(r.store.orders) == Some(|st.orders|)
      && AtMostOneOpen(r.store.orders)
  {
    AppendOpensOrder(st.orders, NewOrder(slug));
  }

  /** Removing an item the open order holds detaches it; its quantity and
      every other OrderItem stay as they were. */
  lemma RemoveFromCartDetaches(st: Store, slug: Slug, i: nat)
    requires Inv(st)
    requires i < |st.orders| && !st.orders[i].ordered && slug in st.orders[i].items
    ensures RemoveFromCart(st, slug).response == RemovedFromCart
    ensures RemoveFromCart(st, slug).store
         == st.(orders := st.orders[i := st.orders[i].(items := st.orders[i].items - {slug})])
  {
    assert OrderConsistent(st, st.orders[i]);
    FirstOpenIsTheOpenOrder(st.orders, i);
  }

  /** Removing (or removing one of) an item no open order holds changes no
      order and no quantity; only `get_or_create` may add an OrderItem. */
  lemma RemoveAbsentChangesNoOrder(st: Store, slug: Slug)
    requires Inv(st) && slug in st.catalog && NotInOpenOrder(st, slug)
    ensures var r := RemoveFromCart(st, slug);
      && r.store.orders == st.orders && r.store.addresses == st.addresses
      && OnlyGetOrCreate(st, r.store, slug)
      && r.response == (if FirstOpen(st.orders).None? then NoActiveOrder else NotInCart)
    ensures RemoveSingleFromCart(st, slug) == RemoveFromCart(st, slug)
  {
  }

  /** Removing one of an item the open order holds: above 1 the quantity
      drops by exactly one and the item stays attached; at 1 the item is
      detached with its quantity untouched. */
  lemma RemoveSingleFromCartStep(st: Store, slug: Slug, i: nat)
    requires Inv(st)
    requires i < |st.orders| && !st.orders[i].ordered && slug in st.orders[i].items
    ensures slug in st.orderItems
    ensures RemoveSingleFromCart(st, slug).response == QuantityUpdated
    ensures st.orderItems[slug] > 1 ==>
      RemoveSingleFromCart(st, slug).store == st.(orderItems := st.orderItems[slug := st.orderItems[slug] - 1])
    ensures st.orderItems[slug] == 1 ==>
      RemoveSingleFromCart(st, slug).store
      == st.(orders := st.orders[i := st.orders[i].(items := st.orders[i].items - {slug})])
  {
    assert OrderConsistent(st, st.orders[i]);
    FirstOpenIsTheOpenOrder(st.orders, i);
  }

  /** Removing an item and adding it back restores the store exactly: the
      OrderItem returns with the quantity it had. */
  lemma RemoveThenAddRestores(st: Store, slug: Slug, i: nat)
    requires Inv(st)
    requires i < |st.orders| && !st.orders[i].ordered && slug in st.orders[i].items
    ensures AddToCart(RemoveFromCart(st, slug).store, slug) == Step(st, AddedToCart)
  {
    assert OrderConsistent(st, st.orders[i]);
    RemoveFromCartDetaches(st, slug, i);
    RemoveFromCartKeepsInv(st, slug);
    var st1 := RemoveFromCart(st, slug).store;
    assert st.orders[i].items - {slug} + {slug} == st.orders[i].items;
    AddToCartAttachesItem(st1, slug, i);
    assert st1.orders[i := st1.orders[i].(items := st1.orders[i].items + {slug})] == st.orders;
  }

  /** Adding an item the open order holds and then removing one of it
      restores the store exactly. */
  lemma AddThenRemoveSingleRestores(st: Store, slug: Slug, i: nat)
    requires Inv(st)
    requires i < |st.orders| && !st.orders[i].ordered && slug in st.orders[i].items
    ensures RemoveSingleFromCart(AddToCart(st, slug).store, slug) == Step(st, QuantityUpdated)
  {
    AddToCartIncrementsHeldItem(st, slug, i);
    AddToCartKeepsInv(st, slug);
    var st1 := AddToCart(st, slug).store;
    RemoveSingleFromCartStep(st1, slug, i);
    assert st1.orderItems[slug := st1.orderItems[slug] - 1] == st.orderItems;
  }

  /** From an empty cart, adding the same item twice gives one OrderItem with
      the default quantity plus one, in one new open order. */
  lemma AddSameItemTwice(st: Store, slug: Slug)
    requires Inv(st) && slug in st.catalog && slug !in st.orderItems
    requires forall j :: 0 <= j < |st.orders| ==> st.orders[j].ordered
    ensures var st2 := AddToCart(AddToCart(st, slug).store, slug).store;
      && st2.orderItems == st.orderItems[slug := st.defaultQuantity + 1]
      && st2.orders == st.orders + [Order({slug}, false, None, None, None)]
  {
    AddToCartCreatesOrder(st, slug);
    AddToCartKeepsInv(st, slug);
    var st1 := AddToCart(st, slug).store;
    AddToCartIncrementsHeldItem(st1, slug, |st.orders|);
  }

  // ---------------------------------------------------------------------
  // Checkout

  /** Checkout needs an open order and a valid form; otherwise nothing
      changes. */
  lemma CheckoutRejects(st: Store, form: Option<AddressForm>)
    requires FirstOpen(st.orders).None? || form.None?
    ensures CheckoutPost(st, form).store == st
    ensures CheckoutPost(st, form).response
         == (if FirstOpen(st.orders).None? then OrderLookupFailed else CheckoutFormInvalid)
  {
  }

  /** Checkout without `use_default` saves the form's address (default when
      `save_info` is set), links it to the open order and redirects by the
      payment option. */
  lemma CheckoutLinksNewAddress(st: Store, f: AddressForm, i: nat)
    requires Inv(st)
    requires i < |st.orders| && !st.orders[i].ordered && !f.useDefault
    ensures var r := CheckoutPost(st, Some(f));
      && r.store == st.(addresses := st.addresses + [Address(f.street, f.apartment, f.country, f.zip, f.saveInfo)],
                        orders := st.orders[i := st.orders[i].(address := Some(|st.addresses|))])
      && r.response == (if f.paymentOption == "S" then ToPayment else InvalidPaymentOption)
  {
    FirstOpenIsTheOpenOrder(st.orders, i);
  }

  /** Checkout with `use_default` saves and links the form's address, then
      relinks the order to the user's only default address. When there is no
      default address, or several, the lookup fails after the new address
      was saved and linked, and that write stays. */
  lemma CheckoutUsesDefault(st: Store, f: AddressForm, i: nat)
    requires Inv(st)
    requires i < |st.orders| && !st.orders[i].ordered && f.useDefault
    ensures var r := CheckoutPost(st, Some(f));
      && r.store.addresses == st.addresses + [FormAddress(f)]
      && r.store.orderItems == st.orderItems
      && |r.store.orders| == |st.orders|
      && (forall j :: 0 <= j < |st.orders| && j != i ==> r.store.orders[j] == st.orders[j])
      && match DefaultAddress(r.store.addresses)
         case Found(k) =>
           && r.store.addresses[k].isDefault
           && r.store.orders[i] == st.orders[i].(address := Some(k))
           && r.response == PaymentOptionResponse(f)
         case NotFound =>
           && r.store.orders[i] == st.orders[i].(address := Some(|st.addresses|))
           && r.response == DefaultAddressMissing
         case Several =>
           && r.store.orders[i] == st.orders[i].(address := Some(|st.addresses|))
           && r.response == DefaultAddressAmbiguous
  {
    FirstOpenIsTheOpenOrder(st.orders, i);
  }

  /** With both `save_info` and `use_default` set, the order keeps the new
      address when it is the user's first default one; when the user already
      had a default address the lookup finds two and fails. */
  lemma CheckoutSaveAndUseDefault(st: Store, f: AddressForm, i: nat)
    requires Inv(st)
    requires i < |st.orders| && !st.orders[i].ordered && f.useDefault && f.saveInfo
    ensures (forall k :: 0 <= k < |st.addresses| ==> !st.addresses[k].isDefault) ==>
      && CheckoutPost(st, Some(f)).store.orders[i].address == Some(|st.addresses|)
      && CheckoutPost(st, Some(f)).response == PaymentOptionResponse(f)
    ensures (exists k :: 0 <= k < |st.addresses| && st.addresses[k].isDefault) ==>
      CheckoutPost(st, Some(f)).response == DefaultAddressAmbiguous
  {
    CheckoutUsesDefault(st, f, i);
    DefaultAfterSavingDefault(st.addresses, FormAddress(f));
  }

  // ---------------------------------------------------------------------
  // Coupon

  /** A known coupon code is attached to the open order; nothing else
      changes. */
  lemma CouponAttaches(st: Store, c: CouponCode, i: nat)
    requires Inv(st) && c in st.coupons
    requires i < |st.orders| && !st.orders[i].ordered
    ensures CouponPost(st, Some(c))
         == Step(st.(orders := st.orders[i := st.orders[i].(coupon := Some(c))]), CouponAdded)
  {
    FirstOpenIsTheOpenOrder(st.orders, i);
  }

  /** An invalid form, an unknown code or a missing open order changes
      nothing. */
  lemma CouponRejects(st: Store, code: Option<CouponCode>)
    requires code.None? || code.value !in st.coupons || FirstOpen(st.orders).None?
    ensures CouponPost(st, code).store == st
    ensures CouponPost(st, code).response == (if code.None? then CouponFormInvalid else CouponLookupFailed)
  {
  }

  // ---------------------------------------------------------------------
  // Payment

  /** A successful charge finalises the open order with the payment attached;
      afterwards the open-order lookup finds nothing. */
  lemma PaymentSuccessFinalises(st: Store, chargeId: string, total: real, i: nat)
    requires Inv(st)
    requires i < |st.orders| && !st.orders[i].ordered
    ensures var r := PaymentPost(st, Charged(chargeId), total);
      && r.response == PaymentSucceeded
      && r.store == st.(orders := st.orders[i := st.orders[i].(ordered := true, payment := Some(Payment(chargeId, total)))])
      && FirstOpen(r.store.orders) == None
  {
    FirstOpenIsTheOpenOrder(st.orders, i);
    FinaliseKeepsInv(st, i, Payment(chargeId, total));
  }

  /** Every gateway failure leaves the store as it was, so the order stays
      open, and answers with that failure's message. */
  lemma GatewayFailureLeavesOrderOpen(st: Store, gateway: GatewayResult, total: real)
    requires !gateway.Charged?
    ensures PaymentPost(st, gateway, total).store == st
    ensures FirstOpen(st.orders).Some? ==>
      PaymentPost(st, gateway, total).response == PaymentFailed(FailureMessage(gateway))
  {
  }

  /** `payment_complete` finalises the open order the client names with the
      charge id the client sends, unchecked; afterwards the open-order lookup
      finds nothing. Naming any other order changes nothing. */
  lemma PaymentCompleteFinalises(st: Store, orderId: nat, payId: string, total: real)
    requires Inv(st)
    ensures var r := PaymentComplete(st, orderId, payId, total);
      if orderId < |st.orders| && !st.orders[orderId].ordered then
        && r.response == PaymentSucceeded
        && r.store == st.(orders := st.orders[orderId := st.orders[orderId].(ordered := true, payment := Some(Payment(payId, total)))])
        && FirstOpen(r.store.orders) == None
      else
        r == Step(st, OrderLookupFailed)
  {
    if orderId < |st.orders| && !st.orders[orderId].ordered {
      FinaliseKeepsInv(st, orderId, Payment(payId, total));
    }
  }

  /** OrderItems are never marked ordered, so after an order is paid, adding
      one of its items again reattaches the same OrderItem to a new open
      order with the quantity it had, and the paid order still names it. */
  lemma ReorderReusesOrderItem(st: Store, chargeId: string, total: real, slug: Slug, i: nat)
    requires Inv(st)
    requires i < |st.orders| && !st.orders[i].ordered && slug in st.orders[i].items
    ensures var paid := PaymentPost(st, Charged(chargeId), total).store;
      var again := AddToCart(paid, slug).store;
      && slug in st.orderItems
      && again.orderItems == st.orderItems
      && again.orders[i].ordered && slug in again.orders[i].items
      && again.orders[|st.orders|].items == {slug} && !again.orders[|st.orders|].ordered
  {
    assert OrderConsistent(st, st.orders[i]);
    PaymentSuccessFinalises(st, chargeId, total, i);
    PaymentPostKeepsInv(st, Charged(chargeId), total);
    var paid := PaymentPost(st, Charged(chargeId), total).store;
    assert forall j :: 0 <= j < |paid.orders| ==> paid.orders[j].ordered;
    AddToCartCreatesOrder(paid, slug);
  }

  /** Because the paid order and the new cart share that OrderItem, adding
      the item a second time also raises the quantity the paid order records
      for it by one. */
  lemma ReorderGrowsPaidOrderQuantity(st: Store, chargeId: string, total: real, slug: Slug, i: nat)
    requires Inv(st)
    requires i < |st.orders| && !st.orders[i].ordered && slug in st.orders[i].items
    ensures var paid := PaymentPost(st, Charged(chargeId), total).store;
      var twice := AddToCart(AddToCart(paid, slug).store, slug).store;
      && slug in st.orderItems
      && i < |twice.orders| && twice.orders[i].ordered && slug in twice.orders[i].items
      && twice.orderItems == st.orderItems[slug := st.orderItems[slug] + 1]
  {
    ReorderReusesOrderItem(st, chargeId, total, slug, i);
    PaymentPostKeepsInv(st, Charged(chargeId), total);
    var paid := PaymentPost(st, Charged(chargeId), total).store;
    PaymentSuccessFinalises(st, chargeId, total, i);
    assert forall j :: 0 <= j < |paid.orders| ==> paid.orders[j].ordered;
    AddToCartCreatesOrder(paid, slug);
    AddToCartKeepsInv(paid, slug);
    var again := AddToCart(paid, slug).store;
    AddToCartIncrementsHeldItem(again, slug, |st.orders|);
  }
}
