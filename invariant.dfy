/** Every view keeps the store invariant: besides the single open order, it
    says quantities never drop below 1 and payments go with finalised orders. */
module Invariant {
  import opened Records
  import opened Lookup
  import opened Views

  // ---------------------------------------------------------------------
  // The invariant

  /** `get_or_create` on a known item keeps the invariant, leaves every
      existing OrderItem as it was and yields an OrderItem for the item. */
  lemma GetOrCreateKeepsInv(st: Store, slug: Slug)
    requires Inv(st) && slug in st.catalog
    ensures var st1 := GetOrCreate(st, slug);
      && Inv(st1)
      && st1.orderItems.Keys == st.orderItems.Keys + {slug}
      && (forall s :: s in st.orderItems ==> st1.orderItems[s] == st.orderItems[s])
      && (slug !in st.orderItems ==> st1.orderItems[slug] == st.defaultQuantity)
      && st1.orders == st.orders && st1.addresses == st.addresses
  {
    var st1 := GetOrCreate(st, slug);
    forall i | 0 <= i < |st1.orders|
      ensures OrderConsistent(st1, st1.orders[i])
    {
      assert OrderConsistent(st, st.orders[i]);
    }
  }

  /** Replacing an order by a consistent one with the same `ordered` flag
      keeps the invariant. */
  lemma SetOrderKeepsInv(st: Store, i: nat, o: Order)
    requires Inv(st) && i < |st.orders|
    requires o.ordered == st.orders[i].ordered && OrderConsistent(st, o)
    ensures Inv(SetOrder(st, i, o))
    ensures FirstOpen(SetOrder(st, i, o).orders) == FirstOpen(st.orders)
  {
    UpdateKeepsOpenOrder(st.orders, i, o);
    var st' := SetOrder(st, i, o);
    forall j | 0 <= j < |st'.orders|
      ensures OrderConsistent(st', st'.orders[j])
    {
      if j != i {
        assert OrderConsistent(st, st.orders[j]);
      }
    }
  }

  lemma AddToCartKeepsInv(st: Store, slug: Slug)
    requires Inv(st)
    ensures Inv(AddToCart(st, slug).store)
  {
    if slug in st.catalog {
      GetOrCreateKeepsInv(st, slug);
      var st1 := GetOrCreate(st, slug);
      match FirstOpen(st1.orders)
      case Some(i) =>
        if slug !in st1.orders[i].items {
          assert OrderConsistent(st1, st1.orders[i]);
          SetOrderKeepsInv(st1, i, st1.orders[i].(items := st1.orders[i].items + {slug}));
        }
      case None =>
        AppendOpensOrder(st1.orders, NewOrder(slug));
        var st' := st1.(orders := st1.orders + [NewOrder(slug)]);
        forall j | 0 <= j < |st'.orders|
          ensures OrderConsistent(st', st'.orders[j])
        {
          if j < |st1.orders| {
            assert OrderConsistent(st1, st1.orders[j]);
          }
        }
    }
  }

  lemma RemoveFromCartKeepsInv(st: Store, slug: Slug)
    requires Inv(st)
    ensures Inv(RemoveFromCart(st, slug).store)
  {
    if slug in st.catalog {
      GetOrCreateKeepsInv(st, slug);
      var st1 := GetOrCreate(st, slug);
      match FirstOpen(st1.orders)
      case Some(i) =>
        if slug in st1.orders[i].items {
          assert OrderConsistent(st1, st1.orders[i]);
          SetOrderKeepsInv(st1, i, st1.orders[i].(items := st1.orders[i].items - {slug}));
        }
      case None =>
    }
  }

  /** In particular `remove_single_from_cart` never takes a quantity below 1. */
  lemma RemoveSingleFromCartKeepsInv(st: Store, slug: Slug)
    requires Inv(st)
    ensures Inv(RemoveSingleFromCart(st, slug).store)
  {
    if slug in st.catalog {
      GetOrCreateKeepsInv(st, slug);
      var st1 := GetOrCreate(st, slug);
      match FirstOpen(st1.orders)
      case Some(i) =>
        if slug in st1.orders[i].items {
          if st1.orderItems[slug] > 1 {
            var st' := st1.(orderItems := st1.orderItems[slug := st1.orderItems[slug] - 1]);
            forall j | 0 <= j < |st'.orders|
              ensures OrderConsistent(st', st'.orders[j])
            {
              assert OrderConsistent(st1, st1.orders[j]);
            }
          } else {
            assert OrderConsistent(st1, st1.orders[i]);
            SetOrderKeepsInv(st1, i, st1.orders[i].(items := st1.orders[i].items - {slug}));
          }
        }
      case None =>
    }
  }

  lemma CheckoutPostKeepsInv(st: Store, form: Option<AddressForm>)
    requires Inv(st)
    ensures Inv(CheckoutPost(st, form).store)
  {
    match FirstOpen(st.orders)
    case None =>
    case Some(i) =>
      match form
      case None =>
      case Some(f) =>
        var st1 := st.(addresses := st.addresses + [FormAddress(f)]);
        forall j | 0 <= j < |st1.orders|
          ensures OrderConsistent(st1, st1.orders[j])
        {
          assert OrderConsistent(st, st.orders[j]);
        }
        assert Inv(st1);
        var o := st1.orders[i].(address := Some(|st.addresses|));
        assert OrderConsistent(st1, st1.orders[i]);
        SetOrderKeepsInv(st1, i, o);
        var st2 := SetOrder(st1, i, o);
        if f.useDefault {
          match DefaultAddress(st2.addresses)
          case NotFound =>
          case Several =>
          case Found(k) =>
            SetOrderKeepsInv(st2, i, st2.orders[i].(address := Some(k)));
        }
    }

  lemma CouponPostKeepsInv(st: Store, code: Option<CouponCode>)
    requires Inv(st)
    ensures Inv(CouponPost(st, code).store)
  {
    match code
    case None =>
    case Some(c) =>
      match FirstOpen(st.orders)
      case None =>
      case Some(i) =>
        if c in st.coupons {
          assert OrderConsistent(st, st.orders[i]);
          SetOrderKeepsInv(st, i, st.orders[i].(coupon := Some(c)));
        }
  }

  /** Finalising an open order keeps the invariant and leaves no open order. */
  lemma FinaliseKeepsInv(st: Store, i: nat, payment: Payment)
    requires Inv(st) && i < |st.orders| && !st.orders[i].ordered
    ensures Inv(Finalise(st, i, payment))
    ensures FirstOpen(Finalise(st, i, payment).orders) == None
  {
    var o := st.orders[i].(ordered := true, payment := Some(payment));
    FinalisingClosesTheOpenOrder(st.orders, i, o);
    var st' := Finalise(st, i, payment);
    forall j | 0 <= j < |st'.orders|
      ensures OrderConsistent(st', st'.orders[j])
    {
      assert OrderConsistent(st, st.orders[j]);
    }
  }

  lemma PaymentPostKeepsInv(st: Store, gateway: GatewayResult, total: real)
    requires Inv(st)
    ensures Inv(PaymentPost(st, gateway, total).store)
  {
    match FirstOpen(st.orders)
    case None =>
    case Some(i) =>
      if gateway.Charged? {
        FinaliseKeepsInv(st, i, Payment(gateway.chargeId, total));
      }
  }

  lemma PaymentCompleteKeepsInv(st: Store, orderId: nat, payId: string, total: real)
    requires Inv(st)
    ensures Inv(PaymentComplete(st, orderId, payId, total).store)
  {
    if orderId < |st.orders| && !st.orders[orderId].ordered {
      FinaliseKeepsInv(st, orderId, Payment(payId, total));
    }
  }
}
