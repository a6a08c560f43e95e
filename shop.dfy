/** The views of catalog/views.py as they run: one object holds the user's
    rows of the database, and each view is a method that updates them in
    place. Each method is proved to do exactly what the matching function of
    module Views specifies, and to keep the store invariant. */
module Shop {
  import opened Records
  import opened Lookup
  import Views
  import Invariant

  /** The database rows one signed-in user's requests read and write. */
  class UserStore {
    const catalog: set<Slug>
    const coupons: set<CouponCode>
    const defaultQuantity: nat
    var orderItems: map<Slug, nat>
    var orders: seq<Order>
    var addresses: seq<Address>

    /** The rows as a value. */
    function Snapshot(): Store
      reads this
    {
      Store(catalog, coupons, defaultQuantity, orderItems, orders, addresses)
    }

    ghost predicate Valid()
      reads this
    {
      Views.Inv(Snapshot())
    }

    /** A user with no OrderItems, Orders or Addresses yet. */
    constructor (catalog: set<Slug>, coupons: set<CouponCode>, defaultQuantity: nat)
      requires defaultQuantity >= 1
      ensures Valid()
      ensures Snapshot() == Views.EmptyStore(catalog, coupons, defaultQuantity)
    {
      this.catalog := catalog;
      this.coupons := coupons;
      this.defaultQuantity := defaultQuantity;
      orderItems := map[];
      orders := [];
      addresses := [];
    }

    /** `OrderSummaryView.get`: the user's active order, if there is one. */
    method OrderSummary() returns (order: Option<Order>)
      requires Valid()
      ensures order.Some? ==> order.value in orders && !order.value.ordered
      ensures order.None? <==> forall o :: o in orders ==> o.ordered
    {
      match FirstOpen(orders)
      case Some(i) =>
        order := Some(orders[i]);
      case None =>
        order := None;
    }

    /** `OrderItem.objects.get_or_create(item=..., user=..., ordered=False)`,
        for an item known to exist. */
    method GetOrCreate(slug: Slug)
      modifies this
      ensures Snapshot() == Views.GetOrCreate(old(Snapshot()), slug)
    {
      if slug !in orderItems {
        orderItems := orderItems[slug := defaultQuantity];
      }
    }

    /** `add_to_cart`. */
    method AddToCart(slug: Slug) returns (response: Response)
      requires Valid()
      modifies this
      ensures Valid()
      ensures Step(Snapshot(), response) == Views.AddToCart(old(Snapshot()), slug)
    {
      Invariant.AddToCartKeepsInv(Snapshot(), slug);
      if slug !in catalog {
        return ItemNotFound;
      }
      GetOrCreate(slug);
      match FirstOpen(orders)
      case Some(i) =>
        if slug in orders[i].items {
          orderItems := orderItems[slug := orderItems[slug] + 1];
          response := QuantityUpdated;
        } else {
          orders := orders[i := orders[i].(items := orders[i].items + {slug})];
          response := AddedToCart;
        }
      case None =>
        orders := orders + [Views.NewOrder(slug)];
        response := AddedToCart;
    }

    /** `remove_from_cart`. */
    method RemoveFromCart(slug: Slug) returns (response: Response)
      requires Valid()
      modifies this
      ensures Valid()
      ensures Step(Snapshot(), response) == Views.RemoveFromCart(old(Snapshot()), slug)
    {
      Invariant.RemoveFromCartKeepsInv(Snapshot(), slug);
      if slug !in catalog {
        return ItemNotFound;
      }
      GetOrCreate(slug);
      match FirstOpen(orders)
      case Some(i) =>
        if slug in orders[i].items {
          orders := orders[i := orders[i].(items := orders[i].items - {slug})];
          response := RemovedFromCart;
        } else {
          response := NotInCart;
        }
      case None =>
        response := NoActiveOrder;
    }

    /** `remove_single_from_cart`. */
    method RemoveSingleFromCart(slug: Slug) returns (response: Response)
      requires Valid()
      modifies this
      ensures Valid()
      ensures Step(Snapshot(), response) == Views.RemoveSingleFromCart(old(Snapshot()), slug)
    {
      Invariant.RemoveSingleFromCartKeepsInv(Snapshot(), slug);
      if slug !in catalog {
        return ItemNotFound;
      }
      GetOrCreate(slug);
      match FirstOpen(orders)
      case Some(i) =>
        if slug in orders[i].items {
          if orderItems[slug] > 1 {
            orderItems := orderItems[slug := orderItems[slug] - 1];
          } else {
            orders := orders[i := orders[i].(items := orders[i].items - {slug})];
          }
          response := QuantityUpdated;
        } else {
          response := NotInCart;
        }
      case None =>
        response := NoActiveOrder;
    }

    /** `CheckoutView.post`; `form` is None when the AddressForm is invalid. */
    method CheckoutPost(form: Option<AddressForm>) returns (response: Response)
      requires Valid()
      modifies this
      ensures Valid()
      ensures Step(Snapshot(), response) == Views.CheckoutPost(old(Snapshot()), form)
    {
      Invariant.CheckoutPostKeepsInv(Snapshot(), form);
      match FirstOpen(orders)
      case None =>
        response := OrderLookupFailed;
      case Some(i) =>
        if form.None? {
          return CheckoutFormInvalid;
        }
        var f := form.value;
        var saved := SaveAddress(f);
        orders := orders[i := orders[i].(address := Some(saved))];
        assert Snapshot() == Views.SetOrder(old(Snapshot()).(addresses := addresses), i, orders[i]);
        if f.useDefault {
          match DefaultAddress(addresses)
          case NotFound =>
            return DefaultAddressMissing;
          case Several =>
            return DefaultAddressAmbiguous;
          case Found(k) =>
            orders := orders[i := orders[i].(address := Some(k))];
        }
        response := Views.PaymentOptionResponse(f);
    }

    /** Saves the form's address (`address.save()`), marking it default when
        `save_info` is set, and returns its position. */
    method SaveAddress(f: AddressForm) returns (saved: nat)
      modifies this
      ensures addresses == old(addresses) + [Views.FormAddress(f)]
      ensures saved == |old(addresses)|
      ensures orderItems == old(orderItems) && orders == old(orders)
    {
      var address := Address(f.street, f.apartment, f.country, f.zip, false);
      addresses := addresses + [address];
      saved := |addresses| - 1;
      if f.saveInfo {
        addresses := addresses[saved := address.(isDefault := true)];
      }
    }

    /** `CouponView.post`; `code` is None when the CouponForm is invalid. */
    method CouponPost(code: Option<CouponCode>) returns (response: Response)
      requires Valid()
      modifies this
      ensures Valid()
      ensures Step(Snapshot(), response) == Views.CouponPost(old(Snapshot()), code)
    {
      Invariant.CouponPostKeepsInv(Snapshot(), code);
      if code.None? {
        return CouponFormInvalid;
      }
      match FirstOpen(orders)
      case None =>
        response := CouponLookupFailed;
      case Some(i) =>
        if code.value in coupons {
          orders := orders[i := orders[i].(coupon := Some(code.value))];
          response := CouponAdded;
        } else {
          response := CouponLookupFailed;
        }
    }

    /** `PaymentView.post`: `gateway` is how the gateway's customer and charge
        calls ended, `total` the order total they charged. */
    method PaymentPost(gateway: GatewayResult, total: real) returns (response: Response)
      requires Valid()
      modifies this
      ensures Valid()
      ensures Step(Snapshot(), response) == Views.PaymentPost(old(Snapshot()), gateway, total)
    {
      Invariant.PaymentPostKeepsInv(Snapshot(), gateway, total);
      match FirstOpen(orders)
      case None =>
        response := OrderLookupFailed;
      case Some(i) =>
        if gateway.Charged? {
          var payment := Payment(gateway.chargeId, total);
          orders := orders[i := orders[i].(ordered := true, payment := Some(payment))];
          response := PaymentSucceeded;
        } else {
          response := PaymentFailed(Views.FailureMessage(gateway));
        }
    }

    /** `payment_complete`, with the order id and charge id from the request
        body. */
    method PaymentComplete(orderId: nat, payId: string, total: real) returns (response: Response)
      requires Valid()
      modifies this
      ensures Valid()
      ensures Step(Snapshot(), response) == Views.PaymentComplete(old(Snapshot()), orderId, payId, total)
    {
      Invariant.PaymentCompleteKeepsInv(Snapshot(), orderId, payId, total);
      if orderId < |orders| && !orders[orderId].ordered {
        var payment := Payment(payId, total);
        orders := orders[orderId := orders[orderId].(ordered := true, payment := Some(payment))];
        response := PaymentSucceeded;
      } else {
        response := OrderLookupFailed;
      }
    }
  }
}
