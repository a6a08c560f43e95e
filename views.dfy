/** The state changes of the storefront's views (catalog/views.py), each as a
    function from the store before the request to the store after it and the
    response. These are the specifications the Shop class's methods are proved
    against; behaviour.dfy proves what they promise. */
module Views {
  import opened Records
  import opened Lookup

  /** An order's references are consistent with the rest of the store, and it
      carries a payment exactly when it is finalised. */
  ghost predicate OrderConsistent(st: Store, o: Order)
  {
    && o.items <= st.orderItems.Keys
    && (o.ordered <==> o.payment.Some?)
    && (o.address.Some? ==> o.address.value < |st.addresses|)
    && (o.coupon.Some? ==> o.coupon.value in st.coupons)
  }

  /** What every view keeps true of the store. */
  ghost predicate Inv(st: Store)
  {
    && st.defaultQuantity >= 1
    && st.orderItems.Keys <= st.catalog
    && (forall s :: s in st.orderItems ==> st.orderItems[s] >= 1)
    && AtMostOneOpen(st.orders)
    && (forall i :: 0 <= i < |st.orders| ==> OrderConsistent(st, st.orders[i]))
  }

  /** A user's store before any request. */
  function EmptyStore(catalog: set<Slug>, coupons: set<CouponCode>, defaultQuantity: nat): Store
  {
    Store(catalog, coupons, defaultQuantity, map[], [], [])
  }

  /** The order `add_to_cart` creates: open, holding just the one item. */
  function NewOrder(slug: Slug): Order
  {
    Order({slug}, false, None, None, None)
  }

  /** `OrderItem.objects.get_or_create(item=item, user=user, ordered=False)`. */
  function GetOrCreate(st: Store, slug: Slug): Store
  {
    if slug in st.orderItems then st
    else st.(orderItems := st.orderItems[slug := st.defaultQuantity])
  }

  /** Replaces the order at position `i`. */
  function SetOrder(st: Store, i: nat, o: Order): Store
    requires i < |st.orders|
  {
    st.(orders := st.orders[i := o])
  }

  /** `add_to_cart(request, slug)`. */
  function AddToCart(st: Store, slug: Slug): Step
  {
    if slug !in st.catalog then Step(st, ItemNotFound)
    else
      var st1 := GetOrCreate(st, slug);
      match FirstOpen(st1.orders)
      case Some(i) =>
        if slug in st1.orders[i].items then
          Step(st1.(orderItems := st1.orderItems[slug := st1.orderItems[slug] + 1]), QuantityUpdated)
        else
          Step(SetOrder(st1, i, st1.orders[i].(items := st1.orders[i].items + {slug})), AddedToCart)
      case None =>
        Step(st1.(orders := st1.orders + [NewOrder(slug)]), AddedToCart)
  }

  /** `remove_from_cart(request, slug)`. */
  function RemoveFromCart(st: Store, slug: Slug): Step
  {
    if slug !in st.catalog then Step(st, ItemNotFound)
    else
      var st1 := GetOrCreate(st, slug);
      match FirstOpen(st1.orders)
      case Some(i) =>
        if slug in st1.orders[i].items then
          Step(SetOrder(st1, i, st1.orders[i].(items := st1.orders[i].items - {slug})), RemovedFromCart)
        else
          Step(st1, NotInCart)
      case None =>
        Step(st1, NoActiveOrder)
  }

  /** `remove_single_from_cart(request, slug)`. */
  function RemoveSingleFromCart(st: Store, slug: Slug): Step
  {
    if slug !in st.catalog then Step(st, ItemNotFound)
    else
      var st1 := GetOrCreate(st, slug);
      match FirstOpen(st1.orders)
      case Some(i) =>
        if slug in st1.orders[i].items then
          if st1.orderItems[slug] > 1 then
            Step(st1.(orderItems := st1.orderItems[slug := st1.orderItems[slug] - 1]), QuantityUpdated)
          else
            Step(SetOrder(st1, i, st1.orders[i].(items := st1.orders[i].items - {slug})), QuantityUpdated)
        else
          Step(st1, NotInCart)
      case None =>
        Step(st1, NoActiveOrder)
  }

  /** The address `CheckoutView.post` saves from the form. */
  function FormAddress(f: AddressForm): Address
  {
    Address(f.street, f.apartment, f.country, f.zip, f.saveInfo)
  }

  /** Where a checkout with a valid form redirects. */
  function PaymentOptionResponse(f: AddressForm): Response
  {
    if f.paymentOption == "S" then ToPayment else InvalidPaymentOption
  }

  /** `CheckoutView.post`; `form` is None when the AddressForm is invalid. */
  function CheckoutPost(st: Store, form: Option<AddressForm>): Step
  {
    match FirstOpen(st.orders)
    case None => Step(st, OrderLookupFailed)
    case Some(i) =>
      match form
      case None => Step(st, CheckoutFormInvalid)
      case Some(f) =>
        var st1 := st.(addresses := st.addresses + [FormAddress(f)]);
        var st2 := SetOrder(st1, i, st1.orders[i].(address := Some(|st.addresses|)));
        if !f.useDefault then Step(st2, PaymentOptionResponse(f))
        else
          match DefaultAddress(st2.addresses)
          case NotFound => Step(st2, DefaultAddressMissing)
          case Several => Step(st2, DefaultAddressAmbiguous)
          case Found(k) => Step(SetOrder(st2, i, st2.orders[i].(address := Some(k))), PaymentOptionResponse(f))
  }

  /** `CouponView.post`; `code` is None when the CouponForm is invalid. */
  function CouponPost(st: Store, code: Option<CouponCode>): Step
  {
    match code
    case None => Step(st, CouponFormInvalid)
    case Some(c) =>
      match FirstOpen(st.orders)
      case None => Step(st, CouponLookupFailed)
      case Some(i) =>
        if c in st.coupons then Step(SetOrder(st, i, st.orders[i].(coupon := Some(c))), CouponAdded)
        else Step(st, CouponLookupFailed)
  }

  /** The flash message `PaymentView.post` shows for a gateway failure. */
  function FailureMessage(g: GatewayResult): string
    requires !g.Charged?
  {
    match g
    case CardError(m) => m
    case InvalidRequest => "Invalid request"
    case AuthenticationFailure => "Authentication error"
    case ConnectionFailure => "Check your connection"
    case GatewayError => "There was an error please try again"
    case UnexpectedException => "A serious error occured we were notified"
  }

  /** Marks order `i` finalised with `payment` attached. */
  function Finalise(st: Store, i: nat, payment: Payment): Store
    requires i < |st.orders|
  {
    SetOrder(st, i, st.orders[i].(ordered := true, payment := Some(payment)))
  }

  /** `PaymentView.post`: `gateway` is how the customer and charge calls ended,
      `total` the order total they charged. */
  function PaymentPost(st: Store, gateway: GatewayResult, total: real): Step
  {
    match FirstOpen(st.orders)
    case None => Step(st, OrderLookupFailed)
    case Some(i) =>
      match gateway
      case Charged(id) => Step(Finalise(st, i, Payment(id, total)), PaymentSucceeded)
      case _ => Step(st, PaymentFailed(FailureMessage(gateway)))
  }

  /** `payment_complete`: finalises the open order whose id the client sent,
      with the charge id the client sent. */
  function PaymentComplete(st: Store, orderId: nat, payId: string, total: real): Step
  {
    if orderId < |st.orders| && !st.orders[orderId].ordered then
      Step(Finalise(st, orderId, Payment(payId, total)), PaymentSucceeded)
    else
      Step(st, OrderLookupFailed)
  }
}
