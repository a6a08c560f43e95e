/** The records the storefront's cart and checkout views read and write, seen
    from one signed-in user: that user's OrderItems, Orders and Addresses, plus
    the Items and Coupons the views look up but never change. */
module Records {

  datatype Option<+T> = None | Some(value: T)

  /** An Item is looked up by its slug (`get_object_or_404(Item, slug=slug)`). */
  type Slug = string

  type CouponCode = string

  /** A saved shipping address; `isDefault` is the model's `default` flag. */
  datatype Address = Address(street: string, apartment: string, country: string, zip: string, isDefault: bool)

  /** A Payment row: the gateway's charge id and the amount charged. */
  datatype Payment = Payment(chargeId: string, amount: real)

  /** An Order: the OrderItems attached to it (one per Item, so named by slug),
      the `ordered` flag, and the optional address (an index into the user's
      addresses), coupon and payment. */
  datatype Order = Order(
    items: set<Slug>,
    ordered: bool,
    address: Option<nat>,
    coupon: Option<CouponCode>,
    payment: Option<Payment>)

  /** The part of the database the views touch, for one user.
      `orderItems` holds the user's OrderItems with `ordered = False`, keyed by
      the Item's slug, with their quantities: `get_or_create` is keyed on
      (item, user, ordered=False), so there is at most one per Item. Nothing in
      the views ever sets an OrderItem's own `ordered` flag, so every OrderItem
      the user ever created stays in this map, including those attached to
      finalised orders. `orders` lists the user's Orders in creation order.
      `defaultQuantity` is the quantity `get_or_create` gives a new OrderItem. */
  datatype Store = Store(
    catalog: set<Slug>,
    coupons: set<CouponCode>,
    defaultQuantity: nat,
    orderItems: map<Slug, nat>,
    orders: seq<Order>,
    addresses: seq<Address>)

  /** The cleaned fields of a valid AddressForm. */
  datatype AddressForm = AddressForm(
    street: string,
    apartment: string,
    country: string,
    zip: string,
    saveInfo: bool,
    useDefault: bool,
    paymentOption: string)

  /** What the payment gateway's customer and charge calls ended in: a charge
      id, or one of the exception kinds the payment view catches. */
  datatype GatewayResult =
    | Charged(chargeId: string)
    | CardError(message: string)
    | InvalidRequest
    | AuthenticationFailure
    | ConnectionFailure
    | GatewayError
    | UnexpectedException

  /** What a view answers: the redirect with its flash message, or an
      exception the view does not catch (a server error). */
  datatype Response =
    // cart views
    | ItemNotFound              // 404 from get_object_or_404
    | QuantityUpdated           // "<item>'s quantity was updated"
    | AddedToCart               // "<item> was added to your cart"
    | RemovedFromCart           // "<item> was removed from your cart"
    | NotInCart                 // "<item> was not in your cart"
    | NoActiveOrder             // "You don't have an active order!"
    // uncaught exceptions of Order.objects.get / Address.objects.get
    | OrderLookupFailed
    | DefaultAddressMissing
    | DefaultAddressAmbiguous
    // checkout
    | CheckoutFormInvalid       // redirect back to checkout
    | ToPayment                 // redirect to the payment page
    | InvalidPaymentOption      // "Invalid payment option"
    // coupon
    | CouponAdded               // "Successfully added coupon !"
    | CouponFormInvalid         // "Enter a valid coupon code"
    | CouponLookupFailed        // no open order, or no coupon with that code
    // payment
    | PaymentSucceeded          // "Payment was successful"
    | PaymentFailed(message: string)

  /** A view's effect: the store afterwards and the response. */
  datatype Step = Step(store: Store, response: Response)
}
