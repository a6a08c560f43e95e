# Storefront cart and order lifecycle, in Dafny

This project models the state changes made by the storefront views in
`catalog/views.py`. They are the cart views (`add_to_cart`, `remove_from_cart`,
`remove_single_from_cart`) and the order transitions around them:
`CheckoutView.post` links an address, `CouponView.post` attaches a coupon,
and `PaymentView.post` and `payment_complete` finalise the order.

The database rows one signed-in user's requests touch are held in one object,
`Shop.UserStore`. It has these fields:

- the known Item slugs and Coupon codes, which the views never change;
- the quantity `get_or_create` gives a new OrderItem, at least 1;
- the user's OrderItems with `ordered = False`, as a map from Item slug to quantity;
- the user's Orders, in creation order;
- the user's Addresses.

An Order holds the slugs of its attached OrderItems, the `ordered` flag, and an
optional address, coupon and payment.

Each view is a method that updates these fields in place. Each method is proved
to do what the matching function in module `Views` specifies, and to keep the
store invariant `Views.Inv`:

- at most one order is open (`ordered = False`);
- every quantity is at least 1;
- an order carries a payment exactly when it is finalised;
- every reference (item, address, coupon) points at a row that exists.

The lemmas in `Behaviour` state what each view does to the open order and the
quantities, and that nothing else changes. The lemmas in `Lookup` state what
the open-order lookup (`filter(user=..., ordered=False)[0]`) and the
default-address lookup answer.

Files:

- `records.dfy`: the rows, form inputs, gateway outcomes and view responses.
- `lookup.dfy`: the open-order and default-address lookups.
- `views.dfy`: each view as a function from store to store and response, plus the invariant.
- `invariant.dfy`: every view keeps the invariant.
- `behaviour.dfy`: per-view properties and round trips.
- `shop.dfy`: the class with one method per view.
- `scenarios.dfy`: three request sequences on a fresh store, established by their contracts.

Three points where the model follows the code rather than what the views
appear meant to do:

- Both remove views call `get_or_create` before checking the cart. Removing
  an item that is not in the cart therefore changes no order and no existing
  quantity, but it may create a new OrderItem at the default quantity.
- An item's quantity never reaches zero. `remove_single_from_cart` detaches
  the item when its quantity is 1 or less and leaves the quantity untouched.
- No view ever sets an OrderItem's own `ordered` flag. A paid order therefore
  shares its OrderItems with later carts: adding a paid item again reattaches
  the same OrderItem with its old quantity (`Behaviour.ReorderReusesOrderItem`).
  Adding it once more also raises the quantity the paid order records for it
  by one (`Behaviour.ReorderGrowsPaidOrderQuantity`).

Checkout saves the new address and links it before it looks up the default
address, and nothing is rolled back. So when that lookup fails (no default
address, or several), the new address stays saved and linked.

## Model

| member | source | states |
|---|---|---|
| `Lookup.FirstOpenFrom` | catalog/views.py:280-282 | the result is the first position at or after `from` whose order is open, or None when all those orders are finalised |
| `Lookup.FirstOpen` | catalog/views.py:280-282 | the open-order lookup returns the first open order's position, and None exactly when every order is finalised |
| `Lookup.FirstOpenIsTheOpenOrder` | catalog/views.py:39 | with at most one open order, the lookup returns that order |
| `Lookup.UpdateKeepsOpenOrder` | catalog/views.py:290-291 | changing an order without touching `ordered` keeps at most one open order and does not change the lookup's answer |
| `Lookup.FinalisingClosesTheOpenOrder` | catalog/views.py:150-153 | setting `ordered = True` on the open order leaves no open order, so the lookup finds nothing |
| `Lookup.AppendOpensOrder` | catalog/views.py:297-301 | creating an open order when none is open makes it the only open order and the lookup's answer |
| `Lookup.DefaultAddress` | catalog/views.py:111-112 | `get(default=True)` finds the unique default address; it fails as missing when there is none and as ambiguous when there are two or more |
| `Lookup.DefaultAfterSavingDefault` | catalog/views.py:102-112 | after saving a default address, the lookup finds it when no other default exists and is ambiguous otherwise |
| `Invariant.GetOrCreateKeepsInv` | catalog/views.py:275-279 | `get_or_create` keeps the invariant, keeps every existing quantity, and yields an OrderItem for the item (the default quantity when new) |
| `Invariant.SetOrderKeepsInv` | catalog/views.py:107-108 | saving a consistent order with an unchanged `ordered` flag keeps the invariant and the open-order lookup |
| `Invariant.AddToCartKeepsInv` | catalog/views.py:268-305 | `add_to_cart` keeps the invariant, so it never creates a second open order |
| `Invariant.RemoveFromCartKeepsInv` | catalog/views.py:310-339 | `remove_from_cart` keeps the invariant |
| `Invariant.RemoveSingleFromCartKeepsInv` | catalog/views.py:342-374 | `remove_single_from_cart` keeps the invariant, so no quantity drops below 1 |
| `Invariant.CheckoutPostKeepsInv` | catalog/views.py:75-131 | checkout keeps the invariant; every linked address exists |
| `Invariant.CouponPostKeepsInv` | catalog/views.py:244-264 | the coupon view keeps the invariant; an attached coupon exists |
| `Invariant.FinaliseKeepsInv` | catalog/views.py:203-205 | finalising the open order with a payment keeps the invariant and leaves no open order |
| `Invariant.PaymentPostKeepsInv` | catalog/views.py:176-240 | the payment view keeps the invariant on every gateway outcome |
| `Invariant.PaymentCompleteKeepsInv` | catalog/views.py:134-157 | `payment_complete` keeps the invariant |
| `Behaviour.UnknownItemChangesNothing` | catalog/views.py:274 | for an unknown slug, all three cart views answer 404 and change nothing |
| `Behaviour.AddToCartIncrementsHeldItem` | catalog/views.py:283-289 | adding an item the open order holds raises its quantity by exactly 1; membership and every other row stay the same |
| `Behaviour.AddToCartAttachesItem` | catalog/views.py:290-295 | adding an item the open order lacks attaches it; its quantity is the old one, or the default for a new OrderItem; no other order or quantity changes |
| `Behaviour.AddToCartCreatesOrder` | catalog/views.py:297-305 | with no open order, adding creates exactly one order (open, holding only the item, no address, coupon or payment), and it is the only open order |
| `Behaviour.RemoveFromCartDetaches` | catalog/views.py:321-329 | removing an item the open order holds detaches it; its quantity and everything else stay the same |
| `Behaviour.RemoveAbsentChangesNoOrder` | catalog/views.py:330-339 | both remove views, for an item no open order holds, change no order and no existing quantity (only `get_or_create` may add an OrderItem); they answer "not in cart" or "no active order" |
| `Behaviour.RemoveSingleFromCartStep` | catalog/views.py:354-361 | above 1, the quantity drops by exactly 1 and the item stays attached; at 1, the item is detached with its quantity untouched |
| `Behaviour.RemoveThenAddRestores` | catalog/views.py:275-329 | removing an item from the open order and adding it back restores the whole store, old quantity included |
| `Behaviour.AddThenRemoveSingleRestores` | catalog/views.py:283-357 | adding one more of an item in the open order and removing one restores the whole store |
| `Behaviour.AddSameItemTwice` | catalog/views.py:280-305 | from no open order, adding a new item twice gives one new open order holding it, at the default quantity plus 1 |
| `Behaviour.CheckoutRejects` | catalog/views.py:80-84 | checkout with no open order, or with an invalid form, changes nothing |
| `Behaviour.CheckoutLinksNewAddress` | catalog/views.py:93-117 | without `use_default`, checkout saves the form's address (default iff `save_info`), links it to the open order, changes nothing else, and redirects to payment iff the option is "S" |
| `Behaviour.CheckoutUsesDefault` | catalog/views.py:102-117 | with `use_default`, checkout links the user's unique default address; when the lookup fails, the newly saved and linked address stays |
| `Behaviour.CheckoutSaveAndUseDefault` | catalog/views.py:103-114 | with `save_info` and `use_default`, the order keeps the new address when the user had no default, and the lookup is ambiguous when the user had one |
| `Behaviour.CouponAttaches` | catalog/views.py:249-257 | a known code is attached to the open order and nothing else changes |
| `Behaviour.CouponRejects` | catalog/views.py:248-264 | an invalid form, an unknown code or a missing open order changes nothing |
| `Behaviour.PaymentSuccessFinalises` | catalog/views.py:180-208 | a successful charge sets `ordered = True` and attaches the payment, changes nothing else, and afterwards the active-order lookup finds no order |
| `Behaviour.GatewayFailureLeavesOrderOpen` | catalog/views.py:209-240 | every gateway exception leaves the store unchanged (the order stays open) and shows that exception's message |
| `Behaviour.PaymentCompleteFinalises` | catalog/views.py:139-157 | `payment_complete` finalises the open order the client names, with the client's charge id, changes nothing else, and afterwards the lookup finds no open order; naming any other order changes nothing |
| `Behaviour.ReorderReusesOrderItem` | catalog/views.py:275-305 | after an order is paid, adding one of its items reattaches the same OrderItem to a new open order with its old quantity, and the paid order still holds it |
| `Behaviour.ReorderGrowsPaidOrderQuantity` | catalog/views.py:283-286 | after an order is paid, re-adding one of its items twice raises the shared OrderItem's quantity by one, and the paid order still holds it |
| `Shop.UserStore.OrderSummary` | catalog/views.py:37-52 | the active order returned is one of the user's orders and is open; None exactly when every order is finalised |
| `Shop.UserStore.GetOrCreate` | catalog/views.py:275-279 | creates the OrderItem at the default quantity only when the user has none for the item |
| `Shop.UserStore.AddToCart` | catalog/views.py:268-305 | the new rows and the response are those `Views.AddToCart` gives; the invariant is kept |
| `Shop.UserStore.RemoveFromCart` | catalog/views.py:310-339 | the new rows and the response are those `Views.RemoveFromCart` gives; the invariant is kept |
| `Shop.UserStore.RemoveSingleFromCart` | catalog/views.py:342-374 | the new rows and the response are those `Views.RemoveSingleFromCart` gives; the invariant is kept |
| `Shop.UserStore.CheckoutPost` | catalog/views.py:75-131 | the new rows and the response are those `Views.CheckoutPost` gives; the invariant is kept |
| `Shop.UserStore.SaveAddress` | catalog/views.py:93-105 | appends the form's address, default exactly when `save_info` is set, returns its position, and changes no order or OrderItem |
| `Shop.UserStore.CouponPost` | catalog/views.py:244-264 | the new rows and the response are those `Views.CouponPost` gives; the invariant is kept |
| `Shop.UserStore.PaymentPost` | catalog/views.py:176-240 | the new rows and the response are those `Views.PaymentPost` gives; the invariant is kept |
| `Shop.UserStore.PaymentComplete` | catalog/views.py:134-157 | the new rows and the response are those `Views.PaymentComplete` gives; the invariant is kept |
| `Scenarios.AddWidgetTwice` | catalog/views.py:275-305 | a user with no order adds "widget" twice: "added", then "quantity updated"; one order, quantity 2 |
| `Scenarios.RemoveLastUnit` | catalog/views.py:354-361 | removing one of an item held once detaches it, and its OrderItem stays at quantity 1 |
| `Scenarios.CardDeclined` | catalog/views.py:209-213 | a card error shows the gateway's message, and the order summary still finds the open order |

## Left out

- The gateway calls (`stripe.Customer.create`, `stripe.Charge.create`) and the `amount * 100` conversion. The gateway is a `GatewayResult` parameter: a charge id, or one of the caught exception kinds.
- `get_total`: `catalog/models.py` is not part of this model. The amount stored in a Payment is a `total` parameter.
- The default OrderItem quantity also comes from `catalog/models.py`. It is a constant of the store, required to be at least 1.
- Form validation: `catalog/forms.py` is not part of this model. A form is an `Option` that is None when invalid.
- Parsing the JSON body of `payment_complete`: the order id and charge id are parameters.
- CSV logging, flash messages, redirects, template rendering and the e-mail send in checkout. The views' answers are the `Response` values.
- The GET views (`HomeView`, `ProductDetail`, `CheckoutView.get`, `PaymentView.get`) only render.
- `ordered_date` and the clock: orders carry no date.
- Authentication: the store belongs to one signed-in user.
- Rows as separate objects with their own identity. An OrderItem is named by its Item's slug, which is unique among the user's unordered OrderItems. An order is named by its position. A Payment lives only inside the order that holds it.
- `Order.objects.get(ordered=False)` in checkout, coupon and payment raises `MultipleObjectsReturned` when there are several open orders. Under the invariant there is at most one, and the model uses the same first-open lookup as `filter(...)[0]`.
- Several Coupons with the same code: the coupons are a set of codes.
- The `NameError` raised in the coupon view's `except` branch (catalog/views.py:260): the model answers `CouponLookupFailed` and changes nothing, which is what that path does to the rows.
- Concurrent requests: the views have no locking, so two concurrent requests could break the single-open-order invariant. Each modelled request runs alone.
