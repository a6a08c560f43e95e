/** Requests run against a fresh UserStore, with only the method contracts
    of class UserStore and the lemmas of module Behaviour to reason with. */
module Scenarios {
  import opened Records
  import Shop
  import Behaviour

  /** A user with no order adds "widget": one open order holding it with
      quantity 1. Adding it again raises the quantity to 2 and adds no order. */
  method AddWidgetTwice() returns (first: Response, second: Response, quantity: nat, orderCount: nat)
    ensures first == AddedToCart && second == QuantityUpdated
    ensures quantity == 2 && orderCount == 1
  {
    var store := new Shop.UserStore({"widget"}, {}, 1);
    first := store.AddToCart("widget");
    assert store.orders == [Order({"widget"}, false, None, None, None)];
    assert store.orderItems == map["widget" := 1];
    Behaviour.AddToCartIncrementsHeldItem(store.Snapshot(), "widget", 0);
    second := store.AddToCart("widget");
    quantity := store.orderItems["widget"];
    orderCount := |store.orders|;
  }

  /** Removing one of an item held once takes it out of the order; its
      OrderItem stays, at quantity 1. */
  method RemoveLastUnit() returns (response: Response, held: bool, quantity: nat)
    ensures response == QuantityUpdated && !held && quantity == 1
  {
    var store := new Shop.UserStore({"widget"}, {}, 1);
    var _ := store.AddToCart("widget");
    Behaviour.RemoveSingleFromCartStep(store.Snapshot(), "widget", 0);
    response := store.RemoveSingleFromCart("widget");
    held := "widget" in store.orders[0].items;
    quantity := store.orderItems["widget"];
  }

  /** A card declined by the gateway leaves the order open: the order summary
      still finds it, and the gateway's message is shown. */
  method CardDeclined() returns (response: Response, stillOpen: bool)
    ensures response == PaymentFailed("Your card was declined.") && stillOpen
  {
    var store := new Shop.UserStore({"widget"}, {}, 1);
    var _ := store.AddToCart("widget");
    response := store.PaymentPost(CardError("Your card was declined."), 10.0);
    var active := store.OrderSummary();
    stillOpen := active.Some?;
  }
}
