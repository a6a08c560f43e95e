/** The two ORM lookups the views rely on: the user's open order and the
    user's default address. */
module Lookup {
  import opened Records

  /** The single-open-order invariant: at most one of the user's Orders has
      `ordered = False`. */
  ghost predicate AtMostOneOpen(orders: seq<Order>)
  {
    forall i, j :: 0 <= i < |orders| && 0 <= j < |orders| && !orders[i].ordered && !orders[j].ordered ==> i == j
  }

  /** The first open order at or after position `from`. */
  function FirstOpenFrom(orders: seq<Order>, from: nat): (r: Option<nat>)
    requires from <= |orders|
    ensures r.Some? ==> from <= r.value < |orders| && !orders[r.value].ordered
    ensures r.Some? ==> forall j :: from <= j < r.value ==> orders[j].ordered
    ensures r.None? ==> forall j :: from <= j < |orders| ==> orders[j].ordered
    decreases |orders| - from
  {
    if from == |orders| then None
    else if !orders[from].ordered then Some(from)
    else FirstOpenFrom(orders, from + 1)
  }

  /** `Order.objects.filter(user=..., ordered=False)[0]`: the position of the
      user's first open order, or None when every order is finalised. */
  function FirstOpen(orders: seq<Order>): (r: Option<nat>)
    ensures r.Some? ==> r.value < |orders| && !orders[r.value].ordered
    ensures r.Some? ==> forall j :: 0 <= j < r.value ==> orders[j].ordered
    ensures r.None? <==> forall j :: 0 <= j < |orders| ==> orders[j].ordered
  {
    FirstOpenFrom(orders, 0)
  }

  /** Under the invariant the lookup finds the open order wherever it stands. */
  lemma FirstOpenIsTheOpenOrder(orders: seq<Order>, i: nat)
    requires AtMostOneOpen(orders)
    requires i < |orders| && !orders[i].ordered
    ensures FirstOpen(orders) == Some(i)
  {
  }

  /** Changing an order without touching its `ordered` flag changes neither
      the lookup's answer nor the invariant. */
  lemma UpdateKeepsOpenOrder(orders: seq<Order>, i: nat, o: Order)
    requires AtMostOneOpen(orders)
    requires i < |orders| && o.ordered == orders[i].ordered
    ensures AtMostOneOpen(orders[i := o])
    ensures FirstOpen(orders[i := o]) == FirstOpen(orders)
  {
    var orders' := orders[i := o];
    assert forall j :: 0 <= j < |orders| ==> orders'[j].ordered == orders[j].ordered;
    match FirstOpen(orders)
    case Some(k) =>
      FirstOpenIsTheOpenOrder(orders', k);
    case None =>
  }

  /** Finalising the open order leaves the user without one: the lookup that
      `ordered = False` drives no longer finds any order. */
  lemma FinalisingClosesTheOpenOrder(orders: seq<Order>, i: nat, o: Order)
    requires AtMostOneOpen(orders)
    requires i < |orders| && !orders[i].ordered && o.ordered
    ensures AtMostOneOpen(orders[i := o])
    ensures FirstOpen(orders[i := o]) == None
  {
    var orders' := orders[i := o];
    forall j | 0 <= j < |orders'|
      ensures orders'[j].ordered
    {
      if j != i {
        assert orders[j].ordered;
      }
    }
  }

  /** Appending an open order when none is open makes it the open order. */
  lemma AppendOpensOrder(orders: seq<Order>, o: Order)
    requires FirstOpen(orders) == None && !o.ordered
    ensures AtMostOneOpen(orders + [o])
    ensures FirstOpen(orders + [o]) == Some(|orders|)
  {
    var orders' := orders + [o];
    assert forall j :: 0 <= j < |orders| ==> orders'[j] == orders[j];
    assert !orders'[|orders|].ordered;
    FirstOpenIsTheOpenOrder(orders', |orders|);
  }

  /** The outcome of `Address.objects.get(user=..., default=True)`. */
  datatype AddressLookup = NotFound | Found(index: nat) | Several

  /** Looks up the user's default address: the only one with the default
      flag, or NotFound / Several when `get` would raise DoesNotExist /
      MultipleObjectsReturned. */
  function DefaultAddress(addresses: seq<Address>): (r: AddressLookup)
    ensures r.NotFound? <==> forall k :: 0 <= k < |addresses| ==> !addresses[k].isDefault
    ensures r.Found? ==> r.index < |addresses| && addresses[r.index].isDefault
    ensures r.Found? ==> forall k :: 0 <= k < |addresses| && addresses[k].isDefault ==> k == r.index
    ensures r.Several? <==> exists j, k :: 0 <= j < k < |addresses| && addresses[j].isDefault && addresses[k].isDefault
    decreases |addresses|
  {
    if |addresses| == 0 then NotFound
    else
      var last := |addresses| - 1;
      var prefix := addresses[..last];
      var r := DefaultAddress(prefix);
      assert forall k :: 0 <= k < last ==> prefix[k] == addresses[k];
      if !addresses[last].isDefault then r
      else match r
        case NotFound => Found(last)
        case Found(j) => assert addresses[j].isDefault; Several
        case Several => Several
  }

  /** Saving a new default address makes it the only default when there was
      none, and makes the lookup ambiguous when there was one. */
  lemma DefaultAfterSavingDefault(addresses: seq<Address>, a: Address)
    requires a.isDefault
    ensures (forall k :: 0 <= k < |addresses| ==> !addresses[k].isDefault) ==>
      DefaultAddress(addresses + [a]) == Found(|addresses|)
    ensures (exists k :: 0 <= k < |addresses| && addresses[k].isDefault) ==>
      DefaultAddress(addresses + [a]) == Several
  {
    var addresses' := addresses + [a];
    var n := |addresses|;
    assert forall k :: 0 <= k < n ==> addresses'[k] == addresses[k];
    assert addresses'[n].isDefault;
    if exists k :: 0 <= k < n && addresses[k].isDefault {
      var k :| 0 <= k < n && addresses[k].isDefault;
      assert addresses'[k].isDefault;
    }
  }
}
