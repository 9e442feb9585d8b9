/**
 * The order workflow: checkout turns the cart into a pending order appended to
 * the stored order list; the admin's confirm button marks orders confirmed; the
 * admin panel lists the orders still pending.
 */
module OrderWorkflow {
  import opened Seqs
  import opened Shop
  import opened CartEngine

  /** An order's precomputed total agrees with its items. */
  predicate Consistent(o: Order)
  {
    o.totalPrice == Total(o.items)
  }

  ghost predicate AllConsistent(os: seq<Order>)
  {
    forall k :: 0 <= k < |os| ==> Consistent(os[k])
  }

  /**
   * The checkout form can be submitted: it is shown only while the cart has a
   * line, and its name, phone and location fields are required.
   */
  predicate FormAccepts(cart: seq<CartItem>, name: string, phone: string, location: string)
  {
    cart != [] && name != "" && phone != "" && location != ""
  }

  /** The order checkout builds from the form and a snapshot of the cart. */
  function NewOrder(id: string, name: string, phone: string, location: string, kind: OrderType, cart: seq<CartItem>): (o: Order)
    ensures o.status == Pending && o.items == cart && Consistent(o)
    ensures o.id == id && o.customerName == name && o.customerPhone == phone && o.location == location
    ensures o.kind == kind && o.userTelegram == TelegramPlaceholder
  {
    Order(id, name, phone, location, cart, kind, Pending, Total(cart), TelegramPlaceholder)
  }

  /** Checkout's write of the order list: the new order goes last. */
  function AppendOrder(os: seq<Order>, o: Order): seq<Order>
  {
    os + [o]
  }

  /** The confirm step on the stored orders: every order with that id becomes confirmed. */
  function ConfirmStatus(os: seq<Order>, id: string): seq<Order>
  {
    seq(|os|, k requires 0 <= k < |os| =>
      if os[k].id == id then os[k].(status := Confirmed) else os[k])
  }

  function IsPending(o: Order): bool
  {
    o.status == Pending
  }

  /** The admin panel's queue of orders waiting for confirmation. */
  function PendingOrders(os: seq<Order>): seq<Order>
  {
    Filter(IsPending, os)
  }

  function OrderIdIsNot(id: string): Order -> bool
  {
    (o: Order) => o.id != id
  }

  /**
   * Confirming changes only `status`, only of the orders with that id; a
   * confirmed order stays confirmed, so the transition is one-way.
   */
  lemma ConfirmStatusSpec(os: seq<Order>, id: string)
    ensures var r := ConfirmStatus(os, id);
      && |r| == |os|
      && (forall k :: 0 <= k < |os| ==> r[k].(status := os[k].status) == os[k])
      && (forall k :: 0 <= k < |os| ==> (r[k].status == Confirmed <==> os[k].id == id || os[k].status == Confirmed))
  {
  }

  /** Confirming twice gives the same list as confirming once. */
  lemma ConfirmIdempotent(os: seq<Order>, id: string)
    ensures ConfirmStatus(ConfirmStatus(os, id), id) == ConfirmStatus(os, id)
  {
  }

  /** Totals fixed at checkout still agree with the items after any confirmation. */
  lemma ConfirmKeepsConsistent(os: seq<Order>, id: string)
    requires AllConsistent(os)
    ensures AllConsistent(ConfirmStatus(os, id))
  {
    var r := ConfirmStatus(os, id);
    forall k | 0 <= k < |r| ensures Consistent(r[k]) {
      assert r[k].items == os[k].items && r[k].totalPrice == os[k].totalPrice;
    }
  }

  /** Confirming an id takes exactly the orders with that id out of the pending queue, keeping the rest in order. */
  lemma {:induction false} PendingAfterConfirm(os: seq<Order>, id: string)
    ensures PendingOrders(ConfirmStatus(os, id)) == Filter(OrderIdIsNot(id), PendingOrders(os))
    decreases |os|
  {
    if os != [] {
      var r := ConfirmStatus(os, id);
      var h := r[0];
      assert r == [h] + ConfirmStatus(os[1..], id);
      assert os == [os[0]] + os[1..];
      PendingAfterConfirm(os[1..], id);
      FilterConcat(IsPending, [h], ConfirmStatus(os[1..], id));
      FilterConcat(IsPending, [os[0]], os[1..]);
      FilterConcat(OrderIdIsNot(id), Filter(IsPending, [os[0]]), PendingOrders(os[1..]));
      if IsPending(os[0]) {
        assert Filter(IsPending, [os[0]]) == [os[0]];
      } else {
        assert Filter(IsPending, [os[0]]) == [];
      }
      assert Filter(IsPending, [h]) == Filter(OrderIdIsNot(id), Filter(IsPending, [os[0]]));
    } else {
      assert ConfirmStatus(os, id) == [];
    }
  }

  /** Checkout appends: the stored orders before it are untouched and the new one is the last. */
  lemma AppendOrderSpec(os: seq<Order>, o: Order)
    ensures var r := AppendOrder(os, o);
      |r| == |os| + 1 && r[..|os|] == os && r[|os|] == o
      && PendingOrders(r) == PendingOrders(os) + (if IsPending(o) then [o] else [])
  {
    FilterConcat(IsPending, os, [o]);
  }

  /** Scenario: checking out one line of price 100000 at quantity 2 gives a pending order of 200000. */
  lemma CheckoutScenario()
    ensures var p := Product("001", "Dress", "", ["u1"], 2, Sale, "M", 100000);
      var o := NewOrder("ABCDE", "Ali", "+998", "Tashkent", Delivery, [CartItem(p, 2)]);
      o.totalPrice == 200000 && o.status == Pending
  {
    var p := Product("001", "Dress", "", ["u1"], 2, Sale, "M", 100000);
    assert Total([CartItem(p, 2)]) == Total([]) + LineTotal(CartItem(p, 2));
  }
}
