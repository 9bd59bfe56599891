/** The order actions of lib/actions/order.actions.ts: placing an order
    from the caller's cart in one transaction, and reading an order back. */
module OrderActions {
  import opened Common
  import opened Store
  import opened CartActions
  import opened UserActions

  const NOT_AUTHENTICATED_MSG := "user is not authenticated"
  const NO_USER_ID_MSG := "user not found"
  const CART_EMPTY_MSG := "Cart is empty"
  const NO_ADDRESS_MSG := "No Shipping Address Found"
  const NO_PAYMENT_MSG := "No Payment Method Selected"
  const ORDER_CREATED_MSG := "Order created"
  const CART_PAGE := "/cart"
  const ADDRESS_PAGE := "/shipping-address"
  const PAYMENT_PAGE := "/payment-method"

  /** What the store may raise inside the transaction: the framework's
      redirect signal, or any other failure. Either one rolls back. */
  datatype Fault = RedirectSignal(url: string) | StoreFailure(message: string)

  /** The result of `createOrder`. */
  datatype Checkout =
    | OrderPlaced(orderId: Id, redirectTo: string)  // success, "Order created"
    | SentBack(message: string, redirectTo: string)  // no success, with the checkout step to revisit
    | OrderFailed(error: Error)                      // no success
    | SignalRethrown(url: string)                    // a redirect signal propagated unchanged

  /** The URL of an order's page. */
  function OrderPage(id: Id): string
  {
    "/order/" + IdText(id)
  }

  /** An order's page is "/order/" followed by the order id in decimal. */
  lemma OrderPageNamesTheOrder(id: Id)
    ensures var url := OrderPage(id);
            |url| > 7 && url[..7] == "/order/" && AllDigits(url[7..]) && DecimalValue(url[7..]) == id
  {
    assert OrderPage(id)[7..] == IdText(id);
  }

  /** A falsy payment method (missing or empty) counts as none. */
  predicate HasPaymentMethod(u: User)
  {
    u.paymentMethod.Some? && u.paymentMethod.value != ""
  }

  /** The copy of a cart line stored as an order item. */
  function OrderItemOf(orderId: Id, item: CartItem): OrderItem
  {
    OrderItem(orderId, item.productId, item.name, item.slug, item.qty, item.image, item.price)
  }

  /** The order items made from a list of cart lines, one per line, in order. */
  function OrderLines(orderId: Id, items: seq<CartItem>): (r: seq<OrderItem>)
    ensures |r| == |items|
    ensures forall k :: 0 <= k < |items| ==>
              && r[k].orderId == orderId && r[k].productId == items[k].productId
              && r[k].name == items[k].name && r[k].slug == items[k].slug
              && r[k].qty == items[k].qty && r[k].image == items[k].image
              && r[k].price == items[k].price
  {
    if items == [] then []
    else OrderLines(orderId, items[..|items| - 1]) + [OrderItemOf(orderId, items[|items| - 1])]
  }

  /** The cart table after the cart `id` is emptied and its totals zeroed. */
  function ClearCart(carts: seq<Cart>, id: Id): (r: seq<Cart>)
    ensures |r| == |carts|
    ensures forall k :: 0 <= k < |carts| ==> r[k].id == carts[k].id
    ensures forall k :: 0 <= k < |carts| && carts[k].id != id ==> r[k] == carts[k]
    ensures forall k :: 0 <= k < |carts| && carts[k].id == id ==>
              r[k] == carts[k].(items := [], itemsPrice := 0, shippingPrice := 0, taxPrice := 0, totalPrice := 0)
  {
    seq(|carts|, k requires 0 <= k < |carts| =>
      if carts[k].id == id
      then carts[k].(items := [], itemsPrice := 0, shippingPrice := 0, taxPrice := 0, totalPrice := 0)
      else carts[k])
  }

  /** A cleared cart has zero totals, which is not what the price calculator
      gives for an empty cart: that still charges $10.00 shipping. */
  lemma ClearedCartIsNotRepriced(c: Cart)
    ensures var cleared := c.(items := [], itemsPrice := 0, shippingPrice := 0, taxPrice := 0, totalPrice := 0);
            CalPrice(cleared.items).totalPrice != cleared.totalPrice
  {
    EmptyCartPrices();
  }

  // ---------------------------------------------------------------------
  // Reading an order back

  datatype UserSummary = UserSummary(name: string, email: string)

  /** An order with its items and the name and e-mail of its user. */
  datatype OrderDetails = OrderDetails(order: Order, items: seq<OrderItem>, user: Option<UserSummary>)

  /** The position of the first order with this id. */
  function FindOrder(orders: seq<Order>, id: Id): (r: Option<nat>)
    ensures r.Some? ==> r.value < |orders| && orders[r.value].id == id
    ensures r.None? ==> forall k :: 0 <= k < |orders| ==> orders[k].id != id
  {
    if orders == [] then None
    else if orders[0].id == id then Some(0)
    else
      match FindOrder(orders[1..], id)
      case None => None
      case Some(i) => Some(i + 1)
  }

  /** The items of order `id`, in table order. */
  function ItemsOf(items: seq<OrderItem>, id: Id): (r: seq<OrderItem>)
    ensures forall x :: x in r <==> x in items && x.orderId == id
  {
    if items == [] then []
    else
      var rest := ItemsOf(items[..|items| - 1], id);
      var last := items[|items| - 1];
      assert forall x :: x in items <==> x in items[..|items| - 1] || x == last by {
        assert items == items[..|items| - 1] + [last];
      }
      if last.orderId == id then rest + [last] else rest
  }

  /** Each item of order `id` is selected as often as the table holds it,
      and no other item is selected. */
  lemma {:induction false} ItemsOfCounts(items: seq<OrderItem>, id: Id)
    ensures forall x {:trigger multiset(ItemsOf(items, id))[x]} :: multiset(ItemsOf(items, id))[x] == if x.orderId == id then multiset(items)[x] else 0
  {
    if items != [] {
      var init, last := items[..|items| - 1], items[|items| - 1];
      ItemsOfCounts(init, id);
      assert items == init + [last];
      assert multiset(items) == multiset(init) + multiset{last};
    }
  }

  lemma {:induction false} ItemsOfAppend(a: seq<OrderItem>, b: seq<OrderItem>, id: Id)
    ensures ItemsOf(a + b, id) == ItemsOf(a, id) + ItemsOf(b, id)
    decreases |b|
  {
    if b == [] {
      assert a + b == a;
    } else {
      var b' := b[..|b| - 1];
      assert (a + b)[..|a + b| - 1] == a + b';
      ItemsOfAppend(a, b', id);
    }
  }

  /** The items made from a cart all belong to their order and nothing else
      is selected with them. */
  lemma {:induction false} ItemsOfOrderLines(id: Id, items: seq<CartItem>)
    ensures ItemsOf(OrderLines(id, items), id) == OrderLines(id, items)
  {
    if items != [] {
      var init := items[..|items| - 1];
      ItemsOfOrderLines(id, init);
      ItemsOfAppend(OrderLines(id, init), [OrderItemOf(id, items[|items| - 1])], id);
      assert ItemsOf([OrderItemOf(id, items[|items| - 1])], id) == [OrderItemOf(id, items[|items| - 1])] by {
        assert [OrderItemOf(id, items[|items| - 1])][..0] == [];
      }
    }
  }

  /** No item of another order is selected. */
  lemma {:induction false} ItemsOfNone(items: seq<OrderItem>, id: Id)
    requires forall k :: 0 <= k < |items| ==> items[k].orderId != id
    ensures ItemsOf(items, id) == []
  {
    if items != [] {
      ItemsOfNone(items[..|items| - 1], id);
    }
  }

  lemma {:induction false} FindOrderAppend(orders: seq<Order>, o: Order)
    requires forall k :: 0 <= k < |orders| ==> orders[k].id != o.id
    ensures FindOrder(orders + [o], o.id) == Some(|orders|)
  {
    if orders != [] {
      assert (orders + [o])[1..] == orders[1..] + [o];
      FindOrderAppend(orders[1..], o);
    }
  }

  /** The lookup of `getOrderById` on the order, order-item and user tables:
      the order with this id, each of its items as often as the table holds
      it, and its user's name and e-mail; nothing when there is no such order. */
  function OrderById(orders: seq<Order>, orderItems: seq<OrderItem>, users: map<Id, User>, id: Id)
    : (r: Option<OrderDetails>)
    ensures r.None? <==> forall k :: 0 <= k < |orders| ==> orders[k].id != id
    ensures r.Some? ==> r.value.order in orders && r.value.order.id == id
    ensures r.Some? ==> forall x :: x in r.value.items <==> x in orderItems && x.orderId == id
    ensures r.Some? ==> forall x {:trigger multiset(r.value.items)[x]} :: multiset(r.value.items)[x] ==
                                    if x.orderId == id then multiset(orderItems)[x] else 0
    ensures r.Some? ==> (r.value.user.Some? <==> r.value.order.userId in users)
    ensures r.Some? && r.value.user.Some? ==>
              var u := users[r.value.order.userId];
              r.value.user.value == UserSummary(u.name, u.email)
  {
    match FindOrder(orders, id)
    case None => None
    case Some(i) =>
      var o := orders[i];
      var user := if o.userId in users
                  then Some(UserSummary(users[o.userId].name, users[o.userId].email))
                  else None;
      ItemsOfCounts(orderItems, id);
      Some(OrderDetails(o, ItemsOf(orderItems, id), user))
  }

  /** `getOrderById`: the lookup applied to the store's current tables. */
  function GetOrderById(db: Db, id: Id): Option<OrderDetails>
    reads db
  {
    OrderById(db.orders, db.orderItems, db.users, id)
  }

  // ---------------------------------------------------------------------
  // Placing an order

  /** How the guards of `createOrder` end: stopped with a result, or with
      the user id, the user row and the non-empty cart to order from. */
  datatype Gate = Stop(res: Checkout) | Go(userId: Id, user: User, cart: Cart)

  /** The guards of `createOrder`, in the order `createOrder` checks them: a
      session, a session cart id, a user id, a user row, a non-empty cart,
      a shipping address, a payment method. */
  function Guards(db: Db, who: Identity): (g: Gate)
    reads db
    ensures who.session.None? ==> g == Stop(OrderFailed(Message(NOT_AUTHENTICATED_MSG)))
    ensures who.session.Some? && SessionCartId(who).None? ==> g == Stop(OrderFailed(Message(SESSION_CART_MSG)))
    ensures who.session.Some? && SessionCartId(who).Some? && SignedInUser(who).None? ==>
              g == Stop(OrderFailed(Message(NO_USER_ID_MSG)))
    ensures who.session.Some? && SessionCartId(who).Some? && SignedInUser(who).Some? &&
            SignedInUser(who).value !in db.users ==>
              g == Stop(OrderFailed(Message(USER_NOT_FOUND_MSG)))
    ensures who.session.Some? && SessionCartId(who).Some? && SignedInUser(who).Some? &&
            SignedInUser(who).value in db.users ==>
              var cart := GetMyCart(db, who).value;
              var user := db.users[SignedInUser(who).value];
              && (cart.None? || |cart.value.items| == 0 ==> g == Stop(SentBack(CART_EMPTY_MSG, CART_PAGE)))
              && (cart.Some? && |cart.value.items| > 0 && user.address.None? ==>
                    g == Stop(SentBack(NO_ADDRESS_MSG, ADDRESS_PAGE)))
              && (cart.Some? && |cart.value.items| > 0 && user.address.Some? && !HasPaymentMethod(user) ==>
                    g == Stop(SentBack(NO_PAYMENT_MSG, PAYMENT_PAGE)))
    ensures who.session.Some? && SessionCartId(who).Some? && SignedInUser(who).Some? &&
            SignedInUser(who).value in db.users ==>
              var cart := GetMyCart(db, who).value;
              var user := db.users[SignedInUser(who).value];
              cart.Some? && |cart.value.items| > 0 && user.address.Some? && HasPaymentMethod(user) ==>
                g == Go(SignedInUser(who).value, user, cart.value)
    ensures g.Go? ==>
              && SignedInUser(who) == Some(g.userId) && g.userId in db.users && db.users[g.userId] == g.user
              && GetMyCart(db, who) == Ok(Some(g.cart)) && |g.cart.items| > 0
              && g.user.address.Some? && HasPaymentMethod(g.user)
    ensures g.Stop? ==> !g.res.OrderPlaced?
  {
    if who.session.None? then Stop(OrderFailed(Message(NOT_AUTHENTICATED_MSG)))
    else match GetMyCart(db, who)
    case Err(e) => Stop(OrderFailed(e))
    case Ok(cart) =>
      match SignedInUser(who)
      case None => Stop(OrderFailed(Message(NO_USER_ID_MSG)))
      case Some(userId) =>
        match GetUserById(db.users, userId)
        case Err(e) => Stop(OrderFailed(e))
        case Ok(user) =>
          if cart.None? || |cart.value.items| == 0 then Stop(SentBack(CART_EMPTY_MSG, CART_PAGE))
          else if user.address.None? then Stop(SentBack(NO_ADDRESS_MSG, ADDRESS_PAGE))
          else if !HasPaymentMethod(user) then Stop(SentBack(NO_PAYMENT_MSG, PAYMENT_PAGE))
          else Go(userId, user, cart.value)
  }

  /** The order `createOrder` inserts for this user and cart. Its total is
      taken from the cart's items total, not from the cart's grand total. */
  function OrderSnapshot(id: Id, userId: Id, user: User, cart: Cart): (o: Order)
    requires user.address.Some? && user.paymentMethod.Some?
    ensures o.id == id && o.userId == userId
    ensures o.shippingAddress == user.address.value && o.paymentMethod == user.paymentMethod.value
    ensures o.itemsPrice == cart.itemsPrice && o.shippingPrice == cart.shippingPrice
    ensures o.taxPrice == cart.taxPrice && o.totalPrice == cart.itemsPrice
  {
    Order(id, userId, user.address.value, user.paymentMethod.value,
          cart.itemsPrice, cart.shippingPrice, cart.taxPrice, cart.itemsPrice)
  }

  /** For a cart whose totals are consistent, the order's total equals the
      cart's grand total only when the cart owes neither shipping nor tax:
      an order of a cart of $10.00 records a total of $10.00, not $20.70. */
  lemma SnapshotTotalOmitsShippingAndTax(id: Id, userId: Id, user: User, cart: Cart)
    requires user.address.Some? && user.paymentMethod.Some?
    requires cart.totalPrice == cart.itemsPrice + cart.shippingPrice + cart.taxPrice
    ensures var o := OrderSnapshot(id, userId, user, cart);
            && o.totalPrice <= cart.totalPrice
            && (o.totalPrice == cart.totalPrice <==> cart.shippingPrice == 0 && cart.taxPrice == 0)
  {
  }

  /** The loop of the transaction that creates one order item per cart line,
      in cart order, after the existing ones. */
  method InsertOrderLines(existing: seq<OrderItem>, orderId: Id, items: seq<CartItem>)
    returns (table: seq<OrderItem>)
    ensures table == existing + OrderLines(orderId, items)
    ensures |table| == |existing| + |items|
  {
    table := existing;
    var i := 0;
    while i < |items|
      invariant 0 <= i <= |items|
      invariant table == existing + OrderLines(orderId, items[..i])
    {
      assert items[..i + 1][..i] == items[..i];
      table := table + [OrderItemOf(orderId, items[i])];
      i := i + 1;
    }
    assert items[..i] == items;
  }

  /** Reading back a freshly inserted order gives the order, exactly its own
      lines and its user's name and e-mail. */
  lemma ReadBackNewOrder(orders: seq<Order>, orderItems: seq<OrderItem>, users: map<Id, User>,
                         order: Order, items: seq<CartItem>, user: User)
    requires forall k :: 0 <= k < |orders| ==> orders[k].id != order.id
    requires forall k :: 0 <= k < |orderItems| ==> orderItems[k].orderId != order.id
    requires order.userId in users && users[order.userId] == user
    ensures OrderById(orders + [order], orderItems + OrderLines(order.id, items), users, order.id)
            == Some(OrderDetails(order, OrderLines(order.id, items), Some(UserSummary(user.name, user.email))))
  {
    var lines := OrderLines(order.id, items);
    FindOrderAppend(orders, order);
    assert ItemsOf(orderItems + lines, order.id) == lines by {
      ItemsOfAppend(orderItems, lines, order.id);
      ItemsOfNone(orderItems, order.id);
      ItemsOfOrderLines(order.id, items);
    }
  }

  /** Committing the transaction keeps the store's invariant. */
  lemma CommitKeepsValid(db: Db, order: Order, items: seq<CartItem>, carts: seq<Cart>)
    requires db.Valid() && order.id == db.nextId
    requires |carts| == |db.carts| && forall k :: 0 <= k < |carts| ==> carts[k].id == db.carts[k].id
    ensures TablesValid(db.users, carts, db.orders + [order],
                        db.orderItems + OrderLines(order.id, items), db.nextId + 1)
  {
    var lines := db.orderItems + OrderLines(order.id, items);
    forall i | 0 <= i < |lines|
      ensures lines[i].orderId < db.nextId + 1
    {
      if i >= |db.orderItems| {
        assert lines[i] == OrderLines(order.id, items)[i - |db.orderItems|];
      }
    }
  }

  /** The transaction of `createOrder`: insert the order, one item per cart
      line in cart order, and clear the cart. `txFault` is what the store
      raises inside it, if anything; a fault rolls everything back, a
      redirect signal is passed on and any other failure is reported. */
  method PlaceOrder(db: Db, userId: Id, user: User, cart: Cart, txFault: Option<Fault>) returns (res: Checkout)
    requires db.Valid()
    requires userId in db.users && db.users[userId] == user
    requires user.address.Some? && HasPaymentMethod(user)
    modifies db
    ensures db.Valid()
    ensures db.users == old(db.users) && db.products == old(db.products)
    ensures txFault.Some? ==>
              && res == (match txFault.value
                         case RedirectSignal(url) => SignalRethrown(url)
                         case StoreFailure(m) => OrderFailed(Message(m)))
              && db.carts == old(db.carts) && db.orders == old(db.orders)
              && db.orderItems == old(db.orderItems) && db.nextId == old(db.nextId)
    ensures txFault.None? ==>
              var order := OrderSnapshot(old(db.nextId), userId, user, cart);
              && res == OrderPlaced(old(db.nextId), OrderPage(old(db.nextId)))
              && db.orders == old(db.orders) + [order]
              && db.orderItems == old(db.orderItems) + OrderLines(order.id, cart.items)
              && db.carts == ClearCart(old(db.carts), cart.id)
              && db.nextId == old(db.nextId) + 1
              && GetOrderById(db, order.id) ==
                   Some(OrderDetails(order, OrderLines(order.id, cart.items),
                                     Some(UserSummary(user.name, user.email))))
  {
    var orderId := db.nextId;
    var order := OrderSnapshot(orderId, userId, user, cart);

    // The transaction body works on copies, written back only when the
    // whole body went through.
    var orders := db.orders + [order];
    var orderItems := InsertOrderLines(db.orderItems, orderId, cart.items);
    var carts := ClearCart(db.carts, cart.id);
    if txFault.Some? {
      match txFault.value
      case RedirectSignal(url) => return SignalRethrown(url);
      case StoreFailure(m) => return OrderFailed(Message(m));
    }

    CommitKeepsValid(db, order, cart.items, carts);
    db.orders, db.orderItems, db.carts, db.nextId := orders, orderItems, carts, orderId + 1;
    assert GetOrderById(db, orderId) ==
           Some(OrderDetails(order, OrderLines(orderId, cart.items), Some(UserSummary(user.name, user.email)))) by {
      ReadBackNewOrder(old(db.orders), old(db.orderItems), db.users, order, cart.items, user);
    }
    return OrderPlaced(orderId, OrderPage(orderId));
  }

  /** `createOrder`: the guards, then, when all pass, the transaction.
      Nothing is written unless every guard passes. */
  method CreateOrder(db: Db, who: Identity, txFault: Option<Fault>) returns (res: Checkout)
    requires db.Valid()
    modifies db
    ensures db.Valid()
    ensures db.users == old(db.users) && db.products == old(db.products)
    ensures old(Guards(db, who)).Stop? ==> res == old(Guards(db, who)).res
    ensures old(Guards(db, who)).Go? && txFault.Some? ==>
              res == match txFault.value
                     case RedirectSignal(url) => SignalRethrown(url)
                     case StoreFailure(m) => OrderFailed(Message(m))
    ensures res.OrderPlaced? <==> old(Guards(db, who)).Go? && txFault.None?
    ensures !res.OrderPlaced? ==>
              && db.carts == old(db.carts) && db.orders == old(db.orders)
              && db.orderItems == old(db.orderItems) && db.nextId == old(db.nextId)
    ensures res.OrderPlaced? ==>
              var g := old(Guards(db, who));
              var order := OrderSnapshot(res.orderId, g.userId, g.user, g.cart);
              && res.orderId == old(db.nextId)
              && res.redirectTo == OrderPage(res.orderId)
              && db.orders == old(db.orders) + [order]
              && db.orderItems == old(db.orderItems) + OrderLines(res.orderId, g.cart.items)
              && db.carts == ClearCart(old(db.carts), g.cart.id)
              && db.nextId == old(db.nextId) + 1
              && GetOrderById(db, res.orderId) ==
                   Some(OrderDetails(order, OrderLines(res.orderId, g.cart.items),
                                     Some(UserSummary(g.user.name, g.user.email))))
  {
    var g := Guards(db, who);
    if g.Stop? {
      return g.res;
    }
    res := PlaceOrder(db, g.userId, g.user, g.cart, txFault);
  }
}
