/** The cart actions of lib/actions/cart.actions.ts: the price calculator,
    the lookup of the caller's cart, and add-to-cart. The caller's cookie
    and session are passed in as an explicit identity. */
module CartActions {
  import opened Common
  import opened Store

  /** Shipping is free strictly above $100.00, otherwise $10.00. */
  const FREE_SHIPPING_ABOVE: nat := 10000
  const SHIPPING_FEE: nat := 1000

  const SESSION_CART_MSG := "Session Cart Id not found"
  const PRODUCT_MSG := "Product not found"
  const ADDED_MSG := "Item added to cart"

  /** The four totals of a cart, in cents. */
  datatype Prices = Prices(itemsPrice: nat, shippingPrice: nat, taxPrice: nat, totalPrice: nat)

  function LineTotal(item: CartItem): nat
  {
    item.price * item.qty
  }

  /** The items total: a left-to-right `reduce` adding price times quantity. */
  function ItemsPrice(items: seq<CartItem>): nat
  {
    if items == [] then 0 else ItemsPrice(items[..|items| - 1]) + LineTotal(items[|items| - 1])
  }

  /** Seven percent of the items total, rounded to the nearest cent with
      halves rounded up (`calPrice`'s rounding helper `round2` is assumed
      to round half up). */
  function Tax(itemsPrice: nat): (t: nat)
    ensures 100 * t - 50 <= 7 * itemsPrice < 100 * t + 50
  {
    (7 * itemsPrice + 50) / 100
  }

  /** `calPrice`. */
  function CalPrice(items: seq<CartItem>): Prices
  {
    var itemsPrice := ItemsPrice(items);
    var shippingPrice := if itemsPrice > FREE_SHIPPING_ABOVE then 0 else SHIPPING_FEE;
    var taxPrice := Tax(itemsPrice);
    Prices(itemsPrice, shippingPrice, taxPrice, itemsPrice + shippingPrice + taxPrice)
  }

  /** The pricing rules: shipping is free exactly above $100.00 (an items
      total of exactly $100.00 still pays $10.00), tax is 7% to the nearest
      cent, and the grand total is the sum of the other three. */
  lemma PricingRules(items: seq<CartItem>)
    ensures var p := CalPrice(items);
            && p.itemsPrice == ItemsPrice(items)
            && (p.shippingPrice == 0 <==> p.itemsPrice > 10000)
            && (p.shippingPrice != 0 ==> p.shippingPrice == 1000)
            && 100 * p.taxPrice - 50 <= 7 * p.itemsPrice < 100 * p.taxPrice + 50
            && p.totalPrice == p.itemsPrice + p.shippingPrice + p.taxPrice
  {
  }

  /** The items total of two lists placed one after the other is the sum of
      their totals. */
  lemma {:induction false} ItemsPriceAppend(a: seq<CartItem>, b: seq<CartItem>)
    ensures ItemsPrice(a + b) == ItemsPrice(a) + ItemsPrice(b)
    decreases |b|
  {
    if b != [] {
      var last := b[|b| - 1];
      var b' := b[..|b| - 1];
      assert (a + b)[..|a + b| - 1] == a + b';
      assert (a + b)[|a + b| - 1] == last;
      ItemsPriceAppend(a, b');
    } else {
      assert a + b == a;
    }
  }

  /** Taking one line out of a list lowers its items total by that line. */
  lemma {:induction false} ItemsPriceRemove(b: seq<CartItem>, k: nat)
    requires k < |b|
    ensures ItemsPrice(b) == ItemsPrice(b[..k] + b[k + 1..]) + LineTotal(b[k])
  {
    var pre, x, post := b[..k], b[k], b[k + 1..];
    var mid := [x] + post;
    assert b == pre + mid;
    ItemsPriceAppend(pre, mid);
    ItemsPriceAppend([x], post);
    ItemsPriceAppend(pre, post);
    assert ItemsPrice([x]) == LineTotal(x) by { assert [x][..0] == []; }
  }

  /** Removing the element at `k` removes one copy of it from the multiset. */
  lemma MultisetRemove(b: seq<CartItem>, k: nat)
    requires k < |b|
    ensures multiset(b[..k] + b[k + 1..]) == multiset(b) - multiset{b[k]}
  {
    assert b == b[..k] + [b[k]] + b[k + 1..];
  }

  /** The items total is the sum over the lines whatever their order. */
  lemma {:induction false} ItemsPricePermutation(a: seq<CartItem>, b: seq<CartItem>)
    requires multiset(a) == multiset(b)
    ensures ItemsPrice(a) == ItemsPrice(b)
    decreases |a|
  {
    if a == [] {
      assert |b| == |multiset(b)| == 0;
    } else {
      var n := |a| - 1;
      var x := a[n];
      assert x in multiset(b);
      var k :| 0 <= k < |b| && b[k] == x;
      MultisetRemove(a, n);
      MultisetRemove(b, k);
      assert a[..n] + a[n + 1..] == a[..n];
      ItemsPricePermutation(a[..n], b[..k] + b[k + 1..]);
      ItemsPriceRemove(b, k);
    }
  }

  /** An empty cart has no items total but still pays shipping. */
  lemma EmptyCartPrices()
    ensures CalPrice([]) == Prices(0, 1000, 0, 1000)
  {
  }

  /** Two worked examples: one line of 2 x $60.00, and one of 1 x $10.00. */
  lemma PriceExamples(p1: Id, p2: Id)
    ensures CalPrice([CartItem(p1, "A", "a", 2, "", 6000)]) == Prices(12000, 0, 840, 12840)
    ensures CalPrice([CartItem(p2, "B", "b", 1, "", 1000)]) == Prices(1000, 1000, 70, 2070)
  {
    var one := [CartItem(p1, "A", "a", 2, "", 6000)];
    assert one[..0] == [];
    assert ItemsPrice(one) == 12000;
    assert Tax(12000) == 840;
    var two := [CartItem(p2, "B", "b", 1, "", 1000)];
    assert two[..0] == [];
    assert ItemsPrice(two) == 1000;
    assert Tax(1000) == 70;
  }

  // ---------------------------------------------------------------------
  // The caller's identity and the cart lookup

  /** What the session provider reports about a signed-in caller. */
  datatype Session = Session(userId: Option<Id>)

  /** The `sessionCartId` cookie, if any, and the session, if any. */
  datatype Identity = Identity(cookie: Option<string>, session: Option<Session>)

  /** The session cart id when the cookie is present and non-empty. */
  function SessionCartId(who: Identity): (r: Option<string>)
    ensures r.Some? <==> who.cookie.Some? && who.cookie.value != ""
    ensures r.Some? ==> r.value == who.cookie.value
  {
    if who.cookie.Some? && who.cookie.value != "" then who.cookie else None
  }

  /** `session?.user?.id`. */
  function SignedInUser(who: Identity): Option<Id>
  {
    if who.session.Some? then who.session.value.userId else None
  }

  /** Which carts belong to the caller. */
  datatype CartKey = ByUser(userId: Id) | BySession(sessionCartId: string)

  /** Carts are looked up by user id when signed in, otherwise by the
      session cart id. */
  function KeyOf(who: Identity, sessionCartId: string): CartKey
  {
    if SignedInUser(who).Some? then ByUser(SignedInUser(who).value) else BySession(sessionCartId)
  }

  predicate Owns(c: Cart, key: CartKey)
  {
    match key
    case ByUser(u) => c.userId == Some(u)
    case BySession(s) => c.sessionCartId == s
  }

  /** The position of the first cart that belongs to `key`. */
  function FindCart(carts: seq<Cart>, key: CartKey): (r: Option<nat>)
    ensures r.Some? ==> r.value < |carts| && Owns(carts[r.value], key)
    ensures r.Some? ==> forall j :: 0 <= j < r.value ==> !Owns(carts[j], key)
    ensures r.None? ==> forall j :: 0 <= j < |carts| ==> !Owns(carts[j], key)
  {
    if carts == [] then None
    else if Owns(carts[0], key) then Some(0)
    else
      match FindCart(carts[1..], key)
      case None => None
      case Some(i) => Some(i + 1)
  }

  /** Appending a cart that belongs to `key` to a table where none did
      makes the lookup find it. */
  lemma {:induction false} FindCartAppend(carts: seq<Cart>, c: Cart, key: CartKey)
    requires FindCart(carts, key).None? && Owns(c, key)
    ensures FindCart(carts + [c], key) == Some(|carts|)
  {
    if carts != [] {
      assert (carts + [c])[1..] == carts[1..] + [c];
      FindCartAppend(carts[1..], c, key);
    }
  }

  /** `getMyCart`: fails without a session cart id; otherwise the first cart
      of the caller (by user id when signed in, else by session cart id),
      or none. */
  function GetMyCart(db: Db, who: Identity): (r: Result<Option<Cart>>)
    reads db
    ensures r.Err? <==> SessionCartId(who).None?
    ensures r.Err? ==> r.error == Message(SESSION_CART_MSG)
    ensures r.Ok? ==>
      var key := KeyOf(who, SessionCartId(who).value);
      && (r.value.Some? ==> r.value.value in db.carts && Owns(r.value.value, key))
      && (r.value.None? <==> forall j :: 0 <= j < |db.carts| ==> !Owns(db.carts[j], key))
  {
    match SessionCartId(who)
    case None => Err(Message(SESSION_CART_MSG))
    case Some(sid) =>
      match FindCart(db.carts, KeyOf(who, sid))
      case None => Ok(None)
      case Some(i) => Ok(Some(db.carts[i]))
  }

  /** `addItemToCart`. `parsed` is what the cart-item schema makes of the
      submitted item (that schema is not part of this model). Checks, in
      order: the session cart id, the item, the product. A new cart holding
      just this item is created only when the caller has none; when a cart
      exists the action reports success and changes nothing. */
  method AddItemToCart(db: Db, who: Identity, parsed: Result<CartItem>) returns (reply: Reply)
    requires db.Valid()
    modifies db
    ensures db.Valid()
    ensures db.users == old(db.users) && db.products == old(db.products)
    ensures db.orders == old(db.orders) && db.orderItems == old(db.orderItems)
    ensures SessionCartId(who).None? ==> reply == Failed(Message(SESSION_CART_MSG))
    ensures SessionCartId(who).Some? && parsed.Err? ==> reply == Failed(parsed.error)
    ensures SessionCartId(who).Some? && parsed.Ok? && parsed.value.productId !in db.products ==>
              reply == Failed(Message(PRODUCT_MSG))
    ensures reply.Succeeded? <==>
              SessionCartId(who).Some? && parsed.Ok? && parsed.value.productId in db.products
    ensures reply.Succeeded? ==> reply.message == ADDED_MSG
    ensures if reply.Succeeded? && old(GetMyCart(db, who)) == Ok(None) then
              var item := parsed.value;
              var p := CalPrice([item]);
              var c := Cart(old(db.nextId), SignedInUser(who), SessionCartId(who).value, [item],
                            p.itemsPrice, p.shippingPrice, p.taxPrice, p.totalPrice);
              && db.carts == old(db.carts) + [c]
              && db.nextId == old(db.nextId) + 1
              && GetMyCart(db, who) == Ok(Some(c))
            else
              db.carts == old(db.carts) && db.nextId == old(db.nextId)
  {
    var sid := SessionCartId(who);
    if sid.None? {
      return Failed(Message(SESSION_CART_MSG));
    }
    var userId := SignedInUser(who);
    var cart := GetMyCart(db, who);
    if parsed.Err? {
      return Failed(parsed.error);
    }
    var item := parsed.value;
    if item.productId !in db.products {
      return Failed(Message(PRODUCT_MSG));
    }
    if cart == Ok(None) {
      var p := CalPrice([item]);
      var c := Cart(db.nextId, userId, sid.value, [item],
                    p.itemsPrice, p.shippingPrice, p.taxPrice, p.totalPrice);
      FindCartAppend(db.carts, c, KeyOf(who, sid.value));
      db.carts := db.carts + [c];
      db.nextId := db.nextId + 1;
      return Succeeded(ADDED_MSG);
    }
    return Succeeded(ADDED_MSG);
  }
}
