/** The relational store the server actions read and write: the user,
    product, cart, order and order-item tables. Money is held in integer
    cents. Row ids are drawn from a counter, standing in for the
    store-generated identifiers. */
module Store {
  import opened Common

  datatype Address = Address(
    fullName: string, streetAddress: string, city: string,
    state: string, postalCode: string, country: string)

  datatype User = User(
    name: string, email: string, role: string, password: string,
    address: Option<Address>, paymentMethod: Option<string>)

  /** One cart line; `price` is the unit price in cents. */
  datatype CartItem = CartItem(
    productId: Id, name: string, slug: string, qty: nat, image: string, price: nat)

  /** A cart, owned by a signed-in user (`userId`) and/or an anonymous
      session (`sessionCartId`), with its four cached totals in cents. */
  datatype Cart = Cart(
    id: Id, userId: Option<Id>, sessionCartId: string, items: seq<CartItem>,
    itemsPrice: nat, shippingPrice: nat, taxPrice: nat, totalPrice: nat)

  /** An order, with its totals frozen at creation. */
  datatype Order = Order(
    id: Id, userId: Id, shippingAddress: Address, paymentMethod: string,
    itemsPrice: nat, shippingPrice: nat, taxPrice: nat, totalPrice: nat)

  /** A copy of one cart line, attached to an order. */
  datatype OrderItem = OrderItem(
    orderId: Id, productId: Id, name: string, slug: string, qty: nat, image: string, price: nat)

  /** Every generated id is below the counter, cart and order ids are
      unique, and every order item belongs to an id already handed out. */
  ghost predicate TablesValid(users: map<Id, User>, carts: seq<Cart>, orders: seq<Order>,
                              orderItems: seq<OrderItem>, nextId: nat)
  {
    && (forall id :: id in users ==> id < nextId)
    && (forall i :: 0 <= i < |carts| ==> carts[i].id < nextId)
    && (forall i, j :: 0 <= i < j < |carts| ==> carts[i].id != carts[j].id)
    && (forall i :: 0 <= i < |orders| ==> orders[i].id < nextId)
    && (forall i, j :: 0 <= i < j < |orders| ==> orders[i].id != orders[j].id)
    && (forall i :: 0 <= i < |orderItems| ==> orderItems[i].orderId < nextId)
  }

  class Db {
    var users: map<Id, User>
    var products: set<Id>
    var carts: seq<Cart>
    var orders: seq<Order>
    var orderItems: seq<OrderItem>
    var nextId: nat

    /** The store's invariant, stated on its tables (see `TablesValid`). */
    ghost predicate Valid()
      reads this
    {
      TablesValid(users, carts, orders, orderItems, nextId)
    }

    /** A store whose product table is given and whose other tables are empty. */
    constructor (products: set<Id>)
      ensures Valid()
      ensures this.products == products
      ensures users == map[] && carts == [] && orders == [] && orderItems == []
    {
      this.products := products;
      users := map[];
      carts := [];
      orders := [];
      orderItems := [];
      nextId := 0;
    }
  }
}
