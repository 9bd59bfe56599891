# prostore checkout core, in Dafny

This project models the server-side core of the prostore storefront:

- the cart price calculator and add-to-cart;
- the lookup of the caller's cart;
- order creation: the guards, then one transaction that inserts the order and its items and clears the cart;
- reading an order back;
- the decimal-string formatter and the input validators;
- the user-table actions: lookup, paging, updates, deletion, sign-in, sign-up and admin creation.

It proves properties of that model.

The relational store is one class, `Store.Db`, whose fields are the tables:

- `users` is a map from id to row;
- `products` is the set of product ids;
- `carts`, `orders` and `orderItems` are sequences in insertion order;
- `nextId` is a counter that stands in for the store-generated ids.

The actions that write to the store are methods that take it and `modifies` it: add-to-cart, order creation, the user updates, deletion, sign-up and admin creation. Each one's contract states:

- the result envelope;
- the whole new state of every table;
- that the invariant `Valid()` is kept: ids lie below the counter, and cart and order ids are unique.

The actions that only read are functions: `getMyCart`, `getOrderById` and `getUserById` read the store, while `getAllUsers` and `signInWithCredentials` work on values passed in.

Money is held in integer cents. Inputs from outside the files modelled are explicit parameters:

- the caller's cookie and session (`CartActions.Identity`);
- the verdicts of the schemas not shown (cart item, address, payment method, admin user form);
- the password hash;
- the outcome of the session provider's sign-in;
- what the store raises inside the order transaction (`OrderActions.Fault`).

Modules, one per source file, plus two shared ones:

- `Common`: `Option`, `Result`, the `Error` and `Reply` envelopes, the decimal text of an id;
- `Store`: the entities and `Db`;
- `Utils`: `lib/utils.ts`;
- `Schemas`: `lib/schemas.ts`;
- `CartActions`: `lib/actions/cart.actions.ts`;
- `OrderActions`: `lib/actions/order.actions.ts`;
- `UserActions`: `lib/actions/user.actions.ts`.

Some behaviours of the code are easy to miss; the model follows the code:

- Add-to-cart does not raise a quantity or check stock. When the caller already has a cart, it reports success and changes nothing (`AddItemToCart`).
- An order's `totalPrice` is the cart's items total, not its grand total (`SnapshotTotalOmitsShippingAndTax`).
- A cart cleared by an order has all four totals at 0. This is not what the price calculator gives for an empty cart, which still charges $10.00 shipping (`ClearedCartIsNotRepriced`).
- A cart row keeps both the user id (when signed in) and the session cart id.

## Model

| member | source | states |
|---|---|---|
| CartActions.ItemsPrice | lib/actions/cart.actions.ts:14 | the items total, price times quantity summed over the lines from left to right; its properties are `ItemsPriceAppend`, `ItemsPriceRemove` and `ItemsPricePermutation` |
| CartActions.CalPrice | lib/actions/cart.actions.ts:13-25 | the four totals of a list of lines; what they satisfy is stated in `PricingRules`, `EmptyCartPrices` and `PriceExamples` |
| CartActions.Tax | lib/actions/cart.actions.ts:16 | the tax is 7% of the items total to the nearest cent (round half up assumed) |
| CartActions.PricingRules | lib/actions/cart.actions.ts:13-25 | shipping is 0 exactly when the items total exceeds $100.00, else $10.00; tax is 7% to the cent; the total is the sum of the three |
| CartActions.ItemsPriceAppend | lib/actions/cart.actions.ts:14 | the items total of two lists one after the other is the sum of their totals |
| CartActions.ItemsPriceRemove | lib/actions/cart.actions.ts:14 | removing one line lowers the items total by exactly that line's price times quantity |
| CartActions.ItemsPricePermutation | lib/actions/cart.actions.ts:14 | the items total does not depend on the order of the lines |
| CartActions.EmptyCartPrices | lib/actions/cart.actions.ts:14-17 | an empty cart totals 0 items, $10.00 shipping, 0 tax, $10.00 in all |
| CartActions.PriceExamples | lib/actions/cart.actions.ts:13-25 | 2 x $60.00 gives 120.00/0.00/8.40/128.40; 1 x $10.00 gives 10.00/10.00/0.70/20.70 |
| CartActions.SessionCartId | lib/actions/cart.actions.ts:31-36 | there is a session cart id exactly when the cookie is present and non-empty |
| CartActions.SignedInUser | lib/actions/cart.actions.ts:40-42 | the user id of the session, none without a session or without an id |
| CartActions.KeyOf | lib/actions/cart.actions.ts:114 | the cart key: the user id when signed in, otherwise the session cart id |
| CartActions.Owns | lib/actions/cart.actions.ts:114 | a cart matches a user key by its user id and a session key by its session cart id |
| CartActions.FindCart | lib/actions/cart.actions.ts:113-115 | the first cart owned by the key, and none when no cart is owned by it |
| CartActions.FindCartAppend | lib/actions/cart.actions.ts:113-116 | a cart appended where the caller had none is the one the lookup then finds |
| CartActions.GetMyCart | lib/actions/cart.actions.ts:97-127 | fails with "Session Cart Id not found" exactly without a cookie; otherwise the caller's cart, by user id when signed in and by session cart id otherwise; none exactly when no cart matches |
| CartActions.AddItemToCart | lib/actions/cart.actions.ts:28-95 | checks the cookie, then the item, then the product, each with its message; succeeds exactly when all pass; only when the caller has no cart does it add one cart holding the item, priced by `calPrice`, which the lookup then returns; otherwise no table changes |
| OrderActions.OrderPage | lib/actions/order.actions.ts:97 | the redirect URL of an order; its form is stated in `OrderPageNamesTheOrder` |
| OrderActions.OrderPageNamesTheOrder | lib/actions/order.actions.ts:97 | the redirect is "/order/" followed by the digits of the new order id |
| OrderActions.OrderLines | lib/actions/order.actions.ts:68-76 | one order item per cart line, in cart order, each with the order id and the line's product, name, slug, quantity, image and price |
| OrderActions.ClearCart | lib/actions/order.actions.ts:78-87 | the cart with this id gets no items and four zero totals; every other cart is unchanged |
| OrderActions.ClearedCartIsNotRepriced | lib/actions/order.actions.ts:78-87 | the cleared cart's zero total differs from the calculator's total for an empty cart |
| OrderActions.FindOrder | lib/actions/order.actions.ts:110-113 | the position of an order with this id, none exactly when there is no such order |
| OrderActions.ItemsOf | lib/actions/order.actions.ts:115 | selects exactly the order items of this order |
| OrderActions.ItemsOfCounts | lib/actions/order.actions.ts:115 | each item of the order is selected exactly as often as the table holds it, and no other item |
| OrderActions.ItemsOfAppend | lib/actions/order.actions.ts:115 | selecting from two tables one after the other concatenates the selections |
| OrderActions.ItemsOfOrderLines | lib/actions/order.actions.ts:68-76 | the items made from a cart are all selected for their order |
| OrderActions.ItemsOfNone | lib/actions/order.actions.ts:115 | no item of another order is selected |
| OrderActions.FindOrderAppend | lib/actions/order.actions.ts:110-113 | an order appended with a fresh id is found at its position |
| OrderActions.OrderById | lib/actions/order.actions.ts:110-118 | nothing exactly when no order has the id; otherwise an order with that id, each of its items as often as the table holds it and no other, and, when the user row exists, that user's name and e-mail |
| OrderActions.GetOrderById | lib/actions/order.actions.ts:109-121 | the lookup on the store's current tables; its contract is `OrderById`'s |
| OrderActions.HasPaymentMethod | lib/actions/order.actions.ts:44 | a payment method counts only when it is present and not empty |
| OrderActions.Guards | lib/actions/order.actions.ts:16-50 | the guards in the order `createOrder` checks them: no session, no cookie, no user id and no user row fail with their messages; a missing or empty cart, a missing address and a missing or empty payment method send back to "/cart", "/shipping-address" and "/payment-method" in that order; when every guard passes it goes on with the caller's user id, user row and cart, and only then |
| OrderActions.OrderSnapshot | lib/actions/order.actions.ts:53-61 | the order copies user id, address, payment method and the cart's items, shipping and tax totals; its total is the cart's items total |
| OrderActions.SnapshotTotalOmitsShippingAndTax | lib/actions/order.actions.ts:60 | the order's total never exceeds the cart's grand total and equals it only when shipping and tax are both 0 |
| OrderActions.InsertOrderLines | lib/actions/order.actions.ts:68-76 | the loop appends exactly the order items of the cart lines, in order, after the existing ones |
| OrderActions.ReadBackNewOrder | lib/actions/order.actions.ts:109-118 | a newly inserted order is found by id, with exactly its own items |
| OrderActions.CommitKeepsValid | lib/actions/order.actions.ts:64-90 | committing the transaction keeps ids below the counter and unique |
| OrderActions.PlaceOrder | lib/actions/order.actions.ts:64-105 | all or nothing: with a fault nothing changes, a redirect signal is passed on and other failures are reported; without one exactly one order, one item per line and the cleared cart are written, and reading the order back gives them |
| OrderActions.CreateOrder | lib/actions/order.actions.ts:13-106 | a failing guard returns its result and writes nothing; an order is placed exactly when every guard passes (both directions are stated by `Guards`) and the transaction does not fault; a fault writes nothing; the placed order, its lines and the cleared cart are written and read back, and the redirect names the new order |
| Common.IdText | lib/actions/order.actions.ts:97 | the decimal text of an id, made of digits only, reads back as the id |
| Utils.Split | lib/utils.ts:20 | at least one piece, none containing the separator |
| Utils.PadEnd | lib/utils.ts:21 | a shorter string is padded with the pad character to the length; a long enough one is unchanged |
| Utils.JoinSplit | lib/utils.ts:20 | joining the pieces of a split gives back the text |
| Utils.SplitJoin | lib/utils.ts:20 | splitting a join of separator-free pieces gives back the pieces |
| Utils.NoSeparator | lib/utils.ts:20 | text without the separator splits into itself |
| Utils.SplitAfterPrefix | lib/utils.ts:20 | the text before the first separator is the first piece |
| Utils.FormatNumberWithDecimal | lib/utils.ts:19-22 | the formatter; its behaviour is stated in `NoFraction`, `OneDigitFraction`, `LongFraction`, `Shape` and `Idempotent` |
| Utils.NoFraction | lib/utils.ts:21 | text without a point gets ".00" appended |
| Utils.OneDigitFraction | lib/utils.ts:21 | a one-character fraction is padded with "0" |
| Utils.LongFraction | lib/utils.ts:20-21 | a fraction of two or more characters is kept whole, and anything after a second point is dropped |
| Utils.Shape | lib/utils.ts:20-21 | the output is the text before the first point, one point, and a point-free fraction of at least two characters |
| Utils.PadEndAvoids | lib/utils.ts:21 | padding with another character adds no occurrence of a character |
| Utils.Idempotent | lib/utils.ts:19-22 | formatting twice equals formatting once |
| Schemas.CurrencyPattern | lib/schemas.ts:7 | the regular expression: one or more digits, optionally a point and exactly two digits |
| Schemas.Currency | lib/schemas.ts:4-9 | the pattern applied to the formatted text of the price; characterised in `CurrencyIff` |
| Schemas.PatternOfFormatted | lib/schemas.ts:7 | on a formatted price the pattern holds exactly when the whole part is one or more digits and the fraction exactly two digits |
| Schemas.FormattedFraction | lib/utils.ts:20-21 | the formatter writes the whole part, a point and a point-free fraction, which is two digits exactly when the input has no fraction or one of at most two digits |
| Schemas.CurrencyIff | lib/schemas.ts:4-9 | a price passes exactly when its whole part is one or more digits and its fraction, if any, is at most two digits |
| Schemas.ThreeFractionDigitsRejected | lib/schemas.ts:7 | three or more fraction digits fail |
| Schemas.NegativeRejected | lib/schemas.ts:7 | a negative value fails |
| Schemas.Check | lib/schemas.ts:13 | one rule gives its issue exactly when it fails, and no other issue |
| Schemas.NamingIssues | lib/schemas.ts:13-15 | name, slug and category under 3 characters each give their own issue, and no other issue is reported |
| Schemas.DetailIssues | lib/schemas.ts:16-19 | brand and description under 3 characters and an empty image list each give their own issue, and no other issue is reported |
| Schemas.ProductFieldIssues | lib/schemas.ts:13-19 | each field under 3 characters, and an empty image list, gives its own issue with its message; no other issue is reported |
| Schemas.InsertProductIssues | lib/schemas.ts:12-23 | the product form passes exactly when every length rule holds and the price passes `currency`; each failure gives its own issue, and no other issue is reported |
| Schemas.SignInIssues | lib/schemas.ts:26-29 | passes exactly with a valid e-mail and a password of 8 or more characters; each failure gives its issue, and no other issue is reported |
| Schemas.SignUpIssues | lib/schemas.ts:32-44 | passes exactly when name is 3 or more characters, e-mail valid, both passwords 8 or more and equal; each failure gives its issue, a mismatch gives "Passwords do not match" on confirmPassword, and no other issue is reported |
| UserActions.GetUserById | lib/actions/user.actions.ts:90-98 | the row exactly when the id exists, else "User not found" |
| UserActions.FindFirstUserAsWritten | lib/actions/user.actions.ts:105-109 | with a session, the caller's row when it exists; without one, some row whenever the table is not empty |
| UserActions.FindCurrentUser | lib/actions/user.actions.ts:105-111 | the caller's row exactly when signed in and the row exists |
| UserActions.AnonymousCallerFindsARow | lib/actions/user.actions.ts:105-109 | without a session the lookup as written still picks an existing row, the intended one none |
| UserActions.SignedInLookupsAgree | lib/actions/user.actions.ts:105-109 | with a session the two lookups agree |
| UserActions.UpdateUserAddress | lib/actions/user.actions.ts:101-125 | parse failure first, then "User not found"; on success only the caller's address changes |
| UserActions.UpdateUserPaymentMethod | lib/actions/user.actions.ts:128-153 | "User not found" first, then the parse failure; on success only the caller's payment method changes, to the parsed type |
| UserActions.UpdateProfile | lib/actions/user.actions.ts:156-186 | "User not found" or only the caller's name changes; the e-mail given is ignored |
| UserActions.UpdateUserAccount | lib/actions/user.actions.ts:287-303 | a missing row is refused and nothing changes; otherwise only name and role of that row change |
| UserActions.DeleteUser | lib/actions/user.actions.ts:215-248 | an unknown id gives "User not found" and no change; a known one removes exactly that row |
| UserActions.Skip | lib/actions/user.actions.ts:201 | the number of rows before a page: (page - 1) times the page size |
| UserActions.TotalPages | lib/actions/user.actions.ts:205 | the fewest pages of `limit` rows that hold all rows |
| UserActions.GetAllUsers | lib/actions/user.actions.ts:189-212 | the page holds at most `limit` rows, the rows after the first (page-1)*limit in order, a full page when enough rows remain, and nothing past the last page; the count and page count are reported |
| UserActions.PageCoverage | lib/actions/user.actions.ts:196-205 | every row lies on a page between 1 and the page count, at its offset |
| UserActions.PagesDisjoint | lib/actions/user.actions.ts:200-201 | two different pages share no row |
| UserActions.SignInWithCredentials | lib/actions/user.actions.ts:24-43 | success exactly with a valid form and a completed sign-in; a redirect signal is passed on; every other failure is "Invalid credentials" |
| UserActions.EmailTaken | lib/actions/user.actions.ts:68-74 | some row already has this e-mail, so the store refuses the insert |
| UserActions.SignUpWithCredentials | lib/actions/user.actions.ts:51-87 | an invalid form and a taken e-mail fail without writing; otherwise a new row with the hashed password is inserted, and it stays whatever the sign-in afterwards does |
| UserActions.CreateUser | lib/actions/user.actions.ts:251-284 | never returns its success envelope; on a valid form with a free e-mail it inserts the row and passes on the redirect to "/admin/users" |

## Left out

- Floating point: `Number(...)`, `toString`, `toFixed` and `round2` are not part of this model. Money is integer cents, and `round2` is assumed to round half up. The formatter and `currency` work on the text the number-to-string conversion gave.
- `formatError` is not part of this model. A failed envelope carries an `Error` value, not the text shown to the user.
- The schemas that lib/schemas.ts does not show are inputs: cart item, address, payment method and the admin user form. `insertCartSchema` and `insertOrderSchema` are assumed to accept the cart and order built from valid data. The e-mail check of the schema library is a predicate parameter.
- The database schema file is not part of this model. The model assumes it makes the e-mail unique (`UniqueViolation("email")`) and gives new users the role "user".
- Cascades on user deletion are not modelled. `DeleteUser` removes only the user row.
- The store's row order for `findFirst` is taken to be insertion order. The listing order of `getAllUsers` (newest first) is its input `rows`.
- The "Order not created" check after the transaction cannot fire, since generated ids are never empty. It is not modelled.
- `revalidatePath`, cookies, `auth()`, `signIn`, `signOut` and `hash` are framework or library calls. Their outcomes are parameters, and `signOutUser` is left out.
- String lengths count characters, not the UTF-16 code units of the source.
- Schemas.InsertProductIssues: does not model `stock: z.coerce.number()` rejecting text that is not a number. The model's stock is an integer, so that rule cannot fail and its issue is never reported.
- Products are a set of ids, because no product field is read by the core.
- UserActions.GetAllUsers: requires `page >= 1` and `limit >= 1`, and `page` is a `nat`. The code does not guard against a page of 0 or a limit of 0, which give a negative skip or a division by zero. Nor does it guard against the negative, fractional or NaN pages that the admin page's `Number(page)` can pass (app/admin/users/page.tsx:24); the model has none of these. The default `limit = PAGE_SIZE` (lib/actions/user.actions.ts:190) is not modelled: `PAGE_SIZE` is not exported by the constants file shown, and the only caller passes `limit: 10`.
- UserActions.UpdateUserAddress, UserActions.UpdateUserPaymentMethod, UserActions.UpdateProfile: use the corrected lookup (see Findings). For a caller without a session they do not update the first row as the code does.
- Concurrency between requests is not modelled: every action runs alone.

## Findings

| source | as written | input that shows it | evidently intended | confidence | as-written member | corrected member |
|---|---|---|---|---|---|---|
| lib/actions/user.actions.ts:105-109 | `findFirst` filters on `id: session?.user?.id`; without a session the filter value is undefined, which the store ignores, so some existing row is found and then updated | no session and a non-empty user table: `updateUserAddress`, `updateUserPaymentMethod` and `updateProfile` each write to an arbitrary user's row | an anonymous caller gets "User not found" and nothing is written | medium, not executed | UserActions.AnonymousCallerFindsARow | UserActions.FindCurrentUser |
