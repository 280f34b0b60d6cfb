# Cafetería UV ordering client — cart and view controller

A Dafny model of the client-side logic of the Cafetería UV ordering web
client (`src/App.js`): the menu catalogue, the shopping cart held at the
application root, and the screen state machine that drives sign-in,
browsing, checkout, confirmation and review. All of it is local state in
the application; there is no server logic in the modelled code.

- `wrappers.dfy` — `Option`, the model's `null`.
- `catalog.dfy` — the twelve menu products in three categories, and the
  category tab's product list.
- `text.dfy` — JavaScript string truthiness (`Filled`) and
  `String.prototype.trim` over the ECMAScript whitespace set.
- `cart.dfy` — line items, `addToCart`, `updateQuantity`, `removeItem`,
  the total and badge reductions, and their laws: the cart invariant
  (unique ids, every quantity at least one), exact changes to total and
  badge per operation, additivity, order preservation.
- `session.dfy` — the screens (`login | menu | cart | payment |
  confirmation | review`), the actions each screen offers, the handlers,
  a one-step transition function and a reachable-state invariant.

Behaviour of the modelled code worth noting:

- Cart entries merge by product id only; there are no options or comments.
- `updateQuantity` and `removeItem` take a product id, not a position.
- Pressing "-" on an entry with one unit does not remove it: the map
  returns the entry unchanged when the new quantity would not be positive,
  so the `.filter(item => item.cantidad > 0)` that follows never drops an
  entry of a valid cart (`Cart.KeepPositive`, `Cart.DecrementAtOneKeepsEntry`).
- An empty cart cannot reach payment because the "Proceder al pago" button
  is not rendered for it; no message is shown. Actions whose button is not
  on the current screen are modelled as leaving the state unchanged.
- Logout exists only on the menu screen, and there are no profile, order
  history or admin screens.

## Model

| member | source | states |
|---|---|---|
| Catalog.ItemsFor | src/App.js:137-138 | each category tab lists four products, all of them menu products (the converse is `Catalog.ListedOnSomeTab`) |
| Catalog.ListedOnSomeTab | src/App.js:137-138 | a product can be added from the menu exactly when some category tab lists it |
| Catalog.ListedIdIsKey | src/App.js:5-24 | menu product ids are keys: two listed products with one id are the same product |
| Text.BlankFieldIsFilled | src/App.js:316 | a field passes the sign-in and payment truthiness tests while its trimmed text fails the review's test exactly when it is non-empty and all whitespace |
| Text.TrimStart | src/App.js:471 | exactly the longest whitespace prefix is dropped; the rest is a suffix of the input |
| Text.TrimEnd | src/App.js:471 | exactly the longest whitespace suffix is dropped; the rest is a prefix of the input |
| Text.Trim | src/App.js:471 | `trim()` is the review with a whitespace-only prefix and suffix dropped, empty exactly when the review is all whitespace, and otherwise beginning and ending on a non-whitespace character, so the dropped parts are the longest such |
| Cart.IndexOf | src/App.js:129 | `cart.find` by id: returns the first position carrying the id |
| Cart.IndexOfUnique | src/App.js:129 | in a cart with unique ids, the found entry is the only entry with that id |
| Cart.AddToCart | src/App.js:128-135 | a present id gains one unit in place at its one entry and nothing else changes; an absent id is appended with quantity 1 after the unchanged cart |
| Cart.AddToCartValid | src/App.js:128-135 | adding keeps ids unique and quantities positive, and the product is then in the cart |
| Cart.AddToCartItemCount | src/App.js:128-135 | every add raises the badge count by exactly one |
| Cart.AddToCartTotal | src/App.js:128-135 | every add raises the total by exactly the product's price when the cart prices that id the same way |
| Cart.AddEachItemCount | src/App.js:128-135 | after any sequence of adds the cart is still valid and the badge count has grown by the number of adds |
| Cart.AddEachTotal | src/App.js:128-135 | after any sequence of consistently priced adds the total has grown by the sum of the added prices, whatever the order |
| Cart.AddEachFromEmpty | src/App.js:152-154 | from an empty cart, the badge count equals the number of adds |
| Cart.SumAppend | src/App.js:223 | a reduction over the entries is additive over concatenation |
| Cart.TotalAppend | src/App.js:223 | the total is 0 for the empty cart and additive over concatenation |
| Cart.ItemCountAppend | src/App.js:154 | the badge count is 0 for the empty cart and additive over concatenation |
| Cart.ReductionBounds | src/App.js:154 | with positive quantities the total is non-negative and the badge count is at least the number of entries |
| Cart.Badge | src/App.js:152-156 | a badge is shown exactly when the cart is non-empty, and then shows at least one unit per entry |
| Cart.ComputeTotal | src/App.js:223 | the left-to-right `reduce` of the cart, payment and confirmation screens computes the one recursive total |
| Cart.ComputeItemCount | src/App.js:154 | the left-to-right badge `reduce` computes the recursive unit count |
| Cart.KeepPositive | src/App.js:232 | the filter keeps exactly the entries with positive quantity, in order, and leaves the cart unchanged exactly when all its quantities are positive |
| Cart.KeepPositiveAppend | src/App.js:232 | the filter distributes over concatenation, so the entries it keeps stay in their relative order |
| Cart.UpdateQuantity | src/App.js:225-233 | on a cart with positive quantities no entry is dropped or reordered, product fields never change, and the matching entry moves by delta exactly when the result stays positive |
| Cart.UpdateQuantityValid | src/App.js:225-233 | quantity changes keep ids unique and quantities positive |
| Cart.UpdateQuantityNoOp | src/App.js:228-229 | an absent id, or a move that would not stay positive, leaves the cart unchanged |
| Cart.DecrementAtOneKeepsEntry | src/App.js:229-232 | "-" on an entry with one unit leaves the cart as it was |
| Cart.UpdateQuantityPointUpdate | src/App.js:226-231 | a move that stays positive rewrites exactly the one matching entry |
| Cart.UpdateQuantityTotals | src/App.js:225-233 | a move that stays positive shifts the total by price times delta and the badge by delta |
| Cart.RemoveItem | src/App.js:235-237 | the result holds exactly the entries whose id differs, no entry with the id is left, and removing an absent id is the identity |
| Cart.RemoveItemAppend | src/App.js:236 | removal distributes over concatenation, so the survivors keep their relative order |
| Cart.RemoveItemDeletesOne | src/App.js:235-237 | with unique ids, removing a present id deletes exactly its one entry and keeps everything else in place |
| Cart.RemoveItemTotals | src/App.js:235-237 | removing a present id takes exactly that entry's subtotal off the total and its units off the badge |
| Cart.RemoveItemValid | src/App.js:235-237 | removal keeps ids unique and quantities positive |
| Session.Offered | src/App.js:254-300 | an action is possible only on its own screen; the pay button exactly when the cart is non-empty (:254, :297); "-" and "+" move by one and, like the trash button, exist only for entries in the cart (:267-289); review submission exactly once a star from 1 to 5 is chosen (:495, :512) |
| Session.Step | src/App.js:529-537 | an action not on screen changes nothing and alerts nothing; otherwise the screen stays or follows one navigation edge (:150, :244, :258, :297, :330, :319, :450, :455, :475, :517, :51, :158); the cart changes only on the menu and cart screens or by being emptied; only sign-in, registration and logout touch the user |
| Session.OrderNumber | src/App.js:317 | the order number drawn at payment lies in [100000, 999999] |
| Session.SubmitLoginForm | src/App.js:39-55 | sign-in reaches the menu exactly when matrícula and password are non-empty; registration with all five fields stores the user and stays on login; anything else alerts and changes nothing |
| Session.HandlePayment | src/App.js:315-323 | confirmation is reached exactly when all four card fields are non-empty, with an order number in range, no alert, and the cart untouched; otherwise the payment alert and no change |
| Session.HandleReview | src/App.js:470-479 | the review is accepted exactly when the rating is positive and the text has a non-whitespace character; acceptance empties the cart, clears the order number and returns to the menu |
| Session.InitialInvariant | src/App.js:27-30 | the first state satisfies the reachable-state invariant |
| Session.FromMenuAdd | src/App.js:128-135 | adding a menu product keeps every entry a menu product, and the cart already prices that product's id at its menu price |
| Session.StepInvariant | src/App.js:128-237 | every action keeps the cart valid and from the menu, the login screen cart-free, a signed-in user on every other screen, an in-range order number exactly on confirmation and review, and a non-empty cart throughout checkout |
| Session.RunInvariant | src/App.js:27-30 | every sequence of actions from a state satisfying the invariant keeps it |
| Session.AddOnMenu | src/App.js:128-135 | in every reachable state, "Agregar" raises the total by the product's menu price and the badge by one |
| Session.PaymentNeedsCart | src/App.js:254-300 | the payment screen is entered only from the cart screen, by its pay button, with a non-empty cart |
| Session.ConfirmationTotal | src/App.js:313-319 | the confirmation screen shows the same total the payment screen charged, and an order number is set |
| Session.LoginExit | src/App.js:48-55 | the login screen is left only by signing in with a matrícula and a password, and only for the menu |
| Session.LogoutOnlyFromMenu | src/App.js:158 | the login screen is re-entered only by the menu's logout, which empties the cart and forgets the user |
| Session.CheckoutExitClears | src/App.js:455-517 | leaving confirmation or review for the menu happens only by return, skip or an accepted submit, and each empties the cart and clears the order number while keeping the user signed in |
| Session.RunAdds | src/App.js:209 | on the menu screen, a run of "Agregar" presses builds the cart that repeated addToCart builds |
| Session.BadgeCountsAdds | src/App.js:152-154 | from an empty cart on the menu, the badge after n adds shows n, and no badge after none |

## Left out

- Rendering (JSX, styling, icons) and the `ConfirmationView` QR grid drawn with `Math.random()` (src/App.js:418-427): pure presentation.
- `alert` calls are modelled as an `Alert` value returned beside the next state; the PDF button only raises one (`ReceiptPlaceholder`).
- `Math.random()` is a parameter: an exact fraction num/den with num < den. Floating-point rounding of `100000 + r * 900000` is not modelled.
- JavaScript numbers are modelled as unbounded integers; prices and quantities in the menu are small integers, so no precision issue arises in the modelled range.
- Per-screen local state is not modelled beyond what the handlers read: the login/registration mode toggle, typing into form fields, the category tab, the star rating; the form contents and mode arrive as parameters of the submit actions.
- The registration handler's `setIsRegistering(false)` (src/App.js:44) switches the login form back to sign-in mode; that local mode is not part of the model.
- src/services/productService.js and src/services/orderService.js: wrappers around an HTTP client that is not part of this model; the modelled screens do not call them.
- Cart.AddToCart: the in-place description of the merge branch is stated for carts with unique ids; on a cart with duplicate ids the code bumps every duplicate, which the function's body does but its contract does not describe.
- Cart.AddToCartTotal: stated under the premise that the cart prices the id as the product does; `Session.AddOnMenu` discharges it for every reachable state.
- Cart.UpdateQuantity: the contract describes carts whose quantities are all positive; on other carts the filter also drops non-positive entries, which `Cart.KeepPositive` describes.
