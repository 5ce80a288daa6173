# YummyGo order-taking core in Dafny

A model of the order-taking logic of the YummyGo food-delivery web
application (Flask). It covers:

- the session cart and its one-restaurant rule;
- pricing of the cart page and of checkout: subtotal, delivery fee with the
  'Ouro' (Gold) waiver, and the payment line items in centavos;
- order creation, with item prices frozen at purchase time;
- the two payment confirmations: the customer's return URL and the payment
  processor's webhook. Each guards the move from 'Pendente de Pagamento' to
  'Recebido' and awards loyalty points and tier;
- the kitchen status flow and the list of open orders;
- the ownership guards on menu and address deletes;
- restaurant registration, profile update and the address book;
- the one-time-code login check;
- the password strength meter of the sign-up page.

Money is a natural number of centavos. The source keeps reais in float
columns. With centavos, `int(preco * 100)` is the exact amount and
`int(preco_total * 10)` is the amount divided by ten, rounded down.

Entities whose fields the routes assign in place are classes:

- `Models.User`;
- `Orders.Order`, whose status and PIN change;
- the tables the routes add to and delete from: `Orders.Ledger`,
  `Portal.Catalogue`, `Client.AddressBook`;
- the session cart `Cart.CartSession`.

Records that are only read are datatypes.

Everything outside the program's own logic becomes a parameter:

- a database query's answer (`rows`, with its shape stated by
  `Pricing.QueryResult`);
- the id the database assigns (`newId`);
- whether a commit succeeds (`commitOk`);
- the webhook signature check (`verified`);
- whether the payment session was created (`sessionCreated`);
- the random PIN, as any value in 1000..9999;
- the current time (`now`);
- the validated fields of a submitted form, as an `Option` that is None for a
  GET or a form that does not validate (the kitchen's status form is a
  `StatusForm`, because a validated form may still lack its `pedido_id`).

A route that raises an unhandled exception ends in a `Crashed` outcome (or code
500) and changes nothing further.

Three behaviours of the payment confirmation are worth knowing:

- Only the customer's return URL generates a delivery PIN and clears the
  cart. The webhook does neither (`Checkout.OrderSuccess`,
  `Webhook.NotifiedThenReturned`).
- The return URL credits the points to the logged-in caller, without checking
  that the caller placed the order. The webhook credits the order's customer.
- If the order's customer cannot be found, the webhook swallows the failed
  award, still commits the status 'Recebido', and then answers 500
  (`Webhook.StripeWebhook`).

## Model

| member | source | states |
|---|---|---|
| Models.ParseStatus | src/models/order_model.py:24 | Reading the status column gives back the stored name, and an unknown name never poses as one of the six known statuses |
| Models.ParseStatusName | src/models/order_model.py:24 | Writing a status and reading it back gives the same status |
| Models.User.constructor | src/models/user_model.py:56-71 | A new account has role 'cliente', 0 points, tier 'Bronze', no restaurant and no one-time code |
| Loyalty.PointsFor | src/modules/auth/routes.py:672 | The points for a total are ten per real, truncated: the number of whole tens of centavos |
| Loyalty.TierFor | src/modules/auth/routes.py:675-677 | 'Ouro' exactly from 5000 points, 'Prata' exactly from 2000 to 4999, 'Bronze' exactly below 2000 |
| Loyalty.TierMonotone | run.py:58-64 | More points never give a lower tier |
| Loyalty.Award | src/modules/auth/routes.py:672-677 | An award adds the total's points and sets the tier from the new point count |
| Loyalty.AwardMonotone | run.py:53-64 | An award never lowers points or tier, and keeps the tier consistent with the points |
| Loyalty.Settle | src/modules/auth/routes.py:662-677 | A confirmation never leaves the order pending. A pending order becomes 'Recebido' and the account gains the total's points, with the tier recomputed from the new count. Any other status leaves status and account as they are |
| Loyalty.Reward | run.py:53-64 | The user's points and tier after the update are the award applied to the old ones; the points earned are those of the total |
| Loyalty.SettleIdempotent | src/modules/auth/routes.py:662-665 | A second confirmation after the first changes neither status nor account, so points are awarded once |
| Loyalty.ConfirmFiftyFive | run.py:55-64 | 55.00 confirmed on a Bronze account with 4500 points gives 550 points, 5050 in all, and tier 'Ouro' |
| Cart.AfterAdd | src/modules/auth/routes.py:456-479 | Adding a product of another restaurant leaves only that product, with quantity 1. Otherwise its quantity rises by one (from 0) and every other entry stays. Either way the restaurant becomes the product's |
| Cart.AfterRemove | src/modules/auth/routes.py:538-552 | Removing deletes only that key. The restaurant is cleared exactly when the cart becomes empty. An absent product changes nothing |
| Cart.AddKeepsInvariants | src/modules/auth/routes.py:459-476 | Adding keeps quantities positive, keeps the restaurant set exactly when there are items, and keeps every item of the cart's restaurant |
| Cart.RemoveKeepsInvariants | src/modules/auth/routes.py:542-549 | Removing keeps the same invariants |
| Cart.AddAll | src/modules/auth/routes.py:459-476 | After a sequence of additions the last product added is in the cart, and the cart holds only products it held before or that were added |
| Cart.AddAllSingleRestaurant | src/modules/auth/routes.py:459-465 | After any sequence of additions every item is of one restaurant, the last added product's |
| Cart.AddThenRemove | src/modules/auth/routes.py:542-549 | Removing a product just added to a cart that lacked it gives back the original cart |
| Cart.CartSession.constructor | src/modules/auth/routes.py:456 | A session without a cart reads as the empty cart with no restaurant |
| Cart.CartSession.Add | src/modules/auth/routes.py:444-479 | An unknown product is a 404 and the cart is unchanged. Otherwise the cart becomes `AfterAdd` of the old cart, and the reset message appears exactly when the restaurant conflicted |
| Cart.CartSession.Remove | src/modules/auth/routes.py:531-557 | The cart becomes `AfterRemove` of the old cart, and the found/not-found message matches whether the product was there |
| Cart.CartSession.Clear | src/modules/auth/routes.py:685 | After `session.pop('cart')` the cart reads as empty |
| Pricing.Subtotal | src/modules/auth/routes.py:576-579 | Every row's price times quantity is part of `total_produtos` |
| Pricing.EmptyCartNoRows | src/modules/auth/routes.py:498-503 | The product query for an empty cart returns no rows |
| Pricing.SubtotalOrderFree | src/modules/auth/routes.py:569-579 | The subtotal does not depend on the order the product query returns the rows in |
| Pricing.ProductLines | src/modules/auth/routes.py:583-590 | One payment line per product row, in row order, with the product's name, its price in centavos and the cart quantity |
| Pricing.PaymentLines | src/modules/auth/routes.py:583-604 | One line per product row, in row order, then a single 'Taxa de Entrega' line of quantity 1 exactly when the fee is positive |
| Pricing.Charge | src/modules/auth/routes.py:583-604 | Every line's unit amount times quantity is part of the charge, and nothing is charged exactly when every line is free |
| Pricing.ChargeMatchesTotal | src/modules/auth/routes.py:576-604 | What the payment lines charge equals the subtotal plus the fee |
| Pricing.DeliveryFee | src/modules/auth/routes.py:592-593 | The fee is 0 for a Gold user and the restaurant's configured fee otherwise |
| Pricing.GoldHasNoFeeLine | src/modules/auth/routes.py:593-604 | A Gold user's payment lines are the product lines alone, whatever the restaurant charges |
| Pricing.ScenarioTotals | src/modules/auth/routes.py:576-604 | Two at 20.00 and one at 10.00 with a 5.00 fee cost 55.00 for Bronze and 50.00 for Gold, and the Gold lines carry no fee |
| Pricing.ViewCart | src/modules/auth/routes.py:487-528 | One displayed row per product found, with the cart quantity and price times quantity; the page total is the subtotal |
| Pricing.PriceCheckout | src/modules/auth/routes.py:576-590 | The checkout loop's `total_produtos` is the subtotal, and its product lines are `ProductLines` |
| Orders.Order.constructor | src/models/order_model.py:13-32 | A new order carries the given fields, the default payment 'Cartão de Crédito', and no PIN |
| Orders.FrozenItems | src/modules/auth/routes.py:624-627 | One stored item per product row, with the cart quantity and the catalogue price at purchase time |
| Orders.FrozenItemsTotal | src/modules/auth/routes.py:614-628 | The frozen items add up to the subtotal the order was priced with |
| Orders.Ledger.Place | src/modules/auth/routes.py:621-628 | Filing an order adds it under its id and appends its frozen items; nothing else changes |
| Orders.OrderHistory | src/modules/client/routes.py:148 | A customer's history holds exactly the orders whose customer is that user |
| Orders.HistoryAfterInsert | src/models/user_model.py:64 | A new order joins its own customer's history and no other |
| Checkout.AddressLine | src/modules/auth/routes.py:619 | The address text copied onto the order is, slice by slice, the street, ", ", the number, " - " and the CEP |
| Checkout.ValidChoice | src/modules/auth/routes.py:607-609 | The form validates exactly when the chosen address is in the user's address book |
| Checkout.FileOrder | src/modules/auth/routes.py:614-628 | The new order is fresh, filed under its id, pending payment, without a PIN, paid by the default 'Cartão de Crédito', with the given customer, restaurant, total, address text and time. Its items are the frozen items and add up to the subtotal |
| Checkout.Checkout | src/modules/auth/routes.py:560-650 | An empty cart creates nothing. A missing restaurant or missing fee crashes. A form shown gives subtotal, fee and total. A valid address creates one new pending order: total = subtotal + fee, the address text copied, no PIN, the default payment type, items frozen. The ledger's invariant is kept. Then Σ qty × unit + fee equals the total, and the payment lines are `PaymentLines` when the session is created |
| Checkout.OrderSuccess | src/modules/auth/routes.py:653-687 | An unknown order is a 404 and nothing changes. A pending order becomes 'Recebido', gets the PIN, and the caller gets the award. Any other status keeps status, PIN and points. The cart is cleared whenever the order exists. Only the order's status and PIN and the caller's points and tier can change, and the ledger's invariant is kept |
| Checkout.OrderCancel | src/modules/auth/routes.py:689-697 | Cancelling keeps the cart for another attempt and changes nothing |
| Webhook.StripeWebhook | run.py:21-84 | A failed signature check answers 400. Any other verified event that does not confirm a pending order answers 200 and changes nothing. A confirmation sets 'Recebido', keeps the PIN, and awards the order's customer (200); with the customer missing it answers 500 after committing the status. Nothing else is modified: the frame is the order's status and the customer's points and tier, and the ledger's invariant is kept |
| Webhook.NotifiedThenReturned | run.py:45-71 | The webhook followed by the customer's return credits the customer exactly once. The return reports the order already processed and still clears the cart. The order keeps the PIN it had, since neither signal sets one |
| Kitchen.FlowIndex | src/modules/restaurant/routes.py:190-221 | The lookup gives a position whose flow entry is the status, or fails exactly for a status outside the flow |
| Kitchen.Advance | src/modules/restaurant/routes.py:221-225 | A status outside the flow stays. A status at position i moves to position min(i + 1, 3) |
| Kitchen.AdvanceOneStep | src/modules/restaurant/routes.py:221-227 | A status at position i < 3 moves to position i + 1 |
| Kitchen.AdvanceFinal | src/modules/restaurant/routes.py:224-229 | 'Concluído' stays 'Concluído' |
| Kitchen.AdvanceOutsideFlow | src/modules/restaurant/routes.py:220-231 | 'Pendente de Pagamento', 'Cancelado' and unknown statuses are left unchanged |
| Kitchen.AdvanceNeverDecreases | src/modules/restaurant/routes.py:221-227 | An advance never lowers the position and raises it by at most one |
| Kitchen.AdvanceTimesIndex | src/modules/restaurant/routes.py:221-229 | After n advances an order at position i is at min(i + n, 3) |
| Kitchen.ReceivedReachesCompleted | src/modules/restaurant/routes.py:190-229 | From 'Recebido', three or more advances end at 'Concluído' |
| Kitchen.StepOutcome | src/modules/restaurant/routes.py:221-231 | The success message appears exactly when the status changes. The 'already final' message appears exactly for 'Concluído'. The error message appears exactly for a status outside the flow |
| Kitchen.ManageOrders | src/modules/restaurant/routes.py:192-233 | A non-restaurant account gets 403. An account without a restaurant crashes. A validated form without an order id, an order that is missing, or one of another restaurant is ignored. An owned order advances one step with the matching message. Only the submitted order's status can change, and only on a successful advance; the ledger's invariant is kept |
| Kitchen.NewestExists | src/modules/restaurant/routes.py:209 | Every non-empty set of orders has a newest one |
| Kitchen.NewestFirst | src/modules/restaurant/routes.py:209 | Every id of the set appears exactly once, in non-increasing creation time |
| Kitchen.Open | src/modules/restaurant/routes.py:208 | Within the flow an order is on the board exactly until it reaches 'Concluído'. An order still 'Pendente de Pagamento' is on the board too |
| Kitchen.KitchenList | src/modules/restaurant/routes.py:205-209 | For statuses as read from the column, the board holds exactly the restaurant's orders that are neither 'Concluído' nor 'Cancelado', each once, newest first |
| Portal.DeleteGuard | src/modules/restaurant/routes.py:154-161 | A delete gets past the checks exactly for a restaurant account whose restaurant owns the item. A restaurant account gets 404 exactly for a missing item, and crashes exactly when it has no restaurant. Any other account is refused with 403 |
| Portal.WithoutCategory | src/models/menu_model.py:21-23 | Deleting a category removes exactly its products and keeps the others as they were |
| Portal.DeleteCategoryKeepsIntegrity | src/models/menu_model.py:21-23 | After the cascade every remaining product's category still exists |
| Portal.DeleteProductKeepsIntegrity | src/modules/restaurant/routes.py:184 | Deleting a product leaves every other product's category in place |
| Portal.DeleteProductKeepsOrders | src/models/order_model.py:52-61 | A product delete that goes through, because no order item refers to the product, leaves every order item referring to an existing product |
| Portal.DeleteCategoryKeepsOrders | src/models/order_model.py:52-61 | The same for a category delete, whose cascade removes only un-ordered products |
| Portal.NewRestaurant | src/modules/restaurant/routes.py:54-65 | A registered restaurant starts inactive, with the form's data, owned by the current user |
| Portal.Catalogue.DeleteCategory | src/modules/restaurant/routes.py:151-168 | The answer follows the guard: role, then 404, then ownership. An owned category of which some product appears in an order item fails with 500 (the commit cannot null the item's product id). Otherwise it goes together with its products. Any other answer changes nothing |
| Portal.Catalogue.DeleteProduct | src/modules/restaurant/routes.py:172-187 | The same guard. An owned product that appears in an order item fails with 500. Otherwise the product goes and nothing else. Any other answer changes nothing |
| Portal.Catalogue.Register | src/modules/restaurant/routes.py:38-81 | A restaurant owner is redirected and nothing changes. Otherwise a committed registration adds the inactive restaurant, makes the user its owner and sets the role to 'restaurante'. A failed commit or an invalid form changes nothing |
| Client.NewAddress | src/modules/client/routes.py:74-82 | A new address keeps the form's fields, upper-cases the state and belongs to the current user |
| Client.AddressesOf | src/models/user_model.py:61 | A user's book holds exactly the addresses whose owner is that user |
| Client.AddAddressOwnership | src/modules/client/routes.py:74-82 | A new address joins its owner's book and no other |
| Client.DeleteAddressOwnership | src/modules/client/routes.py:121-131 | Deleting an owned address removes it from its owner's book only |
| Client.AddressBook.AddAddress | src/modules/client/routes.py:60-97 | A committed form adds `NewAddress` under the new id. An invalid form or failed commit changes nothing |
| Client.AddressBook.DeleteAddress | src/modules/client/routes.py:112-137 | An unknown id is a 404, another user's address a 403, and both change nothing. An owned address is removed, and only it, when the commit succeeds |
| Client.UpdateProfile | src/modules/client/routes.py:21-47 | A committed form stores name and phone as given and the e-mail lower-cased. An invalid form or failed commit leaves the three fields unchanged |
| Text.Lower | src/modules/client/routes.py:37 | Same length, no capital letter left, capitals turned into their small letters, every other character kept |
| Text.Upper | src/modules/client/routes.py:80 | Same length, no small letter left, small letters turned into capitals, every other character kept |
| Text.LowerIdempotent | src/modules/client/routes.py:37 | Lower-casing an already normalised e-mail changes nothing |
| Text.UpperIdempotent | src/modules/client/routes.py:80 | Upper-casing an already normalised state changes nothing |
| Text.LowerOfUpper | src/modules/client/routes.py:37 | Upper-casing first does not change the lower-cased result |
| Otp.FindUser | src/modules/auth/routes.py:312-315 | The lookup finds the first user with that e-mail (or phone), or reports that there is none |
| Otp.CheckOtp | src/modules/auth/routes.py:324-345 | A code is accepted exactly when it equals the stored one and the expiry is set and strictly later than now. It is reported expired exactly when it matches but the expiry is missing or past, and invalid exactly when it does not match |
| Otp.ClearedCodeRejected | src/modules/auth/routes.py:330-334 | Once cleared, no code is accepted again |
| Otp.AcceptedUntilExpiry | src/modules/auth/routes.py:328 | A code accepted now is reported expired from its expiry time on |
| Otp.VerifyCode | src/modules/auth/routes.py:297-348 | A logged-in user is redirected. A missing key or unknown user is refused. A submitted code gets the verdict of `CheckOtp`. Only success clears the code and expiry, of that user only, and logs them in. Covers the SMS route (lines 379-429) too |
| PasswordStrength.EightInARowIsLength | src/static/js/password_strength.js:16 | On a single line the length rule is "at least 8 code units", in both directions |
| PasswordStrength.Meets | src/static/js/password_strength.js:15-21 | A password meeting the length rule has at least 8 code units; one meeting any other rule is not empty |
| PasswordStrength.CountMet | src/static/js/password_strength.js:39-61 | The score is at most the number of rules |
| PasswordStrength.CountMetExtremes | src/static/js/password_strength.js:44-61 | The score is the number of rules exactly when all are met, and 0 exactly when none is |
| PasswordStrength.Strength | src/static/js/password_strength.js:64 | The percentage is score/total × 100 rounded half up |
| PasswordStrength.StrengthOfFive | src/static/js/password_strength.js:64 | With five rules the strength is 20 × score, at most 100 |
| PasswordStrength.BarColour | src/static/js/password_strength.js:73-78 | 'bg-success' exactly from 80, 'bg-warning' exactly from 50 to 79, 'bg-danger' exactly below 50 |
| PasswordStrength.ColourByScore | src/static/js/password_strength.js:73-78 | 'bg-success' exactly from 4 rules, 'bg-warning' exactly at 3, 'bg-danger' exactly up to 2 |
| PasswordStrength.CheckPasswordStrength | src/static/js/password_strength.js:37-66 | One list entry per rule, in order, marked met exactly when the rule holds. The strength is that of the score and the colour is the bar colour for it |
| PasswordStrength.RequirementsShown | src/static/js/password_strength.js:29-34 | The requirements list hides exactly when the field is blurred and empty |
| PasswordStrength.EmptyAtLoad | src/static/js/password_strength.js:86 | At page load the empty password scores 0, shows 0% and is coloured 'bg-danger' |
| PasswordStrength.StrongExample | src/static/js/password_strength.js:15-21 | "Abcdef1!" meets all five rules and shows a green bar |

## Left out

- OAuth login and account linking: they depend on the providers' token exchange and payloads.
- Password login: it relies on bcrypt.
- Generating and sending one-time codes, and the order-confirmed e-mail of the webhook: the mail and SMS services are not part of this model.
- The home page and search: they are database queries with `ilike`.
- The geocoding and upload services: float trigonometry and HTTP/Cloudinary calls.
- The dashboard, the menu listing and the add-category/add-product forms of the restaurant portal: form handling with no rule beyond the role check.
- The address form script: DOM updates and a network lookup.
- The WTForms classes, seed scripts, configuration and app factory: form validation is represented by the `Option` of validated fields.
- Templates, flash messages and redirects: represented by the outcome datatypes.
- Payment session creation and signature verification: foreign calls, represented by the `sessionCreated` and `verified` booleans.
- The race between the webhook and the return URL: concurrency. The guard is modelled as a sequential check-then-set.
- Floating-point artefacts: money is exact centavos, so for example `int(0.29 * 100)` giving 28 in the source is not modelled, and prices are non-negative.
- Pricing.ChargeMatchesTotal: the fee is a natural number (`Models.Restaurant.fee`, `Portal.RestaurantForm.fee`), but the registration form's `taxa_entrega` is a `FloatField` with only `DataRequired`, so a negative fee such as -5.0 is accepted. Checkout would then store a total below the subtotal, while `if taxa > 0` adds no fee line, so the processor would charge more than the order's total. The lemma holds because the type excludes that case.
- Portal.NewRestaurant: accepts a fee of 0, which `DataRequired` rejects for the float field (0.0 is falsy). Such a form arrives as None, so a 0 fee is only reachable through data stored by other means.
- The fixed latitude and longitude given to every new address (src/modules/client/routes.py:86-87): coordinates are floats and only the geo service reads them.
- The random PIN: it is any value in 1000..9999. `delivery_pin` is not a database column, so the stored PIN lives only as long as the order object does.
- Checkout.Checkout: a failing database commit of the order or its items is not modelled; only a failed payment-session creation is (`PaymentNotStarted`, the order kept).
- Webhook.StripeWebhook: a `client_reference_id` that is not a number (the `int()` conversion fails) is not modelled; the reference is an optional id.
- Kitchen.KitchenList: the board is a ghost specification of the query's result; ties in creation time may appear in any order, as in the database.
- Text.Lower: maps only the ASCII capitals, whereas Python's `str.lower` also folds non-ASCII letters.
- Text.Upper: maps only the ASCII small letters, whereas Python's `str.upper` also maps non-ASCII letters.
- Otp.VerifyCode: the `login_user` session change is the `LoggedIn` outcome; the datetime column is an integer time.
