# Restaurant storefront: cart, menu card, checkout and signup in Dafny

This project models the client-side core of a restaurant's online storefront:

- **Cart** (`cart.dfy`, `cart_properties.dfy`) — the cart store's reducer.
  The cart is an ordered list of lines: a menu item, a quantity and an optional
  special request. Its item and price totals are recomputed after every action.
  The actions are `ADD_ITEM`, `REMOVE_ITEM`, `UPDATE_ITEM_QUANTITY`,
  `UPDATE_ITEM_SPECIAL_REQUEST` and `CLEAR_CART`. `getItemQuantity` is the
  lookup the rest of the UI uses.
- **Menu card** (`card.dfy`) — the stock guards of one menu item's card, and
  the cart actions its buttons dispatch: add, "+", "-", and the
  special-request dialog. Each handler is a function from the cart it sees to
  the list of actions it dispatches.
- **Cart sidebar** (`sidebar.dfy`) — the displayed lines (localised name,
  labelled note), the displayed total, and the per-line buttons.
- **Locale** (`locale.dfy`) — language and text direction, restoring a stored
  preference on mount, `translate`, and `translateData`.
- **Checkout** (`checkout.dfy`) — the form schema, the payment-proof file
  check, switching between pickup and delivery, the geolocation callback,
  `onSubmit`'s guards, the order payload, and clearing the cart on success.
- **Signup** (`signup.dfy`) — the schema, including the Yemeni mobile number
  pattern. The pattern is written as a matcher and proved equal to a
  declarative definition. Also the registration body, and the account that
  is signed in afterwards.
- **Shared pieces** — `wrappers.dfy` (`Option`), `text.dfy` (JavaScript
  string truthiness, `||` on strings, and `String.prototype.trim` with the
  ECMAScript whitespace set) and `session.dfy` (the signed-in user record).

Time, the network, file reading and geolocation are inputs:

- The order date is a parameter.
- The backend's answer is a `Response` value: it threw, or it answered with
  `ok`, `success` and the fields the form reads.
- A read payment-proof file is its base64 text, or `None` when reading
  failed.
- A position is its two coordinates and their printed forms.

The main results:

- **Totals** — every reducer result carries totals recomputed from its lines.
- **Unique ids** — at most one line per item id, preserved by every action
  and every dispatch sequence.
- **Per-action effects** — each action's effect is stated per id:
  - quantities add up;
  - removed ids disappear and the others stay unchanged;
  - quantity updates clamp at 0 and drop empty lines;
  - only the target's note changes.
- **Stock bound** — starting from an empty cart, any sequence of card button
  presses keeps an item's quantity at 0 or within its available stock
  (`MenuItemCard.StockBound`). The sidebar's "+" button has no such guard,
  and `CartSidebar.IncreaseButtonIgnoresStock` shows it passing the stock.
- **Order payload** — the payload carries the cart line for line. Its unit
  count is the cart's item total.
- **Checkout** — the cart is cleared exactly when the backend accepts the
  order. Pickup orders send no location.
- **Signup pattern** — the phone pattern accepts exactly nine ASCII digits
  that open with 70, 71, 73, 77 or 78.

## Model

| member | source | states |
|---|---|---|
| Cart.WithTotals | src/hooks/useCart.tsx:38-42 | the state's totals are the sums of quantities and of price times quantity over its lines |
| Cart.FindIndex | src/hooks/useCart.tsx:48 | `None` exactly when no line has the id; otherwise the position of the first line with that id |
| Cart.Find | src/hooks/useCart.tsx:130 | `None` exactly when no line has the id; otherwise the first line with that id |
| Cart.GetItemQuantity | src/hooks/useCart.tsx:129-132 | 0 for an id without a line, otherwise the quantity of the first line with that id |
| Cart.Max0 | src/hooks/useCart.tsx:84 | the result is non-negative, at least the input, and is either the input or 0 |
| Cart.Merge | src/hooks/useCart.tsx:51-61 | the merged line keeps its item, adds the quantity, and takes the new note only when one is given |
| Cart.AddLine | src/hooks/useCart.tsx:48-72 | afterwards the id has a line; an existing id keeps the length, a new one appends exactly one line with the given quantity and note |
| Cart.Without | src/hooks/useCart.tsx:77 | keeps exactly the lines whose id differs, and is the identity when no line has the id |
| Cart.WithoutUniqueIds | src/hooks/useCart.tsx:77 | filtering out an id keeps ids unique |
| Cart.DropEmpty | src/hooks/useCart.tsx:87 | keeps exactly the lines with a positive quantity, and is the identity when all are positive (order: `Cart.DropEmptyConcat`) |
| Cart.DropEmptyConcat | src/hooks/useCart.tsx:87 | filtering distributes over concatenation, so the kept lines stay in their order |
| CartProperties.DropEmptyStep | src/hooks/useCart.tsx:87 | the filter keeps the first line exactly when it is positive, then filters the rest |
| Cart.DropEmptyUnique | src/hooks/useCart.tsx:87 | dropping empty lines keeps ids unique |
| Cart.WithQuantity | src/hooks/useCart.tsx:81-86 | same length; every line keeps its item and note |
| Cart.WithRequest | src/hooks/useCart.tsx:91-95 | same length; every line keeps its item and quantity |
| Cart.Reduce | src/hooks/useCart.tsx:44-104 | totals always match the lines; `CLEAR_CART` empties the cart with zero totals; a quantity update leaves no line at 0 or below; only `ADD_ITEM` can add a line |
| Cart.Dispatch | src/hooks/useCart.tsx:106-127 | after at least one action the totals match the lines; an empty list of actions changes nothing |
| CartProperties.SumConcat | src/hooks/useCart.tsx:38-42 | both totals distribute over concatenation of line lists |
| CartProperties.SumsPointwise | src/hooks/useCart.tsx:38-42 | lists with the same quantities and subtotals at every position have the same totals |
| CartProperties.ReducePreservesUniqueIds | src/hooks/useCart.tsx:44-104 | every action keeps at most one line per id |
| CartProperties.DispatchPreservesUniqueIds | src/hooks/useCart.tsx:106-127 | any sequence of dispatched actions keeps at most one line per id |
| CartProperties.ReduceKeepsPositive | src/hooks/useCart.tsx:44-104 | no action leaves a line at 0 or below when lines were positive and any addition is positive |
| CartProperties.DispatchKeepsPositive | src/hooks/useCart.tsx:106-127 | the same over a sequence of actions whose additions are positive |
| CartProperties.GetItemQuantityLookup | src/hooks/useCart.tsx:129-132 | with unique ids, an absent id reads 0 and any line with the id holds the quantity reported |
| CartProperties.AddItemExisting | src/hooks/useCart.tsx:50-62 | adding an item already in the cart merges in place: quantity added, note replaced only when one is given, other lines untouched, totals rise by the quantity and by price times quantity |
| CartProperties.AddItemNew | src/hooks/useCart.tsx:63-72 | adding an item not in the cart appends one line with the given quantity and note, keeps ids unique, and raises the totals by the quantity and by price times quantity |
| CartProperties.AddItemLookup | src/hooks/useCart.tsx:47-74 | per id: the added id's quantity grows by the added quantity, every other id's line is unchanged |
| CartProperties.RepeatedAdds | src/hooks/useCart.tsx:109-111 | a sequence of adds of one item raises its quantity by the sum of the added quantities |
| CartProperties.RemoveItemSpec | src/hooks/useCart.tsx:76-78 | after removal no line has the id and every other line remains; removing an absent id changes nothing |
| CartProperties.WithoutUnique | src/hooks/useCart.tsx:77 | with unique ids, removing the id of line `k` yields the list without position `k` |
| CartProperties.RemoveItemExisting | src/hooks/useCart.tsx:76-78 | removing line `k` leaves the other lines in their order, shortens the cart by one and lowers the totals by that line's quantity and subtotal |
| CartProperties.RemoveItemLookup | src/hooks/useCart.tsx:76-78 | per id: the removed id reads 0 and has no line, every other id reads as before |
| CartProperties.UpdateQuantitySpec | src/hooks/useCart.tsx:80-88 | no line at 0 or below afterwards; a target of 0 or less removes the line; an absent id changes nothing |
| CartProperties.UpdateQuantityLookup | src/hooks/useCart.tsx:80-88 | per id: the target reads the clamped quantity if it had a line (else 0); other ids keep their quantity, a negative one read as 0 |
| CartProperties.UpdateQuantityTarget | src/hooks/useCart.tsx:80-88 | the target reads the new quantity when it had a line and the quantity is positive, and 0 otherwise |
| CartProperties.WithQuantityUnique | src/hooks/useCart.tsx:81-86 | with unique ids, the map changes line `k`'s quantity and nothing else |
| CartProperties.DropEmptyAt | src/hooks/useCart.tsx:87 | when only line `k` is at 0 or below, the filter removes exactly position `k`, keeping the order of the rest |
| CartProperties.UpdateQuantityExisting | src/hooks/useCart.tsx:80-88 | updating line `k` with a positive quantity replaces it in place; with 0 or less the cart becomes the list without position `k`, in order |
| CartProperties.UpdateRequestSpec | src/hooks/useCart.tsx:90-96 | only notes change; every quantity and both totals stay |
| CartProperties.UpdateRequestLookup | src/hooks/useCart.tsx:90-96 | per id: the target's line gets the note, other lines are unchanged |
| CartProperties.OtherActionLookup | src/hooks/useCart.tsx:44-104 | an action aimed at another id leaves this id's quantity as it was, or at 0 after clearing |
| CartProperties.OtherActionsLookup | src/hooks/useCart.tsx:44-104 | the same for a sequence of actions aimed at other ids |
| CartProperties.ScenarioAddAddClear | src/hooks/useCart.tsx:47-88 | adding 2 and then 1 of an item priced 10, the second time with a note, gives one line of 3 with that note and totals 3 and 30; setting its quantity to 0 returns to the empty cart |
| MenuItemCard.IsOutOfStock | src/components/menu/MenuItemCard.tsx:51 | no unit is available |
| MenuItemCard.IsInsufficientStock | src/components/menu/MenuItemCard.tsx:52 | the cart already holds at least the available quantity |
| MenuItemCard.StockFlags | src/components/menu/MenuItemCard.tsx:51-52 | on a cart of positive lines, out of stock implies short of stock; the flag is up once the cart holds the stock; for an item not in the cart it is up exactly when out of stock |
| MenuItemCard.HandleAddToCart | src/components/menu/MenuItemCard.tsx:55-74 | the add button dispatches at most two actions, all for its own item; nothing when out of stock or when the cart already holds the stock |
| MenuItemCard.HandleIncreaseQuantity | src/components/menu/MenuItemCard.tsx:77-83 | at most one action, for its own item; nothing when the cart already holds the stock |
| MenuItemCard.HandleDecreaseQuantity | src/components/menu/MenuItemCard.tsx:151 | exactly one action, for its own item |
| MenuItemCard.HandleSaveSpecialRequestAndAdd | src/components/menu/MenuItemCard.tsx:86-98 | at most one action, for its own item; nothing when out of stock |
| MenuItemCard.NoteOf | src/components/menu/MenuItemCard.tsx:102 | no note for an item without a line; otherwise the note of the first line with its id |
| MenuItemCard.OpenSpecialRequestText | src/components/menu/MenuItemCard.tsx:101-105 | the dialog opens empty when the item has no line or its note is absent or empty, and with the note when it is non-empty |
| MenuItemCard.Handle | src/components/menu/MenuItemCard.tsx:140-229 | whichever button is pressed, every action names the card's item |
| MenuItemCard.Run | src/components/menu/MenuItemCard.tsx:46-98 | presses handled one after another: from a cart whose totals match its lines, the totals still match; an empty sequence of presses leaves the cart as it was |
| MenuItemCard.RunKeepsPositive | src/components/menu/MenuItemCard.tsx:46-98 | card presses never leave a line at 0 or below |
| MenuItemCard.InCart | src/components/menu/MenuItemCard.tsx:46 | with unique, positive lines the quantity in cart is non-zero exactly when the item has a line |
| MenuItemCard.CardAddEffect | src/components/menu/MenuItemCard.tsx:55-74 | the add button's effect on the cart: unchanged when refused, one unit with the note when new, one unit more (note replaced only by non-empty text) otherwise |
| MenuItemCard.CardIncreaseEffect | src/components/menu/MenuItemCard.tsx:77-83 | "+" leaves the cart unchanged at the stock limit and adds exactly one unit otherwise |
| MenuItemCard.CardDecreaseEffect | src/components/menu/MenuItemCard.tsx:151 | "-" sets the quantity to one less clamped at 0, removing the line from 1 |
| MenuItemCard.CardSaveEffect | src/components/menu/MenuItemCard.tsx:86-98 | saving the dialog: unchanged when out of stock; one unit with the note when new; otherwise only the note changes (all quantities, other lines and totals stay) |
| MenuItemCard.OpenThenSaveKeepsLines | src/components/menu/MenuItemCard.tsx:86-105 | opening the dialog on a line with a note and saving unedited leaves the lines unchanged |
| MenuItemCard.AddStaysWithinStock | src/components/menu/MenuItemCard.tsx:55-74 | the add button keeps the item's quantity at 0 or within its stock |
| MenuItemCard.IncreaseStaysWithinStock | src/components/menu/MenuItemCard.tsx:77-83 | "+" keeps the quantity at 0 or within stock |
| MenuItemCard.IncreaseBelowStock | src/components/menu/MenuItemCard.tsx:77-83 | below the stock, "+" leaves the item at one more unit, still within stock |
| MenuItemCard.DecreaseStaysWithinStock | src/components/menu/MenuItemCard.tsx:151 | "-" keeps the quantity at 0 or within stock |
| MenuItemCard.SaveStaysWithinStock | src/components/menu/MenuItemCard.tsx:86-98 | saving the dialog keeps the quantity at 0 or within stock |
| MenuItemCard.CardStep | src/components/menu/MenuItemCard.tsx:46-98 | any one button press on any card keeps ids unique and this item's quantity within stock |
| MenuItemCard.RunWithinStock | src/components/menu/MenuItemCard.tsx:46-98 | the same over any sequence of presses |
| MenuItemCard.StockBound | src/components/menu/MenuItemCard.tsx:46-98 | from an empty cart, card presses keep ids unique and lines positive and never push an item past its available stock |
| CartSidebar.TaxAmount | src/components/menu/CartSidebar.tsx:26 | the tax amount is the total price times one (value stated by `CartSidebar.DisplayMatchesCart`) |
| CartSidebar.FinalTotal | src/components/menu/CartSidebar.tsx:27 | the shown total is the total price plus zero (value stated by `CartSidebar.DisplayMatchesCart`) |
| CartSidebar.DisplayName | src/components/menu/CartSidebar.tsx:32 | the English name in English mode when it is non-empty, otherwise the Arabic name |
| CartSidebar.DisplayNote | src/components/menu/CartSidebar.tsx:33 | a non-empty note behind the language's label, otherwise none |
| CartSidebar.TranslatedItems | src/components/menu/CartSidebar.tsx:30-34 | the displayed lines keep order, ids, quantities and prices; name in English when one exists in English mode; a non-empty note gets its label, an empty one is dropped |
| CartSidebar.DisplayNameAgreesWithTranslateData | src/components/menu/CartSidebar.tsx:32 | the sidebar's name rule gives the same name as `translateData` once mounted |
| CartSidebar.DisplayMatchesCart | src/components/menu/CartSidebar.tsx:26-34 | the displayed total equals the cart total and the sum over the displayed lines; tax terms change nothing |
| CartSidebar.DisplayNoteShape | src/components/menu/CartSidebar.tsx:33 | an absent or empty note is not shown; a shown note is "Note: " in English and "ملاحظة: " otherwise, followed by the customer's text |
| CartSidebar.EmptyCartButton | src/components/menu/CartSidebar.tsx:117 | the footer button leaves any cart empty |
| CartSidebar.DecreaseButton | src/components/menu/CartSidebar.tsx:88 | sets the line's quantity to one less |
| CartSidebar.IncreaseButton | src/components/menu/CartSidebar.tsx:92 | sets the line's quantity to one more, with no stock guard |
| CartSidebar.RemoveButton | src/components/menu/CartSidebar.tsx:97 | removes the line's id |
| CartSidebar.RowButtons | src/components/menu/CartSidebar.tsx:88-97 | row `k`'s buttons act on cart line `k`: one more, one fewer (clamped, dropping at 0), removed |
| CartSidebar.IncreaseButtonIgnoresStock | src/components/menu/CartSidebar.tsx:92 | a cart holding all of an item's stock gets one more unit from the sidebar's "+" |
| Locale.DirectionFor | src/contexts/LocaleContext.tsx:31 | left to right exactly for English |
| Locale.SetLocale | src/contexts/LocaleContext.tsx:43-46 | the chosen language with its direction; mount state kept |
| Locale.Mount | src/contexts/LocaleContext.tsx:26-33 | mounted afterwards; a non-empty stored locale is restored with its direction, otherwise nothing else changes |
| Locale.DirectionAlwaysMatches | src/contexts/LocaleContext.tsx:22-46 | the direction agrees with the locale initially and after every change |
| Locale.Translate | src/contexts/LocaleContext.tsx:48-51 | Arabic before mount; English exactly when mounted in English |
| Locale.TranslateFollowsDirection | src/contexts/LocaleContext.tsx:48-51 | once mounted, the English text is shown exactly when the page reads left to right |
| Locale.TranslateAfterSetLocale | src/contexts/LocaleContext.tsx:43-51 | after choosing a language, `translate` returns that language's text |
| Locale.TranslateData | src/contexts/LocaleContext.tsx:53-65 | unchanged before mount; after mount the English variants are dropped and, in English, name and description switch to non-empty English variants |
| Locale.TranslateDataIdempotent | src/contexts/LocaleContext.tsx:53-65 | translating a translated record changes nothing |
| Text.OrNull | src/components/checkout/CheckoutForm.tsx:207-211 | `|| null` gives `null` exactly for an absent or empty string and otherwise keeps the value |
| Text.Trim | src/components/checkout/CheckoutForm.tsx:177 | `trim` returns a slice of the input with only whitespace cut on either side; nothing exactly when every character is whitespace, and otherwise it starts and ends with a non-whitespace character |
| Checkout.SchemaValid | src/components/checkout/CheckoutForm.tsx:37-53 | name of at least 2 characters, phone of at least 9, the bank-transfer method, and a proof of at least 10 characters |
| Checkout.OnOrderTypeChange | src/components/checkout/CheckoutForm.tsx:74-84 | choosing pickup blanks address, location description and link and nulls both coordinates, every other field (order type and payment method included) unchanged; delivery changes nothing |
| Checkout.Prefill | src/components/checkout/CheckoutForm.tsx:88-104 | a signed-in user's name and phone replace the values; every other field returns to its default (pickup, bank transfer, no proof, blank text, `null` coordinates) |
| Checkout.PrefillIsSettledPickup | src/components/checkout/CheckoutForm.tsx:88-104 | a prefilled form is already what choosing pickup produces, orders in the account holder's name, and fails the schema until a proof is chosen |
| Checkout.HandleFileChange | src/components/checkout/CheckoutForm.tsx:107-153 | a file type is kept exactly when an allowed image was read, and then it becomes the proof and preview; otherwise the proof is cleared |
| Checkout.AllowedTypesExactly | src/components/checkout/CheckoutForm.tsx:114-115 | the accepted types are JPEG, PNG and WEBP, nothing else |
| Checkout.ClearedProofFailsSchema | src/components/checkout/CheckoutForm.tsx:149-153 | a cleared proof cannot pass the schema |
| Checkout.OnLocated | src/components/checkout/CheckoutForm.tsx:437-445 | both coordinates set, the link is the maps prefix followed by the printed latitude, a comma and the printed longitude, nothing else changes |
| Checkout.CustomerName | src/components/checkout/CheckoutForm.tsx:165 | the account's name when signed in with a user, otherwise the form's name |
| Checkout.OrderLines | src/components/checkout/CheckoutForm.tsx:220-224 | one order line per cart line, in order, with its id, quantity and note |
| Checkout.BuildPayload | src/components/checkout/CheckoutForm.tsx:204-225 | the account name when signed in; phone, payment method and date as given; notes and proof sent exactly when non-empty, as entered; the user's e-mail exactly when there is a user with a non-empty one; location fields only for delivery |
| Checkout.OrderedUnitsMatchCart | src/components/checkout/CheckoutForm.tsx:220-224 | the order's unit count is the cart lines' quantity sum |
| Checkout.PayloadMatchesCart | src/components/checkout/CheckoutForm.tsx:220-224 | the order carries the cart line for line, its unit count is the cart's total items, and distinct lines name distinct products |
| Checkout.OnSubmit | src/components/checkout/CheckoutForm.tsx:156-266 | an empty cart sends nothing; a request is sent exactly for a non-empty cart whose delivery fields are ready; success exactly on an ok answer with `success`, and only then is the cart emptied |
| Checkout.Submit | src/components/checkout/CheckoutForm.tsx:37-53 | an invalid form sends nothing and leaves the cart; a valid one proceeds to `onSubmit` |
| Checkout.BlankProof | src/components/checkout/CheckoutForm.tsx:175-178 | the proof is absent, empty, or empty after `trim` |
| Checkout.BlankProofIff | src/components/checkout/CheckoutForm.tsx:175-178 | the proof counts as blank exactly when it is absent or all whitespace |
| Checkout.DeliveryFieldsMissingIn | src/components/checkout/CheckoutForm.tsx:185-191 | the location description is missing or blank after `trim`, or the proof or link is empty, or a coordinate is `null` |
| Checkout.DeliveryFieldsIff | src/components/checkout/CheckoutForm.tsx:185-191 | past the proof check, the delivery guard fires exactly when the order is not ready (description not all whitespace, link non-empty, both coordinates set) |
| Checkout.SubmitAfterSchema | src/components/checkout/CheckoutForm.tsx:168-184 | after the schema, a delivery order is refused for its proof exactly when the proof is all whitespace; pickup with items is always sent |
| Checkout.LocatedDeliverySent | src/components/checkout/CheckoutForm.tsx:185-201 | once located, a delivery order is sent exactly when proof and location description are not blank |
| Signup.MatchDigitsIff | src/components/auth/SignupForm.tsx:23 | `\d{n}$` matches exactly strings of `n` ASCII digits |
| Signup.AlternativesIff | src/components/auth/SignupForm.tsx:23 | trying two-character alternatives in turn matches exactly nine characters opening with one of them and ending in digits |
| Signup.PhonePatternIff | src/components/auth/SignupForm.tsx:23 | the phone pattern accepts exactly nine ASCII digits opening with 70, 71, 73, 77 or 78 |
| Signup.PhoneExamples | src/components/auth/SignupForm.tsx:33 | 771234567 is accepted; 721234567 and an eight-digit number are not |
| Signup.SchemaValid | src/components/auth/SignupForm.tsx:31-37 | name of at least 2 characters, the phone pattern, a valid e-mail, username of at least 3 and password of at least 6 |
| Signup.ToRegisterBody | src/components/auth/SignupForm.tsx:57-63 | the phone travels as `surname` and the username as `userName` |
| Signup.RegisterBodyRoundTrip | src/components/auth/SignupForm.tsx:57-63 | no form value is lost in the request body |
| Signup.SignedInUser | src/components/auth/SignupForm.tsx:71-77 | every field the backend returned wins; otherwise the form's value, and "" for the id |
| Signup.Submit | src/components/auth/SignupForm.tsx:50-101 | a request exactly for a valid form; signed in exactly on an ok answer with `success`, as `SignedInUser` |
| Signup.SignedInPhone | src/components/auth/SignupForm.tsx:71-77 | unless the backend sends a phone, the signed-in account's phone is a Yemeni mobile number |

## Left out

- React state, effects, rendering, dialogs, toasts, alerts, console logging and routing: the model keeps only the values they compute and the actions they dispatch.
- The network: `fetch` calls become a `Response` parameter. The backend's error `message` text is not modelled.
- Reading the payment proof (`FileReader`, splitting the data URL at the comma): the read result is a parameter.
- Geolocation, including its failure toast: the position and its printed form are parameters, and number-to-text formatting is not modelled.
- `localStorage` and `document.documentElement` writes of the locale: the stored value read on mount is a parameter.
- The order date (`new Date().toISOString()`): a parameter.
- zod's `.email()` check: its verdict is the `emailValid` parameter of `Signup.SchemaValid`.
- Text length: zod's `min()` counts UTF-16 code units, while the model counts characters. The two differ only for characters outside the Basic Multilingual Plane.
- Prices and totals are integers. JavaScript numbers are floating point, so fractional prices and rounding are not modelled.
- `availableQuantity` is an integer. The card's `Number(...)` conversion of a non-numeric value (NaN) is not modelled.
- `TAX_RATE` and `getTaxRate` in the cart hook are read by the sidebar but never affect a value, so they are not modelled.
- The checkout's own copy of the phone pattern is declared but never used, so it is not modelled.
- Form fields the checkout never reads (`address`) travel in `CheckoutValues` but affect nothing.
- The reducer's default case is left out: the `Action` datatype admits no other action.
- `addItem`'s default quantity of 1: the model dispatches `ADD_ITEM` with an explicit quantity. The card always passes one unit (`MenuItemCard.CardAddQuantity`).
- Presses handled against a stale render: `MenuItemCard.Run` handles each press against the cart the previous press produced, as after a re-render. Two presses handled against the same snapshot are not modelled.
- The errors `useCart` and `useLocale` throw outside their providers are left out: the model has no provider tree.
- The login and feedback forms, the pages, the header and the API routes are not part of this model.
- The auth context (session storage, `login`, `logout`) is not part of this model. Only the `User` record it holds is.
