# TimeCart storefront core, modelled in Dafny

TimeCart is a browser storefront for watches built on a hosted document
store. This project models the decision rules in six pages: the admin
dashboard, the cart page, the checkout page, the luxury catalogue page, the
repair-pickup form and the order-tracking page. Each rule is a pure
function over immutable data, and the properties the pages promise are
proved about those functions.

The store has four collections (`watches`, `cart`, `orders`, `addresses`).
Each one is a `Records.Table`: a map from document key to record, plus the
order in which the store enumerates documents. An equality query is a
filter of that enumeration. "The first match" (`snapshot.docs[0]`) is the
head of the filtered sequence. Every page handler becomes a function from
the store, and the values the user typed or clicked, to a new store or to
the reason nothing was written.

| module | file | what it holds |
|---|---|---|
| `Common` | common.dfy | Option/Result, `trim`, digit stripping, lower/upper case, number to text, order-preserving filter |
| `Records` | records.dfy | product, cart line, order (a tagged union of purchase and service orders), address; the `Table` collection and its queries |
| `Sorting` | sorting.dfy | the stable descending sort the pages run with `(a, b) => key(b) - key(a)` |
| `Workflow` | workflow.dfy | the two five-step status lists and the "next status" successor |
| `Admin` | admin.dfy | order identification, totals and sales, status updates, `viewOrder`, and the product hide/show/delete cascades |
| `Cart` | cart.dfy | line availability, reconciliation, summary and counts, quantity edits, remove/clear, proceeding to checkout |
| `Checkout` | checkout.dfy | address validation, card field formatters and the review guard, the step indicator, the order record, stock decrement, placing the order |
| `Luxury` | luxury.dfy | the catalogue query and its client-side filters and sort, the price controls, add-to-cart and the cart badge |
| `Schedule` | schedule.dfy | pickup pricing and the pickup order record |
| `Track` | track.dfy | order lookup, the user's merged order list and tabs, the status timelines, the status badges |

Money is a Dafny `real`, so `tax = subtotal * 18 / 100` and
`total = subtotal + tax` hold exactly. Clock values are natural numbers in
milliseconds. A field the source reads as `x || default` is stored with the
default already applied.

## Model

| member | source | states |
|---|---|---|
| Workflow.StatusConfig | admin-dashboard.js:178-180 | the watch list governs exactly the orders of type 'purchase'; every other type, a missing one included, gets the service list |
| Workflow.StatusDisplay | admin-dashboard.js:183-187 | the entry whose key is the status; when no key matches, the list's first entry |
| Workflow.NextStatus | admin-dashboard.js:190-200 | the next status is always one of the governing list's keys |
| Workflow.NextStatusOfListed | admin-dashboard.js:190-200 | a status at position i advances to the entry at (i + 1) mod 5 |
| Workflow.NextStatusAdvances | admin-dashboard.js:190-200 | before the last entry, a click moves to the very next entry |
| Workflow.NextStatusOfUnlisted | admin-dashboard.js:192-196 | an unknown or missing status advances to the list's first key |
| Workflow.DeliveredWraps | admin-dashboard.js:198-199 | 'delivered' wraps to the first status of either list |
| Workflow.AdvanceCycles | admin-dashboard.js:190-200 | n clicks move a status at position i to position (i + n) mod 5 |
| Workflow.FiveAdvancesReturn | admin-dashboard.js:190-200 | any multiple of five clicks brings a listed status back to itself |
| Admin.DetectOrderTypeById | admin-dashboard.js:109-128 | null exactly for a non-string; 'purchase' exactly for an 'ORD-' or 'PK' prefix; 'store' exactly for an 'SV' prefix or more than ten characters among the rest |
| Admin.DetectNeverPickup | admin-dashboard.js:121-123 | the sniffer never answers 'pickup': its third test only repeats conditions the first two already took |
| Admin.PickupIdSniffsAsPurchase | admin-dashboard.js:112-114 | an identifier of the form "PK" + clock, as the pickup form issues them, is classified as a purchase |
| Admin.DisplayId | admin-dashboard.js:131-139 | a purchase shows its non-empty order number, a service order the `id` field it carries, and anything else the document key |
| Admin.EffectiveStatus | admin-dashboard.js:756 | the stored status when present, else the first key of the order's list, so never empty |
| Admin.OrderTotal | admin-dashboard.js:142-160 | a purchase's `totalAmount`, else its `subtotal`, else 0; a service order's numeric price, with a text price counting as 0 |
| Admin.SalesByType | admin-dashboard.js:255-267 | total sales equal the watch sales plus the pickup, store and untyped sales |
| Admin.RestoredQuantity | admin-dashboard.js:704 | the remembered quantity when it is positive, otherwise 1, so never 0 |
| Admin.ToggleProductVisibility | admin-dashboard.js:642-729 | fails without an id or product; otherwise sets only the product's `hidden` flag, leaves orders and addresses alone, and keeps every cart key |
| Admin.HideCascade | admin-dashboard.js:667-679 | every line of the hidden product becomes out of stock with quantity 0 and remembers its quantity, with its own `hidden` flag untouched; other lines are unchanged |
| Admin.ShowCascade | admin-dashboard.js:690-707 | exactly the product's out-of-stock lines are cleared and get the restored quantity; every other line is unchanged |
| Admin.ShowAfterHide | admin-dashboard.js:667-707 | hiding then showing returns each line of the product to its quantity (1 if it had none), clears its out-of-stock flag and remembers the hidden quantity; other lines come back unchanged |
| Admin.DeleteProduct | admin-dashboard.js:584-639 | nothing happens without an id, on a cancelled dialog or for a missing product; otherwise the product is removed and orders and addresses are untouched |
| Admin.DeleteProductCascade | admin-dashboard.js:611-621 | afterwards no cart line refers to the product, and every line of another product survives unchanged |
| Admin.ResolveWatchOrder | admin-dashboard.js:837-876 | an empty identifier is refused with MissingId and only then; an 'ORD-' identifier resolves to the first purchase carrying that number; failing that, the identifier resolves as a document key exactly when it holds a purchase, and is otherwise refused as not a watch order (held by another order) or not found (no such key) |
| Admin.UpdateWatchOrderStatus | admin-dashboard.js:823-887 | succeeds exactly when the identifier resolves, with the resolver's error otherwise; it rewrites only that order's status and update time, to the watch list's successor of its effective status |
| Admin.UpdateServiceOrderStatus | admin-dashboard.js:909-954 | refuses an empty id; reports not-found exactly when no enumerated order has the `id`; the first order that has it is advanced to the service list's successor of its effective status when it is a pickup or store visit, and refused as not a service order exactly when it is neither; nothing else changes |
| Admin.NumberHit | admin-dashboard.js:837-850 | the order-number lookup only runs for an 'ORD-' identifier and only returns a purchase carrying that number |
| Admin.ViewOrder | admin-dashboard.js:975-998 | tries the document key, then the order number, then the `id` field; reports not-found only if all three miss |
| Admin.ViewOrderFindsDisplayId | admin-dashboard.js:975-998 | given unique identifiers, viewing an order by the id its row shows opens that same order |
| Cart.CheckItemAvailability | cart.js:90-133 | classifies a line as missing, hidden (checked before stock), sold out at stock <= 0, over stock, or in stock, each with its exact condition |
| Cart.ReconcileLine | cart.js:183-219 | an unavailable line is set aside (flagged, emptied, remembering its quantity); any other line stays on offer, unflagged, with quantity min(quantity, stock); `hidden` is set exactly for a hidden product |
| Cart.Reconcile | cart.js:181-219 | keeps the number and order of lines, reconciling each one |
| Cart.ReconcileTwoStates | cart.js:183-219 | after reconciliation every line is set aside or on offer, with its identity fields unchanged |
| Cart.ReconcileLineIsLocal | cart.js:183-185 | a line's outcome depends only on its own product record |
| Cart.ReconcileStable | cart.js:183-219 | a second pass against the same inventory changes no quantity, out-of-stock flag or hidden flag |
| Cart.ReconcileForgetsOriginalQuantity | cart.js:191-199 | a second pass overwrites the remembered quantity with 0 |
| Cart.PersistClamps | cart.js:201-208 | the pass writes only quantities, and only to the lines it clamps |
| Cart.PersistClampsWritesStock | cart.js:201-208 | when line ids are unique, a clamped line is written with exactly the product's stock |
| Cart.ReconciledSubtotal | cart.js:289-292 | after reconciliation the subtotal and count are exactly the purchasable part of each line, priced at the line's price |
| Cart.CartSummary | cart.js:289-314 | subtotal over the lines that are neither out of stock nor hidden; tax 18% of it; total their sum; checkout enabled iff such a line has quantity > 0 |
| Cart.CartCounts | cart.js:317-331 | both counters show the summed quantity of the available lines, whatever arguments are passed |
| Cart.CheckStockAvailability | cart.js:335-363 | passes exactly when the product exists, is visible, and has at least the requested stock |
| Cart.FindLine | cart.js:371 | the first line with the id, or none when no line has it |
| Cart.UpdateQuantity | cart.js:366-422 | a negative value is a no-op and an unknown line is reported; 0 always succeeds and sets the line aside on the page only; a positive value succeeds exactly when the stock check passes, it is at most 10 and the document exists, with the stock check's own error or OverLimit otherwise; only quantity and the two flags of that one line change |
| Cart.UpdateQuantityIdempotent | cart.js:366-422 | repeating a quantity edit that went through changes nothing more |
| Cart.RemoveFromCart | cart.js:425-444 | on confirmation, deletes exactly that document and keeps, in order, exactly the page's lines with another id |
| Cart.WithoutIsFilter | cart.js:433 | dropping a line's id is the order-keeping filter `item.id !== id` |
| Cart.RemoveSplitsTotals | cart.js:433-441 | removing a line takes exactly its own share off the subtotal and the count |
| Cart.ClearCart | cart.js:456-471 | on confirmation, deletes exactly the documents of the page's lines and empties the page |
| Cart.CheckCartItemsAvailability | cart.js:178-219 | a line is set aside exactly when its product is missing, hidden or sold out, and otherwise stays on offer clamped to stock, with its identity kept and `hidden` set exactly for a hidden product; the store keeps its keys and enumeration, and only clamped lines' quantities are written |
| Cart.RecheckStoreMatchesPage | cart.js:201-211 | after the re-check, the store and the page hold the product's stock for every clamped line whose id is unique |
| Cart.DraftOrder | cart.js:519-557 | a draft exactly when some refreshed line is purchasable, listing those lines with the refreshed summary's subtotal, 18% tax and total |
| Cart.HasCheckoutable | cart.js:305 | true iff some available line has a positive quantity |
| Cart.ProceedToCheckout | cart.js:506-564 | writes nothing and gives up when nothing is purchasable; otherwise leaves the re-checked page and store behind, and drafts an order exactly when some line is still purchasable after the re-check, holding those lines, priced as the refreshed summary, with customer name falling back to the email |
| Cart.PurchasableSubtotal | cart.js:519-530 | the draft's items subtotal equals the summary's subtotal |
| Cart.DraftWithinStock | cart.js:515-519 | every drafted item refers to a visible product that holds at least its quantity |
| Checkout.ValidateAddressFormSpec | checkout.js:285-316 | the form passes iff the four text fields are not blank and phone and pincode match their patterns |
| Checkout.Group4Shape | checkout.js:410 | grouped digits have a space at exactly every fifth position and a digit elsewhere, and never end in a space |
| Checkout.Group4RoundTrip | checkout.js:408-412 | grouping loses no digit and adds none |
| Checkout.CardNumberKeepsDigits | checkout.js:408-412 | the formatted number holds exactly the digits that were typed |
| Checkout.CardNumberIdempotent | checkout.js:408-412 | formatting a formatted card number changes nothing |
| Checkout.ExpiryShape | checkout.js:415-421 | at most five characters, holding the first four digits typed, with '/' third once two digits are typed |
| Checkout.ExpiryIdempotent | checkout.js:415-421 | formatting a formatted expiry changes nothing |
| Checkout.CvvIdempotent | checkout.js:424-426 | the CVV keeps only digits, and formatting it again changes nothing |
| Checkout.ContinueToReview | checkout.js:429-447 | blocked without a payment method; for 'card', blocked iff the space-stripped number is under 13 characters or name, expiry or CVV is empty; any other method passes |
| Checkout.FormattedCardLength | checkout.js:436-442 | a number typed through the formatter passes the length test iff at least 13 digits were typed |
| Checkout.StepProgress | checkout.js:73-93 | steps before the current one are completed, the current one is active, later ones are neither |
| Checkout.ProgressCounts | checkout.js:77-88 | on step c, exactly c - 1 steps are completed and exactly one is active |
| Checkout.BuildOrder | checkout.js:561-589 | subtotal of price times quantity, 18% tax, total the sum; status 'pending'; order number "ORD-" + clock; payment status 'pending' iff cash on delivery, else 'paid' |
| Checkout.PlacedOrderOnDashboard | checkout.js:565-589 | the dashboard reads a placed order as a purchase, under its order number, with subtotal plus tax as its total and 'pending' as its status |
| Checkout.PlacedOrderConfirmedByNumber | checkout.js:565-589 | a placed order with a new number resolves on the dashboard under that number, and one click moves it from 'pending' to 'confirmed' |
| Checkout.DecrementOne | checkout.js:532-539 | an existing product's stock becomes max(0, stock - quantity); missing products and all other records are untouched |
| Checkout.StockDecrementTotal | checkout.js:529-548 | item-by-item decrements amount to one floored subtraction of the total quantity ordered; products not ordered stay as they were |
| Checkout.StockNeverNegative | checkout.js:535-536 | no product an order draws on ends with negative stock |
| Checkout.PlaceOrder | checkout.js:551-604 | refused without an address or payment method; otherwise adds the order, draws the stock down, and deletes exactly the shopper's cart lines, leaving every other line as it was |
| Luxury.Capitalize | watchcollection/luxury.js:293-295 | upper-case first letter, lower-case rest, same length |
| Luxury.CapitalizeSameLetters | watchcollection/luxury.js:293-295 | capitalising only changes letter case |
| Luxury.BrandPathsAgree | watchcollection/luxury.js:292-331 | for lower-case selections and a singly-capitalised stored brand, the exact 1-10 brand query and the case-blind filter for more than ten brands agree |
| Luxury.AcronymBrandOnlyMatchedCaseBlind | watchcollection/luxury.js:292-331 | a brand stored as "IWC" is matched by the case-blind filter but missed by the capitalised query |
| Luxury.LoadLuxuryWatches | watchcollection/luxury.js:272-357 | never more watches than the query returns; 'featured' (the default) is ordered by weight, largest first; other orderings keep the store's order |
| Luxury.InSnapshot | watchcollection/luxury.js:276-298 | a watch is returned by the query iff it is a visible luxury watch within the non-zero price bounds and, for one to ten brands, of a capitalised selected brand |
| Luxury.LoadedExactly | watchcollection/luxury.js:272-346 | the page lists exactly the watches that pass the query and the client-side filters, whatever the ordering |
| Luxury.UnfilteredListsVisibleLuxury | watchcollection/luxury.js:276-280 | without filters, the page lists every visible luxury watch |
| Luxury.ManyBrandsCaseBlind | watchcollection/luxury.js:327-331 | with more than ten brands, a listed watch's lower-cased brand is one of them |
| Luxury.FeaturesFilter | watchcollection/luxury.js:334-341 | with features selected, a watch is listed iff one selected feature occurs, case-blind, inside one of its features |
| Luxury.FeaturedTiesKeepStoreOrder | watchcollection/luxury.js:344-346 | watches of equal weight keep the order the store returned them in |
| Luxury.ParseOr | watchcollection/luxury.js:667-668 | the parsed number unless it fails to parse or is 0, in which case the fallback |
| Luxury.ClampTyped | watchcollection/luxury.js:773-786 | a typed price is brought into [0, 1000000], unchanged when already inside |
| Luxury.ClampTypedIdempotent | watchcollection/luxury.js:773-786 | typing a non-zero clamped value again leaves it alone |
| Luxury.TypedZeroMaxIsNoCap | watchcollection/luxury.js:782-786 | a 0 typed into the maximum box becomes the top of the range |
| Luxury.OnMinSlider | watchcollection/luxury.js:759-764 | a minimum above the maximum is pulled down to it; an ordered range is untouched |
| Luxury.OnMaxSlider | watchcollection/luxury.js:766-771 | a maximum below the minimum is pushed up to it; an ordered range is untouched |
| Luxury.DragsKeepOrder | watchcollection/luxury.js:757-770 | from an ordered range, or after at least one drag from any range, the sliders end ordered, min <= max |
| Luxury.ApplyFilters | watchcollection/luxury.js:664-688 | rejects a minimum above the maximum; otherwise passes the parsed prices, the lower-cased checked brands, and no features |
| Luxury.AppliedFiltersBoundPrices | watchcollection/luxury.js:664-688 | after the filter button, every listed watch lies within the non-zero bounds, and the feature filter is never engaged |
| Luxury.AppliedBrandsAgree | watchcollection/luxury.js:669-671 | the brands the button passes are lower case, so both brand paths agree on singly-capitalised brands |
| Luxury.CartQuantity | watchcollection/luxury.js:478-486 | the quantity of the user's first line of the watch, or 0 without one |
| Luxury.CheckStockAndCartQuantity | watchcollection/luxury.js:463-511 | refuses exactly for a missing product, stock <= 0, a cart quantity at or above the stock, or a cart quantity of 10 or more; otherwise reports the stock and the cart quantity |
| Luxury.FindWatch | watchcollection/luxury.js:569 | the listed watch with the id, or none when no listed watch has it |
| Luxury.Bumped | watchcollection/luxury.js:594-595 | min((q or 1) + 1, stock, 10): at least 1, never above the stock or 10 |
| Luxury.NewLine | watchcollection/luxury.js:601-614 | a new line with quantity 1 and the watch's name, brand and price |
| Luxury.AddToCart | watchcollection/luxury.js:557-614 | writes nothing without a user, for an unlisted watch, or when the check refuses; otherwise bumps the user's first line of the watch, or adds a new line |
| Luxury.AddRaisesCartQuantity | watchcollection/luxury.js:586-614 | a successful add strictly raises the quantity the next check sees, by one for a new or positive line, never past the stock or 10 |
| Luxury.BadgeCountBounds | watchcollection/luxury.js:647-649 | the badge is the quantities plus the number of empty lines: at least one per line, never less than the quantities or the cart page's count, and exactly the quantities when none is 0 |
| Luxury.UpdateCartCount | watchcollection/luxury.js:636-661 | nothing without a user; otherwise the sum of the user's quantities plus one for each line of quantity 0, so at least one per line and exactly the quantities when none is 0 |
| Schedule.BasePrice | schedule.js:144-158 | battery 200, full 500, glass 150, and 0 for every other service |
| Schedule.PickupPrice | schedule.js:144-171 | a listed service costs its price plus 100 with express; any other service gets the assessed-price text |
| Schedule.AssessedText | schedule.js:159-169 | the text starts "(As per the issue) " and is longer exactly when express was chosen |
| Schedule.AssessedTexts | schedule.js:159-169 | the two texts in full, the express one with "100" appended as text, not added |
| Schedule.ExpressAddsSurcharge | schedule.js:167-169 | express costs exactly 100 more for every listed service, and does not change the kind of price |
| Schedule.BatteryExpressQuote | schedule.js:146-169 | a battery change with express is quoted at 300 |
| Schedule.PickupOrder | schedule.js:121-141 | id "PK" + clock, type 'pickup', status 'order_placed', with the form's service, express choice and price |
| Schedule.SchedulePickup | schedule.js:115-174 | fails without a signed-in user; otherwise adds only the pickup record and keeps every other order |
| Schedule.PickupOnDashboard | schedule.js:121-141 | the dashboard shows a new pickup under its "PK" id, at the first service step whose next step is 'pickup_scheduled', totalled at its list price or 0 |
| Schedule.PickupAdvancesToScheduled | schedule.js:121-141 | a new pickup with a new "PK" id is found by the dashboard's service-order update, and one click moves it to 'pickup_scheduled' |
| Track.TrackOrder | track.js:17-61 | rejects exactly blank input before any lookup; the first purchase in the enumeration carrying the trimmed order number is the one found; failing that, the first service order carrying that `id`; not-found only when neither matches |
| Track.TrackOrderIgnoresPadding | track.js:18 | white space around the typed number makes no difference |
| Track.TrackOrderById | track.js:42-52 | an unpadded number that no purchase carries is looked up by the `id` field |
| Track.TrackOrderAgain | track.js:31-40 | a purchase found is found again by the order number its card shows |
| Track.TrackFindsNewPickup | track.js:42-52 | a newly scheduled pickup is found by its "PK" id as a repair order |
| Track.LoadUserOrders | track.js:96-138 | nothing without a user; otherwise the user's service orders and purchases together, newest first |
| Track.UserOrdersExactly | track.js:103-128 | the list holds exactly the service orders filed under the user's email, tagged 'repair', and the purchases placed with it, tagged 'watch' |
| Track.SameInstantRepairsFirst | track.js:118-129 | among orders with the same timestamp, the service orders come before the purchases |
| Track.DisplayOrders | track.js:141-151 | the tab shows a subsequence of the orders, and all of them for any tab other than pickup, store and watch |
| Track.DisplayOrdersExactly | track.js:141-151 | 'pickup' and 'store' show exactly the orders of that type, 'watch' exactly those found as purchases |
| Track.WatchAndPickupTabsDisjoint | track.js:145-151 | no order of the user is on both the watch and the pickup tab |
| Track.Timeline | track.js:311-331 | the completed steps form a prefix ending at the one active step, whose key is the status; a status not in the list marks nothing |
| Track.TimelineAtPosition | track.js:321-328 | for a status first listed at position i, step j is completed iff j <= i and active iff j = i |
| Track.CompletedCountsPosition | track.js:321-328 | a status first listed at position i completes i + 1 steps |
| Track.TimelinesFollowWorkflow | track.js:311-318 | the watch timeline lists the dashboard's watch statuses; the corrected repair timeline lists its service statuses |
| Track.ClickCompletesOneStep | track.js:320-328 | each dashboard click that does not wrap completes exactly one more timeline step |
| Track.NewServiceOrderShowsNoProgress | track.js:335-356 | as written, a pickup just placed shows no completed and no active step |
| Track.AsWrittenFirstStepNeverActive | track.js:337 | as written, the first repair step is never active for any status the workflow or the pickup form produces |
| Track.NewServiceOrderShowsFirstStep | track.js:335-356 | corrected, a new service order shows its first step completed and active, and nothing beyond it |
| Track.StatusClass | track.js:359-372 | always a 'status-' class; 'status-pending' exactly for 'pending', 'order_placed' and unknown statuses |
| Track.StatusText | track.js:374-387 | a capitalised label; 'Pending' exactly for 'pending' and unknown statuses |
| Track.WorkflowStatusesKnown | track.js:359-387 | every status the dashboard's workflow produces is one of the nine the badge maps know |
| Track.StatusTextDistinguishes | track.js:374-387 | different known statuses read differently |
| Track.StatusClassByStage | track.js:359-372 | the first three steps of both workflows share a badge class stage by stage |
| Sorting.SortDesc | watchcollection/luxury.js:345 | the sorted list is ordered largest key first and is a permutation of the input |
| Sorting.SortDescIsStable | track.js:129 | among elements with the same key, the input order survives |
| Common.TrimEmptyIffBlank | checkout.js:292-293 | `!value.trim()` holds exactly for strings that are all white space |

## Left out

- The document store's I/O is not modelled. Failed reads and writes, `try`/`catch` paths, and the partial writes a failure leaves behind are all absent. Every handler is one atomic step.
- Concurrency is not modelled: two shoppers at once, the check-then-act window in add-to-cart and quantity edits, and the order of the writes inside `Promise.all`.
- Checkout.StockDecrementTotal: the decrements run one item after another. The source runs them in parallel, so two items of the same product could each read the old stock. A cart holds one line per product, so this does not arise from the cart page.
- Checkout.PlaceOrder: it returns one new store. It does not model that the order is written before the stock changes, or that a failed step skips only its item.
- Clock values are natural numbers in milliseconds. ISO date strings, and the comparison of their parsed dates, are not modelled.
- A document missing a field compared with `!=` (the catalogue's `hidden != true`) is treated as not hidden. The store's own rule for missing fields is not modelled.
- The catalogue's store-side sorts ('priceAsc', 'priceDesc', 'newest', 'name') are taken as given by the table's enumeration order; only the client-side 'featured' sort is modelled. The `orderBy('timestamp', 'desc')` of each user-orders query is modelled as the stable descending sort of its hits (Track.Fetch). The store's index requirements for such queries are not modelled.
- The DOM, alerts, notifications, modal dialogs, the button-state lookup, charts, localStorage and the EmailJS message from the pickup form are left out. Each confirmation dialog's answer is a `bool` parameter.
- `Intl.NumberFormat` currency text is not modelled.
- Case mapping covers ASCII letters only. JavaScript's `toUpperCase` and `toLowerCase` also map other Unicode letters.
- The badge maps are lookups on nine keys. Prototype keys of the JavaScript object, such as 'toString', are not modelled.
- Money is exact here. The source computes tax (`subtotal * 0.18`, cart.js:293, cart.js:531, checkout.js:562) and totals in binary floating point, so the stored figures may differ from the model's by rounding; no decision depends on that rounding. This concerns Checkout.BuildOrder, Cart.CartSummary and Cart.DraftOrder.
- Pass-through fields that decide nothing are not modelled: the purchase's `customerPhone` (checkout.js:570), each order item's `image` (checkout.js:579, cart.js:548), the new cart line's `image` (luxury.js:608), and the product `updatedAt` written with the stock decrement (checkout.js:539).
- Schedule.PickupForm keeps only the fields that decide the record's price, name and identity. Phone, email, address, brand, issue, date, time and the terms box are copied into the record unexamined.
- The `updatedAt` time written with a cart line's quantity, and with a product's `hidden` flag (admin-dashboard.js:663), is not modelled. An order's `updatedAt` is modelled.
- Track.TrackOrder: the page builds a found purchase as `{id: doc.orderNumber, ...}`. A document snapshot has no `orderNumber` property and a purchase record has no `id` field, so that `id` stays undefined; the model keeps the document key in its place. The same holds for the purchases Track.LoadUserOrders lists.
- Admin.ViewOrder: only the lookup is modelled. Rendering the order details is not.
- Cart.ProceedToCheckout: the saved addresses it loads, the localStorage hand-off, the redirect, and the page's empty-cart display when every line turned out unavailable are left out. The re-check's writes are modelled.
- Admin.EffectiveStatus: only the status fallback is modelled. The label text shown with it is not.
- `filterOrdersByDate`, the price-range initialisation, and the login, home, shop and repair-services pages are not part of this model.

## Findings

| source | as written | input that shows it | evidently intended | confidence | as-written member | corrected member |
|---|---|---|---|---|---|---|
| track.js:337 | the repair timeline's first key is 'order_place', but service orders are created and advanced with 'order_placed' | a pickup just placed, whose status is 'order_placed' | the first step is completed and active for a new service order, as the watch timeline does for 'pending' | high; not executed | Track.NewServiceOrderShowsNoProgress | Track.NewServiceOrderShowsFirstStep |
