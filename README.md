# Monisha Kitchen order-taking rules, in Dafny

This project models the order-taking core of the Monisha Kitchen food-ordering app and
proves properties of that model. The app has a React client, a persisted
client store, an Express server and a Postgres schema. The model covers:

- **Cart store** (`client/src/lib/store.ts`). `Cart` holds the new-cart computations
  behind `addToCart` and `removeFromCart`. Class `ClientStore.AppStore` is the store
  with its fields: cart, view mode, merchant session, signed-in user. It has one method
  per store action.
- **Cart page** (`client/src/App.tsx`). `Pricing` resolves the cart against the menu and
  computes the subtotal, the out-of-range test, the delivery and platform fees and the total.
  `ComputeQuote` is a method that assigns those variables step by step, as the source does.
  `Pricing` also holds the ordered refusal checks of "place order" and the order snapshot.
  `CartGate.ConfirmPayment` turns the priced cart into a new order and empties the cart.
- **Add-to-cart gate** (`client/src/App.tsx`). `Availability` decides open, pre-order
  window or closed from the opening time. `CartGate.HandleAddToCart` lets a quantity
  change through or refuses it.
- **Dashboard** (`client/src/App.tsx`). `OrderWorkflow` holds the status buttons as a
  relation between statuses, proves facts about the graph they form, and models the
  dashboard's sort.
- **Menu import** (`client/src/App.tsx`). `MenuImport` is the row parser that runs after
  the spreadsheet is decoded. The header search and the row loop are methods with loop
  invariants, each proved against a specification function.
- **Storefront lists** (`client/src/App.tsx`). `Catalog` holds the home-screen category
  tiles, the menu filter, the banner linked-item toggle and the cart badge count.
- **Storage** (`server/storage.ts`). Class `Storage.DatabaseStorage` is the storage layer
  over in-memory tables. Its `Valid()` invariant states the tables' keys.
- **Server routes** (`server/routes.ts`). Class `Routes.Server` holds the merchant
  session set and the merchant-only routes. It also proves that settings responses carry
  no credentials, and it models the review admission checks.
- **Record shapes** (`shared/schema.ts`). `Schema` holds the record shapes and column
  defaults. `Wrappers` and `Text` are small support modules: an option type, and the
  JavaScript string helpers the rules use.

Modelling conventions:

- **Clock.** A clock reading is an integer number of milliseconds since local midnight,
  passed in as `nowMs`.
- **Distance.** The customer's distance from the store is a `real` passed in.
- **Random values.** The random order id and the merchant session token are parameters.
- **Tables.** Database tables are sequences or maps. Serial ids come from a "next id"
  counter.

Behaviour of the code worth noting:

- **Decrement is gated too.** `handleAddToCart` (client/src/App.tsx:829-888) stops a
  blocked user's or a closed store's decrement, not only the increment.
  `CartGate.HandleAddToCart` leaves the cart unchanged in both cases.
- **The menu page bypasses the gate.** Its own add button (client/src/App.tsx:1316-1318)
  calls `addToCart` directly.
- **Blocking is never seen by the client.** The client blocks through `user.isBlocked`.
  Only the store's `setUser` can set that flag, and `login` and `updateProfile` never do
  (`ClientStore.ProfileActionsNeverBlock`).
- **A numeric category aborts the whole import.** Any number other than 0 in the
  category column makes `category.replace` throw before any item is sent
  (`MenuImport.ThrowAborts`).
- **No review table in the schema.** The review row's shape and the 409 uniqueness
  follow `server/routes.ts:185-209` and `server/storage.ts:228-235`.

## Model

| member | source | states |
|---|---|---|
| Cart.Find | client/src/lib/store.ts:33 | the entry found has the id; none is found exactly when no entry has the id |
| Cart.Without | client/src/lib/store.ts:53 | keeps exactly the entries with another id and never grows the cart |
| Cart.FindIn | client/src/lib/store.ts:33 | in a well-formed cart, the entry found for an id is the one at that id's position |
| Cart.AddPresent | client/src/lib/store.ts:33-40 | adding a present id raises only that entry's quantity by one; length and order are kept |
| Cart.AddAbsent | client/src/lib/store.ts:41 | adding an absent id appends one entry of quantity 1 |
| Cart.RemoveCases | client/src/lib/store.ts:43-54 | removing decrements when the quantity is above one, drops an entry held once (cart one shorter), leaves a cart without the id unchanged |
| Cart.WithoutDropsOne | client/src/lib/store.ts:53 | in a well-formed cart, filtering an id out removes exactly its one entry |
| Cart.WithoutAppend | client/src/lib/store.ts:53 | filtering distributes over concatenation |
| Cart.WithoutAbsent | client/src/lib/store.ts:53 | filtering out an id the cart lacks changes nothing |
| Cart.WithoutWellFormed | client/src/lib/store.ts:53 | filtering keeps the cart well formed |
| Cart.AddWellFormed | client/src/lib/store.ts:31-42 | add keeps quantities at least 1 and ids unique |
| Cart.RemoveWellFormed | client/src/lib/store.ts:43-54 | remove keeps quantities at least 1 and ids unique |
| Cart.AddThenRemove | client/src/lib/store.ts:31-54 | add followed by remove of the same id restores the cart |
| Cart.AddQuantities | client/src/lib/store.ts:31-42 | as a bag, add raises the count of that id by one and no other count |
| Cart.RemoveQuantities | client/src/lib/store.ts:43-54 | as a bag, remove lowers that id's count by one (to 0 from 1) and no other count |
| ClientStore.Overlay | client/src/lib/store.ts:77 | the details overwrite name and address; the phone number and blocked flag stay; an explicitly undefined location overwrites the old one, a left-out one keeps it |
| ClientStore.AppStore.constructor | client/src/lib/store.ts:30-70 | the initial state: empty cart, customer view, no merchant session, nobody signed in |
| ClientStore.AppStore.AddToCart | client/src/lib/store.ts:31-42 | the cart becomes Add of the old cart, stays well formed, and only that id's count rises, by one |
| ClientStore.AppStore.RemoveFromCart | client/src/lib/store.ts:43-54 | the cart becomes Remove of the old cart, stays well formed, is unchanged for an absent id, and other counts are kept |
| ClientStore.AppStore.ClearCart | client/src/lib/store.ts:55 | the cart is empty |
| ClientStore.AppStore.ToggleViewMode | client/src/lib/store.ts:58-61 | the view mode flips between customer and merchant |
| ClientStore.AppStore.MerchantLogin | client/src/lib/store.ts:65 | sets the token, the merchant flag, merchant view, and clears the location-set flag |
| ClientStore.AppStore.MerchantLogout | client/src/lib/store.ts:66 | clears the token, the merchant flag and the location-set flag, and returns to customer view |
| ClientStore.AppStore.SetMerchantLocationSet | client/src/lib/store.ts:67 | the location-set flag is raised |
| ClientStore.AppStore.Login | client/src/lib/store.ts:71-73 | signed in, with a user holding only the phone number |
| ClientStore.AppStore.UpdateProfile | client/src/lib/store.ts:74-78 | no effect when nobody is signed in, otherwise the user becomes the overlay of the details |
| ClientStore.AppStore.SetUser | client/src/lib/store.ts:79 | the user is replaced |
| ClientStore.AppStore.Logout | client/src/lib/store.ts:80 | signed out, no user, empty cart |
| ClientStore.ProfileActionsNeverBlock | client/src/lib/store.ts:71-78 | login and updateProfile never make an unblocked user blocked |
| Pricing.Lookup | client/src/App.tsx:1064 | the row found has the id; none is found exactly when no row has it |
| Pricing.ResolveCart | client/src/App.tsx:1063-1066 | never more priced lines than cart entries |
| Pricing.ResolveCartLines | client/src/App.tsx:1063-1066 | resolving a cart extended by one entry adds that entry's line exactly when its item is on the menu |
| Pricing.ResolveAppend | client/src/App.tsx:1063-1066 | resolution distributes over concatenation of carts |
| Pricing.SubtotalAppend | client/src/App.tsx:1068 | the subtotal of concatenated lines is the sum of the subtotals |
| Pricing.SubtotalOfCart | client/src/App.tsx:1063-1068 | the subtotal adds price times quantity over exactly the entries whose item is on the menu |
| Pricing.DroppedEntryIsIgnored | client/src/App.tsx:1063-1068 | an entry naming an item not on the menu changes neither the lines nor the subtotal, wherever it sits |
| Pricing.SubtotalNonNegative | client/src/App.tsx:1063-1068 | with non-negative prices and a well-formed cart the subtotal is not negative |
| Pricing.ComputeQuote | client/src/App.tsx:1063-1098 | the subtotal; out of range exactly when user location and both store coordinates are set and the distance exceeds the radius; fee 0 when out of range or over 999, else 49 within 5 km and 99 beyond; 49 with no user location up to 999; platform fee 5; total the sum, so the quote prices this cart (`QuotesCart`) |
| Pricing.ExampleQuote | client/src/App.tsx:1063-1098 | two items at 100 and one at 50, under the default settings, 3 km away: subtotal 250, in range, fee 49, total 304 |
| Pricing.PlaceOrder | client/src/App.tsx:1100-1121 | payment is reached exactly when not blocked, located and in range; a blocked user is refused first, a missing location second, out of range last |
| Pricing.Snapshot | client/src/App.tsx:1130 | one order item per resolved line, copying id, name, quantity and price |
| Pricing.SnapshotKeepsSubtotal | client/src/App.tsx:1130 | the snapshot's lines add up to the subtotal charged for goods |
| Pricing.NewOrder | client/src/App.tsx:1125-1134 | the order has the given id, status pending_payment, the quoted total, the snapshot items, and the fallbacks "Unknown" for the phone, "Guest User" for the name and "Address not provided" for the address |
| CartGate.ClosedMessage | client/src/App.tsx:872 | the next-open message when set, otherwise "We open at " followed by the opening time |
| CartGate.HandleAddToCart | client/src/App.tsx:829-888 | blocked: cart unchanged; closed outside the window: cart unchanged, even for a decrement, with the closed message; pre-order window or open: add on increment, remove on decrement, with the notices |
| CartGate.ConfirmPayment | client/src/App.tsx:1123-1137 | given the cart page's quote for the same cart, the order carries the snapshot of the resolved cart, whose lines add up to the subtotal, status pending_payment, and a total equal to the snapshot's sum plus the delivery fee and the platform fee; the cart is then empty |
| Availability.Split | client/src/App.tsx:843 | split always yields at least one piece |
| Availability.WindowIsModularDistance | client/src/App.tsx:845-855 | for times within a day, the window holds exactly when the time until opening, counted around the clock, is in (0, 30 min] |
| Availability.ClosedAtOpeningInstant | client/src/App.tsx:848-855 | at the opening instant itself the pre-order window does not hold |
| Availability.NextOpeningBounds | client/src/App.tsx:845-850 | the next opening is between now and a day later, and equals now only at the opening instant |
| Availability.WindowBounds | client/src/App.tsx:845-855 | the window is exactly the thirty minutes before today's or, when past, tomorrow's opening |
| Availability.SplitWithoutSeparator | client/src/App.tsx:843 | a text without the separator splits into itself |
| Availability.SplitAtSeparator | client/src/App.tsx:843 | a text with a separator after its first part splits into that part and the split of the rest |
| Availability.OpenInstantOf | client/src/App.tsx:843-846 | "H:M" with numeric parts opens at H hours plus M minutes |
| Availability.MalformedOpenTimeIsClosed | client/src/App.tsx:840-875 | an empty opening time, or one with no minute part, leaves a closed store closed |
| Availability.TwoDigits | client/src/App.tsx:843 | a two-digit text reads as its decimal value |
| Availability.DigitsOfPair | client/src/App.tsx:843 | two digits spell ten times the first plus the second |
| AvailabilityExamples.PreOrderAtQuarterToSix | client/src/App.tsx:840-866 | closed until 18:00, an add at 17:45 is a pre-order |
| AvailabilityExamples.ClosedBeforeWindow | client/src/App.tsx:840-875 | closed until 18:00, an add at 17:29:30 is refused |
| AvailabilityExamples.ClosedAtSix | client/src/App.tsx:848-875 | closed until 18:00, an add at 18:00 is refused: the next opening is a day away |
| AvailabilityExamples.OpenInstantTen | client/src/App.tsx:843-846 | "10:00" opens at ten hours after midnight |
| AvailabilityExamples.DefaultOpensAtTen | shared/schema.ts:61 | a store on the default settings row opens at 10:00 |
| OrderWorkflow.NextStatuses | client/src/App.tsx:2188-2215 | a status is offered exactly when some button under the current status sets it |
| OrderWorkflow.NextStatusTable | client/src/App.tsx:2188-2215 | pending → {rejected, preparing}, preparing → {ready, refunded}, ready → {on_the_way, refunded}, on_the_way → {delivered, refunded}, delivered → {refunded}, rejected and refunded → none |
| OrderWorkflow.StepsStayKnown | client/src/App.tsx:2188-2215 | buttons appear only under and lead only to the seven known statuses, never to the same status |
| OrderWorkflow.StepRaisesRank | client/src/App.tsx:2188-2215 | every button moves strictly forward along pending, preparing, ready, on the way, delivered, then the ends |
| OrderWorkflow.PathsClimb | client/src/App.tsx:2188-2215 | along any sequence of presses the rank climbs at each step, by at least one per step |
| OrderWorkflow.PathHasNoRepeats | client/src/App.tsx:2188-2215 | no status is visited twice: the button graph has no cycle |
| OrderWorkflow.TerminalAndRefund | client/src/App.tsx:2188-2215 | rejected and refunded have no buttons, and refunded is reachable from every status after payment |
| OrderWorkflow.ForwardStep | client/src/App.tsx:2188-2215 | a press that does not reject or refund advances by exactly one stage |
| OrderWorkflow.RankTable | client/src/App.tsx:2188-2215 | the stage of each of the seven statuses |
| OrderWorkflow.DeliveredPath | client/src/App.tsx:2188-2215 | the only way from pending_payment to delivered is through preparing, ready and on_the_way, in that order |
| OrderWorkflow.StatusUpdateIsUnchecked | server/storage.ts:101-104 | the server sets a pending order straight to delivered, a move no button offers |
| OrderWorkflow.CompareMeansPrecedes | client/src/App.tsx:2101-2107 | the comparator is negative exactly when the first order goes before the second, and positive exactly when it goes after |
| OrderWorkflow.PrecedesTransitive | client/src/App.tsx:2101-2107 | the dashboard order is transitive |
| OrderWorkflow.Insert | client/src/App.tsx:2101 | inserting adds the order to the multiset of orders |
| OrderWorkflow.InsertSorted | client/src/App.tsx:2101-2107 | inserting into a dashboard-sorted list keeps it sorted |
| OrderWorkflow.InsertMembers | client/src/App.tsx:2101 | the list after inserting holds the old orders and the new one, nothing else |
| OrderWorkflow.SortedHeadFirst | client/src/App.tsx:2101-2107 | in a sorted list no later order goes before the first |
| OrderWorkflow.SortOrders | client/src/App.tsx:2101-2107 | the sorted list is a permutation of the orders and in dashboard order |
| OrderWorkflow.DashboardOrder | client/src/App.tsx:2101-2107 | pending-payment orders come first, and within each group newer before older |
| MenuImport.PriceOf | client/src/App.tsx:2371 | a number cell is its value and an absent cell is 0 |
| MenuImport.HeaderFrom | client/src/App.tsx:2356-2364 | 0 when none of the first ten rows mentions price or name, otherwise one past the first that does |
| MenuImport.FindDataStart | client/src/App.tsx:2356-2364 | the header loop finds HeaderFrom's start |
| MenuImport.RemoveSpecial | client/src/App.tsx:2375 | removing "special" never lengthens the text |
| MenuImport.RemoveSpecialKeepsPlainText | client/src/App.tsx:2375 | a category without "special" in any letter case is kept as is |
| MenuImport.CleanCategory | client/src/App.tsx:2373-2376 | the category is never empty: the trimmed text without "special", or "Main Course" |
| MenuImport.RoundedOriginal | client/src/App.tsx:2390 | the original price is 1.2 times the price rounded to the nearest integer, halves up |
| MenuImport.Results | client/src/App.tsx:2366-2393 | one result per row, each that row's result |
| MenuImport.CollectSnoc | client/src/App.tsx:2366-2393 | collecting one more result absorbs it into the running list |
| MenuImport.ResultsSuffix | client/src/App.tsx:2366 | the results of the rows from the start index are the tail of all results |
| MenuImport.CollectRows | client/src/App.tsx:2366-2393 | the row loop pushes exactly the kept items from the start index on, unless some row throws |
| MenuImport.ImportRows | client/src/App.tsx:2356-2398 | the import outcome is that of parsing the rows after the header |
| MenuImport.KeptRowShape | client/src/App.tsx:2370-2391 | a kept row has a name and a non-zero price, a non-empty category, the fixed image, availability true, the rounded original price, and veg exactly when the type lacks "non" |
| MenuImport.KeptItems | client/src/App.tsx:2381-2392 | no more items than results |
| MenuImport.KeptComesFromKeep | client/src/App.tsx:2381-2392 | every collected item comes from a kept row |
| MenuImport.KeptSnoc | client/src/App.tsx:2381-2392 | one more result appends its item exactly when it is a kept row |
| MenuImport.CollectMeaning | client/src/App.tsx:2366-2393 | collecting yields the kept items in row order, or nothing at all once any row throws |
| MenuImport.CollectThrown | client/src/App.tsx:2375 | one throwing result aborts the collection |
| MenuImport.ImportedItemsShape | client/src/App.tsx:2366-2393 | every imported item has the imported shape, and there are no more items than rows |
| MenuImport.ThrowAborts | client/src/App.tsx:2373-2375 | a non-zero numeric category in any row aborts the whole import |
| MenuImportExamples.OnlySpecialFallsBack | client/src/App.tsx:2375-2376 | a category reading only "Special" falls back to "Main Course" |
| Catalog.Distinct | client/src/App.tsx:817 | the distinct categories hold each category of the list, once |
| Catalog.DistinctFirstOccurrence | client/src/App.tsx:817 | the distinct categories come in the order they first appear in the list, as a `Set` iterates |
| Catalog.FirstIndex | client/src/App.tsx:817 | the index found holds the value and no earlier index does |
| Catalog.FirstIndexSnoc | client/src/App.tsx:817 | appending a value leaves the first occurrences of the values already there |
| Catalog.SubsequenceMembers | client/src/App.tsx:819-827 | an in-order selection holds only values of what it selects from |
| Catalog.SubsequenceKeepsOrder | client/src/App.tsx:819-827 | filtering and slicing keep the first-occurrence order |
| Catalog.Categories | client/src/App.tsx:817 | one category per menu row, in menu order |
| Catalog.VisibleNames | client/src/App.tsx:796-799 | a category is listed exactly when some row marks it visible |
| Catalog.OnlyVisible | client/src/App.tsx:819 | keeps exactly the categories that are visible, in order, without new duplicates |
| Catalog.Take | client/src/App.tsx:822 | the first n, or all when there are fewer |
| Catalog.SubsequenceOfPrefix | client/src/App.tsx:827 | a prefix of an in-order selection is still one |
| Catalog.PrefixIsSubsequence | client/src/App.tsx:822 | a prefix is an in-order selection |
| Catalog.FinalDisplaySpec | client/src/App.tsx:817-827 | at most eight tiles, seven beside "more", distinct, in the order the categories first appear on the menu, each a menu category, and only visible ones once any is marked visible |
| Catalog.NothingVisibleShowsFirst | client/src/App.tsx:817-827 | with nothing marked visible, the first eight categories, or seven when there are more than eight |
| Catalog.FilterMenu | client/src/App.tsx:1306-1314 | never lists more items than the menu |
| Catalog.FilterMenuSpec | client/src/App.tsx:1306-1314 | an item is listed exactly when it is on the menu and matches, in menu order |
| Catalog.VegSplit | client/src/App.tsx:1310-1313 | veg and non-veg partition what "all" shows |
| Catalog.HomeSearchIsNameContains | client/src/App.tsx:1307 | with no type filter an item matches exactly when its lower-cased name contains the lower-cased query |
| Catalog.Drop | client/src/App.tsx:2942 | keeps exactly the other ids, never grows |
| Catalog.ToggleFlips | client/src/App.tsx:2939-2946 | one toggle flips whether the item is linked and leaves every other link |
| Catalog.DropAbsent | client/src/App.tsx:2942 | dropping an absent id changes nothing |
| Catalog.DropAppended | client/src/App.tsx:2942-2944 | dropping an id just appended undoes the append |
| Catalog.ToggleTwiceRestores | client/src/App.tsx:2939-2946 | toggling an unlinked item twice restores the list |
| Catalog.CartCountMatchesPricedLines | client/src/App.tsx:714-715 | the badge counts exactly the units the cart page prices |
| Catalog.AddRaisesCount | client/src/App.tsx:714-715 | adding an item on the menu raises the badge by one; another leaves it |
| Catalog.AppendCount | client/src/App.tsx:714-715 | an appended entry adds its quantity to the badge when its item is on the menu |
| Catalog.BumpCount | client/src/App.tsx:714-715 | one more of a present item raises the badge by one when it is on the menu |
| Catalog.BumpNothing | client/src/lib/store.ts:33-40 | bumping an id the cart lacks leaves the cart as it was |
| Storage.WithStatus | server/storage.ts:101-102 | only the status of rows keyed by the order id changes |
| Storage.OrderIndex | server/storage.ts:102 | the index found names the order id; none exactly when no row has it |
| Storage.OrdersOf | server/storage.ts:92-94 | exactly the orders placed from the phone |
| Storage.ReviewsOf | server/storage.ts:228-230 | exactly the reviews of the order |
| Storage.PatchCustomerSpec | server/storage.ts:116-130 | an upsert on a known phone changes only the supplied columns, never the blocked flag, join time or phone, changes nothing when nothing is supplied, and is idempotent |
| Storage.WithoutItem | server/storage.ts:77-79 | exactly the other rows remain, and ids stay unique |
| Storage.PatchBanners | server/storage.ts:175-178 | only the row with that id is patched; ids are kept |
| Storage.BannerIndex | server/storage.ts:176 | the index found names the id; none exactly when no row has it |
| Storage.DefaultBanners | server/storage.ts:165-170 | three banners with consecutive ids and empty linked-item lists |
| Storage.NumberedRows | server/storage.ts:84 | one row per item, with consecutive serial ids |
| Storage.ToggleTwiceRestores | server/storage.ts:135-143 | toggling the same customer twice restores the table |
| Storage.DatabaseStorage.constructor | server/storage.ts:242 | all tables empty and the keys valid |
| Storage.DatabaseStorage.ReplaceAllMenuItems | server/storage.ts:81-85 | the menu is exactly the given items with fresh serial ids |
| Storage.DatabaseStorage.DeleteMenuItem | server/storage.ts:77-79 | the menu loses exactly that row |
| Storage.DatabaseStorage.CreateOrder | server/storage.ts:96-99 | the row is appended, unless its order id is taken (unique key) |
| Storage.DatabaseStorage.UpdateOrderStatus | server/storage.ts:101-104 | any status is written to that order only; undefined and no change for an unknown order |
| Storage.DatabaseStorage.GetOrdersByPhone | server/storage.ts:92-94 | the orders placed from the phone |
| Storage.DatabaseStorage.UpsertCustomer | server/storage.ts:116-133 | a known phone is patched with the supplied columns only; an unknown one is inserted with defaults |
| Storage.DatabaseStorage.ToggleCustomerBlock | server/storage.ts:135-143 | flips the blocked flag of that customer only; undefined and no change for an unknown phone |
| Storage.DatabaseStorage.GetSettings | server/storage.ts:146-153 | the first read of an empty table inserts the default row; later reads change nothing |
| Storage.DatabaseStorage.UpdateSettings | server/storage.ts:155-159 | the single row becomes the patched current row, or the patched default row when the table was empty |
| Storage.DatabaseStorage.GetBanners | server/storage.ts:162-173 | an empty table is seeded with the three defaults; otherwise nothing changes |
| Storage.DatabaseStorage.UpdateBanner | server/storage.ts:175-178 | that banner is patched; undefined for an unknown id |
| Storage.DatabaseStorage.UpsertCategoryImage | server/storage.ts:185-195 | an existing category gets the image, and the visibility only when given; a new one is hidden unless told otherwise |
| Storage.DatabaseStorage.ToggleCategoryVisibility | server/storage.ts:197-205 | an existing category's visibility flips; an unknown one is created visible with no image |
| Storage.DatabaseStorage.SetVisibleCategories | server/storage.ts:207-217 | afterwards a category is visible exactly when listed; listed ones without a row are created with no image; images are kept |
| Storage.DatabaseStorage.GetReviewsByOrder | server/storage.ts:228-230 | the reviews of the order |
| Storage.DatabaseStorage.CreateReview | server/storage.ts:232-235 | the review is appended |
| Routes.SettingsObject | server/routes.ts:101 | the settings row as an object carries both credential fields |
| Routes.PublicSettingsSpec | server/routes.ts:100-109 | a settings response holds every field of the row except the two credentials, which it never contains |
| Routes.FindOrder | server/routes.ts:191 | the first order with that id, or none exactly when there is none |
| Routes.FindReview | server/routes.ts:196 | a review of that item, or none exactly when there is none |
| Routes.Server.constructor | server/routes.ts:6 | no merchant session at start |
| Routes.Server.Login | server/routes.ts:148-160 | 400 with the sessions and settings unchanged when a credential is missing; otherwise the settings row stays as it was (or is the default row when the table was empty), credentials matching that row add the one fresh token, and others answer 401 with the sessions unchanged |
| Routes.Server.Logout | server/routes.ts:162-166 | removes only the presented token and always succeeds |
| Routes.Server.PatchOrderStatus | server/routes.ts:68-74 | 401 and no change without a live session; otherwise the unchecked status write, 404 for an unknown order |
| Routes.Server.PatchCustomerBlock | server/routes.ts:93-97 | 401 and no change without a live session; 404 for an unknown phone; otherwise the toggled customer |
| Routes.Server.GetSettings | server/routes.ts:100-103 | the settings row stays as it was (or is the default row when the table was empty), and the answer is that row without its credentials |
| Routes.Server.PatchSettings | server/routes.ts:105-109 | 401 and no change without a live session; otherwise the single settings row becomes the current row, or the default row when there was none, patched with the updates, and the answer is that row without its credentials |
| Routes.Server.PostReview | server/routes.ts:185-209 | answers ReviewCode, stores the review with defaults exactly on 200, changes nothing otherwise, and keeps one review per order and item |
| Routes.ReviewCodeSpec | server/routes.ts:185-199 | 400 exactly for a malformed body; then 403 exactly unless the caller's order is delivered; then 409 exactly for an item already reviewed on that order |
| Routes.NoMatchNotReviewed | server/routes.ts:195-199 | finding no review of the item among the order's reviews means it was never reviewed on that order |
| Routes.SecondReviewConflicts | server/routes.ts:195-199 | after one review is stored the same review request gets 409 |
| Routes.AdmittedReviewKeepsKey | server/routes.ts:195-207 | storing a review not already there keeps one review per order and item |
| Schema.MenuItemDefaults | shared/schema.ts:5-15 | a new menu row keeps the given columns and defaults description and image to "", veg and available to true |
| Schema.OrderDefaults | shared/schema.ts:21-32 | a new order keeps its items and total, is stamped with the insert time, its status defaults to pending_payment and its name and address to "" |
| Schema.CustomerDefaults | shared/schema.ts:38-47 | a new customer is unblocked unless told otherwise; left-out nullable columns are null |
| Schema.PatchSettingsSpec | server/storage.ts:155-159 | a settings patch never changes the id; a left-out open flag, radius or password keeps its value, a given open flag is written; an empty patch changes nothing |
| Text.Lower | client/src/App.tsx:2359 | the same length, each character lower-cased |
| Text.ContainsIff | client/src/App.tsx:2360 | contains holds exactly when the pattern occurs at some index |
| Text.ContainsInfix | client/src/App.tsx:2360 | a text contains any piece it was built around |
| Text.TrimStart | client/src/App.tsx:2375 | drops exactly the leading white space |
| Text.TrimEnd | client/src/App.tsx:2375 | drops exactly the trailing white space |
| Text.TrimSpec | client/src/App.tsx:2375 | trimming removes leading and trailing white space only |
| Text.NatToString | client/src/App.tsx:2378 | the decimal digits of a number |
| Text.DigitsValueOfNatToString | client/src/App.tsx:2378 | the digits of a number read back as that number |
| Text.ParseDigits | client/src/App.tsx:2371 | a run of digits parses as the number it spells |
| Text.ParseNumberOfIntToString | client/src/App.tsx:2371 | the decimal text of an integer parses back to it |

## Left out

- Distance: the haversine formula is floating-point trigonometry, so the distance from the store is a `real` parameter of `Pricing.ComputeQuote`.
- Pricing.ComputeQuote: the rule for a customer with no location repeats the fee table (49 up to 999, free above). It is stated and not simplified, as the source writes it twice.
- Clock and calendar: `Date`, time zones and daylight saving are left out. The clock is a number of milliseconds since local midnight, and "tomorrow" is that number plus one day.
- Random values: the order id (`Math.random`) and the merchant session token (`crypto.randomBytes`) are parameters of `CartGate.ConfirmPayment` and `Routes.Server.Login`.
- User interface: rendering, toasts, dialogs, navigation, maps, address search, browser geolocation, image compression and the `setTimeout` before payment confirmation are left out. A toast is kept only as the `CartGate.Notice` value the gate returns.
- Firebase phone sign-in (client/src/lib/firebase.ts) and the fetch and react-query layer (client/src/lib/api.ts) are external services. Sign-in enters the model as `ClientStore.AppStore.Login`.
- Spreadsheet decoding (`XLSX.read`, `sheet_to_json`) is a library call. The import starts from the decoded rows, and a cell is blank, a number or a text.
- Boolean cells, non-integer numbers and `NaN` in the spreadsheet are left out. A numeric name or description is kept as its decimal text, where the source sends the number itself.
- Text.Lower: only ASCII letters are lower-cased, since JavaScript's full Unicode case mapping is not modelled.
- Text.IsSpace: only the common white-space characters are trimmed, not every Unicode space that `trim` removes.
- Text.ParseNumber: only optionally signed decimal integers are read. Decimals, exponents and hexadecimal forms of `Number(text)` are not.
- Express, Drizzle and the HTTP layer are left out. A route is a method on `Routes.Server`, and a table is a sequence or map in `Storage.DatabaseStorage`.
- Concurrency: requests run one at a time.
- Query ordering: the order-by-creation-time of `getOrders` and `getOrdersByPhone` is not modelled, and rows keep insertion order. The review check looks up orders by their unique id, so the order does not matter there.
- Routes.Server.PatchOrderStatus: a status left undefined in the request body is not modelled. The status is always a string.
- Routes.Server.PostReview: non-integer star ratings are not modelled, because stars are integers in the model.
- Routes.DeliveredToCaller: the route checks the status of the caller's first order with the id. An order refunded after delivery is therefore refused a review, and the model keeps that.
- Menu getters and single-item create and update (`getMenuItems`, `getMenuItem`, `createMenuItem`, `updateMenuItem`) are plain reads and writes and are not modelled, beyond the row shape in `Schema.MenuItemRow`.
- `getReviews`, `getReviewsByMenuItem` and `deleteReview` are plain reads and deletes and are not modelled.
- `getOrders`, `getCustomers`, `getCustomer`, `getCategoryImages` and the remaining GET routes return whole tables and are not modelled.
- The discount percentage shown beside an item (client/src/App.tsx:1400, client/src/App.tsx:2459) rounds a floating-point ratio and is left out.
- The client store's `persist` middleware, which writes to browser storage, is left out.
- scripts/push-to-github.ts is a deployment script and is not part of this model.
- OrderWorkflow.SortOrders: the dashboard sort is specified by its comparator and built by insertion. The stability and the algorithm of `Array.prototype.sort` are not modelled.
- Storage.PatchCustomerSpec: only the name and the latitude columns are spelled out column by column. The other supplied columns follow the same rule in `Storage.PatchCustomer`.
- Schema.PatchSettingsSpec: only the open flag, the radius and the password are spelled out. The other columns follow the same rule in `Schema.PatchSettings`.
- Storage.DatabaseStorage.CreateOrder: a duplicate order id is refused, as the unique key on `orderId` would. The database error itself is not modelled, and the POST orders route adds no checks of its own: client/src/App.tsx builds the order.
