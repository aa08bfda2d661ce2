# CineCart Express — a Dafny model of the booking core

CineCart Express is a cinema web app. A visitor picks a show of a movie, picks
seats on an 8 × 8 grid, adds snacks, and pays with a simulated payment. The app
then writes the order, books the seats and shows a countdown to the show. An
admin dashboard lists the orders, their revenue and their status.

This project models the logic behind those pages:

- `CartContext` — the cart provider. A `Cart` class holds the selected show,
  the seats and the snacks. Its methods are `addSeat`, `removeSeat`,
  `addSnack`, `removeSnack`, `updateSnackQty` and `clearCart`. Each method
  assigns the result of a pure list function (`WithoutSeat`, `AddedSnack`,
  `UpdatedQuantity`, …), and the seat, snack and grand totals are pure
  functions of the lists. Lemmas show that
  the operations keep the snack list valid (unique ids, quantities ≥ 1) and how
  they move the totals.
- `SeatSelection` — `getSeat`, `isSelected`, `toggleSeat`, the A–H × 1–8 grid
  and the displayed seat price.
- `Snacks` — `getQty`, the combo/regular split of the catalog and the card's
  Add / minus / plus buttons.
- `Database` — the rows of the four tables the client writes (orders, seats, order_seats, order_items), taken from the
  generated types, held in an in-memory `Tables` class, one method per write.
- `Checkout` — `handlePayment`: the guard, the order insert, the seat-booking
  loop, the order-item loop and the final `clearCart`, with its three outcomes.
- `AdminDashboard` — the show filter, revenue, status counts and
  `updateStatus`.
- `OrderSuccess` — the countdown's hour/minute/second split, its text, and the
  seat-label list.
- `Navbar` — the cart badge count and when the badge is shown.
- `MovieDetails` — `selectShow`, with the "Screen 1" default.
- `Decimal` and `Wrappers` — how a JavaScript number prints in a template
  string (for a natural number below 10^21, which covers every value the
  pages print; larger numbers print in exponent form), and `Option`.

Prices, quantities and totals are mathematical integers (rupees). The current
time, the payment id and the database's answer to the order insert are
parameters.

The model follows the code, which has no atomic commit and no double-booking check:

- `handlePayment` neither reads `is_booked` nor rolls back, and it ignores
  errors from the seat, `order_seats` and `order_items` writes.
- `show.screen || "Screen 1"` replaces an empty screen name as well as a
  missing one, because `""` is falsy in JavaScript.

## Model

| member | source | states |
|---|---|---|
| CartContext.Cart.constructor | src/context/CartContext.tsx:41-43 | a new cart has no show, no seats and no snacks |
| CartContext.Cart.SetSelectedShow | src/context/CartContext.tsx:41 | `setSelectedShow` replaces the show and leaves seats and snacks as they were |
| CartContext.Cart.AddSeat | src/context/CartContext.tsx:45-47 | the seat is appended and the list grows by one; show and snacks are unchanged |
| CartContext.WithoutSeat | src/context/CartContext.tsx:50 | the filtered list holds exactly the seats with another id, so the removed id is gone, and it is never longer |
| CartContext.WithoutSeatAppend | src/context/CartContext.tsx:50 | removing keeps the relative order of the remaining seats |
| CartContext.WithoutSeatAbsent | src/context/CartContext.tsx:50 | removing an id that is not in the cart changes nothing |
| CartContext.WithoutSeatUnique | src/context/CartContext.tsx:50 | removing a seat cannot create a duplicate id |
| CartContext.AppendSeatUnique | src/context/CartContext.tsx:46 | appending a seat with a new id keeps the ids unique |
| CartContext.Cart.RemoveSeat | src/context/CartContext.tsx:49-51 | the seat list becomes the filtered list, the id is gone, and unique ids stay unique |
| CartContext.FindSnack | src/context/CartContext.tsx:55 | `find` gives nothing exactly when no entry has the id, and otherwise the first entry with that id |
| CartContext.FindSnackAt | src/context/CartContext.tsx:55 | with unique ids, `find` returns the one entry with that id |
| CartContext.IncrementSnack | src/context/CartContext.tsx:56 | every entry with the id gets quantity + 1; the others are unchanged; the length is unchanged |
| CartContext.AddSnackExisting | src/context/CartContext.tsx:55-56 | adding a snack already in the cart raises only that entry's quantity by one |
| CartContext.AddSnackNew | src/context/CartContext.tsx:57 | adding a new snack appends one entry with quantity 1 |
| CartContext.AddSnackKeepsValid | src/context/CartContext.tsx:53-59 | `addSnack` keeps ids unique and quantities ≥ 1 |
| CartContext.AddSnackTotals | src/context/CartContext.tsx:53-59 | on a valid list, `addSnack` raises the snack count by exactly one and the snack total by that entry's price |
| CartContext.AddExistingSnackTotals | src/context/CartContext.tsx:56 | incrementing an existing entry raises the count by one and the total by its stored price |
| CartContext.AddNewSnackTotals | src/context/CartContext.tsx:57 | appending a new entry raises the count by one and the total by the item's price |
| CartContext.Cart.AddSnack | src/context/CartContext.tsx:53-59 | the snack list becomes `AddedSnack`; a valid list stays valid and its count rises by one |
| CartContext.WithoutSnack | src/context/CartContext.tsx:62 | the filtered list holds exactly the entries with another id |
| CartContext.RemoveSnackKeepsValid | src/context/CartContext.tsx:61-63 | `removeSnack` keeps the list valid |
| CartContext.Cart.RemoveSnack | src/context/CartContext.tsx:61-63 | the snack list becomes the filtered list and the id is gone |
| CartContext.SetQuantity | src/context/CartContext.tsx:69 | every entry with the id gets the new quantity; the others are unchanged |
| CartContext.UpdateQuantityRemoves | src/context/CartContext.tsx:66-67 | a quantity ≤ 0 deletes the entry and keeps every other one |
| CartContext.UpdateQuantitySets | src/context/CartContext.tsx:68-69 | a positive quantity sets that entry's quantity and changes nothing else |
| CartContext.UpdateQuantityAbsent | src/context/CartContext.tsx:69 | a positive quantity for an id not in the cart inserts nothing |
| CartContext.AddedSnack | src/context/CartContext.tsx:54-58 | the definition of the list `addSnack` leaves: the increment map when `find` gives an entry, otherwise an append of a quantity-1 entry |
| CartContext.UpdatedQuantity | src/context/CartContext.tsx:65-71 | the definition of the list `updateSnackQty` leaves: the filter for a quantity ≤ 0, otherwise the quantity map |
| CartContext.AddSnackIncrements | src/context/CartContext.tsx:55-56 | `addSnack` on an id already in the cart is the increment map |
| CartContext.IncrementOnlyAt | src/context/CartContext.tsx:56 | with unique ids the increment changes only the entry with that id, raising its quantity by one |
| CartContext.IncrementTotals | src/context/CartContext.tsx:56-74 | with unique ids the increment adds one to the snack count and that entry's price to the snack total |
| CartContext.OneMoreOfEntry | src/context/CartContext.tsx:74 | one more of an entry adds its price to that entry's part of the snack total |
| CartContext.UpdateQuantityKeepsValid | src/context/CartContext.tsx:65-71 | `updateSnackQty` keeps the list valid |
| CartContext.Cart.UpdateSnackQty | src/context/CartContext.tsx:65-71 | the snack list becomes `UpdatedQuantity`; a valid list stays valid |
| CartContext.SeatTotal | src/context/CartContext.tsx:73 | the definition of `getSeatTotal`: the seat count times 200 |
| CartContext.SnackTotal | src/context/CartContext.tsx:74 | the definition of `getSnackTotal`: the sum of price times quantity |
| CartContext.CartTotal | src/context/CartContext.tsx:75 | the definition of `getTotal`: seat total plus snack total |
| CartContext.QuantitySum | src/pages/Snacks.tsx:68 | the definition of the snack count shown on the snacks page and in the navbar: the sum of quantities |
| CartContext.Cart.GetSeatTotal | src/context/CartContext.tsx:73 | the definition: `SeatTotal` of the cart's seats |
| CartContext.Cart.GetSnackTotal | src/context/CartContext.tsx:74 | the definition: `SnackTotal` of the cart's snacks |
| CartContext.Cart.GetTotal | src/context/CartContext.tsx:75 | the definition: `CartTotal` of the cart's lists |
| CartContext.SnackTotalAppend | src/context/CartContext.tsx:74 | the snack total and the snack count both add up over concatenated lists |
| CartContext.PointUpdateTotals | src/context/CartContext.tsx:74 | changing one entry's quantity moves the totals by that entry's part alone |
| CartContext.QuantitySumAtLeastLength | src/context/CartContext.tsx:74 | with positive quantities, the snack count is at least the number of entries |
| CartContext.Cart.ClearCart | src/context/CartContext.tsx:77-81 | show, seats and snacks are emptied, and all three totals become 0 |
| SeatSelection.GetSeat | src/pages/SeatSelection.tsx:31-34 | no seat is found exactly when no seat is numbered row+col; otherwise the first such seat is found |
| SeatSelection.IsSelected | src/pages/SeatSelection.tsx:36 | true exactly when a cart seat has the id |
| SeatSelection.Toggled | src/pages/SeatSelection.tsx:38-45 | the definition of the seat list `toggleSeat` leaves: unchanged if booked, the filter if selected, otherwise an append |
| SeatSelection.ToggleSeat | src/pages/SeatSelection.tsx:38-45 | the cart's seats become `Toggled`; the show and snacks are unchanged |
| SeatSelection.ToggleBookedIsNoOp | src/pages/SeatSelection.tsx:39 | a booked seat leaves the cart as it was |
| SeatSelection.ToggleFlipsSelection | src/pages/SeatSelection.tsx:40-44 | on a free seat, selection flips: a selected seat is removed, an unselected one is appended |
| SeatSelection.ToggleKeepsUnique | src/pages/SeatSelection.tsx:38-45 | toggling keeps the cart's seat ids unique |
| SeatSelection.ToggleTwiceRestores | src/pages/SeatSelection.tsx:38-45 | toggling a free, unselected seat twice gives back the original cart |
| SeatSelection.GridLabelShape | src/pages/SeatSelection.tsx:64-69 | grid cell k is labelled with row k / 8 and column k % 8 + 1 |
| SeatSelection.GridIsRowsByCols | src/pages/SeatSelection.tsx:12-13 | the grid has 64 distinct labels, exactly the labels "A1" to "H8" |
| SeatSelection.GridCellsMatchLabels | src/pages/SeatSelection.tsx:68-70 | each cell shows the seat with its label, or is empty exactly when no seat has it |
| SeatSelection.DisplayedSeatPrice | src/pages/SeatSelection.tsx:104 | the price under the grid equals `getSeatTotal` |
| Snacks.GetQty | src/pages/Snacks.tsx:28 | a snack not in the cart shows 0; otherwise the card shows the quantity of the first entry with that id |
| Snacks.GetQtyAt | src/pages/Snacks.tsx:28 | with unique ids, the card shows the quantity of the entry with that id |
| Snacks.GetQtyZeroIffAbsent | src/pages/Snacks.tsx:28 | on a valid cart, the card shows 0 exactly when the snack is not in the cart |
| Snacks.Combos | src/pages/Snacks.tsx:30 | holds exactly the catalog's combo snacks |
| Snacks.Regular | src/pages/Snacks.tsx:31 | holds exactly the catalog's other snacks, including those with no category |
| Snacks.CombosRegularPartition | src/pages/Snacks.tsx:30-31 | the two sections hold every snack exactly as often as the catalog, and their lengths add up to the whole |
| Snacks.CombosKeepOrder | src/pages/Snacks.tsx:30 | the combo section keeps catalog order |
| Snacks.RegularKeepOrder | src/pages/Snacks.tsx:31 | the regular section keeps catalog order |
| Snacks.AddFromZero | src/pages/Snacks.tsx:92-95 | "Add" on a card showing 0 makes it show 1 |
| Snacks.MinusStep | src/pages/Snacks.tsx:98 | minus lowers the shown quantity by one; at 1 it removes the entry |
| Snacks.PlusStep | src/pages/Snacks.tsx:102 | plus raises the shown quantity by exactly one |
| Snacks.PressAdd | src/pages/Snacks.tsx:50 | the cart gets `addSnack` of the card's snack; from 0 the card shows 1 |
| Snacks.PressMinus | src/pages/Snacks.tsx:98 | the cart gets `updateSnackQty(id, qty - 1)`; on a valid cart the shown quantity drops by one, and from 1 the entry is gone |
| Snacks.PressPlus | src/pages/Snacks.tsx:102 | the cart gets `updateSnackQty(id, qty + 1)`; on a valid cart the shown quantity rises by one |
| Database.MarkBooked | src/pages/Checkout.tsx:41 | the seats with the id become booked; all other rows and fields are unchanged |
| Database.WithStatus | src/pages/AdminDashboard.tsx:45-46 | the orders with the id get the status; all other rows and fields are unchanged |
| Database.Tables.constructor | src/integrations/supabase/types.ts:50-181 | the store starts with the given four tables |
| Database.Tables.InsertOrder | src/pages/Checkout.tsx:31-35 | a failed insert stores nothing; a successful one appends the row with the returned id and timestamp and returns it |
| Database.Tables.BookSeat | src/pages/Checkout.tsx:41 | only the seats table changes, by `MarkBooked` |
| Database.Tables.InsertOrderSeat | src/pages/Checkout.tsx:42 | one `order_seats` row is appended; nothing else changes |
| Database.Tables.InsertOrderItem | src/pages/Checkout.tsx:47 | one `order_items` row is appended; nothing else changes |
| Database.Tables.UpdateOrderStatus | src/pages/AdminDashboard.tsx:45 | only the orders table changes, by `WithStatus` |
| Checkout.BookCartSeats | src/pages/Checkout.tsx:40-43 | after the loop every cart seat is booked and has one appended claim row, in cart order |
| Checkout.SaveOrderItems | src/pages/Checkout.tsx:46-48 | after the loop each cart snack has one appended item row with its quantity, in cart order |
| Checkout.CanPay | src/pages/Checkout.tsx:20 | the definition of the guard: a user, a selected show and at least one seat |
| Checkout.BookedAll | src/pages/Checkout.tsx:40-41 | the definition of the seats table after the loop: each cart seat marked booked in turn |
| Checkout.SeatClaims | src/pages/Checkout.tsx:40-42 | the definition of the claim rows the loop appends, one per cart seat in order |
| Checkout.ItemRows | src/pages/Checkout.tsx:46-47 | the definition of the item rows the loop appends, one per cart snack in order |
| Checkout.HandlePayment | src/pages/Checkout.tsx:19-58 | missing user, show or seats: no write and the cart is unchanged; failed insert: no write beyond it and the cart is unchanged; success: the order carries the user, show, `getTotal()`, "Confirmed" and the payment id, the seats are booked and claimed, the items are saved, and the cart is cleared |
| Checkout.BookedAllEffect | src/pages/Checkout.tsx:40-41 | after booking, every row whose id is a cart seat is booked and every other row is unchanged |
| Checkout.SeatClaimsShape | src/pages/Checkout.tsx:42 | one claim row per cart seat, in order, each linking that seat to the order |
| Checkout.OneClaimPerSeat | src/pages/Checkout.tsx:40-43 | with unique seat ids, each cart seat gets exactly one claim row |
| Checkout.ClaimCountAbsent | src/pages/Checkout.tsx:40-43 | a seat outside the cart gets no claim row |
| Checkout.ItemRowsShape | src/pages/Checkout.tsx:47 | one item row per cart snack, in order, with its id and quantity |
| Checkout.OneItemPerSnack | src/pages/Checkout.tsx:46-48 | with unique snack ids, each cart snack gets exactly one item row |
| Checkout.ItemCountAbsent | src/pages/Checkout.tsx:46-48 | a snack outside the cart gets no item row |
| AdminDashboard.OrdersOfShow | src/pages/AdminDashboard.tsx:49 | holds exactly the orders of that show and is never longer than the list |
| AdminDashboard.Filtered | src/pages/AdminDashboard.tsx:49 | the definition of `filtered`: all orders for "all", otherwise the show filter |
| AdminDashboard.TotalRevenue | src/pages/AdminDashboard.tsx:50 | the definition of `totalRevenue`: the sum of `total_amount` |
| AdminDashboard.StatusCount | src/pages/AdminDashboard.tsx:65-66 | the definition of a status card: the number of orders with that status |
| AdminDashboard.Dashboard.Shown | src/pages/AdminDashboard.tsx:49 | the definition: `Filtered` of the page's orders and filter |
| AdminDashboard.Dashboard.Revenue | src/pages/AdminDashboard.tsx:50 | the definition of the Revenue card: `TotalRevenue` of the shown list |
| AdminDashboard.FilteredContents | src/pages/AdminDashboard.tsx:49 | "all" keeps every order; otherwise exactly the orders of the chosen show are kept |
| AdminDashboard.OrdersOfShowAppend | src/pages/AdminDashboard.tsx:49 | the filter keeps the orders' original order |
| AdminDashboard.TotalRevenueAppend | src/pages/AdminDashboard.tsx:50 | the revenue adds up over concatenated lists |
| AdminDashboard.RevenueSplitsByShow | src/pages/AdminDashboard.tsx:49-50 | all revenue is one show's revenue plus that of the other shows |
| AdminDashboard.StatusCountsBounded | src/pages/AdminDashboard.tsx:64-66 | the Confirmed and Preparing counts together never exceed the order count |
| AdminDashboard.StatusCountMeaning | src/pages/AdminDashboard.tsx:65-66 | a status count is 0 exactly when no order has that status, and never more than the list |
| AdminDashboard.Dashboard.CardsBounded | src/pages/AdminDashboard.tsx:64-66 | the Confirmed and Preparing cards never add up to more than the Orders card |
| AdminDashboard.UpdateStatusIdempotent | src/pages/AdminDashboard.tsx:44-47 | setting the same status twice is the same as setting it once |
| AdminDashboard.UpdateStatusAnyDirection | src/pages/AdminDashboard.tsx:125-131 | a Ready order can be set back to Preparing: no transition order is enforced |
| AdminDashboard.UpdateStatusKeepsRevenue | src/pages/AdminDashboard.tsx:46-50 | a status change never changes the revenue |
| AdminDashboard.UpdateStatusCommutesWithFilter | src/pages/AdminDashboard.tsx:46-49 | filtering then updating equals updating then filtering |
| AdminDashboard.Dashboard.constructor | src/pages/AdminDashboard.tsx:16 | the filter starts at "all" |
| AdminDashboard.Dashboard.SetFilter | src/pages/AdminDashboard.tsx:78 | only the filter changes |
| AdminDashboard.Dashboard.UpdateStatus | src/pages/AdminDashboard.tsx:44-47 | the table and the page's list both get `WithStatus`, the other tables are unchanged, and the Revenue card stays the same |
| OrderSuccess.Decompose | src/pages/OrderSuccess.tsx:39-41 | h·3600 + m·60 + s equals the seconds left, with m < 60 and s < 60 |
| OrderSuccess.DecomposeRoundTrip | src/pages/OrderSuccess.tsx:39-41 | the split is the only one with m, s < 60: splitting a composed time gives it back |
| OrderSuccess.CountdownText | src/pages/OrderSuccess.tsx:42 | the text starts with a digit, ends in "s", and has at least 8 characters |
| OrderSuccess.CountdownTextInjective | src/pages/OrderSuccess.tsx:42 | different h/m/s never give the same text |
| OrderSuccess.OnTick | src/pages/OrderSuccess.tsx:36-43 | the timer stops exactly when diff ≤ 0, showing "Show started!"; otherwise it shows the text of a split of diff with m, s < 60 |
| OrderSuccess.RunningNeverShowsStarted | src/pages/OrderSuccess.tsx:38-42 | while seconds remain, the text is never "Show started!" |
| OrderSuccess.OnTickInjective | src/pages/OrderSuccess.tsx:39-42 | two different positive countdowns never show the same text |
| OrderSuccess.SeatLabels | src/pages/OrderSuccess.tsx:29 | one label per `order_seats` row, in order: the joined seat number, or "" when the join is missing |
| OrderSuccess.SeatLabelEmpty | src/pages/OrderSuccess.tsx:29 | a label is "" exactly when the join is missing or the seat number is empty |
| Navbar.EmptyCartCount | src/components/Navbar.tsx:11-30 | an empty cart counts 0 and shows no badge |
| Navbar.ItemCount | src/components/Navbar.tsx:11 | the definition of `itemCount`: the seat count plus the sum of snack quantities |
| Navbar.ShowBadge | src/components/Navbar.tsx:21-30 | the definition of badge visibility: signed in and `itemCount > 0` |
| Navbar.CountCoversEntries | src/components/Navbar.tsx:11 | with positive quantities the count is at least the number of seats plus snack entries |
| Navbar.BadgeIffNonEmpty | src/components/Navbar.tsx:11-30 | for a signed-in user on a valid cart, the badge shows exactly when the cart holds a seat or a snack |
| Navbar.NoBadgeSignedOut | src/components/Navbar.tsx:21 | a signed-out visitor never sees the badge |
| Navbar.AddSeatCount | src/components/Navbar.tsx:11 | `addSeat` raises the count by exactly one |
| Navbar.AddSnackCount | src/components/Navbar.tsx:11 | on a valid cart, `addSnack` raises the count by exactly one, whether the snack was new or not |
| MovieDetails.ScreenName | src/pages/MovieDetails.tsx:45 | no screen or an empty one becomes "Screen 1", any other is kept, and the result is never empty |
| MovieDetails.SelectShow | src/pages/MovieDetails.tsx:43-47 | with no user: route "/auth" and the cart unchanged; with a user: the show's id and time, the movie's title and the screen name become the selected show, and the route is the show's seat page; seats and snacks are unchanged either way |
| Decimal.NatToDecimal | src/pages/OrderSuccess.tsx:42 | a number prints as digits with no leading zero |
| Decimal.DecimalRoundTrip | src/pages/OrderSuccess.tsx:42 | reading the printed digits back gives the number |
| Decimal.NatToDecimalInjective | src/pages/OrderSuccess.tsx:42 | different numbers print differently |
| Decimal.DigitValue | src/pages/SeatSelection.tsx:32 | a digit character reads back to the digit that prints as it |

## Left out

- Supabase reads (movies, shows, seats, snacks, orders) and the admin page's realtime channel are network I/O. Their results are inputs of the model.
- `async`/`await` is not modelled: each write runs to completion in program order, and no other client acts at the same time.
- Checkout's `processing` flag, the toasts and page navigation are left out, apart from the route `selectShow` returns.
- Dates are not modelled. The payment id (`pay_test_<Date.now()>`) and the countdown's `diff` (`differenceInSeconds`) are parameters.
- The QR code payload, the JSX markup and styling, and the Auth, App and Home pages are not part of this model.
- The admin page's `isAdmin` redirect is not part of this model.
- The `id` columns the database generates for `order_seats` and `order_items` rows are left out of those rows.
- Checkout.HandlePayment: models the seat, `order_seats` and `order_items` writes as always applied. The source ignores their errors, so a failed write would silently be missing.
- AdminDashboard.Dashboard.UpdateStatus: models the table write as always applied. The source ignores its `error` and updates the page's list anyway, so a failed or denied write would leave the table's status unchanged while the page shows the new one.
- Checkout.HandlePayment: checks neither `is_booked` nor for a double booking, and does not roll back, because the source does neither.
- Snacks.PressAdd: the page passes the whole snack row to `addSnack`, and the JavaScript spread also copies its `category` into the cart entry. The model's cart entry has no `category` field, since nothing reads it.
- The cart does not clear the seats when another show is selected. The model keeps this, as the source does.
- The displayed snack count (src/pages/Snacks.tsx:68) is `CartContext.QuantitySum`, the same sum as the Navbar count. Its properties are stated by `CartContext.AddSnackTotals`, `CartContext.QuantitySumAtLeastLength` and `Navbar.AddSnackCount`.
- `Number(o.total_amount)` is the identity on the integer totals the model uses.
