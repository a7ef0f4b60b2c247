# Restaurant membership app: billing and payment ledger

This project is a Dafny model of the admin pages of a restaurant membership app. The pages read and write tables in a hosted database. The model covers seven of them:

- **Bills**: price an order's line items, apply at most one discount, add tax and service fee, open a bill, link the order to it, delete a bill.
- **Payments**: settle a bill against its outstanding balance, record the payment and a journal entry.
- **Discounts**: merge the discount catalog, create and edit in-house and special-ID (Senior / PWD) discounts, delete a discount.
- **OrderPanel**: the customer's cart, and placing an order with its line items and a journal entry.
- **Orders**: edit an order's dish list, rewrite its line items, delete an order.
- **MemberHistory**: a member's journal and analytics.
- **Dishes**: the menu's writes and per-dish sales analytics.

How the store is modelled:

- The database is the class `Store.Db`, with one sequence field per table. `Snapshot()` returns all the tables as a value.
- Every page operation is a method that is proved equal to a specification function over the snapshot. The properties are lemmas about those functions.
- A store write can be rejected. Each operation takes the set of its writes that the store rejects. Where the page checks the error, the operation stops there and earlier writes stay, since nothing is rolled back. Where the page ignores the error, only that write is missing.
- `Ids.NextId` is the id allocator every page uses: "max + 1, or 1 on an empty table".
- Money is exact `real` arithmetic. Quantities and ids are `int`.
- Nothing here is compiled or executed; the claims are the verified contracts.

In these places the code guarantees less than a ledger might be expected to, and the model follows the code:

- Special-ID creation and bill generation are not all-or-nothing. A rejected write leaves the rows written before it in place.
- The ID number's 12-character bound is not checked.
- A paid amount is not required to be positive. A balance is non-increasing only for non-negative amounts.
- A bill generated with a freshly created Special-ID discount is priced against the catalog loaded before that discount existed. It therefore gets no discount, and the model reproduces this.

## Model

| member | source | states |
|---|---|---|
| Ids.NextId | src/pages/Bills.jsx:174-177 | the allocated id exceeds every existing id, so it is new; it is 1 for an empty table and at least 1 when ids are non-negative |
| Ids.MaxOrZero | src/pages/Payments.jsx:40-41 | the result bounds every id from above and is one of them; it is 0 for an empty table |
| Ids.NextIdAfterInsert | src/pages/OrderPanel.jsx:62-64 | once a row with the allocated id is stored, the next allocation is exactly one higher, so successive ids increase strictly and never repeat |
| Catalog.Merge | src/pages/Bills.jsx:36-52 | the catalog holds one 'I' entry per in-house row, in table order, then one 'S' entry per special-ID row, carrying the row's id and rate |
| Catalog.DetailCases | src/pages/Discounts.jsx:32-43 | a special-ID entry's subtype is 'S' when a Senior row with its id exists, even if a PWD row exists too; 'P' when only a PWD row exists; null with an empty ID number otherwise; the ID number and birthday come from the first Senior row with the id, or else the ID number from the first PWD row; the disability comes from the first PWD row whenever one exists, even when a Senior row wins, and is empty otherwise |
| Catalog.FindBy | src/pages/Discounts.jsx:33-34 | the lookup finds nothing exactly when no row has the id; otherwise it finds the first row with it |
| Catalog.FindEntry | src/pages/Bills.jsx:80 | the lookup finds nothing exactly when no entry has the id; otherwise it finds the first entry with it |
| Catalog.TypeFiltersPartitionCatalog | src/pages/Discounts.jsx:160-161 | the 'I' filter of the catalog is exactly the in-house entries, and the 'S' filter is exactly the special-ID entries |
| Catalog.TypeFiltersCover | src/pages/Discounts.jsx:160-161 | the two type filters together keep every entry of any list exactly once |
| Catalog.OfType | src/pages/Bills.jsx:97 | an entry is kept exactly when it is in the list and has the given type |
| Bills.AccumulateSubtotal | src/pages/Bills.jsx:67-71 | the loop's subtotal is the left-to-right sum of price × quantity, with unknown dishes adding nothing |
| Bills.ChooseDiscount | src/pages/Bills.jsx:73-86 | at most one discount: 12 % of the subtotal for a Special-ID choice; the catalog rate of the chosen entry, or of the id a Special-ID bill was created with, when the page's catalog holds it; nothing otherwise |
| Bills.SubtotalOverKnownItems | src/pages/Bills.jsx:66-71 | the subtotal is Σ price × quantity over exactly the line items whose dish is on the loaded menu |
| Bills.SubtotalAppend | src/pages/Bills.jsx:68-71 | the subtotal of two runs of line items is the sum of their subtotals |
| Bills.KnownItems | src/pages/Bills.jsx:69-70 | an item is kept exactly when its dish is on the menu |
| Bills.DiscountCases | src/pages/Bills.jsx:74-85 | the discount is 0 for an empty choice or an id missing from the catalog snapshot; subtotal × the rate of the first entry with that id for an id in it; subtotal × 0.12 for the literal 'specialid' |
| Bills.BillTotalFactored | src/pages/Bills.jsx:87-88 | total = (subtotal − discount) × (1 + tax + fee): tax and fee are both levied on the discounted amount and not on each other |
| Bills.UndiscountedTotal | src/pages/Bills.jsx:87-88 | with no discount, the total is subtotal × (1 + tax + fee) |
| Bills.CalculateTotal | src/pages/Bills.jsx:64-90 | the computed total equals the total defined from the store's line items, the menu snapshot and the catalog snapshot |
| Bills.Validate | src/pages/Bills.jsx:101-121 | 'no order' is reported exactly when no order is selected; the form passes exactly when an order is selected and a 'specialid' choice has a type, an ID number, and a birthday for Senior or a disability for PWD |
| Bills.ValidationFailureWritesNothing | src/pages/Bills.jsx:101-121 | each validation failure returns its own error with every table unchanged |
| Bills.CreateSpecialIdEffect | src/pages/Bills.jsx:123-169 | the three creation writes go in order under one id; the first rejected write stops creation with the rows before it kept, and bills, orders and line items are untouched |
| Bills.SpecialIdCreation | src/pages/Bills.jsx:123-171 | a 'specialid' bill first writes a discount row, a special-ID row with rate 0.12 and the order's member, and a Senior or PWD row, all under the new id max + 1; a rejected write stops the operation with the earlier rows left in place and no bill |
| Bills.FreshSpecialIdGetsNoDiscount | src/pages/Bills.jsx:171-207 | a bill generated with a freshly created Special-ID discount is priced without any discount, because the new id is missing from the catalog loaded beforehand |
| Bills.UnknownDiscountBill | src/pages/Bills.jsx:179-187 | a bill opened with a discount id that the catalog does not hold is priced with no discount |
| Bills.UnknownDiscountTotal | src/pages/Bills.jsx:80-88 | the total for an id missing from the catalog is subtotal × (1 + tax + fee) |
| Bills.OpenBillEffect | src/pages/Bills.jsx:174-195 | a rejected bill insert changes nothing; otherwise the bill is appended with id max + 1 and outstanding balance equal to its total, and then the order is linked unless that update is rejected |
| Bills.NewBillOpened | src/pages/Bills.jsx:174-195 | a bill without a Special-ID discount gets id max + 1 (or 1); its outstanding balance equals its total; it carries the form's tax and fee, and a null discount id when no discount was chosen; earlier bills are kept, and every table other than the bills and orders is unchanged |
| Bills.OrdersLinkedOnlyToInsertedBills | src/pages/Bills.jsx:189-195 | a rejected operation leaves bills and orders as they were; orders change only when the bill they are linked to was inserted |
| Bills.GenerateBill | src/pages/Bills.jsx:99-208 | the write sequence on the store yields exactly the tables and outcome of the bill-generation specification |
| Bills.DeleteBillEffect | src/pages/Bills.jsx:210-216 | the bill rows with the id go, and every order that referenced it gets a null bill id with its other fields kept; other orders, line items and all five discount tables are untouched; a rejected delete or unlink leaves its table as it was |
| Bills.DeleteBill | src/pages/Bills.jsx:210-216 | the two writes yield the tables of the delete specification |
| Payments.StartingBalance | src/pages/Payments.jsx:49 | the starting balance is the bill's outstanding balance, or its total while that is null |
| Payments.Clamp | src/pages/Payments.jsx:50-51 | the new balance is max(0, balance − paid): never negative, and at most the old balance when the amount and the balance are non-negative |
| Payments.StatusFor | src/pages/Payments.jsx:52 | the status is 'paid' exactly when the new balance is 0, and 'partial' otherwise |
| Payments.Settle | src/pages/Payments.jsx:45-53 | a missing bill gives a null snapshot and 'partial'; a found bill gives the snapshot max(0, balance − paid), with 'paid' when that is 0 and 'partial' otherwise |
| Payments.IncompleteFormWritesNothing | src/pages/Payments.jsx:35-38 | a form missing a member, bill, option, date or amount is rejected with every table unchanged |
| Payments.RejectedPaymentWritesNothing | src/pages/Payments.jsx:55-68 | a rejected payment insert stops the operation with nothing written |
| Payments.PaymentRecorded | src/pages/Payments.jsx:40-86 | the payment gets id max + 1 and stores the form's member, bill, option, date and amount and the balance snapshot, with 'paid' exactly when the snapshot is 0 and 'partial' otherwise; a missing bill leaves the bills unchanged; the journal entry gets id max + 1, type 'payment', a null order id and the new payment id |
| Payments.BillTakesSnapshot | src/pages/Payments.jsx:69-72 | after an accepted bill update, the bill's balance equals the payment's snapshot and its total is unchanged |
| Payments.FindAfterSetBalance | src/pages/Payments.jsx:71 | the next lookup of the bill sees the new balance, with its other fields unchanged |
| Payments.SubmitPayment | src/pages/Payments.jsx:31-91 | the store writes yield exactly the tables and outcome of the payment specification |
| Payments.AwaitingPayment | src/pages/Payments.jsx:116 | the picker lists exactly the bills whose outstanding balance is non-null and positive |
| Payments.SettledBillLeavesPicker | src/pages/Payments.jsx:116 | a bill whose balance was set to 0 is no longer offered |
| Payments.AmortisationCloses | src/pages/Payments.jsx:49-52 | from a fresh bill, non-negative payments p1..pn leave balance max(0, total − Σp), and the last one is 'paid' exactly when Σp ≥ total |
| Payments.PayAllAmortises | src/pages/Payments.jsx:44-72 | the same over the store, for a fresh bill whose balance is still its total, non-negative payments and non-empty member, option and date fields: after the series of payments the bill is still found, its total is unchanged and its balance is max(0, total − Σp) |
| Discounts.FalsyEditingCreates | src/pages/Discounts.jsx:62 | an editing id of null or 0 takes the create path |
| Discounts.CreateWrites | src/pages/Discounts.jsx:83-121 | the discount row comes first under id max + 1, and every later row reuses that id; an in-house row stores the description and rate; a special-ID row stores rate 0.12 and the member; a Senior or PWD row is written only for subtype 'S' or 'P'; a rejected write is simply missing |
| Discounts.CreatedInHouseListed | src/pages/Discounts.jsx:89-97 | with every write accepted, a created in-house discount appears in the reloaded catalog, after the existing in-house entries, with its description and rate |
| Discounts.CreatedSpecialIdListed | src/pages/Discounts.jsx:98-120 | with every write accepted, a created special-ID discount appears in the reloaded catalog with rate 0.12 and the form's member, and with its subtype and ID number when no stale Senior or PWD row shares the id |
| Discounts.NewDetailShown | src/pages/Discounts.jsx:33-41 | the Senior or PWD row written for a new id is the one the catalog merge picks up |
| Discounts.EditChangesOnlyTarget | src/pages/Discounts.jsx:62-81 | an edit changes only the row with the edited id, in the one table that the type and subtype select, and only the fields the form edits |
| Discounts.DeleteRemovesOnlyDiscountRow | src/pages/Discounts.jsx:154-157 | only discount rows with that id go; the other four tables are untouched, so the merged catalog still lists the deleted discount |
| Discounts.SubmitDiscount | src/pages/Discounts.jsx:57-138 | the store writes yield exactly the tables of the submit specification |
| Discounts.DeleteDiscount | src/pages/Discounts.jsx:154-157 | the single delete yields exactly the tables of the delete specification |
| OrderPanel.AddToCart | src/pages/OrderPanel.jsx:15-24 | a dish already in the cart has its quantity raised by exactly 1 and the rest is kept; a new dish is appended with quantity 1 |
| OrderPanel.AddKeepsInvariant | src/pages/OrderPanel.jsx:15-24 | adding keeps dish ids unique and every quantity at least 1 |
| OrderPanel.AddRaisesTotal | src/pages/OrderPanel.jsx:15-34 | adding raises the cart total by one unit price of that dish |
| OrderPanel.ChangeQuantity | src/pages/OrderPanel.jsx:26-28 | the matching item's quantity becomes max(1, n) and every other item is kept |
| OrderPanel.ChangeKeepsInvariant | src/pages/OrderPanel.jsx:26-28 | changing a quantity keeps dish ids unique and every quantity at least 1, whatever n is |
| OrderPanel.RemoveFromCart | src/pages/OrderPanel.jsx:30-32 | no item with that dish id is left, and every other item is kept in order |
| OrderPanel.RemoveKeepsInvariant | src/pages/OrderPanel.jsx:30-32 | removing keeps dish ids unique and quantities at least 1 |
| OrderPanel.CartTotalAppend | src/pages/OrderPanel.jsx:34 | the total of two carts placed end to end is the sum of their totals |
| OrderPanel.PlaceValidation | src/pages/OrderPanel.jsx:39-57 | an empty member id, an empty cart, a failed member lookup or an unknown member each fail before any write and keep the cart |
| OrderPanel.CartClearedOnlyOnSuccess | src/pages/OrderPanel.jsx:94-100 | the cart is cleared exactly when the order is placed |
| OrderPanel.PlacedOrderWrites | src/pages/OrderPanel.jsx:59-97 | the new order gets id max + 1 and a null bill id; line items are written in cart order and stop at the first rejected insert; after all of them comes one 'order' journal entry |
| OrderPanel.PlacedOrderItems | src/pages/OrderPanel.jsx:72-78 | when no existing line item already carries the new order id, a placed order has exactly one line item per cart item, with its dish and quantity, in cart order |
| OrderPanel.PlaceOrder | src/pages/OrderPanel.jsx:36-101 | the loop of inserts yields exactly the tables, outcome and cart of the order-placing specification |
| OrderPanel.InsertCartItems | src/pages/OrderPanel.jsx:72-78 | one line item per cart entry, in cart order, under the new order, stopping at the first rejected insert, whose index is returned |
| Orders.ChangeDish | src/pages/Orders.jsx:32-41 | an existing dish's entries take the new quantity and the others are kept; an absent dish is appended |
| Orders.ChangeDishKeepsOnePerDish | src/pages/Orders.jsx:32-41 | the list keeps at most one entry per dish id |
| Orders.Written | src/pages/Orders.jsx:55-59 | every inserted line item is under the order being written and has a positive quantity; there are at most as many as entries |
| Orders.WrittenWithoutFailures | src/pages/Orders.jsx:55-59 | with every insert accepted, exactly the positive entries are written, in order |
| Orders.EditLeavesExactlyPositiveEntries | src/pages/Orders.jsx:47-59 | after an edit of an order with a non-zero id and with every write accepted, the order's line items are exactly one per positive-quantity entry, with its dish and quantity, in entry order; the old items are gone |
| Orders.InsertedItemsArePositive | src/pages/Orders.jsx:46-59 | only positive quantities are inserted, whichever writes fail; after a failed create they carry a null order id |
| Orders.SubmitOrder | src/pages/Orders.jsx:44-64 | the writes yield the tables of the submit specification, and the form and dish list are reset |
| Orders.InsertEntries | src/pages/Orders.jsx:55-59 | the loop appends exactly the line items of the positive entries whose inserts are accepted, in entry order |
| Orders.DeleteOrderEffect | src/pages/Orders.jsx:74-87 | if deleting the line items fails, nothing changes; otherwise none of the order's items are left, and the order row goes too unless its delete fails |
| Orders.DeleteOrder | src/pages/Orders.jsx:74-87 | the two-step delete yields the tables and error of the delete specification |
| MemberHistory.HistoryFor | src/pages/MemberHistory.jsx:63-66 | the journal shows exactly the selected member's entries, each once, by non-increasing event date |
| MemberHistory.Describe | src/pages/MemberHistory.jsx:68-77 | an order entry shows its order's date, or only the order id when the order is not loaded; a payment entry shows the amount and option, or only the payment id; any other type is an unknown event |
| MemberHistory.PlacedOrderEntryDescribed | src/pages/OrderPanel.jsx:85-92 | the journal entry written for a placed order is described by that order and today's date |
| MemberHistory.RecordedPaymentEntryDescribed | src/pages/Payments.jsx:79-86 | the journal entry written for a payment is described by that payment's amount and option |
| MemberHistory.AnalyticsOnlyForSelectedMember | src/pages/MemberHistory.jsx:81 | there are no analytics exactly when no member is selected |
| MemberHistory.MemberBillsExactly | src/pages/MemberHistory.jsx:83-87 | the member's bills are exactly the bills whose id is the bill id of one of the member's orders |
| MemberHistory.MemberOrders | src/pages/MemberHistory.jsx:83 | an order is kept exactly when it belongs to the member |
| MemberHistory.MemberPayments | src/pages/MemberHistory.jsx:88 | a payment is kept exactly when it belongs to the member |
| MemberHistory.Tally | src/pages/MemberHistory.jsx:97 | the tallied name's count grows by the quantity, and every other name keeps its count |
| MemberHistory.TallyNames | src/pages/MemberHistory.jsx:97 | the names after a tally are the names before plus the tallied one |
| MemberHistory.TallyKeepsUnique | src/pages/MemberHistory.jsx:97 | a tally keeps each name once |
| MemberHistory.DishFrequency | src/pages/MemberHistory.jsx:91-100 | the nested loops compute the tally over the member's line items, order by order |
| MemberHistory.TallyItemsAppend | src/pages/MemberHistory.jsx:92-99 | tallying two runs of items is tallying the first and then the second |
| MemberHistory.TallyCountsQuantities | src/pages/MemberHistory.jsx:91-100 | each name's count is the total quantity of the member's line items for dishes with that name; items with an unknown dish are ignored, and each name appears once |
| MemberHistory.MostOrderedIsTopFive | src/pages/MemberHistory.jsx:101-104 | at most five names (fewer only when fewer exist); counts non-increasing; all drawn from the tally; none left out counts more than one kept |
| MemberHistory.PaymentCountsBounded | src/pages/MemberHistory.jsx:107-109 | full and partial payments together number at most all of the member's payments |
| MemberHistory.OrderTotalsBounds | src/pages/MemberHistory.jsx:112-115 | with no bills the average is 0; otherwise lowest ≤ average ≤ highest |
| MemberHistory.AnalyticsProperties | src/pages/MemberHistory.jsx:80-127 | for a selected member: full + partial ≤ total payments; lowest ≤ average ≤ highest bill total; at most five most-ordered dishes, each with the total quantity ordered under its name |
| MemberHistory.GetMemberAnalytics | src/pages/MemberHistory.jsx:80-127 | computing the analytics with the tally loops gives the analytics specification |
| Dishes.StatOfValues | src/pages/Dishes.jsx:45-55 | a dish's quantity is the sum over the line items with its id; its sales are quantity × price; its average order value is the price when it sold and 0 otherwise |
| Dishes.ItemsForDish | src/pages/Dishes.jsx:46 | an item is kept exactly when it names the dish |
| Dishes.SumQuantities | src/pages/Dishes.jsx:47 | the loop sums the quantities of the items |
| Dishes.PutGet | src/pages/Dishes.jsx:50-55 | after storing under a key, that key gives the new statistics and every other key keeps its own |
| Dishes.PutKeys | src/pages/Dishes.jsx:50-55 | storing adds exactly that key and keeps the keys ascending, which is the order in which integer keys enumerate |
| Dishes.CalculateStats | src/pages/Dishes.jsx:43-56 | the loop fills the statistics object exactly as the specification does, one dish at a time in menu order |
| Dishes.StatsOfDishes | src/pages/Dishes.jsx:43-56 | the object's keys are exactly the menu's dish ids, ascending; with unique ids, each dish's entry is that dish's statistics |
| Dishes.MostOrderedRanking | src/pages/Dishes.jsx:59-62 | at most ten dishes, all with quantity > 0, by non-increasing quantity; none left out sold more than one kept |
| Dishes.HighestRevenueRanking | src/pages/Dishes.jsx:65-68 | at most ten dishes, all with sales > 0, by non-increasing sales; none left out earned more than one kept |
| Dishes.TotalsOverMenu | src/pages/Dishes.jsx:71-72 | total dishes sold and total revenue are the sums over the menu of each dish's quantity and sales |
| Dishes.PutNewKeyTotals | src/pages/Dishes.jsx:71-72 | storing a new key adds its quantity and sales to both totals, wherever it falls in the key order |
| Dishes.AveragePriceBounds | src/pages/Dishes.jsx:73 | the average price is 0 for an empty menu and otherwise lies between the cheapest and dearest dish |
| Dishes.CalculateAnalytics | src/pages/Dishes.jsx:41-83 | the computation with the statistics loop gives the analytics specification |
| Dishes.CreatedDishIsFresh | src/pages/Dishes.jsx:92-96 | a created dish is appended under an id no dish had (1 on an empty menu); nothing else changes |
| Dishes.EditChangesOnlyTarget | src/pages/Dishes.jsx:89-91 | an edit changes name and price only on rows with the edited id; ids and all other tables are unchanged |
| Dishes.SubmitDish | src/pages/Dishes.jsx:87-100 | the single write yields the tables of the submit specification |
| Dishes.DeleteEffect | src/pages/Dishes.jsx:107-115 | a rejected delete reports the failure and changes nothing; otherwise exactly the rows with that id are gone |
| Dishes.DeleteDish | src/pages/Dishes.jsx:107-115 | the write yields the tables and result of the delete specification |
| Ranking.SortDesc | src/pages/MemberHistory.jsx:102 | the sorted list is a permutation of its input, ordered by non-increasing key |
| Ranking.TopN | src/pages/Dishes.jsx:62 | the first n of a descending list are descending, drawn from the list, and rank at least as high as every element left out |
| Ranking.MeanBetweenMinAndMax | src/pages/MemberHistory.jsx:113-115 | the mean of a non-empty list lies between its minimum and maximum |
| Ranking.Max | src/pages/MemberHistory.jsx:114 | the maximum bounds every element from above and is one of them |
| Ranking.Min | src/pages/MemberHistory.jsx:115 | the minimum bounds every element from below and is one of them |
| Store.ItemsOfNewOrder | src/pages/OrderPanel.jsx:72-78 | when no earlier line item carries the new order's id, that order's line items are exactly the ones appended for it |
| Store.ItemsOfWithout | src/pages/Orders.jsx:49 | no line item of an order survives deleting that order's items |

## Left out

- Members.jsx, App.jsx and RestaurantDashboard.jsx are not part of this model. Members is single-table CRUD with a random id generator; the other two are routing and links.
- Rendering, React state and effect wiring, tab switching, and `toFixed` / `toLocaleDateString` formatting are not modelled.
- The `handleEdit` form pre-fill and the form resets on Payments, Discounts and Dishes are not modelled. Payments' `handleEdit` has no update path: submit always inserts a new payment.
- Form inputs are taken as already parsed. `parseFloat` / `parseInt` / `Number` producing NaN, and IEEE-754 rounding, are not modelled. Quantities are integers and money is exact.
- The clock is not modelled: `now` and `today` are parameters. The order id the store generates on the Orders create path is the parameter `generatedId`.
- Reads are assumed to succeed, except OrderPanel's member lookup, whose error the page checks. An exception thrown by the client (the Discounts try/catch) is not modelled.
- Concurrency is not modelled. That includes racing "max + 1" allocations and lost-update payments. Every operation is one sequential run.
- Foreign-key cascades and constraints of the database are not modelled. A delete removes one table's rows and leaves rows that point at them, as the page sees it.
- The Discounts form's discount type is restricted to 'I' and 'S'.
- `Object.values` of the dish statistics enumerates keys ascending, which holds for non-negative integer ids. `Object.entries` of the dish tally is in insertion order, which assumes no dish name looks like an integer.
- The database's order among journal entries with equal dates is not fixed. The model keeps table order.
- MemberHistory.HistoryFor: among entries with the same event date, the order is table order, where the store promises none.
- Dishes.StatsOfDishes: the per-dish lookup is stated only for menus with unique dish ids. With duplicate ids, the later dish overwrites the earlier one.
- Dishes.TotalsOverMenu: requires unique dish ids, for the same reason.
- Bills.FreshSpecialIdGetsNoDiscount: requires every loaded catalog entry to be backed by a discount row, which is what makes the new id absent from the snapshot.
- Payments.AmortisationCloses: stated for non-negative payments only. A negative amount, which the page accepts, can raise the balance.
- Discounts.CreatedSpecialIdListed: the subtype and ID number are stated only when no leftover Senior or PWD row already carries the new id.
- MemberHistory.RecordedPaymentEntryDescribed: stated only when the journal insert is accepted. The payment page ignores that insert's error.
