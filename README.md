# Room-service ordering: a Dafny model

A hotel guest opens the menu page for their room. They fill a cart from the
menu, grouped by course, and place the order. While the order is still
pending they can change it. A timer polls the order's status and locks the
form once the kitchen starts on it. Staff see every order on a dashboard.
There they filter by room level or by completion, and they move each order
through `pending`, `in-progress`, `completed` and `canceled`.

This project models four parts of that system:

- **The order API** (`order_service.dfy`, module `OrderService`). This is
  the order route's PATCH, POST and GET over an in-memory store.
  - The store is a class `OrderStore`. It holds a catalog of unit prices in
    cents, the orders by id and the next free id.
  - Every stored order has an id below the next id. Its total is the sum of
    its lines priced from the catalog (`Valid`).
  - Every handler keeps that invariant. Every error answer leaves the orders
    untouched.
- **The legacy handler** (`legacy_order.dfy`, module `LegacyOrder`). This is
  the older dishes handler: 405 for any method but POST, and all-or-nothing
  creation with 500 on any failure.
- **The guest's order form** (`cart.dfy`, `categories.dfy`,
  `order_form.dfy`).
  - The cart transforms and totals are pure functions, with lemmas about
    them (module `Cart`).
  - The grouping of the menu by course is a loop, proved against a reference
    definition (module `Categories`).
  - The session is a class `Session`. Its fields are the cart, the running
    total, the held order id, the editing flag and the last confirmed cart
    (module `OrderForm`).
- **The staff dashboard** (`orders_list.dfy`, module `OrdersList`). The view
  filter is a pure function. The status-update bookkeeping is a class
  `Dashboard`.

`scenarios.dfy` holds worked examples at the seeded menu's prices:
- two salads at 7.99 and a salmon at 18.99 come to 34.97;
- the dashboard views of three rooms on three levels.

Prices are whole cents (`nat`) and quantities are integers. The server's
replies, clocks and request bodies are parameters. `None` stands for a
failed request.

## Model

| member | source | states |
|---|---|---|
| OrderService.LinesTotalAppend | app/api/order/route.tsx:78-88 | the accumulated total of a concatenation of lines is the sum of the parts' totals |
| OrderService.LinesTotalPermutation | app/api/order/route.tsx:78-91 | any rearrangement of the lines (same multiset) has the same total, so the order in which the concurrent lookups complete and add to the total does not matter |
| OrderService.OrderStore.Resolve | app/api/order/route.tsx:78-91 | every item is looked up; the result exists exactly when every item id is in the catalog, and is then the sum of price times quantity |
| OrderService.OrderStore.Insert | app/api/order/route.tsx:204-223 | a new pending order with the given lines, total and creation time is stored under an id that was not in use; the store invariant is kept |
| OrderService.OrderStore.UpdateStatus | app/api/order/route.tsx:47-71 | a status outside the four allowed ones gives 400 and an unknown id 500, both without change; otherwise only that order's status changes and it is returned |
| OrderService.OrderStore.ReplaceItems | app/api/order/route.tsx:75-123 | an unknown item or order id gives 500 and changes nothing; otherwise that order's lines are replaced and its total is recomputed from the catalog, every other order unchanged |
| OrderService.OrderStore.Patch | app/api/order/route.tsx:33-138 | missing id gives 400; a status field takes precedence over items; an items field that is not a list gives 500; a body with neither gives 400; every error leaves the orders as they were |
| OrderService.OrderStore.StatusOf | app/api/order/route.tsx:146-175 | missing id gives 400, unknown id 404; otherwise the order's status and its creation time reported as `updatedAt`, nothing changed |
| OrderService.OrderStore.Create | app/api/order/route.tsx:177-236 | missing or empty room or non-list items gives 400; an unknown item gives 500 with nothing stored; otherwise exactly one new pending order with the catalog total is stored under a fresh id, which is returned |
| OrderService.OrderStore.Post | app/api/order/route.tsx:141-237 | the status-check action answers like the status lookup and changes nothing; any other body is an order creation with its full contract |
| OrderService.OrderStore.Get | app/api/order/route.tsx:240-277 | the same answers as the status lookup by query id |
| LegacyOrder.Handler | app/api/dishes/order.tsx:10-54 | non-POST gives 405; items that are not a list or contain an unknown id give 500 with nothing stored; otherwise the whole new pending order with its catalog total is returned and stored under a fresh id |
| Cart.Find | app/components/orderForm.tsx:110 | the lookup finds a line exactly when some line has that item id; what it finds is the first line of the cart with that id |
| Cart.Bump | app/components/orderForm.tsx:113-117 | same length and items; only lines with the given id change quantity, by the given amount |
| Cart.Without | app/components/orderForm.tsx:137 | its lines are exactly the cart's lines whose id differs, never more lines than before |
| Cart.WithoutIsFilter | app/components/orderForm.tsx:137 | the filtered cart is a subsequence of the cart (order kept) and is shorter by exactly the number of lines with that id, so every other line is kept with its multiplicity |
| Cart.CartTotal | app/components/orderForm.tsx:226 | definition: the sum of price times quantity over the lines; its properties are stated by Cart.AddKeepsRunningTotal, Cart.RemoveKeepsRunningTotal and Cart.CartTotalNonNegative |
| Cart.AddItem | app/components/orderForm.tsx:109-121 | definition of the add transform; its effect is stated by Cart.AddItemEffect |
| Cart.RemoveItem | app/components/orderForm.tsx:126-140 | definition of the remove transform; its effect is stated by Cart.RemoveItemEffect |
| Cart.AddItemEffect | app/components/orderForm.tsx:109-121 | after adding, the item is in the cart; a present item's quantity goes up by one with all else equal; an absent item is appended with quantity one |
| Cart.RemoveItemEffect | app/components/orderForm.tsx:126-140 | a line with quantity above one is decremented with all else equal; otherwise no line with that id remains; an absent id leaves the cart unchanged |
| Cart.RemoveFromTotal | app/components/orderForm.tsx:141 | the running total after a removal is never negative, is the old total minus the price or zero, and is at least the old total minus the price |
| Cart.AddPreservesWellFormed | app/components/orderForm.tsx:109-124 | adding keeps item ids unique and quantities positive |
| Cart.RemovePreservesWellFormed | app/components/orderForm.tsx:126-142 | removing keeps item ids unique and quantities positive |
| Cart.AddThenRemoveRestores | app/components/orderForm.tsx:109-142 | adding an item and then removing it gives back the same cart and the same running total |
| Cart.AddKeepsRunningTotal | app/components/orderForm.tsx:109-124 | the incremental total after an add equals the cart total recomputed from scratch |
| Cart.RemoveKeepsRunningTotal | app/components/orderForm.tsx:126-142 | removing an item that is in the cart takes exactly its price off the recomputed total, which is at least that price, so the clamp at zero never applies |
| Cart.WithoutRemovesId | app/components/orderForm.tsx:137 | after filtering an id out, no line with that id remains |
| Cart.BumpInverse | app/components/orderForm.tsx:113-117 | raising then lowering one id's quantity by the same amount restores the cart |
| Cart.CartTotalNonNegative | app/components/orderForm.tsx:226 | a cart of positive quantities has a non-negative total |
| Categories.InCourse | app/components/orderForm.tsx:98-107 | a course's group is a subsequence of the menu holding exactly the items of that course |
| Categories.Categorize | app/components/orderForm.tsx:98-107 | the grouping loop creates one group per course, in order of first appearance, and each group is exactly that course's items in menu order |
| Categories.CoursesAreCourses | app/components/orderForm.tsx:100 | a group exists exactly for the courses some item has, with "General" for a missing or empty course |
| Categories.CoursesOccurOnce | app/components/orderForm.tsx:101-103 | each course's group is created once |
| Categories.GroupSizesSumToItems | app/components/orderForm.tsx:98-107 | the group sizes add up to the number of menu items, so every item lands in exactly one group |
| Categories.ItemInItsGroup | app/components/orderForm.tsx:100-104 | every item is in the group of its own course |
| OrderForm.RequestLines | app/components/orderForm.tsx:152-155 | one request line per cart line, in cart order, carrying that line's item id and quantity |
| OrderForm.ServerTotalMatchesCart | app/components/orderForm.tsx:150-156 | when the cart's prices agree with the catalog, every line sent resolves on the server and the server's total equals the cart's total |
| OrderForm.Locks | app/components/orderForm.tsx:68-70 | definition: after lower-casing, `in-progress`, `completed`, `cancelled` (double l) or `delivered` lock the form; what this means for the store's statuses is stated by OrderForm.StoreStatusesThatLock and OrderForm.CanceledNeverLocks |
| OrderForm.CanceledNeverLocks | app/components/orderForm.tsx:68-70 | a canceled order, in any letter case, never locks the form |
| OrderForm.StoreStatusesThatLock | app/components/orderForm.tsx:68-70 | of the four statuses the store allows, the poll locks on exactly `in-progress` and `completed` |
| OrderForm.Session.constructor | app/components/orderForm.tsx:23-28 | a fresh form has an empty cart, zero total, no order and no editing |
| OrderForm.Session.EditEnabled | app/components/orderForm.tsx:263-267 | definition: the add and remove buttons are enabled unless an order is held and not being edited; the handlers' contracts state how each changes it |
| OrderForm.Session.HandleAddItem | app/components/orderForm.tsx:109-124 | the cart becomes the add transform of the old one and the total grows by the price; a total that matched the cart still matches |
| OrderForm.Session.HandleRemoveItem | app/components/orderForm.tsx:126-142 | the cart becomes the remove transform, the total is clamped at zero, and a total that matched a cart holding the item still matches |
| OrderForm.Session.HandlePlaceOrder | app/components/orderForm.tsx:144-186 | an empty cart sends nothing; otherwise the cart's lines are sent, and only on a reply with an id are the order id, the confirmed cart and editing set |
| OrderForm.Session.HandleEditOrder | app/components/orderForm.tsx:188-222 | no held order or an empty cart sends nothing; otherwise the lines are sent, and on success the confirmed cart and the server's total are taken over |
| OrderForm.Session.HandleCancelEdit | app/components/orderForm.tsx:224-229 | the cart returns to the confirmed one, the total is recomputed from it, editing ends and, with an order held, the buttons are disabled |
| OrderForm.Session.PollOrderStatus | app/components/orderForm.tsx:44-79 | without an order, a reply, or a locking status nothing changes; a locking status forgets the order, ends editing, empties both carts and re-enables the buttons |
| OrdersList.Visible | app/components/OrdersList.tsx:94-101 | definition of the row filter: completed-only shows completed rows; otherwise non-completed rows, of the chosen level unless it is "all" |
| OrdersList.Filtered | app/components/OrdersList.tsx:94-101 | the view is a subsequence of the list containing exactly the rows the filter accepts |
| OrdersList.CompletedOnlyIgnoresLevel | app/components/OrdersList.tsx:95-96 | with "completed only" the level selection does not affect the view |
| OrdersList.CompletedAndDefaultPartition | app/components/OrdersList.tsx:94-101 | the completed view and the default view together hold every row exactly once |
| OrdersList.LevelWithinDefault | app/components/OrdersList.tsx:97-100 | a level view is a subsequence of the default view |
| OrdersList.CanceledStillListed | app/components/OrdersList.tsx:94-101 | a canceled order stays in the default and its level's view and is never in the completed view |
| OrdersList.ReplaceById | app/components/OrdersList.tsx:69-73 | same length; exactly the rows with the updated id become the returned order |
| OrdersList.ReplaceByIdKeepsIds | app/components/OrdersList.tsx:69-73 | when the returned order has the same id, the list's ids are unchanged |
| OrdersList.ReplaceAbsentId | app/components/OrdersList.tsx:69-73 | an id not in the list leaves the list unchanged |
| OrdersList.CompletedUpdateMovesRow | app/components/OrdersList.tsx:69-101 | an order updated to completed leaves every non-completed view and appears in the completed view |
| OrdersList.HasSelection | app/components/OrdersList.tsx:48-49 | definition: a row has a pending selection when one is recorded and it is not the empty string |
| OrdersList.Dashboard.constructor | app/components/OrdersList.tsx:36-41 | the dashboard starts on the given orders with level "all", completed-only off and no selections, busy flags or error |
| OrdersList.Dashboard.SetFilterLevel | app/components/OrdersList.tsx:119 | the chosen level becomes the filter level |
| OrdersList.Dashboard.ToggleCompletedOnly | app/components/OrdersList.tsx:134 | the completed-only switch flips |
| OrdersList.Dashboard.UpdateEnabled | app/components/OrdersList.tsx:200 | definition: a row's update button is enabled when it has a pending selection and no request in flight; OrdersList.Dashboard.UpdateOrderStatus states how an update changes it |
| OrdersList.Dashboard.HandleStatusChange | app/components/OrdersList.tsx:43-45 | the chosen status becomes that row's pending selection, other selections unchanged |
| OrdersList.Dashboard.UpdateOrderStatus | app/components/OrdersList.tsx:47-91 | no selection means no request and no change, and the button stays disabled; otherwise the selection is sent, the busy flag is removed afterwards, and on success the row is replaced and its selection cleared, on failure the error is set; afterwards the button is enabled exactly when the request failed |
| Scenarios.FillCart | app/components/orderForm.tsx:109-186 | two salads and a salmon, minus one salad, leave one of each at 26.98, and placing sends one line per item |
| Scenarios.OrderLifecycle | app/api/order/route.tsx:33-277 | room 101's order of two salads and a salmon is stored at 34.97, completed by PATCH, and reported completed by GET |
| Scenarios.UnknownItemRejected | app/api/order/route.tsx:186-236 | an order naming an item not on the menu is answered with 500 |
| Scenarios.UnknownStatusRejected | app/api/order/route.tsx:47-57 | a status outside the allowed four is answered with 400 |
| Scenarios.DashboardViews | app/components/OrdersList.tsx:94-101 | of rooms 101 (completed), 210 and 305, the default view shows 210 and 305, level 2 shows 210, completed-only shows 101 |
| Scenarios.PollCanceled | app/components/orderForm.tsx:66-79 | a canceled order keeps the form's order held |
| Scenarios.PollCompleted | app/components/orderForm.tsx:66-79 | "Completed" locks the form: the order is forgotten, the cart emptied, the buttons enabled |

## Left out

- Persistence, the ORM and its failures are not modelled. The store is an
  in-memory map. A database error that would answer 500 has no counterpart.
- JSON parsing and request shapes are reduced to datatypes.
  - A field is either absent or present with the expected type, except where
    the handlers themselves distinguish a list from a non-list.
  - An id that is not a number is treated as absent.
  - A non-string room number and a non-string status are not modelled.
- OrderService.OrderStore.ReplaceItems: the item deletion and the order
  update are separate database calls, so in the route handler a failure between
  them leaves an order with no lines. The model treats the update as one
  step.
- The concurrent lookups (`Promise.all`) are modelled as a sequential loop
  in line order. Each lookup adds its own product, so a different completion
  order adds the same products in another order, and any rearrangement of
  the lines has the same total (`LinesTotalPermutation`).
- The status poll's 10-second timer, the fetch calls and the user-facing
  status messages are not modelled. A reply is a parameter of the handler
  that receives it.
- Floating-point prices and `toFixed` display are not modelled; prices are
  integer cents.
- `toLowerCase` is modelled for ASCII letters only.
- Categories.Categorize: the groups are kept in order of first appearance,
  but the page lists the keys of a plain object, which puts integer-like
  course names ("1", "2") first in ascending order. Courses "main", "2", "1"
  display as "1", "2", "main"; the model does not capture this display
  order. A course named after an inherited property of a plain object
  ("constructor", "toString", "__proto__") finds a truthy value that is not
  an array, and the push throws; the model creates a group for it instead.
- OrderForm.Session.PollOrderStatus: the intermediate `orderStatus` message
  text is not kept.
- OrdersList.Dashboard.UpdateOrderStatus: the busy flag is visible only
  during the request. The model states the final state, not the
  intermediate render.
  - The error text is modelled as the one the handler sets for a non-OK
    answer. A network failure's own message is not distinguished.
- The held order id is an integer here. The form keeps it as a string, and
  any id the store hands out is non-zero.
- The menu route, the dishes listing route, the pages, the navigation bar
  and the seed script are not part of this model. The seed script's prices
  appear only as constants in the scenarios.
