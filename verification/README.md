# Food ordering: a verified model

This project is a Dafny model of a small restaurant ordering system. The system exists in two variants:

- A **database variant.** A PostgreSQL gateway (`PostgreSQLDatabase`) stores categories, menu items, customers, orders and order lines. Two front ends keep a draft order in memory and submit it to the gateway:
  - a console front end (`RestaurantSystem`);
  - a desktop front end (`RestaurantGUI`).
- A **JSON variant.** `Restaurant` and `Order` keep a menu and an order in memory (food_order.py).

The modules follow the program:

| module | models |
|---|---|
| `Models` (models.dfy) | the entity records: line subtotal, the menu item's display line, field defaults, and the keyword check a dataclass applies when called |
| `Schema` (schema.dfy) | the five tables as sequences with their id counters, in `Tables` |
| `Queries` (queries.dfy) | the gateway's reads, as functions of the tables: menu listing and lookup, order lookup, statistics |
| `Gateway` (gateway.dfy) | the gateway's writes, as methods of the class `Database` |
| `FoodOrder` (food_order.dfy) | the JSON variant |
| `Console` (console.dfy) | the console draft order |
| `Gui` (gui.dfy) | the desktop cart, the menu filters and the administrator's status change |

More about `Schema`:

- `Tables.Ok()` is the invariant every write keeps: keys are increasing and unique, references resolve, and each order's total equals the sum of its lines.
- It also holds the column constraints of the DDL, which decide which statement is refused:
  - VARCHAR lengths;
  - the DECIMAL(10, 2) range;
  - the 32-bit INTEGER range;
  - UNIQUE, CHECK and the foreign keys.
- It also holds the seeded menu and the order number.

`Wrappers`, `Text` and `Aggregate` are helpers:

- `Wrappers`: Option and Result.
- `Text`: Python's `strip`, `lower`, `upper`, `in` on strings and `strftime`, plus a code-point string order.
- `Aggregate`: filter, a stable insertion sort, grouping with sums, and the top-N of a grouping.

Money is an `int` number of kopecks, the scale of the DECIMAL(10, 2) columns. Some values come from outside the program and are passed in as parameters:

- the current time;
- the `uuid4` hex string;
- keyboard input;
- widget values, such as the selected row, the typed quantity and the entry texts.

## Model

| member | source | states |
|---|---|---|
| Models.DisplayMark | models.py:29-31 | the character after "{id}. " in the display line is ✓ exactly when the item is available and ✗ exactly when it is not |
| Models.DisplayFrame | models.py:31 | the display line starts with "{id}. " and ends with a newline, three spaces and the description |
| Models.MenuItemDefaults | models.py:17-27 | a menu item built from the five required fields is available, with an empty category name and no calories, cooking time or reason |
| Models.CustomerAndCategoryDefaults | models.py:10-40 | a customer's phone, email and address default to "", and a category's description defaults to "" |
| Models.SumSubtotalsConcat | database.py:299-300 | the sum of line subtotals over two lists joined is the sum over each |
| Models.SumSubtotalsNonNegative | models.py:50-52 | lines with positive quantities and non-negative prices have a non-negative total |
| Models.UnexpectedKeyword | models.py:17-27 | the keyword check finds nothing exactly when every keyword passed is a declared field; otherwise it names a passed keyword that is not declared |
| Schema.CustomerWithPhone | database.py:261-265 | the customer found has that phone; none is found exactly when no stored customer has it |
| Schema.OrderWithNumber | database.py:333-344 | the order found has that number; none is found exactly when no stored order has it |
| Schema.SeedFitsFreshSequence | database.py:121-170 | in an empty database every seeded dish refers to a seeded category, and the seeded categories satisfy the table constraints |
| Schema.SeedFitsExactly | database.py:133-164 | the seeded dishes, which name their categories by number, refer to seeded categories exactly when the category sequence starts at 1 |
| Schema.OrderNumber | database.py:297 | an order number is 19 characters: "ORD-", the date, "-" at position 12, then six uppercase hex digits |
| Schema.OrderNumberRoundTrip | database.py:297 | parsing an order number gives back the creation date and the uppercased first six hex digits of the uuid |
| Schema.OrderNumberCollision | database.py:297 | two orders get the same number exactly when they are made on the same day with the same first six uuid hex digits; the UNIQUE column then refuses the second one |
| Schema.CustomerInsertError | database.py:75-82 | a customer insert is accepted exactly when the name and email fit 200 characters and the phone fits 20; a value too long for its VARCHAR column is refused, never cut to width |
| Schema.OrderInsertError | database.py:87-98 | an order insert is accepted exactly when the values fit their columns, the number is not stored yet and the customer exists; a value too long for its VARCHAR column is refused, never cut to width |
| Schema.LineInsertError | database.py:103-111 | a line insert is accepted exactly when the numbers fit their columns, the quantity is positive and the dish exists |
| Schema.MenuInsertError | database.py:58-70 | a dish insert is accepted exactly when the name fits 200 characters, the numbers fit their columns and the category exists; a value too long for its VARCHAR column is refused, never cut to width |
| Schema.FirstLineErrorNone | database.py:311-316 | the line loop raises nothing exactly when every line's insert is accepted |
| Schema.FirstLineErrorStable | database.py:311-316 | once a prefix of the lines fails, the lines after it do not change the error raised |
| Schema.SumLinesFor | database.py:299-316 | the stored line subtotals of an order add up to the sum of the draft's subtotals |
| Schema.TotalsMatchAppend | database.py:299-318 | storing an order with total Σ subtotals and its lines keeps every stored total equal to the sum of its own lines |
| Queries.GetAllCategories | database.py:172-183 | the categories are listed ordered by name, and they are exactly the stored rows |
| Queries.JoinMenu | database.py:191-197 | every listed dish comes from a stored dish joined with its own category, and every stored dish whose category exists is listed, joined with that category |
| Queries.JoinMenuComplete | database.py:191-197 | when every dish's category exists, the join has exactly one entry per stored dish |
| Queries.SelectMenu | database.py:200-211 | a dish is kept exactly when it is available or availability is not asked for, and it is in the category or no category (None or 0) is given |
| Queries.SelectAll | database.py:200-211 | with no category and availability not required, every dish is kept in order |
| Queries.GetMenuItems | database.py:185-224 | the listing is sorted by category name then dish name, and it is a permutation of the joined and selected dishes (membership both ways) |
| Queries.GetMenuItemById | database.py:226-251 | a dish found has the id asked for and is the stored row joined with its category; none is found exactly when no stored dish with that id joins a category |
| Queries.MenuBindingAsWrittenFails | database.py:217-221 | the keywords the menu reads pass include `unavailability_reason`, which MenuItem does not declare, and `category_name` is bound to the cooking-time column |
| Queries.GetMenuItemsAsWritten | database.py:217-224 | as written, the menu listing is always empty |
| Queries.GetMenuItemByIdAsWritten | database.py:243-251 | as written, the lookup by id always finds nothing |
| Queries.SeededDishHidden | database.py:243-251 | the first seeded dish is found by the corrected lookup and not found by the lookup as written |
| Queries.SeededMenuHidden | database.py:217-224 | the corrected listing of the seeded database has eight entries and lists each seeded dish with its category; the listing as written shows nothing |
| Queries.MenuBindingCorrect | database.py:217-221 | the corrected binding uses only declared fields, binds each field to its own column, and reads every selected column |
| Queries.GetOrderByNumber | database.py:329-383 | an order found carries that number and the details of a stored order with it; none is found when no stored order has the number |
| Queries.LineViewsComplete | database.py:343-355 | the lines of a stored draft read back in id order, one per draft line, with the same dish, quantity, price and subtotal |
| Queries.OrderReadBack | database.py:329-383 | reading a stored order back gives its id, status and total, and lines matching the draft |
| Queries.CountedOrders | database.py:493-512 | an order is counted exactly when it is not cancelled and lies within the given date bounds |
| Queries.GetOrderStatistics | database.py:490-546 | on failure everything is zero; otherwise count, revenue and distinct customers are those of the counted orders; the popular list has at most ten entries, is sorted by quantity descending, has distinct names, names only dishes that sold, gives each name its exact sold quantity, and is as long as it can be |
| Queries.StatisticsPopularHeaviest | database.py:516-528 | a dish that sold but is left out of the ten most popular sold no more units than any dish kept |
| Gateway.Database.constructor | database.py:20-24 | a new gateway holds the seeded categories and menu and no customers, orders or lines |
| Gateway.Database.SeedInitialData | database.py:121-170 | with no categories stored, the seeded categories and dishes are added; otherwise nothing changes; the table invariant holds |
| Gateway.Database.SeedKeeps | database.py:121-170 | seeding an empty category table keeps the table invariant |
| Gateway.Database.FindOrCreateCustomer | database.py:253-288 | a customer with that phone is returned unchanged with nothing inserted; otherwise exactly one row with the given fields is inserted, or the insert error is returned with nothing changed; afterwards the phone leads to the customer returned |
| Gateway.Database.CustomerAppendKeeps | database.py:273-284 | inserting a customer with a new phone keeps the invariant, and the phone then finds that customer |
| Gateway.Database.CreateOrder | database.py:290-327 | the order is refused exactly when one of its statements would fail, and then no row is stored; otherwise one pending order with total Σ subtotals and one line per item, in list order, are stored with the database clock's creation time, and reading the number back gives that order |
| Gateway.Database.StageLines | database.py:311-316 | the line rows are the draft's lines in order, or the first failing line's error |
| Gateway.Database.CommitOrder | database.py:303-318 | the order row and its lines are appended, and reading the number back gives the order with the draft's lines |
| Gateway.Database.OrderCommitKeeps | database.py:290-327 | appending an accepted order and its lines keeps the invariant |
| Gateway.Database.UpdateOrderStatus | database.py:425-444 | an unknown status changes nothing; a known one changes that order's status and nothing else; the result is true exactly when the status is known and the order exists |
| Gateway.Database.StatusUpdateKeeps | database.py:435-438 | setting an allowed status keeps the invariant |
| Gateway.Database.AddMenuItem | database.py:446-463 | the dish is added, available and without a reason, exactly when its insert is accepted; otherwise nothing changes; an added dish reads back by its id |
| Gateway.Database.MenuAppendKeeps | database.py:451-455 | appending an accepted dish keeps the invariant |
| Gateway.Database.UpdateMenuItemAvailability | database.py:465-488 | only that dish changes; made available, its reason is cleared whatever reason was passed; made unavailable, it stores exactly the reason given; the result is whether the dish exists |
| Gateway.Database.AvailabilityUpdateKeeps | database.py:470-484 | changing availability keeps the invariant, and the dish reads back with the new availability and reason |
| FoodOrder.FoodItem.constructor | food_order.py:10-15 | a dish holds the id, name, description, price and category it was made with |
| FoodOrder.RemoveFirstSpec | food_order.py:39-44 | removing the first reference takes exactly one copy out of the list and lowers the price sum by that dish's price |
| FoodOrder.OrderIdFor | food_order.py:30-32 | an order id is 19 characters starting "ORD_" |
| FoodOrder.OrderIdRoundTrip | food_order.py:30-32 | the order id parses back to its creation time |
| FoodOrder.Order.constructor | food_order.py:24-28 | a new order has no items, total 0 and the id of its creation time |
| FoodOrder.Order.AddItem | food_order.py:34-37 | `quantity` copies of the dish are appended, none when quantity ≤ 0, and the total rises by copies × price; the total stays the sum of the item prices |
| FoodOrder.Order.RemoveItem | food_order.py:39-44 | true exactly when the dish is in the order; then its first occurrence is removed and the total lowered by its price; otherwise nothing changes; the total stays the sum of the item prices |
| FoodOrder.Order.GroupLines | food_order.py:51-57 | the groups are the names of the items with their counts, in order of first appearance, each with the first item of that name |
| FoodOrder.GroupTotals | food_order.py:51-62 | the group names are distinct, each count is that name's number of occurrences, and the counts add up to the number of items |
| FoodOrder.CountsExact | food_order.py:51-57 | counting names gives distinct names, each with its number of occurrences, the names present and only those, and counts that sum to the list length |
| FoodOrder.FlatSpec | food_order.py:130-140 | the flattened menu has one entry per listed dish, each under the category it was listed in |
| FoodOrder.FlattenMenu | food_order.py:130-142 | the menu built holds, in file order, one dish per listed entry with its id, name, description, price and category |
| FoodOrder.Restaurant.constructor | food_order.py:94-100 | a new restaurant has its name, no current order, and the flattened menu |
| FoodOrder.IndexOfId | food_order.py:193-198 | the position found is the first whose dish has that id, or the end of the menu |
| FoodOrder.Restaurant.FindItemById | food_order.py:193-198 | the first dish with that id is returned; none exactly when no dish has it |
| FoodOrder.Restaurant.StartNewOrder | food_order.py:200-205 | a fresh, empty order with total 0 becomes the current order and the menu is unchanged |
| FoodOrder.Restaurant.ShowStatistics | food_order.py:207-247 | the count is the number of orders, the revenue is the sum of their totals, and the popular list is the top five of the per-name unit counts |
| FoodOrder.PopularExact | food_order.py:241-247 | the popular list has at most five names, is sorted by count descending, has no name twice, and each count is that name's number of occurrences across all orders |
| FoodOrder.PopularHeaviest | food_order.py:241-247 | a sold name left out of the popular list sold no more units than any name in it |
| Console.DraftAccepted | restaurant_system.py:44-63 | lines that passed the draft checks satisfy the line table's CHECK and foreign key, so only numbers too large for a column can refuse them |
| Console.RestaurantSystem.constructor | restaurant_system.py:15-17 | a new console has an empty draft and a seeded gateway |
| Console.RestaurantSystem.AddToOrder | restaurant_system.py:36-68 | a non-positive quantity, a missing dish and an unavailable dish are reported in that order and change nothing; otherwise one line with the dish's current price and name is appended |
| Console.RestaurantSystem.CurrentOrderTotal | restaurant_system.py:80-87 | the total shown is the sum of the draft's subtotals |
| Console.RestaurantSystem.ProcessOrder | restaurant_system.py:90-141 | an empty draft or a blank name or phone changes nothing; past those guards the stripped entries are submitted and the order is refused exactly when the submit error of those entries exists; a stored order is a pending cash order of the found or created customer, empties the draft and reads back with the draft's total and lines; a refused order keeps the draft and stores no order; checkout leaves categories and dishes unchanged, leaves the customers as the find-or-create step makes them, and on success appends exactly the draft's lines |
| Console.RestaurantSystem.Submit | restaurant_system.py:114-141 | the checkout fails exactly when creating the customer or the cash order would fail, with that error; a placed order is stored as one pending cash order of the found or created customer, whose phone then leads to it; the draft is emptied only when the order is stored; categories and dishes are unchanged, a first-time customer whose contact fits is appended (and stays stored when the order is refused), and a placed order's lines are exactly the draft's |
| Console.SubmitAccepted | restaurant_system.py:114-124 | a draft that passed the checks of `add_to_order`, with numbers that fit their columns, a new order number and, for a first-time customer, contact fields that fit, is never refused |
| Console.RestaurantSystem.AdminUpdateAvailability | restaurant_system.py:282-306 | a missing dish changes nothing; otherwise the answer sets the availability and no reason is stored |
| Gui.MenuView | restaurant_gui.py:469-490 | a dish is shown exactly when it is on the menu, in the chosen category (or "Все"), and its lowered name or description contains the lowered search term, if one is given |
| Gui.MenuViewUnfiltered | restaurant_gui.py:475-476 | with "Все" and no search term, the whole menu is shown in order |
| Gui.SearchFindsName | restaurant_gui.py:482-485 | a dish of the chosen category whose lowered name contains the lowered term is shown |
| Gui.ReasonText | restaurant_gui.py:641-647 | the reason shown is never empty, and it is the stored reason whenever that is non-empty |
| Gui.RemoveRowKeepsCart | restaurant_gui.py:693-723 | removing the selected row together with the line at the same position keeps the rows matching the lines and the total equal to their sum |
| Gui.FirstMatch | restaurant_gui.py:712-715 | the position found is the first line with that name and quantity, or the end of the list |
| Gui.RemoveFirstMatchLosesTotal | restaurant_gui.py:703-715 | two same-named dishes at 100 and 150 kopecks: removing the second row leaves a shown total of 100 while the line left costs 150 |
| Gui.KeyOfLabel | restaurant_gui.py:1136-1141 | no key is found exactly when no entry has that label; a key found is paired with that label |
| Gui.KeyOfOwnLabel | restaurant_gui.py:1138-1141 | the label of an entry whose label no earlier entry shares leads back to that entry's key |
| Gui.StatusRoundTrip | restaurant_gui.py:36-43 | the six status labels lead back to their own statuses, which are the six statuses the gateway accepts, in the same order |
| Gui.RestaurantGui.constructor | restaurant_gui.py:26-64 | a new window has an empty cart, total 0, empty entries and the checkout button disabled, and both menus hold the gateway's unfiltered listing, loaded at the end |
| Gui.RestaurantGui.LoadMenuData | restaurant_gui.py:416-421 | both menus hold every dish, available or not, as the gateway lists them; the cart is unchanged |
| Gui.RestaurantGui.FilterMenuByCategory | restaurant_gui.py:469-490 | the shown menu becomes the filtered view of the full menu, and nothing else changes |
| Gui.RestaurantGui.SearchMenu | restaurant_gui.py:492-512 | the shown menu becomes the filtered view of the full menu, and nothing else changes |
| Gui.FirstWithId | restaurant_gui.py:630-635 | the dish found is the first one in the list with that id; none is found exactly when no dish has it |
| Gui.RestaurantGui.FindCached | restaurant_gui.py:630-635 | the loop returns the first shown dish with that id, as Gui.FirstWithId does; none exactly when no shown dish has it |
| Gui.RestaurantGui.ValidateCheckoutButton | restaurant_gui.py:745-754 | the button is enabled exactly when the cart is not empty and the stripped name and phone are not blank |
| Gui.RestaurantGui.EditContact | restaurant_gui.py:410-414 | typing into the name or phone entry re-evaluates the checkout button |
| Gui.RestaurantGui.AddToCart | restaurant_gui.py:612-690 | each outcome happens exactly in its case: no selection, no shown dish with the id, the first such dish unavailable (with its reason), a non-positive quantity; all of these change nothing; otherwise (and only then) one line and one row for that dish are appended, the total rises by price × quantity, and the button is re-evaluated |
| Gui.RestaurantGui.AppendLine | restaurant_gui.py:663-685 | the row and the line are appended together, the total grows by the line's subtotal, and the cart still matches its rows and total |
| Gui.RestaurantGui.RemoveFromCart | restaurant_gui.py:693-723 | the selected row and the line at the same position are removed and the total is lowered by that row's subtotal; the rows still match the lines and the total is still their sum |
| Gui.RestaurantGui.RemoveFromCartAsWritten | restaurant_gui.py:693-723 | the selected row is removed and its subtotal subtracted, but the line deleted is the first with the same name and quantity |
| Gui.RestaurantGui.ClearCart | restaurant_gui.py:725-743 | a confirmed clear of a non-empty cart empties lines, rows and total and disables checkout; otherwise nothing changes |
| Gui.RestaurantGui.ClearCartAfterOrder | restaurant_gui.py:838-850 | after an order the lines, rows and total are emptied and checkout is disabled |
| Gui.RestaurantGui.StatusKeyFor | restaurant_gui.py:1136-1141 | the reverse lookup returns the first status whose label is the one chosen |
| Gui.RestaurantGui.AdminUpdateOrderStatus | restaurant_gui.py:1130-1150 | "no order selected" is reported exactly when no order (or id 0) is selected, and an unknown label exactly when an order is selected but the label is unknown; both change nothing; otherwise the order gets the status of that label, and success means the order exists |

## Left out

- `get_all_orders`, `_connect`, `_reconnect` and `close` are not part of this model. They only read or manage the connection.
- A failed statement of any kind other than a constraint violation is not modelled, for example a lost connection or a timeout. Statistics are the exception: they take a `storageFailed` parameter.
- The id sequences are not modelled as PostgreSQL sequences. A refused insert consumes no id in the model, whereas PostgreSQL leaves a gap.
- Prices are exact kopecks, not Python floats. `PriceText` prints an amount the way `str(float)` does for two-decimal values.
- Queries.GetMenuItems and Queries.GetAllCategories sort by code point (the "C" collation), not the database's locale collation. Rows with equal sort keys keep table order, whereas SQL leaves their order unspecified.
- Queries.GetOrderStatistics does not compute the average order value, which is a float. Its date bounds are timestamps, not the strings the SQL compares. Ties in the popular list keep first-sold order, whereas SQL leaves them unspecified.
- Queries.GetOrderByNumber: its contract ties the order fields and lines to the stored row but does not state the customer name, phone and email taken from the joined customer row.
- `Text.Lower` folds ASCII, Latin-1 and Cyrillic letters only. It applies no other Unicode case mapping.
- Nothing about JSON files is modelled. The model leaves out loading and saving menu.json and order files, `_get_default_menu`'s data, the `orders` directory and the JSON-variant `process_order` loop. FoodOrder.Restaurant.ShowStatistics takes the orders already parsed. FoodOrder.Restaurant.constructor takes the menu data already parsed.
- Printing, menus, prompts and `display`/`display_menu` layout are not modelled, beyond the two properties of `MenuItem.display` above.
- Parsing of typed numbers with `int()` and its ValueError path is not modelled. Ids and quantities arrive as integers.
- The `main`/`run` loops, the console's `find_order`, `show_statistics` and `admin_panel` menus, and the `admin123` password gate are not modelled.
- Tk is not modelled: widgets, message boxes, the order thread of the GUI `process_order`, `order_success`, the add-dish and availability dialogs, and `update_status`.
- Gui.RestaurantGui.AddToCart models a selected menu row by the id shown in it. It does not model a row whose values cannot be read.
- Gui.RestaurantGui.AdminUpdateOrderStatus models the selected order id as an option. It treats 0 as not selected, as Python's truthiness does.
- Gui.RestaurantGui.RemoveFromCart requires the selected row to exist. A tree selection always names an existing row.
- Console.RestaurantSystem.AddToOrder, Console.RestaurantSystem.AdminUpdateAvailability, Gui.RestaurantGui.LoadMenuData and Gui.RestaurantGui.AddToCart read dishes through the corrected Queries.GetMenuItemById and Queries.GetMenuItems. As written, those reads give `None` and `[]` (see Findings). So the source's `add_to_order` and availability toggle always report the dish as not found, and the GUI menu cache is always empty, so nothing can be added to the cart.
- Schema.CustomerInsertError: a value longer than its VARCHAR column is refused in the model. PostgreSQL instead stores it cut to the column width when every excess character is a space; that case is not modelled.
- Schema.OrderInsertError: a value longer than its VARCHAR column is refused in the model. PostgreSQL instead stores it cut to the column width when every excess character is a space; that case is not modelled.
- Schema.MenuInsertError: a value longer than its VARCHAR column is refused in the model. PostgreSQL instead stores it cut to the column width when every excess character is a space; that case is not modelled.
- Gateway.Database.CreateOrder takes the database clock (`dbNow`, the `CURRENT_TIMESTAMP` default of `created_at`) as a parameter separate from the program clock that builds the order number. The model places no relation between the two.

## Findings

| source | as written | input that shows it | evidently intended | confidence | as-written member | corrected member |
|---|---|---|---|---|---|---|
| database.py:217-221 | `get_menu_items` and `get_menu_item_by_id` build `MenuItem(..., unavailability_reason=row[6], ...)`, a keyword `MenuItem` (models.py:17-27) does not declare. The TypeError is caught, so the listing is `[]` and the lookup is `None`. `category_name=row[8]` also reads the cooking-time column. | the seeded database: dish 1 exists, yet the lookup returns `None` and the listing is `[]`, so the console's `add_to_order` reports every dish as not found | `MenuItem` declares `unavailability_reason` (default `None`), and `category_name` reads column 9 | high (not executed) | Queries.MenuBindingAsWrittenFails, Queries.GetMenuItemsAsWritten, Queries.GetMenuItemByIdAsWritten, Queries.SeededDishHidden, Queries.SeededMenuHidden | Queries.MenuBindingCorrect, Queries.GetMenuItems, Queries.GetMenuItemById |
| restaurant_gui.py:703-715 | `remove_from_cart` subtracts the selected row's subtotal but deletes the first order line with the same name and quantity | two dishes both named "Чай", at 100 and 150 kopecks, one of each in the cart; removing the second row shows a total of 100 while the line left (the 150 one) will be ordered | delete the line at the selected row's position | medium (not executed) | Gui.RestaurantGui.RemoveFromCartAsWritten, Gui.RemoveFirstMatchLosesTotal | Gui.RestaurantGui.RemoveFromCart, Gui.RemoveRowKeepsCart |
