/** The PostgreSQL gateway (database.py). The tables are sequences of rows kept in
    id order, with the next value of each SERIAL sequence. Each write is a method
    that runs as one transaction: it either commits all of its rows or rolls back
    and leaves every table as it was. */
module Gateway {
  import opened Wrappers
  import opened Text
  import opened Aggregate
  import opened Models
  import opened Schema
  import opened Queries

  // ---------------------------------------------------------------------------
  // The gateway object

  class Database {
    /** The five tables and their SERIAL sequences. */
    var tables: Tables

    /** Every table constraint of the schema holds, and every order's total equals the
        sum of its lines. */
    ghost predicate Valid()
      reads this
    {
      tables.Ok()
    }

    /** The seed's transaction on a database without categories and with a fresh
        category sequence: the four categories numbered from 1 and the eight dishes
        numbered from the menu sequence replace the (necessarily empty) menu, and the
        database stays consistent. */
    lemma {:induction false} SeedKeeps()
      requires Valid() && tables.categories == [] && tables.nextCategoryId == 1
      ensures tables.menuItems == [] && tables.orderItems == []
      ensures tables.(categories := SeededCategories(1), nextCategoryId := 1 + |SeedCategoryData|,
                 menuItems := SeededMenu(tables.nextMenuItemId), nextMenuItemId := tables.nextMenuItemId + |SeedMenuData|).Ok()
    {
      MenuNeedsCategories(tables.menuItems, tables.nextMenuItemId, tables.categories);
      LinesNeedMenu(tables.orderItems, tables.nextLineId, tables.orders, tables.menuItems);
      SeedFitsFreshSequence();
      SeededMenuOk(tables.nextMenuItemId, SeededCategories(1));
    }

    /** Committing a new customer row keeps the database consistent, and the phone
        then leads to that row. */
    lemma {:induction false} CustomerAppendKeeps(row: CustomerRow)
      requires Valid() && row.id == tables.nextCustomerId && CustomerWithPhone(tables.customers, row.phone).None?
      requires CustomerInsertError(row.name, row.phone, row.email) == None
      ensures tables.(customers := tables.customers + [row], nextCustomerId := tables.nextCustomerId + 1).Ok()
      ensures CustomerWithPhone(tables.customers + [row], row.phone) == Some(row)
    {
      CustomersOkAppend(tables.customers, tables.nextCustomerId, row);
      OrdersOkMoreCustomers(tables.orders, tables.nextOrderId, tables.customers, row);
      CustomerWithPhoneAppend(tables.customers, row);
    }

    /** Committing an order and its lines keeps the database consistent, the order is
        found by its number, and it has exactly its new lines. */
    lemma {:induction false} OrderCommitKeeps(header: OrderRow, items: seq<OrderItem>)
      requires Valid()
      requires header.id == tables.nextOrderId && header.status == "pending" && header.totalAmount == SumSubtotals(items)
      requires OrderInsertError(tables.orders, tables.customers, header.orderNumber, header.customerId, header.totalAmount,
                                header.paymentMethod) == None
      requires forall k :: 0 <= k < |items| ==> LineInsertError(tables.menuItems, items[k]) == None
      ensures tables.(orders := tables.orders + [header], nextOrderId := tables.nextOrderId + 1,
                 orderItems := tables.orderItems + LinesFor(header.id, tables.nextLineId, items),
                 nextLineId := tables.nextLineId + |items|).Ok()
      ensures OrderWithNumber(tables.orders + [header], header.orderNumber) == Some(header)
      ensures LinesOf(tables.orderItems + LinesFor(header.id, tables.nextLineId, items), header.id)
              == LinesFor(header.id, tables.nextLineId, items)
    {
      OrdersAfterCommit(tables.orders, tables.nextOrderId, tables.customers, header);
      LinesAfterCommit(tables.orderItems, tables.nextLineId, tables.orders, tables.menuItems, header, items);
      OkWithNewOrders(tables, tables.orders + [header], tables.nextOrderId + 1,
                      tables.orderItems + LinesFor(header.id, tables.nextLineId, items), tables.nextLineId + |items|);
    }

    /** Committing a new available dish keeps the database consistent, and the dish
        is then found by its id. */
    lemma {:induction false} MenuAppendKeeps(row: MenuRow)
      requires Valid() && row.id == tables.nextMenuItemId && row.isAvailable && row.unavailabilityReason == None
      requires MenuInsertError(tables.categories, row.name, row.price, row.categoryId, row.calories, row.cookingTime) == None
      ensures tables.(menuItems := tables.menuItems + [row], nextMenuItemId := tables.nextMenuItemId + 1).Ok()
      ensures MenuRowById(tables.menuItems + [row], row.id) == Some(row)
    {
      forall m | m in tables.menuItems ensures m.id != row.id {
        var k :| 0 <= k < |tables.menuItems| && tables.menuItems[k] == m;
        assert MenuRowOk(tables.menuItems[k], tables.nextMenuItemId, tables.categories);
      }
      MenuRowByIdAppend(tables.menuItems, row);
      MenuOkAppend(tables.menuItems, tables.nextMenuItemId, tables.categories, row);
      LinesOkMoreMenu(tables.orderItems, tables.nextLineId, tables.orders, tables.menuItems, row);
    }

    /** A status change from the allowed list keeps the database consistent. */
    lemma {:induction false} StatusUpdateKeeps(orderId: int, status: string)
      requires Valid() && status in AllowedStatuses
      ensures tables.(orders := WithStatus(tables.orders, orderId, status)).Ok()
    {
      OrdersOkWithStatus(tables.orders, tables.nextOrderId, tables.customers, orderId, status);
      LinesOkWithStatus(tables.orderItems, tables.nextLineId, tables.orders, tables.menuItems, orderId, status);
      TotalsMatchWithStatus(tables.orders, tables.orderItems, orderId, status);
    }

    /** An availability change keeps the database consistent, and when the dish exists
        it then shows the new availability and reason, still in an existing category. */
    lemma {:induction false} AvailabilityUpdateKeeps(itemId: int, available: bool, reason: Option<string>)
      requires Valid() && (available ==> reason == None)
      ensures tables.(menuItems := WithAvailability(tables.menuItems, itemId, available, reason)).Ok()
      ensures HasMenuItem(tables.menuItems, itemId) ==>
        var m := MenuRowById(WithAvailability(tables.menuItems, itemId, available, reason), itemId);
        m.Some? && m.value.isAvailable == available && m.value.unavailabilityReason == reason
        && HasCategory(tables.categories, m.value.categoryId)
    {
      WithAvailabilityKeepsMenu(tables.menuItems, tables.nextMenuItemId, tables.categories, tables.orderItems,
                                tables.nextLineId, tables.orders, itemId, available, reason);
      if HasMenuItem(tables.menuItems, itemId) {
        MenuRowByIdUpdated(tables.menuItems, tables.nextMenuItemId, tables.categories, itemId, available, reason);
      }
    }

    /** A connection to a new database: the tables are created empty and seeded. */
    constructor ()
      ensures Valid()
      ensures tables.categories == SeededCategories(1) && tables.menuItems == SeededMenu(1)
      ensures tables.customers == [] && tables.orders == [] && tables.orderItems == []
    {
      tables := Tables([], 1, [], 1, [], 1, [], 1, [], 1);
      new;
      SeedInitialData();
    }

    /** Inserts the four categories and then the eight dishes, in one transaction, but
        only when the category table is empty. A failing insert rolls everything
        back and is swallowed. */
    method SeedInitialData()
      requires Valid()
      modifies this
      ensures Valid()
      ensures old(tables.categories) == [] && old(tables.nextCategoryId) == 1 ==>
        tables == old(tables).(categories := SeededCategories(1), nextCategoryId := 1 + |SeedCategoryData|,
                               menuItems := SeededMenu(old(tables.nextMenuItemId)),
                               nextMenuItemId := old(tables.nextMenuItemId) + |SeedMenuData|)
      ensures old(tables.categories) != [] || old(tables.nextCategoryId) != 1 ==> tables == old(tables)
    {
      if tables.categories != [] {
        return;
      }
      var firstCategory, firstDish := tables.nextCategoryId, tables.nextMenuItemId;
      var cats: seq<CategoryRow> := [];
      var i := 0;
      while i < |SeedCategoryData|
        invariant 0 <= i <= |SeedCategoryData|
        invariant cats == SeededCategories(firstCategory)[..i]
      {
        cats := cats + [SeedCategoryRow(firstCategory + i, i)];
        i := i + 1;
      }
      assert cats == SeededCategories(firstCategory);
      var menu: seq<MenuRow> := [];
      var j := 0;
      while j < |SeedMenuData|
        invariant 0 <= j <= |SeedMenuData|
        invariant menu == SeededMenu(firstDish)[..j]
        invariant forall k :: 0 <= k < j ==> HasCategory(cats, SeedMenuData[k].3)
      {
        if !HasCategory(cats, SeedMenuData[j].3) {
          // The category reference fails: the transaction is rolled back.
          SeedFitsExactly(firstCategory);
          return;
        }
        menu := menu + [SeedMenuRow(firstDish + j, j)];
        j := j + 1;
      }
      SeedFitsExactly(firstCategory);
      assert menu == SeededMenu(firstDish);
      SeedKeeps();
      tables := tables.(categories := cats, nextCategoryId := firstCategory + |SeedCategoryData|,
                        menuItems := menu, nextMenuItemId := firstDish + |SeedMenuData|);
    }

    /** `find_or_create_customer`: the customer with this phone if there is one
        (the other arguments are then ignored), otherwise a new row. */
    method FindOrCreateCustomer(name: string, phone: string, email: string, address: string)
      returns (r: Result<Customer, DbError>)
      requires Valid()
      modifies this
      ensures Valid()
      ensures CustomerWithPhone(old(tables.customers), phone).Some? ==>
        && r == Ok(AsCustomer(CustomerWithPhone(old(tables.customers), phone).value))
        && tables == old(tables)
      ensures CustomerWithPhone(old(tables.customers), phone).None? && CustomerInsertError(name, phone, email).Some? ==>
        && r == Err(CustomerInsertError(name, phone, email).value)
        && tables == old(tables)
      ensures CustomerWithPhone(old(tables.customers), phone).None? && CustomerInsertError(name, phone, email).None? ==>
        && r == Ok(Customer(old(tables.nextCustomerId), name, phone, email, address))
        && tables == old(tables).(customers := old(tables.customers)
                                                + [CustomerRow(old(tables.nextCustomerId), name, phone, email, address)],
                                  nextCustomerId := old(tables.nextCustomerId) + 1)
      // After a success the phone leads to the customer returned.
      ensures r.Ok? ==> r.value.phone == phone && CustomerWithPhone(tables.customers, phone) == Some(CustomerRow(
        r.value.id, r.value.name, r.value.phone, r.value.email, r.value.address))
    {
      var found := CustomerWithPhone(tables.customers, phone);
      if found.Some? {
        return Ok(AsCustomer(found.value));
      }
      var err := CustomerInsertError(name, phone, email);
      if err.Some? {
        return Err(err.value);
      }
      var row := CustomerRow(tables.nextCustomerId, name, phone, email, address);
      CustomerAppendKeeps(row);
      tables := tables.(customers := tables.customers + [row], nextCustomerId := tables.nextCustomerId + 1);
      r := Ok(AsCustomer(row));
    }

    /** `create_order`: the order row with the total of the line subtotals and status
        'pending', then one line row per item in list order, all committed together;
        if any statement fails nothing is stored. The order number is built from the
        program's clock (`now`) while the stored creation time is the database's own
        clock (`dbNow`). */
    method CreateOrder(customerId: int, items: seq<OrderItem>, deliveryAddress: string, notes: string,
                       paymentMethod: string, now: Timestamp, uuidHex: string, dbNow: Timestamp)
      returns (r: Result<(int, string), DbError>)
      requires Valid()
      requires ValidTimestamp(now) && IsUuidHex(uuidHex)
      modifies this
      ensures Valid()
      ensures r.Err? <==>
        CreateOrderError(old(tables.orders), old(tables.customers), old(tables.menuItems), OrderNumber(now, uuidHex),
                         customerId, items, paymentMethod).Some?
      ensures r.Err? ==>
        && Some(r.error) == CreateOrderError(old(tables.orders), old(tables.customers), old(tables.menuItems),
                                             OrderNumber(now, uuidHex), customerId, items, paymentMethod)
        && tables == old(tables)
      ensures r.Ok? ==>
        && r.value == (old(tables.nextOrderId), OrderNumber(now, uuidHex))
        && tables == old(tables).(
             orders := old(tables.orders) + [OrderRow(old(tables.nextOrderId), OrderNumber(now, uuidHex), customerId,
                                                      SumSubtotals(items), "pending", paymentMethod,
                                                      deliveryAddress, notes, dbNow)],
             nextOrderId := old(tables.nextOrderId) + 1,
             orderItems := old(tables.orderItems) + LinesFor(old(tables.nextOrderId), old(tables.nextLineId), items),
             nextLineId := old(tables.nextLineId) + |items|)
      // Reading the order back by its number gives the draft's lines and total.
      ensures r.Ok? ==>
        var d := GetOrderByNumber(tables.orders, tables.customers, tables.orderItems, tables.menuItems, r.value.1);
        && d.Some? && d.value.orderId == r.value.0 && d.value.status == "pending"
        && d.value.totalAmount == SumSubtotals(items)
        && ViewsMatch(d.value.items, items)
    {
      var number := OrderNumber(now, uuidHex);
      var total := SumSubtotals(items);
      var err := OrderInsertError(tables.orders, tables.customers, number, customerId, total, paymentMethod);
      if err.Some? {
        return Err(err.value);
      }
      var staged := StageLines(tables.nextOrderId, tables.nextLineId, items);
      if staged.Err? {
        // The transaction is rolled back: neither the order nor any line is kept.
        return Err(staged.error);
      }
      var header := OrderRow(tables.nextOrderId, number, customerId, total, "pending", paymentMethod,
                             deliveryAddress, notes, dbNow);
      CommitOrder(header, items, staged.value);
      r := Ok((header.id, number));
    }

    /** The line inserts of `create_order`, one per item in list order, each checked
        against the constraints of the line table; the first refusal ends the
        transaction. On success the result is the rows to be stored. */
    method StageLines(orderId: int, firstLine: int, items: seq<OrderItem>) returns (r: Result<seq<LineRow>, DbError>)
      ensures r.Err? <==> FirstLineError(tables.menuItems, items).Some?
      ensures r.Err? ==> Some(r.error) == FirstLineError(tables.menuItems, items)
      ensures r.Ok? ==> r.value == LinesFor(orderId, firstLine, items)
      ensures r.Ok? ==> forall k :: 0 <= k < |items| ==> LineInsertError(tables.menuItems, items[k]) == None
    {
      var pending: seq<LineRow> := [];
      var i := 0;
      while i < |items|
        invariant 0 <= i <= |items|
        invariant pending == LinesFor(orderId, firstLine, items[..i])
        invariant FirstLineError(tables.menuItems, items[..i]) == None
      {
        assert items[..i + 1][..i] == items[..i];
        var lineErr := LineInsertError(tables.menuItems, items[i]);
        if lineErr.Some? {
          FirstLineErrorStable(tables.menuItems, items, i + 1);
          return Err(lineErr.value);
        }
        pending := pending + [LineRow(firstLine + i, orderId, items[i].menuItemId, items[i].quantity,
                                      items[i].priceAtOrder)];
        i := i + 1;
      }
      assert items[..|items|] == items;
      FirstLineErrorNone(tables.menuItems, items);
      r := Ok(pending);
    }

    /** The commit of `create_order`: the order row and its lines are stored together,
        and reading the order back by its number gives its total, its status and
        exactly the lines of `items`. */
    method CommitOrder(header: OrderRow, items: seq<OrderItem>, lines: seq<LineRow>)
      requires Valid()
      requires header.id == tables.nextOrderId && header.status == "pending"
      requires header.totalAmount == SumSubtotals(items)
      requires lines == LinesFor(header.id, tables.nextLineId, items)
      requires OrderInsertError(tables.orders, tables.customers, header.orderNumber, header.customerId,
                                header.totalAmount, header.paymentMethod) == None
      requires forall k :: 0 <= k < |items| ==> LineInsertError(tables.menuItems, items[k]) == None
      modifies this
      ensures Valid()
      ensures tables == old(tables).(orders := old(tables.orders) + [header], nextOrderId := old(tables.nextOrderId) + 1,
                                     orderItems := old(tables.orderItems) + lines,
                                     nextLineId := old(tables.nextLineId) + |items|)
      ensures var d := GetOrderByNumber(tables.orders, tables.customers, tables.orderItems, tables.menuItems,
                                        header.orderNumber);
        && d.Some? && d.value.orderId == header.id && d.value.status == "pending"
        && d.value.totalAmount == header.totalAmount
        && ViewsMatch(d.value.items, items)
    {
      OrderCommitKeeps(header, items);
      var firstLine := tables.nextLineId;
      tables := tables.(orders := tables.orders + [header], nextOrderId := tables.nextOrderId + 1,
                        orderItems := tables.orderItems + lines, nextLineId := tables.nextLineId + |items|);
      OrderReadBack(tables.orders, tables.customers, tables.orderItems, tables.menuItems, header, firstLine, items);
    }

    /** `update_order_status`: a status outside the allowed list is refused before
        the database is touched; otherwise the status of the order with this id is
        replaced, and the result says whether such an order exists. */
    method UpdateOrderStatus(orderId: int, status: string) returns (updated: bool)
      requires Valid()
      modifies this
      ensures Valid()
      ensures updated <==> status in AllowedStatuses && HasOrder(old(tables.orders), orderId)
      ensures status in AllowedStatuses ==> tables == old(tables).(orders := WithStatus(old(tables.orders), orderId, status))
      ensures status !in AllowedStatuses ==> tables == old(tables)
    {
      if status !in AllowedStatuses {
        return false;
      }
      StatusUpdateKeeps(orderId, status);
      updated := HasOrder(tables.orders, orderId);
      tables := tables.(orders := WithStatus(tables.orders, orderId, status));
    }

    /** `add_menu_item`: a new available dish without a reason; false when the
        insert is refused. */
    method AddMenuItem(name: string, description: string, price: Money, categoryId: int,
                       calories: Option<int>, cookingTime: Option<int>) returns (added: bool)
      requires Valid()
      modifies this
      ensures Valid()
      ensures added <==> MenuInsertError(old(tables.categories), name, price, categoryId, calories, cookingTime) == None
      ensures added ==>
        tables == old(tables).(menuItems := old(tables.menuItems)
                                             + [MenuRow(old(tables.nextMenuItemId), name, description, price,
                                                        categoryId, true, None, calories, cookingTime)],
                               nextMenuItemId := old(tables.nextMenuItemId) + 1)
      ensures !added ==> tables == old(tables)
      // The new dish can be read back by its id.
      ensures added ==> var m := GetMenuItemById(tables.menuItems, tables.categories, old(tables.nextMenuItemId));
        && m.Some? && m.value.name == name && m.value.price == price && m.value.categoryId == categoryId
        && m.value.isAvailable && m.value.unavailabilityReason == None
    {
      if MenuInsertError(tables.categories, name, price, categoryId, calories, cookingTime).Some? {
        return false;
      }
      var row := MenuRow(tables.nextMenuItemId, name, description, price, categoryId, true, None, calories, cookingTime);
      MenuAppendKeeps(row);
      tables := tables.(menuItems := tables.menuItems + [row], nextMenuItemId := tables.nextMenuItemId + 1);
      added := true;
    }

    /** `update_menu_item_availability`: making a dish available clears its reason;
        making it unavailable stores the reason given. The result says whether a
        dish with this id exists. */
    method UpdateMenuItemAvailability(itemId: int, available: bool, reason: Option<string>)
      returns (updated: bool)
      requires Valid()
      modifies this
      ensures Valid()
      ensures updated <==> HasMenuItem(old(tables.menuItems), itemId)
      ensures tables == old(tables).(menuItems := WithAvailability(old(tables.menuItems), itemId, available,
                                                                   if available then None else reason))
      // Reading the dish back shows the new availability.
      ensures updated ==> var m := GetMenuItemById(tables.menuItems, tables.categories, itemId);
        && m.Some? && m.value.isAvailable == available
        && m.value.unavailabilityReason == (if available then None else reason)
    {
      var stored := if available then None else reason;
      AvailabilityUpdateKeeps(itemId, available, stored);
      updated := HasMenuItem(tables.menuItems, itemId);
      tables := tables.(menuItems := WithAvailability(tables.menuItems, itemId, available, stored));
    }
  }
}
