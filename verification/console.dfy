/** The console front end (`RestaurantSystem`): a draft order kept in memory in front
    of the database gateway. The draft grows only through the checks of `add_to_order`,
    is submitted by `process_order` and is emptied only when the order is stored.
    Keyboard input arrives as parameters; the printed menus and receipts are not modelled. */
module Console {
  import opened Wrappers
  import opened Text
  import opened Models
  import opened Schema
  import opened Queries
  import opened Gateway

  /** What `add_to_order` reports, in the order its checks run. */
  datatype AddOutcome = Added | NonPositiveQuantity | NotFound | Unavailable

  /** What `process_order` reports. */
  datatype CheckoutOutcome =
    | EmptyDraft
    | MissingContact
    | Placed(orderId: int, orderNumber: string)
    | Failed(error: DbError)

  /** The id the checkout's customer ends up with: the stored customer with this phone,
      or the next id when one is created. */
  function CustomerIdFor(t: Tables, phone: string): int {
    match CustomerWithPhone(t.customers, phone)
    case Some(c) => c.id
    case None => t.nextCustomerId
  }

  /** The customers once the checkout's customer is found or created: a first-time
      customer whose contact fits is appended with the next id, and it stays stored
      even when the order is then refused. */
  function CustomersAfter(t: Tables, name: string, phone: string, email: string, address: string): seq<CustomerRow> {
    if CustomerWithPhone(t.customers, phone).None? && CustomerInsertError(name, phone, email).None?
    then t.customers + [CustomerRow(t.nextCustomerId, name, phone, email, address)]
    else t.customers
  }

  /** Why submitting a draft fails, if it does: the new customer is refused, or the cash
      order is refused against the customers as they are once the customer is found or
      created. */
  function SubmitError(t: Tables, draft: seq<OrderItem>, name: string, phone: string, email: string,
                       address: string, number: string): Option<DbError> {
    match CustomerWithPhone(t.customers, phone)
    case Some(c) => CreateOrderError(t.orders, t.customers, t.menuItems, number, c.id, draft, "cash")
    case None =>
      if CustomerInsertError(name, phone, email).Some? then CustomerInsertError(name, phone, email)
      else CreateOrderError(t.orders, t.customers + [CustomerRow(t.nextCustomerId, name, phone, email, address)],
                            t.menuItems, number, t.nextCustomerId, draft, "cash")
  }

  /** What the administrator's availability toggle reports. */
  datatype ToggleOutcome = NoSuchDish | Toggled(available: bool)

  /** The answers the availability toggle takes as "make it available". */
  const YesAnswers: seq<string> := ["да", "д", "yes", "y"]

  predicate Affirmative(answer: string) { Lower(Strip(answer)) in YesAnswers }

  /** Every draft line passed the checks of `add_to_order`: a positive quantity of a
      dish the menu table holds. */
  predicate DraftOk(draft: seq<OrderItem>, ms: seq<MenuRow>) {
    forall k :: 0 <= k < |draft| ==> draft[k].quantity > 0 && HasMenuItem(ms, draft[k].menuItemId)
  }

  /** Changing a dish's availability keeps every dish id, so a checked draft stays checked. */
  lemma {:induction false} AvailabilityKeepsDraft(draft: seq<OrderItem>, ms: seq<MenuRow>, itemId: int, available: bool,
                               reason: Option<string>)
    requires DraftOk(draft, ms)
    ensures DraftOk(draft, WithAvailability(ms, itemId, available, reason))
  {
    var r := WithAvailability(ms, itemId, available, reason);
    forall k | 0 <= k < |draft| ensures HasMenuItem(r, draft[k].menuItemId) {
      var m :| m in ms && m.id == draft[k].menuItemId;
      var i :| 0 <= i < |ms| && ms[i] == m;
      assert r[i] in r;
    }
  }

  /** The checks of `add_to_order` are the table's own CHECK and foreign key on order
      lines: a checked draft whose numbers fit the column types is stored whole. */
  lemma {:induction false} DraftAccepted(draft: seq<OrderItem>, ms: seq<MenuRow>)
    requires DraftOk(draft, ms)
    requires forall k :: 0 <= k < |draft| ==>
      && FitsInteger(draft[k].menuItemId) && FitsInteger(draft[k].quantity)
      && FitsDecimal(draft[k].priceAtOrder) && FitsDecimal(draft[k].Subtotal())
    ensures FirstLineError(ms, draft) == None
  {
    FirstLineErrorNone(ms, draft);
  }

  /** A checkout is not refused when the draft passed the checks of `add_to_order`, the
      numbers fit the column types, the order number is new and, for a first-time
      customer, the contact fits its columns: the order is then placed. */
  lemma {:induction false} SubmitAccepted(t: Tables, draft: seq<OrderItem>, name: string, phone: string,
                                          email: string, address: string, number: string)
    requires DraftOk(draft, t.menuItems)
    requires forall k :: 0 <= k < |draft| ==>
      && FitsInteger(draft[k].menuItemId) && FitsInteger(draft[k].quantity)
      && FitsDecimal(draft[k].priceAtOrder) && FitsDecimal(draft[k].Subtotal())
    requires FitsDecimal(SumSubtotals(draft)) && FitsInteger(CustomerIdFor(t, phone))
    requires |number| <= 50 && forall o :: o in t.orders ==> o.orderNumber != number
    requires CustomerWithPhone(t.customers, phone).None? ==> |name| <= 200 && |phone| <= 20 && |email| <= 200
    ensures SubmitError(t, draft, name, phone, email, address, number) == None
  {
    DraftAccepted(draft, t.menuItems);
    match CustomerWithPhone(t.customers, phone)
    case Some(c) =>
      assert HasCustomer(t.customers, c.id);
    case None =>
      var row := CustomerRow(t.nextCustomerId, name, phone, email, address);
      assert row in t.customers + [row];
      assert HasCustomer(t.customers + [row], t.nextCustomerId);
  }

  class RestaurantSystem {
    const db: Database
    var currentOrderItems: seq<OrderItem>

    ghost predicate Valid()
      reads this, db
    {
      db.Valid() && DraftOk(currentOrderItems, db.tables.menuItems)
    }

    constructor ()
      ensures Valid() && fresh(db)
      ensures currentOrderItems == []
      ensures db.tables.categories == SeededCategories(1) && db.tables.menuItems == SeededMenu(1)
    {
      db := new Database();
      currentOrderItems := [];
    }

    /** `add_to_order`: the quantity is checked first, then that the dish exists, then
        that it is available; only then is one line appended, carrying the dish's
        current price and name. */
    method AddToOrder(itemId: int, quantity: int) returns (outcome: AddOutcome)
      requires Valid()
      modifies this
      ensures Valid()
      ensures var m := GetMenuItemById(db.tables.menuItems, db.tables.categories, itemId);
        && (quantity <= 0 ==> outcome == NonPositiveQuantity)
        && (quantity > 0 && m.None? ==> outcome == NotFound)
        && (quantity > 0 && m.Some? && !m.value.isAvailable ==> outcome == Unavailable)
        && (outcome == Added <==> quantity > 0 && m.Some? && m.value.isAvailable)
        && (outcome == Added ==>
              currentOrderItems == old(currentOrderItems) + [OrderItem(itemId, quantity, m.value.price, m.value.name)])
      ensures outcome != Added ==> currentOrderItems == old(currentOrderItems)
    {
      if quantity <= 0 {
        return NonPositiveQuantity;
      }
      var found := GetMenuItemById(db.tables.menuItems, db.tables.categories, itemId);
      if found.None? {
        return NotFound;
      }
      var item := found.value;
      if !item.isAvailable {
        return Unavailable;
      }
      currentOrderItems := currentOrderItems + [OrderItem(item.id, quantity, item.price, item.name)];
      outcome := Added;
    }

    /** The total `show_current_order` prints: the line subtotals added up in order. */
    method CurrentOrderTotal() returns (total: Money)
      ensures total == SumSubtotals(currentOrderItems)
    {
      total := 0;
      var i := 0;
      while i < |currentOrderItems|
        invariant 0 <= i <= |currentOrderItems|
        invariant total == SumSubtotals(currentOrderItems[..i])
      {
        assert currentOrderItems[..i + 1][..i] == currentOrderItems[..i];
        total := total + currentOrderItems[i].Subtotal();
        i := i + 1;
      }
      assert currentOrderItems[..i] == currentOrderItems;
    }

    /** `process_order`: nothing happens for an empty draft or a blank name or phone;
        otherwise the draft is submitted. */
    method ProcessOrder(name: string, phone: string, email: string, address: string, notes: string,
                        now: Timestamp, uuidHex: string, dbNow: Timestamp) returns (outcome: CheckoutOutcome)
      requires Valid() && ValidTimestamp(now) && IsUuidHex(uuidHex)
      modifies this, db
      ensures Valid()
      ensures old(currentOrderItems) == [] ==> outcome == EmptyDraft
      ensures old(currentOrderItems) != [] && (Strip(name) == [] || Strip(phone) == []) ==> outcome == MissingContact
      // Past the two guards the stripped entries are submitted.
      ensures old(currentOrderItems) != [] && Strip(name) != [] && Strip(phone) != [] ==>
        && (outcome.Placed? || outcome.Failed?)
        && (outcome.Failed? <==> SubmitError(old(db.tables), old(currentOrderItems), Strip(name), Strip(phone),
                                             Strip(email), Strip(address), OrderNumber(now, uuidHex)).Some?)
      ensures outcome.Placed? ==>
        && outcome.orderNumber == OrderNumber(now, uuidHex)
        && db.tables.orders == old(db.tables.orders)
             + [OrderRow(outcome.orderId, outcome.orderNumber, CustomerIdFor(old(db.tables), Strip(phone)),
                         SumSubtotals(old(currentOrderItems)), "pending", "cash", Strip(address), Strip(notes), dbNow)]
        && db.tables.orderItems
             == old(db.tables.orderItems) + LinesFor(outcome.orderId, old(db.tables.nextLineId), old(currentOrderItems))
      // Checkout writes customers, orders and lines only.
      ensures db.tables.categories == old(db.tables.categories) && db.tables.menuItems == old(db.tables.menuItems)
      ensures outcome.Placed? || outcome.Failed? ==>
        db.tables.customers == CustomersAfter(old(db.tables), Strip(name), Strip(phone), Strip(email), Strip(address))
      ensures outcome.EmptyDraft? || outcome.MissingContact? ==>
        db.tables == old(db.tables) && currentOrderItems == old(currentOrderItems)
      ensures outcome.Failed? ==>
        && currentOrderItems == old(currentOrderItems)
        && db.tables.orders == old(db.tables.orders) && db.tables.orderItems == old(db.tables.orderItems)
      ensures outcome.Placed? ==>
        && currentOrderItems == []
        && var d := GetOrderByNumber(db.tables.orders, db.tables.customers, db.tables.orderItems,
                                     db.tables.menuItems, outcome.orderNumber);
           && d.Some? && d.value.orderId == outcome.orderId && d.value.status == "pending"
           && d.value.totalAmount == SumSubtotals(old(currentOrderItems))
           && ViewsMatch(d.value.items, old(currentOrderItems))
    {
      if currentOrderItems == [] {
        return EmptyDraft;
      }
      var n, p, e, a, t := Strip(name), Strip(phone), Strip(email), Strip(address), Strip(notes);
      if n == [] || p == [] {
        return MissingContact;
      }
      outcome := Submit(n, p, e, a, t, now, uuidHex, dbNow);
    }

    /** The guarded part of `process_order`: the customer is found or created, then the
        draft is stored as one cash order, and the draft is emptied only when the order
        is stored. A customer created just before a refused order stays stored. */
    method Submit(name: string, phone: string, email: string, address: string, notes: string,
                  now: Timestamp, uuidHex: string, dbNow: Timestamp) returns (outcome: CheckoutOutcome)
      requires Valid() && ValidTimestamp(now) && IsUuidHex(uuidHex)
      modifies this, db
      ensures Valid()
      ensures outcome.Placed? || outcome.Failed?
      ensures outcome.Failed? <==>
        SubmitError(old(db.tables), old(currentOrderItems), name, phone, email, address, OrderNumber(now, uuidHex)).Some?
      ensures outcome.Failed? ==>
        Some(outcome.error)
          == SubmitError(old(db.tables), old(currentOrderItems), name, phone, email, address, OrderNumber(now, uuidHex))
      // A placed order is a cash order of the found or created customer.
      ensures outcome.Placed? ==>
        && outcome.orderId == old(db.tables.nextOrderId) && outcome.orderNumber == OrderNumber(now, uuidHex)
        && db.tables.orders == old(db.tables.orders)
             + [OrderRow(outcome.orderId, outcome.orderNumber, CustomerIdFor(old(db.tables), phone),
                         SumSubtotals(old(currentOrderItems)), "pending", "cash", address, notes, dbNow)]
        && db.tables.orderItems
             == old(db.tables.orderItems) + LinesFor(outcome.orderId, old(db.tables.nextLineId), old(currentOrderItems))
        && CustomerWithPhone(db.tables.customers, phone).Some?
        && CustomerWithPhone(db.tables.customers, phone).value.id == CustomerIdFor(old(db.tables), phone)
      // Checkout writes customers, orders and lines only; a customer created before a
      // refused order stays stored.
      ensures db.tables.categories == old(db.tables.categories) && db.tables.menuItems == old(db.tables.menuItems)
      ensures db.tables.customers == CustomersAfter(old(db.tables), name, phone, email, address)
      ensures db.tables.nextCustomerId
                == old(db.tables.nextCustomerId) + |db.tables.customers| - |old(db.tables.customers)|
      ensures outcome.Failed? ==>
        && currentOrderItems == old(currentOrderItems)
        && db.tables.orders == old(db.tables.orders) && db.tables.orderItems == old(db.tables.orderItems)
      ensures outcome.Placed? ==>
        && currentOrderItems == []
        && var d := GetOrderByNumber(db.tables.orders, db.tables.customers, db.tables.orderItems,
                                     db.tables.menuItems, outcome.orderNumber);
           && d.Some? && d.value.orderId == outcome.orderId && d.value.status == "pending"
           && d.value.totalAmount == SumSubtotals(old(currentOrderItems))
           && ViewsMatch(d.value.items, old(currentOrderItems))
    {
      var customer := db.FindOrCreateCustomer(name, phone, email, address);
      if customer.Err? {
        return Failed(customer.error);
      }
      var placed := db.CreateOrder(customer.value.id, currentOrderItems, address, notes, "cash", now, uuidHex, dbNow);
      if placed.Err? {
        return Failed(placed.error);
      }
      currentOrderItems := [];
      outcome := Placed(placed.value.0, placed.value.1);
    }

    /** `_update_menu_item_availability`: for an existing dish, the answer decides the
        new availability and no reason is ever passed, so a dish made unavailable
        stores no reason. */
    method AdminUpdateAvailability(itemId: int, answer: string) returns (outcome: ToggleOutcome)
      requires Valid()
      modifies db
      ensures Valid()
      ensures GetMenuItemById(old(db.tables.menuItems), old(db.tables.categories), itemId).None? ==>
        outcome == NoSuchDish && db.tables == old(db.tables)
      ensures GetMenuItemById(old(db.tables.menuItems), old(db.tables.categories), itemId).Some? ==>
        && outcome == Toggled(Affirmative(answer))
        && db.tables == old(db.tables).(menuItems :=
             WithAvailability(old(db.tables.menuItems), itemId, Affirmative(answer), None))
      ensures outcome.Toggled? ==>
        var m := GetMenuItemById(db.tables.menuItems, db.tables.categories, itemId);
        && m.Some? && m.value.isAvailable == outcome.available && m.value.unavailabilityReason == None
    {
      var current := GetMenuItemById(db.tables.menuItems, db.tables.categories, itemId);
      if current.None? {
        return NoSuchDish;
      }
      var available := Affirmative(answer);
      AvailabilityKeepsDraft(currentOrderItems, db.tables.menuItems, itemId, available, None);
      var updated := db.UpdateMenuItemAvailability(itemId, available, None);
      outcome := Toggled(available);
    }
  }
}
