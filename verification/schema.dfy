/** The database schema (database.py): the rows of the five tables, the column
    types and constraints, the SERIAL counters, the initial data, the order-number
    format, and which statement error each write raises first. */
module Schema {
  import opened Wrappers
  import opened Text
  import opened Aggregate
  import opened Models

  // ---------------------------------------------------------------------------
  // Column types

  /** INTEGER: a signed 32-bit value. */
  predicate FitsInteger(v: int) { -0x8000_0000 <= v < 0x8000_0000 }

  predicate FitsIntegerOpt(v: Option<int>) { v.Some? ==> FitsInteger(v.value) }

  /** DECIMAL(10, 2), in kopecks: ten digits in all, two of them after the point. */
  predicate FitsDecimal(k: Money) { -10_000_000_000 < k < 10_000_000_000 }

  // ---------------------------------------------------------------------------
  // Rows

  datatype CategoryRow = CategoryRow(id: int, name: string, description: string)

  datatype MenuRow = MenuRow(
    id: int, name: string, description: string, price: Money, categoryId: int,
    isAvailable: bool, unavailabilityReason: Option<string>,
    calories: Option<int>, cookingTime: Option<int>)

  datatype CustomerRow = CustomerRow(id: int, name: string, phone: string, email: string, address: string)

  datatype OrderRow = OrderRow(
    id: int, orderNumber: string, customerId: int, totalAmount: Money, status: string,
    paymentMethod: string, deliveryAddress: string, notes: string, createdAt: Timestamp)

  /** An order_items row; its subtotal is the generated column. */
  datatype LineRow = LineRow(id: int, orderId: int, menuItemId: int, quantity: int, priceAtOrder: Money)
  {
    function Subtotal(): Money { quantity * priceAtOrder }
  }

  /** Why a statement was refused; the transaction it belongs to is rolled back. */
  datatype DbError =
    | StringTooLong(column: string)
    | NumericOverflow(column: string)
    | IntegerOutOfRange(column: string)
    | CheckViolation(constraint: string)
    | UniqueViolation(constraint: string)
    | ForeignKeyViolation(constraint: string)

  /** The statuses `update_order_status` accepts, in its order. */
  const AllowedStatuses: seq<string> :=
    ["pending", "confirmed", "preparing", "delivering", "delivered", "cancelled"]

  // ---------------------------------------------------------------------------
  // Keys and lookups

  predicate HasCategory(cs: seq<CategoryRow>, id: int) { exists c :: c in cs && c.id == id }

  predicate HasMenuItem(ms: seq<MenuRow>, id: int) { exists m :: m in ms && m.id == id }

  predicate HasCustomer(cs: seq<CustomerRow>, id: int) { exists c :: c in cs && c.id == id }

  predicate HasOrder(os: seq<OrderRow>, id: int) { exists o :: o in os && o.id == id }

  // Each lookup is a `SELECT ... WHERE key = %s` and yields the first row, in table
  // order, whose key matches, or None.

  function CategoryById(cs: seq<CategoryRow>, id: int): (r: Option<CategoryRow>)
    ensures r.Some? ==> r.value in cs && r.value.id == id
    ensures r.None? <==> !HasCategory(cs, id)
  {
    if cs == [] then None else if cs[0].id == id then Some(cs[0]) else CategoryById(cs[1..], id)
  }

  function MenuRowById(ms: seq<MenuRow>, id: int): (r: Option<MenuRow>)
    ensures r.Some? ==> r.value in ms && r.value.id == id
    ensures r.None? <==> !HasMenuItem(ms, id)
  {
    if ms == [] then None else if ms[0].id == id then Some(ms[0]) else MenuRowById(ms[1..], id)
  }

  function CustomerById(cs: seq<CustomerRow>, id: int): (r: Option<CustomerRow>)
    ensures r.Some? ==> r.value in cs && r.value.id == id
    ensures r.None? <==> !HasCustomer(cs, id)
  {
    if cs == [] then None else if cs[0].id == id then Some(cs[0]) else CustomerById(cs[1..], id)
  }

  function OrderById(os: seq<OrderRow>, id: int): (r: Option<OrderRow>)
    ensures r.Some? ==> r.value in os && r.value.id == id
    ensures r.None? <==> !HasOrder(os, id)
  {
    if os == [] then None else if os[0].id == id then Some(os[0]) else OrderById(os[1..], id)
  }

  function CustomerWithPhone(cs: seq<CustomerRow>, phone: string): (r: Option<CustomerRow>)
    ensures r.Some? ==> r.value in cs && r.value.phone == phone
    ensures r.None? <==> forall c :: c in cs ==> c.phone != phone
  {
    if cs == [] then None else if cs[0].phone == phone then Some(cs[0]) else CustomerWithPhone(cs[1..], phone)
  }

  function OrderWithNumber(os: seq<OrderRow>, number: string): (r: Option<OrderRow>)
    ensures r.Some? ==> r.value in os && r.value.orderNumber == number
    ensures r.None? <==> forall o :: o in os ==> o.orderNumber != number
  {
    if os == [] then None else if os[0].orderNumber == number then Some(os[0]) else OrderWithNumber(os[1..], number)
  }

  /** The lines of one order, in id order (`WHERE oi.order_id = %s ORDER BY oi.id`). */
  function LinesOf(ls: seq<LineRow>, orderId: int): (r: seq<LineRow>)
  {
    if ls == [] then []
    else LinesOf(ls[..|ls| - 1], orderId) + (if ls[|ls| - 1].orderId == orderId then [ls[|ls| - 1]] else [])
  }

  function SumLines(ls: seq<LineRow>): Money {
    if ls == [] then 0 else SumLines(ls[..|ls| - 1]) + ls[|ls| - 1].Subtotal()
  }

  // ---------------------------------------------------------------------------
  // Table constraints

  /** Strictly increasing: how a SERIAL sequence hands out keys over time. */
  predicate Increasing(ks: seq<int>) { forall i, j :: 0 <= i < j < |ks| ==> ks[i] < ks[j] }

  /** No value twice: a UNIQUE column. */
  predicate Distinct<K(==)>(ks: seq<K>) { forall i, j :: 0 <= i < j < |ks| ==> ks[i] != ks[j] }

  lemma {:induction false} IncreasingAppend(ks: seq<int>, k: int)
    requires Increasing(ks) && forall i :: 0 <= i < |ks| ==> ks[i] < k
    ensures Increasing(ks + [k])
  {
  }

  lemma {:induction false} DistinctAppend<K>(ks: seq<K>, k: K)
    requires Distinct(ks) && k !in ks
    ensures Distinct(ks + [k])
  {
    var s := ks + [k];
    forall i, j | 0 <= i < j < |s| ensures s[i] != s[j] {
      assert s[i] == ks[i];
      if j == |ks| { assert ks[i] in ks; }
    }
  }

  // The key columns of each table, in table order.

  function CategoryIds(cs: seq<CategoryRow>): seq<int> { seq(|cs|, i requires 0 <= i < |cs| => cs[i].id) }

  function CategoryNames(cs: seq<CategoryRow>): seq<string> { seq(|cs|, i requires 0 <= i < |cs| => cs[i].name) }

  function MenuIds(ms: seq<MenuRow>): seq<int> { seq(|ms|, i requires 0 <= i < |ms| => ms[i].id) }

  function CustomerIds(cs: seq<CustomerRow>): seq<int> { seq(|cs|, i requires 0 <= i < |cs| => cs[i].id) }

  function CustomerPhones(cs: seq<CustomerRow>): seq<string> { seq(|cs|, i requires 0 <= i < |cs| => cs[i].phone) }

  function OrderIds(os: seq<OrderRow>): seq<int> { seq(|os|, i requires 0 <= i < |os| => os[i].id) }

  function OrderNumbers(os: seq<OrderRow>): seq<string> { seq(|os|, i requires 0 <= i < |os| => os[i].orderNumber) }

  function LineIds(ls: seq<LineRow>): seq<int> { seq(|ls|, i requires 0 <= i < |ls| => ls[i].id) }

  /** PRIMARY KEY from a SERIAL sequence, VARCHAR(100) name. */
  predicate CategoryRowOk(c: CategoryRow, next: int) { 1 <= c.id < next && |c.name| <= 100 }

  /** ... and UNIQUE name. */
  predicate CategoriesOk(cs: seq<CategoryRow>, next: int) {
    && (forall i :: 0 <= i < |cs| ==> CategoryRowOk(cs[i], next))
    && Increasing(CategoryIds(cs)) && Distinct(CategoryNames(cs))
  }

  /** Serial key, VARCHAR(200) name, DECIMAL price, the category reference, INTEGER
      calories and cooking time; an available dish has no unavailability reason. */
  predicate MenuRowOk(m: MenuRow, next: int, cs: seq<CategoryRow>) {
    && 1 <= m.id < next && |m.name| <= 200 && FitsDecimal(m.price)
    && FitsInteger(m.categoryId) && HasCategory(cs, m.categoryId)
    && FitsIntegerOpt(m.calories) && FitsIntegerOpt(m.cookingTime)
    && (m.isAvailable ==> m.unavailabilityReason == None)
  }

  predicate MenuOk(ms: seq<MenuRow>, next: int, cs: seq<CategoryRow>) {
    && (forall i :: 0 <= i < |ms| ==> MenuRowOk(ms[i], next, cs))
    && Increasing(MenuIds(ms))
  }

  /** Serial key, VARCHAR(200) name and email, VARCHAR(20) phone. */
  predicate CustomerRowOk(c: CustomerRow, next: int) {
    1 <= c.id < next && |c.name| <= 200 && |c.phone| <= 20 && |c.email| <= 200
  }

  /** ... and UNIQUE phone. */
  predicate CustomersOk(cs: seq<CustomerRow>, next: int) {
    && (forall i :: 0 <= i < |cs| ==> CustomerRowOk(cs[i], next))
    && Increasing(CustomerIds(cs)) && Distinct(CustomerPhones(cs))
  }

  /** Serial key, VARCHAR(50) order number, the customer reference, DECIMAL total, a
      status from the allowed list, VARCHAR(50) payment method. */
  predicate OrderRowOk(o: OrderRow, next: int, cs: seq<CustomerRow>) {
    && 1 <= o.id < next && |o.orderNumber| <= 50 && HasCustomer(cs, o.customerId)
    && FitsDecimal(o.totalAmount) && o.status in AllowedStatuses && |o.paymentMethod| <= 50
  }

  /** ... and UNIQUE order number. */
  predicate OrdersOk(os: seq<OrderRow>, next: int, cs: seq<CustomerRow>) {
    && (forall i :: 0 <= i < |os| ==> OrderRowOk(os[i], next, cs))
    && Increasing(OrderIds(os)) && Distinct(OrderNumbers(os))
  }

  /** Serial key, the order and menu item references, CHECK (quantity > 0), INTEGER
      quantity, DECIMAL price and generated subtotal. */
  predicate LineRowOk(l: LineRow, next: int, os: seq<OrderRow>, ms: seq<MenuRow>) {
    && 1 <= l.id < next && HasOrder(os, l.orderId) && HasMenuItem(ms, l.menuItemId)
    && 0 < l.quantity && FitsInteger(l.quantity)
    && FitsDecimal(l.priceAtOrder) && FitsDecimal(l.Subtotal())
  }

  predicate LinesOk(ls: seq<LineRow>, next: int, os: seq<OrderRow>, ms: seq<MenuRow>) {
    && (forall i :: 0 <= i < |ls| ==> LineRowOk(ls[i], next, os, ms))
    && Increasing(LineIds(ls))
  }

  /** Every stored order total is the sum of the subtotals of its stored lines. */
  predicate TotalsMatch(os: seq<OrderRow>, ls: seq<LineRow>) {
    forall i :: 0 <= i < |os| ==> os[i].totalAmount == SumLines(LinesOf(ls, os[i].id))
  }

  /** The contents of the database: the five tables, each with the next value of its
      SERIAL sequence. */
  datatype Tables = Tables(
    categories: seq<CategoryRow>, nextCategoryId: int,
    menuItems: seq<MenuRow>, nextMenuItemId: int,
    customers: seq<CustomerRow>, nextCustomerId: int,
    orders: seq<OrderRow>, nextOrderId: int,
    orderItems: seq<LineRow>, nextLineId: int)
  {
    /** Every table within its constraints, every sequence positive, and every order
        total the sum of its lines. */
    predicate Ok() {
      && 1 <= nextCategoryId && 1 <= nextMenuItemId && 1 <= nextCustomerId && 1 <= nextOrderId && 1 <= nextLineId
      && CategoriesOk(categories, nextCategoryId) && MenuOk(menuItems, nextMenuItemId, categories)
      && CustomersOk(customers, nextCustomerId) && OrdersOk(orders, nextOrderId, customers)
      && LinesOk(orderItems, nextLineId, orders, menuItems) && TotalsMatch(orders, orderItems)
    }
  }

  // ---------------------------------------------------------------------------
  // Initial data

  const SeedCategoryData: seq<(string, string)> := [
    ("Пицца", "Итальянская пицца на тонком тесте"),
    ("Суши и роллы", "Японская кухня"),
    ("Напитки", "Холодные и горячие напитки"),
    ("Десерты", "Сладкие угощения")
  ]

  /** Name, description, price in kopecks, category id, calories, cooking minutes. */
  const SeedMenuData: seq<(string, string, Money, int, int, int)> := [
    ("Маргарита", "Томатный соус, моцарелла, базилик", 45000, 1, 800, 15),
    ("Пепперони", "Томатный соус, пепперони, моцарелла", 55000, 1, 950, 20),
    ("Филадельфия", "Лосось, сливочный сыр, огурец", 32000, 2, 420, 10),
    ("Калифорния", "Краб-микс, авокадо, огурец, икра", 28000, 2, 380, 10),
    ("Кола", "Coca-Cola 0.5л", 12000, 3, 210, 2),
    ("Апельсиновый сок", "Свежевыжатый сок 0.3л", 15000, 3, 120, 3),
    ("Чизкейк", "Классический Нью-Йорк чизкейк", 20000, 4, 350, 5),
    ("Тирамису", "Итальянский десерт", 25000, 4, 280, 5)
  ]

  function SeedCategoryRow(id: int, k: nat): CategoryRow
    requires k < |SeedCategoryData|
  {
    CategoryRow(id, SeedCategoryData[k].0, SeedCategoryData[k].1)
  }

  function SeedMenuRow(id: int, k: nat): MenuRow
    requires k < |SeedMenuData|
  {
    var d := SeedMenuData[k];
    MenuRow(id, d.0, d.1, d.2, d.3, true, None, Some(d.4), Some(d.5))
  }

  /** The category rows the seed inserts when the sequence stands at `first`. */
  function SeededCategories(first: int): (r: seq<CategoryRow>)
    ensures |r| == |SeedCategoryData|
    ensures forall k :: 0 <= k < |r| ==> r[k].id == first + k
  {
    var r := seq(|SeedCategoryData|, k requires 0 <= k < |SeedCategoryData| => SeedCategoryRow(first + k, k));
    assert forall k :: 0 <= k < |r| ==> r[k] == SeedCategoryRow(first + k, k);
    r
  }

  function SeededMenu(first: int): (r: seq<MenuRow>)
    ensures |r| == |SeedMenuData|
    ensures forall k :: 0 <= k < |r| ==> r[k].id == first + k
  {
    var r := seq(|SeedMenuData|, k requires 0 <= k < |SeedMenuData| => SeedMenuRow(first + k, k));
    assert forall k :: 0 <= k < |r| ==> r[k] == SeedMenuRow(first + k, k);
    r
  }

  /** The seed menu refers to categories 1 to 4 by number, so it can only be inserted
      when the seeded categories received exactly those ids. */
  lemma {:induction false} SeedFitsFreshSequence()
    ensures forall k :: 0 <= k < |SeedMenuData| ==> HasCategory(SeededCategories(1), SeedMenuData[k].3)
    ensures CategoriesOk(SeededCategories(1), 5)
  {
    var cs := SeededCategories(1);
    assert cs[0].id == 1 && cs[1].id == 2 && cs[2].id == 3 && cs[3].id == 4;
    assert cs[0] in cs && cs[1] in cs && cs[2] in cs && cs[3] in cs;
    assert cs[0].name[0] == 'П' && cs[1].name[0] == 'С' && cs[2].name[0] == 'Н' && cs[3].name[0] == 'Д';
  }

  // ---------------------------------------------------------------------------
  // Order numbers

  /** What `uuid.uuid4().hex` yields: 32 lower-case hexadecimal digits. */
  predicate IsUuidHex(h: string) { |h| == 32 && forall i :: 0 <= i < |h| ==> IsLowerHex(h[i]) }

  /** "ORD-" + the date as %Y%m%d + "-" + the first six hex digits, upper-cased. */
  function OrderNumber(now: Timestamp, uuidHex: string): (s: string)
    requires ValidTimestamp(now) && IsUuidHex(uuidHex)
    ensures |s| == 19 && s[..4] == "ORD-" && s[12] == '-'
    ensures forall i :: 13 <= i < 19 ==> IsUpperHex(s[i])
  {
    "ORD-" + CompactDate(now) + "-" + Upper(uuidHex[..6])
  }

  /** Splits an order number into its date and its six-digit suffix. */
  function ParseOrderNumber(s: string): Option<((int, int, int), string)> {
    if |s| == 19 && s[..4] == "ORD-" && s[12] == '-' then
      match ParseCompactDate(s[4..12])
      case None => None
      case Some(ymd) => Some((ymd, s[13..]))
    else None
  }

  lemma {:induction false} OrderNumberRoundTrip(now: Timestamp, uuidHex: string)
    requires ValidTimestamp(now) && IsUuidHex(uuidHex)
    ensures ParseOrderNumber(OrderNumber(now, uuidHex)) == Some(((now.year, now.month, now.day), Upper(uuidHex[..6])))
  {
    var s := OrderNumber(now, uuidHex);
    assert s[4..12] == CompactDate(now);
    assert s[13..] == Upper(uuidHex[..6]);
    CompactDateRoundTrip(now);
  }

  /** Two order numbers coincide exactly when they were made on the same day from
      uuids whose first six hex digits agree; otherwise they differ. */
  lemma {:induction false} OrderNumberCollision(t1: Timestamp, h1: string, t2: Timestamp, h2: string)
    requires ValidTimestamp(t1) && IsUuidHex(h1) && ValidTimestamp(t2) && IsUuidHex(h2)
    ensures OrderNumber(t1, h1) == OrderNumber(t2, h2)
        <==> (t1.year, t1.month, t1.day) == (t2.year, t2.month, t2.day) && h1[..6] == h2[..6]
  {
    OrderNumberRoundTrip(t1, h1);
    OrderNumberRoundTrip(t2, h2);
    if OrderNumber(t1, h1) == OrderNumber(t2, h2) {
      var u1, u2 := Upper(h1[..6]), Upper(h2[..6]);
      assert u1 == u2;
      forall i | 0 <= i < 6 ensures h1[i] == h2[i] {
        assert u1[i] == UpperChar(h1[i]) && u2[i] == UpperChar(h2[i]);
      }
    }
  }

  // ---------------------------------------------------------------------------
  // Statement outcomes

  /** The first error `INSERT INTO customers` raises, in the order of the values. */
  function CustomerInsertError(name: string, phone: string, email: string): (r: Option<DbError>)
    ensures r == None <==> |name| <= 200 && |phone| <= 20 && |email| <= 200
  {
    if |name| > 200 then Some(StringTooLong("name"))
    else if |phone| > 20 then Some(StringTooLong("phone"))
    else if |email| > 200 then Some(StringTooLong("email"))
    else None
  }

  /** The first error `INSERT INTO orders` raises: value conversions in the order
      of the values, then the unique order number, then the customer reference. */
  function OrderInsertError(os: seq<OrderRow>, cs: seq<CustomerRow>, number: string, customerId: int,
                            total: Money, paymentMethod: string): (r: Option<DbError>)
    ensures r == None <==>
      && FitsInteger(customerId) && FitsDecimal(total) && |paymentMethod| <= 50 && |number| <= 50
      && (forall o :: o in os ==> o.orderNumber != number) && HasCustomer(cs, customerId)
  {
    if |number| > 50 then Some(StringTooLong("order_number"))
    else if !FitsInteger(customerId) then Some(IntegerOutOfRange("customer_id"))
    else if !FitsDecimal(total) then Some(NumericOverflow("total_amount"))
    else if |paymentMethod| > 50 then Some(StringTooLong("payment_method"))
    else if exists o :: o in os && o.orderNumber == number then Some(UniqueViolation("orders_order_number_key"))
    else if !HasCustomer(cs, customerId) then Some(ForeignKeyViolation("orders_customer_id_fkey"))
    else None
  }

  /** The first error `INSERT INTO order_items` raises for one line: value
      conversions, the generated subtotal, the quantity check, the menu reference. */
  function LineInsertError(ms: seq<MenuRow>, item: OrderItem): (r: Option<DbError>)
    ensures r == None <==>
      && FitsInteger(item.menuItemId) && FitsInteger(item.quantity)
      && FitsDecimal(item.priceAtOrder) && FitsDecimal(item.Subtotal())
      && item.quantity > 0 && HasMenuItem(ms, item.menuItemId)
  {
    if !FitsInteger(item.menuItemId) then Some(IntegerOutOfRange("menu_item_id"))
    else if !FitsInteger(item.quantity) then Some(IntegerOutOfRange("quantity"))
    else if !FitsDecimal(item.priceAtOrder) then Some(NumericOverflow("price_at_order"))
    else if !FitsDecimal(item.Subtotal()) then Some(NumericOverflow("subtotal"))
    else if item.quantity <= 0 then Some(CheckViolation("order_items_quantity_check"))
    else if !HasMenuItem(ms, item.menuItemId) then Some(ForeignKeyViolation("order_items_menu_item_id_fkey"))
    else None
  }

  /** The error of the first line, in list order, whose insert fails. */
  function FirstLineError(ms: seq<MenuRow>, items: seq<OrderItem>): Option<DbError> {
    if items == [] then None
    else match FirstLineError(ms, items[..|items| - 1])
      case Some(e) => Some(e)
      case None => LineInsertError(ms, items[|items| - 1])
  }

  lemma {:induction false} FirstLineErrorNone(ms: seq<MenuRow>, items: seq<OrderItem>)
    ensures FirstLineError(ms, items) == None <==> forall k :: 0 <= k < |items| ==> LineInsertError(ms, items[k]) == None
  {
    if items != [] {
      var init := items[..|items| - 1];
      FirstLineErrorNone(ms, init);
      assert forall k :: 0 <= k < |init| ==> init[k] == items[k];
    }
  }

  /** Once a prefix of the lines has failed, the rest are never reached. */
  lemma {:induction false} FirstLineErrorStable(ms: seq<MenuRow>, items: seq<OrderItem>, n: nat)
    requires n <= |items| && FirstLineError(ms, items[..n]).Some?
    ensures FirstLineError(ms, items) == FirstLineError(ms, items[..n])
    decreases |items|
  {
    if n < |items| {
      var init := items[..|items| - 1];
      assert init[..n] == items[..n];
      FirstLineErrorStable(ms, init, n);
    } else {
      assert items[..n] == items;
    }
  }

  /** Everything `create_order` checks before it commits, in the order it checks. */
  function CreateOrderError(os: seq<OrderRow>, cs: seq<CustomerRow>, ms: seq<MenuRow>, number: string,
                            customerId: int, items: seq<OrderItem>, paymentMethod: string): Option<DbError> {
    match OrderInsertError(os, cs, number, customerId, SumSubtotals(items), paymentMethod)
    case Some(e) => Some(e)
    case None => FirstLineError(ms, items)
  }

  /** The line rows stored for `items`, numbered from `firstId`, in list order. */
  function LinesFor(orderId: int, firstId: int, items: seq<OrderItem>): (r: seq<LineRow>)
    ensures |r| == |items|
  {
    seq(|items|, k requires 0 <= k < |items| =>
      LineRow(firstId + k, orderId, items[k].menuItemId, items[k].quantity, items[k].priceAtOrder))
  }

  lemma {:induction false} SumLinesFor(orderId: int, firstId: int, items: seq<OrderItem>)
    ensures SumLines(LinesFor(orderId, firstId, items)) == SumSubtotals(items)
  {
    if items != [] {
      var init := items[..|items| - 1];
      assert LinesFor(orderId, firstId, items)[..|items| - 1] == LinesFor(orderId, firstId, init);
      SumLinesFor(orderId, firstId, init);
    }
  }

  lemma {:induction false} LinesOfConcat(a: seq<LineRow>, b: seq<LineRow>, orderId: int)
    ensures LinesOf(a + b, orderId) == LinesOf(a, orderId) + LinesOf(b, orderId)
    decreases |b|
  {
    if b == [] {
      assert a + b == a;
    } else {
      assert (a + b)[..|a + b| - 1] == a + b[..|b| - 1];
      LinesOfConcat(a, b[..|b| - 1], orderId);
    }
  }

  lemma {:induction false} LinesOfOnly(ls: seq<LineRow>, orderId: int)
    requires forall k :: 0 <= k < |ls| ==> ls[k].orderId == orderId
    ensures LinesOf(ls, orderId) == ls
  {
    if ls != [] {
      LinesOfOnly(ls[..|ls| - 1], orderId);
      assert ls[..|ls| - 1] + [ls[|ls| - 1]] == ls;
    }
  }

  lemma {:induction false} LinesOfNone(ls: seq<LineRow>, orderId: int)
    requires forall k :: 0 <= k < |ls| ==> ls[k].orderId != orderId
    ensures LinesOf(ls, orderId) == []
  {
    if ls != [] {
      LinesOfNone(ls[..|ls| - 1], orderId);
    }
  }

  // ---------------------------------------------------------------------------
  // Row updates

  /** `UPDATE orders SET status = %s WHERE id = %s`. */
  function WithStatus(os: seq<OrderRow>, orderId: int, status: string): (r: seq<OrderRow>)
    ensures |r| == |os|
    ensures forall i :: 0 <= i < |os| ==> r[i] == (if os[i].id == orderId then os[i].(status := status) else os[i])
  {
    seq(|os|, i requires 0 <= i < |os| => if os[i].id == orderId then os[i].(status := status) else os[i])
  }

  /** `UPDATE menu_items SET is_available = %s, unavailability_reason = %s WHERE id = %s`. */
  function WithAvailability(ms: seq<MenuRow>, itemId: int, available: bool, reason: Option<string>): (r: seq<MenuRow>)
    ensures |r| == |ms|
    ensures forall i :: 0 <= i < |ms| ==>
      r[i] == (if ms[i].id == itemId then ms[i].(isAvailable := available, unavailabilityReason := reason) else ms[i])
  {
    seq(|ms|, i requires 0 <= i < |ms| =>
      if ms[i].id == itemId then ms[i].(isAvailable := available, unavailabilityReason := reason) else ms[i])
  }

  /** The first error `INSERT INTO menu_items` raises. */
  function MenuInsertError(cs: seq<CategoryRow>, name: string, price: Money, categoryId: int,
                           calories: Option<int>, cookingTime: Option<int>): (r: Option<DbError>)
    ensures r == None <==>
      && |name| <= 200 && FitsDecimal(price) && FitsInteger(categoryId)
      && FitsIntegerOpt(calories) && FitsIntegerOpt(cookingTime) && HasCategory(cs, categoryId)
  {
    if |name| > 200 then Some(StringTooLong("name"))
    else if !FitsDecimal(price) then Some(NumericOverflow("price"))
    else if !FitsInteger(categoryId) then Some(IntegerOutOfRange("category_id"))
    else if !FitsIntegerOpt(calories) then Some(IntegerOutOfRange("calories"))
    else if !FitsIntegerOpt(cookingTime) then Some(IntegerOutOfRange("cooking_time_minutes"))
    else if !HasCategory(cs, categoryId) then Some(ForeignKeyViolation("menu_items_category_id_fkey"))
    else None
  }

  function AsCustomer(c: CustomerRow): Customer {
    Customer(c.id, c.name, c.phone, c.email, c.address)
  }

  // ---------------------------------------------------------------------------
  // What each write keeps

  /** Finding a customer after one more row: the new row, if no old row has its phone. */
  lemma {:induction false} CustomerWithPhoneAppend(cs: seq<CustomerRow>, row: CustomerRow)
    requires CustomerWithPhone(cs, row.phone).None?
    ensures CustomerWithPhone(cs + [row], row.phone) == Some(row)
  {
    var r := CustomerWithPhone(cs + [row], row.phone);
    assert row in cs + [row];
    assert r.value in cs || r.value == row;
  }

  lemma {:induction false} OrderWithNumberAppend(os: seq<OrderRow>, o: OrderRow)
    requires forall x :: x in os ==> x.orderNumber != o.orderNumber
    ensures OrderWithNumber(os + [o], o.orderNumber) == Some(o)
  {
    var r := OrderWithNumber(os + [o], o.orderNumber);
    assert o in os + [o];
    assert r.value in os || r.value == o;
  }

  lemma {:induction false} MenuRowByIdAppend(ms: seq<MenuRow>, row: MenuRow)
    requires forall m :: m in ms ==> m.id != row.id
    ensures MenuRowById(ms + [row], row.id) == Some(row)
  {
    var r := MenuRowById(ms + [row], row.id);
    assert row in ms + [row];
    assert r.value in ms || r.value == row;
  }

  lemma {:induction false} CustomersOkAppend(cs: seq<CustomerRow>, next: int, row: CustomerRow)
    requires CustomersOk(cs, next) && CustomerRowOk(row, next + 1) && row.id == next
    requires forall c :: c in cs ==> c.phone != row.phone
    ensures CustomersOk(cs + [row], next + 1)
  {
    var s := cs + [row];
    forall i | 0 <= i < |s| ensures CustomerRowOk(s[i], next + 1) {
      if i < |cs| { assert s[i] == cs[i]; }
    }
    assert CustomerIds(s) == CustomerIds(cs) + [row.id];
    assert CustomerPhones(s) == CustomerPhones(cs) + [row.phone];
    forall i | 0 <= i < |cs| ensures CustomerIds(cs)[i] < row.id {
      assert CustomerRowOk(cs[i], next);
    }
    IncreasingAppend(CustomerIds(cs), row.id);
    forall i | 0 <= i < |cs| ensures CustomerPhones(cs)[i] != row.phone {
      assert cs[i] in cs;
    }
    DistinctAppend(CustomerPhones(cs), row.phone);
  }

  /** Orders keep their customer references when a customer is added. */
  lemma {:induction false} OrdersOkMoreCustomers(os: seq<OrderRow>, next: int, cs: seq<CustomerRow>, row: CustomerRow)
    requires OrdersOk(os, next, cs)
    ensures OrdersOk(os, next, cs + [row])
  {
    forall i | 0 <= i < |os| ensures OrderRowOk(os[i], next, cs + [row]) {
      assert OrderRowOk(os[i], next, cs);
      var c :| c in cs && c.id == os[i].customerId;
      assert c in cs + [row];
    }
  }

  lemma {:induction false} MenuOkAppend(ms: seq<MenuRow>, next: int, cs: seq<CategoryRow>, row: MenuRow)
    requires MenuOk(ms, next, cs) && MenuRowOk(row, next + 1, cs) && row.id == next
    ensures MenuOk(ms + [row], next + 1, cs)
  {
    var s := ms + [row];
    forall i | 0 <= i < |s| ensures MenuRowOk(s[i], next + 1, cs) {
      if i < |ms| { assert s[i] == ms[i] && MenuRowOk(ms[i], next, cs); }
    }
    assert MenuIds(s) == MenuIds(ms) + [row.id];
    forall i | 0 <= i < |ms| ensures MenuIds(ms)[i] < row.id {
      assert MenuRowOk(ms[i], next, cs);
    }
    IncreasingAppend(MenuIds(ms), row.id);
  }

  /** Lines keep their menu references when a dish is added. */
  lemma {:induction false} LinesOkMoreMenu(ls: seq<LineRow>, next: int, os: seq<OrderRow>, ms: seq<MenuRow>, row: MenuRow)
    requires LinesOk(ls, next, os, ms)
    ensures LinesOk(ls, next, os, ms + [row])
  {
    forall i | 0 <= i < |ls| ensures LineRowOk(ls[i], next, os, ms + [row]) {
      assert LineRowOk(ls[i], next, os, ms);
      var m :| m in ms && m.id == ls[i].menuItemId;
      assert m in ms + [row];
    }
  }

  lemma {:induction false} OrdersOkAppend(os: seq<OrderRow>, next: int, cs: seq<CustomerRow>, o: OrderRow)
    requires OrdersOk(os, next, cs) && OrderRowOk(o, next + 1, cs) && o.id == next
    requires forall x :: x in os ==> x.orderNumber != o.orderNumber
    ensures OrdersOk(os + [o], next + 1, cs)
  {
    var s := os + [o];
    forall i | 0 <= i < |s| ensures OrderRowOk(s[i], next + 1, cs) {
      if i < |os| { assert s[i] == os[i] && OrderRowOk(os[i], next, cs); }
    }
    assert OrderIds(s) == OrderIds(os) + [o.id];
    assert OrderNumbers(s) == OrderNumbers(os) + [o.orderNumber];
    forall i | 0 <= i < |os| ensures OrderIds(os)[i] < o.id {
      assert OrderRowOk(os[i], next, cs);
    }
    IncreasingAppend(OrderIds(os), o.id);
    forall i | 0 <= i < |os| ensures OrderNumbers(os)[i] != o.orderNumber {
      assert os[i] in os;
    }
    DistinctAppend(OrderNumbers(os), o.orderNumber);
  }

  /** The lines of a new order, appended after the existing lines. */
  lemma {:induction false} LinesOkAppend(ls: seq<LineRow>, next: int, os: seq<OrderRow>, ms: seq<MenuRow>,
                      o: OrderRow, items: seq<OrderItem>)
    requires LinesOk(ls, next, os, ms) && 1 <= next
    requires forall k :: 0 <= k < |items| ==> LineInsertError(ms, items[k]) == None
    ensures LinesOk(ls + LinesFor(o.id, next, items), next + |items|, os + [o], ms)
  {
    var nl := LinesFor(o.id, next, items);
    var s := ls + nl;
    var os' := os + [o];
    assert o in os';
    forall i | 0 <= i < |s| ensures LineRowOk(s[i], next + |items|, os', ms) {
      if i < |ls| {
        assert s[i] == ls[i] && LineRowOk(ls[i], next, os, ms);
        var p :| p in os && p.id == ls[i].orderId;
        assert p in os';
      } else {
        var k := i - |ls|;
        assert s[i] == nl[k] && nl[k].orderId == o.id;
        assert LineInsertError(ms, items[k]) == None;
        assert nl[k].Subtotal() == items[k].Subtotal();
        assert HasOrder(os', o.id);
      }
    }
    var ids := LineIds(s);
    forall i, j | 0 <= i < j < |s| ensures ids[i] < ids[j] {
      if i < |ls| {
        assert s[i] == ls[i] && LineRowOk(ls[i], next, os, ms);
        if j < |ls| {
          assert ids[i] == LineIds(ls)[i] && ids[j] == LineIds(ls)[j];
        } else {
          assert s[j] == nl[j - |ls|];
        }
      } else {
        assert s[i] == nl[i - |ls|] && s[j] == nl[j - |ls|];
      }
    }
  }

  /** Lines that all belong to existing orders belong to none with a larger id. */
  lemma {:induction false} NoLinesOfNewOrder(os: seq<OrderRow>, ls: seq<LineRow>, id: int)
    requires forall i :: 0 <= i < |os| ==> os[i].id < id
    requires forall i :: 0 <= i < |ls| ==> HasOrder(os, ls[i].orderId)
    ensures LinesOf(ls, id) == []
  {
    if ls != [] {
      NoLinesOfNewOrder(os, ls[..|ls| - 1], id);
      var p :| p in os && p.id == ls[|ls| - 1].orderId;
    }
  }

  /** Appending lines of an order younger than every existing one keeps each
      existing order's total. */
  lemma {:induction false} TotalsMatchMoreLines(os: seq<OrderRow>, ls: seq<LineRow>, nl: seq<LineRow>, id: int)
    requires TotalsMatch(os, ls)
    requires forall i :: 0 <= i < |os| ==> os[i].id < id
    requires forall k :: 0 <= k < |nl| ==> nl[k].orderId == id
    ensures TotalsMatch(os, ls + nl)
  {
    forall i | 0 <= i < |os| ensures os[i].totalAmount == SumLines(LinesOf(ls + nl, os[i].id)) {
      LinesOfConcat(ls, nl, os[i].id);
      LinesOfNone(nl, os[i].id);
      assert LinesOf(ls, os[i].id) + [] == LinesOf(ls, os[i].id);
    }
  }

  lemma {:induction false} TotalsMatchSnoc(os: seq<OrderRow>, ls: seq<LineRow>, o: OrderRow)
    requires TotalsMatch(os, ls)
    requires o.totalAmount == SumLines(LinesOf(ls, o.id))
    ensures TotalsMatch(os + [o], ls)
  {
  }

  /** The new order's total is the sum of its new lines, and the old orders keep
      exactly their old lines. */
  lemma {:induction false} TotalsMatchAppend(os: seq<OrderRow>, ls: seq<LineRow>, o: OrderRow, items: seq<OrderItem>, first: int)
    requires TotalsMatch(os, ls)
    requires forall i :: 0 <= i < |os| ==> os[i].id < o.id
    requires forall i :: 0 <= i < |ls| ==> HasOrder(os, ls[i].orderId)
    requires o.totalAmount == SumSubtotals(items)
    ensures TotalsMatch(os + [o], ls + LinesFor(o.id, first, items))
    ensures LinesOf(ls + LinesFor(o.id, first, items), o.id) == LinesFor(o.id, first, items)
  {
    var nl := LinesFor(o.id, first, items);
    NoLinesOfNewOrder(os, ls, o.id);
    LinesOfOnly(nl, o.id);
    LinesOfConcat(ls, nl, o.id);
    SumLinesFor(o.id, first, items);
    assert LinesOf(ls + nl, o.id) == [] + nl == nl;
    TotalsMatchMoreLines(os, ls, nl, o.id);
    TotalsMatchSnoc(os, ls + nl, o);
  }

  // ---------------------------------------------------------------------------
  // The committed writes

  /** A dish refers to a category, so a non-empty menu needs a category. */
  lemma {:induction false} MenuNeedsCategories(ms: seq<MenuRow>, next: int, cs: seq<CategoryRow>)
    requires MenuOk(ms, next, cs)
    ensures ms != [] ==> cs != []
  {
    if ms != [] {
      assert HasCategory(cs, ms[0].categoryId);
    }
  }

  /** An order line refers to a dish, so non-empty order lines need a menu. */
  lemma {:induction false} LinesNeedMenu(ls: seq<LineRow>, next: int, os: seq<OrderRow>, ms: seq<MenuRow>)
    requires LinesOk(ls, next, os, ms)
    ensures ls != [] ==> ms != []
  {
    if ls != [] {
      assert HasMenuItem(ms, ls[0].menuItemId);
    }
  }

  /** Appending a new pending order keeps the orders table within its constraints,
      and the order is then found by its number. */
  lemma {:induction false} OrdersAfterCommit(os: seq<OrderRow>, next: int, cs: seq<CustomerRow>, header: OrderRow)
    requires OrdersOk(os, next, cs) && header.id == next && 1 <= next && header.status == "pending"
    requires FitsDecimal(header.totalAmount) && |header.orderNumber| <= 50 && |header.paymentMethod| <= 50
    requires HasCustomer(cs, header.customerId)
    requires forall x :: x in os ==> x.orderNumber != header.orderNumber
    ensures OrdersOk(os + [header], next + 1, cs)
    ensures forall i :: 0 <= i < |os| ==> os[i].id < header.id
    ensures OrderWithNumber(os + [header], header.orderNumber) == Some(header)
  {
    forall i | 0 <= i < |os| ensures os[i].id < header.id {
      assert OrderRowOk(os[i], next, cs);
    }
    OrdersOkAppend(os, next, cs, header);
    OrderWithNumberAppend(os, header);
  }

  /** Appending the lines of a new order keeps the lines table within its
      constraints and every total equal to the sum of its lines. */
  lemma {:induction false} LinesAfterCommit(ls: seq<LineRow>, lnext: int, os: seq<OrderRow>, ms: seq<MenuRow>,
                                            header: OrderRow, items: seq<OrderItem>)
    requires LinesOk(ls, lnext, os, ms) && 1 <= lnext && TotalsMatch(os, ls)
    requires forall i :: 0 <= i < |os| ==> os[i].id < header.id
    requires header.totalAmount == SumSubtotals(items)
    requires forall k :: 0 <= k < |items| ==> LineInsertError(ms, items[k]) == None
    ensures LinesOk(ls + LinesFor(header.id, lnext, items), lnext + |items|, os + [header], ms)
    ensures TotalsMatch(os + [header], ls + LinesFor(header.id, lnext, items))
    ensures LinesOf(ls + LinesFor(header.id, lnext, items), header.id) == LinesFor(header.id, lnext, items)
  {
    LinesOkAppend(ls, lnext, os, ms, header, items);
    forall i | 0 <= i < |ls| ensures HasOrder(os, ls[i].orderId) {
      assert LineRowOk(ls[i], lnext, os, ms);
    }
    TotalsMatchAppend(os, ls, header, items, lnext);
  }

  /** Orders and lines that meet their constraints against the unchanged customers
      and menu, with matching totals, make a consistent database. */
  lemma {:induction false} OkWithNewOrders(t: Tables, os: seq<OrderRow>, next: int, ls: seq<LineRow>, lnext: int)
    requires t.Ok() && 1 <= next && 1 <= lnext
    requires OrdersOk(os, next, t.customers) && LinesOk(ls, lnext, os, t.menuItems) && TotalsMatch(os, ls)
    ensures t.(orders := os, nextOrderId := next, orderItems := ls, nextLineId := lnext).Ok()
  {
  }

  /** A status change keeps every order row within its constraints. */
  lemma {:induction false} OrdersOkWithStatus(os: seq<OrderRow>, next: int, cs: seq<CustomerRow>, orderId: int, status: string)
    requires OrdersOk(os, next, cs) && status in AllowedStatuses
    ensures OrdersOk(WithStatus(os, orderId, status), next, cs)
  {
    var r := WithStatus(os, orderId, status);
    forall i | 0 <= i < |r| ensures OrderRowOk(r[i], next, cs) {
      assert OrderRowOk(os[i], next, cs);
    }
    assert OrderIds(r) == OrderIds(os);
    assert OrderNumbers(r) == OrderNumbers(os);
  }

  /** ... keeps every line's order reference ... */
  lemma {:induction false} LinesOkWithStatus(ls: seq<LineRow>, lnext: int, os: seq<OrderRow>, ms: seq<MenuRow>, orderId: int, status: string)
    requires LinesOk(ls, lnext, os, ms)
    ensures LinesOk(ls, lnext, WithStatus(os, orderId, status), ms)
  {
    var r := WithStatus(os, orderId, status);
    forall i | 0 <= i < |ls| ensures LineRowOk(ls[i], lnext, r, ms) {
      assert LineRowOk(ls[i], lnext, os, ms);
      var p :| p in os && p.id == ls[i].orderId;
      var j :| 0 <= j < |os| && os[j] == p;
      assert r[j] in r;
    }
  }

  /** ... and every order's total. */
  lemma {:induction false} TotalsMatchWithStatus(os: seq<OrderRow>, ls: seq<LineRow>, orderId: int, status: string)
    requires TotalsMatch(os, ls)
    ensures TotalsMatch(WithStatus(os, orderId, status), ls)
  {
    var r := WithStatus(os, orderId, status);
    forall i | 0 <= i < |r| ensures r[i].totalAmount == SumLines(LinesOf(ls, r[i].id)) {
      assert r[i].id == os[i].id && r[i].totalAmount == os[i].totalAmount;
    }
  }

  lemma {:induction false} WithAvailabilityKeepsMenu(ms: seq<MenuRow>, next: int, cs: seq<CategoryRow>, ls: seq<LineRow>,
                                  lnext: int, os: seq<OrderRow>, itemId: int, available: bool, reason: Option<string>)
    requires MenuOk(ms, next, cs) && LinesOk(ls, lnext, os, ms)
    requires available ==> reason == None
    ensures MenuOk(WithAvailability(ms, itemId, available, reason), next, cs)
    ensures LinesOk(ls, lnext, os, WithAvailability(ms, itemId, available, reason))
  {
    var r := WithAvailability(ms, itemId, available, reason);
    forall i | 0 <= i < |r| ensures MenuRowOk(r[i], next, cs) {
      assert MenuRowOk(ms[i], next, cs);
    }
    assert MenuIds(r) == MenuIds(ms);
    forall i | 0 <= i < |ls| ensures LineRowOk(ls[i], lnext, os, r) {
      assert LineRowOk(ls[i], lnext, os, ms);
      var p :| p in ms && p.id == ls[i].menuItemId;
      var j :| 0 <= j < |ms| && ms[j] == p;
      assert r[j] in r;
    }
  }

  /** After the update the dish with that id shows the new availability and reason. */
  lemma {:induction false} MenuRowByIdUpdated(ms: seq<MenuRow>, next: int, cs: seq<CategoryRow>, itemId: int, available: bool,
                           reason: Option<string>)
    requires MenuOk(ms, next, cs) && HasMenuItem(ms, itemId)
    ensures var r := MenuRowById(WithAvailability(ms, itemId, available, reason), itemId);
      r.Some? && r.value.isAvailable == available && r.value.unavailabilityReason == reason
      && HasCategory(cs, r.value.categoryId)
  {
    var w := WithAvailability(ms, itemId, available, reason);
    var p :| p in ms && p.id == itemId;
    var i :| 0 <= i < |ms| && ms[i] == p;
    assert w[i] in w;
    var r := MenuRowById(w, itemId);
    var j :| 0 <= j < |w| && w[j] == r.value;
    assert MenuRowOk(ms[j], next, cs);
  }

  /** Seeding succeeds exactly when the category sequence starts at 1, because the
      seed menu names its categories by number. */
  lemma {:induction false} SeedFitsExactly(first: int)
    ensures (forall k :: 0 <= k < |SeedMenuData| ==> HasCategory(SeededCategories(first), SeedMenuData[k].3))
        <==> first == 1
  {
    var cs := SeededCategories(first);
    if first == 1 {
      SeedFitsFreshSequence();
    } else if first > 1 {
      forall c | c in cs ensures c.id != SeedMenuData[0].3 {
        var a :| 0 <= a < |cs| && cs[a] == c;
      }
      assert !HasCategory(cs, SeedMenuData[0].3);
    } else {
      forall c | c in cs ensures c.id != SeedMenuData[6].3 {
        var a :| 0 <= a < |cs| && cs[a] == c;
      }
      assert !HasCategory(cs, SeedMenuData[6].3);
    }
  }

  lemma {:induction false} SeededMenuOk(first: int, cs: seq<CategoryRow>)
    requires cs == SeededCategories(1) && 1 <= first
    ensures MenuOk(SeededMenu(first), first + |SeedMenuData|, cs)
  {
    SeedFitsFreshSequence();
    var s := SeededMenu(first);
    forall i | 0 <= i < |s| ensures MenuRowOk(s[i], first + |SeedMenuData|, cs) {
      assert s[i] == SeedMenuRow(first + i, i);
      assert HasCategory(cs, SeedMenuData[i].3);
    }
  }
}
