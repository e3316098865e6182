/** The read queries of the gateway (database.py), as functions of the tables: the
    category and menu listings, one order with its lines, and the statistics. */
module Queries {
  import opened Wrappers
  import opened Text
  import opened Aggregate
  import opened Models
  import opened Schema

  // ---------------------------------------------------------------------------
  // Reads: categories and menu

  function AsCategory(c: CategoryRow): Category { Category(c.id, c.name, c.description) }

  predicate ByName(a: Category, b: Category) { StrLe(a.name, b.name) }

  lemma {:induction false} ByNameTotal()
    ensures Total(ByName)
  {
    forall a: Category, b: Category ensures ByName(a, b) || ByName(b, a) {
      StrLeTotal(a.name, b.name);
    }
  }

  /** `SELECT id, name, description FROM categories ORDER BY name`. */
  function GetAllCategories(cs: seq<CategoryRow>): (r: seq<Category>)
    ensures SortedBy(r, ByName)
    ensures multiset(r) == multiset(seq(|cs|, i requires 0 <= i < |cs| => AsCategory(cs[i])))
  {
    ByNameTotal();
    Sort(seq(|cs|, i requires 0 <= i < |cs| => AsCategory(cs[i])), ByName)
  }

  /** The menu item built from a row and the name of its category. */
  function AsMenuItem(m: MenuRow, categoryName: string): MenuItem {
    MenuItem(m.id, m.name, m.description, m.price, m.categoryId, categoryName, m.isAvailable,
             m.calories, m.cookingTime, m.unavailabilityReason)
  }

  /** `FROM menu_items m JOIN categories c ON m.category_id = c.id`, in table order:
      a dish whose category is missing is dropped. */
  function JoinMenu(ms: seq<MenuRow>, cs: seq<CategoryRow>): (r: seq<MenuItem>)
    ensures |r| <= |ms|
    ensures forall x :: x in r ==> exists m, c :: m in ms && c in cs && c.id == m.categoryId && x == AsMenuItem(m, c.name)
    ensures forall m :: m in ms && HasCategory(cs, m.categoryId) ==> AsMenuItem(m, CategoryById(cs, m.categoryId).value.name) in r
  {
    if ms == [] then []
    else
      var init, m := ms[..|ms| - 1], ms[|ms| - 1];
      var r := JoinMenu(init, cs) +
        (match CategoryById(cs, m.categoryId)
         case None => []
         case Some(c) => [AsMenuItem(m, c.name)]);
      assert forall x :: x in ms && x != m ==> x in init by {
        forall x | x in ms && x != m ensures x in init {
          var k :| 0 <= k < |ms| && ms[k] == x;
          assert init[k] == x;
        }
      }
      r
  }

  /** With the category reference intact, every dish takes part in the join. */
  lemma {:induction false} JoinMenuComplete(ms: seq<MenuRow>, cs: seq<CategoryRow>)
    requires forall m :: m in ms ==> HasCategory(cs, m.categoryId)
    ensures |JoinMenu(ms, cs)| == |ms|
  {
    if ms != [] {
      var m := ms[|ms| - 1];
      assert m in ms;
      var c :| c in cs && c.id == m.categoryId;
      JoinMenuComplete(ms[..|ms| - 1], cs);
    }
  }

  /** The WHERE clause of `get_menu_items`. `if category_id:` is Python truthiness, so
      both `None` and 0 mean every category. */
  predicate Selected(m: MenuItem, categoryId: Option<int>, availableOnly: bool) {
    && (!availableOnly || m.isAvailable)
    && (categoryId.None? || categoryId.value == 0 || m.categoryId == categoryId.value)
  }

  function SelectMenu(items: seq<MenuItem>, categoryId: Option<int>, availableOnly: bool): (r: seq<MenuItem>)
    ensures forall m :: m in r <==> m in items && Selected(m, categoryId, availableOnly)
  {
    Filter(items, (m: MenuItem) => Selected(m, categoryId, availableOnly))
  }

  /** `ORDER BY c.name, m.name`. */
  predicate ByCategoryThenName(a: MenuItem, b: MenuItem) {
    PairLe((a.categoryName, a.name), (b.categoryName, b.name))
  }

  lemma {:induction false} ByCategoryThenNameTotal()
    ensures Total(ByCategoryThenName)
  {
    forall a: MenuItem, b: MenuItem ensures ByCategoryThenName(a, b) || ByCategoryThenName(b, a) {
      PairLeTotal((a.categoryName, a.name), (b.categoryName, b.name));
    }
  }

  /** `get_menu_items` with the row binding corrected (see `GetMenuItemsAsWritten`):
      the joined dishes that pass the filters, ordered by category name then name. */
  function GetMenuItems(ms: seq<MenuRow>, cs: seq<CategoryRow>, categoryId: Option<int>, availableOnly: bool)
    : (r: seq<MenuItem>)
    ensures SortedBy(r, ByCategoryThenName)
    ensures multiset(r) == multiset(SelectMenu(JoinMenu(ms, cs), categoryId, availableOnly))
    ensures forall m :: m in r <==> m in JoinMenu(ms, cs) && Selected(m, categoryId, availableOnly)
  {
    ByCategoryThenNameTotal();
    var r := Sort(SelectMenu(JoinMenu(ms, cs), categoryId, availableOnly), ByCategoryThenName);
    assert forall m :: m in r <==> m in multiset(r);
    r
  }

  /** `get_menu_item_by_id` with the row binding corrected: the dish with this id,
      joined with its category; `None` when there is none. */
  function GetMenuItemById(ms: seq<MenuRow>, cs: seq<CategoryRow>, id: int): (r: Option<MenuItem>)
    ensures r.Some? ==> r.value.id == id && exists m, c :: m in ms && c in cs && c.id == m.categoryId && r.value == AsMenuItem(m, c.name)
    ensures r.None? <==> forall m :: m in ms && m.id == id ==> !HasCategory(cs, m.categoryId) || MenuRowById(ms, id) != Some(m)
  {
    match MenuRowById(ms, id)
    case None => None
    case Some(m) =>
      match CategoryById(cs, m.categoryId)
      case None => None
      case Some(c) => Some(AsMenuItem(m, c.name))
  }

  // ---------------------------------------------------------------------------
  // Reads: how the menu query's rows become MenuItem objects

  /** The columns the menu queries select, in order. */
  const MenuColumns: seq<string> :=
    ["id", "name", "description", "price", "category_id", "is_available",
     "unavailability_reason", "calories", "cooking_time_minutes", "category_name"]

  /** Keyword and column index, as the menu reads pass them to MenuItem. */
  const MenuBindingAsWritten: seq<(string, nat)> :=
    [("id", 0), ("name", 1), ("description", 2), ("price", 3), ("category_id", 4),
     ("category_name", 8), ("is_available", 5), ("unavailability_reason", 6),
     ("calories", 7), ("cooking_time", 8)]

  /** The binding the queries evidently intend: `category_name` from column 9. */
  const MenuBinding: seq<(string, nat)> :=
    [("id", 0), ("name", 1), ("description", 2), ("price", 3), ("category_id", 4),
     ("category_name", 9), ("is_available", 5), ("unavailability_reason", 6),
     ("calories", 7), ("cooking_time", 8)]

  function Keywords(b: seq<(string, nat)>): (r: seq<string>)
    ensures |r| == |b| && forall i :: 0 <= i < |b| ==> r[i] == b[i].0
  {
    seq(|b|, i requires 0 <= i < |b| => b[i].0)
  }

  /** The column indices a binding reads. */
  function Columns(b: seq<(string, nat)>): (r: seq<nat>)
    ensures |r| == |b| && forall i :: 0 <= i < |b| ==> r[i] == b[i].1
  {
    seq(|b|, i requires 0 <= i < |b| => b[i].1)
  }

  /** The column a field is meant to come from. */
  function ColumnFor(field: string): string {
    if field == "cooking_time" then "cooking_time_minutes" else field
  }

  /** Every keyword reads the column of its own name. */
  predicate BindsByName(b: seq<(string, nat)>) {
    forall i :: 0 <= i < |b| ==> b[i].1 < |MenuColumns| && MenuColumns[b[i].1] == ColumnFor(b[i].0)
  }

  /** As written, MenuItem rejects the `unavailability_reason` keyword (a TypeError),
      and `category_name` would read the cooking-time column. */
  lemma {:induction false} MenuBindingAsWrittenFails()
    ensures UnexpectedKeyword(MenuItemFieldsAsWritten, Keywords(MenuBindingAsWritten)) == Some("unavailability_reason")
    ensures !BindsByName(MenuBindingAsWritten)
  {
    MenuBindingAsWrittenRejected();
    assert MenuBindingAsWritten[5] == ("category_name", 8);
    assert |MenuColumns[8]| == 20 && |ColumnFor("category_name")| == 13;
  }

  lemma {:induction false} MenuBindingAsWrittenRejected()
    ensures UnexpectedKeyword(MenuItemFieldsAsWritten, Keywords(MenuBindingAsWritten)) == Some("unavailability_reason")
  {
    var ks := Keywords(MenuBindingAsWritten);
    assert ks[..7] == ["id", "name", "description", "price", "category_id", "category_name", "is_available"];
    assert forall k :: k in ks[..7] ==> k in MenuItemFieldsAsWritten;
    assert ks[7] == "unavailability_reason";
    assert forall f :: f in MenuItemFieldsAsWritten ==> |f| < 21;
    assert |ks[7]| == 21;
    UnexpectedKeywordSkips(MenuItemFieldsAsWritten, ks, 7);
  }

  /** Keywords that are all declared are skipped: the check reports the first
      undeclared one after them. */
  lemma {:induction false} UnexpectedKeywordSkips(declared: seq<string>, ks: seq<string>, n: nat)
    requires n < |ks| && ks[n] !in declared
    requires forall k :: k in ks[..n] ==> k in declared
    ensures UnexpectedKeyword(declared, ks) == Some(ks[n])
  {
    if n > 0 {
      assert ks[0] in ks[..n];
      assert ks[1..][..n - 1] == ks[1..n];
      forall k | k in ks[1..][..n - 1] ensures k in declared {
        assert k in ks[..n];
      }
      UnexpectedKeywordSkips(declared, ks[1..], n - 1);
    }
  }

  /** The corrected binding: every keyword is a declared field, every keyword reads
      its own column, and every selected column is read. */
  lemma {:induction false} MenuBindingCorrect()
    ensures UnexpectedKeyword(MenuItemFields, Keywords(MenuBinding)) == None
    ensures BindsByName(MenuBinding)
    ensures forall j :: 0 <= j < |MenuColumns| ==> j in Columns(MenuBinding)
  {
    MenuBindingDeclared();
    MenuBindingByName();
    MenuBindingReadsAll();
  }

  lemma {:induction false} MenuBindingDeclared()
    ensures UnexpectedKeyword(MenuItemFields, Keywords(MenuBinding)) == None
  {
    var ks := Keywords(MenuBinding);
    assert ks == MenuItemFields[..5] + [MenuItemFields[5], MenuItemFields[6], MenuItemFields[9],
                                        MenuItemFields[7], MenuItemFields[8]];
  }

  lemma {:induction false} MenuBindingByName()
    ensures BindsByName(MenuBinding)
  {
  }

  lemma {:induction false} MenuBindingReadsAll()
    ensures forall j :: 0 <= j < |MenuColumns| ==> j in Columns(MenuBinding)
  {
    assert Columns(MenuBinding) == [0, 1, 2, 3, 4, 9, 5, 6, 7, 8];
  }

  /** `get_menu_items` as written: building the first MenuItem raises TypeError,
      which is caught, so the result is always empty. */
  function GetMenuItemsAsWritten(ms: seq<MenuRow>, cs: seq<CategoryRow>, categoryId: Option<int>,
                                 availableOnly: bool): (r: seq<MenuItem>)
    ensures r == []
  {
    MenuBindingAsWrittenFails();
    var rows := SelectMenu(JoinMenu(ms, cs), categoryId, availableOnly);
    if rows == [] then []
    else if UnexpectedKeyword(MenuItemFieldsAsWritten, Keywords(MenuBindingAsWritten)).Some? then []
    else GetMenuItems(ms, cs, categoryId, availableOnly)
  }

  /** `get_menu_item_by_id` as written: a found row raises TypeError, which is
      caught, so the result is always `None`. */
  function GetMenuItemByIdAsWritten(ms: seq<MenuRow>, cs: seq<CategoryRow>, id: int): (r: Option<MenuItem>)
    ensures r == None
  {
    MenuBindingAsWrittenFails();
    if GetMenuItemById(ms, cs, id).None? then None
    else if UnexpectedKeyword(MenuItemFieldsAsWritten, Keywords(MenuBindingAsWritten)).Some? then None
    else GetMenuItemById(ms, cs, id)
  }

  /** On the seeded database the first dish exists, yet the as-written read returns
      nothing while the corrected one finds it. */
  lemma {:induction false} SeededDishHidden()
    ensures GetMenuItemById(SeededMenu(1), SeededCategories(1), 1).Some?
    ensures GetMenuItemByIdAsWritten(SeededMenu(1), SeededCategories(1), 1) == None
  {
    var ms, cs := SeededMenu(1), SeededCategories(1);
    SeededMenuOk(1, cs);
    assert ms[0] in ms;
    var m := MenuRowById(ms, 1).value;
    var k :| 0 <= k < |ms| && ms[k] == m;
    assert MenuRowOk(ms[k], 1 + |SeedMenuData|, cs);
  }

  /** ... and the as-written listing is empty while the corrected one lists all
      eight seeded dishes. */
  lemma {:induction false} SeededMenuHidden()
    ensures |GetMenuItems(SeededMenu(1), SeededCategories(1), None, false)| == |SeedMenuData|
    ensures forall m :: m in SeededMenu(1) ==>
      && HasCategory(SeededCategories(1), m.categoryId)
      && AsMenuItem(m, CategoryById(SeededCategories(1), m.categoryId).value.name)
           in GetMenuItems(SeededMenu(1), SeededCategories(1), None, false)
    ensures GetMenuItemsAsWritten(SeededMenu(1), SeededCategories(1), None, false) == []
  {
    var ms, cs := SeededMenu(1), SeededCategories(1);
    SeededMenuOk(1, cs);
    forall m | m in ms ensures HasCategory(cs, m.categoryId) {
      var k :| 0 <= k < |ms| && ms[k] == m;
      assert MenuRowOk(ms[k], 1 + |SeedMenuData|, cs);
    }
    JoinMenuComplete(ms, cs);
    SelectAll(JoinMenu(ms, cs));
    assert |multiset(GetMenuItems(ms, cs, None, false))| == |multiset(JoinMenu(ms, cs))|;
  }

  lemma {:induction false} SelectAll(items: seq<MenuItem>)
    ensures SelectMenu(items, None, false) == items
  {
    FilterAll(items, (m: MenuItem) => Selected(m, None, false));
  }

  // ---------------------------------------------------------------------------
  // Reads: one order

  /** One line of a fetched order. */
  datatype LineView = LineView(itemId: int, itemName: string, quantity: int, price: Money, subtotal: Money)

  datatype OrderDetails = OrderDetails(
    orderId: int, orderNumber: string, totalAmount: Money, status: string, createdAt: Timestamp,
    customerName: string, customerPhone: string, customerEmail: string,
    deliveryAddress: string, notes: string, paymentMethod: string, items: seq<LineView>)

  /** `FROM order_items oi JOIN menu_items m ON oi.menu_item_id = m.id`. */
  function LineViews(ls: seq<LineRow>, ms: seq<MenuRow>): (r: seq<LineView>)
    ensures |r| <= |ls|
  {
    if ls == [] then []
    else
      var l := ls[|ls| - 1];
      LineViews(ls[..|ls| - 1], ms) +
        (match MenuRowById(ms, l.menuItemId)
         case None => []
         case Some(m) => [LineView(l.menuItemId, m.name, l.quantity, l.priceAtOrder, l.Subtotal())])
  }

  /** The fetched lines repeat the draft's dishes, quantities, prices and subtotals. */
  predicate ViewsMatch(vs: seq<LineView>, items: seq<OrderItem>) {
    && |vs| == |items|
    && forall k :: 0 <= k < |vs| ==>
         && vs[k].itemId == items[k].menuItemId && vs[k].quantity == items[k].quantity
         && vs[k].price == items[k].priceAtOrder && vs[k].subtotal == items[k].Subtotal()
  }

  /** The fetched details show this order row and its lines. */
  predicate DetailsOf(d: OrderDetails, o: OrderRow, ls: seq<LineRow>, ms: seq<MenuRow>) {
    && d.orderId == o.id && d.orderNumber == o.orderNumber
    && d.totalAmount == o.totalAmount && d.status == o.status && d.createdAt == o.createdAt
    && d.deliveryAddress == o.deliveryAddress && d.notes == o.notes && d.paymentMethod == o.paymentMethod
    && d.items == LineViews(LinesOf(ls, o.id), ms)
  }

  /** `get_order_by_number`: the order joined with its customer, with its lines in id
      order; `None` when no order has the number. */
  function GetOrderByNumber(os: seq<OrderRow>, cs: seq<CustomerRow>, ls: seq<LineRow>, ms: seq<MenuRow>,
                            number: string): (r: Option<OrderDetails>)
    ensures r.Some? ==> r.value.orderNumber == number
    ensures (forall o :: o in os ==> o.orderNumber != number) ==> r.None?
    ensures r.Some? ==> exists o :: o in os && o.orderNumber == number && DetailsOf(r.value, o, ls, ms)
  {
    match OrderWithNumber(os, number)
    case None => None
    case Some(o) =>
      match CustomerById(cs, o.customerId)
      case None => None
      case Some(c) =>
        Some(OrderDetails(o.id, o.orderNumber, o.totalAmount, o.status, o.createdAt,
                          c.name, c.phone, c.email, o.deliveryAddress, o.notes, o.paymentMethod,
                          LineViews(LinesOf(ls, o.id), ms)))
  }

  /** With every menu reference intact, the fetched lines are the stored lines. */
  lemma {:induction false} LineViewsComplete(ls: seq<LineRow>, ms: seq<MenuRow>, orderId: int, firstId: int,
                                             items: seq<OrderItem>)
    requires ls == LinesFor(orderId, firstId, items)
    requires forall k :: 0 <= k < |items| ==> HasMenuItem(ms, items[k].menuItemId)
    ensures ViewsMatch(LineViews(ls, ms), items)
  {
    if items != [] {
      var n := |items| - 1;
      assert ls[..n] == LinesFor(orderId, firstId, items[..n]);
      LineViewsComplete(ls[..n], ms, orderId, firstId, items[..n]);
      var m :| m in ms && m.id == items[n].menuItemId;
      var found := MenuRowById(ms, items[n].menuItemId);
      assert found.Some?;
    }
  }

  /** An order that is found by its number, whose customer exists and whose lines are
      those of `items` with every dish present, reads back with its own id, status and
      total and exactly those lines. */
  lemma {:induction false} OrderReadBack(os: seq<OrderRow>, cs: seq<CustomerRow>, ls: seq<LineRow>, ms: seq<MenuRow>,
                      o: OrderRow, firstId: int, items: seq<OrderItem>)
    requires OrderWithNumber(os, o.orderNumber) == Some(o) && HasCustomer(cs, o.customerId)
    requires LinesOf(ls, o.id) == LinesFor(o.id, firstId, items)
    requires forall k :: 0 <= k < |items| ==> HasMenuItem(ms, items[k].menuItemId)
    ensures var d := GetOrderByNumber(os, cs, ls, ms, o.orderNumber);
      && d.Some? && d.value.orderId == o.id && d.value.status == o.status
      && d.value.totalAmount == o.totalAmount
      && ViewsMatch(d.value.items, items)
  {
    LineViewsComplete(LinesFor(o.id, firstId, items), ms, o.id, firstId, items);
  }

  // ---------------------------------------------------------------------------
  // Reads: statistics

  datatype Stats = Stats(totalOrders: int, totalRevenue: Money, uniqueCustomers: int, popularItems: seq<Entry>)

  predicate TimestampLe(a: Timestamp, b: Timestamp) {
    (a.year, a.month, a.day, a.hour, a.minute, a.second) == (b.year, b.month, b.day, b.hour, b.minute, b.second)
    || a.year < b.year
    || (a.year == b.year && (a.month < b.month
    || (a.month == b.month && (a.day < b.day
    || (a.day == b.day && (a.hour < b.hour
    || (a.hour == b.hour && (a.minute < b.minute
    || (a.minute == b.minute && a.second < b.second)))))))))
  }

  /** `WHERE status != 'cancelled'` and the optional date bounds. */
  predicate Counted(o: OrderRow, start: Option<Timestamp>, end: Option<Timestamp>) {
    && o.status != "cancelled"
    && (start.None? || TimestampLe(start.value, o.createdAt))
    && (end.None? || TimestampLe(o.createdAt, end.value))
  }

  function CountedOrders(os: seq<OrderRow>, start: Option<Timestamp>, end: Option<Timestamp>): (r: seq<OrderRow>)
    ensures forall o :: o in r <==> o in os && Counted(o, start, end)
  {
    Filter(os, (o: OrderRow) => Counted(o, start, end))
  }

  function SumTotals(os: seq<OrderRow>): Money {
    if os == [] then 0 else SumTotals(os[..|os| - 1]) + os[|os| - 1].totalAmount
  }

  function CustomersOf(os: seq<OrderRow>): set<int> {
    set o | o in os :: o.customerId
  }

  /** (dish name, quantity) for every line of a non-cancelled order, in line order:
      the rows the popular-items query groups. */
  function SoldItems(os: seq<OrderRow>, ls: seq<LineRow>, ms: seq<MenuRow>): seq<Entry> {
    if ls == [] then []
    else
      var l := ls[|ls| - 1];
      SoldItems(os, ls[..|ls| - 1], ms) +
        (match (OrderById(os, l.orderId), MenuRowById(ms, l.menuItemId))
         case (Some(o), Some(m)) => if o.status != "cancelled" then [(m.name, l.quantity)] else []
         case _ => [])
  }

  /** `get_order_statistics`: count, revenue and distinct customers of the counted
      orders, and the ten dishes sold in the largest quantities. The date bounds
      apply to the first three only. When the queries fail everything is zero. */
  function GetOrderStatistics(os: seq<OrderRow>, ls: seq<LineRow>, ms: seq<MenuRow>,
                              start: Option<Timestamp>, end: Option<Timestamp>, storageFailed: bool): (r: Stats)
    ensures storageFailed ==> r == Stats(0, 0, 0, [])
    ensures !storageFailed ==>
      && r.totalOrders == |CountedOrders(os, start, end)|
      && r.totalRevenue == SumTotals(CountedOrders(os, start, end))
      && r.uniqueCustomers == |CustomersOf(CountedOrders(os, start, end))|
    ensures |r.popularItems| <= 10
    ensures SortedBy(r.popularItems, ByWeightDesc())
    ensures DistinctKeys(r.popularItems)
    ensures forall e :: e in r.popularItems ==> e.0 in KeySet(SoldItems(os, ls, ms))
    ensures forall e :: e in r.popularItems ==> e.1 == Weight(SoldItems(os, ls, ms), e.0)
    ensures !storageFailed ==>
      |r.popularItems| == if |KeySet(SoldItems(os, ls, ms))| < 10 then |KeySet(SoldItems(os, ls, ms))| else 10
  {
    if storageFailed then Stats(0, 0, 0, [])
    else
      var counted := CountedOrders(os, start, end);
      var sold := SoldItems(os, ls, ms);
      var t := Tally(sold);
      TallyCorrect(sold);
      var top := TopN(t, 10);
      TopNOfDistinct(t, 10);
      DistinctKeysCount(t);
      assert forall e :: e in top ==> e.0 in KeySet(t) by {
        forall e | e in top ensures e.0 in KeySet(t) {
          var a :| 0 <= a < |t| && t[a] == e;
        }
      }
      Stats(|counted|, SumTotals(counted), |CustomersOf(counted)|, top)
  }

  /** A dish that sold in the period but is left out of the popular list sold no more
      units than any dish the list keeps. */
  lemma {:induction false} StatisticsPopularHeaviest(os: seq<OrderRow>, ls: seq<LineRow>, ms: seq<MenuRow>,
                                                     start: Option<Timestamp>, end: Option<Timestamp>,
                                                     left: string, kept: string)
    requires left in KeySet(SoldItems(os, ls, ms))
    requires left !in KeySet(GetOrderStatistics(os, ls, ms, start, end, false).popularItems)
    requires kept in KeySet(GetOrderStatistics(os, ls, ms, start, end, false).popularItems)
    ensures Weight(SoldItems(os, ls, ms), left) <= Weight(SoldItems(os, ls, ms), kept)
  {
    var sold := SoldItems(os, ls, ms);
    var t := Tally(sold);
    TallyCorrect(sold);
    TopNOfDistinct(t, 10);
    var popular := TopN(t, 10);
    assert GetOrderStatistics(os, ls, ms, start, end, false).popularItems == popular;
    var a :| 0 <= a < |t| && t[a].0 == left;
    var b :| 0 <= b < |popular| && popular[b].0 == kept;
    forall c | 0 <= c < |popular| ensures popular[c] != t[a] {
      assert popular[c].0 in KeySet(popular);
    }
    TopNKeepsHeaviest(t, 10, t[a], popular[b]);
    WeightOfDistinct(t, a);
  }
}
