/** The desktop front end (`RestaurantGUI`): the cached menu with its category and
    search filters, the cart (a list of order lines mirrored by the rows of the cart
    table and a running total), the checkout button, and the administrator's order
    status change. Widget values (the selected row, the typed quantity, the entries)
    arrive as parameters; dialogs and the layout are not modelled. */
module Gui {
  import opened Wrappers
  import opened Text
  import opened Aggregate
  import opened Models
  import opened Schema
  import opened Queries
  import opened Gateway

  /** The category choice that switches the category filter off. */
  const AllCategories: string := "Все"

  /** Shown for an unavailable dish that has no reason stored. */
  const NoReasonGiven: string := "не указана"

  // ---------------------------------------------------------------------------
  // Menu filters

  predicate InCategory(category: string, m: MenuItem) {
    category == AllCategories || m.categoryName == category
  }

  /** `search_term in name.lower() or search_term in description.lower()`, with the
      term already lowered. */
  predicate MatchesTerm(term: string, m: MenuItem) {
    Contains(term, Lower(m.name)) || Contains(term, Lower(m.description))
  }

  /** The list both `filter_menu_by_category` and `search_menu` put into the menu cache:
      the category filter, then the lowered search term when it is not empty. */
  function MenuView(all: seq<MenuItem>, category: string, search: string): (r: seq<MenuItem>)
    ensures |r| <= |all|
    ensures forall m :: m in r <==>
      m in all && InCategory(category, m) && (Lower(search) == [] || MatchesTerm(Lower(search), m))
  {
    var base := if category == AllCategories then all else Filter(all, m => InCategory(category, m));
    if Lower(search) == [] then base else Filter(base, m => MatchesTerm(Lower(search), m))
  }

  /** With no category and no search term the whole menu is shown, in its order. */
  lemma {:induction false} MenuViewUnfiltered(all: seq<MenuItem>)
    ensures MenuView(all, AllCategories, "") == all
  {
    assert Lower("") == [];
  }

  /** A dish of the chosen category whose lowered name holds the lowered term at some
      position is listed: the search misses no match. */
  lemma {:induction false} SearchFindsName(all: seq<MenuItem>, category: string, search: string, m: MenuItem, k: nat)
    requires m in all && InCategory(category, m)
    requires k + |Lower(search)| <= |Lower(m.name)| && Lower(m.name)[k..k + |Lower(search)|] == Lower(search)
    ensures m in MenuView(all, category, search)
  {
    ContainsAt(Lower(search), Lower(m.name), k);
  }

  // ---------------------------------------------------------------------------
  // Cart rows

  /** A row of the cart table: name, quantity, unit price and subtotal. */
  datatype CartRow = CartRow(name: string, quantity: int, price: Money, subtotal: Money)

  function RowOf(item: OrderItem): CartRow {
    CartRow(item.menuItemName, item.quantity, item.priceAtOrder, item.Subtotal())
  }

  /** The cart table shows the order lines one row each, in the same order. */
  predicate RowsMatch(rows: seq<CartRow>, items: seq<OrderItem>) {
    |rows| == |items| && forall k :: 0 <= k < |rows| ==> rows[k] == RowOf(items[k])
  }

  /** `unavailability_reason or "не указана"`. */
  function ReasonText(m: MenuItem): (s: string)
    ensures s != []
    ensures m.unavailabilityReason.Some? && m.unavailabilityReason.value != [] ==> s == m.unavailabilityReason.value
  {
    match m.unavailabilityReason
    case Some(reason) => if reason != [] then reason else NoReasonGiven
    case None => NoReasonGiven
  }

  /** Checkout is allowed for a non-empty cart with a name and a phone that are not blank. */
  predicate CheckoutAllowed(items: seq<OrderItem>, name: string, phone: string) {
    |items| > 0 && Strip(name) != [] && Strip(phone) != []
  }

  /** Removing the selected row together with the line at the same position keeps the
      rows matching the lines and the total equal to the sum of the subtotals. */
  lemma {:induction false} RemoveRowKeepsCart(rows: seq<CartRow>, items: seq<OrderItem>, total: Money, s: int)
    requires RowsMatch(rows, items) && total == SumSubtotals(items) && 0 <= s < |rows|
    ensures RowsMatch(rows[..s] + rows[s + 1..], items[..s] + items[s + 1..])
    ensures total - rows[s].subtotal == SumSubtotals(items[..s] + items[s + 1..])
  {
    SumSubtotalsRemoveAt(items, s);
    var r, i := rows[..s] + rows[s + 1..], items[..s] + items[s + 1..];
    forall k | 0 <= k < |r| ensures r[k] == RowOf(i[k]) {
      if k >= s {
        assert r[k] == rows[k + 1] && i[k] == items[k + 1];
      } else {
        assert r[k] == rows[k] && i[k] == items[k];
      }
    }
  }

  predicate SameLine(item: OrderItem, name: string, quantity: int) {
    item.menuItemName == name && item.quantity == quantity
  }

  /** The first dish of the list with this id, as `add_to_cart` searches the menu cache. */
  function FirstWithId(items: seq<MenuItem>, id: int): (r: Option<MenuItem>)
    ensures r.None? <==> forall k :: 0 <= k < |items| ==> items[k].id != id
    ensures r.Some? ==>
      exists k :: 0 <= k < |items| && items[k] == r.value && r.value.id == id
                  && forall j :: 0 <= j < k ==> items[j].id != id
  {
    if items == [] then None
    else if items[0].id == id then Some(items[0])
    else
      var r := FirstWithId(items[1..], id);
      assert r.Some? ==> exists k :: 0 <= k < |items| && items[k] == r.value && r.value.id == id
                                     && forall j :: 0 <= j < k ==> items[j].id != id by {
        if r.Some? {
          var k :| 0 <= k < |items[1..]| && items[1..][k] == r.value && r.value.id == id
                   && forall j :: 0 <= j < k ==> items[1..][j].id != id;
          assert items[k + 1] == r.value;
          assert forall j :: 0 <= j < k + 1 ==> items[j].id != id by {
            forall j | 0 <= j < k + 1 ensures items[j].id != id {
              if j > 0 { assert items[j] == items[1..][j - 1]; }
            }
          }
        }
      }
      r
  }

  /** The position of the first line with this name and quantity, or the length of
      the list when there is none. */
  function FirstMatch(items: seq<OrderItem>, name: string, quantity: int): (j: nat)
    ensures j <= |items|
    ensures forall k :: 0 <= k < j ==> !SameLine(items[k], name, quantity)
    ensures j < |items| ==> SameLine(items[j], name, quantity)
  {
    if items == [] || SameLine(items[0], name, quantity) then 0
    else 1 + FirstMatch(items[1..], name, quantity)
  }

  /** The list `remove_from_cart` leaves: the first line with the selected row's name
      and quantity deleted, whichever row was selected. */
  function RemoveFirstMatch(items: seq<OrderItem>, name: string, quantity: int): seq<OrderItem> {
    var j := FirstMatch(items, name, quantity);
    if j < |items| then items[..j] + items[j + 1..] else items
  }

  /** Two dishes may share a name (menu names are not unique). With both in the cart
      once each, removing the second row subtracts its subtotal while the first line
      is the one deleted: the shown total (100) and the lines left (150) disagree. */
  lemma {:induction false} RemoveFirstMatchLosesTotal()
    ensures var items := [OrderItem(1, 1, 100, "Чай"), OrderItem(2, 1, 150, "Чай")];
      var rows := [RowOf(items[0]), RowOf(items[1])];
      && RowsMatch(rows, items)
      && SumSubtotals(items) - rows[1].subtotal == 100
      && SumSubtotals(RemoveFirstMatch(items, rows[1].name, rows[1].quantity)) == 150
  {
    var items := [OrderItem(1, 1, 100, "Чай"), OrderItem(2, 1, 150, "Чай")];
    assert items[..1] == [items[0]];
    assert RemoveFirstMatch(items, "Чай", 1) == [items[1]];
    assert [items[1]][..0] == [];
  }

  // ---------------------------------------------------------------------------
  // Order statuses

  /** `status_dict`: each status key with its Russian label, in insertion order. */
  const StatusLabels: seq<(string, string)> := [
    ("pending", "Ожидает"), ("confirmed", "Подтвержден"), ("preparing", "Готовится"),
    ("delivering", "Доставляется"), ("delivered", "Доставлен"), ("cancelled", "Отменен")]

  /** The first key, in insertion order, whose label is `shown`. */
  function KeyOfLabel(dict: seq<(string, string)>, shown: string): (r: Option<string>)
    ensures r.None? <==> forall k :: 0 <= k < |dict| ==> dict[k].1 != shown
    ensures r.Some? ==> exists k :: 0 <= k < |dict| && dict[k] == (r.value, shown)
  {
    if dict == [] then None
    else if dict[0].1 == shown then Some(dict[0].0)
    else
      var r := KeyOfLabel(dict[1..], shown);
      assert forall k :: 1 <= k < |dict| ==> dict[k] == dict[1..][k - 1];
      r
  }

  /** A label used by no earlier entry leads back to its own key. */
  lemma {:induction false} KeyOfOwnLabel(dict: seq<(string, string)>, k: int)
    requires 0 <= k < |dict|
    requires forall j :: 0 <= j < k ==> dict[j].1 != dict[k].1
    ensures KeyOfLabel(dict, dict[k].1) == Some(dict[k].0)
  {
    if k > 0 {
      assert dict[0].1 != dict[k].1;
      assert forall j :: 0 <= j < k - 1 ==> dict[1..][j] == dict[j + 1];
      KeyOfOwnLabel(dict[1..], k - 1);
    }
  }

  /** Every label of `status_dict` leads back to its own key, and the keys are exactly
      the statuses the order table accepts, in the same order. */
  lemma {:induction false} StatusRoundTrip()
    ensures forall k :: 0 <= k < |StatusLabels| ==> KeyOfLabel(StatusLabels, StatusLabels[k].1) == Some(StatusLabels[k].0)
    ensures |StatusLabels| == |AllowedStatuses|
    ensures forall k :: 0 <= k < |StatusLabels| ==> StatusLabels[k].0 == AllowedStatuses[k]
  {
    var d := StatusLabels;
    forall k | 0 <= k < |d| ensures d[k].0 == AllowedStatuses[k] {
      assert k == 0 || k == 1 || k == 2 || k == 3 || k == 4 || k == 5;
    }
    assert d[0].1[1] != d[5].1[1];
    assert d[2].1[0] != d[4].1[0];
    forall k | 0 <= k < |d| ensures KeyOfLabel(d, d[k].1) == Some(d[k].0) {
      KeyOfOwnLabel(d, k);
    }
  }

  /** What adding the selected dish to the cart reports, in the order of the checks. */
  datatype AddOutcome = NothingSelected | NotInCache | Unavailable(reason: string) | NonPositiveQuantity | Added

  /** What the administrator's status change reports. */
  datatype StatusOutcome = NoOrderSelected | UnknownStatus | StatusChanged(updated: bool)

  class RestaurantGui {
    const db: Database
    var allMenuItems: seq<MenuItem>
    var menuItemsCache: seq<MenuItem>
    var currentOrderItems: seq<OrderItem>
    var cartRows: seq<CartRow>
    var cartTotal: Money
    var nameEntry: string
    var phoneEntry: string
    var checkoutEnabled: bool

    /** The cart table mirrors the order lines and the total is their sum. */
    ghost predicate Valid()
      reads this, db
    {
      && db.Valid()
      && RowsMatch(cartRows, currentOrderItems)
      && cartTotal == SumSubtotals(currentOrderItems)
    }

    /** A new window: an empty cart and entries, the checkout button disabled, and the
        menu loaded once the widgets exist. */
    constructor (db: Database)
      requires db.Valid()
      ensures Valid() && this.db == db
      ensures currentOrderItems == [] && cartRows == [] && cartTotal == 0 && !checkoutEnabled
      ensures nameEntry == [] && phoneEntry == []
      ensures allMenuItems == GetMenuItems(db.tables.menuItems, db.tables.categories, None, false)
      ensures menuItemsCache == allMenuItems
    {
      this.db := db;
      allMenuItems, menuItemsCache := [], [];
      currentOrderItems, cartRows, cartTotal := [], [], 0;
      nameEntry, phoneEntry, checkoutEnabled := [], [], false;
      new;
      LoadMenuData();
    }

    /** `load_menu_data`: every dish, available or not, cached unfiltered. */
    method LoadMenuData()
      requires Valid()
      modifies this
      ensures Valid()
      ensures allMenuItems == GetMenuItems(db.tables.menuItems, db.tables.categories, None, false)
      ensures menuItemsCache == allMenuItems
      ensures currentOrderItems == old(currentOrderItems) && cartRows == old(cartRows) && cartTotal == old(cartTotal)
      ensures nameEntry == old(nameEntry) && phoneEntry == old(phoneEntry) && checkoutEnabled == old(checkoutEnabled)
    {
      var items := GetMenuItems(db.tables.menuItems, db.tables.categories, None, false);
      allMenuItems, menuItemsCache := items, items;
    }

    /** `filter_menu_by_category`. */
    method FilterMenuByCategory(category: string, search: string)
      modifies this
      ensures menuItemsCache == MenuView(allMenuItems, category, search)
      ensures allMenuItems == old(allMenuItems) && currentOrderItems == old(currentOrderItems)
      ensures cartRows == old(cartRows) && cartTotal == old(cartTotal)
      ensures nameEntry == old(nameEntry) && phoneEntry == old(phoneEntry) && checkoutEnabled == old(checkoutEnabled)
    {
      var term := Lower(search);
      var filtered := if category == AllCategories then allMenuItems
                      else Filter(allMenuItems, m => InCategory(category, m));
      if term != [] {
        filtered := Filter(filtered, m => MatchesTerm(term, m));
      }
      menuItemsCache := filtered;
    }

    /** `search_menu`: the same list as `filter_menu_by_category` for the same inputs. */
    method SearchMenu(category: string, search: string)
      modifies this
      ensures menuItemsCache == MenuView(allMenuItems, category, search)
      ensures allMenuItems == old(allMenuItems) && currentOrderItems == old(currentOrderItems)
      ensures cartRows == old(cartRows) && cartTotal == old(cartTotal)
      ensures nameEntry == old(nameEntry) && phoneEntry == old(phoneEntry) && checkoutEnabled == old(checkoutEnabled)
    {
      var term := Lower(search);
      var base := if category == AllCategories then allMenuItems
                  else Filter(allMenuItems, m => InCategory(category, m));
      var filtered := if term != [] then Filter(base, m => MatchesTerm(term, m)) else base;
      menuItemsCache := filtered;
    }

    /** The search through the menu cache in `add_to_cart`: the first cached dish with
        this id. */
    method FindCached(itemId: int) returns (r: Option<MenuItem>)
      ensures r == FirstWithId(menuItemsCache, itemId)
      ensures r.None? <==> forall k :: 0 <= k < |menuItemsCache| ==> menuItemsCache[k].id != itemId
      ensures r.Some? ==>
        exists k :: 0 <= k < |menuItemsCache| && menuItemsCache[k] == r.value
                    && r.value.id == itemId && forall j :: 0 <= j < k ==> menuItemsCache[j].id != itemId
    {
      var i := 0;
      while i < |menuItemsCache|
        invariant 0 <= i <= |menuItemsCache|
        invariant FirstWithId(menuItemsCache, itemId) == FirstWithId(menuItemsCache[i..], itemId)
      {
        if menuItemsCache[i].id == itemId {
          return Some(menuItemsCache[i]);
        }
        assert menuItemsCache[i..][1..] == menuItemsCache[i + 1..];
        i := i + 1;
      }
      r := None;
    }

    /** `validate_checkout_button`, run after each change to the cart or the entries. */
    method ValidateCheckoutButton()
      modifies this
      ensures checkoutEnabled == CheckoutAllowed(currentOrderItems, nameEntry, phoneEntry)
      ensures allMenuItems == old(allMenuItems) && menuItemsCache == old(menuItemsCache)
      ensures currentOrderItems == old(currentOrderItems) && cartRows == old(cartRows) && cartTotal == old(cartTotal)
      ensures nameEntry == old(nameEntry) && phoneEntry == old(phoneEntry)
    {
      checkoutEnabled := CheckoutAllowed(currentOrderItems, nameEntry, phoneEntry);
    }

    /** Typing in the name or phone entry re-checks the checkout button. */
    method EditContact(name: string, phone: string)
      modifies this
      ensures nameEntry == name && phoneEntry == phone
      ensures checkoutEnabled == CheckoutAllowed(currentOrderItems, name, phone)
      ensures allMenuItems == old(allMenuItems) && menuItemsCache == old(menuItemsCache)
      ensures currentOrderItems == old(currentOrderItems) && cartRows == old(cartRows) && cartTotal == old(cartTotal)
    {
      nameEntry, phoneEntry := name, phone;
      ValidateCheckoutButton();
    }

    /** `add_to_cart`: the selected dish must be in the menu cache and available, and the
        quantity positive (checked in that order); then one row and one line carrying the
        current price are appended and the subtotal is added to the total. */
    method AddToCart(selectedId: Option<int>, quantity: int) returns (outcome: AddOutcome)
      requires Valid()
      modifies this
      ensures Valid()
      ensures outcome == NothingSelected <==> selectedId.None?
      ensures outcome == NotInCache <==>
        selectedId.Some? && FirstWithId(menuItemsCache, selectedId.value).None?
      ensures outcome.Unavailable? <==>
        selectedId.Some? && FirstWithId(menuItemsCache, selectedId.value).Some?
        && !FirstWithId(menuItemsCache, selectedId.value).value.isAvailable
      ensures outcome.Unavailable? ==> outcome.reason == ReasonText(FirstWithId(menuItemsCache, selectedId.value).value)
      ensures outcome == NonPositiveQuantity <==>
        selectedId.Some? && FirstWithId(menuItemsCache, selectedId.value).Some?
        && FirstWithId(menuItemsCache, selectedId.value).value.isAvailable && quantity <= 0
      ensures outcome == Added <==>
        selectedId.Some? && FirstWithId(menuItemsCache, selectedId.value).Some?
        && FirstWithId(menuItemsCache, selectedId.value).value.isAvailable && quantity > 0
      ensures outcome != Added ==>
        && currentOrderItems == old(currentOrderItems) && cartRows == old(cartRows)
        && cartTotal == old(cartTotal) && checkoutEnabled == old(checkoutEnabled)
      ensures outcome == Added ==>
        var m := FirstWithId(menuItemsCache, selectedId.value).value;
        && m in menuItemsCache && m.id == selectedId.value
        && currentOrderItems == old(currentOrderItems) + [OrderItem(m.id, quantity, m.price, m.name)]
        && cartRows == old(cartRows) + [RowOf(OrderItem(m.id, quantity, m.price, m.name))]
        && cartTotal == old(cartTotal) + m.price * quantity
        && checkoutEnabled == CheckoutAllowed(currentOrderItems, nameEntry, phoneEntry)
      ensures allMenuItems == old(allMenuItems) && menuItemsCache == old(menuItemsCache)
      ensures nameEntry == old(nameEntry) && phoneEntry == old(phoneEntry)
    {
      if selectedId.None? {
        return NothingSelected;
      }
      var found := FindCached(selectedId.value);
      if found.None? {
        return NotInCache;
      }
      var m := found.value;
      if !m.isAvailable {
        return Unavailable(ReasonText(m));
      }
      if quantity <= 0 {
        return NonPositiveQuantity;
      }
      AppendLine(OrderItem(m.id, quantity, m.price, m.name));
      outcome := Added;
    }

    /** The last step of `add_to_cart`: the row and the line go in together, the total
        grows by the line's subtotal, and the checkout button is re-checked. */
    method AppendLine(line: OrderItem)
      requires Valid()
      modifies this
      ensures Valid()
      ensures currentOrderItems == old(currentOrderItems) + [line] && cartRows == old(cartRows) + [RowOf(line)]
      ensures cartTotal == old(cartTotal) + line.Subtotal()
      ensures checkoutEnabled == CheckoutAllowed(currentOrderItems, nameEntry, phoneEntry)
      ensures allMenuItems == old(allMenuItems) && menuItemsCache == old(menuItemsCache)
      ensures nameEntry == old(nameEntry) && phoneEntry == old(phoneEntry)
    {
      SumSubtotalsConcat(currentOrderItems, [line]);
      cartRows := cartRows + [RowOf(line)];
      currentOrderItems := currentOrderItems + [line];
      cartTotal := cartTotal + line.Subtotal();
      ValidateCheckoutButton();
    }

    /** `remove_from_cart`, with the line at the selected row's position deleted, so the
        cart keeps matching its rows and its total. */
    method RemoveFromCart(selected: Option<int>)
      requires Valid()
      requires selected.Some? ==> 0 <= selected.value < |cartRows|
      modifies this
      ensures Valid()
      ensures selected.None? ==>
        && currentOrderItems == old(currentOrderItems) && cartRows == old(cartRows)
        && cartTotal == old(cartTotal) && checkoutEnabled == old(checkoutEnabled)
      ensures selected.Some? ==>
        && cartRows == old(cartRows[..selected.value] + cartRows[selected.value + 1..])
        && currentOrderItems == old(currentOrderItems[..selected.value] + currentOrderItems[selected.value + 1..])
        && cartTotal == old(cartTotal) - old(cartRows[selected.value].subtotal)
        && checkoutEnabled == CheckoutAllowed(currentOrderItems, nameEntry, phoneEntry)
      ensures allMenuItems == old(allMenuItems) && menuItemsCache == old(menuItemsCache)
      ensures nameEntry == old(nameEntry) && phoneEntry == old(phoneEntry)
    {
      if selected.None? {
        return;
      }
      var s := selected.value;
      RemoveRowKeepsCart(cartRows, currentOrderItems, cartTotal, s);
      cartTotal := cartTotal - cartRows[s].subtotal;
      currentOrderItems := currentOrderItems[..s] + currentOrderItems[s + 1..];
      cartRows := cartRows[..s] + cartRows[s + 1..];
      ValidateCheckoutButton();
    }

    /** `remove_from_cart` as written: the selected row and its subtotal go, but the line
        deleted is the first one with the row's name and quantity. */
    method RemoveFromCartAsWritten(selected: Option<int>)
      requires selected.Some? ==> 0 <= selected.value < |cartRows|
      modifies this
      ensures selected.None? ==>
        && currentOrderItems == old(currentOrderItems) && cartRows == old(cartRows)
        && cartTotal == old(cartTotal) && checkoutEnabled == old(checkoutEnabled)
      ensures selected.Some? ==>
        && cartRows == old(cartRows[..selected.value] + cartRows[selected.value + 1..])
        && currentOrderItems == RemoveFirstMatch(old(currentOrderItems), old(cartRows[selected.value].name),
                                                 old(cartRows[selected.value].quantity))
        && cartTotal == old(cartTotal) - old(cartRows[selected.value].subtotal)
        && checkoutEnabled == CheckoutAllowed(currentOrderItems, nameEntry, phoneEntry)
      ensures allMenuItems == old(allMenuItems) && menuItemsCache == old(menuItemsCache)
      ensures nameEntry == old(nameEntry) && phoneEntry == old(phoneEntry)
    {
      if selected.None? {
        return;
      }
      var row := cartRows[selected.value];
      cartTotal := cartTotal - row.subtotal;
      var i := 0;
      while i < |currentOrderItems|
        invariant 0 <= i <= |currentOrderItems|
        invariant currentOrderItems == old(currentOrderItems)
        invariant forall k :: 0 <= k < i ==> !SameLine(currentOrderItems[k], row.name, row.quantity)
      {
        if currentOrderItems[i].menuItemName == row.name && currentOrderItems[i].quantity == row.quantity {
          currentOrderItems := currentOrderItems[..i] + currentOrderItems[i + 1..];
          break;
        }
        i := i + 1;
      }
      cartRows := cartRows[..selected.value] + cartRows[selected.value + 1..];
      ValidateCheckoutButton();
    }

    /** `clear_cart`: nothing for an empty cart; otherwise, once confirmed, the lines,
        the rows and the total are reset and checkout is disabled. */
    method ClearCart(confirmed: bool)
      requires Valid()
      modifies this
      ensures Valid()
      ensures old(currentOrderItems) == [] || !confirmed ==>
        && currentOrderItems == old(currentOrderItems) && cartRows == old(cartRows)
        && cartTotal == old(cartTotal) && checkoutEnabled == old(checkoutEnabled)
      ensures old(currentOrderItems) != [] && confirmed ==>
        && currentOrderItems == [] && cartRows == [] && cartTotal == 0 && !checkoutEnabled
      ensures allMenuItems == old(allMenuItems) && menuItemsCache == old(menuItemsCache)
      ensures nameEntry == old(nameEntry) && phoneEntry == old(phoneEntry)
    {
      if currentOrderItems == [] {
        return;
      }
      if confirmed {
        ClearCartAfterOrder();
      }
    }

    /** `clear_cart_after_order`: the same reset, without asking. */
    method ClearCartAfterOrder()
      requires Valid()
      modifies this
      ensures Valid()
      ensures currentOrderItems == [] && cartRows == [] && cartTotal == 0 && !checkoutEnabled
      ensures allMenuItems == old(allMenuItems) && menuItemsCache == old(menuItemsCache)
      ensures nameEntry == old(nameEntry) && phoneEntry == old(phoneEntry)
    {
      cartRows := [];
      currentOrderItems := [];
      cartTotal := 0;
      checkoutEnabled := false;
    }

    /** The shown-to-key search of the administrator's status change. */
    method StatusKeyFor(shown: string) returns (key: Option<string>)
      ensures key == KeyOfLabel(StatusLabels, shown)
    {
      var i := 0;
      while i < |StatusLabels|
        invariant 0 <= i <= |StatusLabels|
        invariant KeyOfLabel(StatusLabels, shown) == KeyOfLabel(StatusLabels[i..], shown)
      {
        if StatusLabels[i].1 == shown {
          return Some(StatusLabels[i].0);
        }
        assert StatusLabels[i..][1..] == StatusLabels[i + 1..];
        i := i + 1;
      }
      key := None;
    }

    /** `update_order_status` of the administrator's panel: with an order selected and a
        known shown, the order gets the shown's key; an unknown shown stops before any
        change to the database. */
    method AdminUpdateOrderStatus(selectedOrderId: Option<int>, shown: string) returns (outcome: StatusOutcome)
      requires Valid()
      modifies db
      ensures Valid()
      ensures outcome == NoOrderSelected <==> selectedOrderId.None? || selectedOrderId.value == 0
      ensures outcome == NoOrderSelected ==> db.tables == old(db.tables)
      ensures outcome == UnknownStatus <==>
        selectedOrderId.Some? && selectedOrderId.value != 0 && KeyOfLabel(StatusLabels, shown).None?
      ensures outcome == UnknownStatus ==> db.tables == old(db.tables)
      ensures outcome.StatusChanged? <==>
        selectedOrderId.Some? && selectedOrderId.value != 0 && KeyOfLabel(StatusLabels, shown).Some?
      ensures outcome.StatusChanged? ==>
        && KeyOfLabel(StatusLabels, shown).Some?
        && db.tables == old(db.tables).(orders := WithStatus(old(db.tables.orders), selectedOrderId.value,
                                                             KeyOfLabel(StatusLabels, shown).value))
        && (outcome.updated <==> HasOrder(old(db.tables.orders), selectedOrderId.value))
    {
      if selectedOrderId.None? || selectedOrderId.value == 0 {
        return NoOrderSelected;
      }
      var key := StatusKeyFor(shown);
      if key.None? {
        return UnknownStatus;
      }
      StatusRoundTrip();
      var k :| 0 <= k < |StatusLabels| && StatusLabels[k] == (key.value, shown);
      assert key.value in AllowedStatuses by { assert key.value == AllowedStatuses[k]; }
      var updated := db.UpdateOrderStatus(selectedOrderId.value, key.value);
      outcome := StatusChanged(updated);
    }
  }
}
