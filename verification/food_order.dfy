/** The file-based variant of the ordering program (food_order.py): menu dishes, an
    order that keeps one list entry per unit with a running total, the restaurant's
    id lookup and menu flattening, and the sales summary over saved orders. Prices
    are kopecks; the clock reading is a parameter. */
module FoodOrder {
  import opened Wrappers
  import opened Text
  import opened Aggregate
  import opened Models

  // ---------------------------------------------------------------------------
  // Dishes

  /** A dish of the menu. Dishes are never changed after they are built, and the
      order compares them by identity, as Python does for objects without `__eq__`. */
  class FoodItem {
    const id: int
    const name: string
    const description: string
    const price: Money
    const category: string

    constructor (id: int, name: string, description: string, price: Money, category: string)
      ensures this.id == id && this.name == name && this.description == description
      ensures this.price == price && this.category == category
    {
      this.id := id;
      this.name := name;
      this.description := description;
      this.price := price;
      this.category := category;
    }
  }

  /** The sum of the prices of a list of dishes. */
  function PriceSum(items: seq<FoodItem>): Money {
    if items == [] then 0 else PriceSum(items[..|items| - 1]) + items[|items| - 1].price
  }

  lemma {:induction false} PriceSumConcat(a: seq<FoodItem>, b: seq<FoodItem>)
    ensures PriceSum(a + b) == PriceSum(a) + PriceSum(b)
    decreases |b|
  {
    if b == [] {
      assert a + b == a;
    } else {
      assert (a + b)[..|a + b| - 1] == a + b[..|b| - 1];
      PriceSumConcat(a, b[..|b| - 1]);
    }
  }

  /** `n` references to the same dish. */
  function Copies(f: FoodItem, n: nat): (r: seq<FoodItem>)
    ensures |r| == n && forall k :: 0 <= k < n ==> r[k] == f
  {
    seq(n, _ => f)
  }

  /** How many times `range(quantity)` runs. */
  function Repeats(quantity: int): nat {
    if quantity < 0 then 0 else quantity
  }

  /** The position of the first reference to `f`, or the length when there is none. */
  function IndexOf(items: seq<FoodItem>, f: FoodItem): (i: nat)
    ensures i <= |items| && (i < |items| ==> items[i] == f)
    ensures forall j :: 0 <= j < i ==> items[j] != f
  {
    if items == [] then 0
    else if items[0] == f then 0
    else 1 + IndexOf(items[1..], f)
  }

  /** Python's `list.remove`: the list without its first reference to `f`. */
  function RemoveFirst(items: seq<FoodItem>, f: FoodItem): seq<FoodItem>
    requires f in items
  {
    var i := IndexOf(items, f);
    items[..i] + items[i + 1..]
  }

  /** Removing the first occurrence removes one unit of that dish and nothing else,
      keeps the other entries in order, and lowers the price sum by its price. */
  lemma {:induction false} RemoveFirstSpec(items: seq<FoodItem>, f: FoodItem)
    requires f in items
    ensures |RemoveFirst(items, f)| == |items| - 1
    ensures multiset(RemoveFirst(items, f)) == multiset(items) - multiset{f}
    ensures PriceSum(RemoveFirst(items, f)) == PriceSum(items) - f.price
  {
    var i := IndexOf(items, f);
    assert items == items[..i] + [f] + items[i + 1..];
    PriceSumConcat(items[..i] + [f], items[i + 1..]);
    PriceSumConcat(items[..i], [f]);
    PriceSumConcat(items[..i], items[i + 1..]);
  }

  // ---------------------------------------------------------------------------
  // Orders

  /** `"ORD_"` followed by the creation time as `%Y%m%d_%H%M%S`. */
  function OrderIdFor(t: Timestamp): (s: string)
    requires ValidTimestamp(t)
    ensures |s| == 19 && s[..4] == "ORD_"
  {
    "ORD_" + CompactDateTime(t)
  }

  /** The creation time can be read back from the order id. */
  lemma {:induction false} OrderIdRoundTrip(t: Timestamp)
    requires ValidTimestamp(t)
    ensures ParseCompactDateTime(OrderIdFor(t)[4..]) == Some(t)
  {
    assert OrderIdFor(t)[4..] == CompactDateTime(t);
    CompactDateTimeRoundTrip(t);
  }

  /** The names of a list of dishes, one per unit. */
  function Names(items: seq<FoodItem>): (r: seq<string>)
    ensures |r| == |items| && forall k :: 0 <= k < |items| ==> r[k] == items[k].name
  {
    seq(|items|, k requires 0 <= k < |items| => items[k].name)
  }

  /** The position of the first dish called `name`, or the length when there is none. */
  function FirstNamed(items: seq<FoodItem>, name: string): (i: nat)
    ensures i <= |items| && (i < |items| ==> items[i].name == name)
    ensures forall j :: 0 <= j < i ==> items[j].name != name
  {
    if items == [] then 0
    else if items[0].name == name then 0
    else 1 + FirstNamed(items[1..], name)
  }

  lemma {:induction false} FirstNamedAppend(items: seq<FoodItem>, x: FoodItem, name: string)
    ensures FirstNamed(items, name) < |items| ==> FirstNamed(items + [x], name) == FirstNamed(items, name)
    ensures FirstNamed(items, name) == |items| && x.name == name ==> FirstNamed(items + [x], name) == |items|
  {
    var i := FirstNamed(items, name);
    assert forall k :: 0 <= k < |items| ==> (items + [x])[k] == items[k];
    if i < |items| {
      assert (items + [x])[i].name == name;
    } else if x.name == name {
      assert (items + [x])[|items|] == x;
    }
  }

  /** An order of the console program: one list entry per unit ordered, and the
      running total. */
  class Order {
    var items: seq<FoodItem>
    var total: Money
    const orderTime: Timestamp
    const orderId: string

    /** The running total is the sum of the prices of the listed units. */
    ghost predicate Valid()
      reads this
    {
      total == PriceSum(items)
    }

    /** A new order taken at `now`: no items, total 0, and an id made from the time. */
    constructor (now: Timestamp)
      requires ValidTimestamp(now)
      ensures items == [] && total == 0 && Valid()
      ensures orderTime == now && orderId == OrderIdFor(now)
    {
      items := [];
      total := 0;
      orderTime := now;
      orderId := OrderIdFor(now);
    }

    /** `add_item`: appends `quantity` references to the dish, raising the total by
        its price each time; a quantity of zero or less changes nothing. */
    method AddItem(f: FoodItem, quantity: int)
      requires Valid()
      modifies this
      ensures Valid()
      ensures items == old(items) + Copies(f, Repeats(quantity))
      ensures total == old(total) + Repeats(quantity) * f.price
    {
      var n := 0;
      while n < quantity
        invariant 0 <= n <= Repeats(quantity)
        invariant items == old(items) + Copies(f, n)
        invariant total == old(total) + n * f.price
        invariant Valid()
      {
        assert PriceSum(items + [f]) == PriceSum(items) + f.price by {
          assert (items + [f])[..|items|] == items;
        }
        assert Copies(f, n + 1) == Copies(f, n) + [f];
        assert (n + 1) * f.price == n * f.price + f.price;
        items := items + [f];
        total := total + f.price;
        n := n + 1;
      }
    }

    /** `remove_item`: when the dish is listed, its first reference is removed and
        the total lowered by its price; otherwise nothing changes. */
    method RemoveItem(f: FoodItem) returns (removed: bool)
      requires Valid()
      modifies this
      ensures Valid()
      ensures removed <==> f in old(items)
      ensures removed ==> items == RemoveFirst(old(items), f) && total == old(total) - f.price
      ensures !removed ==> items == old(items) && total == old(total)
    {
      if f in items {
        RemoveFirstSpec(items, f);
        items := RemoveFirst(items, f);
        total := total - f.price;
        return true;
      }
      return false;
    }

    /** The grouping of `display_order`: one entry per distinct dish name, in order of
        first appearance, with its number of units, together with the first dish of
        that name (whose price the listing multiplies by the count). */
    method GroupLines() returns (groups: seq<Entry>, firsts: seq<FoodItem>)
      ensures groups == Tally(Units(Names(items)))
      ensures |firsts| == |groups|
      ensures forall k :: 0 <= k < |groups| ==>
        FirstNamed(items, groups[k].0) < |items| && firsts[k] == items[FirstNamed(items, groups[k].0)]
    {
      groups, firsts := [], [];
      var i := 0;
      while i < |items|
        invariant 0 <= i <= |items|
        invariant Grouped(items[..i], groups, firsts)
      {
        assert items[..i + 1] == items[..i] + [items[i]];
        GroupStep(items[..i], items[i], groups, firsts);
        if items[i].name !in KeySet(groups) {
          firsts := firsts + [items[i]];
        }
        groups := Add(groups, (items[i].name, 1));
        i := i + 1;
      }
      assert items[..i] == items;
    }
  }

  /** `groups` is the name count of `items`, and `firsts` holds the first dish of each
      name. */
  predicate Grouped(items: seq<FoodItem>, groups: seq<Entry>, firsts: seq<FoodItem>) {
    groups == Tally(Units(Names(items))) && FirstsOf(items, groups, firsts)
  }

  /** `firsts` holds, for each group, the first dish of `items` with that name. */
  predicate FirstsOf(items: seq<FoodItem>, groups: seq<Entry>, firsts: seq<FoodItem>) {
    && |firsts| == |groups|
    && forall k :: 0 <= k < |groups| ==>
         FirstNamed(items, groups[k].0) < |items| && firsts[k] == items[FirstNamed(items, groups[k].0)]
  }

  /** One step of the grouping loop of `display_order`. */
  lemma {:induction false} GroupStep(prefix: seq<FoodItem>, item: FoodItem, groups: seq<Entry>, firsts: seq<FoodItem>)
    requires Grouped(prefix, groups, firsts)
    ensures Grouped(prefix + [item], Add(groups, (item.name, 1)),
                    if item.name in KeySet(groups) then firsts else firsts + [item])
  {
    UnitsAppend(Names(prefix), item.name);
    assert Names(prefix + [item]) == Names(prefix) + [item.name];
    TallyStep(Units(Names(prefix)), (item.name, 1));
    TallyCorrect(Units(Names(prefix)));
    FirstsStep(prefix, item, groups, firsts);
  }

  lemma {:induction false} FirstsStep(prefix: seq<FoodItem>, item: FoodItem, groups: seq<Entry>, firsts: seq<FoodItem>)
    requires FirstsOf(prefix, groups, firsts)
    requires DistinctKeys(groups) && KeySet(groups) == KeySet(Units(Names(prefix)))
    ensures FirstsOf(prefix + [item], Add(groups, (item.name, 1)),
                     if item.name in KeySet(groups) then firsts else firsts + [item])
  {
    var p := (item.name, 1);
    AddKeys(groups, p);
    AddKeepsKeys(groups, p);
    if item.name in KeySet(groups) {
      FirstsKept(prefix, item, groups, Add(groups, p), firsts);
    } else {
      FirstsKept(prefix, item, groups, groups + [p], firsts);
      forall j | 0 <= j < |prefix| ensures prefix[j].name != item.name {
        assert Units(Names(prefix))[j].0 == prefix[j].name;
      }
      FirstNamedAppend(prefix, item, item.name);
    }
  }

  /** The groups already present keep their first dish when a unit is appended. */
  lemma {:induction false} FirstsKept(prefix: seq<FoodItem>, item: FoodItem, groups: seq<Entry>, next: seq<Entry>, firsts: seq<FoodItem>)
    requires FirstsOf(prefix, groups, firsts)
    requires |next| >= |groups| && forall k :: 0 <= k < |groups| ==> next[k].0 == groups[k].0
    ensures forall k :: 0 <= k < |groups| ==>
      FirstNamed(prefix + [item], next[k].0) < |prefix| + 1
      && firsts[k] == (prefix + [item])[FirstNamed(prefix + [item], next[k].0)]
  {
    forall k | 0 <= k < |groups|
      ensures FirstNamed(prefix + [item], next[k].0) < |prefix| + 1
      ensures firsts[k] == (prefix + [item])[FirstNamed(prefix + [item], next[k].0)]
    {
      FirstNamedAppend(prefix, item, groups[k].0);
      assert (prefix + [item])[FirstNamed(prefix, groups[k].0)] == prefix[FirstNamed(prefix, groups[k].0)];
    }
  }

  // ---------------------------------------------------------------------------
  // Counting units by name

  /** One unit of weight per name. */
  function Units(names: seq<string>): (r: seq<Entry>)
    ensures |r| == |names| && forall k :: 0 <= k < |names| ==> r[k] == (names[k], 1)
  {
    seq(|names|, k requires 0 <= k < |names| => (names[k], 1))
  }

  lemma {:induction false} UnitsAppend(names: seq<string>, n: string)
    ensures Units(names + [n]) == Units(names) + [(n, 1)]
  {
  }

  /** One more step of the dictionary update loop. */
  lemma {:induction false} TallyStep(ps: seq<Entry>, p: Entry)
    ensures Tally(ps + [p]) == Add(Tally(ps), p)
  {
    assert (ps + [p])[..|ps|] == ps;
  }

  /** How often `name` occurs. */
  function Occurrences(names: seq<string>, name: string): nat {
    if names == [] then 0 else (if names[0] == name then 1 else 0) + Occurrences(names[1..], name)
  }

  lemma {:induction false} UnitsWeight(names: seq<string>, name: string)
    ensures Weight(Units(names), name) == Occurrences(names, name)
    ensures TotalWeight(Units(names)) == |names|
  {
    if names != [] {
      assert Units(names)[1..] == Units(names[1..]);
      UnitsWeight(names[1..], name);
    }
  }

  /** Counting names with the dictionary loop is exact: every name occurs once, with
      its number of occurrences, and the counts add up to the number of units. */
  lemma {:induction false} CountsExact(names: seq<string>)
    ensures DistinctKeys(Tally(Units(names)))
    ensures forall e :: e in Tally(Units(names)) ==> e.1 == Occurrences(names, e.0)
    ensures forall n :: n in names <==> n in KeySet(Tally(Units(names)))
    ensures TotalWeight(Tally(Units(names))) == |names|
  {
    var t := Tally(Units(names));
    TallyCorrect(Units(names));
    forall e | e in t ensures e.1 == Occurrences(names, e.0) {
      var i :| 0 <= i < |t| && t[i] == e;
      WeightOfDistinct(t, i);
      UnitsWeight(names, e.0);
    }
    forall n ensures n in names <==> n in KeySet(t) {
      if n in names {
        var i :| 0 <= i < |names| && names[i] == n;
        assert Units(names)[i].0 == n;
      }
      if n in KeySet(Units(names)) {
        var i :| 0 <= i < |Units(names)| && Units(names)[i].0 == n;
        assert names[i] == n;
      }
    }
    UnitsWeight(names, "");
  }

  // ---------------------------------------------------------------------------
  // The restaurant

  /** One dish as read from the menu file, before it is given its category. */
  datatype MenuEntry = MenuEntry(id: int, name: string, description: string, price: Money)

  /** The dishes of a parsed menu file, category by category, each with its category. */
  function Flat(data: seq<(string, seq<MenuEntry>)>): (r: seq<(string, MenuEntry)>)
  {
    if data == [] then []
    else Flat(data[..|data| - 1]) + Tagged(data[|data| - 1].0, data[|data| - 1].1)
  }

  function Tagged(category: string, entries: seq<MenuEntry>): (r: seq<(string, MenuEntry)>)
    ensures |r| == |entries| && forall k :: 0 <= k < |entries| ==> r[k] == (category, entries[k])
  {
    seq(|entries|, k requires 0 <= k < |entries| => (category, entries[k]))
  }

  /** The number of dishes in a parsed menu file. */
  function EntryCount(data: seq<(string, seq<MenuEntry>)>): nat {
    if data == [] then 0 else EntryCount(data[..|data| - 1]) + |data[|data| - 1].1|
  }

  /** Flattening keeps every dish, in file order, under the category it was listed in. */
  lemma {:induction false} FlatSpec(data: seq<(string, seq<MenuEntry>)>)
    ensures |Flat(data)| == EntryCount(data)
    ensures forall k :: 0 <= k < |Flat(data)| ==>
      exists c :: 0 <= c < |data| && Flat(data)[k].0 == data[c].0 && Flat(data)[k].1 in data[c].1
  {
    if data != [] {
      var init := data[..|data| - 1];
      FlatSpec(init);
      var last := |data| - 1;
      forall k | 0 <= k < |Flat(data)|
        ensures exists c :: 0 <= c < |data| && Flat(data)[k].0 == data[c].0 && Flat(data)[k].1 in data[c].1
      {
        if k < |Flat(init)| {
          var c :| 0 <= c < |init| && Flat(init)[k].0 == init[c].0 && Flat(init)[k].1 in init[c].1;
          assert data[c] == init[c];
        } else {
          assert Flat(data)[k] == (data[last].0, data[last].1[k - |Flat(init)|]);
        }
      }
    }
  }

  /** The dish was built from this tagged entry. */
  predicate Describes(f: FoodItem, e: (string, MenuEntry)) {
    && f.id == e.1.id && f.name == e.1.name && f.description == e.1.description
    && f.price == e.1.price && f.category == e.0
  }

  /** The conversion loop of `load_menu`: one new dish per entry, category by
      category, in file order. */
  method FlattenMenu(data: seq<(string, seq<MenuEntry>)>) returns (menu: seq<FoodItem>)
    ensures |menu| == |Flat(data)|
    ensures forall k :: 0 <= k < |menu| ==> Describes(menu[k], Flat(data)[k])
  {
    menu := [];
    var i := 0;
    while i < |data|
      invariant 0 <= i <= |data|
      invariant |menu| == |Flat(data[..i])|
      invariant forall k :: 0 <= k < |menu| ==> Describes(menu[k], Flat(data[..i])[k])
    {
      var category, entries := data[i].0, data[i].1;
      assert data[..i + 1][..i] == data[..i];
      ghost var done := Flat(data[..i]);
      var j := 0;
      while j < |entries|
        invariant 0 <= j <= |entries|
        invariant |menu| == |done| + j
        invariant forall k :: 0 <= k < |menu| ==> Describes(menu[k], (done + Tagged(category, entries))[k])
      {
        var e := entries[j];
        var f := new FoodItem(e.id, e.name, e.description, e.price, category);
        menu := menu + [f];
        j := j + 1;
      }
      i := i + 1;
    }
    assert data[..i] == data;
  }

  /** The position of the first dish with this id, or the length when there is none. */
  function IndexOfId(menu: seq<FoodItem>, itemId: int): (i: nat)
    ensures i <= |menu| && (i < |menu| ==> menu[i].id == itemId)
    ensures forall j :: 0 <= j < i ==> menu[j].id != itemId
  {
    if menu == [] then 0
    else if menu[0].id == itemId then 0
    else 1 + IndexOfId(menu[1..], itemId)
  }

  /** One saved order file, as read back: its total and one name per unit. */
  datatype SavedOrder = SavedOrder(total: Money, itemNames: seq<string>)

  function Revenue(orders: seq<SavedOrder>): Money {
    if orders == [] then 0 else Revenue(orders[..|orders| - 1]) + orders[|orders| - 1].total
  }

  /** The names of every unit of every order, order by order. */
  function SoldNames(orders: seq<SavedOrder>): seq<string> {
    if orders == [] then [] else SoldNames(orders[..|orders| - 1]) + orders[|orders| - 1].itemNames
  }

  lemma {:induction false} SavedStep(orders: seq<SavedOrder>, i: int)
    requires 0 <= i < |orders|
    ensures Revenue(orders[..i + 1]) == Revenue(orders[..i]) + orders[i].total
    ensures SoldNames(orders[..i + 1]) == SoldNames(orders[..i]) + orders[i].itemNames
  {
    assert orders[..i + 1][..i] == orders[..i];
  }

  /** One more unit counted by the loop of `show_statistics`. */
  lemma {:induction false} CountStep(before: seq<string>, names: seq<string>, j: int)
    requires 0 <= j < |names|
    ensures Tally(Units(before + names[..j + 1])) == Add(Tally(Units(before + names[..j])), (names[j], 1))
  {
    assert before + names[..j + 1] == (before + names[..j]) + [names[j]];
    UnitsAppend(before + names[..j], names[j]);
    TallyStep(Units(before + names[..j]), (names[j], 1));
  }

  class Restaurant {
    const name: string
    var menu: seq<FoodItem>
    var currentOrder: Option<Order>

    /** A restaurant whose menu is built from the parsed menu file. */
    constructor (name: string, data: seq<(string, seq<MenuEntry>)>)
      ensures this.name == name && currentOrder == None
      ensures |menu| == |Flat(data)| && forall k :: 0 <= k < |menu| ==> Describes(menu[k], Flat(data)[k])
    {
      this.name := name;
      var m := FlattenMenu(data);
      menu := m;
      currentOrder := None;
    }

    /** `find_item_by_id`: the first dish with this id, or `None`. */
    method FindItemById(itemId: int) returns (r: Option<FoodItem>)
      ensures r.None? <==> forall k :: 0 <= k < |menu| ==> menu[k].id != itemId
      ensures r.Some? ==> r == Some(menu[IndexOfId(menu, itemId)]) && r.value.id == itemId
    {
      var i := 0;
      while i < |menu|
        invariant 0 <= i <= |menu|
        invariant forall j :: 0 <= j < i ==> menu[j].id != itemId
      {
        if menu[i].id == itemId {
          assert IndexOfId(menu, itemId) == i;
          return Some(menu[i]);
        }
        i := i + 1;
      }
      return None;
    }

    /** `start_new_order`: a fresh, empty order taken at `now` becomes current. */
    method StartNewOrder(now: Timestamp)
      requires ValidTimestamp(now)
      modifies this
      ensures menu == old(menu)
      ensures currentOrder.Some? && fresh(currentOrder.value)
      ensures currentOrder.value.items == [] && currentOrder.value.total == 0 && currentOrder.value.Valid()
      ensures currentOrder.value.orderId == OrderIdFor(now)
    {
      var o := new Order(now);
      currentOrder := Some(o);
    }

    /** The summary of `show_statistics` over the saved orders: how many there are,
        the sum of their totals, and the five best-selling dish names with their unit
        counts, most sold first. */
    method ShowStatistics(orders: seq<SavedOrder>) returns (count: nat, revenue: Money, popular: seq<Entry>)
      ensures count == |orders|
      ensures revenue == Revenue(orders)
      ensures popular == TopN(Tally(Units(SoldNames(orders))), 5)
    {
      count := |orders|;
      revenue := 0;
      var sold: seq<Entry> := [];
      var i := 0;
      while i < |orders|
        invariant 0 <= i <= |orders|
        invariant revenue == Revenue(orders[..i])
        invariant sold == Tally(Units(SoldNames(orders[..i])))
      {
        SavedStep(orders, i);
        revenue := revenue + orders[i].total;
        var names := orders[i].itemNames;
        assert SoldNames(orders[..i]) + names[..0] == SoldNames(orders[..i]);
        var j := 0;
        while j < |names|
          invariant 0 <= j <= |names|
          invariant sold == Tally(Units(SoldNames(orders[..i]) + names[..j]))
        {
          CountStep(SoldNames(orders[..i]), names, j);
          sold := Add(sold, (names[j], 1));
          j := j + 1;
        }
        assert names[..j] == names;
        i := i + 1;
      }
      assert orders[..i] == orders;
      popular := TopN(sold, 5);
    }
  }

  /** The best sellers are exact: each reported name is sold, reported once, with its
      number of units sold; at most five are reported, most sold first; and no name
      left out sold more than one that is reported. */
  lemma {:induction false} PopularExact(orders: seq<SavedOrder>)
    ensures var popular := TopN(Tally(Units(SoldNames(orders))), 5);
      && |popular| <= 5
      && SortedBy(popular, ByWeightDesc())
      && DistinctKeys(popular)
      && (forall e :: e in popular ==> e.0 in SoldNames(orders) && e.1 == Occurrences(SoldNames(orders), e.0))
  {
    var t := Tally(Units(SoldNames(orders)));
    CountsExact(SoldNames(orders));
    TopNOfDistinct(t, 5);
    forall e | e in TopN(t, 5) ensures e.0 in SoldNames(orders) {
      var a :| 0 <= a < |t| && t[a] == e;
    }
  }

  /** A name that did not make the top five sold no more units than any that did. */
  lemma {:induction false} PopularHeaviest(orders: seq<SavedOrder>, left: string, kept: string)
    requires var popular := TopN(Tally(Units(SoldNames(orders))), 5);
      left in SoldNames(orders) && left !in KeySet(popular) && kept in KeySet(popular)
    ensures Occurrences(SoldNames(orders), left) <= Occurrences(SoldNames(orders), kept)
  {
    var t := Tally(Units(SoldNames(orders)));
    var popular := TopN(t, 5);
    CountsExact(SoldNames(orders));
    TopNOfDistinct(t, 5);
    var a :| 0 <= a < |t| && t[a].0 == left;
    var b :| 0 <= b < |popular| && popular[b].0 == kept;
    forall c | 0 <= c < |popular| ensures popular[c] != t[a] {
      assert popular[c].0 in KeySet(popular);
    }
    TopNKeepsHeaviest(t, 5, t[a], popular[b]);
  }

  /** The total of an order grouped for display: the counts add up to the units. */
  lemma {:induction false} GroupTotals(items: seq<FoodItem>)
    ensures TotalWeight(Tally(Units(Names(items)))) == |items|
    ensures forall e :: e in Tally(Units(Names(items))) ==> e.1 == Occurrences(Names(items), e.0)
    ensures DistinctKeys(Tally(Units(Names(items))))
  {
    CountsExact(Names(items));
  }
}
