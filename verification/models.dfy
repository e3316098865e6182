/** The entity records of the restaurant (models.py): categories, menu items,
    customers and order lines, with the line subtotal and the menu item's one-line
    display form. Money is held in kopecks, the scale of the DECIMAL(10, 2) columns. */
module Models {
  import opened Wrappers
  import opened Text

  /** An amount in kopecks (1/100 rouble). */
  type Money = int

  datatype Category = Category(id: int, name: string, description: string := "")

  /** A menu item. The nine fields of models.py come first; the tenth,
      `unavailabilityReason`, is not declared there (see `MenuItemFieldsAsWritten`)
      but is what the gateway and the desktop front end read, so the model declares it
      with the default `None`. */
  datatype MenuItem = MenuItem(
    id: int,
    name: string,
    description: string,
    price: Money,
    categoryId: int,
    categoryName: string := "",
    isAvailable: bool := true,
    calories: Option<int> := None,
    cookingTime: Option<int> := None,
    unavailabilityReason: Option<string> := None)
  {
    /** The console line for this item: "{id}. {mark} {name} - {price}₽", then the
        description on a second line indented by three spaces. */
    function Display(): string {
      IntText(id) + ". " + AvailabilityMark(isAvailable) + " " + name + " - "
        + PriceText(price) + "₽\n   " + description
    }
  }

  datatype Customer = Customer(id: int, name: string, phone: string := "", email: string := "", address: string := "")

  /** One line of an order: a menu item, how many, and its price when ordered. */
  datatype OrderItem = OrderItem(menuItemId: int, quantity: int, priceAtOrder: Money, menuItemName: string := "")
  {
    /** Recomputed on every read from the captured price, never from the menu. */
    function Subtotal(): Money { quantity * priceAtOrder }
  }

  function AvailabilityMark(available: bool): string {
    if available then "✓" else "✗"
  }

  /** Python's `str(float)` of an amount with two decimals, e.g. 450.0, 12.5, 12.34. */
  function PriceText(k: Money): string {
    var a := if k < 0 then -k else k;
    var cents := a % 100;
    (if k < 0 then "-" else "") + NatText(a / 100) + "."
      + (if cents % 10 == 0 then [DigitChar(cents / 10)] else [DigitChar(cents / 10), DigitChar(cents % 10)])
  }

  /** The position of the availability mark in a display line. */
  lemma {:induction false} DisplayMark(m: MenuItem)
    ensures |IntText(m.id)| + 2 < |m.Display()|
    ensures m.Display()[|IntText(m.id)| + 2] == '✓' <==> m.isAvailable
    ensures m.Display()[|IntText(m.id)| + 2] == '✗' <==> !m.isAvailable
  {
    var d := m.Display();
    var n := |IntText(m.id)|;
    assert d == (IntText(m.id) + ". " + AvailabilityMark(m.isAvailable)) + (" " + m.name + " - "
                 + PriceText(m.price) + "₽\n   " + m.description);
    assert d[n + 2] == (IntText(m.id) + ". " + AvailabilityMark(m.isAvailable))[n + 2];
  }

  /** A display line starts with the id and ". ", and ends with a line break, three
      spaces and the description. */
  lemma {:induction false} DisplayFrame(m: MenuItem)
    ensures var d := m.Display();
      && |d| >= |IntText(m.id)| + 2 + |m.description| + 4
      && d[..|IntText(m.id)| + 2] == IntText(m.id) + ". "
      && d[|d| - |m.description| - 4..] == "\n   " + m.description
  {
    var d := m.Display();
    var head := IntText(m.id) + ". ";
    var tail := "\n   " + m.description;
    var middle := AvailabilityMark(m.isAvailable) + " " + m.name + " - " + PriceText(m.price) + "₽";
    assert d == head + middle + tail;
    assert d[..|head|] == head;
    assert d[|d| - |tail|..] == tail;
  }

  /** A menu item built from the five required arguments alone is available, has no
      category name, calories, cooking time or unavailability reason. */
  lemma {:induction false} MenuItemDefaults(id: int, name: string, description: string, price: Money, categoryId: int)
    ensures var m := MenuItem(id, name, description, price, categoryId);
      && m.isAvailable && m.categoryName == ""
      && m.calories == None && m.cookingTime == None && m.unavailabilityReason == None
  {
  }

  lemma {:induction false} CustomerAndCategoryDefaults(id: int, name: string)
    ensures Customer(id, name).phone == "" && Customer(id, name).email == "" && Customer(id, name).address == ""
    ensures Category(id, name).description == ""
  {
  }

  // ---------------------------------------------------------------------------
  // Totals over order lines

  /** The sum of the line subtotals, accumulated left to right. */
  function SumSubtotals(items: seq<OrderItem>): Money {
    if items == [] then 0 else SumSubtotals(items[..|items| - 1]) + items[|items| - 1].Subtotal()
  }

  lemma {:induction false} SumSubtotalsConcat(a: seq<OrderItem>, b: seq<OrderItem>)
    ensures SumSubtotals(a + b) == SumSubtotals(a) + SumSubtotals(b)
    decreases |b|
  {
    if b == [] {
      assert a + b == a;
    } else {
      assert (a + b)[..|a + b| - 1] == a + b[..|b| - 1];
      SumSubtotalsConcat(a, b[..|b| - 1]);
    }
  }

  /** Deleting line `i` lowers the total by exactly that line's subtotal. */
  lemma {:induction false} SumSubtotalsRemoveAt(s: seq<OrderItem>, i: int)
    requires 0 <= i < |s|
    ensures SumSubtotals(s[..i] + s[i + 1..]) == SumSubtotals(s) - s[i].Subtotal()
  {
    assert s == s[..i] + [s[i]] + s[i + 1..];
    SumSubtotalsConcat(s[..i] + [s[i]], s[i + 1..]);
    SumSubtotalsConcat(s[..i], [s[i]]);
    SumSubtotalsConcat(s[..i], s[i + 1..]);
    assert SumSubtotals([s[i]]) == s[i].Subtotal() by {
      assert [s[i]][..0] == [];
    }
  }

  /** A draft whose lines all have positive quantities and non-negative prices has a
      non-negative total. */
  lemma {:induction false} SumSubtotalsNonNegative(s: seq<OrderItem>)
    requires forall i :: 0 <= i < |s| ==> s[i].quantity > 0 && s[i].priceAtOrder >= 0
    ensures SumSubtotals(s) >= 0
  {
    if s != [] {
      SumSubtotalsNonNegative(s[..|s| - 1]);
      var last := s[|s| - 1];
      assert last.Subtotal() >= 0 by {
        assert last.quantity * last.priceAtOrder >= 0;
      }
    }
  }

  // ---------------------------------------------------------------------------
  // Keyword construction of MenuItem

  /** The fields models.py declares for MenuItem, in declaration order: nine, and no
      `unavailability_reason`. */
  const MenuItemFieldsAsWritten: seq<string> :=
    ["id", "name", "description", "price", "category_id",
     "category_name", "is_available", "calories", "cooking_time"]

  /** The field list with the reason the gateway stores and the front end reads. */
  const MenuItemFields: seq<string> := MenuItemFieldsAsWritten + ["unavailability_reason"]

  /** Python's keyword check when a dataclass is called: the first keyword that names
      no declared field, which raises TypeError; `None` when every keyword is declared. */
  function UnexpectedKeyword(declared: seq<string>, keywords: seq<string>): (r: Option<string>)
    ensures r == None <==> forall k :: k in keywords ==> k in declared
    ensures r != None ==> r.value in keywords && r.value !in declared
  {
    if keywords == [] then None
    else if keywords[0] !in declared then Some(keywords[0])
    else UnexpectedKeyword(declared, keywords[1..])
  }
}
