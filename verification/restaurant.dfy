/** The restaurant dashboard (views/RestaurantDashboard.tsx): the category
    list, saving a menu item, adding a category, the merchant voice tool,
    the order-status buttons and the per-order payout summary. `me` is the
    restaurant found for the logged-in id when the view rendered; the
    updaters apply to the current state `live`. Image generation is an
    input (`generated`), as are the `Date.now()` ids. */
module RestaurantView {
  import opened Wrappers
  import opened Collections
  import opened Domain
  import opened Lifecycle
  import opened AudioSession

  // ---------------------------------------------------------------------------
  // Categories

  const DefaultCategories: seq<string> := ["General", "Starters", "Mains", "Desserts", "Drinks"]

  function ItemCategories(items: seq<MenuItem>): (r: seq<string>)
    ensures |r| == |items|
    ensures forall i :: 0 <= i < |items| ==> r[i] == items[i].category
  {
    seq(|items|, i requires 0 <= i < |items| => items[i].category)
  }

  /** `availableCategories`: the five defaults first, then the restaurant's
      own categories and its items' categories, each listed once. */
  function AvailableCategories(me: Option<Restaurant>): (r: seq<string>)
    ensures Distinct(r)
    ensures |r| >= 5 && r[..5] == DefaultCategories
    ensures me.Some? ==>
      && (forall i :: 0 <= i < |me.value.categories.GetOr([])| ==> me.value.categories.GetOr([])[i] in r)
      && (forall i :: 0 <= i < |me.value.items| ==> me.value.items[i].category in r)
    ensures forall i :: 0 <= i < |r| ==>
      r[i] in DefaultCategories
      || (me.Some? && (r[i] in me.value.categories.GetOr([]) || r[i] in ItemCategories(me.value.items)))
  {
    assert Distinct(DefaultCategories);
    match me
    case None => DefaultCategories
    case Some(rest) =>
      var withOwn := AddEach(DefaultCategories, rest.categories.GetOr([]));
      var r := AddEach(withOwn, ItemCategories(rest.items));
      assert r[..5] == r[..|withOwn|][..5];
      assert forall i :: 0 <= i < |rest.items| ==> rest.items[i].category == ItemCategories(rest.items)[i];
      r
  }

  // ---------------------------------------------------------------------------
  // Saving a menu item

  /** The item form; an absent or empty field falls back to its default. */
  datatype ItemForm = ItemForm(
    name: Option<string>,
    price: Option<real>,
    description: Option<string>,
    category: Option<string>,
    imageUrl: Option<string>)

  /** The item `handleSaveItem` builds: the edited item's id when it is
      truthy, else the fresh id; price 0 when absent; category "General"
      when empty; an image is generated only for a described item without
      one. */
  function FormItem(form: ItemForm, editing: Option<MenuItem>, freshId: string, generated: Option<string>): (i: MenuItem)
    ensures i.id == (if editing.Some? && editing.value.id != "" then editing.value.id else freshId)
    ensures i.name == OrElse(form.name, "") && i.description == OrElse(form.description, "")
    ensures i.price == form.price.GetOr(0.0)
    ensures i.category == OrElse(form.category, "General") && i.category != ""
    ensures Truthy(form.imageUrl) || !Truthy(form.description) ==> i.imageUrl == form.imageUrl
    ensures Truthy(form.description) && !Truthy(form.imageUrl) ==> i.imageUrl == generated
  {
    MenuItem(
      if editing.Some? && editing.value.id != "" then editing.value.id else freshId,
      OrElse(form.name, ""),
      form.price.GetOr(0.0),
      OrElse(form.description, ""),
      OrElse(form.category, "General"),
      if Truthy(form.description) && !Truthy(form.imageUrl) then generated else form.imageUrl)
  }

  /** A new item is appended; an edit replaces every item with the edited
      id and keeps the rest in place. */
  function ItemsAfterSave(items: seq<MenuItem>, editing: Option<MenuItem>, item: MenuItem): (r: seq<MenuItem>)
    ensures editing.None? ==> r == items + [item]
    ensures editing.Some? ==>
      && |r| == |items|
      && forall k :: 0 <= k < |items| ==> r[k] == if items[k].id == editing.value.id then item else items[k]
  {
    if editing.Some? then UpdateById(items, MenuItemId, editing.value.id, (_: MenuItem) => item)
    else items + [item]
  }

  /** `handleSaveItem`'s update: in the restaurant with `me`'s id, replace the
      items with the edited id by `item` (the count stays), or append `item`
      when nothing is being edited. Other restaurants do not change. */
  function SaveItem(live: GlobalState, me: Option<Restaurant>, editing: Option<MenuItem>, item: MenuItem): (r: GlobalState)
    ensures me.None? ==> r == live
    ensures r.(restaurants := live.restaurants) == live
    ensures |r.restaurants| == |live.restaurants|
    ensures forall i :: 0 <= i < |live.restaurants| ==>
      var old_ := live.restaurants[i];
      var new_ := r.restaurants[i];
      if me.None? || old_.id != me.value.id then new_ == old_
      else
        && new_ == old_.(items := new_.items)
        && (editing.None? ==> new_.items == old_.items + [item])
        && (editing.Some? ==>
              && |new_.items| == |old_.items|
              && forall k :: 0 <= k < |old_.items| ==>
                   new_.items[k] == if old_.items[k].id == editing.value.id then item else old_.items[k])
  {
    match me
    case None => live
    case Some(rest) =>
      live.(restaurants := UpdateById(live.restaurants, RestaurantIdOf, rest.id,
                                      (x: Restaurant) => x.(items := ItemsAfterSave(x.items, editing, item))))
  }

  // ---------------------------------------------------------------------------
  // Adding a category

  /** The characters `String.prototype.trim` removes: white space and line
      terminators. */
  predicate IsJsSpace(c: char)
  {
    var n := c as int;
    n == 0x09 || n == 0x0A || n == 0x0B || n == 0x0C || n == 0x0D || n == 0x20 || n == 0xA0
    || n == 0x1680 || (0x2000 <= n <= 0x200A) || n == 0x2028 || n == 0x2029 || n == 0x202F
    || n == 0x205F || n == 0x3000 || n == 0xFEFF
  }

  /** Number of leading spaces. */
  function LeadingSpaces(s: string): (n: nat)
    ensures n <= |s|
    ensures forall k :: 0 <= k < n ==> IsJsSpace(s[k])
    ensures n < |s| ==> !IsJsSpace(s[n])
    decreases |s|
  {
    if |s| == 0 || !IsJsSpace(s[0]) then 0 else 1 + LeadingSpaces(s[1..])
  }

  /** Length without the trailing spaces. */
  function TrimmedEnd(s: string): (m: nat)
    ensures m <= |s|
    ensures forall k :: m <= k < |s| ==> IsJsSpace(s[k])
    ensures m > 0 ==> !IsJsSpace(s[m - 1])
    decreases |s|
  {
    if |s| == 0 || !IsJsSpace(s[|s| - 1]) then |s| else TrimmedEnd(s[..|s| - 1])
  }

  /** `s.trim()`: the part of `s` between its leading and trailing spaces;
      empty exactly when `s` is all spaces. */
  function Trim(s: string): (r: string)
    ensures r == [] <==> forall k :: 0 <= k < |s| ==> IsJsSpace(s[k])
    ensures r != [] ==> !IsJsSpace(r[0]) && !IsJsSpace(r[|r| - 1])
    ensures r != [] ==> r == s[LeadingSpaces(s)..TrimmedEnd(s)]
  {
    var n := LeadingSpaces(s);
    if n == |s| then []
    else
      var m := TrimmedEnd(s);
      assert n < m;
      s[n..m]
  }

  /** Trimming twice is trimming once. */
  lemma TrimIdempotent(s: string)
    ensures Trim(Trim(s)) == Trim(s)
  {
    var t := Trim(s);
    if t != [] {
      assert LeadingSpaces(t) == 0;
      assert TrimmedEnd(t) == |t|;
      assert t[0..|t|] == t;
    }
  }

  /** `handleAddCategory`: nothing happens for a blank name or without a
      restaurant; otherwise the trimmed name is appended to the categories
      (an absent list counts as empty) of the restaurant with `me`'s id. */
  function AddCategory(live: GlobalState, me: Option<Restaurant>, name: string): (r: GlobalState)
    ensures Trim(name) == [] || me.None? ==> r == live
    ensures r.(restaurants := live.restaurants) == live
    ensures |r.restaurants| == |live.restaurants|
    ensures Trim(name) != [] && me.Some? ==>
      forall i :: 0 <= i < |live.restaurants| ==>
        r.restaurants[i] ==
          if live.restaurants[i].id == me.value.id
          then live.restaurants[i].(categories := Some(live.restaurants[i].categories.GetOr([]) + [Trim(name)]))
          else live.restaurants[i]
  {
    if Trim(name) == [] || me.None? then live
    else
      var cat := Trim(name);
      live.(restaurants := UpdateById(live.restaurants, RestaurantIdOf, me.value.id,
                                      (x: Restaurant) => x.(categories := Some(x.categories.GetOr([]) + [cat]))))
  }

  // ---------------------------------------------------------------------------
  // The merchant voice tool

  /** The arguments the model sends; the spread `...args` lets an `id` among
      them replace the generated one. Absent text fields are empty and an
      absent price is 0. */
  datatype MenuItemArgs = MenuItemArgs(
    id: Option<string>,
    name: Option<string>,
    price: Option<real>,
    description: Option<string>,
    category: Option<string>)

  datatype ToolStatus = Success

  const AddMenuItemTool: string := "addMenuItem"

  /** The item an `addMenuItem` call adds: a given field is taken as is (an
      empty name or category included), an absent id is the fresh one, an
      absent price is 0, other absent fields are empty, and the image is the
      generated one. */
  function ToolItem(args: MenuItemArgs, freshId: string, generated: Option<string>): (i: MenuItem)
    ensures args.id.Some? ==> i.id == args.id.value
    ensures args.id.None? ==> i.id == freshId
    ensures args.name.None? ==> i.name == ""
    ensures args.price.None? ==> i.price == 0.0
    ensures args.description.None? ==> i.description == ""
    ensures args.category.None? ==> i.category == ""
    ensures args.name.Some? ==> i.name == args.name.value
    ensures args.price.Some? ==> i.price == args.price.value
    ensures args.description.Some? ==> i.description == args.description.value
    ensures args.category.Some? ==> i.category == args.category.value
    ensures i.imageUrl == generated
  {
    MenuItem(args.id.GetOr(freshId), args.name.GetOr(""), args.price.GetOr(0.0),
             args.description.GetOr(""), args.category.GetOr(""), generated)
  }

  /** The merchant handler's context: the app state it updates and the
      number of `addMenuItem` calls handled so far. Each such call awaits its
      own generated image and then reads the clock for its own id, so the
      k-th call's id and image are `ids(k)` and `images(k)`. */
  datatype MerchantContext = MerchantContext(live: GlobalState, added: nat)

  /** The `onFunctionCall` of the merchant session: `addMenuItem` appends
      one item, with the call's own id and image, to the restaurant logged in
      at the time of the update; every call, whatever its name, answers
      success. */
  function AddMenuItemCall(h: MerchantContext, name: string, args: MenuItemArgs,
                           ids: nat -> string, images: nat -> Option<string>)
    : (r: HandlerStep<MerchantContext, ToolStatus>)
    ensures r.Returned? && r.result == Success
    ensures name != AddMenuItemTool ==> r.state == h
    ensures name == AddMenuItemTool ==> r.state.added == h.added + 1
    ensures r.state.live.(restaurants := h.live.restaurants) == h.live
    ensures |r.state.live.restaurants| == |h.live.restaurants|
    ensures name == AddMenuItemTool ==>
      forall i :: 0 <= i < |h.live.restaurants| ==>
        r.state.live.restaurants[i] ==
          if Some(h.live.restaurants[i].id) == h.live.loggedInRestaurantId
          then h.live.restaurants[i].(items := h.live.restaurants[i].items + [ToolItem(args, ids(h.added), images(h.added))])
          else h.live.restaurants[i]
  {
    if name != AddMenuItemTool then Returned(h, Success)
    else
      var live := h.live;
      var item := ToolItem(args, ids(h.added), images(h.added));
      var rs := MapWhere(live.restaurants, (x: Restaurant) => Some(x.id) == live.loggedInRestaurantId,
                         (x: Restaurant) => x.(items := x.items + [item]));
      Returned(MerchantContext(live.(restaurants := rs), h.added + 1), Success)
  }

  function MerchantHandler(ids: nat -> string, images: nat -> Option<string>)
    : (MerchantContext, string, MenuItemArgs) -> HandlerStep<MerchantContext, ToolStatus>
  {
    (h, name, args) => AddMenuItemCall(h, name, args, ids, images)
  }

  /** The merchant handler never throws, so every call of a tool-call
      message is answered. */
  lemma MerchantAnswersEveryCall(h: MerchantContext, calls: seq<FunctionCall<MenuItemArgs>>,
                                 ids: nat -> string, images: nat -> Option<string>)
    ensures !Dispatch(h, calls, MerchantHandler(ids, images)).threw
    ensures |Dispatch(h, calls, MerchantHandler(ids, images)).responses| == |calls|
  {
    DispatchTotal(h, calls, MerchantHandler(ids, images));
  }

  /** Two `addMenuItem` calls in a row add two items to the logged-in
      restaurant, in call order, each with its own id and image. */
  lemma TwoAdditions(h: MerchantContext, a1: MenuItemArgs, a2: MenuItemArgs,
                     ids: nat -> string, images: nat -> Option<string>)
    ensures
      var r1 := AddMenuItemCall(h, AddMenuItemTool, a1, ids, images).state;
      var r2 := AddMenuItemCall(r1, AddMenuItemTool, a2, ids, images).state;
      && r2.added == h.added + 2
      && forall i :: 0 <= i < |h.live.restaurants| && Some(h.live.restaurants[i].id) == h.live.loggedInRestaurantId ==>
           r2.live.restaurants[i].items
             == h.live.restaurants[i].items + [ToolItem(a1, ids(h.added), images(h.added)),
                                                ToolItem(a2, ids(h.added + 1), images(h.added + 1))]
  {
    var r1 := AddMenuItemCall(h, AddMenuItemTool, a1, ids, images).state;
    var r2 := AddMenuItemCall(r1, AddMenuItemTool, a2, ids, images).state;
    forall i | 0 <= i < |h.live.restaurants| && Some(h.live.restaurants[i].id) == h.live.loggedInRestaurantId
      ensures r2.live.restaurants[i].items
                == h.live.restaurants[i].items + [ToolItem(a1, ids(h.added), images(h.added)),
                                                   ToolItem(a2, ids(h.added + 1), images(h.added + 1))]
    {
      assert r1.live.restaurants[i].id == h.live.restaurants[i].id;
      assert r1.live.loggedInRestaurantId == h.live.loggedInRestaurantId;
    }
  }

  /** `handleVoiceSetup`: stop a running session; without a restaurant do
      nothing; otherwise clear the transcript and start a session. */
  function VoiceSetup(s: Session, me: Option<Restaurant>, hasApiKey: bool, micGranted: bool): (r: Session)
    ensures s.active ==> r == Stop(s)
    ensures !s.active && me.None? ==> r == s
    ensures !s.active && me.Some? ==> r == StartAsWritten(s.(transcript := []), hasApiKey, micGranted)
  {
    if s.active then Stop(s)
    else if me.None? then s
    else StartAsWritten(s.(transcript := []), hasApiKey, micGranted)
  }

  // ---------------------------------------------------------------------------
  // Orders

  function ReceivedBy(id: Option<string>): Order -> bool
  {
    (o: Order) => Some(o.restaurantId) == id
  }

  /** The restaurant's orders, newest first. */
  function RestaurantOrders(s: GlobalState): (r: seq<Order>)
    ensures multiset(r) == multiset(Filter(s.orders, ReceivedBy(s.loggedInRestaurantId)))
    ensures forall i :: 0 <= i < |r| ==> r[i] in s.orders && Some(r[i].restaurantId) == s.loggedInRestaurantId
    ensures forall i, j :: 0 <= i < j < |r| ==> r[i].createdAt >= r[j].createdAt
  {
    var mine := Filter(s.orders, ReceivedBy(s.loggedInRestaurantId));
    var r := NewestFirst(mine);
    SameElementsIn(r, mine, s.orders, ReceivedBy(s.loggedInRestaurantId));
    r
  }

  /** A status button on the card of order `shown`: it sets the next status
      on the current orders with that id, and only there. */
  function PressStatusButton(orders: seq<Order>, shown: Order): (r: seq<Order>)
    ensures RestaurantNext(shown.status).None? ==> r == orders
    ensures |r| == |orders|
    ensures RestaurantNext(shown.status).Some? ==>
      forall i :: 0 <= i < |orders| ==>
        r[i] == if orders[i].id == shown.id then orders[i].(status := RestaurantNext(shown.status).value) else orders[i]
  {
    match RestaurantNext(shown.status)
    case None => orders
    case Some(next) => SetStatus(orders, shown.id, next)
  }

  /** The payout shown on an order: the food subtotal less the platform's
      commission at the restaurant's percentage (absent means 0). */
  function NetPayout(o: Order, pct: Option<real>): (net: real)
    ensures net + CommissionOn(FoodSubtotal(o), pct) == o.total - o.deliveryFee
    ensures pct.None? ==> net == o.total - o.deliveryFee
  {
    FoodSubtotal(o) - CommissionOn(FoodSubtotal(o), pct)
  }

  /** With a percentage between 0 and 100, the payout lies between nothing
      and the whole food subtotal. */
  lemma NetPayoutBounds(o: Order, pct: Option<real>)
    requires 0.0 <= Percent(pct) <= 100.0 && FoodSubtotal(o) >= 0.0
    ensures 0.0 <= NetPayout(o, pct) <= FoodSubtotal(o)
  {
    var f := FoodSubtotal(o);
    var q := Percent(pct) / 100.0;
    assert NetPayout(o, pct) == f * (1.0 - q);
    assert 0.0 <= f * q <= f;
  }

  // ---------------------------------------------------------------------------
  // itemCounts

  datatype ItemCount = ItemCount(name: string, count: nat, price: real)

  function NameIs(n: string): MenuItem -> bool
  {
    (i: MenuItem) => i.name == n
  }

  function RowNamed(n: string): ItemCount -> bool
  {
    (c: ItemCount) => c.name == n
  }

  /** One step of the `reduce`: count the item under its name, opening the
      entry with the item's price on its first occurrence. Entries keep
      their names and prices; only the first entry of the item's name is
      counted up, and a new entry is appended exactly when there is none. */
  function CountItem(rows: seq<ItemCount>, item: MenuItem): (r: seq<ItemCount>)
    ensures |rows| <= |r| <= |rows| + 1
    ensures forall i :: 0 <= i < |rows| ==>
      && r[i].name == rows[i].name && r[i].price == rows[i].price
      && r[i].count == rows[i].count + (if FindIndex(rows, RowNamed(item.name)) == Some(i) then 1 else 0)
    ensures |r| == |rows| + 1 <==> forall i :: 0 <= i < |rows| ==> rows[i].name != item.name
    ensures |r| == |rows| + 1 ==> r[|rows|] == ItemCount(item.name, 1, item.price)
  {
    match FindIndex(rows, RowNamed(item.name))
    case None => rows + [ItemCount(item.name, 1, item.price)]
    case Some(k) => rows[k := rows[k].(count := rows[k].count + 1)]
  }

  /** `order.items.reduce(...)`: one entry per item name, opened in the
      order the names first occur. */
  function ItemCounts(items: seq<MenuItem>): (r: seq<ItemCount>)
    ensures |r| <= |items|
    decreases |items|
  {
    if |items| == 0 then [] else CountItem(ItemCounts(items[..|items| - 1]), items[|items| - 1])
  }

  predicate NamesDistinct(rows: seq<ItemCount>)
  {
    forall i, j :: 0 <= i < j < |rows| ==> rows[i].name != rows[j].name
  }

  /** Each name has at most one entry. */
  lemma {:induction false} ItemCountsDistinct(items: seq<MenuItem>)
    ensures NamesDistinct(ItemCounts(items))
    decreases |items|
  {
    if |items| > 0 {
      ItemCountsDistinct(items[..|items| - 1]);
    }
  }

  /** The row property for one name, carried over one more item. */
  ghost predicate RowOk(items: seq<MenuItem>, rows: seq<ItemCount>, n: string)
  {
    var m := FindIndex(rows, RowNamed(n));
    && (m.Some? <==> Find(items, NameIs(n)).Some?)
    && (m.Some? ==>
          && rows[m.value].count == |Filter(items, NameIs(n))|
          && rows[m.value].price == Find(items, NameIs(n)).value.price)
  }

  lemma CountItemRow(init: seq<MenuItem>, rows: seq<ItemCount>, x: MenuItem, n: string)
    requires RowOk(init, rows, n)
    ensures RowOk(init + [x], CountItem(rows, x), n)
  {
    var items := init + [x];
    assert items[..|items| - 1] == init;
    var r := CountItem(rows, x);
    FindIndexExtend(rows, r, RowNamed(n));
    FindAppend(init, x, NameIs(n));
    assert Filter(items, NameIs(n)) == Filter(init, NameIs(n)) + (if x.name == n then [x] else []);
    var m := FindIndex(rows, RowNamed(n));
    if m.Some? {
      if x.name == n {
        assert RowNamed(x.name) == RowNamed(n);
      }
    } else {
      FilterNone(init, NameIs(n));
      if x.name == n {
        assert r[|rows|] == ItemCount(n, 1, x.price);
      }
    }
  }

  /** The entry of name `n`, if any, is the first one of that name, counts
      the items of that name and carries the price of the first of them; it
      exists exactly when some item has that name. */
  lemma {:induction false} ItemCountsRow(items: seq<MenuItem>, n: string)
    ensures RowOk(items, ItemCounts(items), n)
    decreases |items|
  {
    if |items| > 0 {
      var init := items[..|items| - 1];
      var x := items[|items| - 1];
      assert items == init + [x];
      ItemCountsRow(init, n);
      CountItemRow(init, ItemCounts(init), x, n);
    }
  }

  function TotalCount(rows: seq<ItemCount>): nat
    decreases |rows|
  {
    if |rows| == 0 then 0 else TotalCount(rows[..|rows| - 1]) + rows[|rows| - 1].count
  }

  lemma {:induction false} TotalCountUpdate(rows: seq<ItemCount>, k: nat, row: ItemCount)
    requires k < |rows|
    ensures TotalCount(rows[k := row]) == TotalCount(rows) - rows[k].count + row.count
    decreases |rows|
  {
    var init := rows[..|rows| - 1];
    if k < |rows| - 1 {
      assert rows[k := row][..|rows| - 1] == init[k := row];
      TotalCountUpdate(init, k, row);
    } else {
      assert rows[k := row][..|rows| - 1] == init;
    }
  }

  /** The counts add up to the number of items. */
  lemma {:induction false} ItemCountsTotal(items: seq<MenuItem>)
    ensures TotalCount(ItemCounts(items)) == |items|
    decreases |items|
  {
    if |items| > 0 {
      var init := items[..|items| - 1];
      var x := items[|items| - 1];
      ItemCountsTotal(init);
      var rows := ItemCounts(init);
      match FindIndex(rows, RowNamed(x.name))
      case None =>
        assert (rows + [ItemCount(x.name, 1, x.price)])[..|rows|] == rows;
      case Some(k) =>
        TotalCountUpdate(rows, k, rows[k].(count := rows[k].count + 1));
    }
  }

  /** What `itemCounts` promises about name `n`: an entry of that name
      exists exactly when an item has it, and each such entry counts the
      items of that name and carries the price of the first of them. */
  ghost predicate CountsFor(items: seq<MenuItem>, rows: seq<ItemCount>, n: string)
  {
    && ((exists i :: 0 <= i < |rows| && rows[i].name == n) <==> (exists k :: 0 <= k < |items| && items[k].name == n))
    && (forall i :: 0 <= i < |rows| && rows[i].name == n ==>
          && rows[i].count == |Filter(items, NameIs(n))|
          && rows[i].price == Find(items, NameIs(n)).value.price)
  }

  lemma RowsSpec(items: seq<MenuItem>, rows: seq<ItemCount>, n: string)
    requires NamesDistinct(rows) && RowOk(items, rows, n)
    ensures CountsFor(items, rows, n)
  {
    var m := FindIndex(rows, RowNamed(n));
    if exists k :: 0 <= k < |items| && items[k].name == n {
      var k :| 0 <= k < |items| && items[k].name == n;
      assert NameIs(n)(items[k]);
    }
    if exists i :: 0 <= i < |rows| && rows[i].name == n {
      var i :| 0 <= i < |rows| && rows[i].name == n;
      assert RowNamed(n)(rows[i]);
    }
    forall i | 0 <= i < |rows| && rows[i].name == n
      ensures i == m.value
    {
      assert RowNamed(n)(rows[i]);
    }
  }

  /** The item counts of one order, for every name. */
  lemma ItemCountsSpec(items: seq<MenuItem>, n: string)
    ensures CountsFor(items, ItemCounts(items), n)
  {
    ItemCountsDistinct(items);
    ItemCountsRow(items, n);
    RowsSpec(items, ItemCounts(items), n);
  }
}
