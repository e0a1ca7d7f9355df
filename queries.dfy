/** The read-only pages: the active item list with its category and supplier
    pickers, and the movement history. */
module Queries {
  import opened Sqlite
  import opened Ledger

  /** LEFT JOIN on a lookup table by a nullable reference: the name of the
      row with that id, NULL when the reference is NULL or matches no row.
      Lookup ids are primary keys, so the first match is the only one. */
  function NameOf(table: seq<Named>, ref: Option<nat>): (r: Option<string>)
    ensures r.Some? ==> ref.Some? && Named(ref.value, r.value) in table
    ensures r.None? ==> ref.None? || ref.value !in NamedIds(table)
  {
    if ref.None? || table == [] then None
    else
      assert table == [table[0]] + table[1..];
      if table[0].id == ref.value then Some(table[0].name)
      else NameOf(table[1..], ref)
  }

  /** A row of the item list. */
  datatype ItemRow = ItemRow(
    id: nat,
    name: string,
    unit: string,
    stock: int,
    threshold: int,
    categoryName: Option<string>,
    supplierName: Option<string>)

  /** The SELECT list of the item list for one item: its own columns, and the
      names of its category and supplier, NULL when the reference is NULL or
      dangling. */
  function RowOf(it: Item, categories: seq<Named>, suppliers: seq<Named>): (r: ItemRow)
    ensures r.id == it.id && r.name == it.name && r.unit == it.unit
    ensures r.stock == it.stock && r.threshold == it.threshold
    ensures r.categoryName.Some? <==> it.categoryId.Some? && it.categoryId.value in NamedIds(categories)
    ensures r.categoryName.Some? ==> Named(it.categoryId.value, r.categoryName.value) in categories
    ensures r.supplierName.Some? <==> it.supplierId.Some? && it.supplierId.value in NamedIds(suppliers)
    ensures r.supplierName.Some? ==> Named(it.supplierId.value, r.supplierName.value) in suppliers
  {
    ItemRow(it.id, it.name, it.unit, it.stock, it.threshold,
            NameOf(categories, it.categoryId), NameOf(suppliers, it.supplierId))
  }

  /** `WHERE ITEMS.is_active = 1` with both joins, in table order. */
  function ActiveRows(items: seq<Item>, categories: seq<Named>, suppliers: seq<Named>): (r: seq<ItemRow>)
    ensures forall k :: 0 <= k < |items| && items[k].isActive ==> RowOf(items[k], categories, suppliers) in r
    ensures forall row :: row in r ==>
      exists k :: 0 <= k < |items| && items[k].isActive && row == RowOf(items[k], categories, suppliers)
  {
    if items == [] then []
    else
      var rest := ActiveRows(items[1..], categories, suppliers);
      assert forall k :: 1 <= k < |items| ==> items[k] == items[1..][k - 1];
      if items[0].isActive then [RowOf(items[0], categories, suppliers)] + rest else rest
  }

  /** `ORDER BY CATEGORIES.name ASC, ITEMS.name ASC`. */
  predicate ItemRowLeq(a: ItemRow, b: ItemRow)
  {
    if a.categoryName == b.categoryName then TextLeq(a.name, b.name)
    else NullableLeq(a.categoryName, b.categoryName)
  }

  lemma ItemRowOrder()
    ensures TotalPreorder(ItemRowLeq)
  {
    forall a: ItemRow, b: ItemRow
      ensures ItemRowLeq(a, b) || ItemRowLeq(b, a)
    {
      TextLeqTotal(a.name, b.name);
      NullableLeqTotalOrder(a.categoryName, b.categoryName, b.categoryName);
    }
    forall a: ItemRow, b: ItemRow, c: ItemRow | ItemRowLeq(a, b) && ItemRowLeq(b, c)
      ensures ItemRowLeq(a, c)
    {
      NullableLeqTotalOrder(a.categoryName, b.categoryName, c.categoryName);
      if a.categoryName == b.categoryName == c.categoryName {
        TextLeqTransitive(a.name, b.name, c.name);
      }
    }
  }

  /** The item list: exactly the active items, ordered by category name, NULL
      category first, and by item name within a category. */
  function ItemList(items: seq<Item>, categories: seq<Named>, suppliers: seq<Named>): (r: seq<ItemRow>)
    ensures multiset(r) == multiset(ActiveRows(items, categories, suppliers))
    ensures forall k :: 0 <= k < |items| && items[k].isActive ==> RowOf(items[k], categories, suppliers) in r
    ensures forall row :: row in r ==>
      exists k :: 0 <= k < |items| && items[k].isActive && row == RowOf(items[k], categories, suppliers)
    ensures forall i, j :: 0 <= i < j < |r| ==> NullableLeq(r[i].categoryName, r[j].categoryName)
    ensures forall i, j :: 0 <= i < j < |r| && r[i].categoryName == r[j].categoryName ==>
      TextLeq(r[i].name, r[j].name)
  {
    ItemRowOrder();
    var rows := ActiveRows(items, categories, suppliers);
    var sorted := SortBy(rows, ItemRowLeq);
    SameRows(sorted, rows);
    assert forall i, j :: 0 <= i < j < |sorted| ==> ItemRowLeq(sorted[i], sorted[j]);
    forall i, j | 0 <= i < j < |sorted|
      ensures NullableLeq(sorted[i].categoryName, sorted[j].categoryName)
    {
      NullableLeqTotalOrder(sorted[i].categoryName, sorted[i].categoryName, sorted[i].categoryName);
    }
    sorted
  }

  /** `ORDER BY name` on a lookup table. */
  predicate NameLeq(a: Named, b: Named)
  {
    TextLeq(a.name, b.name)
  }

  lemma NameOrder()
    ensures TotalPreorder(NameLeq)
  {
    forall a: Named, b: Named
      ensures NameLeq(a, b) || NameLeq(b, a)
    {
      TextLeqTotal(a.name, b.name);
    }
    forall a: Named, b: Named, c: Named | NameLeq(a, b) && NameLeq(b, c)
      ensures NameLeq(a, c)
    {
      TextLeqTransitive(a.name, b.name, c.name);
    }
  }

  /** `SELECT id, name FROM <table> ORDER BY name`: the category and supplier
      pickers of the item page. */
  function ByName(table: seq<Named>): (r: seq<Named>)
    ensures multiset(r) == multiset(table)
    ensures forall i, j :: 0 <= i < j < |r| ==> TextLeq(r[i].name, r[j].name)
  {
    NameOrder();
    var sorted := SortBy(table, NameLeq);
    assert forall i, j :: 0 <= i < j < |sorted| ==> NameLeq(sorted[i], sorted[j]);
    sorted
  }

  /** A row of the movement history. */
  datatype MovementRow = MovementRow(
    id: nat,
    itemId: nat,
    userId: nat,
    quantityChange: int,
    movementType: string,
    memo: string,
    createdAt: int,
    itemName: Option<string>,
    userName: Option<string>)

  /** LEFT JOIN ITEMS and LEFT JOIN USERS for one movement. */
  function HistoryRowOf(m: Movement, items: seq<Item>, users: seq<Named>): (r: MovementRow)
    ensures r.id == m.id && r.itemId == m.itemId && r.userId == m.userId
    ensures r.quantityChange == m.quantityChange && r.movementType == m.movementType
    ensures r.memo == m.memo && r.createdAt == m.createdAt
    ensures r.itemName.Some? <==> m.itemId in ItemIds(items)
    ensures r.itemName.Some? ==> exists it :: it in items && it.id == m.itemId && it.name == r.itemName.value
    ensures r.userName.Some? <==> m.userId in NamedIds(users)
    ensures r.userName.Some? ==> Named(m.userId, r.userName.value) in users
  {
    var itemName := match FindItem(items, m.itemId)
      case None => None
      case Some(it) => Some(it.name);
    MovementRow(m.id, m.itemId, m.userId, m.quantityChange, m.movementType, m.memo, m.createdAt,
                itemName, NameOf(users, Some(m.userId)))
  }

  /** The joined movements in table order, before ORDER BY. */
  function HistoryRows(movements: seq<Movement>, items: seq<Item>, users: seq<Named>): seq<MovementRow>
  {
    seq(|movements|, k requires 0 <= k < |movements| => HistoryRowOf(movements[k], items, users))
  }

  /** Any permutation of the history rows has one row per movement, and its
      rows are exactly the joined movements. */
  lemma HistoryRowsMembers(movements: seq<Movement>, items: seq<Item>, users: seq<Named>, r: seq<MovementRow>)
    requires multiset(r) == multiset(HistoryRows(movements, items, users))
    ensures |r| == |movements|
    ensures forall k :: 0 <= k < |movements| ==> HistoryRowOf(movements[k], items, users) in r
    ensures forall row :: row in r ==>
      exists k :: 0 <= k < |movements| && row == HistoryRowOf(movements[k], items, users)
  {
    var rows := HistoryRows(movements, items, users);
    SameRows(r, rows);
    assert |r| == |multiset(r)| == |multiset(rows)| == |rows|;
    assert forall k :: 0 <= k < |movements| ==> rows[k] == HistoryRowOf(movements[k], items, users);
  }

  /** `ORDER BY STOCKMOVEMENTS.created_at DESC`. */
  predicate NewerFirst(a: MovementRow, b: MovementRow)
  {
    a.createdAt >= b.createdAt
  }

  lemma NewerFirstOrder()
    ensures TotalPreorder(NewerFirst)
  {
  }

  /** The movement history: one row per movement, newest first. */
  function MovementList(movements: seq<Movement>, items: seq<Item>, users: seq<Named>): (r: seq<MovementRow>)
    ensures |r| == |movements|
    ensures multiset(r) == multiset(HistoryRows(movements, items, users))
    ensures forall k :: 0 <= k < |movements| ==> HistoryRowOf(movements[k], items, users) in r
    ensures forall row :: row in r ==>
      exists k :: 0 <= k < |movements| && row == HistoryRowOf(movements[k], items, users)
    ensures forall i, j :: 0 <= i < j < |r| ==> r[i].createdAt >= r[j].createdAt
  {
    var rows := HistoryRows(movements, items, users);
    NewerFirstOrder();
    var sorted := SortBy(rows, NewerFirst);
    HistoryRowsMembers(movements, items, users, sorted);
    assert forall i, j :: 0 <= i < j < |sorted| ==> NewerFirst(sorted[i], sorted[j]);
    sorted
  }
}
