/** The rows of the inventory database and the facts about them that the
    stock ledger keeps: every item's stock is its opening stock plus the net
    quantity recorded against it in the append-only movement log. */
module Ledger {
  import opened Sqlite

  /** A row of ITEMS. */
  datatype Item = Item(
    id: nat,
    name: string,
    unit: string,
    stock: int,
    threshold: int,
    isActive: bool,
    categoryId: Option<nat>,
    supplierId: Option<nat>)

  /** A row of STOCKMOVEMENTS; createdAt is the timestamp the store assigns
      when the row is inserted. */
  datatype Movement = Movement(
    id: nat,
    itemId: nat,
    userId: nat,
    quantityChange: int,
    movementType: string,
    memo: string,
    createdAt: int)

  /** A row of a lookup table: CATEGORIES and SUPPLIERS (id, name), USERS (id, username). */
  datatype Named = Named(id: nat, name: string)

  function ItemIds(items: seq<Item>): set<nat>
  {
    set it | it in items :: it.id
  }

  function NamedIds(table: seq<Named>): set<nat>
  {
    set row | row in table :: row.id
  }

  /** A nullable foreign key is NULL or names a row of the table. */
  predicate RefersTo(ref: Option<nat>, table: seq<Named>)
  {
    ref.None? || ref.value in NamedIds(table)
  }

  /** `SELECT * FROM ITEMS WHERE id = ?` followed by fetchone(). */
  function FindItem(items: seq<Item>, id: nat): (r: Option<Item>)
    ensures r.Some? <==> id in ItemIds(items)
    ensures r.Some? ==> r.value in items && r.value.id == id
  {
    if items == [] then None
    else
      assert items == [items[0]] + items[1..];
      if items[0].id == id then Some(items[0])
      else FindItem(items[1..], id)
  }

  /** `UPDATE ITEMS SET stock = stock + delta WHERE id = ?`: every row with
      that id gains delta, every other row and every other column is kept. */
  function AddStock(items: seq<Item>, id: nat, delta: int): (r: seq<Item>)
    ensures |r| == |items|
    ensures forall k :: 0 <= k < |items| ==>
      r[k] == if items[k].id == id then items[k].(stock := items[k].stock + delta) else items[k]
  {
    if items == [] then []
    else
      var head := if items[0].id == id then items[0].(stock := items[0].stock + delta) else items[0];
      [head] + AddStock(items[1..], id, delta)
  }

  /** Adjusting stock changes no primary key. */
  lemma AddStockKeepsIds(items: seq<Item>, id: nat, delta: int)
    ensures ItemIds(AddStock(items, id, delta)) == ItemIds(items)
  {
  }

  /** The row id SQLite assigns to a new row of a table whose rows have ids
      id(row): one more than the largest id in the table, 1 for an empty table. */
  function NextRowId<T>(rows: seq<T>, id: T -> nat): (n: nat)
    ensures n >= 1
    ensures forall k :: 0 <= k < |rows| ==> id(rows[k]) < n
    ensures n == 1 || exists k :: 0 <= k < |rows| && id(rows[k]) == n - 1
  {
    if rows == [] then 1
    else
      var rest := NextRowId(rows[1..], id);
      if id(rows[0]) < rest then rest else id(rows[0]) + 1
  }

  function NextItemId(items: seq<Item>): nat
  {
    NextRowId(items, (it: Item) => it.id)
  }

  function NextMovementId(movements: seq<Movement>): nat
  {
    NextRowId(movements, (m: Movement) => m.id)
  }

  /** The sum of quantity_change over the movements recorded against item id. */
  function NetChange(movements: seq<Movement>, id: nat): int
  {
    if movements == [] then 0
    else
      (if movements[0].itemId == id then movements[0].quantityChange else 0)
      + NetChange(movements[1..], id)
  }

  lemma {:induction false} NetChangeAppend(movements: seq<Movement>, m: Movement, id: nat)
    ensures NetChange(movements + [m], id)
         == NetChange(movements, id) + (if m.itemId == id then m.quantityChange else 0)
  {
    if movements != [] {
      assert (movements + [m])[1..] == movements[1..] + [m];
      NetChangeAppend(movements[1..], m, id);
    }
  }

  /** An item no movement refers to has a net change of zero. */
  lemma {:induction false} NetChangeUnreferenced(movements: seq<Movement>, id: nat)
    requires forall k :: 0 <= k < |movements| ==> movements[k].itemId != id
    ensures NetChange(movements, id) == 0
  {
    if movements != [] {
      NetChangeUnreferenced(movements[1..], id);
    }
  }

  /** The ledger invariant: each item's stock is the stock it was created with
      plus the net change recorded against it. */
  ghost predicate Reconciled(items: seq<Item>, movements: seq<Movement>, opening: map<nat, int>)
  {
    forall k :: 0 <= k < |items| ==>
      && items[k].id in opening
      && items[k].stock == opening[items[k].id] + NetChange(movements, items[k].id)
  }

  /** Appending a movement and adding its change to its item's stock, as one
      step, keeps the ledger reconciled. */
  lemma RecordKeepsReconciled(items: seq<Item>, movements: seq<Movement>, opening: map<nat, int>, m: Movement)
    requires Reconciled(items, movements, opening)
    ensures Reconciled(AddStock(items, m.itemId, m.quantityChange), movements + [m], opening)
  {
    forall k | 0 <= k < |items| {
      NetChangeAppend(movements, m, items[k].id);
    }
  }

  /** Inserting an item with a fresh id that no movement refers to, and taking
      its stock as its opening stock, keeps the ledger reconciled. */
  lemma CreateKeepsReconciled(items: seq<Item>, movements: seq<Movement>, opening: map<nat, int>, it: Item)
    requires Reconciled(items, movements, opening)
    requires it.id !in ItemIds(items)
    requires forall k :: 0 <= k < |movements| ==> movements[k].itemId != it.id
    ensures Reconciled(items + [it], movements, opening[it.id := it.stock])
  {
    NetChangeUnreferenced(movements, it.id);
    forall k | 0 <= k < |items|
      ensures items[k].id != it.id
    {
      assert items[k] in items;
    }
  }

  /** The primary and foreign keys of ITEMS. */
  ghost predicate ItemKeys(items: seq<Item>, categories: seq<Named>, suppliers: seq<Named>)
  {
    && (forall i, j :: 0 <= i < j < |items| ==> items[i].id != items[j].id)
    && (forall k :: 0 <= k < |items| ==>
          RefersTo(items[k].categoryId, categories) && RefersTo(items[k].supplierId, suppliers))
  }

  /** The primary and foreign keys of STOCKMOVEMENTS. */
  ghost predicate MovementKeys(movements: seq<Movement>, items: seq<Item>, users: seq<Named>)
  {
    && (forall i, j :: 0 <= i < j < |movements| ==> movements[i].id != movements[j].id)
    && (forall k :: 0 <= k < |movements| ==>
          movements[k].itemId in ItemIds(items) && movements[k].userId in NamedIds(users))
  }

  /** The primary and foreign keys the store enforces. */
  ghost predicate WellFormed(
    items: seq<Item>, movements: seq<Movement>,
    categories: seq<Named>, suppliers: seq<Named>, users: seq<Named>)
  {
    ItemKeys(items, categories, suppliers) && MovementKeys(movements, items, users)
  }

  lemma AddStockKeepsItemKeys(items: seq<Item>, categories: seq<Named>, suppliers: seq<Named>, id: nat, delta: int)
    requires ItemKeys(items, categories, suppliers)
    ensures ItemKeys(AddStock(items, id, delta), categories, suppliers)
  {
  }

  lemma AppendKeepsMovementKeys(movements: seq<Movement>, items: seq<Item>, users: seq<Named>, m: Movement)
    requires MovementKeys(movements, items, users)
    requires m.id == NextMovementId(movements)
    requires m.itemId in ItemIds(items) && m.userId in NamedIds(users)
    ensures MovementKeys(movements + [m], items, users)
  {
  }

  /** A movement whose references name existing rows and whose id is the
      next row id keeps the keys intact when it is recorded. */
  lemma RecordKeepsWellFormed(
    items: seq<Item>, movements: seq<Movement>,
    categories: seq<Named>, suppliers: seq<Named>, users: seq<Named>, m: Movement)
    requires WellFormed(items, movements, categories, suppliers, users)
    requires m.id == NextMovementId(movements)
    requires m.itemId in ItemIds(items) && m.userId in NamedIds(users)
    ensures WellFormed(AddStock(items, m.itemId, m.quantityChange), movements + [m], categories, suppliers, users)
  {
    var r := AddStock(items, m.itemId, m.quantityChange);
    AddStockKeepsIds(items, m.itemId, m.quantityChange);
    AddStockKeepsItemKeys(items, categories, suppliers, m.itemId, m.quantityChange);
    AppendKeepsMovementKeys(movements, items, users, m);
    assert MovementKeys(movements + [m], r, users);
  }

  /** An item whose id is the next row id and whose references are NULL or
      name existing rows keeps the keys intact when it is inserted. */
  lemma CreateKeepsWellFormed(
    items: seq<Item>, movements: seq<Movement>,
    categories: seq<Named>, suppliers: seq<Named>, users: seq<Named>, it: Item)
    requires WellFormed(items, movements, categories, suppliers, users)
    requires it.id == NextItemId(items)
    requires RefersTo(it.categoryId, categories) && RefersTo(it.supplierId, suppliers)
    ensures WellFormed(items + [it], movements, categories, suppliers, users)
    ensures it.id !in ItemIds(items)
    ensures forall k :: 0 <= k < |movements| ==> movements[k].itemId != it.id
  {
  }

  /** The movement type agrees with the sign of the change it records. */
  predicate SignAgrees(m: Movement)
  {
    || (m.movementType == "IN" && m.quantityChange > 0)
    || (m.movementType == "OUT" && m.quantityChange < 0)
  }
}
