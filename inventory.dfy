/** The write paths of the inventory application: registering an item, and
    recording stock-in and stock-out movements through the one routine that
    appends a movement and adjusts the item's stock together. */
module Inventory {
  import opened Sqlite
  import opened Text
  import opened Ledger

  /** How a request ends. ForeignKeyViolation is the store rejecting an
      INSERT whose reference names no row; the request then fails and
      nothing is committed. */
  datatype Outcome = Ok | NotFound | ValidationError | ForeignKeyViolation

  /** An optional id field of the item form: not sent, sent empty, or an id. */
  datatype Field = Missing | Blank | Given(id: nat)

  /** `request.form.get(field) or None`: a missing or empty field is NULL. */
  function OrNone(f: Field): Option<nat>
  {
    if f.Given? then Some(f.id) else None
  }

  /** The user every stock movement is attributed to. */
  const PLACEHOLDER_USER: nat := 1

  /** The database: the lookup tables, which the core only reads, and the
      ITEMS and STOCKMOVEMENTS tables, which it writes. */
  class Database {
    const categories: seq<Named>
    const suppliers: seq<Named>
    const users: seq<Named>
    var items: seq<Item>
    var movements: seq<Movement>
    /** The stock each item was inserted with. */
    ghost var opening: map<nat, int>

    ghost predicate Valid()
      reads this
    {
      && WellFormed(items, movements, categories, suppliers, users)
      && Reconciled(items, movements, opening)
    }

    /** A database whose ITEMS and STOCKMOVEMENTS tables are empty. */
    constructor (categories: seq<Named>, suppliers: seq<Named>, users: seq<Named>)
      ensures Valid()
      ensures this.categories == categories && this.suppliers == suppliers && this.users == users
      ensures items == [] && movements == [] && opening == map[]
    {
      this.categories := categories;
      this.suppliers := suppliers;
      this.users := users;
      items := [];
      movements := [];
      opening := map[];
    }

    /** Inserts the movement row and adds quantityChange to the item's stock,
        as one step. Either INSERT reference may name no row, in which case
        the store rejects the INSERT and nothing changes. */
    method CreateStockMovement(
      itemId: nat, userId: nat, quantityChange: int, movementType: string, memo: string, createdAt: int)
      returns (outcome: Outcome)
      requires Valid()
      modifies this
      ensures Valid() && opening == old(opening)
      ensures outcome == (if itemId in ItemIds(old(items)) && userId in NamedIds(users) then Ok else ForeignKeyViolation)
      ensures outcome == Ok ==>
        && movements == old(movements)
             + [Movement(NextMovementId(old(movements)), itemId, userId, quantityChange, movementType, memo, createdAt)]
        && items == AddStock(old(items), itemId, quantityChange)
      ensures outcome != Ok ==> items == old(items) && movements == old(movements)
    {
      if itemId !in ItemIds(items) || userId !in NamedIds(users) {
        outcome := ForeignKeyViolation;
        return;
      }
      var m := Movement(NextMovementId(movements), itemId, userId, quantityChange, movementType, memo, createdAt);
      RecordKeepsReconciled(items, movements, opening, m);
      RecordKeepsWellFormed(items, movements, categories, suppliers, users, m);
      movements := movements + [m];
      items := AddStock(items, itemId, quantityChange);
      outcome := Ok;
    }

    /** POST /items/<itemId>/in: records +quantity as an IN movement. */
    method StockIn(itemId: nat, quantity: int, memo: string, createdAt: int) returns (outcome: Outcome)
      requires Valid()
      modifies this
      ensures Valid() && opening == old(opening)
      ensures outcome ==
        if itemId !in ItemIds(old(items)) then NotFound
        else if PLACEHOLDER_USER !in NamedIds(users) then ForeignKeyViolation
        else Ok
      ensures outcome == Ok ==>
        && movements == old(movements)
             + [Movement(NextMovementId(old(movements)), itemId, PLACEHOLDER_USER, quantity, "IN", memo, createdAt)]
        && items == AddStock(old(items), itemId, quantity)
        && (SignAgrees(movements[|movements| - 1]) <==> quantity > 0)
      ensures outcome != Ok ==> items == old(items) && movements == old(movements)
    {
      var found := FindItem(items, itemId);
      if found.None? {
        outcome := NotFound;
        return;
      }
      outcome := CreateStockMovement(itemId, PLACEHOLDER_USER, quantity, "IN", memo, createdAt);
      if outcome == Ok {
        var last := movements[|movements| - 1];
        assert last.movementType == "IN" && last.quantityChange == quantity;
        assert "IN" != "OUT";
      }
    }

    /** POST /items/<itemId>/out: records -quantity as an OUT movement. Stock
        may become negative. */
    method StockOut(itemId: nat, quantity: int, memo: string, createdAt: int) returns (outcome: Outcome)
      requires Valid()
      modifies this
      ensures Valid() && opening == old(opening)
      ensures outcome ==
        if itemId !in ItemIds(old(items)) then NotFound
        else if PLACEHOLDER_USER !in NamedIds(users) then ForeignKeyViolation
        else Ok
      ensures outcome == Ok ==>
        && movements == old(movements)
             + [Movement(NextMovementId(old(movements)), itemId, PLACEHOLDER_USER, -quantity, "OUT", memo, createdAt)]
        && items == AddStock(old(items), itemId, -quantity)
        && (SignAgrees(movements[|movements| - 1]) <==> quantity > 0)
      ensures outcome != Ok ==> items == old(items) && movements == old(movements)
    {
      var found := FindItem(items, itemId);
      if found.None? {
        outcome := NotFound;
        return;
      }
      outcome := CreateStockMovement(itemId, PLACEHOLDER_USER, -quantity, "OUT", memo, createdAt);
      if outcome == Ok {
        var last := movements[|movements| - 1];
        assert last.movementType == "OUT" && last.quantityChange == -quantity;
        assert "OUT" != "IN";
      }
    }

    /** POST /items/new: inserts an active item with the stripped name and
        unit, unless either of them is empty after stripping. No movement is
        recorded: the given stock is the item's opening stock. */
    method ItemCreate(name: string, unit: string, stock: int, threshold: int, category: Field, supplier: Field)
      returns (outcome: Outcome)
      requires Valid()
      modifies this
      ensures Valid() && movements == old(movements)
      ensures outcome ==
        if Strip(name) == [] || Strip(unit) == [] then ValidationError
        else if !RefersTo(OrNone(category), categories) || !RefersTo(OrNone(supplier), suppliers) then ForeignKeyViolation
        else Ok
      ensures outcome == Ok ==>
        var id := NextItemId(old(items));
        && items == old(items)
             + [Item(id, Strip(name), Strip(unit), stock, threshold, true, OrNone(category), OrNone(supplier))]
        && opening == old(opening)[id := stock]
      ensures outcome != Ok ==> items == old(items) && opening == old(opening)
    {
      var trimmedName := Strip(name);
      var trimmedUnit := Strip(unit);
      if trimmedName == [] || trimmedUnit == [] {
        outcome := ValidationError;
        return;
      }
      var categoryId := OrNone(category);
      var supplierId := OrNone(supplier);
      if !RefersTo(categoryId, categories) || !RefersTo(supplierId, suppliers) {
        outcome := ForeignKeyViolation;
        return;
      }
      var it := Item(NextItemId(items), trimmedName, trimmedUnit, stock, threshold, true, categoryId, supplierId);
      CreateKeepsWellFormed(items, movements, categories, suppliers, users, it);
      CreateKeepsReconciled(items, movements, opening, it);
      items := items + [it];
      opening := opening[it.id := stock];
      outcome := Ok;
    }
  }


  /** A name of whitespace only is rejected and inserts nothing. */
  method BlankNameScenario()
  {
    var db := new Database([], [], [Named(PLACEHOLDER_USER, "admin")]);
    var blank := " \t";
    assert IsSpace(blank[0]) && IsSpace(blank[1]);
    var r := db.ItemCreate(blank, "L", 10, 3, Blank, Missing);
    assert r == ValidationError && db.items == [] && db.movements == [];
  }

  /** An item with stock 10: five in, five out, then twenty out. */
  method StockScenario(db: Database)
    requires db.Valid() && |db.items| == 1 && db.items[0].id == 1 && db.items[0].stock == 10
    requires PLACEHOLDER_USER in NamedIds(db.users)
    modifies db
  {
    assert 1 in ItemIds(db.items) by { assert db.items[0] in db.items; }
    var r := db.StockIn(1, 5, "", 100);
    assert r == Ok && db.items[0].stock == 15;
    r := db.StockOut(1, 5, "", 101);
    assert r == Ok && db.items[0].stock == 10;
    r := db.StockOut(1, 20, "", 102);
    assert r == Ok && db.items[0].stock == -10 && |db.movements| == old(|db.movements|) + 3;
  }

  /** A movement against an item that does not exist is refused and writes nothing. */
  method MissingItemScenario(db: Database)
    requires db.Valid() && |db.items| == 1 && db.items[0].id == 1
    modifies db
  {
    assert 2 !in ItemIds(db.items);
    var r := db.StockIn(2, 5, "", 103);
    assert r == NotFound && db.items == old(db.items) && db.movements == old(db.movements);
  }
}
