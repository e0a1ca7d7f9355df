# Café inventory ledger

A model of the inventory core of a small Flask/SQLite café stock tracker
(`app.py`). The application keeps an ITEMS table (name, unit, stock,
reorder threshold, active flag, optional category and supplier) and an
append-only STOCKMOVEMENTS log (item, user, signed quantity change, IN/OUT
type, memo, timestamp). Its write paths register items and record stock-in
and stock-out movements; its read paths list the active items and the
movement history.

The model holds the database as a class, `Inventory.Database`, whose ITEMS
and STOCKMOVEMENTS tables are sequences of rows in row-id order and whose
lookup tables (CATEGORIES, SUPPLIERS, USERS) are constant. The methods that
change it are proved to keep two invariants:

- the keys the store enforces (`Ledger.WellFormed`): distinct row ids, and
  every reference from an item to a category or supplier and from a movement
  to an item or user names an existing row;
- the ledger invariant (`Ledger.Reconciled`): every item's stock is the stock
  it was inserted with plus the sum of `quantity_change` over the movements
  recorded against it. Item creation records no movement, so the stock given
  at creation is the baseline (kept in the ghost field `opening`).

The queries are functions over the rows. ORDER BY is modelled as a sort by a
comparison proved to be a total preorder, with text compared under SQLite's
BINARY collation on UTF-8 text (a schema assumption, below) and NULL sorting
first.

Files: `sqlite.dfy` (NULL, text order, ORDER BY), `text.dfy` (Python's
`str.strip()`), `ledger.dfy` (rows, the UPDATE, the invariants),
`inventory.dfy` (the write paths, and three client scenarios:
`BlankNameScenario` checks that a whitespace-only name is rejected and inserts
nothing; `StockScenario` takes an item with stock 10 through +5, -5 and -20 and
checks that it reads 15, 10 and then -10, with three movements added;
`MissingItemScenario` checks that a movement against an id with no item gives
NotFound and writes nothing), `queries.dfy` (item list, pickers, movement
history).

Assumptions, and what the code does where the intended behaviour differs:

- The schema is not in `app.py`. It is taken to declare integer primary keys
  for the four tables, and FOREIGN KEY clauses from ITEMS to CATEGORIES and
  SUPPLIERS and from STOCKMOVEMENTS to ITEMS and USERS. The name columns are
  taken to declare no COLLATE clause, so they compare under BINARY, and the
  database encoding to be UTF-8, so BINARY is code-point order. A `COLLATE
  NOCASE` column or a UTF-16 database would order the item list and the
  pickers differently.
- IN movements are meant to be positive and OUT movements negative, but
  `stock_in` and `stock_out` never check the sign of the quantity. The model
  records whatever quantity is given, and `StockIn`/`StockOut` prove that
  type and sign agree exactly when the quantity is positive.
- Stock is not the sum of all movements from zero: `item_create` inserts the
  opening stock without recording a movement, so the invariant is stated
  relative to the opening stock.
- The existence check of `stock_in`/`stock_out` (`SELECT * FROM ITEMS WHERE
  id = ?`) does not look at `is_active`, so inactive items accept movements.
- The movement is always attributed to user 1. With foreign keys enforced
  (`PRAGMA foreign_keys = ON`), the INSERT fails when USERS has no row 1;
  the model returns `ForeignKeyViolation` and changes nothing, which is what
  an uncommitted, failed request leaves behind.

## Model

| member | source | states |
|---|---|---|
| `Sqlite.TextLeq` | app.py:50-52 | the BINARY collation: a text sorts no later than another exactly when it is a prefix of it or, at the first position where they differ, has the smaller character |
| `Sqlite.NullableLeq` | app.py:50-52 | ascending order on a nullable text column: NULL sorts before every text, a text never before NULL, and two texts by the BINARY collation |
| `Sqlite.TextLeqTotal` | app.py:50-52 | any two texts are ordered one way or the other under the BINARY collation |
| `Sqlite.TextLeqTransitive` | app.py:50-52 | the BINARY text order is transitive |
| `Sqlite.TextLeqAntisymmetric` | app.py:50-52 | two texts ordered both ways are equal |
| `Sqlite.NullableLeqTotalOrder` | app.py:50-52 | ascending order on a nullable text column, NULL first, is total, transitive and antisymmetric |
| `Sqlite.InsertBy` | app.py:50-52 | inserting a row adds exactly that row to the multiset of rows |
| `Sqlite.InsertBySorted` | app.py:50-52 | inserting into a sorted sequence under a total preorder keeps it sorted |
| `Sqlite.SortBy` | app.py:50-52 | ORDER BY returns a permutation of its input that is sorted by the clause |
| `Sqlite.SameRows` | app.py:50-52 | a permutation has exactly the rows of its input |
| `Text.IsSpace` | app.py:102-103 | the characters `str.strip()` removes: those for which Python's `str.isspace()` holds (U+0009-U+000D, U+001C-U+0020, U+0085, U+00A0, U+1680, U+2000-U+200A, U+2028, U+2029, U+202F, U+205F, U+3000) |
| `Text.LeadingSpace` | app.py:102 | the leading run of whitespace: all whitespace, and the next character is not |
| `Text.TrailingSpace` | app.py:102 | the trailing run of whitespace: all whitespace, and the character before it is not |
| `Text.Strip` | app.py:102-103 | the stripped text is the input minus its whitespace runs at both ends, starts and ends with non-whitespace, and is empty exactly when the input is all whitespace |
| `Text.StripIdempotent` | app.py:102-103 | stripping twice gives the same text as stripping once |
| `Ledger.FindItem` | app.py:149 | the row lookup finds a row exactly when an item with that id exists, and the row it returns has that id |
| `Ledger.AddStock` | app.py:141-144 | the stock update adds delta to the stock of every row with the id and changes no other row and no other column |
| `Ledger.AddStockKeepsIds` | app.py:141-144 | the stock update leaves the set of item ids unchanged |
| `Ledger.NextRowId` | app.py:113-121 | the row id given to a new item or movement is one more than the largest existing id (1 for an empty table), so it is fresh |
| `Ledger.NetChangeAppend` | app.py:130-138 | appending a movement adds its quantity change to its own item's net change and to no other item's |
| `Ledger.NetChangeUnreferenced` | app.py:113-121 | an item no movement refers to has net change zero |
| `Ledger.RecordKeepsReconciled` | app.py:128-144 | the insert-then-update pair keeps every item's stock equal to its opening stock plus its net change |
| `Ledger.CreateKeepsReconciled` | app.py:113-121 | inserting an item with a fresh id keeps the ledger invariant, its own stock being its opening stock |
| `Ledger.AddStockKeepsItemKeys` | app.py:141-144 | the stock update keeps item ids distinct and category and supplier references valid |
| `Ledger.AppendKeepsMovementKeys` | app.py:130-138 | appending a movement with the next row id and existing item and user keeps movement ids distinct and references valid |
| `Ledger.RecordKeepsWellFormed` | app.py:128-144 | recording a movement whose references exist keeps primary and foreign keys intact |
| `Ledger.CreateKeepsWellFormed` | app.py:113-121 | inserting an item with the next row id and valid references keeps the keys intact, and no movement refers to the new id |
| `Inventory.OrNone` | app.py:106-107 | `form.get(...) or None`: a missing or empty category or supplier field becomes NULL, an id stays that id |
| `Inventory.PLACEHOLDER_USER` | app.py:160 | every stock movement, in and out (also app.py line 190), is attributed to user 1 |
| `Inventory.Database.CreateStockMovement` | app.py:128-144 | appends exactly one movement with the given item, user, change, type and memo, leaving earlier movements in place, and adds the change to that item's stock with no floor, as one step; a reference to a missing item or user changes nothing; both invariants are kept |
| `Inventory.Database.StockIn` | app.py:146-175 | an unknown item id gives NotFound and no write; otherwise one movement with change +quantity, type IN and user 1 is recorded and the item's stock grows by quantity; type and sign agree exactly when quantity > 0 |
| `Inventory.Database.StockOut` | app.py:177-206 | an unknown item id gives NotFound and no write; otherwise one movement with change -quantity, type OUT and user 1 is recorded and the item's stock drops by quantity, possibly below zero; type and sign agree exactly when quantity > 0 |
| `Inventory.Database.ItemCreate` | app.py:98-125 | a name or unit that is empty after stripping gives ValidationError and no change; a category or supplier id naming no row gives ForeignKeyViolation and no change; otherwise exactly one active item with the stripped name and unit, the given stock and threshold and NULL for a missing or empty category or supplier is appended, existing items and all movements untouched |
| `Queries.NameOf` | app.py:47-48 | the left join yields a name only for a non-NULL reference to an existing row, and NULL otherwise |
| `Queries.RowOf` | app.py:38-48 | the SELECT list for one item: its own id, name, unit, stock and threshold, and the name of its category and of its supplier, present exactly when the reference is non-NULL and names an existing row, and then that row's name |
| `Queries.ActiveRows` | app.py:46-49 | the filtered rows are exactly the joined rows of the items whose active flag is set |
| `Queries.ItemRowLeq` | app.py:50-52 | `ORDER BY CATEGORIES.name ASC, ITEMS.name ASC`: a NULL category sorts before any category name, different category names compare by the BINARY collation, and rows of the same category compare by item name |
| `Queries.ItemRowOrder` | app.py:50-52 | ordering by category name then item name is a total preorder |
| `Queries.ItemList` | app.py:36-54 | the item list is a permutation of the active items' joined rows, has a row for every active item and none for an inactive one, lists NULL categories first and categories ascending, and names ascending within a category |
| `Queries.NameLeq` | app.py:57-62 | `ORDER BY name` on a lookup table: rows compare by name under the BINARY collation, ids ignored |
| `Queries.NameOrder` | app.py:57-62 | ordering lookup rows by name is a total preorder |
| `Queries.ByName` | app.py:57-62 | each picker list is a permutation of its lookup table sorted by name |
| `Queries.HistoryRowOf` | app.py:76-88 | the SELECT list for one movement: all its own columns, the item name present exactly when an item with its item id exists and then that item's name, the user name present exactly when a user with its user id exists and then that user's name |
| `Queries.HistoryRows` | app.py:76-88 | the joined movements, one row per movement in table order |
| `Queries.HistoryRowsMembers` | app.py:86-88 | a permutation of the joined movements has one row per movement and only joined movements as rows |
| `Queries.NewerFirst` | app.py:89 | `ORDER BY created_at DESC`: a row sorts no later than another exactly when its timestamp is not earlier |
| `Queries.NewerFirstOrder` | app.py:89 | ordering by created_at descending is a total preorder |
| `Queries.MovementList` | app.py:74-91 | the history has one row per movement, every movement appears joined with its item and user names, rows are newest first |

## Left out

- Flask routing, templates, flash messages and redirects
  (app.py:1-6, 64-69, 110-111, 124-125, 172-175, 203-206): presentation only.
- The GET branch of `stock_in`/`stock_out` (app.py:175, 206): it renders a
  form and changes nothing; the model covers the POST branch.
- Connection handling (`get_db`, `close_db`, the row factory, the database
  path): I/O. Foreign-key enforcement is modelled as the check the store makes
  on every INSERT.
- `int()` parsing of form fields (app.py:104-105, 156, 187): quantities,
  stock and threshold are already integers. In `item_create` a parse failure
  would raise before the name and unit are checked; the model does not
  capture that order.
- `Inventory.Field`: a category or supplier field is missing, empty, or an
  id; a non-numeric text, which the store would reject as a dangling
  reference, is not modelled.
- Timestamps: `created_at` is assigned by the store's clock; the model takes
  it as a parameter of each stock method.
- Commit, rollback and concurrent requests: each write path is one atomic
  method.
- The database schema file is not part of this model; the primary and
  foreign keys are the ones assumed above. Other column constraints are not
  modelled.
- `Ledger.AddStock`: does not model SQLite's 64-bit integer range; stock and
  quantities are unbounded integers.
- `Sqlite.SortBy`: proves only that the result is sorted and a permutation;
  SQL leaves the order of rows that tie under ORDER BY unspecified, so no tie
  order is claimed.
- `Queries.NameOf`: takes the first row with the id; this is the left join
  because lookup ids are primary keys, which the model does not re-prove.
- Login, roles, soft-delete and the unified stock-update endpoint: they are
  not part of `app.py`.
