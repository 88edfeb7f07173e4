# Inventory store

A model of `inventory_system.py`, a single-process inventory tracker. Its state
is one module-level `dict`, `stock_data`, from item name to quantity. Four
operations act on it:

- `add_item` guards its input, then adds to an entry (or creates it) and appends
  one audit line to the caller's `logs` list.
- `remove_item` subtracts from an entry and deletes it once it is at most 0.
- `get_qty` looks up a quantity, defaulting to 0.
- `check_low_items` lists the items below a threshold.

`load_data` and `save_data` replace the store from a JSON file and write it
back. Here they are modelled on the decoded JSON object, without the file.

The model has two modules.

- `DictOrder` (`dict_order.dfy`) models the part of Python's `dict` the store
  relies on. A `Dict` is a map plus its keys in insertion order:
  - assigning to an existing key keeps its place;
  - a new key goes last;
  - `del` takes the key out of the order;
  - `update` is a sequence of assignments;
  - `items()` lists the pairs in key order.

  `WellFormed` says the order lists every key exactly once. The module proves
  that filling an empty `dict` from the items of another rebuilds it, entries and
  order alike. That is the save-then-load round trip.
- `Inventory` (`inventory.dfy`) holds the store itself. `InventoryStore` is a
  class with the fields `stock` (the entries) and `order` (the iteration order).
  - `AddItem`, `RemoveItem` and `Load` are methods that update those fields.
  - `GetQty`, `CheckLowItems` and `Snapshot` are functions that read them.
  - Python's dynamic arguments become tagged inputs. `ItemArg` is a string or
    another value, falsy or not. `QtyArg` is a number or not.
  - Each method returns an outcome that tells its diagnostic paths apart. The
    `print` messages themselves are not modelled.
  - The caller's `logs` list is an `AuditLog` object, or `null` for the
    default `logs=None`. The timestamp is a parameter.
  - `RunMain` replays `main` on the module's store, and `RunModule` calls it
    when the entry guard fires. Apple ends at 7, mango is reported missing,
    the low items are `["banana", "orange"]`, and a save followed by a load
    changes nothing.

Behaviour kept from the code as written:
- `add_item` with quantity 0 creates a zero entry. A negative quantity is
  added as well.
- `remove_item` has no sign check, so a negative amount increases stock.
- `remove_item` has no empty-name guard.

The diagnostics of `load_data` say "starting with empty stock" and "using empty
stock", but the store is not cleared on those paths. `stock_data.clear()` runs
only after `json.load` succeeds (inventory_system.py:50-56). So on either error
the store is left as it was, and `Load` ensures exactly that. The store is
empty then only if it was empty before.

## Model

| member | source | states |
|---|---|---|
| `DictOrder.Get` | inventory_system.py:25 | `dict.get(k, 0)`: the stored value for a present key, 0 for an absent one |
| `DictOrder.Put` | inventory_system.py:25 | assignment: the key maps to the new value and every other entry is unchanged. An existing key keeps its position; a new key is appended. Well-formedness is kept |
| `DictOrder.Without` | inventory_system.py:34 | removing a key from the iteration order keeps exactly the other keys, in their relative order, with no duplicates introduced |
| `DictOrder.Delete` | inventory_system.py:34 | `del`: the key is gone, every other entry is unchanged, and the remaining order is a subsequence of the old one. Well-formedness is kept |
| `DictOrder.DeleteAfterPut` | inventory_system.py:32-34 | `-=` on a present key followed by `del` leaves the same dict as deleting the key outright |
| `DictOrder.UpdateAll` | inventory_system.py:51-52 | `update(pairs)`: assignments in order. Well-formedness is kept and no existing key is lost |
| `DictOrder.NewKeys` | inventory_system.py:52 | the keys of the pairs not already present, each once, in order of first occurrence |
| `DictOrder.UpdateAllEntries` | inventory_system.py:52 | after `update(pairs)` the keys are exactly the old keys and the pairs' keys, and a key no pair mentions keeps its value |
| `DictOrder.UpdateAllOrder` | inventory_system.py:52 | after `update(pairs)` the old keys keep their order and the new keys follow, in order of first occurrence |
| `DictOrder.UpdateAllLastWins` | inventory_system.py:52 | after `update(pairs)` a key holds the value of its last pair |
| `DictOrder.Items` | inventory_system.py:62 | `items()`: one pair per key, in key order, each carrying the key's value |
| `DictOrder.ItemsRoundTrip` | inventory_system.py:46-62 | clearing and updating from the saved items rebuilds the dict exactly: same entries, same order |
| `DictOrder.ItemsRoundTripFrom` | inventory_system.py:51-52 | after the first `j` keys are loaded, loading the remaining items rebuilds the dict |
| `DictOrder.SubseqUnique` | inventory_system.py:74 | over a duplicate-free key order, an in-order selection is determined by its members, so "exactly these keys, each once, in iteration order" has one answer |
| `Inventory.Truthy` | inventory_system.py:20 | the truth value `not item` tests, used as a definition by `AddItem`: a string item is falsy exactly when it is empty, and any other value carries its own flag |
| `Inventory.AuditLog.constructor` | inventory_system.py:18-19 | a new `logs` list starts empty, as the one `add_item` makes for `logs=None` |
| `Inventory.LogEntry` | inventory_system.py:26 | the audit line begins with the timestamp followed by ": Added " and ends with the item name |
| `Inventory.LowItems` | inventory_system.py:74 | the comprehension keeps a key iff its quantity is below the threshold. The result preserves iteration order and has no duplicates when the keys have none |
| `Inventory.InventoryStore.constructor` | inventory_system.py:13 | the store starts empty and well-formed |
| `Inventory.InventoryStore.GetQty` | inventory_system.py:41-43 | the stored quantity if the item is present, 0 otherwise. Reads the store without changing it |
| `Inventory.InventoryStore.CheckLowItems` | inventory_system.py:72-74 | exactly the items whose quantity is `< threshold`, each once, in iteration order. Reads the store without changing it |
| `Inventory.InventoryStore.Snapshot` | inventory_system.py:59-62 | the pairs `save_data` writes, one per key in iteration order. Loading them into an empty store gives back the current store |
| `Inventory.InventoryStore.AddItem` | inventory_system.py:16-26 | a falsy item returns with nothing changed and nothing logged. A non-string item or non-numeric quantity is reported with nothing changed and nothing logged. Otherwise the item's quantity becomes the old one plus `qty` (created, even at 0, when absent, and placed last), every other entry is unchanged, and exactly one audit line is appended. An empty-string key is never inserted |
| `Inventory.InventoryStore.RemoveItem` | inventory_system.py:29-38 | a missing item is reported first, whatever `qty` is. A quantity the subtraction rejects (`NonNumber`) on a present item is reported next. In both cases the store is unchanged. Otherwise the quantity becomes `q - r` in place, or the entry is deleted when `q - r <= 0`. Every other entry is unchanged. A negative amount raises a non-negative quantity |
| `Inventory.InventoryStore.Load` | inventory_system.py:46-56 | a decoded object replaces the store: it is cleared, then updated from the object's members in order. A missing file or a JSON syntax error is reported and leaves the store unchanged |
| `Inventory.EntryGuardAsWritten` | inventory_system.py:91 | the guard as written: whenever it fires, the module is not running under the script name |
| `Inventory.EntryGuard` | inventory_system.py:91 | the intended guard: fires exactly for the script name, and there the guard as written does not |
| `Inventory.ScriptRunSkipsDemo` | inventory_system.py:91-92 | the guard as written never matches the name a script runs under |
| `Inventory.ScriptRunStartsDemo` | inventory_system.py:91-92 | the intended guard matches the script name and not the module's import name |
| `Inventory.RunModule` | inventory_system.py:13-92 | with the intended guard and the module's initially empty store: run as a script, `main` runs and leaves apple 7, banana 2, orange 0 in that order; otherwise the store stays empty |
| `Inventory.RunMain` | inventory_system.py:77-88 | `main`'s sequence on the empty module store: apple quantity 7, mango not found, low items `["banana", "orange"]`, and the report after save and load is apple 7, banana 2, orange 0, which is also the final store |
| `Inventory.DemoUpdates` | inventory_system.py:79-83 | after `main`'s additions and removals the store is `{apple: 7, banana: 2, orange: 0}` in that order, and the mango removal reports not-found |
| `Inventory.DemoAdds` | inventory_system.py:79-81 | after `main`'s three additions the store is `{apple: 10, banana: 2, orange: 0}` in that order |

## Left out

- File I/O and JSON. `json.load` becomes a `LoadSource` value: the decoded
  object's members in document order, or the file-not-found or decode error.
  `json.dump` becomes the `Snapshot` pairs. Pretty-printing and a write
  failure propagating out of `save_data` are not modelled.
- Loaded values are integers. JSON strings, floats or lists as quantities,
  and the `TypeError`s they would cause later, are not modelled.
- `print_data` and every `print` diagnostic: console output only. The
  diagnostics appear as the `AddOutcome`, `RemoveOutcome` and `LoadOutcome`
  results.
- `datetime.now()`: the timestamp is the parameter `now`, and its text is opaque.
- Python typing beyond the two guard outcomes of `add_item` is not modelled.
  Which values are falsy is the `truthy` flag of `ItemArg.NonText`, and `bool`
  quantities are not told apart from numbers.
- Inventory.InventoryStore.RemoveItem: takes a string item, so an unhashable
  item (a `TypeError` that changes nothing) is not modelled.
- Inventory.InventoryStore.RemoveItem: a quantity that subtracts but cannot be
  compared with 0, such as a complex number, is not modelled. The `-=` at
  line 32 stores the difference before the `<=` at line 33 raises `TypeError`,
  so that path changes the store and then reports. `NonNumber` covers only
  quantities whose subtraction itself raises, which change nothing.
- Inventory.InventoryStore.Load: decoded JSON that is not an object, such as
  `[1, 2]`, is not modelled. There `clear()` at line 51 empties the store and
  `update` at line 52 then raises an error nobody catches. Content that is not
  valid UTF-8 is not modelled either: its `UnicodeDecodeError` is not caught at
  line 55. `NotJson` stands only for a JSON syntax error.
- Inventory.InventoryStore.AddItem: quantities are `int`, so a float added to
  the stock is not modelled.
- The default arguments `item="default"` and `qty=0` of `add_item`: callers
  here pass both explicitly. The default threshold 5 is `DefaultThreshold`.

## Findings

| source | as written | input that shows it | evidently intended | confidence | as-written member | corrected member |
|---|---|---|---|---|---|---|
| inventory_system.py:91 | `if __name__ == "_main_":` compares with a one-underscore name | running the file as a script sets `__name__` to `"__main__"`, so `main()` is never called | `if __name__ == "__main__":` | high; not executed | `Inventory.ScriptRunSkipsDemo` | `Inventory.RunModule` |
