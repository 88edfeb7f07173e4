/** The inventory store: a process-wide `dict` from item name to quantity,
    with operations to add and remove stock, query a quantity, list the items
    below a threshold, and replace or snapshot the whole store. */
module Inventory {
  import opened DictOrder

  /** The `item` argument of `add_item`, collapsed to what its two guards see:
      a string (falsy exactly when empty), or any other value, falsy or not
      (`None`, `0`, `123`, ...). */
  datatype ItemArg = Text(name: string) | NonText(truthy: bool)

  /** A quantity argument: a number, or a value that is not one (`"abc"`),
      for which the subtraction in `remove_item` itself raises `TypeError`. */
  datatype QtyArg = Number(n: int) | NonNumber

  /** How `add_item` returns: after adding, silently on a falsy item, or
      after reporting invalid input types. */
  datatype AddOutcome = Added | Skipped | InvalidInput

  /** How `remove_item` returns: after subtracting (and maybe deleting), or
      after reporting a missing item or a non-numeric quantity. */
  datatype RemoveOutcome = Removed | NotFound | InvalidQuantity

  /** What opening and decoding the inventory file produced: the decoded
      JSON object as its `(name, quantity)` members in document order, or one
      of the two errors `load_data` catches. */
  datatype LoadSource = Parsed(pairs: seq<(string, int)>) | FileMissing | NotJson

  /** How `load_data` returns: after replacing the store, or after reporting
      one of the two errors. */
  datatype LoadOutcome = Loaded | FileNotFound | DecodeError

  /** The default `threshold` of `check_low_items`. */
  const DefaultThreshold := 5

  /** Python's truth value of an item argument (`not item` at the first guard). */
  function Truthy(item: ItemArg): (truthy: bool)
    ensures item.Text? ==> (truthy <==> |item.name| > 0)
  {
    match item
    case Text(name) => name != ""
    case NonText(truthy) => truthy
  }

  function DigitChar(d: nat): char
    requires d < 10
  {
    "0123456789"[d]
  }

  /** `str(n)` for a non-negative integer. */
  function NatToString(n: nat): string
    decreases n
  {
    if n < 10 then [DigitChar(n)] else NatToString(n / 10) + [DigitChar(n % 10)]
  }

  /** `str(n)` for an integer. */
  function IntToString(n: int): string
  {
    if n < 0 then "-" + NatToString(-n) else NatToString(n)
  }

  /** The audit line `add_item` appends: "<timestamp>: Added <qty> of <item>". */
  function LogEntry(now: string, qty: int, name: string): (e: string)
    ensures |e| >= |now| + 8 + |name|
    ensures e[..|now|] == now
    ensures e[|e| - |name|..] == name
    ensures e[|now|..|now| + 8] == ": Added "
  {
    now + ": Added " + IntToString(qty) + " of " + name
  }

  /** Names among `keys` whose quantity is below `threshold`, in the order of `keys`. */
  function LowItems(keys: seq<string>, stock: map<string, int>, threshold: int): (r: seq<string>)
    requires forall i :: 0 <= i < |keys| ==> keys[i] in stock
    ensures forall k :: k in r <==> k in keys && stock[k] < threshold
    ensures IsSubseq(r, keys)
    ensures NoDup(keys) ==> NoDup(r)
  {
    if keys == [] then []
    else
      var rest := LowItems(keys[1..], stock, threshold);
      if stock[keys[0]] < threshold then
        assert NoDup(keys) ==> keys[0] !in keys[1..];
        [keys[0]] + rest
      else rest
  }

  /** The caller's `logs` list; `null` stands for `logs=None`, for which
      `add_item` makes a fresh list that nobody sees again. */
  class AuditLog {
    var entries: seq<string>

    constructor ()
      ensures entries == []
    {
      entries := [];
    }
  }

  /** The module-level `stock_data` dict, as an object. */
  class InventoryStore {
    var stock: map<string, int>
    /** The keys of `stock` in the dict's iteration order. */
    var order: seq<string>

    function Contents(): Dict
      reads this
    {
      Dict(stock, order)
    }

    ghost predicate Valid()
      reads this
    {
      WellFormed(Contents())
    }

    constructor ()
      ensures Valid()
      ensures stock == map[] && order == []
    {
      stock, order := map[], [];
    }

    /** `get_qty`: the stored quantity, or 0 for an absent item. */
    function GetQty(item: string): (q: int)
      reads this
      ensures item in stock ==> q == stock[item]
      ensures item !in stock ==> q == 0
    {
      Get(Contents(), item)
    }

    /** `check_low_items`: exactly the items whose quantity is below
        `threshold`, each once, in iteration order. */
    function CheckLowItems(threshold: int): (r: seq<string>)
      reads this
      requires Valid()
      ensures forall k :: k in r <==> k in stock && stock[k] < threshold
      ensures NoDup(r)
      ensures IsSubseq(r, order)
    {
      LowItems(order, stock, threshold)
    }

    /** What `save_data` writes: the entries in iteration order. */
    function Snapshot(): (r: seq<(string, int)>)
      reads this
      requires Valid()
      ensures |r| == |order|
      ensures forall i :: 0 <= i < |r| ==> r[i] == (order[i], stock[order[i]])
      ensures UpdateAll(Empty, r) == Contents()
    {
      ItemsRoundTrip(Contents());
      Items(order, stock)
    }

    /** `add_item`: a falsy item returns at once; a non-string item or a
        non-numeric quantity is reported and returns; otherwise the quantity
        is added (creating the entry if absent) and one line goes to `logs`. */
    method AddItem(item: ItemArg, qty: QtyArg, logs: AuditLog?, now: string) returns (outcome: AddOutcome)
      requires Valid()
      modifies this, logs
      ensures Valid()
      ensures outcome == Skipped <==> !Truthy(item)
      ensures outcome == InvalidInput <==> Truthy(item) && (item.NonText? || qty.NonNumber?)
      ensures outcome == Added <==> item.Text? && item.name != "" && qty.Number?
      ensures outcome != Added ==> stock == old(stock) && order == old(order)
      ensures outcome == Added ==>
        && Contents() == Put(old(Contents()), item.name, old(GetQty(item.name)) + qty.n)
        && GetQty(item.name) == old(GetQty(item.name)) + qty.n
        && (forall k :: k != item.name ==> (k in stock <==> k in old(stock)))
        && (forall k :: k != item.name && k in stock ==> stock[k] == old(stock[k]))
      ensures ("" in stock) == ("" in old(stock))
      ensures logs != null ==>
        logs.entries == if outcome == Added then old(logs.entries) + [LogEntry(now, qty.n, item.name)]
                        else old(logs.entries)
    {
      if !Truthy(item) {
        return Skipped;
      }
      if item.NonText? || qty.NonNumber? {
        return InvalidInput;
      }
      var name := item.name;
      var updated := Put(Contents(), name, GetQty(name) + qty.n);
      stock, order := updated.values, updated.keys;
      if logs != null {
        logs.entries := logs.entries + [LogEntry(now, qty.n, name)];
      }
      outcome := Added;
    }

    /** `remove_item`: subtract `qty` from the item's quantity and delete the
        entry once it is at most 0; a missing item or a non-numeric quantity
        is reported and changes nothing. */
    method RemoveItem(item: string, qty: QtyArg) returns (outcome: RemoveOutcome)
      requires Valid()
      modifies this
      ensures Valid()
      ensures outcome == NotFound <==> item !in old(stock)
      ensures outcome == InvalidQuantity <==> item in old(stock) && qty.NonNumber?
      ensures outcome != Removed ==> stock == old(stock) && order == old(order)
      ensures outcome == Removed ==>
        var left := old(stock[item]) - qty.n;
        && (left <= 0 ==> item !in stock && Contents() == Delete(old(Contents()), item))
        && (left > 0 ==> stock == old(stock)[item := left] && order == old(order))
      ensures qty.Number? && qty.n < 0 && item in old(stock) && old(stock[item]) >= 0 ==>
        item in stock && stock[item] > old(stock[item])
      ensures forall k :: k != item ==> (k in stock <==> k in old(stock))
      ensures forall k :: k != item && k in stock ==> stock[k] == old(stock[k])
    {
      if item !in stock {
        return NotFound;
      }
      if qty.NonNumber? {
        return InvalidQuantity;
      }
      var left := stock[item] - qty.n;
      var reduced := Put(Contents(), item, left);
      if left <= 0 {
        DeleteAfterPut(Contents(), item, left);
        var after := Delete(reduced, item);
        stock, order := after.values, after.keys;
      } else {
        stock, order := reduced.values, reduced.keys;
      }
      outcome := Removed;
    }

    /** `load_data`: on a decoded object, clear the store and fill it from the
        object's members in order; on either error, leave the store as it was. */
    method Load(source: LoadSource) returns (outcome: LoadOutcome)
      requires Valid()
      modifies this
      ensures Valid()
      ensures outcome == Loaded <==> source.Parsed?
      ensures outcome == FileNotFound <==> source.FileMissing?
      ensures outcome == DecodeError <==> source.NotJson?
      ensures source.Parsed? ==> Contents() == UpdateAll(Empty, source.pairs)
      ensures !source.Parsed? ==> stock == old(stock) && order == old(order)
    {
      match source
      case FileMissing => return FileNotFound;
      case NotJson => return DecodeError;
      case Parsed(pairs) =>
        stock, order := map[], [];
        for i := 0 to |pairs|
          invariant Valid()
          invariant UpdateAll(Contents(), pairs[i..]) == UpdateAll(Empty, pairs)
        {
          assert pairs[i..][1..] == pairs[i + 1..];
          var (name, qty) := pairs[i];
          if name !in stock {
            order := order + [name];
          }
          stock := stock[name := qty];
        }
        assert pairs[|pairs|..] == [];
        outcome := Loaded;
    }
  }

  /** The module's entry guard as written: `__name__` compared with "_main_". */
  function EntryGuardAsWritten(moduleName: string): (fires: bool)
    ensures fires ==> moduleName != "__main__"
  {
    moduleName == "_main_"
  }

  /** The entry guard as intended: `__name__` compared with "__main__". */
  function EntryGuard(moduleName: string): (fires: bool)
    ensures fires <==> moduleName == "__main__"
    ensures fires ==> !EntryGuardAsWritten(moduleName)
  {
    moduleName == "__main__"
  }

  /** Run as a script, the module is named "__main__", which the guard as
      written does not match: `main` never runs. */
  lemma ScriptRunSkipsDemo()
    ensures !EntryGuardAsWritten("__main__")
  {
    assert "__main__"[1] != "_main_"[1];
  }

  /** With the intended guard, running the module as a script runs `main`,
      and importing it under its own name does not. */
  lemma ScriptRunStartsDemo()
    ensures EntryGuard("__main__")
    ensures !EntryGuard("inventory_system")
  {
    assert "inventory_system"[0] != "__main__"[0];
  }

  /** The module's entry point, with the intended guard, on the module's
      freshly initialised store: run as a script, `main` leaves apple 7,
      banana 2 and orange 0 in that order; imported, the store stays empty. */
  method RunModule(moduleName: string, store: InventoryStore) returns (ranMain: bool)
    requires store.Valid() && store.stock == map[] && store.order == []
    modifies store
    ensures store.Valid()
    ensures ranMain <==> moduleName == "__main__"
    ensures ranMain ==> store.stock == map["apple" := 7, "banana" := 2, "orange" := 0]
    ensures ranMain ==> store.order == ["apple", "banana", "orange"]
    ensures !ranMain ==> store.stock == map[] && store.order == []
  {
    ranMain := EntryGuard(moduleName);
    if ranMain {
      var _, _, _, _ := RunMain(store);
    }
  }

  /** `main`'s sequence on the module's store, which starts empty. */
  method RunMain(store: InventoryStore) returns (appleQty: int, mango: RemoveOutcome, low: seq<string>, report: seq<(string, int)>)
    requires store.Valid() && store.stock == map[] && store.order == []
    modifies store
    ensures store.Valid()
    ensures store.stock == map["apple" := 7, "banana" := 2, "orange" := 0]
    ensures store.order == ["apple", "banana", "orange"]
    ensures appleQty == 7
    ensures mango == NotFound
    ensures low == ["banana", "orange"]
    ensures report == [("apple", 7), ("banana", 2), ("orange", 0)]
  {
    mango := DemoUpdates(store);
    appleQty := store.GetQty("apple");
    low := store.CheckLowItems(DefaultThreshold);
    SubseqUnique(low, ["banana", "orange"], store.order);
    ghost var before := store.Contents();
    var saved := store.Snapshot();
    var _ := store.Load(Parsed(saved));
    assert store.Contents() == before;
    report := store.Snapshot();
  }

  /** The additions and removals of `main`, from an empty store. */
  method DemoUpdates(store: InventoryStore) returns (mango: RemoveOutcome)
    requires store.Valid() && store.stock == map[] && store.order == []
    modifies store
    ensures store.Valid() && mango == NotFound
    ensures store.stock == map["apple" := 7, "banana" := 2, "orange" := 0]
    ensures store.order == ["apple", "banana", "orange"]
  {
    DemoAdds(store);
    var removed := store.RemoveItem("apple", Number(3));
    assert removed == Removed;
    assert store.stock == map["apple" := 7, "banana" := 2, "orange" := 0];
    mango := store.RemoveItem("mango", Number(1));
  }

  /** The three additions of `main`, from an empty store. */
  method DemoAdds(store: InventoryStore)
    requires store.Valid() && store.stock == map[] && store.order == []
    modifies store
    ensures store.Valid()
    ensures store.stock == map["apple" := 10, "banana" := 2, "orange" := 0]
    ensures store.order == ["apple", "banana", "orange"]
  {
    var _ := store.AddItem(Text("apple"), Number(10), null, "");
    assert "banana" !in store.stock;
    var _ := store.AddItem(Text("banana"), Number(2), null, "");
    assert store.stock == map["apple" := 10, "banana" := 2];
    assert "orange" !in store.stock;
    var _ := store.AddItem(Text("orange"), Number(0), null, "");
  }
}
