/**
 * The list adapter of the item screen. It keeps a reference to the caller's
 * `List<InventoryItem>` (not a copy), changes item quantities in place from
 * the row buttons, edits one item from the edit dialog, removes items by
 * identity, and writes every change through to the remote store.
 */
module ListAdapter {
  import opened Wrappers
  import opened JavaInt
  import opened Inventory
  import opened RemoteStore

  /** The list with the first occurrence of `x` taken out; unchanged when `x` does not occur. */
  function RemoveFirst(s: seq<InventoryItem>, x: InventoryItem): seq<InventoryItem> {
    if s == [] then []
    else if s[0] == x then s[1..]
    else [s[0]] + RemoveFirst(s[1..], x)
  }

  /** Removing the first occurrence at `i` keeps every other element, in its original order. */
  lemma {:induction false} RemoveFirstAt(s: seq<InventoryItem>, x: InventoryItem, i: nat)
    requires i < |s| && s[i] == x && x !in s[..i]
    ensures RemoveFirst(s, x) == s[..i] + s[i + 1..]
  {
    if i > 0 {
      assert s[0] in s[..i];
      assert s[1..][..i - 1] == s[1..i];
      RemoveFirstAt(s[1..], x, i - 1);
      assert s[..i] == [s[0]] + s[1..i];
    }
  }

  /** An absent element leaves the list as it was. */
  lemma {:induction false} RemoveFirstAbsent(s: seq<InventoryItem>, x: InventoryItem)
    requires x !in s
    ensures RemoveFirst(s, x) == s
  {
    if s != [] {
      RemoveFirstAbsent(s[1..], x);
    }
  }

  /** A present element: the list shrinks by one and loses exactly one copy of `x`. */
  lemma {:induction false} RemoveFirstCount(s: seq<InventoryItem>, x: InventoryItem)
    requires x in s
    ensures |RemoveFirst(s, x)| == |s| - 1
    ensures multiset(RemoveFirst(s, x)) == multiset(s) - multiset{x}
  {
    if s[0] != x {
      RemoveFirstCount(s[1..], x);
      assert s == [s[0]] + s[1..];
    } else {
      assert s == [x] + s[1..];
    }
  }

  /** A Java `List<InventoryItem>` object: a mutable sequence of item references. */
  class ItemList {
    var elems: seq<InventoryItem>

    constructor (elems: seq<InventoryItem>)
      ensures this.elems == elems
    {
      this.elems := elems;
    }

    /** `indexOf`: the first position holding this very object, or -1; items are compared by identity. */
    method IndexOf(x: InventoryItem) returns (index: int)
      ensures index == -1 <==> x !in elems
      ensures index != -1 ==> 0 <= index < |elems| && elems[index] == x && x !in elems[..index]
    {
      index := 0;
      while index < |elems| && elems[index] != x
        invariant 0 <= index <= |elems|
        invariant x !in elems[..index]
      {
        index := index + 1;
      }
      if index == |elems| {
        assert elems[..index] == elems;
        index := -1;
      }
    }

    /** `set(int, E)`: the element at `index` is replaced. */
    method Set(index: nat, x: InventoryItem)
      requires index < |elems|
      modifies this
      ensures elems == old(elems)[index := x]
    {
      elems := elems[index := x];
    }

    /** `remove(int)`: the element at `index` is taken out and the later ones move up. */
    method RemoveAt(index: nat)
      requires index < |elems|
      modifies this
      ensures elems == old(elems[..index] + elems[index + 1..])
    {
      elems := elems[..index] + elems[index + 1..];
    }
  }

  /** How the edit dialog's save action ends. Each failure is an exception thrown part way through. */
  datatype SaveOutcome =
    | Saved
    | QuantityNotNumeric   // `Integer.parseInt` rejected the quantity text
    | TagMissing           // the tag field's view tag is null
    | PositionOutOfRange   // `List.set` was given a position outside the list
    | IdMissing            // the item has no id, so the store write throws after the list was updated

  class ListAdapter {
    var isListView: bool
    var list: ItemList
    const store: ItemStore

    /** Keeps the caller's list object itself: later changes through either reference are seen by both. */
    constructor (inventoryList: ItemList, isListView: bool, helper: ItemStore)
      ensures list == inventoryList && store == helper && this.isListView == isListView
    {
      list := inventoryList;
      this.isListView := isListView;
      store := helper;
    }

    /** `getItemCount`: the number of items in the current list. */
    function GetItemCount(): (n: int)
      reads this, list
      ensures n == |list.elems|
    {
      |list.elems|
    }

    /** `setItems`: the adapter now shows (and shares) the given list. */
    method SetItems(items: ItemList)
      modifies this
      ensures list == items && isListView == old(isListView)
    {
      list := items;
    }

    /** `getItemAt`: the item at `position`; Java's `List.get` accepts only positions inside the list. */
    method GetItemAt(position: int) returns (item: InventoryItem)
      requires 0 <= position < |list.elems|
      ensures item == list.elems[position]
    {
      item := list.elems[position];
    }

    /** `removeItem`: removes the first occurrence of this very object, if there is one. */
    method RemoveItem(item: InventoryItem)
      modifies list
      ensures list.elems == RemoveFirst(old(list.elems), item)
      ensures item in old(list.elems) ==> |list.elems| == |old(list.elems)| - 1
      ensures item !in old(list.elems) ==> list.elems == old(list.elems)
    {
      var index := list.IndexOf(item);
      if index >= 0 {
        RemoveFirstAt(list.elems, item, index);
        RemoveFirstCount(list.elems, item);
        list.RemoveAt(index);
      } else {
        RemoveFirstAbsent(list.elems, item);
      }
    }

    /**
     * The "+" button of the row bound to `item`: one more in stock, written
     * through under the item's id. Nothing else changes.
     */
    method OnAddClicked(item: InventoryItem)
      modifies item, store
      ensures item.Snapshot() == old(item.Snapshot()).(quantity := Add(old(item.quantity), 1))
      ensures old(item.quantity) < MaxInt ==> item.quantity == old(item.quantity) + 1
      ensures store.entries == Put(old(store.entries), item.id, item.Snapshot())
    {
      item.SetQuantity(Add(item.quantity, 1));
      store.UpdateItem(item.id, item);
    }

    /**
     * The "-" button of the row bound to `item`: only a positive quantity is
     * lowered (by one) and written through; otherwise nothing happens.
     */
    method OnSubtractClicked(item: InventoryItem)
      modifies item, store
      ensures old(item.quantity) > 0 ==>
        item.Snapshot() == old(item.Snapshot()).(quantity := old(item.quantity) - 1) &&
        store.entries == Put(old(store.entries), item.id, item.Snapshot())
      ensures old(item.quantity) <= 0 ==>
        item.Snapshot() == old(item.Snapshot()) && store.entries == old(store.entries)
      ensures old(item.quantity) >= 0 ==> item.quantity >= 0
    {
      if item.quantity > 0 {
        item.SetQuantity(item.quantity - 1);
        store.UpdateItem(item.id, item);
      }
    }

    /**
     * The save button of the edit dialog opened on `item` at `position`. The
     * dialog's quantity text, once parsed, is `parsedQuantity` (None when it is
     * not a number); the tag field's view tag, as text, is `viewTag` (None when
     * it is null). The setters run in order and an exception ends the action
     * where it is thrown.
     */
    method OnSaveEdit(item: InventoryItem, position: int, newName: string, newDescription: string,
                      parsedQuantity: Option<Int32>, viewTag: Option<string>) returns (outcome: SaveOutcome)
      modifies item, list, store
      ensures outcome == QuantityNotNumeric <==> parsedQuantity.None?
      ensures outcome == TagMissing <==> parsedQuantity.Some? && viewTag.None?
      ensures outcome == PositionOutOfRange <==>
        parsedQuantity.Some? && viewTag.Some? && !(0 <= position < |old(list.elems)|)
      ensures item.id == old(item.id) && item.name == newName && item.description == newDescription
      ensures item.quantity == if parsedQuantity.Some? then parsedQuantity.value else old(item.quantity)
      ensures outcome == IdMissing <==>
        parsedQuantity.Some? && viewTag.Some? && 0 <= position < |old(list.elems)| && old(item.id).None?
      ensures item.tag == if outcome in {Saved, PositionOutOfRange, IdMissing} then viewTag.value else old(item.tag)
      ensures outcome in {Saved, IdMissing} ==>
        |list.elems| == |old(list.elems)| && list.elems[position] == item &&
        (forall j :: 0 <= j < |list.elems| && j != position ==> list.elems[j] == old(list.elems[j]))
      ensures outcome == Saved ==>
        item.id.Some? && store.entries == Put(old(store.entries), item.id, item.Snapshot())
      ensures outcome == IdMissing ==> store.entries == old(store.entries)
      ensures outcome !in {Saved, IdMissing} ==> list.elems == old(list.elems) && store.entries == old(store.entries)
    {
      item.SetName(newName);
      item.SetDescription(newDescription);
      if parsedQuantity.None? {
        return QuantityNotNumeric;
      }
      item.SetQuantity(parsedQuantity.value);
      if viewTag.None? {
        return TagMissing;
      }
      item.SetTag(viewTag.value);
      if !(0 <= position < |list.elems|) {
        return PositionOutOfRange;
      }
      list.Set(position, item);
      if item.id.None? {
        return IdMissing;
      }
      store.UpdateItem(item.id, item);
      outcome := Saved;
    }
  }

  /**
   * The adapter test: three items with quantities 5, 10 and 15; the first
   * row's "+" and then "-" are pressed. The caller's own list sees 6 and then 5,
   * because the adapter shares that list and its items.
   */
  method IncrementThenDecrementScenario() returns (count: int, afterAdd: int, afterSubtract: int)
    ensures count == 3 && afterAdd == 6 && afterSubtract == 5
  {
    var item1 := new InventoryItem("Test Item1", "Some Description", 5, "Tag1");
    var item2 := new InventoryItem("Test Item2", "Some Description", 10, "Tag2");
    var item3 := new InventoryItem("Test Item3", "Some Description", 15, "Tag3");
    var callerList := new ItemList([item1, item2, item3]);
    var store := new ItemStore(map[]);
    var adapter := new ListAdapter(callerList, true, store);
    count := adapter.GetItemCount();
    var bound := adapter.GetItemAt(0);
    adapter.OnAddClicked(bound);
    afterAdd := callerList.elems[0].quantity;
    adapter.OnSubtractClicked(bound);
    afterSubtract := callerList.elems[0].quantity;
  }
}
