/**
 * The remote item store: a keyed collection of serialised items under one
 * database node. `push().getKey()` is the store's key generator; its result
 * is a parameter here. A null item id (`child(null)`) makes the client throw
 * before anything is written, which the model renders as "no write".
 */
module RemoteStore {
  import opened Wrappers
  import opened Inventory

  /** The collection after `setValue` of `value` under `key`: the key is created or replaced. */
  function Put(entries: map<string, ItemValue>, key: Option<string>, value: ItemValue): (r: map<string, ItemValue>)
    ensures key.Some? ==> r.Keys == entries.Keys + {key.value} && r[key.value] == value
    ensures forall k :: k in entries && (key.None? || k != key.value) ==> k in r && r[k] == entries[k]
    ensures key.None? ==> r == entries
  {
    if key.Some? then entries[key.value := value] else entries
  }

  /** The collection after `removeValue` under `key`: the key is gone, everything else is kept. */
  function Drop(entries: map<string, ItemValue>, key: Option<string>): (r: map<string, ItemValue>)
    ensures key.Some? ==> r.Keys == entries.Keys - {key.value}
    ensures forall k :: k in r ==> k in entries && r[k] == entries[k]
    ensures key.None? ==> r == entries
  {
    if key.Some? then entries - {key.value} else entries
  }

  /** Writing the same value under the same key twice leaves the same collection as writing it once. */
  lemma PutIdempotent(entries: map<string, ItemValue>, key: Option<string>, value: ItemValue)
    ensures Put(Put(entries, key, value), key, value) == Put(entries, key, value)
  {
  }

  /** Removing the same key twice leaves the same collection as removing it once. */
  lemma DropIdempotent(entries: map<string, ItemValue>, key: Option<string>)
    ensures Drop(Drop(entries, key), key) == Drop(entries, key)
  {
  }

  /** A removal undoes an addition under a key that was not in use. */
  lemma DropUndoesFreshPut(entries: map<string, ItemValue>, key: string, value: ItemValue)
    requires key !in entries
    ensures Drop(Put(entries, Some(key), value), Some(key)) == entries
  {
  }

  class ItemStore {
    /** The children of the store's node, by key. */
    var entries: map<string, ItemValue>

    constructor (initial: map<string, ItemValue>)
      ensures entries == initial
    {
      entries := initial;
    }

    /** `addItem`: stores the item under the freshly generated key; writes nothing when no key was generated. */
    method AddItem(item: InventoryItem, generatedKey: Option<string>)
      modifies this
      ensures entries == Put(old(entries), generatedKey, item.Snapshot())
      ensures generatedKey.Some? && generatedKey.value !in old(entries) ==> |entries| == |old(entries)| + 1
    {
      if generatedKey.Some? {
        entries := entries[generatedKey.value := item.Snapshot()];
      }
    }

    /** `updateItem`: replaces (or creates) the entry under `itemId` with the item's current fields. */
    method UpdateItem(itemId: Option<string>, updatedItem: InventoryItem)
      modifies this
      ensures entries == Put(old(entries), itemId, updatedItem.Snapshot())
    {
      if itemId.Some? {
        entries := entries[itemId.value := updatedItem.Snapshot()];
      }
    }

    /** `deleteItem`: removes the entry under `itemId`; other entries are kept. */
    method DeleteItem(itemId: Option<string>)
      modifies this
      ensures entries == Drop(old(entries), itemId)
    {
      if itemId.Some? {
        entries := entries - {itemId.value};
      }
    }
  }
}
