/**
 * `getObjectKey`: a numeric key per object, assigned from a counter on first
 * request and remembered afterwards. The data provider's cache keys use it.
 */
module ObjectKeys {

  /** The memo table: keys start at 1, stay below the counter and are never shared. */
  ghost predicate KeyTable(keys: map<object, nat>, nextKey: nat) {
    nextKey >= 1 &&
    (forall o :: o in keys ==> 1 <= keys[o] < nextKey) &&
    (forall a, b :: a in keys && b in keys && a != b ==> keys[a] != keys[b])
  }

  /** Giving an unseen object the counter's value keeps the table well formed. */
  lemma AssignKeepsKeyTable(keys: map<object, nat>, nextKey: nat, obj: object)
    requires KeyTable(keys, nextKey) && obj !in keys
    ensures KeyTable(keys[obj := nextKey], nextKey + 1)
  {
  }

  /** The module-level `keys` WeakMap and `nextKey` counter. */
  class ObjectKeyMemo {
    var keys: map<object, nat>
    var nextKey: nat

    ghost predicate Valid()
      reads this
    {
      KeyTable(keys, nextKey)
    }

    /** The module's initial state: no keys, counter at 1. */
    constructor()
      ensures keys == map[] && nextKey == 1
      ensures Valid()
    {
      keys := map[];
      nextKey := 1;
    }

    /**
     * `getObjectKey(obj)`: the remembered key, or, when there is none (`!key`),
     * the counter's value, which is then remembered and the counter advanced.
     */
    method GetObjectKey(obj: object) returns (key: nat)
      requires Valid()
      modifies this
      ensures Valid()
      ensures key >= 1 && obj in keys && keys[obj] == key
      ensures obj in old(keys) ==> key == old(keys)[obj] && keys == old(keys) && nextKey == old(nextKey)
      ensures obj !in old(keys) ==> key == old(nextKey) && keys == old(keys)[obj := key] && nextKey == old(nextKey) + 1
      ensures forall o :: o in old(keys) ==> o in keys && keys[o] == old(keys)[o]
      ensures forall o :: o in keys && o != obj ==> keys[o] != key
    {
      var found: nat := if obj in keys then keys[obj] else 0;
      if found == 0 {
        key := nextKey;
        nextKey := nextKey + 1;
        AssignKeepsKeyTable(keys, key, obj);
        keys := keys[obj := key];
      } else {
        key := found;
      }
    }
  }
}
