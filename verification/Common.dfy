/** What the other modules share: optional values, identities, and sequences meant to hold keys. */
module Common {
  /** C's NULL pointers and Python's None. */
  datatype Option<+T> = None | Some(value: T)

  type Obj = nat       // a Python object, by identity
  type Tid = nat       // a thread, and the thread state CPython keeps for it
  type Cid = nat       // a context
  type KeyId = nat     // a gpgme_key_t, by identity
  type byte = bv8

  /** An element of a sequence that should hold Key objects, by the gpgme key inside it. */
  datatype Item = KeyItem(key: KeyId) | NotKey

  predicate AllKeys(items: seq<Item>) { forall i :: 0 <= i < |items| ==> items[i].KeyItem? }

  function KeysOf(items: seq<Item>): (keys: seq<KeyId>)
    requires AllKeys(items)
    ensures |keys| == |items| && forall i :: 0 <= i < |keys| ==> KeyItem(keys[i]) == items[i]
  {
    seq(|items|, i requires 0 <= i < |items| => items[i].key)
  }

  /** Attempts `first` to `first + n - 1` succeed. */
  predicate Supplied(fails: nat -> bool, first: nat, n: nat)
  {
    forall k :: first <= k < first + n ==> !fails(k)
  }

  lemma SuppliedSplit(fails: nat -> bool, first: nat, n: nat)
    requires n > 0
    ensures Supplied(fails, first, n) <==> !fails(first) && Supplied(fails, first + 1, n - 1)
    ensures Supplied(fails, first, n) <==> Supplied(fails, first, n - 1) && !fails(first + n - 1)
  {
  }
}
