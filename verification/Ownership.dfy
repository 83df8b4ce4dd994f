/** The operations that create and drop wrappers and take and give up references to gpgme keys. */
module Ownership {
  import opened Common
  import opened Graph
  import Settings

  /** A Python object that a program passes in: one of the wrappers, of whatever kind, or another. */
  datatype Element = WrapperObject(r: Obj) | OtherObject

  datatype Value = Sequence(elements: seq<Element>) | NotASequence

  /** What the type check in set_signers makes of an element. */
  function AsItem(objs: Objs, e: Element): Item
  {
    if e.WrapperObject? && e.r in objs && objs[e.r].kind.KeyWrapper? then KeyItem(objs[e.r].key) else NotKey
  }

  function AsItems(objs: Objs, elements: seq<Element>): (items: seq<Item>)
    ensures |items| == |elements| && forall i :: 0 <= i < |items| ==> items[i] == AsItem(objs, elements[i])
  {
    seq(|elements|, i requires 0 <= i < |elements| => AsItem(objs, elements[i]))
  }

  /** What gpgme_op_keylist_next answers. */
  datatype NextKey = Eof | Failed | NoKey | Found(key: KeyId)

  /** The first elements are live Keys of `keys`, and the element after them, if there is one, is not a
      live Key. */
  predicate Leading(objs: Objs, elements: seq<Element>, keys: seq<KeyId>)
  {
    && |keys| <= |elements|
    && (forall i :: 0 <= i < |keys| ==>
          && elements[i].WrapperObject? && elements[i].r in objs
          && objs[elements[i].r].kind == KeyWrapper && objs[elements[i].r].key == keys[i])
    && (|keys| < |elements| && elements[|keys|].WrapperObject? && elements[|keys|].r in objs ==>
          objs[elements[|keys|].r].kind != KeyWrapper)
  }

  lemma {:induction false} NoUses(signers: Signers, g: KeyId)
    requires forall c :: 0 <= c < |signers| ==> signers[c] == []
    ensures Uses(signers, g) == 0
    decreases |signers|
  {
    if signers != [] { NoUses(signers[1..], g); }
  }

  class Heap {
    var objs: Objs                      // live wrappers
    var keys: Counts                    // reference counts of gpgme keys; a key is freed at zero
    var signers: Signers                // of each context
    var attempts: nat                   // objects asked for so far
    const fails: nat -> bool            // which of them cannot be had
    var roots: Counts                   // references held by the Python program, lists included; no C code reads it
    ghost const other: Counts           // the shares of everything else in the gpgme keys

    ghost predicate Ok(extra: Option<Obj>, local: Option<KeyId>)
      reads this
    {
      && Shaped(objs) && Counted(objs, roots, extra) && Accounted(objs, keys, signers, other, local)
      && forall r :: r in objs ==> r < attempts
    }

    ghost predicate Valid()
      reads this
    {
      Ok(None, None)
    }

    constructor (contexts: nat, other: Counts, fails: nat -> bool)
      ensures Valid() && objs == map[] && signers == seq(contexts, _ => []) && roots == map[] && this.other == other && this.fails == fails
    {
      this.objs, this.keys, this.signers, this.attempts, this.fails := map[], other, seq(contexts, _ => []), 0, fails;
      this.roots, this.other := map[], other;
      new;
      forall g
        ensures AccountedAt(objs, keys, signers, other, None, g)
      {
        assert Wrappers(objs, g) == {};
        NoUses(signers, g);
      }
    }

    /** gpgme_key_ref */
    method KeyRef(g: KeyId)
      requires At(keys, g) > 0
      modifies this`keys
      ensures keys == Plus(old(keys), g)
    {
      keys := Plus(keys, g);
    }

    /** gpgme_key_unref */
    method KeyUnref(g: KeyId)
      requires At(keys, g) > 0
      modifies this`keys
      ensures keys == Minus(old(keys), g)
    {
      keys := Minus(keys, g);
    }

    /** pygpgme_key_new, with a key that the C code holds. */
    method KeyNew(g: KeyId, ghost local: Option<KeyId>) returns (r: Option<Obj>)
      requires Ok(None, local) && At(keys, g) > 0
      modifies this`objs, this`keys, this`attempts, this`roots
      ensures Ok(None, local) && attempts == old(attempts) + 1
      ensures r == if fails(old(attempts)) then None else Some(old(attempts))
      ensures r.Some? ==>
        && r.value !in old(objs) && objs == old(objs)[r.value := Wrapper(KeyWrapper, g, [], None, 1)]
        && roots == Plus(old(roots), r.value) && keys == Plus(old(keys), g)
      ensures r.None? ==> objs == old(objs) && roots == old(roots) && keys == old(keys)
    {
      var q := attempts;
      attempts := attempts + 1;
      if fails(q) { return None; }
      AddKey(objs, roots, q, g);
      AccountedNew(objs, q, Wrapper(KeyWrapper, g, [], None, 1), keys, signers, other, local);
      KeyRef(g);
      objs := objs[q := Wrapper(KeyWrapper, g, [], None, 1)];
      roots := Plus(roots, q);
      return Some(q);
    }

    /** Py_DECREF of a wrapper, with the deallocator it runs when the count reaches zero: a view gives
        up its parent, a Key its gpgme key. */
    method Decref(r: Obj, ghost local: Option<KeyId>)
      requires Ok(Some(r), local)
      modifies this`objs, this`keys
      ensures Ok(None, local) && Agree(old(objs), objs) && objs.Keys <= old(objs.Keys)
      decreases Rank(objs[r].kind)
    {
      assert CountedAt(objs, roots, Some(r), r) && ObjOk(objs, objs[r]);
      var o := objs[r];
      if o.refs > 1 {
        LoseRef(objs, roots, r);
        AccountedRefs(objs, r, o.refs - 1, keys, signers, other, local);
        objs := WithRefs(objs, r, o.refs - 1);
        return;
      }
      LoseLastRef(objs, roots, r);
      AccountedRemoval(objs, r, keys, signers, other, local);
      objs := objs - {r};
      if o.kind.KeyWrapper? {
        KeyUnref(o.key);
      } else {
        Decref(o.parent.value, local);
      }
    }

    /** The program takes another reference to a live wrapper: Py_INCREF. */
    method Share(r: Obj)
      requires Valid() && r in objs
      modifies this`objs, this`roots
      ensures Valid() && roots == Plus(old(roots), r)
      ensures objs == WithRefs(old(objs), r, old(objs[r].refs) + 1)
    {
      ShareOk(objs, roots, r);
      AccountedRefs(objs, r, objs[r].refs + 1, keys, signers, other, None);
      objs := WithRefs(objs, r, objs[r].refs + 1);
      roots := Plus(roots, r);
    }

    /** The program drops one of its references. */
    method Drop(r: Obj, ghost local: Option<KeyId>)
      requires Ok(None, local) && At(roots, r) > 0
      modifies this`objs, this`keys, this`roots
      ensures Ok(None, local) && roots == Minus(old(roots), r)
      ensures Agree(old(objs), objs) && objs.Keys <= old(objs.Keys)
    {
      roots := Minus(roots, r);
      forall q | q in objs
        ensures CountedAt(objs, roots, Some(r), q)
      {
        assert CountedAt(objs, old(roots), None, q);
      }
      Decref(r, local);
    }

    /** A list object dies: its items are dropped from the last to the first. */
    method DropList(list: seq<Obj>, ghost roots0: Counts)
      requires Valid() && Gained(roots0, roots, list)
      modifies this`objs, this`keys, this`roots
      ensures Valid() && SameCounts(roots, roots0)
      ensures Agree(old(objs), objs) && objs.Keys <= old(objs.Keys)
    {
      var n := |list|;
      assert list[..n] == list;
      while n > 0
        invariant 0 <= n <= |list| && Valid() && Gained(roots0, roots, list[..n])
        invariant Agree(old(objs), objs) && objs.Keys <= old(objs.Keys)
      {
        n := n - 1;
        assert list[..n + 1] == list[..n] + [list[n]];
        GainedPop(roots0, roots, list[..n], list[n]);
        Drop(list[n], None);
      }
      assert list[..0] == [];
      GainedNothing(roots0, roots);
    }

    /** PyObject_New for a view into `parent`, with the reference it takes. */
    method NewView(parent: Obj, kind: Kind, i: nat) returns (r: Option<Obj>)
      requires Valid() && parent in objs && ParentKind(kind, objs[parent].kind)
      modifies this`objs, this`attempts, this`roots
      ensures Valid() && attempts == old(attempts) + 1
      ensures r == if fails(old(attempts)) then None else Some(old(attempts))
      ensures r.None? ==> objs == old(objs) && roots == old(roots)
      ensures r.Some? ==> r.value !in old(objs) && roots == Plus(old(roots), r.value)
                          && objs == WithView(old(objs), parent, kind, i, r.value)
    {
      var q := attempts;
      attempts := attempts + 1;
      if fails(q) { return None; }
      NewViewOk(objs, roots, keys, signers, other, parent, kind, i, q);
      var o := Wrapper(kind, objs[parent].key, objs[parent].path + [i], Some(parent), 1);
      objs := WithRefs(objs, parent, objs[parent].refs + 1);     // Py_INCREF(self)
      objs := objs[q := o];
      roots := Plus(roots, q);
      return Some(q);
    }

    /** The state to which a list under construction can be taken back. */
    ghost predicate Base(objs0: Objs, roots0: Counts, keys0: Counts)
      reads this
    {
      Shaped(objs0) && Counted(objs0, roots0, None) && Accounted(objs0, keys0, signers, other, None)
    }

    /** One more view in a list under construction; or, when it cannot be had, the list is dropped. */
    method AppendView(list: seq<Obj>, parent: Obj, kind: Kind, ghost objs0: Objs, ghost roots0: Counts, ghost keys0: Counts)
      returns (item: Option<Obj>)
      requires Valid() && Base(objs0, roots0, keys0) && ViewsAdded(objs0, roots0, objs, roots, list, parent, kind)
      requires ParentKind(kind, objs0[parent].kind)
      modifies this`objs, this`keys, this`attempts, this`roots
      ensures Valid() && attempts == old(attempts) + 1 && (item.Some? <==> !fails(old(attempts)))
      ensures item.Some? ==> ViewsAdded(objs0, roots0, objs, roots, list + [item.value], parent, kind) && keys == old(keys)
      ensures item.None? ==> objs == objs0 && SameCounts(keys, keys0) && SameCounts(roots, roots0)
    {
      ghost var objs1, roots1 := objs, roots;
      item := NewView(parent, kind, |list|);
      if item.Some? {
        ViewsSnoc(objs0, roots0, objs1, roots1, list, parent, kind, item.value);
      } else {
        Undo(list, objs0, roots0, keys0);
      }
    }

    /** The loop of get_uids, get_subkeys and get_signatures over `n` list elements. On success the
        program holds a list of new views; when an object cannot be had, the views made so far are
        dropped again and nothing at all has changed. */
    method ViewList(parent: Obj, kind: Kind, n: nat) returns (list: Option<seq<Obj>>)
      requires Valid() && parent in objs && ParentKind(kind, objs[parent].kind)
      modifies this`objs, this`keys, this`attempts, this`roots
      ensures Valid() && (list.Some? <==> Supplied(fails, old(attempts), n))
      ensures list.Some? ==> |list.value| == n && ViewsAdded(old(objs), old(roots), objs, roots, list.value, parent, kind)
      ensures list.Some? ==> keys == old(keys)
      ensures list.None? ==> objs == old(objs) && SameCounts(keys, old(keys)) && SameCounts(roots, old(roots))
    {
      var items: seq<Obj> := [];
      var i := 0;
      NothingAdded(objs, roots, parent, kind);
      while i < n
        invariant 0 <= i <= n && |items| == i && attempts == old(attempts) + i && Supplied(fails, old(attempts), i)
        invariant Valid() && keys == old(keys)
        invariant ViewsAdded(old(objs), old(roots), objs, roots, items, parent, kind)
      {
        var item := AppendView(items, parent, kind, old(objs), old(roots), old(keys));
        SuppliedSplit(fails, old(attempts), i + 1);
        if item.None? { return None; }
        items := items + [item.value];
        i := i + 1;
      }
      return Some(items);
    }

    /** Dropping a list that was just built takes the heap back to where it was. */
    method Undo(list: seq<Obj>, ghost objs0: Objs, ghost roots0: Counts, ghost keys0: Counts)
      requires Valid() && Gained(roots0, roots, list)
      requires Base(objs0, roots0, keys0)
      requires objs0.Keys <= objs.Keys && Agree(objs0, objs)
      modifies this`objs, this`keys, this`roots
      ensures Valid() && objs == objs0 && SameCounts(keys, keys0) && SameCounts(roots, roots0)
    {
      DropList(list, roots0);
      RootsDetermineHeap(objs0, roots0, objs, roots);
      SameKeys(objs, keys0, keys, signers, other);
    }

    /** pygpgme_key_get_uids */
    method GetUids(self: Obj, n: nat) returns (list: Option<seq<Obj>>)
      requires Valid() && self in objs && objs[self].kind.KeyWrapper?
      modifies this`objs, this`keys, this`attempts, this`roots
      ensures Valid() && (list.Some? <==> Supplied(fails, old(attempts), n))
      ensures list.Some? ==> |list.value| == n && ViewsAdded(old(objs), old(roots), objs, roots, list.value, self, UserIdView)
      ensures list.None? ==> objs == old(objs) && SameCounts(keys, old(keys)) && SameCounts(roots, old(roots))
    {
      list := ViewList(self, UserIdView, n);
    }

    /** pygpgme_key_get_subkeys */
    method GetSubkeys(self: Obj, n: nat) returns (list: Option<seq<Obj>>)
      requires Valid() && self in objs && objs[self].kind.KeyWrapper?
      modifies this`objs, this`keys, this`attempts, this`roots
      ensures Valid() && (list.Some? <==> Supplied(fails, old(attempts), n))
      ensures list.Some? ==> |list.value| == n && ViewsAdded(old(objs), old(roots), objs, roots, list.value, self, SubkeyView)
      ensures list.None? ==> objs == old(objs) && SameCounts(keys, old(keys)) && SameCounts(roots, old(roots))
    {
      list := ViewList(self, SubkeyView, n);
    }

    /** pygpgme_user_id_get_signatures */
    method GetSignatures(self: Obj, n: nat) returns (list: Option<seq<Obj>>)
      requires Valid() && self in objs && objs[self].kind.UserIdView?
      modifies this`objs, this`keys, this`attempts, this`roots
      ensures Valid() && (list.Some? <==> Supplied(fails, old(attempts), n))
      ensures list.Some? ==> |list.value| == n && ViewsAdded(old(objs), old(roots), objs, roots, list.value, self, KeySigView)
      ensures list.None? ==> objs == old(objs) && SameCounts(keys, old(keys)) && SameCounts(roots, old(roots))
    {
      list := ViewList(self, KeySigView, n);
    }

    // ---------- keys that gpgme hands out ----------

    /** gpgme returns a key, with a reference for the caller. */
    method Receive(g: KeyId)
      requires Valid()
      modifies this`keys
      ensures Ok(None, Some(g)) && keys == Plus(old(keys), g)
    {
      AccountedLocal(objs, keys, signers, other, g);
      keys := Plus(keys, g);
    }

    /** pygpgme_key_new followed by gpgme_key_unref, on a key just received. */
    method Wrap(g: KeyId) returns (r: Option<Obj>)
      requires Ok(None, Some(g))
      modifies this`objs, this`keys, this`attempts, this`roots
      ensures Valid() && attempts == old(attempts) + 1
      ensures r == if fails(old(attempts)) then None else Some(old(attempts))
      ensures r.Some? ==> r.value !in old(objs) && objs == old(objs)[r.value := Wrapper(KeyWrapper, g, [], None, 1)]
                          && roots == Plus(old(roots), r.value)
      ensures r.None? ==> objs == old(objs) && roots == old(roots)
    {
      AccountedLocal(objs, keys, signers, other, g);
      r := KeyNew(g, Some(g));
      AccountedLocal(objs, keys, signers, other, g);
      KeyUnref(g);
    }

    /** pygpgme_context_get_key; `found` is the key gpgme_get_key returns, None for an error. */
    method GetKey(found: Option<KeyId>) returns (r: Option<Obj>)
      requires Valid()
      modifies this`objs, this`keys, this`attempts, this`roots
      ensures Valid()
      ensures r.Some? <==> found.Some? && !fails(old(attempts))
      ensures r.Some? ==> r.value == old(attempts)
      ensures r.Some? ==> r.value !in old(objs) && objs == old(objs)[r.value := Wrapper(KeyWrapper, found.value, [], None, 1)]
                          && roots == Plus(old(roots), r.value)
      ensures r.None? ==> objs == old(objs) && roots == old(roots) && SameCounts(keys, old(keys))
    {
      ghost var keys0 := keys;
      r := None;
      if found.Some? {
        r := ReceiveAndWrap(found.value);
        if r.None? { SameKeys(objs, keys0, keys, signers, other); }
      }
    }

    /** pygpgme_keyiter_next: None stands for an exception or for Python's None. */
    method KeyIterNext(next: NextKey) returns (r: Option<Obj>)
      requires Valid()
      modifies this`objs, this`keys, this`attempts, this`roots
      ensures Valid()
      ensures r.Some? <==> next.Found? && !fails(old(attempts))
      ensures r.Some? ==> r.value == old(attempts)
      ensures r.Some? ==> r.value !in old(objs) && objs == old(objs)[r.value := Wrapper(KeyWrapper, next.key, [], None, 1)]
                          && roots == Plus(old(roots), r.value)
      ensures r.None? ==> objs == old(objs) && roots == old(roots) && SameCounts(keys, old(keys))
    {
      ghost var keys0 := keys;
      r := None;
      match next
      case Eof =>
      case Failed =>
      case NoKey =>
      case Found(g) =>
        r := ReceiveAndWrap(g);
        if r.None? { SameKeys(objs, keys0, keys, signers, other); }
    }

    // ---------- signers ----------

    /** A key that gpgme hands out, wrapped. */
    method ReceiveAndWrap(g: KeyId) returns (r: Option<Obj>)
      requires Valid()
      modifies this`objs, this`keys, this`attempts, this`roots
      ensures Valid() && attempts == old(attempts) + 1
      ensures r == if fails(old(attempts)) then None else Some(old(attempts))
      ensures r.Some? ==> r.value !in old(objs) && objs == old(objs)[r.value := Wrapper(KeyWrapper, g, [], None, 1)]
                          && roots == Plus(old(roots), r.value)
      ensures r.None? ==> objs == old(objs) && roots == old(roots)
    {
      Receive(g);
      r := Wrap(g);
    }

    /** The Key object for signer `i` in a list under construction; or the list is dropped. */
    method AppendSigner(c: Cid, list: seq<Obj>, i: nat, ghost objs0: Objs, ghost roots0: Counts, ghost keys0: Counts)
      returns (item: Option<Obj>)
      requires Valid() && Base(objs0, roots0, keys0) && c < |signers| && i < |signers[c]|
      requires KeysAdded(objs0, roots0, objs, roots, list, signers[c][..i])
      modifies this`objs, this`keys, this`attempts, this`roots
      ensures Valid() && attempts == old(attempts) + 1 && (item.Some? <==> !fails(old(attempts)))
      ensures item.Some? ==> KeysAdded(objs0, roots0, objs, roots, list + [item.value], signers[c][..i + 1])
      ensures item.None? ==> objs == objs0 && SameCounts(keys, keys0) && SameCounts(roots, roots0)
    {
      ghost var objs1, roots1 := objs, roots;
      var key := signers[c][i];                        // gpgme_signers_enum adds a reference
      assert signers[c][..i + 1] == signers[c][..i] + [key];
      item := ReceiveAndWrap(key);
      if item.Some? {
        KeysSnoc(objs0, roots0, objs1, roots1, list, signers[c][..i], item.value, key);
      } else {
        Undo(list, objs0, roots0, keys0);
      }
    }

    /** pygpgme_context_get_signers: a list of new Key objects for the signers, in order. When one of
        them cannot be had, the ones made so far are dropped and nothing has changed. */
    method GetSigners(c: Cid) returns (list: Option<seq<Obj>>)
      requires Valid() && c < |signers|
      modifies this`objs, this`keys, this`attempts, this`roots
      ensures Valid() && (list.Some? <==> Supplied(fails, old(attempts), |signers[c]|))
      ensures list.Some? ==> KeysAdded(old(objs), old(roots), objs, roots, list.value, signers[c])
      ensures list.None? ==> objs == old(objs) && SameCounts(keys, old(keys)) && SameCounts(roots, old(roots))
    {
      var items: seq<Obj> := [];
      var i := 0;
      assert KeysAdded(objs, roots, objs, roots, items, signers[c][..i]);
      while i < |signers[c]|
        invariant 0 <= i <= |signers[c]| && attempts == old(attempts) + i
        invariant Valid() && KeysAdded(old(objs), old(roots), objs, roots, items, signers[c][..i])
        invariant Supplied(fails, old(attempts), i)
      {
        var item := AppendSigner(c, items, i, old(objs), old(roots), old(keys));
        SuppliedSplit(fails, old(attempts), i + 1);
        if item.None? { return None; }
        items := items + [item.value];
        i := i + 1;
      }
      assert signers[c][..i] == signers[c];
      return Some(items);
    }

    /** gpgme_signers_clear */
    method SignersClear(c: Cid)
      requires Valid() && c < |signers|
      modifies this`keys, this`signers
      ensures Valid() && signers == old(signers)[c := []]
    {
      while signers[c] != []
        invariant Valid() && |signers| == |old(signers)| && signers == old(signers)[c := signers[c]]
        decreases |signers[c]|
      {
        var n := |signers[c]| - 1;
        var key := signers[c][n];
        assert signers[c] == signers[c][..n] + [key];
        AccountedRemove(objs, keys, signers, other, c, signers[c][..n], key);
        KeyUnref(key);
        signers := signers[c := signers[c][..n]];
      }
    }

    /** gpgme_signers_add */
    method SignersAdd(c: Cid, g: KeyId)
      requires Valid() && c < |signers| && At(keys, g) > 0
      modifies this`keys, this`signers
      ensures Valid() && signers == old(signers)[c := old(signers)[c] + [g]]
    {
      AccountedAdd(objs, keys, signers, other, c, g);
      KeyRef(g);
      signers := signers[c := signers[c] + [g]];
    }

    /** pygpgme_context_set_signers, on a sequence whose elements the caller keeps alive: the signers are
        then the keys before the first element that is not a Key, and it succeeds if there is none. This
        is what an assignment to `signers` does under the mutex (Settings.After). */
    method SetSigners(c: Cid, value: Value) returns (ok: bool)
      requires Valid() && c < |signers| && (value.Sequence? ==> Live(value.elements))
      modifies this`keys, this`signers
      ensures Valid()
      ensures value.NotASequence? ==> !ok && signers == old(signers) && keys == old(keys)
      ensures value.Sequence? ==>
        var req := Settings.Request.SetSigners(AsItems(objs, value.elements));
        var resp := if ok then Settings.Unit else Settings.Response.Failed;
        forall st :: Settings.Legal(st, req, resp) && signers == old(signers)[c := Settings.After(st, req, resp).signers]
      ensures value.Sequence? ==>
        && |signers| == |old(signers)| && signers == old(signers)[c := signers[c]]
        && Leading(objs, value.elements, signers[c]) && (ok <==> |signers[c]| == |value.elements|)
        && (ok <==> forall i :: 0 <= i < |value.elements| ==>
              value.elements[i].WrapperObject? && objs[value.elements[i].r].kind == KeyWrapper)
    {
      if value.NotASequence? { return false; }
      var elements := value.elements;
      SignersClear(c);
      var i := 0;
      ok := true;
      while i < |elements| && ok
        invariant 0 <= i <= |elements| && Valid() && |signers| == |old(signers)|
        invariant signers == old(signers)[c := signers[c]] && |signers[c]| == i
        invariant forall k :: 0 <= k < i ==> AsItem(objs, elements[k]) == KeyItem(signers[c][k])
        invariant !ok ==> i < |elements| && AsItem(objs, elements[i]) == NotKey
        decreases |elements| - i, ok
      {
        if AsItem(objs, elements[i]).NotKey? {
          ok := false;
        } else {
          ViewsAreSafe(objs, keys, signers, other, None, elements[i].r);
          SignersAdd(c, objs[elements[i].r].key);
          i := i + 1;
        }
      }
      LeadingKeysIs(AsItems(objs, elements), signers[c]);
    }

    ghost predicate Live(elements: seq<Element>)
      reads this
    {
      forall i :: 0 <= i < |elements| && elements[i].WrapperObject? ==> elements[i].r in objs
    }
  }

  lemma {:induction false} LeadingKeysAre(items: seq<Item>, n: nat)
    requires n <= |items| && AllKeys(items[..n]) && (n < |items| ==> items[n].NotKey?)
    ensures Settings.LeadingKeys(items) == n
    decreases n
  {
    assert n > 0 ==> items[0] == items[..n][0];
    if n > 0 {
      assert items[1..][..n - 1] == items[..n][1..];
      LeadingKeysAre(items[1..], n - 1);
    }
  }

  lemma LeadingKeysIs(items: seq<Item>, keys: seq<KeyId>)
    requires |keys| <= |items| && (forall k :: 0 <= k < |keys| ==> items[k] == KeyItem(keys[k]))
    requires |keys| < |items| ==> items[|keys|].NotKey?
    ensures Settings.LeadingKeys(items) == |keys| && KeysOf(items[..Settings.LeadingKeys(items)]) == keys
  {
    LeadingKeysAre(items, |keys|);
  }

  /** The same heap and signers account for the same key counts. */
  lemma SameKeys(objs: Objs, keys: Counts, keys': Counts, signers: Signers, other: Counts)
    requires Accounted(objs, keys, signers, other, None) && Accounted(objs, keys', signers, other, None)
    ensures SameCounts(keys', keys)
  {
    forall g
      ensures At(keys', g) == At(keys, g)
    {
      assert AccountedAt(objs, keys, signers, other, None, g) && AccountedAt(objs, keys', signers, other, None, g);
    }
  }
}
