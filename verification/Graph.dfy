/** The heap of Python wrappers around gpgme keys, by value: Key objects, and the UserId, Subkey and
    KeySig objects that are views into them and keep their parent alive. */
module Graph {
  import opened Common

  datatype Kind = KeyWrapper | UserIdView | SubkeyView | KeySigView

  /** A live wrapper: the gpgme key it is in, where in it (the list positions that lead there), the
      parent it holds a reference to, and its own reference count. */
  datatype Wrapper = Wrapper(kind: Kind, key: KeyId, path: seq<nat>, parent: Option<Obj>, refs: nat)

  type Objs = map<Obj, Wrapper>

  /** The signers of each context. */
  type Signers = seq<seq<KeyId>>

  /** How often a key occurs among the signers of all contexts. */
  function Uses(signers: Signers, g: KeyId): nat
  {
    if signers == [] then 0 else multiset(signers[0])[g] + Uses(signers[1..], g)
  }

  lemma {:induction false} UsesUpdate(signers: Signers, c: Cid, list: seq<KeyId>, g: KeyId)
    requires c < |signers|
    ensures Uses(signers[c := list], g) + multiset(signers[c])[g] == Uses(signers, g) + multiset(list)[g]
    decreases |signers|
  {
    if c == 0 {
      assert signers[c := list][1..] == signers[1..];
    } else {
      assert signers[c := list][1..] == signers[1..][c - 1 := list];
      UsesUpdate(signers[1..], c - 1, list, g);
    }
  }

  /** Counts that are zero where nothing is recorded. */
  type Counts = map<nat, nat>

  function At(m: Counts, k: nat): nat { if k in m then m[k] else 0 }

  function Plus(m: Counts, k: nat): Counts { m[k := At(m, k) + 1] }

  function Minus(m: Counts, k: nat): Counts
    requires At(m, k) > 0
  {
    m[k := At(m, k) - 1]
  }

  ghost function Children(objs: Objs, r: Obj): set<Obj>
  {
    set c | c in objs && objs[c].parent == Some(r)
  }

  ghost function Wrappers(objs: Objs, g: KeyId): set<Obj>
  {
    set c | c in objs && objs[c].kind == KeyWrapper && objs[c].key == g
  }

  // ---------- the invariants ----------

  /** How far a kind is from the Key it hangs from. */
  function Rank(kind: Kind): nat { match kind case KeyWrapper => 0 case UserIdView => 1 case SubkeyView => 1 case KeySigView => 2 }

  ghost predicate ObjOk(objs: Objs, o: Wrapper)
  {
    if o.kind.KeyWrapper? then o.parent == None && o.path == []
    else
      && o.parent.Some? && o.parent.value in objs
      && var p := objs[o.parent.value];
         && p.kind == (if o.kind.KeySigView? then UserIdView else KeyWrapper)
         && p.key == o.key
         && |o.path| == |p.path| + 1 && p.path <= o.path
  }

  /** Parents are there, and are of the right kind and of the same gpgme key. */
  ghost predicate Shaped(objs: Objs)
  {
    forall r {:trigger ObjOk(objs, objs[r])} :: r in objs ==> ObjOk(objs, objs[r])
  }

  /** A reference count is the references of the program plus one for each child, and one more for
      `extra`, an object about to lose a reference. */
  ghost predicate CountedAt(objs: Objs, roots: Counts, extra: Option<Obj>, r: Obj)
    requires r in objs
  {
    objs[r].refs == At(roots, r) + |Children(objs, r)| + (if extra == Some(r) then 1 else 0) && objs[r].refs > 0
  }

  /** All counts are right, and only live objects are referenced. */
  ghost predicate Counted(objs: Objs, roots: Counts, extra: Option<Obj>)
  {
    && (forall r {:trigger CountedAt(objs, roots, extra, r)} :: r in objs ==> CountedAt(objs, roots, extra, r))
    && (forall r :: At(roots, r) > 0 ==> r in objs)
    && (extra.Some? ==> extra.value in objs)
  }

  /** The count of a gpgme key is the number of its Key wrappers, its occurrences among the
      signers of all contexts, the share of everything else (`other`), and one for `local`, a key that C code holds just now. */
  ghost predicate AccountedAt(objs: Objs, keys: Counts, signers: Signers, other: Counts, local: Option<KeyId>, g: KeyId)
  {
    At(keys, g) == |Wrappers(objs, g)| + Uses(signers, g) + At(other, g) + (if local == Some(g) then 1 else 0)
  }

  ghost predicate Accounted(objs: Objs, keys: Counts, signers: Signers, other: Counts, local: Option<KeyId>)
  {
    forall g :: AccountedAt(objs, keys, signers, other, local, g)
  }

  // ---------- adding, changing and removing an object ----------

  lemma ChildrenOfNew(objs: Objs, r: Obj, o: Wrapper, p: Obj)
    requires r !in objs && Children(objs, r) == {} && o.parent != Some(r)
    ensures |Children(objs[r := o], p)| == |Children(objs, p)| + (if o.parent == Some(p) then 1 else 0)
  {
    if o.parent == Some(p) {
      assert Children(objs[r := o], p) == Children(objs, p) + {r};
    } else {
      assert Children(objs[r := o], p) == Children(objs, p);
    }
  }

  lemma WrappersOfNew(objs: Objs, r: Obj, o: Wrapper, g: KeyId)
    requires r !in objs
    ensures |Wrappers(objs[r := o], g)| == |Wrappers(objs, g)| + (if o.kind.KeyWrapper? && o.key == g then 1 else 0)
  {
    if o.kind.KeyWrapper? && o.key == g {
      assert Wrappers(objs[r := o], g) == Wrappers(objs, g) + {r};
    } else {
      assert Wrappers(objs[r := o], g) == Wrappers(objs, g);
    }
  }

  function WithRefs(objs: Objs, r: Obj, n: nat): Objs
    requires r in objs
  {
    objs[r := objs[r].(refs := n)]
  }

  /** Reference counts do not matter for who is whose child. */
  lemma RefsAside(objs: Objs, r: Obj, n: nat)
    requires r in objs
    ensures forall p :: Children(WithRefs(objs, r, n), p) == Children(objs, p)
    ensures forall g :: Wrappers(WithRefs(objs, r, n), g) == Wrappers(objs, g)
    ensures Shaped(objs) ==> Shaped(WithRefs(objs, r, n))
  {
    var objs' := WithRefs(objs, r, n);
    if Shaped(objs) {
      forall q | q in objs'
        ensures ObjOk(objs', objs'[q])
      {
        assert ObjOk(objs, objs[q]);
      }
    }
  }

  lemma ChildrenAfterRemoval(objs: Objs, r: Obj, p: Obj)
    requires r in objs && objs[r].parent != Some(r)
    ensures |Children(objs - {r}, p)| == |Children(objs, p)| - (if objs[r].parent == Some(p) then 1 else 0)
  {
    if objs[r].parent == Some(p) {
      assert r in Children(objs, p);
      assert Children(objs - {r}, p) == Children(objs, p) - {r};
    } else {
      assert Children(objs - {r}, p) == Children(objs, p);
    }
  }

  lemma WrappersAfterRemoval(objs: Objs, r: Obj, g: KeyId)
    requires r in objs
    ensures |Wrappers(objs - {r}, g)| == |Wrappers(objs, g)| - (if objs[r].kind.KeyWrapper? && objs[r].key == g then 1 else 0)
  {
    if objs[r].kind.KeyWrapper? && objs[r].key == g {
      assert r in Wrappers(objs, g);
      assert Wrappers(objs - {r}, g) == Wrappers(objs, g) - {r};
    } else {
      assert Wrappers(objs - {r}, g) == Wrappers(objs, g);
    }
  }

  /** A wrapper that comes or goes takes its share of the key's count with it. */
  lemma AccountedNew(objs: Objs, r: Obj, o: Wrapper, keys: Counts, signers: Signers, other: Counts, local: Option<KeyId>)
    requires Accounted(objs, keys, signers, other, local) && r !in objs
    ensures Accounted(objs[r := o], if o.kind.KeyWrapper? then Plus(keys, o.key) else keys, signers, other, local)
  {
    var keys', objs' := if o.kind.KeyWrapper? then Plus(keys, o.key) else keys, objs[r := o];
    forall g
      ensures AccountedAt(objs', keys', signers, other, local, g)
    {
      assert AccountedAt(objs, keys, signers, other, local, g);
      WrappersOfNew(objs, r, o, g);
    }
  }

  lemma AccountedRemoval(objs: Objs, r: Obj, keys: Counts, signers: Signers, other: Counts, local: Option<KeyId>)
    requires Accounted(objs, keys, signers, other, local) && r in objs
    ensures objs[r].kind.KeyWrapper? ==> At(keys, objs[r].key) > 0
    ensures Accounted(objs - {r}, if objs[r].kind.KeyWrapper? then Minus(keys, objs[r].key) else keys, signers, other, local)
  {
    assert AccountedAt(objs, keys, signers, other, local, objs[r].key);
    WrappersAfterRemoval(objs, r, objs[r].key);
    var keys' := if objs[r].kind.KeyWrapper? then Minus(keys, objs[r].key) else keys;
    forall g
      ensures AccountedAt(objs - {r}, keys', signers, other, local, g)
    {
      assert AccountedAt(objs, keys, signers, other, local, g);
      WrappersAfterRemoval(objs, r, g);
    }
  }

  /** C code takes a reference to a key, and gives it up. */
  lemma AccountedLocal(objs: Objs, keys: Counts, signers: Signers, other: Counts, g: KeyId)
    ensures Accounted(objs, keys, signers, other, None) ==> Accounted(objs, Plus(keys, g), signers, other, Some(g))
    ensures Accounted(objs, keys, signers, other, Some(g)) ==>
      At(keys, g) > 0 && Accounted(objs, Minus(keys, g), signers, other, None)
  {
    if Accounted(objs, keys, signers, other, None) {
      forall h
        ensures AccountedAt(objs, Plus(keys, g), signers, other, Some(g), h)
      {
        assert AccountedAt(objs, keys, signers, other, None, h);
      }
    }
    if Accounted(objs, keys, signers, other, Some(g)) {
      assert AccountedAt(objs, keys, signers, other, Some(g), g);
      var keys' := Minus(keys, g);
      forall h
        ensures AccountedAt(objs, keys', signers, other, None, h)
      {
        assert AccountedAt(objs, keys, signers, other, Some(g), h);
      }
    }
  }

  /** A signer of a context comes or goes with a reference to its key. */
  lemma AccountedAdd(objs: Objs, keys: Counts, signers: Signers, other: Counts, c: Cid, g: KeyId)
    requires Accounted(objs, keys, signers, other, None) && c < |signers|
    ensures Accounted(objs, Plus(keys, g), signers[c := signers[c] + [g]], other, None)
  {
    var signers' := signers[c := signers[c] + [g]];
    forall h
      ensures AccountedAt(objs, Plus(keys, g), signers', other, None, h)
    {
      assert AccountedAt(objs, keys, signers, other, None, h);
      UsesUpdate(signers, c, signers[c] + [g], h);
      assert multiset(signers[c] + [g]) == multiset(signers[c]) + multiset{g};
    }
  }

  lemma AccountedRemove(objs: Objs, keys: Counts, signers: Signers, other: Counts, c: Cid, list: seq<KeyId>, g: KeyId)
    requires Accounted(objs, keys, signers, other, None) && c < |signers| && signers[c] == list + [g]
    ensures At(keys, g) > 0 && Accounted(objs, Minus(keys, g), signers[c := list], other, None)
  {
    assert multiset(signers[c]) == multiset(list) + multiset{g};
    UsesUpdate(signers, c, list, g);
    assert AccountedAt(objs, keys, signers, other, None, g);
    var keys', signers' := Minus(keys, g), signers[c := list];
    forall h
      ensures AccountedAt(objs, keys', signers', other, None, h)
    {
      assert AccountedAt(objs, keys, signers, other, None, h);
      UsesUpdate(signers, c, list, h);
    }
  }

  lemma AccountedRefs(objs: Objs, r: Obj, n: nat, keys: Counts, signers: Signers, other: Counts, local: Option<KeyId>)
    requires Accounted(objs, keys, signers, other, local) && r in objs
    ensures Accounted(WithRefs(objs, r, n), keys, signers, other, local)
  {
    RefsAside(objs, r, n);
    forall g
      ensures AccountedAt(WithRefs(objs, r, n), keys, signers, other, local, g)
    {
      assert AccountedAt(objs, keys, signers, other, local, g);
    }
  }

  /** Taking a reference: until something accounts for it, there is one too many. */
  lemma GainRef(objs: Objs, roots: Counts, p: Obj)
    requires Shaped(objs) && Counted(objs, roots, None) && p in objs
    ensures var objs' := WithRefs(objs, p, objs[p].refs + 1);
            Shaped(objs') && Counted(objs', roots, Some(p))
  {
    var objs' := WithRefs(objs, p, objs[p].refs + 1);
    RefsAside(objs, p, objs[p].refs + 1);
    forall q | q in objs'
      ensures CountedAt(objs', roots, Some(p), q)
    {
      assert CountedAt(objs, roots, None, q) && Children(objs', q) == Children(objs, q);
    }
  }

  /** The program takes a reference itself. */
  lemma ShareOk(objs: Objs, roots: Counts, r: Obj)
    requires Shaped(objs) && Counted(objs, roots, None) && r in objs
    ensures var objs' := WithRefs(objs, r, objs[r].refs + 1);
            Shaped(objs') && Counted(objs', Plus(roots, r), None)
  {
    GainRef(objs, roots, r);
    var objs' := WithRefs(objs, r, objs[r].refs + 1);
    forall q | q in objs'
      ensures CountedAt(objs', Plus(roots, r), None, q)
    {
      assert CountedAt(objs', roots, Some(r), q);
    }
  }

  /** A new view with one reference, which takes over a reference to its parent. */
  lemma AddView(objs: Objs, roots: Counts, r: Obj, o: Wrapper)
    requires Shaped(objs) && o.parent.Some? && Counted(objs, roots, o.parent) && r !in objs
    requires o.refs == 1 && ObjOk(objs, o)
    ensures Shaped(objs[r := o]) && Counted(objs[r := o], Plus(roots, r), None)
  {
    ShapedNew(objs, r, o);
    CountedNew(objs, roots, r, o);
  }

  lemma CountedNew(objs: Objs, roots: Counts, r: Obj, o: Wrapper)
    requires Shaped(objs) && Counted(objs, roots, o.parent) && r !in objs && o.refs == 1 && o.parent != Some(r)
    ensures Counted(objs[r := o], Plus(roots, r), None)
  {
    NoChildrenYet(objs, r);
    var objs' := objs[r := o];
    forall q | q in objs'
      ensures CountedAt(objs', Plus(roots, r), None, q)
    {
      ChildrenOfNew(objs, r, o, q);
      if q != r { assert CountedAt(objs, roots, o.parent, q); }
    }
  }

  lemma ShapedNew(objs: Objs, r: Obj, o: Wrapper)
    requires Shaped(objs) && r !in objs && ObjOk(objs, o)
    ensures Shaped(objs[r := o])
  {
    var objs' := objs[r := o];
    forall q | q in objs'
      ensures ObjOk(objs', objs'[q])
    {
      if q != r { assert ObjOk(objs, objs[q]); }
    }
  }

  lemma NoChildrenYet(objs: Objs, r: Obj)
    requires Shaped(objs) && r !in objs
    ensures Children(objs, r) == {}
  {
    forall c | c in objs
      ensures objs[c].parent != Some(r)
    {
      assert ObjOk(objs, objs[c]);
    }
  }

  lemma AddKey(objs: Objs, roots: Counts, r: Obj, g: KeyId)
    requires Shaped(objs) && Counted(objs, roots, None) && r !in objs
    ensures var objs' := objs[r := Wrapper(KeyWrapper, g, [], None, 1)];
            Shaped(objs') && Counted(objs', Plus(roots, r), None)
  {
    var o := Wrapper(KeyWrapper, g, [], None, 1);
    ShapedNew(objs, r, o);
    CountedNew(objs, roots, r, o);
  }

  /** Giving up one of several references. */
  lemma LoseRef(objs: Objs, roots: Counts, r: Obj)
    requires Shaped(objs) && Counted(objs, roots, Some(r)) && objs[r].refs > 1
    ensures var objs' := WithRefs(objs, r, objs[r].refs - 1);
            Shaped(objs') && Counted(objs', roots, None)
  {
    var objs' := WithRefs(objs, r, objs[r].refs - 1);
    RefsAside(objs, r, objs[r].refs - 1);
    forall q | q in objs'
      ensures CountedAt(objs', roots, None, q)
    {
      assert CountedAt(objs, roots, Some(r), q) && Children(objs', q) == Children(objs, q);
    }
  }

  /** Giving up the last reference: nothing points to the object any more, and its parent is now the
      one about to lose a reference. */
  lemma LoseLastRef(objs: Objs, roots: Counts, r: Obj)
    requires Shaped(objs) && Counted(objs, roots, Some(r)) && objs[r].refs == 1
    ensures At(roots, r) == 0 && Children(objs, r) == {}
    ensures Shaped(objs - {r}) && Counted(objs - {r}, roots, objs[r].parent)
  {
    assert CountedAt(objs, roots, Some(r), r) && ObjOk(objs, objs[r]);
    forall q | q in objs - {r}
      ensures ObjOk(objs - {r}, (objs - {r})[q]) && CountedAt(objs - {r}, roots, objs[r].parent, q)
    {
      assert ObjOk(objs, objs[q]) && CountedAt(objs, roots, Some(r), q);
      assert q !in Children(objs, r);
      ChildrenAfterRemoval(objs, r, q);
    }
  }

  /** A view into `parent` at position `i`, and the heap once it is there. */
  function ViewOf(objs: Objs, parent: Obj, kind: Kind, i: nat): Wrapper
    requires parent in objs
  {
    Wrapper(kind, objs[parent].key, objs[parent].path + [i], Some(parent), 1)
  }

  function WithView(objs: Objs, parent: Obj, kind: Kind, i: nat, r: Obj): Objs
    requires parent in objs
  {
    WithRefs(objs, parent, objs[parent].refs + 1)[r := ViewOf(objs, parent, kind, i)]
  }

  /** The kinds of object that views of a kind are made from. */
  predicate ParentKind(kind: Kind, parent: Kind)
  {
    match kind
    case KeyWrapper => false
    case UserIdView | SubkeyView => parent.KeyWrapper?
    case KeySigView => parent.UserIdView?
  }

  lemma NewViewOk(objs: Objs, roots: Counts, keys: Counts, signers: Signers, other: Counts,
                  parent: Obj, kind: Kind, i: nat, r: Obj)
    requires Shaped(objs) && Counted(objs, roots, None) && Accounted(objs, keys, signers, other, None)
    requires parent in objs && r !in objs && ParentKind(kind, objs[parent].kind)
    ensures Shaped(WithView(objs, parent, kind, i, r)) && Counted(WithView(objs, parent, kind, i, r), Plus(roots, r), None)
    ensures Accounted(WithView(objs, parent, kind, i, r), keys, signers, other, None)
  {
    var objs1, o := WithRefs(objs, parent, objs[parent].refs + 1), ViewOf(objs, parent, kind, i);
    GainRef(objs, roots, parent);
    AccountedRefs(objs, parent, objs[parent].refs + 1, keys, signers, other, None);
    assert ObjOk(objs1, o);
    AddView(objs1, roots, r, o);
    AccountedNew(objs1, r, o, keys, signers, other, None);
  }

  // ---------- lists of references ----------

  /** `roots` has exactly the references of `list` more than `roots0`. */
  ghost predicate GainedAt(roots0: Counts, roots: Counts, list: seq<Obj>, q: Obj)
  {
    At(roots, q) == At(roots0, q) + multiset(list)[q]
  }

  ghost predicate Gained(roots0: Counts, roots: Counts, list: seq<Obj>)
  {
    forall q {:trigger GainedAt(roots0, roots, list, q)} :: GainedAt(roots0, roots, list, q)
  }

  lemma GainedSnoc(roots0: Counts, roots: Counts, list: seq<Obj>, r: Obj)
    requires Gained(roots0, roots, list)
    ensures Gained(roots0, Plus(roots, r), list + [r])
  {
    forall q
      ensures GainedAt(roots0, Plus(roots, r), list + [r], q)
    {
      assert GainedAt(roots0, roots, list, q);
      assert multiset(list + [r]) == multiset(list) + multiset{r};
    }
  }

  lemma GainedPop(roots0: Counts, roots: Counts, list: seq<Obj>, r: Obj)
    requires Gained(roots0, roots, list + [r])
    ensures At(roots, r) > 0 && Gained(roots0, Minus(roots, r), list)
  {
    assert multiset(list + [r]) == multiset(list) + multiset{r};
    assert GainedAt(roots0, roots, list + [r], r);
    var roots' := Minus(roots, r);
    forall q
      ensures GainedAt(roots0, roots', list, q)
    {
      assert GainedAt(roots0, roots, list + [r], q);
    }
  }

  lemma GainedNothing(roots0: Counts, roots: Counts)
    requires Gained(roots0, roots, [])
    ensures SameCounts(roots, roots0)
  {
    forall q
      ensures At(roots, q) == At(roots0, q)
    {
      assert GainedAt(roots0, roots, [], q);
    }
  }

  /** A view into `parent` at position `i`. */
  predicate IsView(o: Wrapper, parent: Obj, kind: Kind, key: KeyId, path: seq<nat>, i: nat)
  {
    o.kind == kind && o.key == key && o.parent == Some(parent) && o.path == path + [i]
  }

  /** The objects of `list` are views of that kind into `parent`, in order. */
  ghost predicate Views(objs: Objs, list: seq<Obj>, parent: Obj, kind: Kind, key: KeyId, path: seq<nat>)
  {
    forall i :: 0 <= i < |list| ==> list[i] in objs && IsView(objs[list[i]], parent, kind, key, path, i)
  }

  /** Different live objects, none of which was there before. */
  ghost predicate NewObjects(objs0: Objs, objs: Objs, list: seq<Obj>)
  {
    && (forall i :: 0 <= i < |list| ==> list[i] in objs && list[i] !in objs0)
    && (forall i, j :: 0 <= i < j < |list| ==> list[i] != list[j])
  }

  /** The program has gained one reference to each of the new objects of `list`, and nothing else. */
  ghost predicate Added(objs0: Objs, roots0: Counts, objs: Objs, roots: Counts, list: seq<Obj>)
  {
    && objs0.Keys <= objs.Keys && Agree(objs0, objs)
    && Gained(roots0, roots, list) && NewObjects(objs0, objs, list)
  }

  lemma AddedSnoc(objs0: Objs, roots0: Counts, objs: Objs, roots: Counts, list: seq<Obj>, objs': Objs, r: Obj)
    requires Added(objs0, roots0, objs, roots, list)
    requires r !in objs && objs'.Keys == objs.Keys + {r} && Agree(objs, objs')
    ensures Added(objs0, roots0, objs', Plus(roots, r), list + [r])
  {
    GainedSnoc(roots0, roots, list, r);
    assert forall q :: q in objs0 ==> q in objs && q in objs';
  }

  /** A list of views into `parent` has been added. */
  ghost predicate ViewsAdded(objs0: Objs, roots0: Counts, objs: Objs, roots: Counts, list: seq<Obj>, parent: Obj, kind: Kind)
  {
    && Added(objs0, roots0, objs, roots, list) && parent in objs0
    && Views(objs, list, parent, kind, objs0[parent].key, objs0[parent].path)
  }

  lemma NothingAdded(objs: Objs, roots: Counts, parent: Obj, kind: Kind)
    requires parent in objs
    ensures ViewsAdded(objs, roots, objs, roots, [], parent, kind)
  {
  }

  lemma ViewsSnoc(objs0: Objs, roots0: Counts, objs: Objs, roots: Counts, list: seq<Obj>, parent: Obj, kind: Kind, r: Obj)
    requires ViewsAdded(objs0, roots0, objs, roots, list, parent, kind) && r !in objs
    ensures ViewsAdded(objs0, roots0, WithView(objs, parent, kind, |list|, r), Plus(roots, r), list + [r], parent, kind)
  {
    AddedSnoc(objs0, roots0, objs, roots, list, WithView(objs, parent, kind, |list|, r), r);
    assert Core(objs[parent]) == Core(objs0[parent]);
  }

  /** The objects of `list` are Key wrappers of the keys `gs`, in order. */
  ghost predicate KeyObjects(objs: Objs, list: seq<Obj>, gs: seq<KeyId>)
  {
    |list| == |gs| && forall i :: 0 <= i < |list| ==>
      list[i] in objs && Core(objs[list[i]]) == Wrapper(KeyWrapper, gs[i], [], None, 0)
  }

  /** A list of Key objects for the keys `gs` has been added. */
  ghost predicate KeysAdded(objs0: Objs, roots0: Counts, objs: Objs, roots: Counts, list: seq<Obj>, gs: seq<KeyId>)
  {
    Added(objs0, roots0, objs, roots, list) && KeyObjects(objs, list, gs)
  }

  lemma KeysSnoc(objs0: Objs, roots0: Counts, objs: Objs, roots: Counts, list: seq<Obj>, gs: seq<KeyId>, r: Obj, g: KeyId)
    requires KeysAdded(objs0, roots0, objs, roots, list, gs) && r !in objs
    ensures KeysAdded(objs0, roots0, objs[r := Wrapper(KeyWrapper, g, [], None, 1)], Plus(roots, r), list + [r], gs + [g])
  {
    AddedSnoc(objs0, roots0, objs, roots, list, objs[r := Wrapper(KeyWrapper, g, [], None, 1)], r);
  }

  // ---------- what the invariants mean ----------

  /** Every live object, however deep a view, lies in a gpgme key whose count is positive. */
  lemma ViewsAreSafe(objs: Objs, keys: Counts, signers: Signers, other: Counts, local: Option<KeyId>, r: Obj)
    requires Shaped(objs) && Accounted(objs, keys, signers, other, local) && r in objs
    ensures At(keys, objs[r].key) > 0
    decreases Rank(objs[r].kind)
  {
    assert ObjOk(objs, objs[r]);
    if objs[r].kind.KeyWrapper? {
      assert AccountedAt(objs, keys, signers, other, local, objs[r].key);
      assert r in Wrappers(objs, objs[r].key);
    } else {
      ViewsAreSafe(objs, keys, signers, other, local, objs[r].parent.value);
    }
  }

  /** `r` and the objects it keeps alive: its parent, and the parent's parent. */
  ghost function Kept(objs: Objs, r: Obj): set<Obj>
    requires Shaped(objs) && r in objs
    decreases Rank(objs[r].kind)
  {
    assert ObjOk(objs, objs[r]);
    {r} + (if objs[r].parent.Some? then Kept(objs, objs[r].parent.value) else {})
  }

  lemma {:induction false} KeptLive(objs: Objs, x: Obj)
    requires Shaped(objs) && x in objs
    ensures Kept(objs, x) <= objs.Keys
    decreases Rank(objs[x].kind)
  {
    assert ObjOk(objs, objs[x]);
    if objs[x].parent.Some? { KeptLive(objs, objs[x].parent.value); }
  }

  /** A live object is held by the program, directly or through views. */
  lemma {:induction false} LiveIsHeld(objs: Objs, roots: Counts, r: Obj) returns (x: Obj)
    requires Shaped(objs) && Counted(objs, roots, None) && r in objs
    ensures x in objs && At(roots, x) > 0 && r in Kept(objs, x)
    decreases 2 - Rank(objs[r].kind)
  {
    if At(roots, r) > 0 {
      x := r;
    } else {
      assert CountedAt(objs, roots, None, r);
      var c :| c in Children(objs, r);
      assert ObjOk(objs, objs[c]);
      x := LiveIsHeld(objs, roots, c);
      KeptUp(objs, x, c);
    }
  }

  lemma {:induction false} KeptUp(objs: Objs, x: Obj, c: Obj)
    requires Shaped(objs) && x in objs && c in Kept(objs, x) && c in objs && objs[c].parent.Some?
    ensures objs[c].parent.value in Kept(objs, x)
    decreases Rank(objs[x].kind)
  {
    assert ObjOk(objs, objs[x]) && ObjOk(objs, objs[c]);
    if x != c { KeptUp(objs, objs[x].parent.value, c); }
  }

  ghost predicate KeptAlive(objs: Objs, roots: Counts, r: Obj)
    requires Shaped(objs)
  {
    exists x :: x in objs && At(roots, x) > 0 && r in Kept(objs, x)
  }

  /** No leak and no dangling reference: exactly what the program's references keep alive is live. */
  lemma LiveIffHeld(objs: Objs, roots: Counts, r: Obj)
    requires Shaped(objs) && Counted(objs, roots, None)
    ensures r in objs <==> KeptAlive(objs, roots, r)
  {
    if r in objs {
      var x := LiveIsHeld(objs, roots, r);
    }
    if x :| x in objs && At(roots, x) > 0 && r in Kept(objs, x) {
      KeptLive(objs, x);
    }
  }

  /** Everything about an object but its count. */
  function Core(o: Wrapper): Wrapper { o.(refs := 0) }

  /** Objects live in both heaps are the same objects. */
  ghost predicate Agree(objs: Objs, objs': Objs)
  {
    forall r :: r in objs && r in objs' ==> Core(objs[r]) == Core(objs'[r])
  }

  ghost predicate SameCounts(m: Counts, m': Counts) { forall k :: At(m, k) == At(m', k) }

  lemma {:induction false} HeldToo(objs: Objs, objs': Objs, x: Obj, r: Obj)
    requires Shaped(objs) && Shaped(objs') && Agree(objs, objs')
    requires x in objs && x in objs' && r in Kept(objs, x)
    ensures r in objs'
    decreases Rank(objs[x].kind)
  {
    assert ObjOk(objs, objs[x]) && ObjOk(objs', objs'[x]) && Core(objs[x]) == Core(objs'[x]);
    if r != x { HeldToo(objs, objs', objs[x].parent.value, r); }
  }

  lemma LiveToo(objs: Objs, roots: Counts, objs': Objs, roots': Counts, r: Obj)
    requires Shaped(objs) && Counted(objs, roots, None) && Shaped(objs') && Counted(objs', roots', None)
    requires Agree(objs, objs') && SameCounts(roots, roots') && r in objs
    ensures r in objs'
  {
    var x := LiveIsHeld(objs, roots, r);
    assert At(roots', x) > 0;
    HeldToo(objs, objs', x, r);
  }

  /** The references of the program determine the whole heap, counts included. */
  lemma RootsDetermineHeap(objs: Objs, roots: Counts, objs': Objs, roots': Counts)
    requires Shaped(objs) && Counted(objs, roots, None) && Shaped(objs') && Counted(objs', roots', None)
    requires Agree(objs, objs') && SameCounts(roots, roots')
    ensures objs == objs'
  {
    forall r
      ensures r in objs <==> r in objs'
    {
      if r in objs { LiveToo(objs, roots, objs', roots', r); }
      if r in objs' { LiveToo(objs', roots', objs, roots, r); }
    }
    forall r | r in objs
      ensures objs[r] == objs'[r]
    {
      assert forall c :: c in objs ==> Core(objs[c]) == Core(objs'[c]);
      assert Children(objs, r) == Children(objs', r);
      assert CountedAt(objs, roots, None, r) && CountedAt(objs', roots', None, r);
      assert At(roots, r) == At(roots', r);
      assert Core(objs[r]) == Core(objs'[r]);
    }
  }

  /** When the program has dropped everything, no wrapper is left, and the gpgme keys are back to the
      signers' and everyone else's shares. */
  lemma NothingLeaks(objs: Objs, roots: Counts, keys: Counts, signers: Signers, other: Counts)
    requires Shaped(objs) && Counted(objs, roots, None) && Accounted(objs, keys, signers, other, None)
    requires forall r :: At(roots, r) == 0
    ensures objs == map[]
    ensures forall g :: At(keys, g) == Uses(signers, g) + At(other, g)
  {
    forall r | r in objs
      ensures false
    {
      var x := LiveIsHeld(objs, roots, r);
    }
    forall g
      ensures At(keys, g) == Uses(signers, g) + At(other, g)
    {
      assert AccountedAt(objs, keys, signers, other, None, g);
      assert Wrappers(objs, g) == {};
    }
  }
}
