/** The methods of a context that hand files and key lists to gpgme, with every exit they have:
    data handles, key arrays and pattern arrays are given back on each of them. */
module Handles {
  import opened Common
  import opened Patterns

  /** The sequence of keys a caller passes. */
  datatype KeyArg = NoKeys | Keys(items: seq<Item>) | NotKeys

  /** What a call answers: the exception of a wrong argument, of a handle or of the operation. */
  datatype Result = Returned | BadArgument | NoHandle | GpgmeFailed(err: int)

  /** A gpgme_data_t over a Python file, made by the `id`-th call; None stands for NULL. */
  datatype Data = Data(id: nat, fp: Obj, ctx: Obj)

  type Handle = Option<Data>

  /** What gpgme is given, the keys up to the NULL, the patterns and the handles; and which handles and
      key arrays are live while it works. */
  datatype OpCall = OpCall(keys: Option<seq<KeyId>>, patterns: Option<seq<seq<byte>>>, handles: seq<Handle>,
                           live: set<Data>, arrays: set<array<Option<KeyId>>>)

  /** The handle that the `id`-th call of pygpgme_data_new makes for `file`. */
  function HandleFor(file: Option<Obj>, id: nat, ctx: Obj): (dh: Handle)
    ensures (dh.Some? <==> file.Some?) && (dh.Some? ==> dh.value.id == id && dh.value.fp == file.value && dh.value.ctx == ctx)
  {
    if file.Some? then Some(Data(id, file.value, ctx)) else None
  }

  function HandlesFor(files: seq<Option<Obj>>, id: nat, ctx: Obj): (dhs: seq<Handle>)
    ensures |dhs| == |files| && forall i :: 0 <= i < |dhs| ==> dhs[i] == HandleFor(files[i], id + i, ctx)
  {
    seq(|files|, i requires 0 <= i < |files| => HandleFor(files[i], id + i, ctx))
  }

  /** The handles among `dhs` that are not NULL. */
  function Made(dhs: seq<Handle>): set<Data>
  {
    set i | 0 <= i < |dhs| && dhs[i].Some? :: dhs[i].value
  }

  // ---------- what is borrowed ----------

  /** Live data handles, and the reference counts of files and contexts. */
  datatype Books = Books(handles: set<Data>, refs: map<Obj, nat>)

  function Up(refs: map<Obj, nat>, o: Obj): map<Obj, nat>
    requires o in refs
  {
    refs[o := refs[o] + 1]
  }

  function Down(refs: map<Obj, nat>, o: Obj): map<Obj, nat>
    requires o in refs && refs[o] > 0
  {
    refs[o := refs[o] - 1]
  }

  /** A handle that could be made: both of its objects are known, and it is not there yet. */
  predicate CanOpen(b: Books, dh: Handle)
  {
    dh.Some? ==> dh.value !in b.handles && dh.value.fp in b.refs && dh.value.ctx in b.refs
  }

  /** A handle owns a reference to its file and one to its context. */
  function Opened(b: Books, dh: Handle): Books
    requires CanOpen(b, dh)
  {
    match dh
    case None => b
    case Some(d) => Books(b.handles + {d}, Up(Up(b.refs, d.fp), d.ctx))
  }

  /** A live handle whose references are counted. */
  predicate Open(b: Books, dh: Handle)
  {
    dh.Some? ==>
      var Data(_, fp, ctx) := dh.value;
      && dh.value in b.handles && fp in b.refs && ctx in b.refs
      && b.refs[fp] > 0 && b.refs[ctx] > (if fp == ctx then 1 else 0)
  }

  function Closed(b: Books, dh: Handle): Books
    requires Open(b, dh)
  {
    match dh
    case None => b
    case Some(d) => Books(b.handles - {d}, Down(Down(b.refs, d.fp), d.ctx))
  }

  /** A new handle takes one reference to its file and one to its context, which may be the same object. */
  lemma OpenedTakes(b: Books, d: Data, o: Obj)
    requires CanOpen(b, Some(d)) && o in b.refs
    ensures Opened(b, Some(d)).handles == b.handles + {d} && o in Opened(b, Some(d)).refs
    ensures Opened(b, Some(d)).refs[o] == b.refs[o] + (if o == d.fp then 1 else 0) + (if o == d.ctx then 1 else 0)
  {
  }

  lemma CloseOpened(b: Books, x: Handle)
    requires CanOpen(b, x)
    ensures Open(Opened(b, x), x) && Closed(Opened(b, x), x) == b
  {
  }

  /** Releasing an earlier handle and making a later one can trade places. */
  lemma CloseBeforeOpen(b: Books, x: Handle, y: Handle)
    requires Open(b, x) && CanOpen(b, y)
    ensures Open(Opened(b, y), x) && CanOpen(Closed(b, x), y)
    ensures Closed(Opened(b, y), x) == Opened(Closed(b, x), y)
  {
    if x.Some? && y.Some? {
      var l, r := Closed(Opened(b, y), x).refs, Opened(Closed(b, x), y).refs;
      forall o
        ensures o in l <==> o in r
        ensures o in l ==> l[o] == r[o]
      {
      }
    }
  }

  /** Two handles released in the order in which they were made. */
  lemma CloseTwo(b: Books, x: Handle, y: Handle)
    requires CanOpen(b, x) && CanOpen(Opened(b, x), y)
    ensures var b2 := Opened(Opened(b, x), y);
            Open(b2, x) && Open(Closed(b2, x), y) && Closed(Closed(b2, x), y) == b
  {
    CloseOpened(b, x);
    CloseBeforeOpen(Opened(b, x), x, y);
    CloseOpened(b, y);
  }

  lemma CloseThree(b: Books, x: Handle, y: Handle, z: Handle)
    requires CanOpen(b, x) && CanOpen(Opened(b, x), y) && CanOpen(Opened(Opened(b, x), y), z)
    ensures var b3 := Opened(Opened(Opened(b, x), y), z);
            && Open(b3, x) && Open(Closed(b3, x), y) && Open(Closed(Closed(b3, x), y), z)
            && Closed(Closed(Closed(b3, x), y), z) == b
  {
    var b2 := Opened(Opened(b, x), y);
    CloseTwo(b, x, y);
    CloseBeforeOpen(b2, x, z);
    CloseBeforeOpen(Closed(b2, x), y, z);
    CloseOpened(b, z);
  }

  /** What is live after handles have been made. */
  lemma LiveOne(b: Books, x: Handle)
    requires CanOpen(b, x)
    ensures Opened(b, x).handles == b.handles + Made([x])
  {
    if x.Some? { assert [x][0].value in Made([x]); }
  }

  lemma MadeSnoc(dhs: seq<Handle>, x: Handle)
    ensures Made(dhs + [x]) == Made(dhs) + Made([x])
  {
    forall d | d in Made(dhs) + Made([x])
      ensures d in Made(dhs + [x])
    {
      if d in Made(dhs) {
        var i :| 0 <= i < |dhs| && dhs[i] == Some(d);
        assert (dhs + [x])[i] == Some(d);
      } else {
        assert (dhs + [x])[|dhs|] == Some(d);
      }
    }
    forall d | d in Made(dhs + [x])
      ensures d in Made(dhs) + Made([x])
    {
      var i :| 0 <= i < |dhs| + 1 && (dhs + [x])[i] == Some(d);
      if i < |dhs| { assert dhs[i] == Some(d); } else { assert [x][0] == Some(d); }
    }
  }

  lemma LiveTwo(b: Books, x: Handle, y: Handle)
    requires CanOpen(b, x) && CanOpen(Opened(b, x), y)
    ensures Opened(Opened(b, x), y).handles == b.handles + Made([x, y])
  {
    LiveOne(b, x);
    LiveOne(Opened(b, x), y);
    MadeSnoc([x], y);
    assert [x] + [y] == [x, y];
  }

  lemma LiveThree(b: Books, x: Handle, y: Handle, z: Handle)
    requires CanOpen(b, x) && CanOpen(Opened(b, x), y) && CanOpen(Opened(Opened(b, x), y), z)
    ensures Opened(Opened(Opened(b, x), y), z).handles == b.handles + Made([x, y, z])
  {
    LiveTwo(b, x, y);
    LiveOne(Opened(Opened(b, x), y), z);
    MadeSnoc([x, y], z);
    assert [x, y] + [z] == [x, y, z];
  }

  /** The keys of a usable key list. */
  function KeysFor(arg: KeyArg): Option<seq<KeyId>>
  {
    if arg.Keys? && AllKeys(arg.items) then Some(KeysOf(arg.items)) else None
  }

  /** The keys that gpgme reads from an array: those before the first NULL. */
  function ReadKeys(slots: seq<Option<KeyId>>): seq<KeyId>
  {
    if slots == [] || slots[0].None? then [] else [slots[0].value] + ReadKeys(slots[1..])
  }

  lemma {:induction false} ReadsAll(slots: seq<Option<KeyId>>, items: seq<Item>)
    requires AllKeys(items) && |slots| == |items| + 1 && slots[|items|] == None
    requires forall i :: 0 <= i < |items| ==> slots[i] == Some(items[i].key)
    ensures ReadKeys(slots) == KeysOf(items)
    decreases |items|
  {
    if items != [] { ReadsAll(slots[1..], items[1..]); }
  }

  predicate Opens(fails: nat -> bool, call: nat, file: Option<Obj>) { file.Some? ==> !fails(call) }

  /** Handles for the files can all be made, in this order, from call `next` of pygpgme_data_new on. */
  predicate AllOpen(fails: nat -> bool, next: nat, f: Option<Obj>, g: Option<Obj>, h: Option<Obj>)
  {
    Opens(fails, next, f) && Opens(fails, next + 1, g) && Opens(fails, next + 2, h)
  }

  class Gpgme {
    var books: Books
    var arrays: set<array<Option<KeyId>>>         // live key arrays
    var next: nat                                 // calls of pygpgme_data_new so far
    var gilHeld: bool
    var ops: seq<OpCall>                          // operations started
    const fails: nat -> bool                      // which of them cannot make a handle

    ghost predicate Valid()
      reads this
    {
      gilHeld && forall d :: d in books.handles ==> d.id < next
    }

    /** Everything that was borrowed has been given back. */
    twostate predicate Restored()
      reads this
    {
      Valid() && books == old(books) && arrays == old(arrays)
    }

    constructor (refs: map<Obj, nat>, fails: nat -> bool)
      ensures Valid() && books == Books({}, refs) && arrays == {} && ops == [] && next == 0 && this.fails == fails
    {
      this.books, this.arrays, this.next := Books({}, refs), {}, 0;
      this.gilHeld, this.ops, this.fails := true, [], fails;
    }

    /** The caller holds the file it passes. */
    predicate Known(file: Option<Obj>)
      reads this
    {
      file.Some? ==> file.value in books.refs
    }

    /** pygpgme_data_new. None makes the NULL handle. */
    method DataNew(fp: Option<Obj>, ctx: Obj) returns (r: int, dh: Handle)
      requires Valid() && ctx in books.refs && Known(fp)
      modifies this`books, this`next
      ensures Valid() && next == old(next) + 1
      ensures r == if Opens(fails, old(next), fp) then 0 else -1
      ensures dh == if r == 0 then HandleFor(fp, old(next), ctx) else None
      ensures CanOpen(old(books), dh) && books == Opened(old(books), dh)
      ensures dh.Some? ==> dh.value.fp == fp.value && dh.value.ctx == ctx
    {
      next := next + 1;
      if fp.None? { return 0, None; }
      var data := Data(next - 1, fp.value, ctx);
      if fails(data.id) { return -1, None; }           // out of memory, or gpgme refuses
      books := books.(handles := books.handles + {data});
      books := books.(refs := Up(books.refs, fp.value));
      books := books.(refs := Up(books.refs, ctx));
      return 0, Some(data);
    }

    /** gpgme_data_release, which calls release_cb with the thread state held; NULL is ignored. */
    method Release(dh: Handle)
      requires Valid() && Open(books, dh)
      modifies this`books
      ensures Valid() && books == Closed(old(books), dh)
    {
      if dh.None? { return; }
      var Data(_, fp, ctx) := dh.value;
      books := books.(refs := Down(books.refs, fp));
      books := books.(refs := Down(books.refs, ctx));
      books := books.(handles := books.handles - {dh.value});
    }

    /** Two handles in a row, the second only if the first was made; a handle that was not made is NULL,
        which it does no harm to release. */
    method OpenBoth(f: Option<Obj>, g: Option<Obj>, self: Obj) returns (ok: bool, x: Handle, y: Handle)
      requires Valid() && self in books.refs && Known(f) && Known(g)
      modifies this`books, this`next
      ensures Valid() && (ok <==> AllOpen(fails, old(next), f, g, None))
      ensures CanOpen(old(books), x) && CanOpen(Opened(old(books), x), y) && books == Opened(Opened(old(books), x), y)
      ensures ok ==> [x, y] == HandlesFor([f, g], old(next), self) && next == old(next) + 2
      ensures books.handles == old(books).handles + Made([x, y])
      ensures !ok ==> y == None
    {
      var failed;
      y := None;
      failed, x := DataNew(f, self);
      if failed == 0 { failed, y := DataNew(g, self); }
      LiveTwo(old(books), x, y);
      ok := failed == 0;
    }

    /** Three handles in a row, each only if the ones before it were made. */
    method OpenThree(f: Option<Obj>, g: Option<Obj>, h: Option<Obj>, self: Obj)
      returns (ok: bool, x: Handle, y: Handle, z: Handle)
      requires Valid() && self in books.refs && Known(f) && Known(g) && Known(h)
      modifies this`books, this`next
      ensures Valid() && (ok <==> AllOpen(fails, old(next), f, g, h))
      ensures CanOpen(old(books), x) && CanOpen(Opened(old(books), x), y) && CanOpen(Opened(Opened(old(books), x), y), z)
      ensures books == Opened(Opened(Opened(old(books), x), y), z)
      ensures ok ==> [x, y, z] == HandlesFor([f, g, h], old(next), self)
      ensures books.handles == old(books).handles + Made([x, y, z])
      ensures !ok ==> z == None
    {
      z := None;
      ok, x, y := OpenBoth(f, g, self);
      if ok {
        var failed;
        failed, z := DataNew(h, self);
        ok := failed == 0;
      }
      LiveThree(old(books), x, y, z);
    }

    /** The only handle made since `b` released. */
    method ReleaseOne(dh: Handle, ghost b: Books)
      requires Valid() && CanOpen(b, dh) && books == Opened(b, dh)
      modifies this`books
      ensures Valid() && books == b
    {
      CloseOpened(b, dh);
      Release(dh);
    }

    /** Two handles released in the order in which they were made since `b`. */
    method ReleaseTwo(x: Handle, y: Handle, ghost b: Books)
      requires Valid() && CanOpen(b, x) && CanOpen(Opened(b, x), y) && books == Opened(Opened(b, x), y)
      modifies this`books
      ensures Valid() && books == b
    {
      CloseTwo(b, x, y);
      Release(x);
      Release(y);
    }

    method ReleaseThree(x: Handle, y: Handle, z: Handle, ghost b: Books)
      requires Valid() && CanOpen(b, x) && CanOpen(Opened(b, x), y) && CanOpen(Opened(Opened(b, x), y), z)
      requires books == Opened(Opened(Opened(b, x), y), z)
      modifies this`books
      ensures Valid() && books == b
    {
      CloseThree(b, x, y, z);
      Release(x);
      Release(y);
      Release(z);
    }

    method Malloc(n: nat, zeroed: bool) returns (a: array<Option<KeyId>>)
      requires Valid()
      modifies this`arrays
      ensures Valid() && fresh(a) && a.Length == n && arrays == old(arrays) + {a}
      ensures zeroed ==> forall i :: 0 <= i < n ==> a[i] == None
    {
      if zeroed { a := new Option<KeyId>[n](_ => None); } else { a := new Option<KeyId>[n]; }
      arrays := arrays + {a};
    }

    method Free(a: array?<Option<KeyId>>)
      requires Valid() && (a != null ==> a in arrays)
      modifies this`arrays
      ensures Valid() && arrays == if a == null then old(arrays) else old(arrays) - {a}
    {
      if a != null { arrays := arrays - {a}; }
    }

    /** A gpgme operation between begin_allow_threads and end_allow_threads, on things that are live. */
    method Operate(recp: array?<Option<KeyId>>, dhs: seq<Handle>)
      requires Valid() && (recp != null ==> recp in arrays) && Made(dhs) <= books.handles
      modifies this`gilHeld, this`ops
      ensures Valid()
      ensures ops == old(ops) + [OpCall(if recp == null then None else Some(ReadKeys(recp[..])), None, dhs, books.handles, arrays)]
    {
      gilHeld := false;
      ops := ops + [OpCall(if recp == null then None else Some(ReadKeys(recp[..])), None, dhs, books.handles, arrays)];
      gilHeld := true;
    }

    /** The same with a pattern array that is live, or NULL. */
    method OperateOn(heap: CHeap, patterns: Option<Ptr>, ghost wanted: Option<seq<seq<byte>>>, dhs: seq<Handle>,
                     ghost strings0: Strings, ghost arrays0: Arrays)
      requires Valid() && Lent(heap.strings, heap.arrays, patterns, wanted, strings0, arrays0) && Made(dhs) <= books.handles
      modifies this`gilHeld, this`ops
      ensures Valid() && ops == old(ops) + [OpCall(None, wanted, dhs, books.handles, arrays)]
    {
      if patterns.Some? { HoldsReads(heap.strings, heap.arrays, patterns.value, wanted.value, strings0, arrays0); }
      gilHeld := false;
      ops := ops + [OpCall(None, ReadPatterns(heap, patterns), dhs, books.handles, arrays)];
      gilHeld := true;
    }

    /** The patterns gpgme reads: none from NULL, otherwise the strings before the NULL. */
    function ReadPatterns(heap: CHeap, patterns: Option<Ptr>): Option<seq<seq<byte>>>
      requires patterns.Some? ==> patterns.value in heap.arrays
      reads heap
    {
      match patterns
      case None => None
      case Some(p) => Some(ReadStrings(heap.strings, heap.arrays[p]))
    }

    /** The loop that copies keys into an array; false at the first item that is not a key. */
    method FillKeys(a: array<Option<KeyId>>, items: seq<Item>) returns (ok: bool)
      requires a.Length == |items| + 1
      modifies a
      ensures ok <==> AllKeys(items)
      ensures ok ==> forall k :: 0 <= k < |items| ==> a[k] == Some(items[k].key)
      ensures a[|items|] == old(a[|items|])
    {
      var i := 0;
      while i < |items|
        invariant 0 <= i <= |items|
        invariant forall k :: 0 <= k < i ==> items[k].KeyItem? && a[k] == Some(items[k].key)
        invariant a[|items|] == old(a[|items|])
      {
        if items[i].NotKey? { return false; }
        a[i] := Some(items[i].key);
        i := i + 1;
      }
      return true;
    }

    /** The key array of a call, filled and ended by NULL; false when an item is not a key. With a
        zeroed array the NULL is there already. */
    method LoadKeys(items: seq<Item>, zeroed: bool) returns (ok: bool, a: array<Option<KeyId>>)
      requires Valid()
      modifies this`arrays
      ensures Valid() && fresh(a) && arrays == old(arrays) + {a}
      ensures ok <==> AllKeys(items)
      ensures ok ==> ReadKeys(a[..]) == KeysOf(items)
    {
      a := Malloc(|items| + 1, zeroed);
      ok := FillKeys(a, items);
      if ok {
        if !zeroed { a[|items|] := None; }
        ReadsAll(a[..], items);
      }
    }

    /** What a method must do, given whether its keys or patterns are usable and its handles can be made:
        one operation, on exactly these keys and patterns and on handles that this call made for the files
        and that live during it, as does its key array; or none. */
    twostate predicate Outcome(r: Result, usable: bool, keys: Option<seq<KeyId>>, patterns: Option<seq<seq<byte>>>,
                               open: bool, files: seq<Option<Obj>>, self: Obj, err: int)
      reads this
    {
      if !usable then r == BadArgument && ops == old(ops)
      else if !open then r == NoHandle && ops == old(ops)
      else
        && r == (if err == 0 then Returned else GpgmeFailed(err))
        && |ops| == |old(ops)| + 1 && ops[..|old(ops)|] == old(ops)
        && var call := ops[|old(ops)|];
           var dhs := HandlesFor(files, old(next), self);
           && call.keys == keys && call.patterns == patterns
           && call.handles == dhs && call.live == old(books).handles + Made(dhs)
           && (if keys.Some? then old(arrays) < call.arrays else call.arrays == old(arrays))
    }

    /** pygpgme_context_encrypt; `err` is what gpgme_op_encrypt returns if it is called. */
    method Encrypt(recipients: KeyArg, plaintext: Option<Obj>, ciphertext: Option<Obj>, self: Obj, err: int) returns (r: Result)
      requires Valid() && self in books.refs && Known(plaintext) && Known(ciphertext)
      modifies this
      ensures Restored()
      ensures Outcome(r, recipients.NoKeys? || KeysFor(recipients).Some?, KeysFor(recipients), None,
                      AllOpen(fails, old(next), plaintext, ciphertext, None), [plaintext, ciphertext], self, err)
    {
      var recp: array?<Option<KeyId>> := null;
      var plain: Handle := None;
      var cipher: Handle := None;
      var open;
      r := BadArgument;
      label end: {
        if recipients.NotKeys? { break end; }
        if recipients.Keys? {
          var ok;
          ok, recp := LoadKeys(recipients.items, false);
          if !ok { break end; }
        }
        r := NoHandle;
        open, plain, cipher := OpenBoth(plaintext, ciphertext, self);
        if !open { break end; }
        Operate(recp, [plain, cipher]);
        r := if err == 0 then Returned else GpgmeFailed(err);
      }
      Free(recp);
      ReleaseTwo(plain, cipher, old(books));
    }

    /** pygpgme_context_encrypt_sign: the recipients must be a sequence. */
    method EncryptSign(recipients: KeyArg, plaintext: Option<Obj>, ciphertext: Option<Obj>, self: Obj, err: int) returns (r: Result)
      requires Valid() && self in books.refs && Known(plaintext) && Known(ciphertext)
      modifies this
      ensures Restored()
      ensures Outcome(r, KeysFor(recipients).Some?, KeysFor(recipients), None,
                      AllOpen(fails, old(next), plaintext, ciphertext, None), [plaintext, ciphertext], self, err)
    {
      var recp: array?<Option<KeyId>> := null;
      var plain: Handle := None;
      var cipher: Handle := None;
      var open;
      r := BadArgument;
      label end: {
        if !recipients.Keys? { break end; }
        var items := recipients.items;
        var ok;
        ok, recp := LoadKeys(items, false);
        if !ok { break end; }
        r := NoHandle;
        open, plain, cipher := OpenBoth(plaintext, ciphertext, self);
        if !open { break end; }
        Operate(recp, [plain, cipher]);
        r := if err == 0 then Returned else GpgmeFailed(err);
      }
      Free(recp);
      ReleaseTwo(plain, cipher, old(books));
    }

    /** pygpgme_context_export_keys: the array comes zeroed, so its last slot is already NULL. */
    method ExportKeys(keys: KeyArg, keydata: Option<Obj>, self: Obj, err: int) returns (r: Result)
      requires Valid() && self in books.refs && Known(keydata)
      modifies this
      ensures Restored()
      ensures Outcome(r, KeysFor(keys).Some?, KeysFor(keys), None,
                      AllOpen(fails, old(next), keydata, None, None), [keydata], self, err)
    {
      var slots: array?<Option<KeyId>> := null;
      var data: Handle := None;
      var failed;
      r := BadArgument;
      label out: {
        if !keys.Keys? { break out; }
        var ok;
        ok, slots := LoadKeys(keys.items, true);
        if !ok { break out; }
        r := NoHandle;
        failed, data := DataNew(keydata, self);
        if failed != 0 { break out; }
        LiveOne(old(books), data);
        assert [data] == HandlesFor([keydata], old(next), self);
        Operate(slots, [data]);
        r := if err == 0 then Returned else GpgmeFailed(err);
      }
      ReleaseOne(data, old(books));
      Free(slots);
    }

    /** pygpgme_context_verify: three handles; at each failure those made so far are released. */
    method Verify(sig: Option<Obj>, signedText: Option<Obj>, plaintext: Option<Obj>, self: Obj, err: int) returns (r: Result)
      requires Valid() && self in books.refs && Known(sig) && Known(signedText) && Known(plaintext)
      modifies this
      ensures Restored()
      ensures Outcome(r, true, None, None,
                      AllOpen(fails, old(next), sig, signedText, plaintext), [sig, signedText, plaintext], self, err)
    {
      var open, sigData, textData, plainData := OpenThree(sig, signedText, plaintext, self);
      if !open {
        ReleaseTwo(sigData, textData, old(books));
        return NoHandle;
      }
      Operate(null, [sigData, textData, plainData]);
      ReleaseThree(sigData, textData, plainData, old(books));
      return if err == 0 then Returned else GpgmeFailed(err);
    }

    /** pygpgme_context_sign; decrypt and decrypt_verify have the same exits. */
    method Sign(plaintext: Option<Obj>, sig: Option<Obj>, self: Obj, err: int) returns (r: Result)
      requires Valid() && self in books.refs && Known(plaintext) && Known(sig)
      modifies this
      ensures Restored()
      ensures Outcome(r, true, None, None, AllOpen(fails, old(next), plaintext, sig, None), [plaintext, sig], self, err)
    {
      var open, plainData, sigData := OpenBoth(plaintext, sig, self);
      if !open {
        ReleaseOne(plainData, old(books));
        return NoHandle;
      }
      Operate(null, [plainData, sigData]);
      ReleaseTwo(plainData, sigData, old(books));
      return if err == 0 then Returned else GpgmeFailed(err);
    }

    /** pygpgme_context_genkey: the handles are released in the opposite order. */
    method Genkey(pubkey: Option<Obj>, seckey: Option<Obj>, self: Obj, err: int) returns (r: Result)
      requires Valid() && self in books.refs && Known(pubkey) && Known(seckey)
      modifies this
      ensures Restored()
      ensures Outcome(r, true, None, None, AllOpen(fails, old(next), pubkey, seckey, None), [pubkey, seckey], self, err)
    {
      var open, pubData, secData := OpenBoth(pubkey, seckey, self);
      if !open {
        ReleaseOne(pubData, old(books));
        return NoHandle;
      }
      Operate(null, [pubData, secData]);
      ReleaseOne(secData, Opened(old(books), pubData));
      ReleaseOne(pubData, old(books));
      return if err == 0 then Returned else GpgmeFailed(err);
    }

    /** pygpgme_context_export: the pattern array is freed once, before or after the operation. */
    method Export(heap: CHeap, pattern: Arg, keydata: Option<Obj>, self: Obj, err: int) returns (r: Result)
      requires Valid() && self in books.refs && Known(keydata) && heap.Valid() && WellTyped(pattern)
      modifies this, heap
      ensures Restored() && heap.Valid()
      ensures heap.strings == old(heap.strings) && heap.arrays == old(heap.arrays)
      ensures Outcome(r, Parses(pattern, heap.fails, old(heap.calls)), None, Wanted(pattern),
                      AllOpen(fails, old(next), keydata, None, None), [keydata], self, err)
    {
      var parsed, patterns := ParseKeyPatterns(heap, pattern);
      if parsed < 0 { return BadArgument; }
      r := ExportParsed(heap, patterns, Wanted(pattern), old(heap.strings), old(heap.arrays), keydata, self, err);
    }

    /** The rest of it, once the patterns have been parsed. */
    method ExportParsed(heap: CHeap, patterns: Option<Ptr>, ghost wanted: Option<seq<seq<byte>>>,
                        ghost strings0: Strings, ghost arrays0: Arrays, keydata: Option<Obj>, self: Obj, err: int)
      returns (r: Result)
      requires Valid() && self in books.refs && Known(keydata)
      requires heap.Valid() && Lent(heap.strings, heap.arrays, patterns, wanted, strings0, arrays0)
      modifies this, heap`strings, heap`arrays
      ensures Restored() && heap.Valid() && heap.strings == strings0 && heap.arrays == arrays0
      ensures Outcome(r, true, None, wanted, AllOpen(fails, old(next), keydata, None, None), [keydata], self, err)
    {
      var failed, data := DataNew(keydata, self);
      if failed != 0 {
        FreeHeld(heap, patterns, wanted, strings0, arrays0);
        return NoHandle;
      }
      LiveOne(old(books), data);
      assert [data] == HandlesFor([keydata], old(next), self);
      OperateOn(heap, patterns, wanted, [data], strings0, arrays0);
      FreeHeld(heap, patterns, wanted, strings0, arrays0);
      ReleaseOne(data, old(books));
      return if err == 0 then Returned else GpgmeFailed(err);
    }

    /** pygpgme_context_keylist: no handle; the array is freed once, right after the operation. */
    method Keylist(heap: CHeap, pattern: Arg, self: Obj, err: int) returns (r: Result)
      requires Valid() && heap.Valid() && WellTyped(pattern)
      modifies this, heap
      ensures Restored() && heap.Valid()
      ensures heap.strings == old(heap.strings) && heap.arrays == old(heap.arrays)
      ensures Outcome(r, Parses(pattern, heap.fails, old(heap.calls)), None, Wanted(pattern), true, [], self, err)
    {
      var parsed, patterns := ParseKeyPatterns(heap, pattern);
      if parsed < 0 { return BadArgument; }
      OperateOn(heap, patterns, Wanted(pattern), [], old(heap.strings), old(heap.arrays));
      FreeHeld(heap, patterns, Wanted(pattern), old(heap.strings), old(heap.arrays));
      return if err == 0 then Returned else GpgmeFailed(err);
    }
  }
}
