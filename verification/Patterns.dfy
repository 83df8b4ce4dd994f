/** `parse_key_patterns` and `free_key_patterns` on a C heap in which any allocation may fail. */
module Patterns {
  import opened Common

  type Ptr = nat

  /** An element of the pattern sequence; `utf8` is None when the text cannot be encoded. */
  datatype PatternItem = BytesItem(bs: seq<byte>) | TextItem(utf8: Option<seq<byte>>) | OtherItem

  datatype Arg = NoneArg | One(item: PatternItem) | Sequence(items: seq<PatternItem>) | NotASequence

  /** What strdup copies: the bytes before the first NUL. */
  function UpToNul(bs: seq<byte>): (r: seq<byte>)
    ensures r <= bs && 0 !in r
    ensures |r| < |bs| ==> bs[|r|] == 0
  {
    if bs == [] || bs[0] == 0 then [] else [bs[0]] + UpToNul(bs[1..])
  }

  function BytesOf(item: PatternItem): (bytes: Option<seq<byte>>)
    ensures bytes.Some? <==> item.BytesItem? || (item.TextItem? && item.utf8.Some?)
    ensures item.BytesItem? ==> bytes.value == item.bs
    ensures item.TextItem? ==> bytes == item.utf8
  {
    match item
    case BytesItem(bs) => Some(bs)
    case TextItem(utf8) => utf8
    case OtherItem => None
  }

  /** Slots of a pattern array that precede the first NULL. */
  function Filled(slots: seq<Option<Ptr>>): (n: nat)
    ensures n <= |slots|
    ensures forall i :: 0 <= i < n ==> slots[i].Some?
    ensures n < |slots| ==> slots[n].None?
  {
    if slots == [] || slots[0].None? then 0 else 1 + Filled(slots[1..])
  }

  function Pointers(slots: seq<Option<Ptr>>): set<Ptr>
  {
    set i | 0 <= i < |slots| && slots[i].Some? :: slots[i].value
  }

  type Strings = map<Ptr, seq<byte>>
  type Arrays = map<Ptr, seq<Option<Ptr>>>

  /** An array that free_key_patterns may be given: it has a NULL, and the slots before it
      point to different live strings. */
  ghost predicate Freeable(strings: Strings, arrays: Arrays, p: Ptr)
  {
    p in arrays &&
    var slots := arrays[p];
    && Filled(slots) < |slots|
    && (forall i :: 0 <= i < Filled(slots) ==> slots[i].value in strings)
    && (forall i, j :: 0 <= i < j < Filled(slots) ==> slots[i] != slots[j])
  }

  /** The array at `p` is the C form of `wanted`: the strings in order, then NULL, in blocks of its
      own; and these blocks are all that was added to `strings0` and `arrays0`. */
  ghost predicate Holds(strings: Strings, arrays: Arrays, p: Ptr, wanted: seq<seq<byte>>, strings0: Strings, arrays0: Arrays)
  {
    && Freeable(strings, arrays, p) && p !in arrays0
    && var slots := arrays[p];
       && |slots| == |wanted| + 1 && Filled(slots) == |wanted|
       && (forall i :: 0 <= i < |wanted| ==> strings[slots[i].value] == wanted[i])
       && arrays - {p} == arrays0
       && strings - Pointers(slots[..|wanted|]) == strings0
  }

  /** What calloc fills a block with. */
  function Nulls(n: nat): (slots: seq<Option<Ptr>>)
    ensures |slots| == n && forall i :: 0 <= i < n ==> slots[i] == None
  {
    seq(n, _ => None)
  }

  class CHeap {
    var strings: Strings            // live blocks made by strdup
    var arrays: Arrays              // live blocks made by calloc
    var calls: nat                              // allocations attempted so far
    var bytesRefs: int                          // references held to Python bytes objects
    const fails: nat -> bool                    // which attempts fail

    ghost predicate Valid()
      reads this
    {
      && (forall p :: p in strings ==> p < calls)
      && (forall p :: p in arrays ==> p < calls)
    }

    constructor (fails: nat -> bool)
      ensures Valid() && strings == map[] && arrays == map[] && bytesRefs == 0 && this.fails == fails
    {
      strings, arrays, calls, bytesRefs, this.fails := map[], map[], 0, 0, fails;
    }

    method Calloc(n: nat) returns (p: Option<Ptr>)
      requires Valid()
      modifies this`arrays, this`calls
      ensures Valid() && calls == old(calls) + 1
      ensures p == if fails(old(calls)) then None else Some(old(calls))
      ensures arrays == if p.Some? then old(arrays)[p.value := Nulls(n)] else old(arrays)
    {
      p := if fails(calls) then None else Some(calls);
      if p.Some? { arrays := arrays[p.value := Nulls(n)]; }
      calls := calls + 1;
    }

    method Strdup(bs: seq<byte>) returns (p: Option<Ptr>)
      requires Valid()
      modifies this`strings, this`calls
      ensures Valid() && calls == old(calls) + 1
      ensures p == if fails(old(calls)) then None else Some(old(calls))
      ensures strings == if p.Some? then old(strings)[p.value := UpToNul(bs)] else old(strings)
    {
      p := if fails(calls) then None else Some(calls);
      if p.Some? { strings := strings[p.value := UpToNul(bs)]; }
      calls := calls + 1;
    }

    /** free(), for a block that is live: a second free() has no way to meet the requirement. */
    method FreeString(p: Ptr)
      requires Valid() && p in strings
      modifies this`strings
      ensures Valid() && strings == old(strings) - {p}
    {
      strings := strings - {p};
    }

    method FreeArray(p: Ptr)
      requires Valid() && p in arrays
      modifies this`arrays
      ensures Valid() && arrays == old(arrays) - {p}
    {
      arrays := arrays - {p};
    }

    /** free_key_patterns */
    method FreeKeyPatterns(p: Ptr)
      requires Valid() && Freeable(strings, arrays, p)
      modifies this`strings, this`arrays
      ensures Valid()
      ensures arrays == old(arrays) - {p}
      ensures strings == old(strings) - Pointers(old(arrays[p])[..Filled(old(arrays[p]))])
    {
      var slots := arrays[p];
      var i := 0;
      while slots[i] != None
        invariant 0 <= i <= Filled(slots)
        invariant Valid() && arrays == old(arrays)
        invariant strings == old(strings) - Pointers(slots[..i])
        decreases |slots| - i
      {
        assert forall k :: 0 <= k < i ==> slots[..i][k] == slots[k] != slots[i];
        FreeString(slots[i].value);
        PointersSnoc(slots, i);
        i := i + 1;
      }
      FreeArray(p);
    }
  }

  lemma PointersSnoc(slots: seq<Option<Ptr>>, i: nat)
    requires i < |slots| && slots[i].Some?
    ensures Pointers(slots[..i + 1]) == Pointers(slots[..i]) + {slots[i].value}
  {
    forall q | q in Pointers(slots[..i + 1])
      ensures q in Pointers(slots[..i]) + {slots[i].value}
    {
      var k :| 0 <= k < i + 1 && slots[..i + 1][k] == Some(q);
      if k < i { assert slots[..i][k] == Some(q); }
    }
    forall q | q in Pointers(slots[..i]) + {slots[i].value}
      ensures q in Pointers(slots[..i + 1])
    {
      if q == slots[i].value {
        assert slots[..i + 1][i] == Some(q);
      } else {
        var k :| 0 <= k < i && slots[..i][k] == Some(q);
        assert slots[..i + 1][k] == Some(q);
      }
    }
  }

  lemma {:induction false} FilledPrefix(slots: seq<Option<Ptr>>, n: nat)
    requires n <= |slots| && (forall i :: 0 <= i < n ==> slots[i].Some?) && (n < |slots| ==> slots[n].None?)
    ensures Filled(slots) == n
  {
    if n > 0 { FilledPrefix(slots[1..], n - 1); }
  }

  /** The strings a C function reads from a pattern array. */
  function ReadStrings(strings: Strings, slots: seq<Option<Ptr>>): seq<seq<byte>>
  {
    if slots == [] || slots[0].None? || slots[0].value !in strings then []
    else [strings[slots[0].value]] + ReadStrings(strings, slots[1..])
  }

  lemma {:induction false} ReadsWanted(strings: Strings, slots: seq<Option<Ptr>>, wanted: seq<seq<byte>>)
    requires |slots| == |wanted| + 1 && slots[|wanted|] == None
    requires forall i :: 0 <= i < |wanted| ==> slots[i].Some? && slots[i].value in strings && strings[slots[i].value] == wanted[i]
    ensures ReadStrings(strings, slots) == wanted
    decreases |wanted|
  {
    if wanted != [] { ReadsWanted(strings, slots[1..], wanted[1..]); }
  }

  lemma HoldsReads(strings: Strings, arrays: Arrays, p: Ptr, wanted: seq<seq<byte>>, strings0: Strings, arrays0: Arrays)
    requires Holds(strings, arrays, p, wanted, strings0, arrays0)
    ensures ReadStrings(strings, arrays[p]) == wanted
  {
    ReadsWanted(strings, arrays[p], wanted);
  }

  /** `if (patterns) free_key_patterns(patterns)`, after which nothing is left of the array. */
  method FreeHeld(heap: CHeap, patterns: Option<Ptr>, ghost wanted: Option<seq<seq<byte>>>,
                  ghost strings0: Strings, ghost arrays0: Arrays)
    requires heap.Valid() && Lent(heap.strings, heap.arrays, patterns, wanted, strings0, arrays0)
    modifies heap`strings, heap`arrays
    ensures heap.Valid() && heap.strings == strings0 && heap.arrays == arrays0
  {
    if patterns.Some? { heap.FreeKeyPatterns(patterns.value); }
  }

  /** NULL and an untouched heap, or an array for `wanted`. */
  ghost predicate Lent(strings: Strings, arrays: Arrays, patterns: Option<Ptr>, wanted: Option<seq<seq<byte>>>,
                       strings0: Strings, arrays0: Arrays)
  {
    match patterns
    case None => strings == strings0 && arrays == arrays0 && wanted == None
    case Some(p) => wanted.Some? && Holds(strings, arrays, p, wanted.value, strings0, arrays0)
  }

  // ---------- parse_key_patterns ----------

  /** The strings a pattern argument stands for; None when its type or an encoding is wrong. */
  function Wanted(arg: Arg): Option<seq<seq<byte>>>
  {
    match arg
    case One(item) => WantedItems([item])
    case Sequence(items) => WantedItems(items)
    case _ => None
  }

  function WantedItems(items: seq<PatternItem>): (r: Option<seq<seq<byte>>>)
    ensures r.Some? <==> forall i :: 0 <= i < |items| ==> BytesOf(items[i]).Some?
    ensures r.Some? ==> |r.value| == |items|
    ensures r.Some? ==> forall i :: 0 <= i < |items| ==> r.value[i] == UpToNul(BytesOf(items[i]).value)
  {
    if forall i :: 0 <= i < |items| ==> BytesOf(items[i]).Some?
    then Some(seq(|items|, i requires 0 <= i < |items| && BytesOf(items[i]).Some? => UpToNul(BytesOf(items[i]).value)))
    else None
  }

  /** A text or bytes object is one pattern; anything else must be a sequence. */
  predicate WellTyped(arg: Arg) { arg.One? ==> !arg.item.OtherItem? }

  /** How many leading items are copied when attempt `first` is for the first of them. */
  function Copied(items: seq<PatternItem>, fails: nat -> bool, first: nat): (n: nat)
    ensures n <= |items|
    ensures forall i :: 0 <= i < n ==> BytesOf(items[i]).Some?
    ensures Supplied(fails, first, n)
    ensures n < |items| ==> BytesOf(items[n]).None? || fails(first + n)
  {
    if items == [] || BytesOf(items[0]).None? || fails(first) then 0
    else 1 + Copied(items[1..], fails, first + 1)
  }

  /** The first `i` items can be copied. */
  predicate Reached(items: seq<PatternItem>, fails: nat -> bool, first: nat, i: nat)
  {
    i <= |items| && (forall k :: 0 <= k < i ==> BytesOf(items[k]).Some?) && Supplied(fails, first, i)
  }

  lemma ReachedNext(items: seq<PatternItem>, fails: nat -> bool, first: nat, i: nat)
    requires Reached(items, fails, first, i) && i < |items|
    ensures Reached(items, fails, first, i + 1) <==> BytesOf(items[i]).Some? && !fails(first + i)
  {
    SuppliedSplit(fails, first, i + 1);
  }

  lemma ReachedTail(items: seq<PatternItem>, fails: nat -> bool, first: nat, i: nat)
    requires i > 0 && items != []
    ensures Reached(items, fails, first, i)
            <==> BytesOf(items[0]).Some? && !fails(first) && Reached(items[1..], fails, first + 1, i - 1)
  {
    SuppliedSplit(fails, first, i);
    if Reached(items[1..], fails, first + 1, i - 1) && BytesOf(items[0]).Some? {
      forall k | 0 <= k < i
        ensures BytesOf(items[k]).Some?
      {
        assert k > 0 ==> items[k] == items[1..][k - 1];
      }
    }
  }

  lemma {:induction false} CopiedIs(items: seq<PatternItem>, fails: nat -> bool, first: nat, n: nat)
    requires Reached(items, fails, first, n) && !Reached(items, fails, first, n + 1)
    ensures Copied(items, fails, first) == n
    decreases n
  {
    if items != [] { ReachedTail(items, fails, first, n + 1); }
    if n > 0 {
      ReachedTail(items, fails, first, n);
      CopiedIs(items[1..], fails, first + 1, n - 1);
    }
  }

  /** The heap while the first `i` slots of the array at `p` are filled, in allocation order. */
  ghost predicate Partial(strings: Strings, arrays: Arrays, p: Ptr, items: seq<PatternItem>, i: nat, strings0: Strings, arrays0: Arrays)
  {
    && i <= |items|
    && p in arrays && p !in arrays0 && arrays - {p} == arrays0
    && var slots := arrays[p];
       && |slots| == |items| + 1
       && (forall k :: i <= k < |slots| ==> slots[k] == None)
       && (forall k :: 0 <= k < i ==>
             && slots[k] == Some(p + 1 + k) && slots[k].value in strings
             && BytesOf(items[k]).Some? && strings[slots[k].value] == UpToNul(BytesOf(items[k]).value))
       && strings - Pointers(slots[..i]) == strings0
  }

  /** calloc fills the array with NULL, so that it is in this state from the start. */
  lemma PartialStarts(p: Ptr, items: seq<PatternItem>, strings0: Strings, arrays0: Arrays, arrays: Arrays)
    requires p !in arrays0 && arrays == arrays0[p := Nulls(|items| + 1)]
    ensures Partial(strings0, arrays, p, items, 0, strings0, arrays0)
  {
    assert arrays - {p} == arrays0;
    assert Pointers(arrays[p][..0]) == {};
    assert strings0 - {} == strings0;
  }

  lemma PartialNext(strings: Strings, arrays: Arrays, p: Ptr, items: seq<PatternItem>, i: nat, bs: seq<byte>,
                    strings0: Strings, arrays0: Arrays)
    requires Partial(strings, arrays, p, items, i, strings0, arrays0) && i < |items| && BytesOf(items[i]) == Some(bs)
    requires p + 1 + i !in strings
    ensures Partial(strings[p + 1 + i := UpToNul(bs)], arrays[p := arrays[p][i := Some(p + 1 + i)]],
                    p, items, i + 1, strings0, arrays0)
  {
    var slots: seq<Option<Ptr>> := arrays[p][i := Some(p + 1 + i)];
    PointersSnoc(slots, i);
    assert slots[..i] == arrays[p][..i];
    assert arrays[p := slots] - {p} == arrays0;
  }

  lemma PartialFreeable(strings: Strings, arrays: Arrays, p: Ptr, items: seq<PatternItem>, i: nat, strings0: Strings, arrays0: Arrays)
    requires Partial(strings, arrays, p, items, i, strings0, arrays0)
    ensures Freeable(strings, arrays, p) && Filled(arrays[p]) == i
  {
    FilledPrefix(arrays[p], i);
  }

  lemma PartialHolds(strings: Strings, arrays: Arrays, p: Ptr, items: seq<PatternItem>, strings0: Strings, arrays0: Arrays)
    requires Partial(strings, arrays, p, items, |items|, strings0, arrays0)
    ensures WantedItems(items).Some? && Holds(strings, arrays, p, WantedItems(items).value, strings0, arrays0)
  {
    PartialFreeable(strings, arrays, p, items, |items|, strings0, arrays0);
  }

  /** The bytes of an item and strdup into the next slot; false when either cannot be had. The reference
      to the bytes object is dropped only when strdup fails. */
  method CopyItem(heap: CHeap, p: Ptr, items: seq<PatternItem>, i: nat, ghost strings0: Strings, ghost arrays0: Arrays)
    returns (ok: bool)
    requires heap.Valid() && Partial(heap.strings, heap.arrays, p, items, i, strings0, arrays0) && i < |items|
    requires heap.calls == p + 1 + i
    modifies heap`strings, heap`arrays, heap`calls, heap`bytesRefs
    ensures ok <==> BytesOf(items[i]).Some? && !heap.fails(p + 1 + i)
    ensures ok ==> heap.calls == p + 2 + i
    ensures heap.bytesRefs == old(heap.bytesRefs) + if ok then 1 else 0
    ensures heap.Valid() && Partial(heap.strings, heap.arrays, p, items, if ok then i + 1 else i, strings0, arrays0)
  {
    ghost var strings, arrays := heap.strings, heap.arrays;
    var bytes := BytesOf(items[i]);
    if bytes.None? { return false; }
    heap.bytesRefs := heap.bytesRefs + 1;
    var q := heap.Strdup(bytes.value);
    if q.None? {
      heap.bytesRefs := heap.bytesRefs - 1;
      return false;
    }
    heap.arrays := heap.arrays[p := heap.arrays[p][i := q]];
    PartialNext(strings, arrays, p, items, i, bytes.value, strings0, arrays0);
    return true;
  }

  /** The cleanup of a partial array frees exactly the slots that were filled, and the array. */
  method Abandon(heap: CHeap, p: Ptr, ghost items: seq<PatternItem>, ghost i: nat,
                 ghost strings0: Strings, ghost arrays0: Arrays)
    requires heap.Valid() && Partial(heap.strings, heap.arrays, p, items, i, strings0, arrays0)
    modifies heap`strings, heap`arrays
    ensures heap.Valid() && heap.strings == strings0 && heap.arrays == arrays0
  {
    PartialFreeable(heap.strings, heap.arrays, p, items, i, strings0, arrays0);
    heap.FreeKeyPatterns(p);
  }

  /** Every item is a bytes object, or a text that can be encoded. */
  predicate AllStrings(items: seq<PatternItem>)
  {
    forall i :: 0 <= i < |items| ==> items[i].BytesItem? || (items[i].TextItem? && items[i].utf8.Some?)
  }

  /** The strings are, in order, the items' own bytes up to their first NUL. */
  predicate Spells(items: seq<PatternItem>, strings: seq<seq<byte>>)
  {
    && |strings| == |items|
    && forall i :: 0 <= i < |items| ==>
         if items[i].BytesItem? then strings[i] == UpToNul(items[i].bs)
         else items[i].TextItem? && items[i].utf8.Some? && strings[i] == UpToNul(items[i].utf8.value)
  }

  /** None is a pattern argument without an array; one of `n` patterns takes `n + 1` allocations. */
  predicate Parses(arg: Arg, fails: nat -> bool, first: nat)
  {
    arg.NoneArg? || (Wanted(arg).Some? && Supplied(fails, first, |Wanted(arg).value| + 1))
  }

  /** parse_key_patterns. It succeeds exactly when every item is text or bytes that can be encoded and
      no allocation fails; then the array has its C form, and otherwise nothing stays allocated. Every
      string that was copied leaves one reference to its bytes object behind. */
  method ParseKeyPatterns(heap: CHeap, arg: Arg) returns (result: int, patterns: Option<Ptr>)
    requires heap.Valid() && WellTyped(arg)
    modifies heap
    ensures heap.Valid() && (result == 0 || result == -1)
    ensures result == 0 <==> Parses(arg, heap.fails, old(heap.calls))
    ensures patterns.Some? <==> result == 0 && !arg.NoneArg?
    ensures arg.One? && Supplied(heap.fails, old(heap.calls), 2) ==> (result == 0 <==> AllStrings([arg.item]))
    ensures arg.Sequence? && Supplied(heap.fails, old(heap.calls), |arg.items| + 1) ==> (result == 0 <==> AllStrings(arg.items))
    ensures arg.NotASequence? ==> result == -1
    ensures patterns.Some? ==> patterns.value in heap.arrays
    ensures patterns.Some? ==> arg.One? || arg.Sequence?
    ensures patterns.Some? ==>
      Spells(if arg.One? then [arg.item] else arg.items, ReadStrings(heap.strings, heap.arrays[patterns.value]))
    ensures patterns.Some? ==> Holds(heap.strings, heap.arrays, patterns.value, Wanted(arg).value, old(heap.strings), old(heap.arrays))
    ensures patterns.None? ==> heap.strings == old(heap.strings) && heap.arrays == old(heap.arrays)
    ensures arg.One? || arg.Sequence? ==>
      var items := if arg.One? then [arg.item] else arg.items;
      heap.bytesRefs == old(heap.bytesRefs)
        + if heap.fails(old(heap.calls)) then 0 else Copied(items, heap.fails, old(heap.calls) + 1)
    ensures arg.NoneArg? || arg.NotASequence? ==> heap.bytesRefs == old(heap.bytesRefs)
  {
    if arg.NoneArg? { return 0, None; }
    if arg.NotASequence? { return -1, None; }
    if arg.One? {
      result, patterns := ParseOne(heap, arg.item);
    } else {
      result, patterns := ParseSequence(heap, arg.items);
    }
    if patterns.Some? {
      HoldsReads(heap.strings, heap.arrays, patterns.value, Wanted(arg).value, old(heap.strings), old(heap.arrays));
    }
  }

  /** The branch for a single pattern, which encodes the text before it allocates anything; the reference
      to the bytes that is dropped again when calloc fails is left out. */
  method ParseOne(heap: CHeap, item: PatternItem) returns (result: int, patterns: Option<Ptr>)
    requires heap.Valid() && !item.OtherItem?
    modifies heap
    ensures heap.Valid() && result == if patterns.Some? then 0 else -1
    ensures patterns.Some? <==> WantedItems([item]).Some? && Supplied(heap.fails, old(heap.calls), 2)
    ensures patterns.Some? ==>
      Holds(heap.strings, heap.arrays, patterns.value, WantedItems([item]).value, old(heap.strings), old(heap.arrays))
    ensures patterns.None? ==> heap.strings == old(heap.strings) && heap.arrays == old(heap.arrays)
    ensures heap.bytesRefs == old(heap.bytesRefs)
              + if heap.fails(old(heap.calls)) then 0 else Copied([item], heap.fails, old(heap.calls) + 1)
  {
    if item.TextItem? && item.utf8.None? {
      assert BytesOf([item][0]).None?;
      return -1, None;
    }
    patterns := heap.Calloc(2);
    if patterns.None? { return -1, None; }
    PartialStarts(patterns.value, [item], old(heap.strings), old(heap.arrays), heap.arrays);
    var ok := CopyItem(heap, patterns.value, [item], 0, old(heap.strings), old(heap.arrays));
    ReachedNext([item], heap.fails, patterns.value + 1, 0);
    CopiedIs([item], heap.fails, patterns.value + 1, if ok then 1 else 0);
    SuppliedSplit(heap.fails, old(heap.calls), 2);
    if !ok {
      Abandon(heap, patterns.value, [item], 0, old(heap.strings), old(heap.arrays));
      return -1, None;
    }
    PartialHolds(heap.strings, heap.arrays, patterns.value, [item], old(heap.strings), old(heap.arrays));
    result := 0;
  }

  method ParseSequence(heap: CHeap, items: seq<PatternItem>) returns (result: int, patterns: Option<Ptr>)
    requires heap.Valid()
    modifies heap
    ensures heap.Valid() && result == if patterns.Some? then 0 else -1
    ensures patterns.Some? <==> WantedItems(items).Some? && Supplied(heap.fails, old(heap.calls), |items| + 1)
    ensures patterns.Some? ==>
      Holds(heap.strings, heap.arrays, patterns.value, WantedItems(items).value, old(heap.strings), old(heap.arrays))
    ensures patterns.None? ==> heap.strings == old(heap.strings) && heap.arrays == old(heap.arrays)
    ensures heap.bytesRefs == old(heap.bytesRefs)
              + if heap.fails(old(heap.calls)) then 0 else Copied(items, heap.fails, old(heap.calls) + 1)
  {
    patterns := heap.Calloc(|items| + 1);
    if patterns.None? { return -1, None; }
    var ok := FillSlots(heap, patterns.value, items, old(heap.strings), old(heap.arrays));
    SuppliedSplit(heap.fails, old(heap.calls), |items| + 1);
    if !ok { return -1, None; }
    PartialHolds(heap.strings, heap.arrays, patterns.value, items, old(heap.strings), old(heap.arrays));
    result := 0;
  }

  /** The loop of parse_key_patterns with the cleanup at its end, on an array fresh from calloc. */
  method FillSlots(heap: CHeap, p: Ptr, items: seq<PatternItem>,
                   ghost strings0: Strings, ghost arrays0: Arrays) returns (ok: bool)
    requires heap.Valid() && heap.calls == p + 1 && heap.strings == strings0 && p !in arrays0
    requires heap.arrays == arrays0[p := Nulls(|items| + 1)]
    modifies heap
    ensures ok <==> Copied(items, heap.fails, p + 1) == |items|
    ensures ok ==> heap.Valid() && Partial(heap.strings, heap.arrays, p, items, |items|, strings0, arrays0)
    ensures !ok ==> heap.Valid() && heap.strings == strings0 && heap.arrays == arrays0
    ensures heap.bytesRefs == old(heap.bytesRefs) + Copied(items, heap.fails, p + 1)
  {
    PartialStarts(p, items, strings0, arrays0, heap.arrays);
    var n := CopyItems(heap, p, items, strings0, arrays0);
    ok := n == |items|;
    if !ok { Abandon(heap, p, items, n, strings0, arrays0); }
  }

  /** The loop itself: how many items were copied. */
  method CopyItems(heap: CHeap, p: Ptr, items: seq<PatternItem>, ghost strings0: Strings, ghost arrays0: Arrays)
    returns (n: nat)
    requires heap.Valid() && Partial(heap.strings, heap.arrays, p, items, 0, strings0, arrays0) && heap.calls == p + 1
    modifies heap`strings, heap`arrays, heap`calls, heap`bytesRefs
    ensures n == Copied(items, heap.fails, p + 1) && heap.bytesRefs == old(heap.bytesRefs) + n
    ensures heap.Valid() && Partial(heap.strings, heap.arrays, p, items, n, strings0, arrays0)
  {
    n := 0;
    var ok := true;
    while n < |items| && ok
      invariant Reached(items, heap.fails, p + 1, n) && heap.bytesRefs == old(heap.bytesRefs) + n
      invariant heap.Valid() && Partial(heap.strings, heap.arrays, p, items, n, strings0, arrays0)
      invariant if ok then heap.calls == p + 1 + n else !Reached(items, heap.fails, p + 1, n + 1)
      decreases |items| - n, ok
    {
      ok := CopyItem(heap, p, items, n, strings0, arrays0);
      ReachedNext(items, heap.fails, p + 1, n);
      if ok { n := n + 1; }
    }
    CopiedIs(items, heap.fails, p + 1, n);
  }
}
