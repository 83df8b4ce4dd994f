/** Python programs that create and drop references to wrappers, and assign signers, in any order. */
module Programs {
  import opened Common
  import opened Graph
  import opened Ownership

  /** One step of a program. `n` is the length of the gpgme list that is read, `found` and `next` are
      what gpgme answers. */
  datatype Command =
    | Share(r: Obj)                  // another name for an object, or a place in a container
    | Drop(r: Obj)
    | Uids(r: Obj, n: nat)
    | Subkeys(r: Obj, n: nat)
    | Signatures(r: Obj, n: nat)
    | GetKey(found: Option<KeyId>)
    | NextKey(next: NextKey)
    | ReadSigners(c: Cid)
    | AssignSigners(c: Cid, value: Value)

  /** A program can use the objects it holds a reference to. */
  predicate HasRef(roots: Counts, r: Obj) { At(roots, r) > 0 }

  predicate HasRefs(roots: Counts, value: Value)
  {
    value.Sequence? ==>
      forall i :: 0 <= i < |value.elements| && value.elements[i].WrapperObject? ==> HasRef(roots, value.elements[i].r)
  }

  /** The program holds an object of that kind. */
  predicate HasRefOf(objs: Objs, roots: Counts, r: Obj, kind: Kind)
  {
    HasRef(roots, r) && r in objs && objs[r].kind == kind
  }

  // ---------- what each command does ----------

  datatype Snapshot = Snapshot(objs: Objs, roots: Counts, keys: Counts, signers: Signers, attempts: nat)

  ghost predicate Unchanged(pre: Snapshot, post: Snapshot)
  {
    post.objs == pre.objs && SameCounts(post.roots, pre.roots) && SameCounts(post.keys, pre.keys) && post.signers == pre.signers
  }

  /** A list of `n` new views into `r` in order, or, when one of them cannot be had, nothing. */
  ghost predicate ListsViews(fails: nat -> bool, pre: Snapshot, r: Obj, kind: Kind, n: nat, post: Snapshot)
  {
    if Supplied(fails, pre.attempts, n) then
      && post.signers == pre.signers
      && exists list :: |list| == n && ViewsAdded(pre.objs, pre.roots, post.objs, post.roots, list, r, kind)
    else Unchanged(pre, post)
  }

  /** A new Key for a key that gpgme hands out, or, when it cannot be had, nothing. */
  ghost predicate WrapsKey(fails: nat -> bool, pre: Snapshot, g: KeyId, post: Snapshot)
  {
    if fails(pre.attempts) then Unchanged(pre, post)
    else
      && pre.attempts !in pre.objs && post.objs == pre.objs[pre.attempts := Wrapper(KeyWrapper, g, [], None, 1)]
      && post.roots == Plus(pre.roots, pre.attempts) && post.signers == pre.signers
  }

  /** A list of new Keys for the signers of `c` in order, or, when one of them cannot be had, nothing. */
  ghost predicate ListsSigners(fails: nat -> bool, pre: Snapshot, c: Cid, post: Snapshot)
    requires c < |pre.signers|
  {
    if Supplied(fails, pre.attempts, |pre.signers[c]|) then
      && post.signers == pre.signers
      && exists list :: KeysAdded(pre.objs, pre.roots, post.objs, post.roots, list, pre.signers[c])
    else Unchanged(pre, post)
  }

  /** The effect of a command. An object that the program does not hold or that has no such attribute,
      or a context that does not exist, is no command for C code, and nothing happens. */
  ghost predicate Effect(fails: nat -> bool, pre: Snapshot, command: Command, post: Snapshot)
  {
    match command
    case Share(r) =>
      if At(pre.roots, r) > 0 && r in pre.objs then
        && post.roots == Plus(pre.roots, r) && post.objs == WithRefs(pre.objs, r, pre.objs[r].refs + 1)
        && post.keys == pre.keys && post.signers == pre.signers
      else Unchanged(pre, post)
    case Drop(r) =>
      if At(pre.roots, r) > 0 then
        && post.roots == Minus(pre.roots, r) && Agree(pre.objs, post.objs) && post.objs.Keys <= pre.objs.Keys
        && post.signers == pre.signers
      else Unchanged(pre, post)
    case Uids(r, n) =>
      if At(pre.roots, r) > 0 && r in pre.objs && pre.objs[r].kind == KeyWrapper
      then ListsViews(fails, pre, r, UserIdView, n, post) else Unchanged(pre, post)
    case Subkeys(r, n) =>
      if At(pre.roots, r) > 0 && r in pre.objs && pre.objs[r].kind == KeyWrapper
      then ListsViews(fails, pre, r, SubkeyView, n, post) else Unchanged(pre, post)
    case Signatures(r, n) =>
      if At(pre.roots, r) > 0 && r in pre.objs && pre.objs[r].kind == UserIdView
      then ListsViews(fails, pre, r, KeySigView, n, post) else Unchanged(pre, post)
    case GetKey(found) => if found.Some? then WrapsKey(fails, pre, found.value, post) else Unchanged(pre, post)
    case NextKey(next) => if next.Found? then WrapsKey(fails, pre, next.key, post) else Unchanged(pre, post)
    case ReadSigners(c) => if c < |pre.signers| then ListsSigners(fails, pre, c, post) else Unchanged(pre, post)
    case AssignSigners(c, value) =>
      if c < |pre.signers| && value.Sequence?
         && forall i :: 0 <= i < |value.elements| && value.elements[i].WrapperObject? ==> At(pre.roots, value.elements[i].r) > 0
      then
        && |post.signers| == |pre.signers| && Leading(pre.objs, value.elements, post.signers[c])
        && post.signers == pre.signers[c := post.signers[c]]
        && post.objs == pre.objs && post.roots == pre.roots
      else Unchanged(pre, post)
  }

  ghost function Snap(h: Heap): Snapshot
    reads h
  {
    Snapshot(h.objs, h.roots, h.keys, h.signers, h.attempts)
  }

  /** The commands that read a list of views. */
  method ReadList(h: Heap, command: Command)
    requires h.Valid() && (command.Uids? || command.Subkeys? || command.Signatures?)
    modifies h
    ensures h.Valid() && Effect(h.fails, old(Snap(h)), command, Snap(h))
  {
    var r := command.r;
    var list;
    match command
    case Uids(_, n) => if HasRefOf(h.objs, h.roots, r, KeyWrapper) { list := h.GetUids(r, n); }
    case Subkeys(_, n) => if HasRefOf(h.objs, h.roots, r, KeyWrapper) { list := h.GetSubkeys(r, n); }
    case Signatures(_, n) => if HasRefOf(h.objs, h.roots, r, UserIdView) { list := h.GetSignatures(r, n); }
  }

  method ReadSignersOf(h: Heap, c: Cid)
    requires h.Valid()
    modifies h
    ensures h.Valid() && Effect(h.fails, old(Snap(h)), ReadSigners(c), Snap(h))
  {
    if c < |h.signers| { var list := h.GetSigners(c); }
  }

  /** One command. */
  method Execute(h: Heap, command: Command)
    requires h.Valid()
    modifies h
    ensures h.Valid() && Effect(h.fails, old(Snap(h)), command, Snap(h))
  {
    match command
    case Share(r) => if HasRef(h.roots, r) { h.Share(r); }
    case Drop(r) => if HasRef(h.roots, r) { h.Drop(r, None); }
    case Uids(_, _) | Subkeys(_, _) | Signatures(_, _) => ReadList(h, command);
    case GetKey(found) => var made := h.GetKey(found);
    case NextKey(next) => var made := h.KeyIterNext(next);
    case ReadSigners(c) => ReadSignersOf(h, c);
    case AssignSigners(c, value) =>
      if c < |h.signers| && HasRefs(h.roots, value) { var ok := h.SetSigners(c, value); }
  }

  // ---------- lifetime safety and conservation ----------

  /** Each live object lies in a key whose count is positive, exactly what the program keeps alive is live,
      every key count is its wrappers, signers in all contexts and other shares, and a program that holds
      nothing has left no object behind. */
  ghost predicate Sound(s: Snapshot, other: Counts)
  {
    && Shaped(s.objs)
    && (forall r :: r in s.objs ==> At(s.keys, s.objs[r].key) > 0)
    && (forall r {:trigger KeptAlive(s.objs, s.roots, r)} :: r in s.objs <==> KeptAlive(s.objs, s.roots, r))
    && Accounted(s.objs, s.keys, s.signers, other, None)
    && ((forall r :: At(s.roots, r) == 0) ==> s.objs == map[])
  }

  lemma InvariantsAreSound(s: Snapshot, other: Counts)
    requires Shaped(s.objs) && Counted(s.objs, s.roots, None) && Accounted(s.objs, s.keys, s.signers, other, None)
    ensures Sound(s, other)
  {
    forall r
      ensures r in s.objs ==> At(s.keys, s.objs[r].key) > 0
      ensures r in s.objs <==> KeptAlive(s.objs, s.roots, r)
    {
      if r in s.objs { ViewsAreSafe(s.objs, s.keys, s.signers, other, None, r); }
      LiveIffHeld(s.objs, s.roots, r);
    }
    if forall r :: At(s.roots, r) == 0 { NothingLeaks(s.objs, s.roots, s.keys, s.signers, other); }
  }

  ghost predicate SoundAt(other: Counts, trace: seq<Snapshot>, i: nat)
    requires i < |trace|
  {
    Sound(trace[i], other)
  }

  ghost predicate StepAt(fails: nat -> bool, program: seq<Command>, trace: seq<Snapshot>, i: nat)
    requires i < |program| && i + 1 < |trace|
  {
    Effect(fails, trace[i], program[i], trace[i + 1])
  }

  /** The states that a program goes through: sound, each of them, and each the effect of a command on
      the one before. */
  ghost predicate History(fails: nat -> bool, other: Counts, program: seq<Command>, trace: seq<Snapshot>)
  {
    && |trace| == |program| + 1
    && (forall i {:trigger SoundAt(other, trace, i)} :: 0 <= i < |trace| ==> SoundAt(other, trace, i))
    && (forall i {:trigger StepAt(fails, program, trace, i)} :: 0 <= i < |program| ==> StepAt(fails, program, trace, i))
  }

  lemma ValidIsSound(h: Heap)
    requires h.Valid()
    ensures Sound(Snap(h), h.other)
  {
    InvariantsAreSound(Snap(h), h.other);
  }

  lemma HistoryStart(fails: nat -> bool, other: Counts, s: Snapshot)
    requires Sound(s, other)
    ensures History(fails, other, [], [s])
  {
  }

  lemma HistorySnoc(fails: nat -> bool, other: Counts, program: seq<Command>, trace: seq<Snapshot>, command: Command, s: Snapshot)
    requires History(fails, other, program, trace) && Sound(s, other) && Effect(fails, trace[|program|], command, s)
    ensures History(fails, other, program + [command], trace + [s])
  {
    var program', trace' := program + [command], trace + [s];
    forall i | 0 <= i < |trace'|
      ensures SoundAt(other, trace', i)
    {
      if i < |trace| {
        assert SoundAt(other, trace, i) && trace'[i] == trace[i];
      } else {
        assert trace'[i] == s;
      }
    }
    forall i | 0 <= i < |program'|
      ensures StepAt(fails, program', trace', i)
    {
      assert trace'[i] == trace[i];
      if i < |program| {
        assert StepAt(fails, program, trace, i) && program'[i] == program[i] && trace'[i + 1] == trace[i + 1];
      } else {
        assert program'[i] == command && trace'[i + 1] == s;
      }
    }
  }

  method ExecuteNext(h: Heap, ghost done: seq<Command>, command: Command, ghost trace: seq<Snapshot>)
    returns (ghost longer: seq<Snapshot>)
    requires h.Valid() && History(h.fails, h.other, done, trace) && trace[|done|] == Snap(h)
    modifies h
    ensures h.Valid() && History(h.fails, h.other, done + [command], longer)
    ensures longer[0] == trace[0] && longer[|done| + 1] == Snap(h)
  {
    Execute(h, command);
    ValidIsSound(h);
    HistorySnoc(h.fails, h.other, done, trace, command, Snap(h));
    longer := trace + [Snap(h)];
  }

  /** Any program, from any state that the invariant allows. */
  method RunProgram(h: Heap, program: seq<Command>) returns (ghost trace: seq<Snapshot>)
    requires h.Valid()
    modifies h
    ensures h.Valid() && History(h.fails, h.other, program, trace)
    ensures trace[0] == old(Snap(h)) && trace[|program|] == Snap(h)
    decreases |program|
  {
    var n := |program|;
    if n == 0 {
      ValidIsSound(h);
      HistoryStart(h.fails, h.other, Snap(h));
      trace := [Snap(h)];
    } else {
      trace := RunProgram(h, program[..n - 1]);
      assert program[..n - 1] + [program[n - 1]] == program;
      trace := ExecuteNext(h, program[..n - 1], program[n - 1], trace);
    }
  }

  /** Every state of a history is sound, and every command has had its effect. */
  lemma HistoryAt(fails: nat -> bool, other: Counts, program: seq<Command>, trace: seq<Snapshot>, k: nat)
    requires History(fails, other, program, trace) && k <= |program|
    ensures Sound(trace[k], other) && (k < |program| ==> Effect(fails, trace[k], program[k], trace[k + 1]))
  {
    assert SoundAt(other, trace, k);
    assert k < |program| ==> StepAt(fails, program, trace, k);
  }

  lemma EffectOnSigners(fails: nat -> bool, pre: Snapshot, command: Command, post: Snapshot, c: Cid)
    requires Effect(fails, pre, command, post) && c < |pre.signers| && !(command.AssignSigners? && command.c == c)
    ensures |post.signers| == |pre.signers| && post.signers[c] == pre.signers[c]
  {
  }

  /** The contexts are independent: only an assignment to its own signers changes the signers of a context,
      although all contexts share the counts of the keys. */
  lemma {:induction false} SignersOfOthersStay(fails: nat -> bool, other: Counts, program: seq<Command>, trace: seq<Snapshot>,
                                               c: Cid, n: nat)
    requires History(fails, other, program, trace) && c < |trace[0].signers| && n < |trace|
    requires forall i :: 0 <= i < n ==> !(program[i].AssignSigners? && program[i].c == c)
    ensures |trace[n].signers| == |trace[0].signers| && trace[n].signers[c] == trace[0].signers[c]
    decreases n
  {
    if n > 0 {
      SignersOfOthersStay(fails, other, program, trace, c, n - 1);
      assert StepAt(fails, program, trace, n - 1);
      EffectOnSigners(fails, trace[n - 1], program[n - 1], trace[n], c);
    }
  }

  /** Signers read back: when a program assigns Keys that it holds to the signers of a context and reads
      them, it gains as many new Keys, of exactly the same gpgme keys in the same order. */
  lemma SignersRoundTrip(fails: nat -> bool, pre: Snapshot, c: Cid, elements: seq<Element>, mid: Snapshot, post: Snapshot)
    returns (list: seq<Obj>)
    requires c < |pre.signers|
    requires forall i :: 0 <= i < |elements| ==>
               && elements[i].WrapperObject? && At(pre.roots, elements[i].r) > 0
               && elements[i].r in pre.objs && pre.objs[elements[i].r].kind == KeyWrapper
    requires Effect(fails, pre, AssignSigners(c, Sequence(elements)), mid)
    requires Effect(fails, mid, ReadSigners(c), post)
    requires forall k :: mid.attempts <= k < mid.attempts + |elements| ==> !fails(k)
    ensures |list| == |elements| && Added(pre.objs, pre.roots, post.objs, post.roots, list)
    ensures forall i :: 0 <= i < |list| ==>
              && list[i] in post.objs && post.objs[list[i]].kind == KeyWrapper
              && post.objs[list[i]].key == pre.objs[elements[i].r].key
  {
    assert |mid.signers[c]| == |elements|;
    assert Supplied(fails, mid.attempts, |mid.signers[c]|);
    list :| KeysAdded(mid.objs, mid.roots, post.objs, post.roots, list, mid.signers[c]);
    forall i | 0 <= i < |list|
      ensures list[i] in post.objs && post.objs[list[i]].kind == KeyWrapper
      ensures post.objs[list[i]].key == pre.objs[elements[i].r].key
    {
      assert Core(post.objs[list[i]]) == Wrapper(KeyWrapper, mid.signers[c][i], [], None, 0);
    }
  }
}
