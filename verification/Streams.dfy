/** gpgme's view of a Python file: `read_cb`, `write_cb`, `seek_cb` and `set_errno`. */
module Streams {
  import opened Common
  import opened Errors
  import opened Callbacks

  const EINVAL := 22
  const INT_LIMIT := 0x8000_0000

  /** What a method of the Python file did. */
  datatype Answer =
    | RaisedIo(errno: Option<PyVal>)     // an OSError; None when it has no usable value or attribute
    | RaisedOther
    | Bytes(bs: seq<byte>)
    | Number(n: int)                     // a Python integer
    | OtherObject

  /** The conversion of a C long to a C int. */
  function ToInt(n: int): (r: int)
    ensures -0x8000_0000 <= r < 0x8000_0000 && (n - r) % 0x1_0000_0000 == 0
    ensures -0x8000_0000 <= n < 0x8000_0000 ==> r == n
  {
    var m := n % UINT_MODULUS;
    if m < INT_LIMIT then m else m - UINT_MODULUS
  }

  predicate FitsLong(n: int) { -LONG_LIMIT <= n < LONG_LIMIT }

  /** The errno that an exception is translated to. */
  function ErrnoFor(a: Answer): int
  {
    match a
    case RaisedIo(Some(v)) => if v.IsInt() then ToInt(v.AsLong()) else EINVAL
    case _ => EINVAL
  }

  predicate Raised(a: Answer) { a.RaisedIo? || a.RaisedOther? }

  /** The exception that stays set after that: an OverflowError, when the number in the exception does not
      fit a C long. */
  function Leftover(a: Answer): Option<Exc>
  {
    match a
    case RaisedIo(Some(v)) => if v.IsInt() && !FitsLong(v.n) then Some(OVERFLOW_ERROR) else None
    case _ => None
  }

  /** An errno that is a C int arrives as it is, anything that is not an OSError with a number arrives as 22,
      and only a number beyond a C long leaves an exception. */
  lemma ErrnoArrives(a: Answer)
    ensures a.RaisedIo? && a.errno.Some? && a.errno.value.IsInt() && -0x8000_0000 <= a.errno.value.n < 0x8000_0000 ==>
              ErrnoFor(a) == a.errno.value.n
    ensures a.RaisedOther? || (a.RaisedIo? && (a.errno.None? || !a.errno.value.IsInt())) ==> ErrnoFor(a) == 22
    ensures Leftover(a).Some? <==>
              && a.RaisedIo? && a.errno.Some? && a.errno.value.IsInt()
              && !(-0x8000_0000_0000_0000 <= a.errno.value.n < 0x8000_0000_0000_0000)
  {
  }

  class Errno {
    var value: int

    constructor ()
      ensures value == 0
    {
      value := 0;
    }

    /** set_errno: an exception is set on entry. It is cleared, but that of a conversion is not. */
    method Set(interp: Interp, a: Answer)
      requires Raised(a)
      modifies this, interp`pending
      ensures value == ErrnoFor(a) && interp.pending == Leftover(a)
    {
      interp.pending := None;                            // PyErr_Fetch
      if a.RaisedIo? && a.errno.Some? && a.errno.value.IsInt() {
        var v := a.errno.value;
        value := ToInt(v.AsLong());
        if !FitsLong(v.n) { interp.pending := Some(OVERFLOW_ERROR); }
      } else {
        value := EINVAL;
      }
    }
  }

  function Min(a: nat, b: nat): nat { if a < b then a else b }

  /** The part of a chunk that fits. */
  function Fit(bs: seq<byte>, n: nat): seq<byte> { bs[..Min(|bs|, n)] }

  /** read_cb; `answer` is what file.read(size) did. */
  method ReadCb(gil: Gil, ctx: Context, interp: Interp, errno: Errno, buffer: array<byte>, size: nat, answer: Answer)
    returns (n: int)
    requires InOperation(gil, ctx) && size <= buffer.Length
    modifies gil, ctx, interp`pending, errno, buffer
    ensures InOperation(gil, ctx) && ctx.tstate == old(ctx.tstate)
    ensures answer.Bytes? ==>
      && n == |Fit(answer.bs, size)| && buffer[..n] == Fit(answer.bs, size)
      && buffer[n..] == old(buffer[..])[n..]
      && errno.value == old(errno.value)
    ensures !answer.Bytes? ==> n == -1 && buffer[..] == old(buffer[..])
    ensures Raised(answer) ==> errno.value == ErrnoFor(answer)
    ensures answer.Number? || answer.OtherObject? ==> errno.value == EINVAL
    ensures interp.pending == if Raised(answer) then Leftover(answer) else old(interp.pending)
  {
    gil.RestoreThread(ctx.tstate.value);
    match answer
    {
      case RaisedIo(_) | RaisedOther =>
        errno.Set(interp, answer);
        n := -1;
      case Bytes(bs) =>
        n := |bs|;
        if n > size { n := size; }
        forall i | 0 <= i < n { buffer[i] := bs[i]; }    // memcpy
      case _ =>
        errno.value := EINVAL;
        n := -1;
    }
    var ts := gil.SaveThread();
    ctx.tstate := Some(ts);
  }

  /** write_cb; `answer` is what file.write(...) did. Whatever it returned, all is taken as written. */
  method WriteCb(gil: Gil, ctx: Context, interp: Interp, errno: Errno, size: nat, answer: Answer) returns (n: int)
    requires InOperation(gil, ctx)
    modifies gil, ctx, interp`pending, errno
    ensures InOperation(gil, ctx) && ctx.tstate == old(ctx.tstate)
    ensures Raised(answer) ==> n == -1 && errno.value == ErrnoFor(answer)
    ensures !Raised(answer) ==> n == size && errno.value == old(errno.value)
    ensures interp.pending == if Raised(answer) then Leftover(answer) else old(interp.pending)
  {
    n := -1;
    gil.RestoreThread(ctx.tstate.value);
    if Raised(answer) {
      errno.Set(interp, answer);
    } else {
      n := size;
    }
    var ts := gil.SaveThread();
    ctx.tstate := Some(ts);
  }

  /** seek_cb; `moved` is what file.seek did and `told` what file.tell then did. A position that does not
      fit a C long is reported as -1, errno stays, and the OverflowError stays set. */
  method SeekCb(gil: Gil, ctx: Context, interp: Interp, errno: Errno, moved: Answer, told: Answer) returns (offset: int)
    requires InOperation(gil, ctx)
    modifies gil, ctx, interp`pending, errno
    ensures InOperation(gil, ctx) && ctx.tstate == old(ctx.tstate)
    ensures Raised(moved) ==>
      offset == -1 && errno.value == ErrnoFor(moved) && interp.pending == Leftover(moved)
    ensures !Raised(moved) && Raised(told) ==>
      offset == -1 && errno.value == ErrnoFor(told) && interp.pending == Leftover(told)
    ensures !Raised(moved) && told.Number? ==>
      && offset == (if FitsLong(told.n) then told.n else -1) && errno.value == old(errno.value)
      && interp.pending == if FitsLong(told.n) then old(interp.pending) else Some(OVERFLOW_ERROR)
    ensures !Raised(moved) && (told.Bytes? || told.OtherObject?) ==>
      offset == -1 && errno.value == EINVAL && interp.pending == old(interp.pending)
  {
    offset := -1;
    gil.RestoreThread(ctx.tstate.value);
    if Raised(moved) {
      errno.Set(interp, moved);
    } else if Raised(told) {
      errno.Set(interp, told);
    } else if told.Number? {
      if FitsLong(told.n) {
        offset := told.n;
      } else {
        interp.pending := Some(OVERFLOW_ERROR);
      }
    } else {
      errno.value := EINVAL;
    }
    var ts := gil.SaveThread();
    ctx.tstate := Some(ts);
  }

  // ---------- chunking ----------

  function Concat(chunks: seq<seq<byte>>): seq<byte>
  {
    if chunks == [] then [] else chunks[0] + Concat(chunks[1..])
  }

  /** Each chunk cut off at its limit. */
  function Cut(chunks: seq<seq<byte>>, limits: seq<nat>): (cut: seq<seq<byte>>)
    requires |chunks| == |limits|
    ensures |cut| == |chunks|
  {
    seq(|chunks|, i requires 0 <= i < |chunks| => Fit(chunks[i], limits[i]))
  }

  lemma CutTail(chunks: seq<seq<byte>>, limits: seq<nat>)
    requires |chunks| == |limits| > 0
    ensures Cut(chunks, limits)[1..] == Cut(chunks[1..], limits[1..])
  {
  }

  lemma {:induction false} CutLength(chunks: seq<seq<byte>>, limits: seq<nat>)
    requires |chunks| == |limits|
    ensures |Concat(Cut(chunks, limits))| <= |Concat(chunks)|
    ensures |Concat(Cut(chunks, limits))| == |Concat(chunks)| ==> forall i :: 0 <= i < |chunks| ==> |chunks[i]| <= limits[i]
    decreases |chunks|
  {
    if chunks != [] {
      CutTail(chunks, limits);
      CutLength(chunks[1..], limits[1..]);
      if |Concat(Cut(chunks, limits))| == |Concat(chunks)| {
        forall i | 0 <= i < |chunks|
          ensures |chunks[i]| <= limits[i]
        {
          assert i > 0 ==> chunks[i] == chunks[1..][i - 1] && limits[i] == limits[1..][i - 1];
        }
      }
    }
  }

  /** Nothing is lost between a file and gpgme exactly when no chunk is longer than what the other side
      takes: for reading, the file's answers against the buffer sizes; for writing, gpgme's buffers
      against the counts the file accepts, which `write_cb` does not look at. */
  lemma LosslessIff(chunks: seq<seq<byte>>, limits: seq<nat>)
    requires |chunks| == |limits|
    ensures Concat(Cut(chunks, limits)) == Concat(chunks) <==> forall i :: 0 <= i < |chunks| ==> |chunks[i]| <= limits[i]
  {
    CutLength(chunks, limits);
    if forall i :: 0 <= i < |chunks| ==> |chunks[i]| <= limits[i] {
      assert forall i :: 0 <= i < |chunks| ==> Fit(chunks[i], limits[i]) == chunks[i];
      assert Cut(chunks, limits) == chunks;
    }
  }

  // ---------- a file as a byte buffer ----------

  datatype Whence = SeekSet | SeekCur | SeekEnd

  datatype Op = Read(size: nat) | Write(bs: seq<byte>) | Seek(offset: int, whence: Whence)

  datatype Buffer = Buffer(data: seq<byte>, pos: nat)

  /** What the callback hands back to gpgme. */
  datatype Result = Got(bs: seq<byte>) | Count(n: int)

  function Target(b: Buffer, offset: int, whence: Whence): int
  {
    match whence
    case SeekSet => offset
    case SeekCur => b.pos + offset
    case SeekEnd => |b.data| + offset
  }

  /** The bytes from the position on. */
  function Ahead(b: Buffer): seq<byte> { if b.pos <= |b.data| then b.data[b.pos..] else [] }

  /** The byte at `i` once `bs` has been written at the position; a gap reads as zeros. */
  function ByteAfter(b: Buffer, bs: seq<byte>, i: nat): byte
  {
    if b.pos <= i < b.pos + |bs| then bs[i - b.pos] else if i < |b.data| then b.data[i] else 0
  }

  /** What a byte buffer may do for an operation, by what can be observed: a read gives a part of what
      is ahead, and nothing only if it is asked for nothing or nothing is ahead. */
  predicate BufferStep(b: Buffer, op: Op, b': Buffer, r: Result)
  {
    match op
    case Read(size) =>
      && r.Got? && r.bs <= Ahead(b) && |r.bs| <= size
      && (r.bs == [] ==> size == 0 || Ahead(b) == [])
      && b' == b.(pos := b.pos + |r.bs|)
    case Write(bs) =>
      && r == Count(|bs|) && b'.pos == b.pos + |bs|
      && |b'.data| == (if bs != [] && |b.data| < b.pos + |bs| then b.pos + |bs| else |b.data|)
      && forall i :: 0 <= i < |b'.data| ==> b'.data[i] == ByteAfter(b, bs, i)
    case Seek(offset, whence) =>
      var from := if whence.SeekSet? then 0 else if whence.SeekCur? then b.pos else |b.data|;
      if from + offset < 0 then b' == b && r == Count(-1)
      else b'.data == b.data && b'.pos == from + offset && r == Count(from + offset)
  }

  // ---------- the callbacks on a Python file ----------

  function Put(b: Buffer, bs: seq<byte>): Buffer
  {
    var head := if b.pos <= |b.data| then b.data[..b.pos] else b.data + seq(b.pos - |b.data|, _ => 0 as byte);
    var tail := if b.pos + |bs| <= |b.data| then b.data[b.pos + |bs|..] else [];
    if bs == [] then b else Buffer(head + bs + tail, b.pos + |bs|)
  }

  /** A Python file may move fewer bytes than it is asked for, but reads some while there are any. */
  predicate MayMove(f: Buffer, op: Op, moved: nat)
  {
    match op
    case Read(size) => moved <= Min(size, |Ahead(f)|) && (moved == 0 ==> size == 0 || Ahead(f) == [])
    case Write(bs) => moved <= |bs|
    case Seek(_, _) => true
  }

  /** An operation through the callbacks, on a file that moves `moved` bytes for it. */
  function CallbackOp(f: Buffer, op: Op, moved: nat): (Buffer, Result)
  {
    match op
    case Read(size) =>
      var answer := Fit(Ahead(f), moved);
      (f.(pos := f.pos + |answer|), Got(Fit(answer, size)))
    case Write(bs) => (Put(f, Fit(bs, moved)), Count(|bs|))
    case Seek(offset, whence) =>
      var target := Target(f, offset, whence);
      if target < 0 then (f, Count(-1))
      else (f.(pos := target), Count(if FitsLong(target) then target else -1))
  }

  /** The file refuses a negative position with an exception, which set_errno clears; a position beyond a C
      long leaves one set. */
  function PendingAfterSeek(target: int, pending: Option<Exc>): Option<Exc>
  {
    if target < 0 then None else if FitsLong(target) then pending else Some(OVERFLOW_ERROR)
  }

  /** `CallbackOp` is what the callbacks do with a file whose methods treat `f` like this. */
  method Serve(gil: Gil, ctx: Context, interp: Interp, errno: Errno, f: Buffer, op: Op, moved: nat) returns (f': Buffer, r: Result)
    requires InOperation(gil, ctx)
    modifies gil, ctx, interp`pending, errno
    ensures InOperation(gil, ctx) && ctx.tstate == old(ctx.tstate)
    ensures (f', r) == CallbackOp(f, op, moved)
    ensures interp.pending == if op.Seek? then PendingAfterSeek(Target(f, op.offset, op.whence), old(interp.pending)) else old(interp.pending)
  {
    match op
    case Read(size) =>
      var buffer := new byte[size];
      var answer := Fit(Ahead(f), moved);
      var n := ReadCb(gil, ctx, interp, errno, buffer, size, Bytes(answer));
      return f.(pos := f.pos + |answer|), Got(buffer[..n]);
    case Write(bs) =>
      var n := WriteCb(gil, ctx, interp, errno, |bs|, Number(Min(|bs|, moved)));
      return Put(f, Fit(bs, moved)), Count(n);
    case Seek(offset, whence) =>
      var target := Target(f, offset, whence);
      var answer := if target < 0 then RaisedOther else Number(target);
      var n := SeekCb(gil, ctx, interp, errno, answer, Number(target));
      return if target < 0 then f else f.(pos := target), Count(n);
  }

  /** A write is accepted whole; a seek does not go beyond what a C long holds. */
  predicate Plain(f: Buffer, op: Op, moved: nat)
  {
    match op
    case Read(_) => true
    case Write(bs) => moved == |bs|
    case Seek(offset, whence) => Target(f, offset, whence) < LONG_LIMIT
  }

  lemma PutIsStep(b: Buffer, bs: seq<byte>)
    ensures BufferStep(b, Write(bs), Put(b, bs), Count(|bs|))
  {
    var b' := Put(b, bs);
    if bs != [] {
      forall i | 0 <= i < |b'.data|
        ensures b'.data[i] == ByteAfter(b, bs, i)
      {
      }
    }
  }

  /** One operation through the callbacks is one that a byte buffer may do, exactly when it is plain:
      short reads do no harm, while a short write goes unnoticed. */
  lemma CallbackRefines(f: Buffer, op: Op, moved: nat)
    requires MayMove(f, op, moved)
    ensures var (f', r) := CallbackOp(f, op, moved); BufferStep(f, op, f', r) <==> Plain(f, op, moved)
  {
    match op
    case Read(size) =>
      assert Fit(Fit(Ahead(f), moved), size) == Ahead(f)[..moved];
    case Write(bs) =>
      assert Put(f, Fit(bs, moved)).pos == f.pos + moved;
      if moved == |bs| {
        assert Fit(bs, moved) == bs;
        PutIsStep(f, bs);
      }
    case Seek(offset, whence) =>
  }

  /** A file that keeps one of two bytes: gpgme is told that both are written. */
  lemma ShortWriteGoesUnnoticed()
    ensures var f, op := Buffer([], 0), Write([1, 2]);
            MayMove(f, op, 1) && CallbackOp(f, op, 1) == (Buffer([1], 1), Count(2)) && !BufferStep(f, op, Buffer([1], 1), Count(2))
  {
    var f := Buffer([], 0);
    CallbackRefines(f, Write([1, 2]), 1);
    assert Fit([1, 2], 1) == [1 as byte];
    assert Put(f, [1]).data == [1 as byte];
  }

  function CallbackRun(f: Buffer, ops: seq<Op>, moved: seq<nat>): (Buffer, seq<Result>)
    requires |ops| == |moved|
    decreases |ops|
  {
    if ops == [] then (f, [])
    else
      var (f', r) := CallbackOp(f, ops[0], moved[0]);
      var (end, rs) := CallbackRun(f', ops[1..], moved[1..]);
      (end, [r] + rs)
  }

  /** The file keeps to what files may do, and every operation is plain where it happens. */
  predicate AllPlain(f: Buffer, ops: seq<Op>, moved: seq<nat>)
    requires |ops| == |moved|
    decreases |ops|
  {
    ops == [] ||
    (MayMove(f, ops[0], moved[0]) && Plain(f, ops[0], moved[0])
     && AllPlain(CallbackOp(f, ops[0], moved[0]).0, ops[1..], moved[1..]))
  }

  /** A byte buffer may answer `rs` to `ops` and end as `end`. */
  ghost predicate BufferRun(b: Buffer, ops: seq<Op>, rs: seq<Result>, end: Buffer)
    requires |ops| == |rs|
    decreases |ops|
  {
    if ops == [] then b == end
    else exists b' :: BufferStep(b, ops[0], b', rs[0]) && BufferRun(b', ops[1..], rs[1..], end)
  }

  lemma {:induction false} ResultsCount(f: Buffer, ops: seq<Op>, moved: seq<nat>)
    requires |ops| == |moved|
    ensures |CallbackRun(f, ops, moved).1| == |ops|
    decreases |ops|
  {
    if ops != [] { ResultsCount(CallbackOp(f, ops[0], moved[0]).0, ops[1..], moved[1..]); }
  }

  /** Any mix of reads, writes and seeks on a file that accepts whole writes, and reads as little at a time
      as it likes, is one that a byte buffer may do, in its effect and in every result. */
  lemma {:induction false} RefinesBuffer(f: Buffer, ops: seq<Op>, moved: seq<nat>)
    requires |ops| == |moved| && AllPlain(f, ops, moved)
    ensures var (end, rs) := CallbackRun(f, ops, moved); |rs| == |ops| && BufferRun(f, ops, rs, end)
    decreases |ops|
  {
    if ops != [] {
      var (f', r) := CallbackOp(f, ops[0], moved[0]);
      var (end, rs) := CallbackRun(f', ops[1..], moved[1..]);
      CallbackRefines(f, ops[0], moved[0]);
      RefinesBuffer(f', ops[1..], moved[1..]);
      assert ([r] + rs)[1..] == rs && ([r] + rs)[0] == r;
    }
  }

  // ---------- written and read back ----------

  function Writes(chunks: seq<seq<byte>>): (ops: seq<Op>)
    ensures |ops| == |chunks| && forall i :: 0 <= i < |ops| ==> ops[i] == Write(chunks[i])
  {
    seq(|chunks|, i requires 0 <= i < |chunks| => Write(chunks[i]))
  }

  /** Every write is accepted whole. */
  function Lengths(chunks: seq<seq<byte>>): (moved: seq<nat>)
    ensures |moved| == |chunks| && forall i :: 0 <= i < |moved| ==> moved[i] == |chunks[i]|
  {
    seq(|chunks|, i requires 0 <= i < |chunks| => |chunks[i]|)
  }

  function ReadOps(sizes: seq<nat>): (ops: seq<Op>)
    ensures |ops| == |sizes| && forall i :: 0 <= i < |ops| ==> ops[i] == Read(sizes[i])
  {
    seq(|sizes|, i requires 0 <= i < |sizes| => Read(sizes[i]))
  }

  /** All that the reads among some results returned. */
  function Gathered(rs: seq<Result>): seq<byte>
  {
    if rs == [] then [] else (if rs[0].Got? then rs[0].bs else []) + Gathered(rs[1..])
  }

  lemma PutTwice(f: Buffer, a: seq<byte>, b: seq<byte>)
    ensures Put(Put(f, a), b) == Put(f, a + b)
  {
    PutIsStep(f, a);
    PutIsStep(Put(f, a), b);
    PutIsStep(f, a + b);
    var l, r := Put(Put(f, a), b), Put(f, a + b);
    forall i | 0 <= i < |l.data|
      ensures i < |r.data| && l.data[i] == r.data[i]
    {
      assert i < |Put(f, a).data| ==> Put(f, a).data[i] == ByteAfter(f, a, i);
    }
  }

  lemma {:induction false} WritesJoin(f: Buffer, chunks: seq<seq<byte>>)
    ensures CallbackRun(f, Writes(chunks), Lengths(chunks)).0 == Put(f, Concat(chunks))
    decreases |chunks|
  {
    if chunks != [] {
      assert Writes(chunks)[1..] == Writes(chunks[1..]) && Lengths(chunks)[1..] == Lengths(chunks[1..]);
      assert Fit(chunks[0], |chunks[0]|) == chunks[0];
      WritesJoin(Put(f, chunks[0]), chunks[1..]);
      PutTwice(f, chunks[0], Concat(chunks[1..]));
    }
  }

  /** The file after chunks have been written and the position has been taken back. */
  function Rewound(f: Buffer, chunks: seq<seq<byte>>): Buffer
  {
    CallbackOp(CallbackRun(f, Writes(chunks), Lengths(chunks)).0, Seek(f.pos, SeekSet), 0).0
  }

  lemma AheadOfPut(f: Buffer, bs: seq<byte>)
    ensures Ahead(Put(f, bs).(pos := f.pos)) == bs + if f.pos + |bs| <= |f.data| then f.data[f.pos + |bs|..] else []
  {
  }

  lemma AheadOfRewound(f: Buffer, chunks: seq<seq<byte>>)
    ensures var text := Concat(chunks);
            Ahead(Rewound(f, chunks)) == text + if f.pos + |text| <= |f.data| then f.data[f.pos + |text|..] else []
  {
    WritesJoin(f, chunks);
    AheadOfPut(f, Concat(chunks));
    assert Rewound(f, chunks) == Put(f, Concat(chunks)).(pos := f.pos);
  }

  /** What a schedule of reads returns. */
  function Answers(f: Buffer, sizes: seq<nat>, moved: seq<nat>): (rs: seq<Result>)
    requires |sizes| == |moved|
    ensures |rs| == |sizes|
  {
    ResultsCount(f, ReadOps(sizes), moved);
    CallbackRun(f, ReadOps(sizes), moved).1
  }

  lemma ReadMoves(f: Buffer, size: nat, moved: nat)
    requires MayMove(f, Read(size), moved)
    ensures var (f', r) := CallbackOp(f, Read(size), moved);
            r.Got? && Ahead(f) == r.bs + Ahead(f') && (size > 0 && r.bs == [] ==> Ahead(f) == [])
  {
    assert Fit(Fit(Ahead(f), moved), size) == Ahead(f)[..moved];
  }

  lemma AnswersStep(f: Buffer, sizes: seq<nat>, moved: seq<nat>)
    requires |sizes| == |moved| > 0
    ensures var (f', r) := CallbackOp(f, Read(sizes[0]), moved[0]);
            && Answers(f, sizes, moved) == [r] + Answers(f', sizes[1..], moved[1..])
            && (AllPlain(f, ReadOps(sizes), moved) ==>
                  MayMove(f, Read(sizes[0]), moved[0]) && AllPlain(f', ReadOps(sizes[1..]), moved[1..]))
  {
    assert ReadOps(sizes)[0] == Read(sizes[0]) && ReadOps(sizes)[1..] == ReadOps(sizes[1..]);
  }

  /** Some read of positive size came back empty. */
  predicate SawEnd(sizes: seq<nat>, rs: seq<Result>)
    requires |rs| == |sizes|
  {
    sizes != [] && ((sizes[0] > 0 && rs[0] == Got([])) || SawEnd(sizes[1..], rs[1..]))
  }

  /** For any schedule of buffer sizes, and however little the file returns at a time, what gpgme receives is
      a prefix of the stream from the file's position, and all of it once a read of positive size has come
      back empty. */
  lemma {:induction false} ChunkingInvariance(f: Buffer, sizes: seq<nat>, moved: seq<nat>)
    requires |sizes| == |moved| && AllPlain(f, ReadOps(sizes), moved)
    ensures Gathered(Answers(f, sizes, moved)) <= Ahead(f)
    ensures SawEnd(sizes, Answers(f, sizes, moved)) ==> Gathered(Answers(f, sizes, moved)) == Ahead(f)
    decreases |sizes|
  {
    if sizes != [] {
      var (f', r) := CallbackOp(f, Read(sizes[0]), moved[0]);
      AnswersStep(f, sizes, moved);
      ReadMoves(f, sizes[0], moved[0]);
      ChunkingInvariance(f', sizes[1..], moved[1..]);
      assert Answers(f, sizes, moved)[1..] == Answers(f', sizes[1..], moved[1..]);
    }
  }

  /** What gpgme writes in chunks of any size it reads back, from the same position, in chunks of any other
      size and however little the file returns at a time, followed by what was there behind it. */
  lemma WriteThenRead(f: Buffer, chunks: seq<seq<byte>>, sizes: seq<nat>, moved: seq<nat>)
    requires |sizes| == |moved| && AllPlain(Rewound(f, chunks), ReadOps(sizes), moved)
    requires SawEnd(sizes, Answers(Rewound(f, chunks), sizes, moved))
    ensures var text := Concat(chunks);
            Gathered(Answers(Rewound(f, chunks), sizes, moved))
            == text + if f.pos + |text| <= |f.data| then f.data[f.pos + |text|..] else []
  {
    AheadOfRewound(f, chunks);
    ChunkingInvariance(Rewound(f, chunks), sizes, moved);
  }
}
