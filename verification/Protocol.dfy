/** The protocol between Python's global interpreter lock (GIL), the mutex of each context and the
    thread state saved in the context: `begin_allow_threads`, `end_allow_threads`, `lock_context`,
    `unlock_context` and the callbacks, for any number of threads and contexts.

    Every program point (`Pc`) is a place where the scheduler may switch threads. The value that
    `PyEval_RestoreThread` makes current is read from where the C code reads it: from a local variable
    of the macros, or from `self->tstate` in a step of its own, before the thread waits for the GIL.
    So restoring the wrong thread would show, and so would a value that had changed in between. */
module Protocol {
  import opened Common
  import opened Settings

  /** What gpgme may call back while it runs an operation. */
  datatype CallbackKind = Prompt(w: Slot) | Other   // passphrase and progress; or edit, read, write, seek

  /** One call from Python into a context; the stamps, and the environment's answers to the statements
      of its body so far, are for the history only. */
  datatype Call = Call(c: Cid, req: Request, invoked: nat, acquired: nat, answers: seq<bool>)

  datatype Pc =
    | Run                                   // Python code, holding the GIL
    | Want                                  // Python code, preempted off the GIL
    | LockWait(call: Call, saved: Tid)      // lock_context: GIL released, waiting for the mutex
    | LockGil(call: Call, saved: Tid)       // lock_context: mutex held, waiting for the GIL
    | InBody(call: Call, body: Body)        // between lock_context and unlock_context
    | BodyWant(call: Call, body: Body)      // the same, preempted off the GIL
    | BeginWait(call: Call, saved: Tid)     // begin_allow_threads: waiting for the mutex
    | BeginStore(call: Call, saved: Tid)    // begin_allow_threads: about to store tstate
    | InOp(call: Call)                      // inside gpgme
    | CbEnter(call: Call)                   // callback entered, about to read tstate
    | CbWait(call: Call, saved: Tid)        // callback: waiting for the GIL
    | CbLeave(call: Call, saved: Tid)       // callback left, about to store tstate again
    | EndEnter(call: Call)                  // end_allow_threads: about to read tstate
    | EndWait(call: Call, saved: Tid)       // end_allow_threads: waiting for the GIL
    | EndClear(call: Call)                  // end_allow_threads: about to clear tstate
    | EndUnlock(call: Call)                 // end_allow_threads: about to release the mutex
    | Done

  /** `held` lists, outermost first, the operations in one of whose callbacks this thread is. */
  datatype Thread = Thread(held: seq<Call>, pc: Pc)

  /** A completed call: its answer, when it was invoked, got the mutex and released it, and what the
      environment answered to its statements. */
  datatype Entry = Entry(req: Request, resp: Response, invoked: nat, acquired: nat, released: nat, answers: seq<bool>)

  /** A context; `initial` and `log` record its history and are read by no step. */
  datatype Ctx = Ctx(mutex: Option<Tid>, tstate: Option<Tid>, settings: Settings, initial: Settings, log: seq<Entry>)

  datatype State = State(gil: Option<Tid>, threads: seq<Thread>, ctxs: seq<Ctx>, clock: nat, crashed: bool)

  datatype Action =
    | Preempt                     // the interpreter switches away from running Python code
    | Retake                      // ... and back
    | Invoke(c: Cid, req: Request)
    | Acquire                     // PyThread_acquire_lock succeeds
    | Load                        // assert(self->tstate != NULL), and tstate is read
    | Restore                     // PyEval_RestoreThread succeeds
    | Execute(ok: bool)           // the next statement of a locked body
    | Unlock                      // unlock_context
    | Store                       // self->tstate = ...
    | Callback(kind: CallbackKind) // gpgme calls back
    | Leave                       // the Python callback has returned: PyEval_SaveThread
    | OpReturns                   // gpgme returns
    | Clear                       // self->tstate = NULL
    | Release                     // PyThread_release_lock in end_allow_threads
    | Finish                      // the thread ends

  // ---------- steps ----------

  predicate Enabled(s: State, t: Tid, a: Action)
  {
    && !s.crashed
    && t < |s.threads|
    && var pc := s.threads[t].pc;
       match a
       case Preempt => pc.Run? || pc.InBody?
       case Retake => (pc.Want? || pc.BodyWant?) && s.gil.None?
       case Invoke(c, req) => pc.Run? && c < |s.ctxs|
       case Acquire => (pc.LockWait? || pc.BeginWait?) && pc.call.c < |s.ctxs| && s.ctxs[pc.call.c].mutex.None?
       case Load => (pc.CbEnter? || pc.EndEnter?) && pc.call.c < |s.ctxs|
       case Restore => (pc.LockGil? || pc.CbWait? || pc.EndWait?) && s.gil.None?
       case Execute(ok) =>
         && pc.InBody? && pc.body.Working? && pc.call.c < |s.ctxs|
         && (ok || Refusable(s.ctxs[pc.call.c].settings, pc.call.req, pc.body))
       case Unlock => pc.InBody? && pc.body.Finished? && pc.call.c < |s.ctxs|
       case Store => (pc.BeginStore? || pc.CbLeave?) && pc.call.c < |s.ctxs|
       case Callback(kind) =>
         && pc.InOp? && pc.call.c < |s.ctxs|
         && (kind.Prompt? ==> s.ctxs[pc.call.c].settings.Get(kind.w).registered)
       case Leave => pc.Run? && s.threads[t].held != []
       case OpReturns => pc.InOp?
       case Clear => pc.EndClear? && pc.call.c < |s.ctxs|
       case Release => pc.EndUnlock? && pc.call.c < |s.ctxs|
       case Finish => pc.Run? && s.threads[t].held == []
  }

  function Goto(s: State, t: Tid, pc: Pc): State
    requires t < |s.threads|
  {
    s.(threads := s.threads[t := s.threads[t].(pc := pc)])
  }

  function SetCtx(s: State, c: Cid, ctx: Ctx): State
    requires c < |s.ctxs|
  {
    s.(ctxs := s.ctxs[c := ctx])
  }

  /** A failed assert(), or a call into CPython without the GIL or with no thread state. */
  function Crash(s: State): State { s.(crashed := true) }

  function Apply(s: State, t: Tid, a: Action): State
    requires Enabled(s, t, a)
  {
    Move(s, t, a).(clock := s.clock + 1)
  }

  function Move(s: State, t: Tid, a: Action): State
    requires Enabled(s, t, a)
  {
    var th := s.threads[t];
    match a
    case Preempt =>
      Goto(s, t, if th.pc.Run? then Want else BodyWant(th.pc.call, th.pc.body)).(gil := None)
    case Retake =>
      Goto(s, t, if th.pc.Want? then Run else InBody(th.pc.call, th.pc.body)).(gil := Some(t))
    case Invoke(c, req) =>
      if s.gil.None? then Crash(s)
      else
        var call := Call(c, req, s.clock, s.clock, []);
        Goto(s, t, if req.Operation? then BeginWait(call, s.gil.value) else LockWait(call, s.gil.value)).(gil := None)
    case Acquire =>
      var call := th.pc.call.(acquired := s.clock);
      SetCtx(Goto(s, t, if th.pc.LockWait? then LockGil(call, th.pc.saved) else BeginStore(call, th.pc.saved)),
             call.c, s.ctxs[call.c].(mutex := Some(t)))
    case Load =>
      var tstate := s.ctxs[th.pc.call.c].tstate;
      if tstate.None? then Crash(s)
      else Goto(s, t, if th.pc.CbEnter? then CbWait(th.pc.call, tstate.value) else EndWait(th.pc.call, tstate.value))
    case Restore =>
      if th.pc.LockGil? then Goto(s, t, InBody(th.pc.call, START)).(gil := Some(th.pc.saved))
      else if th.pc.EndWait? then Goto(s, t, EndClear(th.pc.call)).(gil := Some(th.pc.saved))
      else s.(gil := Some(th.pc.saved), threads := s.threads[t := Thread(th.held + [th.pc.call], Run)])
    case Execute(ok) =>
      var ctx := s.ctxs[th.pc.call.c];
      var (settings, body) := BodyStep(ctx.settings, th.pc.call.req, th.pc.body, ok);
      var call := th.pc.call.(answers := th.pc.call.answers + [ok]);
      SetCtx(Goto(s, t, InBody(call, body)), call.c, ctx.(settings := settings))
    case Unlock => Complete(s, t, th.pc.call, th.pc.body.resp)
    case Store =>
      if th.pc.BeginStore? && s.ctxs[th.pc.call.c].tstate.Some? then Crash(s)
      else SetCtx(Goto(s, t, InOp(th.pc.call)), th.pc.call.c, s.ctxs[th.pc.call.c].(tstate := Some(th.pc.saved)))
    case Callback(_) => Goto(s, t, CbEnter(th.pc.call))
    case Leave =>
      if s.gil.None? then Crash(s)
      else
        var n := |th.held| - 1;
        s.(gil := None, threads := s.threads[t := Thread(th.held[..n], CbLeave(th.held[n], s.gil.value))])
    case OpReturns => Goto(s, t, EndEnter(th.pc.call))
    case Clear => SetCtx(Goto(s, t, EndUnlock(th.pc.call)), th.pc.call.c, s.ctxs[th.pc.call.c].(tstate := None))
    case Release => Complete(s, t, th.pc.call, Saw(s.ctxs[th.pc.call.c].settings))
    case Finish => Goto(s, t, Done).(gil := None)
  }

  /** Release the mutex and return to Python; the call is entered in the context's history. */
  function Complete(s: State, t: Tid, call: Call, resp: Response): State
    requires t < |s.threads| && call.c < |s.ctxs|
  {
    var ctx := s.ctxs[call.c];
    var entry := Entry(call.req, resp, call.invoked, call.acquired, s.clock, call.answers);
    SetCtx(Goto(s, t, Run), call.c, ctx.(mutex := None, log := ctx.log + [entry]))
  }

  // ---------- runs ----------

  type Run = seq<(Tid, Action)>

  /** `run` is a possible schedule from `s`, and it ends in `end`. */
  predicate Leads(s: State, run: Run, end: State)
    decreases |run|
  {
    if run == [] then s == end
    else Enabled(s, run[0].0, run[0].1) && Leads(Apply(s, run[0].0, run[0].1), run[1..], end)
  }

  /** Any number of threads about to take the GIL and any number of idle contexts. */
  predicate Initial(s: State)
  {
    && s.gil == None && !s.crashed
    && (forall t :: 0 <= t < |s.threads| ==> s.threads[t] == Thread([], Want))
    && (forall c :: 0 <= c < |s.ctxs| ==>
          && s.ctxs[c].mutex == None && s.ctxs[c].tstate == None && s.ctxs[c].log == []
          && s.ctxs[c].settings == s.ctxs[c].initial && s.ctxs[c].initial.Consistent())
  }

  // ---------- who has what ----------

  /** The program points at which a thread runs under the GIL. */
  predicate Active(pc: Pc) { pc.Run? || pc.InBody? || pc.EndClear? || pc.EndUnlock? }

  /** The program points at which the mutex of `pc.call.c` is held. */
  predicate PcHolds(pc: Pc)
  {
    || pc.LockGil? || pc.InBody? || pc.BodyWant? || pc.BeginStore? || pc.InOp? || pc.CbEnter? || pc.CbWait?
    || pc.CbLeave? || pc.EndEnter? || pc.EndWait? || pc.EndClear? || pc.EndUnlock?
  }

  /** The program points between the store and the clearing of tstate. */
  predicate PcInOp(pc: Pc)
  {
    pc.InOp? || pc.CbEnter? || pc.CbWait? || pc.CbLeave? || pc.EndEnter? || pc.EndWait? || pc.EndClear?
  }

  predicate Waiting(pc: Pc) { pc.LockWait? || pc.BeginWait? }

  predicate Suspended(th: Thread, c: Cid) { exists i :: 0 <= i < |th.held| && th.held[i].c == c }

  predicate Owns(th: Thread, c: Cid) { Suspended(th, c) || (PcHolds(th.pc) && th.pc.call.c == c) }

  /** The thread is between storing and clearing the context's tstate, perhaps in a callback. */
  predicate Inside(th: Thread, c: Cid) { Suspended(th, c) || (PcInOp(th.pc) && th.pc.call.c == c) }

  // ---------- the invariant ----------

  predicate PcOk(s: State, t: Tid, th: Thread)
  {
    var pc := th.pc;
    && (pc.Done? ==> th.held == [])
    && (Waiting(pc) || PcHolds(pc) ==> pc.call.c < |s.ctxs|)
    && (PcHolds(pc) ==>
          && !Suspended(th, pc.call.c)
          && s.ctxs[pc.call.c].mutex == Some(t)
          && s.ctxs[pc.call.c].tstate == (if PcInOp(pc) then Some(t) else None))
    && (pc.LockWait? || pc.LockGil? || pc.BeginWait? || pc.BeginStore? || pc.CbWait? || pc.CbLeave? || pc.EndWait? ==>
          pc.saved == t)
    && (pc.LockWait? || pc.LockGil? || pc.InBody? || pc.BodyWant? ==> !pc.call.req.Operation?)
    && (pc.BeginWait? || pc.BeginStore? || PcInOp(pc) || pc.EndUnlock? ==> pc.call.req.Operation?)
  }

  predicate HeldOk(s: State, t: Tid, held: seq<Call>)
  {
    && (forall i :: 0 <= i < |held| ==>
          && held[i].c < |s.ctxs| && held[i].req.Operation?
          && s.ctxs[held[i].c].mutex == Some(t) && s.ctxs[held[i].c].tstate == Some(t))
    && (forall i, j :: 0 <= i < j < |held| ==> held[i].c != held[j].c)
  }

  predicate ThreadOk(s: State, t: Tid)
    requires t < |s.threads|
  {
    && PcOk(s, t, s.threads[t])
    && HeldOk(s, t, s.threads[t].held)
    && (Active(s.threads[t].pc) <==> s.gil == Some(t))
  }

  predicate CtxOk(s: State, c: Cid)
    requires c < |s.ctxs|
  {
    match s.ctxs[c].mutex
    case None => s.ctxs[c].tstate == None
    case Some(t) => t < |s.threads| && Owns(s.threads[t], c)
  }

  predicate Inv(s: State)
  {
    && !s.crashed
    && (s.gil.Some? ==> s.gil.value < |s.threads|)
    && (forall t :: 0 <= t < |s.threads| ==> ThreadOk(s, t))
    && (forall c :: 0 <= c < |s.ctxs| ==> CtxOk(s, c))
  }

  lemma InitialInv(s: State)
    requires Initial(s)
    ensures Inv(s)
  {
  }

  /** Entering a callback pushes the operation on the thread's stack; leaving it pops it. */
  lemma EnterOk(s: State, t: Tid)
    requires Inv(s) && Enabled(s, t, Restore)
    ensures !Apply(s, t, Restore).crashed && ThreadOk(Apply(s, t, Restore), t)
  {
    assert ThreadOk(s, t);
    var th, th' := s.threads[t], Apply(s, t, Restore).threads[t];
    if th.pc.CbWait? {
      assert th'.held == th.held + [th.pc.call];
      assert HeldOk(Apply(s, t, Restore), t, th'.held);
    } else {
      assert th'.held == th.held;
    }
  }

  lemma LeaveOk(s: State, t: Tid)
    requires Inv(s) && Enabled(s, t, Leave)
    ensures !Apply(s, t, Leave).crashed && ThreadOk(Apply(s, t, Leave), t)
  {
    assert ThreadOk(s, t);
    var th, th' := s.threads[t], Apply(s, t, Leave).threads[t];
    assert th'.held == th.held[..|th.held| - 1];
    assert HeldOk(Apply(s, t, Leave), t, th'.held);
  }

  /** The saved thread state is there, and is the thread's own. */
  lemma LoadOk(s: State, t: Tid)
    requires Inv(s) && Enabled(s, t, Load)
    ensures !Apply(s, t, Load).crashed && ThreadOk(Apply(s, t, Load), t)
  {
    assert ThreadOk(s, t);
    assert Apply(s, t, Load).threads[t].held == s.threads[t].held && Apply(s, t, Load).ctxs == s.ctxs;
  }

  /** The steps that give up or take the GIL and touch no context. */
  lemma GilStepOk(s: State, t: Tid, a: Action)
    requires Inv(s) && Enabled(s, t, a)
    requires a.Preempt? || a.Retake? || a.Invoke? || a.Finish? || a.OpReturns? || a.Callback?
    ensures !Apply(s, t, a).crashed && ThreadOk(Apply(s, t, a), t)
  {
    assert ThreadOk(s, t);
    assert Apply(s, t, a).threads[t].held == s.threads[t].held && Apply(s, t, a).ctxs == s.ctxs;
  }

  /** A step that moves thread `t` within or out of its own critical section on `c` leaves the
      operations it is suspended in alone. */
  lemma HeldKept(s: State, s': State, t: Tid, c: Cid)
    requires Inv(s) && t < |s.threads| == |s'.threads| && |s'.ctxs| == |s.ctxs|
    requires s'.threads[t].held == s.threads[t].held && !Suspended(s.threads[t], c)
    requires forall d :: 0 <= d < |s.ctxs| && d != c ==> s'.ctxs[d] == s.ctxs[d]
    ensures HeldOk(s', t, s'.threads[t].held)
  {
    assert ThreadOk(s, t);
    assert forall i :: 0 <= i < |s.threads[t].held| ==> s.threads[t].held[i].c != c;
  }

  lemma AcquireOk(s: State, t: Tid)
    requires Inv(s) && Enabled(s, t, Acquire)
    ensures !Apply(s, t, Acquire).crashed && ThreadOk(Apply(s, t, Acquire), t)
  {
    var c := s.threads[t].pc.call.c;
    assert ThreadOk(s, t) && CtxOk(s, c);
    HeldKept(s, Apply(s, t, Acquire), t, c);
  }

  lemma StoreOk(s: State, t: Tid)
    requires Inv(s) && Enabled(s, t, Store)
    ensures !Apply(s, t, Store).crashed && ThreadOk(Apply(s, t, Store), t)
  {
    assert ThreadOk(s, t);
    HeldKept(s, Apply(s, t, Store), t, s.threads[t].pc.call.c);
  }

  /** Working in the critical section, and giving it up. */
  lemma OwnerStepOk(s: State, t: Tid, a: Action)
    requires Inv(s) && Enabled(s, t, a) && (a.Execute? || a.Unlock? || a.Clear? || a.Release?)
    ensures !Apply(s, t, a).crashed && ThreadOk(Apply(s, t, a), t)
  {
    assert ThreadOk(s, t);
    HeldKept(s, Apply(s, t, a), t, s.threads[t].pc.call.c);
  }

  /** The thread that moves keeps its own clauses. */
  lemma MoverOk(s: State, t: Tid, a: Action)
    requires Inv(s) && Enabled(s, t, a)
    ensures !Apply(s, t, a).crashed && ThreadOk(Apply(s, t, a), t)
  {
    match a
    case Load => LoadOk(s, t);
    case Restore => EnterOk(s, t);
    case Leave => LeaveOk(s, t);
    case Acquire => AcquireOk(s, t);
    case Store => StoreOk(s, t);
    case Execute(_) | Unlock | Clear | Release => OwnerStepOk(s, t, a);
    case _ => GilStepOk(s, t, a);
  }

  /** What a step leaves alone: contexts nobody can touch because another thread has their mutex. */
  lemma Untouched(s: State, t: Tid, a: Action, c: Cid)
    requires Inv(s) && Enabled(s, t, a) && c < |s.ctxs|
    ensures |Apply(s, t, a).threads| == |s.threads| && |Apply(s, t, a).ctxs| == |s.ctxs|
    ensures forall u :: 0 <= u < |s.threads| && u != t ==> Apply(s, t, a).threads[u] == s.threads[u]
    ensures s.ctxs[c].mutex.Some? && s.ctxs[c].mutex != Some(t) ==> Apply(s, t, a).ctxs[c] == s.ctxs[c]
  {
    assert ThreadOk(s, t);
  }

  lemma OtherOk(s: State, t: Tid, a: Action, u: Tid)
    requires Inv(s) && Enabled(s, t, a) && u < |s.threads| && u != t
    ensures u < |Apply(s, t, a).threads| && ThreadOk(Apply(s, t, a), u)
  {
    assert ThreadOk(s, t) && ThreadOk(s, u);
    var s', th := Apply(s, t, a), s.threads[u];
    MoverOk(s, t, a);
    forall c | 0 <= c < |s.ctxs|
      ensures s.ctxs[c].mutex == Some(u) ==> s'.ctxs[c] == s.ctxs[c]
    {
      Untouched(s, t, a, c);
    }
    assert s'.threads[u] == th && |s'.ctxs| == |s.ctxs|;
    assert PcOk(s', u, th);
    assert HeldOk(s', u, th.held);
  }

  lemma LeaveKeeps(s: State, t: Tid, c: Cid)
    requires Inv(s) && Enabled(s, t, Leave) && Owns(s.threads[t], c)
    ensures Owns(Apply(s, t, Leave).threads[t], c)
  {
    assert ThreadOk(s, t);
    var th, th' := s.threads[t], Apply(s, t, Leave).threads[t];
    var i :| 0 <= i < |th.held| && th.held[i].c == c;
    assert i < |th.held| - 1 ==> th'.held[i].c == c;
  }

  lemma EnterKeeps(s: State, t: Tid, c: Cid)
    requires Inv(s) && Enabled(s, t, Restore) && Owns(s.threads[t], c)
    ensures Owns(Apply(s, t, Restore).threads[t], c)
  {
    assert ThreadOk(s, t);
    var th, th' := s.threads[t], Apply(s, t, Restore).threads[t];
    assert forall i :: 0 <= i < |th.held| ==> th'.held[i] == th.held[i];
    assert th.pc.CbWait? ==> th'.held[|th.held|] == th.pc.call;
  }

  lemma OthersKeep(s: State, t: Tid, a: Action, c: Cid)
    requires Inv(s) && Enabled(s, t, a) && !a.Leave? && !a.Restore? && Owns(s.threads[t], c) && c < |s.ctxs|
    requires Apply(s, t, a).ctxs[c].mutex == Some(t)
    ensures Owns(Apply(s, t, a).threads[t], c)
  {
    assert ThreadOk(s, t);
    assert Apply(s, t, a).threads[t].held == s.threads[t].held;
  }

  /** What thread `t` owns it still owns after its step, or has just released. */
  lemma OwnerKeeps(s: State, t: Tid, a: Action, c: Cid)
    requires Inv(s) && Enabled(s, t, a) && c < |s.ctxs| && s.ctxs[c].mutex == Some(t)
    ensures Apply(s, t, a).ctxs[c].mutex == Some(t) ==> Owns(Apply(s, t, a).threads[t], c)
  {
    assert CtxOk(s, c);
    if a.Leave? {
      LeaveKeeps(s, t, c);
    } else if a.Restore? {
      EnterKeeps(s, t, c);
    } else if Apply(s, t, a).ctxs[c].mutex == Some(t) {
      OthersKeep(s, t, a, c);
    }
  }

  lemma ContextOk(s: State, t: Tid, a: Action, c: Cid)
    requires Inv(s) && Enabled(s, t, a) && c < |s.ctxs|
    ensures c < |Apply(s, t, a).ctxs| && CtxOk(Apply(s, t, a), c)
  {
    assert CtxOk(s, c) && ThreadOk(s, t);
    Untouched(s, t, a, c);
    if s.ctxs[c].mutex == Some(t) {
      OwnerKeeps(s, t, a, c);
    } else if s.ctxs[c].mutex.Some? {
      assert s.ctxs[c].mutex.value != t;
    }
  }

  /** Every step of every thread keeps the invariant. */
  lemma StepInv(s: State, t: Tid, a: Action)
    requires Inv(s) && Enabled(s, t, a)
    ensures Inv(Apply(s, t, a))
  {
    var s' := Apply(s, t, a);
    MoverOk(s, t, a);
    forall u | 0 <= u < |s'.threads|
      ensures ThreadOk(s', u)
    {
      if u != t { OtherOk(s, t, a, u); }
    }
    forall c | 0 <= c < |s'.ctxs|
      ensures CtxOk(s', c)
    {
      ContextOk(s, t, a, c);
    }
  }

  lemma {:induction false} RunInv(s: State, run: Run, end: State)
    requires Inv(s) && Leads(s, run, end)
    ensures Inv(end)
    decreases |run|
  {
    if run != [] {
      StepInv(s, run[0].0, run[0].1);
      RunInv(Apply(s, run[0].0, run[0].1), run[1..], end);
    }
  }

  // ---------- what the invariant says about every reachable state ----------

  /** Mutual exclusion, in every interleaving: a mutex has one owner, the GIL one user, no thread runs
      under the GIL while it waits for a mutex, and a saved thread state is that of the mutex owner, which
      is inside an operation on that context. Nothing ever fails an assert() or enters CPython without its own thread state. */
  lemma Safety(s0: State, run: Run, s: State)
    requires Initial(s0) && Leads(s0, run, s)
    ensures !s.crashed
    ensures forall t, u, c :: 0 <= t < |s.threads| && 0 <= u < |s.threads| && 0 <= c < |s.ctxs| ==>
              Owns(s.threads[t], c) && Owns(s.threads[u], c) ==> t == u
    ensures forall t, u :: 0 <= t < |s.threads| && 0 <= u < |s.threads| ==>
              Active(s.threads[t].pc) && Active(s.threads[u].pc) ==> t == u
    ensures forall t :: 0 <= t < |s.threads| && s.gil == Some(t) ==> !Waiting(s.threads[t].pc)
    ensures forall c :: 0 <= c < |s.ctxs| && s.ctxs[c].tstate.Some? ==>
              && s.ctxs[c].mutex == s.ctxs[c].tstate
              && s.ctxs[c].tstate.value < |s.threads|
              && Inside(s.threads[s.ctxs[c].tstate.value], c)
  {
    InitialInv(s0);
    RunInv(s0, run, s);
    forall t, c | 0 <= t < |s.threads| && 0 <= c < |s.ctxs| && Owns(s.threads[t], c)
      ensures s.ctxs[c].mutex == Some(t)
    {
      assert ThreadOk(s, t);
    }
    forall t, u, c | 0 <= t < |s.threads| && 0 <= u < |s.threads| && 0 <= c < |s.ctxs|
                     && Owns(s.threads[t], c) && Owns(s.threads[u], c)
      ensures t == u
    {
      assert Some(t) == s.ctxs[c].mutex == Some(u);
    }
    forall t | 0 <= t < |s.threads|
      ensures Active(s.threads[t].pc) <==> s.gil == Some(t)
    {
      assert ThreadOk(s, t);
    }
    forall c | 0 <= c < |s.ctxs| && s.ctxs[c].tstate.Some?
      ensures s.ctxs[c].mutex == s.ctxs[c].tstate
      ensures s.ctxs[c].tstate.value < |s.threads| && Inside(s.threads[s.ctxs[c].tstate.value], c)
    {
      assert CtxOk(s, c);
      assert ThreadOk(s, s.ctxs[c].mutex.value);
    }
  }

  /** Whatever runs in between, entering a callback or leaving an operation makes the thread that
      issued the operation current again: the value read from `self->tstate` is its own, and
      `self->tstate` is still the same when the thread at last gets the GIL. */
  lemma RestoresIssuer(s0: State, run: Run, s: State, t: Tid)
    requires Initial(s0) && Leads(s0, run, s) && Enabled(s, t, Restore)
    ensures Apply(s, t, Restore).gil == Some(t) && Active(Apply(s, t, Restore).threads[t].pc)
    ensures var pc := s.threads[t].pc;
            pc.saved == t && (!pc.LockGil? ==> pc.call.c < |s.ctxs| && s.ctxs[pc.call.c].tstate == Some(t))
  {
    InitialInv(s0);
    RunInv(s0, run, s);
    assert ThreadOk(s, t);
  }
}
