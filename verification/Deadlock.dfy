/** When can the threads of the protocol get stuck? Exactly when some of them wait, for good, for
    mutexes that they themselves hold. */
module Deadlock {
  import opened Common
  import opened Settings
  import opened Protocol
  import opened Linearizability

  /** Thread `t` waits for a mutex whose holder is in `ts`. */
  predicate Blocked(s: State, t: Tid, ts: set<Tid>)
  {
    && t < |s.threads| && Waiting(s.threads[t].pc) && s.threads[t].pc.call.c < |s.ctxs|
    && s.ctxs[s.threads[t].pc.call.c].mutex.Some?
    && s.ctxs[s.threads[t].pc.call.c].mutex.value in ts
  }

  /** A set of threads each of which waits for a mutex held inside the set. */
  predicate Deadlocked(s: State, ts: set<Tid>)
  {
    ts != {} && forall t {:trigger Blocked(s, t, ts)} :: t in ts ==> Blocked(s, t, ts)
  }

  predicate AllDone(s: State) { forall t :: 0 <= t < |s.threads| ==> s.threads[t].pc.Done? }

  /** Steps that bring the work in hand to an end: no new call, no callback, no switch off the GIL. */
  predicate Finishing(a: Action) { !a.Preempt? && !a.Invoke? && !a.Callback? }

  // ---------- a deadlock never resolves ----------

  /** The threads of `ts` stand where they stood. */
  predicate Frozen(s: State, s': State, ts: set<Tid>)
  {
    forall t :: t in ts ==> t < |s.threads| && t < |s'.threads| && s'.threads[t] == s.threads[t]
  }

  lemma BlockedStays(s: State, t: Tid, a: Action, s': State, u: Tid, ts: set<Tid>)
    requires Inv(s) && Enabled(s, t, a) && s' == Apply(s, t, a)
    requires t !in ts && u in ts && Blocked(s, u, ts)
    ensures Blocked(s', u, ts) && s'.threads[u] == s.threads[u]
  {
    Untouched(s, t, a, s.threads[u].pc.call.c);
  }

  lemma BlockedIsStill(s: State, t: Tid, a: Action, ts: set<Tid>)
    requires Enabled(s, t, a) && Deadlocked(s, ts)
    ensures t !in ts
  {
    assert t in ts ==> Blocked(s, t, ts);
  }

  lemma StepKeepsDeadlock(s: State, t: Tid, a: Action, s': State, ts: set<Tid>)
    requires Inv(s) && Enabled(s, t, a) && s' == Apply(s, t, a) && Deadlocked(s, ts)
    ensures t !in ts && Deadlocked(s', ts) && Frozen(s, s', ts)
  {
    BlockedIsStill(s, t, a, ts);
    forall u | u in ts
      ensures Blocked(s', u, ts) && u < |s.threads| && s'.threads[u] == s.threads[u]
    {
      assert Blocked(s, u, ts);
      BlockedStays(s, t, a, s', u, ts);
    }
  }

  /** No schedule ever moves a deadlocked thread: none of their calls completes in any run. */
  lemma {:induction false} DeadlockIsForever(s: State, run: Run, end: State, ts: set<Tid>)
    requires Inv(s) && Leads(s, run, end) && Deadlocked(s, ts)
    ensures Deadlocked(end, ts) && Frozen(s, end, ts)
    decreases |run|
  {
    if run != [] {
      var (t, a) := run[0];
      var s' := Apply(s, t, a);
      StepKeepsDeadlock(s, t, a, s', ts);
      StepInv(s, t, a);
      DeadlockIsForever(s', run[1..], end, ts);
    } else {
      assert forall t :: t in ts ==> Blocked(s, t, ts);
    }
  }

  /** The mutex is not recursive: Python code that runs in a callback of an operation on `c` and
      calls a getter, a setter or an operation of `c` itself never gets its call back. */
  lemma ReentrantCallHangs(s: State, t: Tid, c: Cid, req: Request, run: Run, end: State)
    requires Inv(s) && Enabled(s, t, Invoke(c, req)) && Suspended(s.threads[t], c)
    requires Leads(Apply(s, t, Invoke(c, req)), run, end)
    ensures t < |end.threads| && end.threads[t] == Apply(s, t, Invoke(c, req)).threads[t] && Waiting(end.threads[t].pc)
  {
    var s' := Apply(s, t, Invoke(c, req));
    assert ThreadOk(s, t);
    assert Blocked(s', t, {t});
    StepInv(s, t, Invoke(c, req));
    DeadlockIsForever(s', run, end, {t});
    assert t in {t};
  }

  // ---------- without a deadlock everything can finish ----------

  function PcWork(pc: Pc): nat
  {
    match pc
    case Done => 0
    case Run => 1
    case Want => 2
    case EndUnlock(_) => 2
    case EndClear(_) => 3
    case EndWait(_, _) => 4
    case EndEnter(_) => 5
    case InOp(_) => 6
    case CbLeave(_, _) => 7
    case BeginStore(_, _) => 7
    case BeginWait(_, _) => 8
    case CbWait(_, _) => 9
    case CbEnter(_) => 10
    case InBody(_, _) => 2
    case BodyWant(_, _) => 3
    case LockGil(_, _) => 4
    case LockWait(_, _) => 5
  }

  function ThreadWork(th: Thread): nat { PcWork(th.pc) + 7 * |th.held| }

  /** `b` bounds the lists that the bodies of the calls in hand go through. */
  predicate ShortCall(pc: Pc, b: nat)
  {
    (Waiting(pc) || PcHolds(pc)) && pc.call.req.SetSigners? ==> |pc.call.req.items| <= b
  }

  predicate Short(s: State, b: nat)
  {
    && (forall t :: 0 <= t < |s.threads| ==> ShortCall(s.threads[t].pc, b))
    && (forall c :: 0 <= c < |s.ctxs| ==> |s.ctxs[c].settings.signers| <= b)
  }

  function ListLength(pc: Pc): nat
  {
    if (Waiting(pc) || PcHolds(pc)) && pc.call.req.SetSigners? then |pc.call.req.items| else 0
  }

  function Max(a: nat, b: nat): nat { if a < b then b else a }

  function LongestCall(ths: seq<Thread>): (b: nat)
    ensures forall t :: 0 <= t < |ths| ==> ShortCall(ths[t].pc, b)
  {
    if ths == [] then 0 else Max(ListLength(ths[0].pc), LongestCall(ths[1..]))
  }

  function LongestSigners(ctxs: seq<Ctx>): (b: nat)
    ensures forall c :: 0 <= c < |ctxs| ==> |ctxs[c].settings.signers| <= b
  {
    if ctxs == [] then 0 else Max(|ctxs[0].settings.signers|, LongestSigners(ctxs[1..]))
  }

  function Longest(s: State): (b: nat)
    ensures Short(s, b)
  {
    Max(LongestCall(s.threads), LongestSigners(s.ctxs))
  }

  /** The thread that moves stays with its call, or takes up an operation or no call at all. */
  lemma MoverShort(s: State, t: Tid, a: Action, b: nat)
    requires Inv(s) && Enabled(s, t, a) && Finishing(a) && ShortCall(s.threads[t].pc, b)
    ensures ShortCall(Apply(s, t, a).threads[t].pc, b)
  {
    assert ThreadOk(s, t);
  }

  /** set_signers stores no more keys than it was given items. */
  lemma SignersShort(s: State, t: Tid, a: Action, b: nat)
    requires HistInv(s) && Short(s, b) && Enabled(s, t, a) && a.Execute?
    ensures |Apply(s, t, a).ctxs[s.threads[t].pc.call.c].settings.signers| <= b
  {
    var pc := s.threads[t].pc;
    var st := s.ctxs[pc.call.c].settings;
    assert PcHist(s, pc) && ShortCall(pc, b) && |st.signers| <= b;
    assert ThreadOk(s, t);
    if pc.call.req.SetSigners? {
      assert InProgress(Now(s.ctxs[pc.call.c]), pc.call.req, pc.body, st);
      assert |BodyStep(st, pc.call.req, pc.body, a.ok).0.signers| <= |pc.call.req.items|;
    } else {
      assert BodyStep(st, pc.call.req, pc.body, a.ok).0.signers == st.signers;
    }
  }

  /** Finishing steps bring in no new list. */
  lemma ShortStep(s: State, t: Tid, a: Action, b: nat)
    requires HistInv(s) && Short(s, b) && Enabled(s, t, a) && Finishing(a)
    ensures Short(Apply(s, t, a), b)
  {
    var s' := Apply(s, t, a);
    MoverShort(s, t, a, b);
    forall u | 0 <= u < |s'.threads|
      ensures ShortCall(s'.threads[u].pc, b)
    {
      assert ShortCall(s.threads[u].pc, b);
    }
    forall c | 0 <= c < |s'.ctxs|
      ensures |s'.ctxs[c].settings.signers| <= b
    {
      assert |s.ctxs[c].settings.signers| <= b;
      if !Touches(s, t, a, c) {
        Untouching(s, t, a, c);
      } else if a.Execute? {
        SignersShort(s, t, a, b);
      }
    }
  }

  /** Statements that a body can still execute, if its lists are no longer than `b`. */
  function StatementsLeft(pc: Pc, b: nat): (n: nat)
    ensures n <= b + 3
  {
    if (pc.InBody? || pc.BodyWant?) && pc.body.Working? then
      if pc.body.stage < b + 3 then b + 3 - pc.body.stage else 1
    else 0
  }

  function ThreadLeft(th: Thread, b: nat): nat { (b + 4) * ThreadWork(th) + StatementsLeft(th.pc, b) }

  /** A bound on the finishing steps that are left, summed over the threads. */
  function Left(ths: seq<Thread>, b: nat): nat
  {
    if ths == [] then 0 else ThreadLeft(ths[0], b) + Left(ths[1..], b)
  }

  lemma {:induction false} LeftUpdate(ths: seq<Thread>, t: Tid, th: Thread, b: nat)
    requires t < |ths|
    ensures Left(ths[t := th], b) + ThreadLeft(ths[t], b) == Left(ths, b) + ThreadLeft(th, b)
  {
    if t == 0 {
      assert ths[t := th][1..] == ths[1..];
    } else {
      assert ths[t := th][1..] == ths[1..][t - 1 := th];
      LeftUpdate(ths[1..], t - 1, th, b);
    }
  }

  /** Entering and leaving a callback moves an operation between the program point and the stack. */
  lemma CallbackStepShrinks(s: State, t: Tid, a: Action)
    requires Inv(s) && Enabled(s, t, a) && (a.Restore? || a.Leave?)
    ensures ThreadWork(Apply(s, t, a).threads[t]) < ThreadWork(s.threads[t])
  {
    MoverOk(s, t, a);
  }

  lemma OtherStepShrinks(s: State, t: Tid, a: Action)
    requires Inv(s) && Enabled(s, t, a) && Finishing(a) && !a.Restore? && !a.Leave? && !a.Execute?
    ensures ThreadWork(Apply(s, t, a).threads[t]) < ThreadWork(s.threads[t])
  {
    MoverOk(s, t, a);
  }

  lemma {:induction false} TimesLess(k: nat, m: nat, n: nat)
    requires m < n
    ensures k * m + k <= k * n
    decreases n
  {
    assert k * n == k * (n - 1) + k;
    if m < n - 1 { TimesLess(k, m, n - 1); }
  }

  lemma LessWork(th: Thread, th': Thread, b: nat)
    requires ThreadWork(th') < ThreadWork(th)
    ensures ThreadLeft(th', b) < ThreadLeft(th, b)
  {
    TimesLess(b + 4, ThreadWork(th'), ThreadWork(th));
  }

  lemma StatementShrinks(s: State, t: Tid, a: Action, b: nat)
    requires Short(s, b) && Enabled(s, t, a) && a.Execute?
    ensures ThreadLeft(Apply(s, t, a).threads[t], b) < ThreadLeft(s.threads[t], b)
  {
    var pc := s.threads[t].pc;
    assert ShortCall(pc, b);
    var (_, body) := BodyStep(s.ctxs[pc.call.c].settings, pc.call.req, pc.body, a.ok);
    assert StatementsLeft(InBody(pc.call, body), b) < StatementsLeft(pc, b);
  }

  lemma FinishingStepShrinks(s: State, t: Tid, a: Action, b: nat)
    requires Inv(s) && Short(s, b) && Enabled(s, t, a) && Finishing(a)
    ensures Left(Apply(s, t, a).threads, b) < Left(s.threads, b)
  {
    var s' := Apply(s, t, a);
    assert s'.threads == s.threads[t := s'.threads[t]];
    LeftUpdate(s.threads, t, s'.threads[t], b);
    if a.Execute? {
      StatementShrinks(s, t, a, b);
    } else {
      if a.Restore? || a.Leave? { CallbackStepShrinks(s, t, a); } else { OtherStepShrinks(s, t, a); }
      LessWork(s.threads[t], s'.threads[t], b);
    }
  }

  /** Every run of finishing steps, in whatever order the threads take them, is short. */
  lemma {:induction false} FinishingRunBound(s: State, run: Run, end: State, b: nat)
    requires HistInv(s) && Short(s, b) && Leads(s, run, end) && OnlyFinishing(run)
    ensures |run| + Left(end.threads, b) <= Left(s.threads, b)
    decreases |run|
  {
    if run != [] {
      var (t, a) := run[0];
      StepHist(s, t, a);
      ShortStep(s, t, a, b);
      FinishingStepShrinks(s, t, a, b);
      FinishingRunBound(Apply(s, t, a), run[1..], end, b);
    }
  }

  /** From every reachable state, no run goes on for longer than this without a new call, a callback or
      a switch off the GIL. */
  lemma FinishingEnds(s0: State, before: Run, s: State, run: Run, end: State)
    requires Initial(s0) && Leads(s0, before, s) && Leads(s, run, end) && OnlyFinishing(run)
    ensures |run| <= Left(s.threads, Longest(s))
  {
    InitialHist(s0);
    RunHist(s0, before, s);
    FinishingRunBound(s, run, end, Longest(s));
  }

  /** The action a thread takes next when nothing new is asked of it. */
  function NextAction(s: State, t: Tid): Action
    requires t < |s.threads|
  {
    match s.threads[t].pc
    case Run => if s.threads[t].held == [] then Action.Finish else Leave
    case Want | BodyWant(_, _) => Retake
    case LockWait(_, _) | BeginWait(_, _) => Acquire
    case CbEnter(_) | EndEnter(_) => Load
    case LockGil(_, _) | CbWait(_, _) | EndWait(_, _) => Restore
    case InBody(_, body) => if body.Working? then Execute(true) else Unlock
    case BeginStore(_, _) | CbLeave(_, _) => Store
    case InOp(_) => OpReturns
    case EndClear(_) => Clear
    case EndUnlock(_) => Release
    case Done => Preempt
  }

  function Unfinished(s: State): set<Tid>
  {
    set t | 0 <= t < |s.threads| && !s.threads[t].pc.Done?
  }

  lemma HolderUnfinished(s: State, c: Cid)
    requires Inv(s) && c < |s.ctxs|
    ensures s.ctxs[c].mutex.Some? ==> s.ctxs[c].mutex.value in Unfinished(s)
  {
    assert CtxOk(s, c);
    if s.ctxs[c].mutex.Some? { assert ThreadOk(s, s.ctxs[c].mutex.value); }
  }

  /** The threads that have not finished are stuck together, or one of them can take a finishing step. */
  lemma SomeoneMoves(s: State) returns (t: Tid, a: Action)
    requires Inv(s) && !AllDone(s) && !Deadlocked(s, Unfinished(s))
    ensures Enabled(s, t, a) && Finishing(a)
  {
    if s.gil.Some? {
      t := s.gil.value;
      assert ThreadOk(s, t);
      a := NextAction(s, t);
    } else {
      var start :| 0 <= start < |s.threads| && !s.threads[start].pc.Done?;
      assert start in Unfinished(s);
      t :| t in Unfinished(s) && !Blocked(s, t, Unfinished(s));
      assert ThreadOk(s, t);
      if Waiting(s.threads[t].pc) { HolderUnfinished(s, s.threads[t].pc.call.c); }
      a := NextAction(s, t);
    }
  }

  /** A finishing step cannot close a circle of waiting threads: only a new call makes a thread wait. */
  lemma FinishingMakesNoDeadlock(s: State, t: Tid, a: Action, s': State, ts: set<Tid>)
    requires Inv(s) && Enabled(s, t, a) && Finishing(a) && s' == Apply(s, t, a)
    requires Deadlocked(s', ts)
    ensures Deadlocked(s, ts)
  {
    MoverOk(s, t, a);
    assert t in ts ==> Blocked(s', t, ts);
    forall u | u in ts
      ensures Blocked(s, u, ts)
    {
      assert Blocked(s', u, ts);
      Untouched(s, t, a, s'.threads[u].pc.call.c);
    }
  }

  ghost predicate Free(s: State) { forall ts: set<Tid> :: !Deadlocked(s, ts) }

  predicate OnlyFinishing(run: Run) { forall i :: 0 <= i < |run| ==> Finishing(run[i].1) }

  lemma FinishingKeepsFree(s: State, t: Tid, a: Action, s': State)
    requires Inv(s) && Free(s) && Enabled(s, t, a) && Finishing(a) && s' == Apply(s, t, a)
    ensures Inv(s') && Free(s')
  {
    StepInv(s, t, a);
    forall ts: set<Tid>
      ensures !Deadlocked(s', ts)
    {
      if Deadlocked(s', ts) { FinishingMakesNoDeadlock(s, t, a, s', ts); }
    }
  }

  lemma {:induction false} LeadsConcat(s: State, run: Run, mid: State, more: Run, end: State)
    requires Leads(s, run, mid) && Leads(mid, more, end)
    ensures Leads(s, run + more, end)
    decreases |run|
  {
    if run == [] {
      assert run + more == more;
    } else {
      assert (run + more)[1..] == run[1..] + more;
      LeadsConcat(Apply(s, run[0].0, run[0].1), run[1..], mid, more, end);
    }
  }

  lemma LeadsStep(s: State, t: Tid, a: Action, run: Run, end: State)
    requires Enabled(s, t, a) && Leads(Apply(s, t, a), run, end)
    ensures Leads(s, [(t, a)] + run, end)
  {
    assert ([(t, a)] + run)[1..] == run;
  }

  /** From a state without a deadlock every thread can finish, with nothing but finishing steps. */
  lemma {:induction false} AllCanFinish(s: State, b: nat) returns (run: Run, end: State)
    requires HistInv(s) && Short(s, b) && Free(s)
    ensures Leads(s, run, end) && OnlyFinishing(run) && AllDone(end)
    decreases Left(s.threads, b)
  {
    if AllDone(s) {
      run, end := [], s;
    } else {
      var t, a := SomeoneMoves(s);
      var next := Apply(s, t, a);
      StepHist(s, t, a);
      ShortStep(s, t, a, b);
      FinishingStepShrinks(s, t, a, b);
      FinishingKeepsFree(s, t, a, next);
      run, end := AllCanFinish(next, b);
      LeadsStep(s, t, a, run, end);
      run := [(t, a)] + run;
    }
  }

  lemma DeadlockedNotDone(s: State, ts: set<Tid>)
    requires Deadlocked(s, ts)
    ensures !AllDone(s)
  {
    var t :| t in ts;
    assert Blocked(s, t, ts);
  }

  ghost predicate CanFinish(s: State) { exists run: Run, end: State :: Leads(s, run, end) && AllDone(end) }

  /** The exact condition, in every state that a run can reach: all threads can still finish
      if and only if no set of threads waits for mutexes held inside the set. */
  lemma FinishIffNoDeadlock(s0: State, run: Run, s: State)
    requires Initial(s0) && Leads(s0, run, s)
    ensures CanFinish(s) <==> Free(s)
  {
    InitialHist(s0);
    RunHist(s0, run, s);
    if Free(s) {
      var more, end := AllCanFinish(s, Longest(s));
    }
    if more: Run, end: State :| Leads(s, more, end) && AllDone(end) {
      forall ts: set<Tid>
        ensures !Deadlocked(s, ts)
      {
        if Deadlocked(s, ts) {
          DeadlockIsForever(s, more, end, ts);
          DeadlockedNotDone(end, ts);
        }
      }
    }
  }

  /** Whatever order the finishing steps are taken in, they stop only when every thread is done. */
  lemma {:induction false} NoStuckState(s: State, run: Run, end: State)
    requires Inv(s) && Free(s) && Leads(s, run, end) && OnlyFinishing(run)
    requires forall t, a :: Enabled(end, t, a) ==> !Finishing(a)
    ensures AllDone(end)
    decreases |run|
  {
    if run == [] {
      if !AllDone(end) {
        var t, a := SomeoneMoves(end);
      }
    } else {
      var (t, a) := run[0];
      FinishingKeepsFree(s, t, a, Apply(s, t, a));
      NoStuckState(Apply(s, t, a), run[1..], end);
    }
  }

  // ---------- a rule that callbacks can follow ----------

  predicate Below(rank: Cid -> nat, th: Thread, c: Cid)
  {
    forall i :: 0 <= i < |th.held| ==> rank(th.held[i].c) < rank(c)
  }

  /** Python code only calls into contexts ranked above all those whose operations it is called from. */
  predicate Ranked(rank: Cid -> nat, s: State, t: Tid, a: Action)
    requires t < |s.threads|
  {
    a.Invoke? ==> Below(rank, s.threads[t], a.c)
  }

  predicate RankedRun(rank: Cid -> nat, s: State, run: Run)
    decreases |run|
  {
    run == [] || (Enabled(s, run[0].0, run[0].1) && Ranked(rank, s, run[0].0, run[0].1)
                  && RankedRun(rank, Apply(s, run[0].0, run[0].1), run[1..]))
  }

  predicate WaitsUpwards(rank: Cid -> nat, s: State)
  {
    forall t :: 0 <= t < |s.threads| && Waiting(s.threads[t].pc) ==> Below(rank, s.threads[t], s.threads[t].pc.call.c)
  }

  lemma RankedStep(rank: Cid -> nat, s: State, t: Tid, a: Action)
    requires Inv(s) && WaitsUpwards(rank, s) && Enabled(s, t, a) && Ranked(rank, s, t, a)
    ensures WaitsUpwards(rank, Apply(s, t, a))
  {
    var s' := Apply(s, t, a);
    MoverOk(s, t, a);
    forall u | 0 <= u < |s'.threads| && Waiting(s'.threads[u].pc)
      ensures Below(rank, s'.threads[u], s'.threads[u].pc.call.c)
    {
      assert u != t ==> s'.threads[u] == s.threads[u];
      assert u == t ==> s'.threads[u].held == s.threads[u].held;
    }
  }

  function WaitRank(rank: Cid -> nat, s: State, t: Tid): nat
  {
    if t < |s.threads| && Waiting(s.threads[t].pc) then rank(s.threads[t].pc.call.c) else 0
  }

  lemma {:induction false} HighestWaiter(rank: Cid -> nat, s: State, ts: set<Tid>) returns (top: Tid)
    requires ts != {}
    ensures top in ts && forall t :: t in ts ==> WaitRank(rank, s, t) <= WaitRank(rank, s, top)
    decreases |ts|
  {
    var first :| first in ts;
    var rest := ts - {first};
    if rest == {} {
      top := first;
      assert forall t :: t in ts ==> t == first || t in rest;
    } else {
      var other := HighestWaiter(rank, s, rest);
      top := if WaitRank(rank, s, first) < WaitRank(rank, s, other) then other else first;
      forall t | t in ts
        ensures WaitRank(rank, s, t) <= WaitRank(rank, s, top)
      {
        if t != first { assert t in rest; }
      }
    }
  }

  /** The holder of a mutex that is itself waiting waits for a higher one. */
  lemma HolderWaitsHigher(rank: Cid -> nat, s: State, c: Cid, holder: Tid)
    requires Inv(s) && WaitsUpwards(rank, s) && c < |s.ctxs| && s.ctxs[c].mutex == Some(holder)
    requires holder < |s.threads| && Waiting(s.threads[holder].pc)
    ensures rank(c) < WaitRank(rank, s, holder)
  {
    assert CtxOk(s, c) && Suspended(s.threads[holder], c);
    assert Below(rank, s.threads[holder], s.threads[holder].pc.call.c);
  }

  lemma UpwardsIsFree(rank: Cid -> nat, s: State)
    requires Inv(s) && WaitsUpwards(rank, s)
    ensures Free(s)
  {
    forall ts: set<Tid>
      ensures !Deadlocked(s, ts)
    {
      if Deadlocked(s, ts) {
        var top := HighestWaiter(rank, s, ts);
        assert Blocked(s, top, ts);
        var c := s.threads[top].pc.call.c;
        var holder := s.ctxs[c].mutex.value;
        assert Blocked(s, holder, ts);
        HolderWaitsHigher(rank, s, c, holder);
      }
    }
  }

  lemma {:induction false} RankedRunUpwards(rank: Cid -> nat, s: State, run: Run, end: State)
    requires Inv(s) && WaitsUpwards(rank, s) && Leads(s, run, end) && RankedRun(rank, s, run)
    ensures Inv(end) && WaitsUpwards(rank, end)
    decreases |run|
  {
    if run != [] {
      var (t, a) := run[0];
      StepInv(s, t, a);
      RankedStep(rank, s, t, a);
      RankedRunUpwards(rank, Apply(s, t, a), run[1..], end);
    }
  }

  /** Deadlock freedom: when callbacks only call upwards in some ranking of the contexts, every state of
      every run, with any number of threads and contexts, can be brought to an end. */
  lemma RankedNeverDeadlocks(rank: Cid -> nat, s0: State, run: Run, s: State)
    requires Initial(s0) && Leads(s0, run, s) && RankedRun(rank, s0, run)
    ensures Free(s) && CanFinish(s)
    ensures !AllDone(s) ==> exists t, a :: Enabled(s, t, a) && Finishing(a)
  {
    InitialInv(s0);
    RankedRunUpwards(rank, s0, run, s);
    UpwardsIsFree(rank, s);
    FinishIffNoDeadlock(s0, run, s);
    if !AllDone(s) {
      var t, a := SomeoneMoves(s);
    }
  }

  /** The rule is needed. Whenever an operation is in flight and the GIL is free, four steps lead to a
      deadlock of one thread: a callback that asks for the signers of the operation's own context. */
  lemma CallbackCanReenter(s: State, t: Tid) returns (run: Run, end: State)
    requires Inv(s) && t < |s.threads| && s.threads[t].pc.InOp? && s.gil.None?
    ensures Leads(s, run, end) && Deadlocked(end, {t})
  {
    assert ThreadOk(s, t);
    var c := s.threads[t].pc.call.c;
    var s1 := Apply(s, t, Action.Callback(Other));
    StepInv(s, t, Action.Callback(Other));
    assert ThreadOk(s1, t);
    var s2 := Apply(s1, t, Load);
    StepInv(s1, t, Load);
    run, end := RestoreAndReenter(s2, t);
    LeadsStep(s1, t, Load, run, end);
    LeadsStep(s, t, Action.Callback(Other), [(t, Load)] + run, end);
    run := [(t, Action.Callback(Other))] + ([(t, Load)] + run);
  }

  lemma RestoreAndReenter(s: State, t: Tid) returns (run: Run, end: State)
    requires Inv(s) && t < |s.threads| && s.threads[t].pc.CbWait? && s.gil.None?
    ensures Leads(s, run, end) && Deadlocked(end, {t})
  {
    assert ThreadOk(s, t);
    var c := s.threads[t].pc.call.c;
    var a := Invoke(c, GetSigners);
    var s1 := Apply(s, t, Restore);
    StepInv(s, t, Restore);
    assert s1.threads[t].held[|s.threads[t].held|].c == c;
    assert ThreadOk(s1, t);
    end := Apply(s1, t, a);
    assert Blocked(end, t, {t});
    LeadsStep(s1, t, a, [], end);
    LeadsStep(s, t, Restore, [(t, a)], end);
    run := [(t, Restore)] + [(t, a)];
  }

  /** One thread and one context suffice to reach such a state, and nobody can finish from there. */
  lemma ReentrancyDeadlocks(s0: State) returns (run: Run, end: State)
    requires Initial(s0) && |s0.threads| == 1 && |s0.ctxs| == 1
    ensures Leads(s0, run, end) && Deadlocked(end, {0}) && !CanFinish(end)
  {
    var first, mid := OperationStarts(s0);
    InitialInv(s0);
    RunInv(s0, first, mid);
    var more;
    more, end := CallbackCanReenter(mid, 0);
    LeadsConcat(s0, first, mid, more, end);
    run := first + more;
    FinishIffNoDeadlock(s0, run, end);
  }

  lemma OperationStarts(s0: State) returns (run: Run, end: State)
    requires Initial(s0) && |s0.threads| == 1 && |s0.ctxs| == 1
    ensures Leads(s0, run, end) && |end.threads| == 1 && end.threads[0].pc.InOp? && end.gil.None?
  {
    var s1 := Apply(s0, 0, Retake);
    var s2 := Apply(s1, 0, Invoke(0, Operation));
    var s3 := Apply(s2, 0, Acquire);
    end := Apply(s3, 0, Store);
    LeadsStep(s3, 0, Store, [], end);
    LeadsStep(s2, 0, Acquire, [(0, Store)], end);
    LeadsStep(s1, 0, Invoke(0, Operation), [(0, Acquire), (0, Store)], end);
    LeadsStep(s0, 0, Retake, [(0, Invoke(0, Operation)), (0, Acquire), (0, Store)], end);
    run := [(0, Retake)] + [(0, Invoke(0, Operation)), (0, Acquire), (0, Store)];
  }
}
