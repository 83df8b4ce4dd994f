/** The settings of a context, read and written by any number of threads, behave as if every call ran
    alone at the moment it got the mutex. */
module Linearizability {
  import opened Common
  import opened Settings
  import opened Protocol

  /** The settings after running the calls of a history one after the other. */
  function Replay(st: Settings, log: seq<Entry>): Settings
  {
    if log == [] then st
    else
      var last := log[|log| - 1];
      After(Replay(st, log[..|log| - 1]), last.req, last.resp)
  }

  /** Each call of the history answered what it would have answered running alone in this order. */
  predicate LegalLog(st: Settings, log: seq<Entry>)
  {
    forall i :: 0 <= i < |log| ==> Legal(Replay(st, log[..i]), log[i].req, log[i].resp)
  }

  /** Each call got the mutex within its own duration, and the calls got it one after the other. */
  predicate Stamps(log: seq<Entry>, clock: nat)
  {
    && (forall i :: 0 <= i < |log| ==> log[i].invoked < log[i].acquired < log[i].released < clock)
    && (forall i, j :: 0 <= i < j < |log| ==> log[i].released < log[j].acquired)
  }

  function Now(ctx: Ctx): Settings { Replay(ctx.initial, ctx.log) }

  /** A call that holds the mutex of its context. */
  predicate CallHist(ctx: Ctx, call: Call, clock: nat)
  {
    && call.invoked < call.acquired < clock
    && (forall i :: 0 <= i < |ctx.log| ==> ctx.log[i].released < call.acquired)
  }

  predicate PcHist(s: State, pc: Pc)
  {
    && (Waiting(pc) ==> pc.call.invoked < s.clock)
    && (Waiting(pc) || pc.LockGil? ==> pc.call.answers == [])
    && (PcHolds(pc) && pc.call.c < |s.ctxs| ==>
          var ctx := s.ctxs[pc.call.c];
          && CallHist(ctx, pc.call, s.clock)
          && (if pc.InBody? || pc.BodyWant? then
                InProgress(Now(ctx), pc.call.req, pc.body, ctx.settings) && AnswersFit(pc.call.req, pc.body, pc.call.answers)
              else ctx.settings == Now(ctx)))
  }

  predicate HeldHist(s: State, held: seq<Call>)
  {
    forall i :: 0 <= i < |held| && held[i].c < |s.ctxs| ==>
      && CallHist(s.ctxs[held[i].c], held[i], s.clock)
      && s.ctxs[held[i].c].settings == Now(s.ctxs[held[i].c])
  }

  /** The call failed for want of the environment's consent exactly when that was refused. */
  predicate Fits(e: Entry) { AnswersFit(e.req, Finished(e.resp), e.answers) }

  predicate CtxHist(ctx: Ctx, clock: nat)
  {
    && LegalLog(ctx.initial, ctx.log) && Stamps(ctx.log, clock) && ctx.initial.Consistent()
    && (ctx.mutex.None? ==> ctx.settings == Now(ctx))
    && (forall i :: 0 <= i < |ctx.log| ==> Fits(ctx.log[i]))
  }

  predicate HistInv(s: State)
  {
    && Inv(s)
    && (forall t :: 0 <= t < |s.threads| ==> PcHist(s, s.threads[t].pc) && HeldHist(s, s.threads[t].held))
    && (forall c :: 0 <= c < |s.ctxs| ==> CtxHist(s.ctxs[c], s.clock))
  }

  lemma InitialHist(s: State)
    requires Initial(s)
    ensures HistInv(s)
  {
    InitialInv(s);
  }

  /** Completing a call extends the history by a legal entry. */
  lemma AppendEntry(ctx: Ctx, e: Entry, clock: nat)
    requires CtxHist(ctx, clock) && Legal(Now(ctx), e.req, e.resp)
    requires e.invoked < e.acquired < e.released == clock
    requires forall i :: 0 <= i < |ctx.log| ==> ctx.log[i].released < e.acquired
    ensures Replay(ctx.initial, ctx.log + [e]) == After(Now(ctx), e.req, e.resp)
    ensures LegalLog(ctx.initial, ctx.log + [e]) && Stamps(ctx.log + [e], clock + 1)
  {
    var log := ctx.log + [e];
    assert log[..|ctx.log|] == ctx.log;
    forall i | 0 <= i < |log|
      ensures Legal(Replay(ctx.initial, log[..i]), log[i].req, log[i].resp)
    {
      if i < |ctx.log| { assert log[..i] == ctx.log[..i]; }
    }
  }

  /** What a thread that releases the mutex is about to give back to Python. */
  function Answer(s: State, t: Tid, a: Action): Response
    requires Inv(s) && Enabled(s, t, a) && (a.Unlock? || a.Release?)
  {
    if a.Unlock? then s.threads[t].pc.body.resp else Saw(s.ctxs[s.threads[t].pc.call.c].settings)
  }

  /** That is what the request answers when it runs alone after the calls before it, and the settings are
      what it then leaves. */
  lemma AnswerIsSequential(s: State, t: Tid, a: Action)
    requires HistInv(s) && Enabled(s, t, a) && (a.Unlock? || a.Release?)
    ensures var pc := s.threads[t].pc; var ctx := s.ctxs[pc.call.c];
            && Legal(Now(ctx), pc.call.req, Answer(s, t, a)) && ctx.settings == After(Now(ctx), pc.call.req, Answer(s, t, a))
            && AnswersFit(pc.call.req, Finished(Answer(s, t, a)), pc.call.answers)
  {
    assert ThreadOk(s, t) && PcHist(s, s.threads[t].pc);
  }

  lemma CompletedCtx(ctx: Ctx, call: Call, resp: Response, clock: nat)
    requires CtxHist(ctx, clock) && CallHist(ctx, call, clock)
    requires Legal(Now(ctx), call.req, resp) && ctx.settings == After(Now(ctx), call.req, resp)
    requires AnswersFit(call.req, Finished(resp), call.answers)
    ensures var e := Entry(call.req, resp, call.invoked, call.acquired, clock, call.answers);
            CtxHist(ctx.(mutex := None, log := ctx.log + [e]), clock + 1)
  {
    AppendEntry(ctx, Entry(call.req, resp, call.invoked, call.acquired, clock, call.answers), clock);
  }

  lemma CompletesTo(s: State, t: Tid, a: Action)
    requires Inv(s) && Enabled(s, t, a) && (a.Unlock? || a.Release?)
    ensures var call := s.threads[t].pc.call; var ctx := s.ctxs[call.c];
            Apply(s, t, a).ctxs[call.c]
            == ctx.(mutex := None,
                    log := ctx.log + [Entry(call.req, Answer(s, t, a), call.invoked, call.acquired, s.clock, call.answers)])
  {
  }

  lemma CompleteHist(s: State, t: Tid, a: Action)
    requires HistInv(s) && Enabled(s, t, a) && (a.Unlock? || a.Release?)
    ensures CtxHist(Apply(s, t, a).ctxs[s.threads[t].pc.call.c], s.clock + 1)
  {
    var pc := s.threads[t].pc;
    assert ThreadOk(s, t) && PcHist(s, pc) && CtxHist(s.ctxs[pc.call.c], s.clock);
    AnswerIsSequential(s, t, a);
    CompletedCtx(s.ctxs[pc.call.c], pc.call, Answer(s, t, a), s.clock);
    CompletesTo(s, t, a);
  }

  lemma ExecuteHist(s: State, t: Tid, a: Action)
    requires HistInv(s) && Enabled(s, t, a) && a.Execute?
    ensures PcHist(Apply(s, t, a), Apply(s, t, a).threads[t].pc)
    ensures CtxHist(Apply(s, t, a).ctxs[s.threads[t].pc.call.c], s.clock + 1)
  {
    var pc := s.threads[t].pc;
    var ctx := s.ctxs[pc.call.c];
    assert ThreadOk(s, t) && PcHist(s, pc) && CtxHist(ctx, s.clock);
    BodyStepProgress(Now(ctx), pc.call.req, pc.body, ctx.settings, a.ok);
    AnswersFitStep(ctx.settings, pc.call.req, pc.body, a.ok, pc.call.answers);
  }

  /** Does the step write to the settings or the history of `c`? */
  predicate Touches(s: State, t: Tid, a: Action, c: Cid)
    requires Enabled(s, t, a)
  {
    (a.Unlock? || a.Release? || a.Execute?) && s.threads[t].pc.call.c == c
  }

  /** A step that does not leaves everything but the mutex and the saved thread state, and releases
      no mutex. */
  lemma Untouching(s: State, t: Tid, a: Action, c: Cid)
    requires Enabled(s, t, a) && !Touches(s, t, a, c) && c < |s.ctxs| == |Apply(s, t, a).ctxs|
    ensures var ctx, ctx' := s.ctxs[c], Apply(s, t, a).ctxs[c];
            && ctx'.settings == ctx.settings && ctx'.initial == ctx.initial && ctx'.log == ctx.log
            && (ctx'.mutex.None? ==> ctx.mutex.None?)
  {
  }

  lemma LaterHist(ctx: Ctx, ctx': Ctx, clock: nat)
    requires CtxHist(ctx, clock)
    requires ctx'.settings == ctx.settings && ctx'.initial == ctx.initial && ctx'.log == ctx.log
    requires ctx'.mutex.None? ==> ctx.mutex.None?
    ensures CtxHist(ctx', clock + 1)
  {
  }

  lemma ContextHist(s: State, t: Tid, a: Action, c: Cid)
    requires HistInv(s) && Enabled(s, t, a) && c < |s.ctxs| == |Apply(s, t, a).ctxs|
    ensures CtxHist(Apply(s, t, a).ctxs[c], s.clock + 1)
  {
    if !Touches(s, t, a, c) {
      assert CtxHist(s.ctxs[c], s.clock);
      Untouching(s, t, a, c);
      LaterHist(s.ctxs[c], Apply(s, t, a).ctxs[c], s.clock);
    } else if a.Execute? {
      ExecuteHist(s, t, a);
    } else {
      CompleteHist(s, t, a);
    }
  }

  lemma HeldStays(s: State, s': State, t: Tid, held: seq<Call>)
    requires HistInv(s) && t < |s.threads| && held <= s.threads[t].held
    requires |s'.ctxs| == |s.ctxs| && s'.clock == s.clock + 1
    requires forall c :: 0 <= c < |s.ctxs| ==>
      s'.ctxs[c].(mutex := None, tstate := None) == s.ctxs[c].(mutex := None, tstate := None)
      || (PcHolds(s.threads[t].pc) && s.threads[t].pc.call.c == c)
    ensures HeldHist(s', held)
  {
    assert ThreadOk(s, t) && HeldHist(s, s.threads[t].held);
    forall i | 0 <= i < |held|
      ensures s'.ctxs[held[i].c].(mutex := None, tstate := None) == s.ctxs[held[i].c].(mutex := None, tstate := None)
    {
      assert held[i] == s.threads[t].held[i];
    }
  }

  lemma LeaveHeldHist(s: State, t: Tid)
    requires HistInv(s) && Enabled(s, t, Leave)
    ensures HeldHist(Apply(s, t, Leave), Apply(s, t, Leave).threads[t].held)
  {
    var held := s.threads[t].held;
    assert ThreadOk(s, t);
    HeldStays(s, Apply(s, t, Leave), t, held[..|held| - 1]);
  }

  lemma EnterHeldHist(s: State, t: Tid)
    requires HistInv(s) && Enabled(s, t, Restore)
    ensures HeldHist(Apply(s, t, Restore), Apply(s, t, Restore).threads[t].held)
  {
    assert ThreadOk(s, t) && PcHist(s, s.threads[t].pc);
    HeldStays(s, Apply(s, t, Restore), t, s.threads[t].held);
  }

  /** A thread's suspended operations see nothing of the steps it takes in their callbacks. */
  lemma MoverHeldHist(s: State, t: Tid, a: Action)
    requires HistInv(s) && Enabled(s, t, a)
    ensures HeldHist(Apply(s, t, a), Apply(s, t, a).threads[t].held)
  {
    if a.Leave? {
      LeaveHeldHist(s, t);
    } else if a.Restore? {
      EnterHeldHist(s, t);
    } else {
      assert ThreadOk(s, t);
      MoverOk(s, t, a);
      assert Apply(s, t, a).threads[t].held == s.threads[t].held;
      HeldStays(s, Apply(s, t, a), t, s.threads[t].held);
    }
  }

  lemma AcquireHist(s: State, t: Tid)
    requires HistInv(s) && Enabled(s, t, Acquire)
    ensures PcHist(Apply(s, t, Acquire), Apply(s, t, Acquire).threads[t].pc)
  {
    assert PcHist(s, s.threads[t].pc) && CtxHist(s.ctxs[s.threads[t].pc.call.c], s.clock);
  }

  lemma TstateHist(s: State, t: Tid, a: Action)
    requires HistInv(s) && Enabled(s, t, a) && (a.Store? || a.Clear? || a.Leave?)
    ensures PcHist(Apply(s, t, a), Apply(s, t, a).threads[t].pc)
  {
    assert ThreadOk(s, t) && PcHist(s, s.threads[t].pc) && HeldHist(s, s.threads[t].held);
  }

  lemma RestoreHist(s: State, t: Tid)
    requires HistInv(s) && Enabled(s, t, Restore)
    ensures PcHist(Apply(s, t, Restore), Apply(s, t, Restore).threads[t].pc)
  {
    assert ThreadOk(s, t) && PcHist(s, s.threads[t].pc);
  }

  lemma GilStepHist(s: State, t: Tid, a: Action)
    requires HistInv(s) && Enabled(s, t, a)
    requires a.Preempt? || a.Retake? || a.Invoke? || a.Finish? || a.OpReturns? || a.Callback? || a.Load?
    ensures PcHist(Apply(s, t, a), Apply(s, t, a).threads[t].pc)
  {
    assert PcHist(s, s.threads[t].pc) && ThreadOk(s, t);
    assert Apply(s, t, a).ctxs == s.ctxs;
  }

  lemma MoverPcHist(s: State, t: Tid, a: Action)
    requires HistInv(s) && Enabled(s, t, a)
    ensures PcHist(Apply(s, t, a), Apply(s, t, a).threads[t].pc)
  {
    match a
    case Execute(_) => ExecuteHist(s, t, a);
    case Acquire => AcquireHist(s, t);
    case Store | Clear | Leave => TstateHist(s, t, a);
    case Unlock | Release => MoverOk(s, t, a);
    case Restore => RestoreHist(s, t);
    case _ => GilStepHist(s, t, a);
  }

  lemma OtherHist(s: State, t: Tid, a: Action, u: Tid)
    requires HistInv(s) && Enabled(s, t, a) && u < |s.threads| && u != t
    ensures var s' := Apply(s, t, a); PcHist(s', s.threads[u].pc) && HeldHist(s', s.threads[u].held)
  {
    var s', th := Apply(s, t, a), s.threads[u];
    assert ThreadOk(s, u) && PcHist(s, th.pc) && HeldHist(s, th.held);
    forall c | 0 <= c < |s.ctxs|
      ensures s.ctxs[c].mutex == Some(u) ==> s'.ctxs[c] == s.ctxs[c]
    {
      Untouched(s, t, a, c);
    }
    assert |s'.ctxs| == |s.ctxs|;
  }

  lemma StepHist(s: State, t: Tid, a: Action)
    requires HistInv(s) && Enabled(s, t, a)
    ensures HistInv(Apply(s, t, a))
  {
    var s' := Apply(s, t, a);
    StepInv(s, t, a);
    forall u | 0 <= u < |s'.threads|
      ensures PcHist(s', s'.threads[u].pc) && HeldHist(s', s'.threads[u].held)
    {
      if u == t {
        MoverPcHist(s, t, a);
        MoverHeldHist(s, t, a);
      } else {
        OtherHist(s, t, a, u);
      }
    }
    forall c | 0 <= c < |s'.ctxs|
      ensures CtxHist(s'.ctxs[c], s'.clock)
    {
      ContextHist(s, t, a, c);
    }
  }

  lemma {:induction false} RunHist(s: State, run: Run, end: State)
    requires HistInv(s) && Leads(s, run, end)
    ensures HistInv(end)
    decreases |run|
  {
    if run != [] {
      StepHist(s, run[0].0, run[0].1);
      RunHist(Apply(s, run[0].0, run[0].1), run[1..], end);
    }
  }

  // ---------- the results ----------

  /** Every concurrent history of getters, setters and operations on a context is the sequential one
      in the order in which the calls got the mutex. That order lies within the calls' durations, so a
      call that returned before another was made comes first. */
  lemma Linearizable(s0: State, run: Run, s: State, c: Cid)
    requires Initial(s0) && Leads(s0, run, s) && c < |s.ctxs|
    ensures var log := s.ctxs[c].log;
            && LegalLog(s.ctxs[c].initial, log)
            && (forall i :: 0 <= i < |log| ==> log[i].invoked < log[i].acquired < log[i].released < s.clock)
            && (forall i, j :: 0 <= i < j < |log| ==> log[i].acquired < log[j].acquired)
            && (forall i, j :: 0 <= i < |log| && 0 <= j < |log| && log[i].released < log[j].invoked ==> i < j)
    ensures s.ctxs[c].mutex.None? ==> s.ctxs[c].settings == Replay(s.ctxs[c].initial, s.ctxs[c].log)
  {
    InitialHist(s0);
    RunHist(s0, run, s);
    assert CtxHist(s.ctxs[c], s.clock);
  }

  lemma {:induction false} ReplayConsistent(st: Settings, log: seq<Entry>)
    requires st.Consistent()
    ensures Replay(st, log).Consistent()
    decreases |log|
  {
    if log != [] {
      ReplayConsistent(st, log[..|log| - 1]);
      AfterKeepsConsistent(Replay(st, log[..|log| - 1]), log[|log| - 1].req, log[|log| - 1].resp);
    }
  }

  /** Whenever the mutex is free, and while an operation runs, a Python callback is stored exactly
      when its trampoline is registered with gpgme. */
  lemma CallbacksConsistent(s0: State, run: Run, s: State, c: Cid)
    requires Initial(s0) && Leads(s0, run, s) && c < |s.ctxs|
    requires s.ctxs[c].mutex.None? || s.ctxs[c].tstate.Some?
    ensures s.ctxs[c].settings.Consistent()
  {
    InitialHist(s0);
    RunHist(s0, run, s);
    var ctx := s.ctxs[c];
    assert CtxHist(ctx, s.clock) && CtxOk(s, c);
    ReplayConsistent(ctx.initial, ctx.log);
    if ctx.mutex.Some? {
      var t := ctx.mutex.value;
      assert ThreadOk(s, t) && PcHist(s, s.threads[t].pc) && HeldHist(s, s.threads[t].held);
      if Suspended(s.threads[t], c) {
        var i :| 0 <= i < |s.threads[t].held| && s.threads[t].held[i].c == c;
        assert s.threads[t].held[i].c < |s.ctxs|;
      }
    }
  }

  /** While an operation runs, gpgme can make a passphrase or progress callback exactly when a Python
      object is stored to be called. */
  lemma CallbackHasTarget(s0: State, run: Run, s: State, t: Tid, w: Slot)
    requires Initial(s0) && Leads(s0, run, s) && t < |s.threads| && s.threads[t].pc.InOp?
    ensures s.threads[t].pc.call.c < |s.ctxs|
    ensures Enabled(s, t, Action.Callback(Prompt(w))) <==> s.ctxs[s.threads[t].pc.call.c].settings.Get(w).field.Some?
  {
    InitialInv(s0);
    RunInv(s0, run, s);
    assert ThreadOk(s, t);
    CallbacksConsistent(s0, run, s, s.threads[t].pc.call.c);
  }

  /** No step of any thread changes the settings of a context inside one of whose operations a thread
      is, through any nesting of callbacks. */
  lemma FrozenDuringOperation(s0: State, run: Run, s: State, t: Tid, a: Action, c: Cid)
    requires Initial(s0) && Leads(s0, run, s) && Enabled(s, t, a)
    requires c < |s.ctxs| && s.ctxs[c].tstate.Some?
    ensures c < |Apply(s, t, a).ctxs| && Apply(s, t, a).ctxs[c].settings == s.ctxs[c].settings
  {
    InitialInv(s0);
    RunInv(s0, run, s);
    assert ThreadOk(s, t) && CtxOk(s, c);
  }

  /** A call that sets a scalar or reads the signers fails if and only if the environment refused one of
      its statements, and setting a scalar whose gpgme setter returns nothing never fails. */
  lemma FailsIffRefused(s0: State, run: Run, s: State, c: Cid, i: nat)
    requires Initial(s0) && Leads(s0, run, s) && c < |s.ctxs| && i < |s.ctxs[c].log|
    ensures var e := s.ctxs[c].log[i];
            && (e.req.SetScalar? || e.req.GetSigners? ==> (e.resp == Failed <==> false in e.answers))
            && (e.req.SetScalar? && e.req.a in {Armor, Textmode, Offline, IncludeCerts} ==> e.resp == Unit)
  {
    InitialHist(s0);
    RunHist(s0, run, s);
    assert CtxHist(s.ctxs[c], s.clock);
    assert Fits(s.ctxs[c].log[i]);
    assert Legal(Replay(s.ctxs[c].initial, s.ctxs[c].log[..i]), s.ctxs[c].log[i].req, s.ctxs[c].log[i].resp);
  }

  /** What was answered is recorded as it was: one answer for each statement. */
  lemma AnswersRecorded(s: State, t: Tid, ok: bool)
    requires Inv(s) && Enabled(s, t, Execute(ok))
    ensures Apply(s, t, Execute(ok)).threads[t].pc.InBody?
    ensures Apply(s, t, Execute(ok)).threads[t].pc.call.answers == s.threads[t].pc.call.answers + [ok]
  {
    assert ThreadOk(s, t);
  }

  predicate SetsScalar(e: Entry, a: Attr) { e.req.SetScalar? && e.req.a == a && e.resp == Unit }

  lemma {:induction false} ScalarKept(st: Settings, log: seq<Entry>, a: Attr, i: nat, j: nat)
    requires i <= j <= |log| && forall k :: i <= k < j ==> !SetsScalar(log[k], a)
    ensures Replay(st, log[..j]).Scalar(a) == Replay(st, log[..i]).Scalar(a)
    decreases j - i
  {
    if i < j {
      assert log[..j][..j - 1] == log[..j - 1];
      ScalarKept(st, log, a, i, j - 1);
      assert !SetsScalar(log[j - 1], a);
    }
  }

  /** Reading a scalar gives the value that was last set successfully, and operations run under it; with
      no such call before, both see the initial value. */
  lemma ScalarsReadBack(st: Settings, log: seq<Entry>, a: Attr, j: nat)
    requires LegalLog(st, log) && j < |log|
    ensures log[j].req == GetScalar(a) ==> log[j].resp.Value?
    ensures log[j].req.Operation? ==> log[j].resp.Saw?
    ensures forall i :: 0 <= i < j && SetsScalar(log[i], a) && (forall k :: i < k < j ==> !SetsScalar(log[k], a)) ==>
              && (log[j].req == GetScalar(a) ==> log[j].resp.v == log[i].req.v)
              && (log[j].req.Operation? ==> log[j].resp.st.Scalar(a) == log[i].req.v)
    ensures (forall k :: 0 <= k < j ==> !SetsScalar(log[k], a)) ==>
              && (log[j].req == GetScalar(a) ==> log[j].resp.v == st.Scalar(a))
              && (log[j].req.Operation? ==> log[j].resp.st.Scalar(a) == st.Scalar(a))
  {
    assert Legal(Replay(st, log[..j]), log[j].req, log[j].resp);
    forall i | 0 <= i < j && SetsScalar(log[i], a) && forall k :: i < k < j ==> !SetsScalar(log[k], a)
      ensures Replay(st, log[..j]).Scalar(a) == log[i].req.v
    {
      assert log[..i + 1][..i] == log[..i];
      ScalarKept(st, log, a, i + 1, j);
    }
    if forall k :: 0 <= k < j ==> !SetsScalar(log[k], a) {
      ScalarKept(st, log, a, 0, j);
      assert log[..0] == [];
    }
  }

  predicate SetsCallback(e: Entry, w: Slot) { e.req.SetCallback? && e.req.w == w }

  lemma {:induction false} CallbackKept(st: Settings, log: seq<Entry>, w: Slot, i: nat, j: nat)
    requires i <= j <= |log| && forall k :: i <= k < j ==> !SetsCallback(log[k], w)
    ensures Replay(st, log[..j]).Get(w) == Replay(st, log[..i]).Get(w)
    decreases j - i
  {
    if i < j {
      assert log[..j][..j - 1] == log[..j - 1];
      CallbackKept(st, log, w, i, j - 1);
      assert !SetsCallback(log[j - 1], w);
    }
  }

  /** Reading a callback property gives the object that was last assigned to it, or None. */
  lemma CallbacksReadBack(st: Settings, log: seq<Entry>, i: nat, j: nat)
    requires LegalLog(st, log) && i < j < |log|
    requires log[i].req.SetCallback? && log[j].req == GetCallback(log[i].req.w)
    requires forall k :: i < k < j ==> !SetsCallback(log[k], log[i].req.w)
    ensures log[j].resp == CallbackIs(log[i].req.cb)
  {
    assert log[..i + 1][..i] == log[..i];
    CallbackKept(st, log, log[i].req.w, i + 1, j);
    assert Legal(Replay(st, log[..j]), log[j].req, log[j].resp);
  }

  lemma {:induction false} SignersKept(st: Settings, log: seq<Entry>, i: nat, j: nat)
    requires i <= j <= |log| && forall k :: i <= k < j ==> !log[k].req.SetSigners?
    ensures Replay(st, log[..j]).signers == Replay(st, log[..i]).signers
    decreases j - i
  {
    if i < j {
      assert log[..j][..j - 1] == log[..j - 1];
      SignersKept(st, log, i, j - 1);
    }
  }

  /** Reading `signers` gives what the last assignment before it in the history stored: the same keys in
      the same order with their multiplicity; and when the assigned sequence has an element that is not
      a key, the keys before the first such element. */
  lemma SignersReadBack(st: Settings, log: seq<Entry>, i: nat, j: nat)
    requires LegalLog(st, log) && i < j < |log|
    requires log[i].req.SetSigners? && forall k :: i < k < j ==> !log[k].req.SetSigners?
    requires log[j].req.GetSigners? && log[j].resp.SignersAre?
    ensures var items, keys := log[i].req.items, log[j].resp.keys;
            && |keys| <= |items|
            && (forall k :: 0 <= k < |keys| ==> items[k] == KeyItem(keys[k]))
            && (|keys| < |items| ==> items[|keys|].NotKey?)
            && (log[i].resp == Unit <==> |keys| == |items|)
  {
    assert log[..i + 1][..i] == log[..i];
    assert Legal(Replay(st, log[..i]), log[i].req, log[i].resp);
    SignersKept(st, log, i + 1, j);
    assert Legal(Replay(st, log[..j]), log[j].req, log[j].resp);
  }
}
