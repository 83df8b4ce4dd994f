/** The C functions that gpgme calls back during an operation: each takes the GIL with the thread state
    saved in the context, runs Python code, and saves the thread state again. */
module Callbacks {
  import opened Common
  import opened Errors
  import opened Editor
  import opened Grammar

  /** The global interpreter lock, by the thread state that is current. */
  class Gil {
    var current: Option<Tid>

    constructor ()
      ensures current == None
    {
      current := None;
    }

    method RestoreThread(ts: Tid)
      requires current == None
      modifies this
      ensures current == Some(ts)
    {
      current := Some(ts);
    }

    method SaveThread() returns (ts: Tid)
      requires current.Some?
      modifies this
      ensures current == None && Some(ts) == old(current)
    {
      ts := current.value;
      current := None;
    }
  }

  class Context {
    var tstate: Option<Tid>

    constructor ()
      ensures tstate == None
    {
      tstate := None;
    }
  }

  /** A thread is inside an operation on `ctx`, and the GIL is free: a callback waits until it is. */
  ghost predicate InOperation(gil: Gil, ctx: Context)
    reads gil, ctx
  {
    gil.current == None && ctx.tstate.Some?
  }

  /** pygpgme_passphrase_cb; `left` is the exception that is set once the Python callable has returned:
      what it raised or, if an earlier callback left one behind, what CPython made of that. */
  method PassphraseCb(gil: Gil, ctx: Context, interp: Interp, left: Option<Exc>) returns (err: Word)
    requires InOperation(gil, ctx)
    modifies gil, ctx, interp
    ensures InOperation(gil, ctx) && ctx.tstate == old(ctx.tstate) && interp.pending == None
    ensures err == if left.Some? then ExcWord(interp.knownErrno, left.value) else 0
  {
    gil.RestoreThread(ctx.tstate.value);
    interp.pending := left;
    err := interp.CheckPyError();
    var ts := gil.SaveThread();
    ctx.tstate := Some(ts);
  }

  /** pygpgme_progress_cb: nothing is reported, and an exception is dropped. */
  method ProgressCb(gil: Gil, ctx: Context, interp: Interp, left: Option<Exc>)
    requires InOperation(gil, ctx)
    modifies gil, ctx, interp
    ensures InOperation(gil, ctx) && ctx.tstate == old(ctx.tstate) && interp.pending == None
  {
    gil.RestoreThread(ctx.tstate.value);
    interp.pending := left;
    interp.pending := None;                              // PyErr_Clear
    var ts := gil.SaveThread();
    ctx.tstate := Some(ts);
  }

  /** What CPython does with a call that is made while an exception is set, which it does not define:
      run the callable or not, and report the call as failed with some exception. */
  datatype Disturbed = Disturbed(ran: bool, e: Exc)

  /** The error word that an event makes the edit callback return. */
  function EventWord(known: int -> Option<nat>, plan: Plan, s: Session, ev: Event): Word
  {
    match Raises(plan, s, ev)
    case None => 0
    case Some(e) => ExcWord(known, e)
  }

  /** The call that pygpgme_edit_cb makes to its Python callable, here a key editor. */
  method CallEditor(interp: Interp, editor: KeyEditor, status: Status, args: Prompt, disturbed: Disturbed)
    requires editor.Valid()
    modifies interp`pending, editor, editor.gen
    ensures editor.Valid()
    ensures editor.State() ==
      if old(interp.pending).None? || disturbed.ran then Handle(editor.gen.plan, old(editor.State()), Event(status, args))
      else old(editor.State())
    ensures interp.pending ==
      if old(interp.pending).None? then Raises(editor.gen.plan, old(editor.State()), Event(status, args))
      else Some(disturbed.e)
  {
    if interp.pending.None? {
      interp.pending := editor.EditCallback(status, args);
    } else {
      if disturbed.ran { var _ := editor.EditCallback(status, args); }
      interp.pending := Some(disturbed.e);
    }
  }

  /** pygpgme_edit_cb with a key editor as its Python callable; `disturbed` matters only when an earlier
      callback left an exception behind. */
  method EditCb(gil: Gil, ctx: Context, interp: Interp, editor: KeyEditor, status: Status, args: Prompt, disturbed: Disturbed)
    returns (err: Word)
    requires InOperation(gil, ctx) && editor.Valid()
    modifies gil, ctx, interp, editor, editor.gen
    ensures InOperation(gil, ctx) && ctx.tstate == old(ctx.tstate) && interp.pending == None && editor.Valid()
    ensures editor.State() ==
      if old(interp.pending).None? || disturbed.ran then Handle(editor.gen.plan, old(editor.State()), Event(status, args))
      else old(editor.State())
    ensures err ==
      if old(interp.pending).None? then EventWord(interp.knownErrno, editor.gen.plan, old(editor.State()), Event(status, args))
      else ExcWord(interp.knownErrno, disturbed.e)
  {
    gil.RestoreThread(ctx.tstate.value);
    CallEditor(interp, editor, status, args, disturbed);
    err := interp.CheckPyError();
    var ts := gil.SaveThread();
    ctx.tstate := Some(ts);
  }

  lemma RaisesNotHarmless(plan: Plan, s: Session, ev: Event)
    requires Raises(plan, s, ev).Some?
    ensures !Harmless(Raises(plan, s, ev).value)
  {
    var sent := Resume(plan, s.pc, ev.args).1;
    assert sent.Raised? ==> sent.e == BARE_ASSERTION || sent.e == UNEXPECTED_STATE;
  }

  lemma ExceptionWord(known: int -> Option<nat>, e: Exc)
    requires e == BARE_ASSERTION || e == UNEXPECTED_STATE || e == EXHAUSTED
    ensures ErrCode(ExcWord(known, e)) == 1 && ErrSource(ExcWord(known, e)) == if e == EXHAUSTED then 0 else 32
  {
    WordIsReported(known, e);
  }

  lemma WhatIsRaised(plan: Plan, s: Session, ev: Event)
    requires Suits(plan, s.pc) && Raises(plan, s, ev).Some?
    ensures var e := Raises(plan, s, ev).value;
            if s.pc == AwaitEnd || s.pc == Closed then e == EXHAUSTED else e == BARE_ASSERTION || e == UNEXPECTED_STATE
  {
  }

  /** Which error that is: gpgme's own source with the code GENERAL for an assertion, and the source
      UNKNOWN with the same code once the dialogue is complete or an event has failed. */
  lemma ReportedWord(known: int -> Option<nat>, plan: Plan, evs: seq<Event>, ev: Event)
    requires !Filtered(ev.status) && !StartsDialogue(plan, Prompts(evs + [ev]))
    ensures var w := EventWord(known, plan, Run(plan, FRESH, evs), ev);
            && ErrCode(w) == 1
            && ErrSource(w) == if StartsDialogue(plan, Prompts(evs)) && !Dialogue(plan, Prompts(evs)) then 32 else 0
  {
    var s := Run(plan, FRESH, evs);
    FailsExactly(plan, evs, ev);
    AcceptsExactly(plan, evs);
    OnlyPromptsMatter(plan, FRESH, evs);
    OkIffOpen(plan, FRESH, Prompts(evs));
    WhatIsRaised(plan, s, ev);
    ExceptionWord(known, Raises(plan, s, ev).value);
  }

  /** End to end: after any events, the C callback reports an error to gpgme for an event exactly when
      the event's prompt leaves the grammar, whether a bare assert, an assertion with a message or the
      exhausted generator is behind it. (`EditCb` leaves no exception pending, whatever it finds.) */
  lemma LeavingGrammarIsReported(known: int -> Option<nat>, plan: Plan, evs: seq<Event>, ev: Event)
    ensures EventWord(known, plan, Run(plan, FRESH, evs), ev) != 0
            <==> !Filtered(ev.status) && !StartsDialogue(plan, Prompts(evs + [ev]))
  {
    var s := Run(plan, FRESH, evs);
    FailsExactly(plan, evs, ev);
    if Raises(plan, s, ev).Some? {
      RaisesNotHarmless(plan, s, ev);
      ZeroIffHarmless(known, Raises(plan, s, ev).value);
    }
  }
}
