/** The settings of a `gpgme.Context` that are read and written under the context mutex,
    the C bodies that run between `lock_context` and `unlock_context`, broken into the
    separate writes they make, and the one-step meaning each body is supposed to have. */
module Settings {
  import opened Common

  datatype Attr = Protocol | Armor | Textmode | Offline | IncludeCerts | KeylistMode | PinentryMode | Sender

  /** Which of the two callback properties. */
  datatype Slot = Passphrase | Progress

  /** The Python field of the callback, and whether the C trampoline is registered with gpgme. */
  datatype Callback = Callback(field: Option<Obj>, registered: bool)

  datatype Settings = Settings(scalars: map<Attr, int>, passphrase: Callback, progress: Callback, signers: seq<KeyId>)
  {
    function Scalar(a: Attr): int { if a in scalars then scalars[a] else 0 }

    function Get(w: Slot): Callback { if w.Passphrase? then passphrase else progress }

    function With(w: Slot, cb: Callback): (r: Settings)
      ensures r.Get(w) == cb && (forall v: Slot :: v != w ==> r.Get(v) == Get(v))
      ensures r.scalars == scalars && r.signers == signers
    {
      if w.Passphrase? then this.(passphrase := cb) else this.(progress := cb)
    }

    /** A callback is installed in Python exactly when its trampoline is registered in C. */
    predicate Consistent()
    {
      forall w: Slot :: Get(w).field.Some? <==> Get(w).registered
    }
  }

  datatype Request =
    | GetScalar(a: Attr)
    | SetScalar(a: Attr, v: int)
    | GetCallback(w: Slot)
    | SetCallback(w: Slot, cb: Option<Obj>)
    | GetSigners
    | SetSigners(items: seq<Item>)
    | Operation                       // any call bracketed by begin/end_allow_threads

  datatype Response =
    | Unit
    | Failed
    | Value(v: int)
    | CallbackIs(cb: Option<Obj>)
    | SignersAre(keys: seq<KeyId>)
    | Saw(st: Settings)               // the settings an operation ran under

  // ---------- one-step meaning of a request ----------

  function LeadingKeys(items: seq<Item>): (n: nat)
    ensures n <= |items|
    ensures AllKeys(items[..n])
    ensures n < |items| ==> items[n].NotKey?
  {
    if items == [] || items[0].NotKey? then 0 else 1 + LeadingKeys(items[1..])
  }

  /** The scalars whose gpgme setter can refuse a value; the others return nothing. */
  const REFUSABLE := {Protocol, KeylistMode, PinentryMode, Sender}

  /** May a sequential execution of `req` under `st` answer `resp`? */
  predicate Legal(st: Settings, req: Request, resp: Response)
  {
    match req
    case GetScalar(a) => resp == Value(st.Scalar(a))
    case SetScalar(a, _) => resp == Unit || (resp == Failed && a in REFUSABLE)
    case GetCallback(w) => resp == CallbackIs(if st.Get(w).registered then st.Get(w).field else None)
    case SetCallback(_, _) => resp == Unit
    case GetSigners => resp == SignersAre(st.signers) || resp == Failed
    case SetSigners(items) => resp == (if LeadingKeys(items) == |items| then Unit else Failed)
    case Operation => resp == Saw(st)
  }

  /** The settings a sequential execution of `req` leaves behind when it answers `resp`. */
  function After(st: Settings, req: Request, resp: Response): Settings
  {
    match req
    case SetScalar(a, v) => if resp == Unit then st.(scalars := st.scalars[a := v]) else st
    case SetCallback(w, cb) => st.With(w, Callback(cb, cb.Some?))
    case SetSigners(items) => st.(signers := KeysOf(items[..LeadingKeys(items)]))
    case _ => st
  }

  lemma AfterKeepsConsistent(st: Settings, req: Request, resp: Response)
    requires st.Consistent()
    ensures After(st, req, resp).Consistent()
  {
    if req.SetCallback? {
      forall w: Slot
        ensures After(st, req, resp).Get(w).field.Some? <==> After(st, req, resp).Get(w).registered
      {
        assert st.Get(w).field.Some? <==> st.Get(w).registered;
      }
    } else {
      forall w: Slot
        ensures After(st, req, resp).Get(w).field.Some? <==> After(st, req, resp).Get(w).registered
      {
        assert After(st, req, resp).Get(w) == st.Get(w);
        assert st.Get(w).field.Some? <==> st.Get(w).registered;
      }
    }
  }

  // ---------- the C bodies, one write at a time ----------

  /** Where a body stands: how many of its statements have run, the list it is building, or its answer. */
  datatype Body = Working(stage: nat, acc: seq<KeyId>) | Finished(resp: Response)

  const START: Body := Working(0, [])

  /** The next statement of the body of `req`. `ok` is the environment's answer: an allocation
      succeeded, or gpgme accepted the value. */
  function BodyStep(st: Settings, req: Request, body: Body, ok: bool): (Settings, Body)
    requires body.Working?
  {
    var Working(stage, acc) := body;
    match req
    case GetScalar(a) => (st, Finished(Value(st.Scalar(a))))
    case SetScalar(a, v) =>
      if ok then (st.(scalars := st.scalars[a := v]), Finished(Unit)) else (st, Finished(Failed))
    case GetCallback(w) =>
      (st, Finished(CallbackIs(if st.Get(w).registered then st.Get(w).field else None)))
    case SetCallback(w, cb) =>
      var was := st.Get(w);
      if stage == 0 then (st.With(w, was.(field := None)), Working(1, acc))
      else if cb.None? then (st.With(w, was.(registered := false)), Finished(Unit))
      else if stage == 1 then (st.With(w, was.(field := cb)), Working(2, acc))
      else (st.With(w, was.(registered := true)), Finished(Unit))
    case GetSigners =>
      if stage >= |st.signers| then (st, Finished(SignersAre(acc)))
      else if ok then (st, Working(stage + 1, acc + [st.signers[stage]]))
      else (st, Finished(Failed))
    case SetSigners(items) =>
      if stage == 0 then (st.(signers := []), Working(1, acc))
      else if stage > |items| then (st, Finished(Unit))
      else if items[stage - 1].NotKey? then (st, Finished(Failed))
      else (st.(signers := st.signers + [items[stage - 1].key]), Working(stage + 1, acc))
    case Operation => (st, Finished(Saw(st)))
  }

  /** What a body started under `st0` has done so far: `st` is what the context holds now. */
  predicate InProgress(st0: Settings, req: Request, body: Body, st: Settings)
  {
    match body
    case Finished(resp) => Legal(st0, req, resp) && st == After(st0, req, resp)
    case Working(stage, acc) =>
      match req
      case SetCallback(w, cb) =>
        var was := st0.Get(w);
        && stage <= (if cb.Some? then 2 else 1)
        && st == (if stage == 0 then st0
                  else if stage == 1 then st0.With(w, was.(field := None))
                  else st0.With(w, was.(field := cb)))
      case GetSigners => st == st0 && stage <= |st.signers| && acc == st.signers[..stage]
      case SetSigners(items) =>
        if stage == 0 then st == st0
        else
          && stage - 1 <= LeadingKeys(items)
          && st == st0.(signers := KeysOf(items[..stage - 1]))
      case _ => stage == 0 && st == st0
  }

  /** The environment can refuse the next statement: gpgme a value, the allocator a Key object. */
  predicate Refusable(st: Settings, req: Request, body: Body)
  {
    body.Working? && ((req.SetScalar? && req.a in REFUSABLE) || (req.GetSigners? && body.stage < |st.signers|))
  }

  /** Setting a scalar and reading the signers fail exactly when one of the environment's answers to
      their statements was no; up to then they go on. */
  predicate AnswersFit(req: Request, body: Body, answers: seq<bool>)
  {
    req.SetScalar? || req.GetSigners? ==>
      if body.Working? then false !in answers else body.resp == Failed <==> false in answers
  }

  lemma AnswersFitStep(st: Settings, req: Request, body: Body, ok: bool, answers: seq<bool>)
    requires body.Working? && AnswersFit(req, body, answers) && (ok || Refusable(st, req, body))
    ensures AnswersFit(req, BodyStep(st, req, body, ok).1, answers + [ok])
  {
    assert false in answers + [ok] <==> false in answers || !ok;
  }

  lemma KeysOfGrows(items: seq<Item>, n: nat)
    requires n < LeadingKeys(items)
    ensures KeysOf(items[..n + 1]) == KeysOf(items[..n]) + [items[n].key]
  {
  }

  /** Every statement of every body moves along the intended path, so that the last one lands on the
      one-step meaning, whatever the environment answers in between. */
  lemma BodyStepProgress(st0: Settings, req: Request, body: Body, st: Settings, ok: bool)
    requires body.Working? && InProgress(st0, req, body, st) && (ok || Refusable(st, req, body))
    ensures var (st', body') := BodyStep(st, req, body, ok); InProgress(st0, req, body', st')
  {
    if req.SetSigners? {
      if 1 <= body.stage <= LeadingKeys(req.items) { KeysOfGrows(req.items, body.stage - 1); }
    } else if req.SetCallback? {
      var w, was := req.w, st0.Get(req.w);
      assert st0.With(w, was.(field := None)).Get(w) == was.(field := None);
      assert st0.With(w, was.(field := req.cb)).Get(w) == was.(field := req.cb);
    }
  }
}
