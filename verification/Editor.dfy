/** The key editors of `gpgme.editutil`: two generators that answer gpg's prompts, and the callback
    that feeds them and writes what they yield. */
module Editor {
  import opened Common
  import opened Errors

  // ---------- what gpg sends ----------

  datatype Status =
    | Eof | GotIt | NeedPassphrase | GoodPassphrase | BadPassphrase | UseridHint
    | SigExpired | KeyExpired | Progress | KeyCreated | AlreadySigned | KeyConsidered
    | OtherStatus(code: nat)

  datatype Event = Event(status: Status, args: Option<string>)

  type Prompt = Option<string>

  const MENU: Prompt := Some("keyedit.prompt")
  const TRUST_VALUE: Prompt := Some("edit_ownertrust.value")
  const ULTIMATE_OKAY: Prompt := Some("edit_ownertrust.set_ultimate.okay")
  const SAVE_OKAY: Prompt := Some("keyedit.save.okay")
  const SIGN_ALL_OKAY: Prompt := Some("keyedit.sign_all.okay")
  const SIGN_EXPIRE: Prompt := Some("sign_uid.expire")
  const SIGN_CLASS: Prompt := Some("sign_uid.class")
  const SIGN_OKAY: Prompt := Some("sign_uid.okay")

  /** The statuses that the callback answers by doing nothing. */
  predicate Filtered(status: Status)
  {
    status in {Eof, GotIt, NeedPassphrase, GoodPassphrase, BadPassphrase, UseridHint,
               SigExpired, KeyExpired, Progress, KeyCreated, AlreadySigned, KeyConsidered}
  }

  // ---------- what the caller asks for ----------

  /** gpgme's validities that may be assigned: undefined, never, marginal, full, ultimate. */
  const UNDEFINED := 1
  const ULTIMATE := 5

  datatype Plan =
    | Trust(trust: int)
    | Sign(index: int, local: bool, norevoke: bool, expire: bool, check: int)

  /** The checks at the head of the generators; `uids` is the number of user IDs of the key. */
  predicate InRange(plan: Plan, uids: nat)
  {
    match plan
    case Trust(t) => UNDEFINED <= t <= ULTIMATE
    case Sign(index, _, _, _, check) => 0 <= index <= uids && 0 <= check <= 3
  }

  function Digit(d: nat): (c: char)
    requires d < 10
    ensures c == "0123456789"[d]
  {
    '0' + d as char
  }

  /** '%d' % n */
  function Decimal(n: int): string
    decreases n < 0, if n < 0 then -n else n
  {
    if n < 0 then "-" + Decimal(-n)
    else if n < 10 then [Digit(n)]
    else Decimal(n / 10) + [Digit(n % 10)]
  }

  function Command(local: bool, norevoke: bool): (command: string)
    ensures command == if norevoke then (if local then "nrlsign" else "nrsign") else if local then "lsign" else "sign"
  {
    assert "l" + "sign" == "lsign" && "nr" + "sign" == "nrsign" && "nr" + "lsign" == "nrlsign";
    var command := if local then "l" + "sign" else "sign";
    if norevoke then "nr" + command else command
  }

  // ---------- the generators ----------

  /** Where a generator is suspended, named after what it waits for. */
  datatype Point =
    | Unstarted
    | AwaitMenu            // the first prompt
    | AwaitTrustValue
    | AwaitUltimate        // the confirmation of ultimate trust, or the menu
    | AwaitMenuAgain       // the menu
    | AwaitUidMenu         // the menu, after the user ID was chosen
    | AwaitQuestion        // a question about the signature, or the menu
    | AwaitSave
    | AwaitEnd             // nothing more: any prompt exhausts the generator
    | Closed

  datatype Sent = Yielded(reply: Option<string>) | StopIteration | Raised(e: Exc)

  const BARE_ASSERTION := Exc(OtherError, Some([]))
  const UNEXPECTED_STATE := Exc(OtherError, Some([Text("Unexpected state")]))
  const VALUE_ERROR := Exc(OtherError, Some([Text("out of range")]))

  /** The points at which the generator of `plan` can be once it has started. */
  predicate Suits(plan: Plan, pc: Point)
  {
    if plan.Trust? then pc in {AwaitMenu, AwaitTrustValue, AwaitUltimate, AwaitMenuAgain, AwaitSave, AwaitEnd, Closed}
    else pc in {AwaitMenu, AwaitUidMenu, AwaitQuestion, AwaitSave, AwaitEnd, Closed}
  }

  function Expect(prompt: Prompt, wanted: Prompt, reply: string, next: Point): (Point, Sent)
  {
    if prompt == wanted then (next, Yielded(Some(reply))) else (Closed, Raised(BARE_ASSERTION))
  }

  /** What gen.send does to a generator suspended at `pc`. */
  function Resume(plan: Plan, pc: Point, prompt: Prompt): (Point, Sent)
  {
    match pc
    case AwaitMenu =>
      if plan.Trust? then Expect(prompt, MENU, "trust\n", AwaitTrustValue)
      else Expect(prompt, MENU, "uid " + Decimal(plan.index) + "\n", AwaitUidMenu)
    case AwaitTrustValue =>
      Expect(prompt, TRUST_VALUE, Decimal(if plan.Trust? then plan.trust else 0) + "\n", AwaitUltimate)
    case AwaitUltimate =>
      if prompt == ULTIMATE_OKAY then (AwaitMenuAgain, Yielded(Some("Y\n")))
      else Expect(prompt, MENU, "quit\n", AwaitSave)
    case AwaitMenuAgain => Expect(prompt, MENU, "quit\n", AwaitSave)
    case AwaitUidMenu =>
      Expect(prompt, MENU, (if plan.Sign? then Command(plan.local, plan.norevoke) else "") + "\n", AwaitQuestion)
    case AwaitQuestion =>
      if prompt == MENU then (AwaitSave, Yielded(Some("quit\n")))
      else if plan.Sign? && IsQuestion(prompt) then (AwaitQuestion, Yielded(Some(Answer(plan, prompt) + "\n")))
      else (Closed, Raised(UNEXPECTED_STATE))
    case AwaitSave => Expect(prompt, SAVE_OKAY, "Y\n", AwaitEnd)
    case Unstarted | AwaitEnd | Closed => (Closed, StopIteration)   // the wrapper starts it first
  }

  predicate IsQuestion(prompt: Prompt)
  {
    prompt == SIGN_ALL_OKAY || prompt == SIGN_EXPIRE || prompt == SIGN_CLASS || prompt == SIGN_OKAY
  }

  function Answer(plan: Plan, prompt: Prompt): string
    requires plan.Sign?
  {
    if prompt == SIGN_EXPIRE then (if plan.expire then "Y" else "N")
    else if prompt == SIGN_CLASS then Decimal(plan.check)
    else "Y"
  }

  class Generator {
    const plan: Plan
    const uids: nat
    var pc: Point

    constructor (plan: Plan, uids: nat)
      ensures this.plan == plan && this.uids == uids && pc == Unstarted
    {
      this.plan, this.uids, this.pc := plan, uids, Unstarted;
    }

    /** gen.__next__() on a new generator: the argument checks, then the first yield. */
    method Next() returns (r: Sent)
      requires pc == Unstarted
      modifies this
      ensures r == if InRange(plan, uids) then Yielded(None) else Raised(VALUE_ERROR)
      ensures pc == if InRange(plan, uids) then AwaitMenu else Closed
      ensures r.Raised? <==>
        if plan.Trust? then plan.trust < 1 || plan.trust > 5
        else plan.index < 0 || plan.index > uids || plan.check < 0 || plan.check > 3
    {
      pc := Closed;
      if plan.Trust? {
        if plan.trust !in {1, 2, 3, 4, 5} { return Raised(VALUE_ERROR); }
      } else {
        if plan.index < 0 || plan.index > uids { return Raised(VALUE_ERROR); }
        if plan.check !in {0, 1, 2, 3} { return Raised(VALUE_ERROR); }
      }
      pc := AwaitMenu;
      return Yielded(None);
    }

    /** gen.send((status, args)) */
    method Send(args: Prompt) returns (r: Sent)
      requires Suits(plan, pc)
      modifies this
      ensures (pc, r) == Resume(plan, old(pc), args) && Suits(plan, pc)
    {
      if plan.Trust? { r := SendTrust(args); } else { r := SendSign(args); }
    }

    method SendTrust(args: Prompt) returns (r: Sent)
      requires plan.Trust? && Suits(plan, pc)
      modifies this
      ensures (pc, r) == Resume(plan, old(pc), args) && Suits(plan, pc)
    {
      var at := pc;
      pc := Closed;                        // unless a yield suspends the generator again
      if at == AwaitMenu {
        if args != MENU { return Raised(BARE_ASSERTION); }
        pc := AwaitTrustValue;
        return Yielded(Some("trust\n"));
      }
      if at == AwaitTrustValue {
        if args != TRUST_VALUE { return Raised(BARE_ASSERTION); }
        pc := AwaitUltimate;
        return Yielded(Some(Decimal(plan.trust) + "\n"));
      }
      if at == AwaitUltimate {
        if args == ULTIMATE_OKAY {
          pc := AwaitMenuAgain;
          return Yielded(Some("Y\n"));
        }
        at := AwaitMenuAgain;              // fall through past the if
      }
      if at == AwaitMenuAgain {
        if args != MENU { return Raised(BARE_ASSERTION); }
        pc := AwaitSave;
        return Yielded(Some("quit\n"));
      }
      if at == AwaitSave {
        if args != SAVE_OKAY { return Raised(BARE_ASSERTION); }
        pc := AwaitEnd;
        return Yielded(Some("Y\n"));
      }
      return StopIteration;
    }

    method SendSign(args: Prompt) returns (r: Sent)
      requires plan.Sign? && Suits(plan, pc)
      modifies this
      ensures (pc, r) == Resume(plan, old(pc), args) && Suits(plan, pc)
    {
      var at := pc;
      pc := Closed;                        // unless a yield suspends the generator again
      if at == AwaitMenu {
        if args != MENU { return Raised(BARE_ASSERTION); }
        pc := AwaitUidMenu;
        return Yielded(Some("uid " + Decimal(plan.index) + "\n"));
      }
      if at == AwaitUidMenu {
        if args != MENU { return Raised(BARE_ASSERTION); }
        var command := "sign";
        if plan.local { command := "l" + command; }
        if plan.norevoke { command := "nr" + command; }
        pc := AwaitQuestion;
        return Yielded(Some(command + "\n"));
      }
      if at == AwaitQuestion {
        if args != MENU {                  // the while loop
          pc := AwaitQuestion;
          assert "Y" + "\n" == "Y\n";
          if args == SIGN_ALL_OKAY { return Yielded(Some("Y\n")); }
          if args == SIGN_EXPIRE { return Yielded(Some((if plan.expire then "Y" else "N") + "\n")); }
          if args == SIGN_CLASS { return Yielded(Some(Decimal(plan.check) + "\n")); }
          if args == SIGN_OKAY { return Yielded(Some("Y\n")); }
          pc := Closed;
          return Raised(UNEXPECTED_STATE);
        }
        pc := AwaitSave;
        return Yielded(Some("quit\n"));
      }
      if at == AwaitSave {
        if args != SAVE_OKAY { return Raised(BARE_ASSERTION); }
        pc := AwaitEnd;
        return Yielded(Some("Y\n"));
      }
      return StopIteration;
    }
  }

  // ---------- the wrapper's callback ----------

  /** An editing session: the generator, what was written to gpg, and whether no event has failed. */
  datatype Session = Session(pc: Point, written: string, ok: bool)

  const FRESH := Session(AwaitMenu, "", true)

  const EXHAUSTED := Exc(GpgmeError, Some([Member(SourceEnum, 0), Member(CodeEnum, GENERAL)]))

  function Outcome(sent: Sent): Option<Exc>
  {
    match sent
    case Yielded(_) => None
    case StopIteration => Some(EXHAUSTED)
    case Raised(e) => Some(e)
  }

  function Reply(sent: Sent): string
  {
    if sent.Yielded? && sent.reply.Some? then sent.reply.value else ""
  }

  /** The effect of one unfiltered event with the given prompt. */
  function Prompted(plan: Plan, s: Session, prompt: Prompt): Session
  {
    var (pc, sent) := Resume(plan, s.pc, prompt);
    Session(pc, s.written + Reply(sent), s.ok && Outcome(sent).None?)
  }

  /** The effect of one event. */
  function Handle(plan: Plan, s: Session, ev: Event): Session
  {
    if Filtered(ev.status) then s else Prompted(plan, s, ev.args)
  }

  /** What the callback raises for an event. */
  function Raises(plan: Plan, s: Session, ev: Event): Option<Exc>
  {
    if Filtered(ev.status) then None else Outcome(Resume(plan, s.pc, ev.args).1)
  }

  /** The effect of a sequence of events. */
  function Run(plan: Plan, s: Session, evs: seq<Event>): Session
    decreases |evs|
  {
    if evs == [] then s else Run(plan, Handle(plan, s, evs[0]), evs[1..])
  }

  /** The closure `edit_callback` with the generator and the file descriptor it writes to. */
  class KeyEditor {
    const gen: Generator
    var written: string
    ghost var ok: bool

    ghost predicate Valid()
      reads this, gen
    {
      Suits(gen.plan, gen.pc)
    }

    ghost function State(): Session
      reads this, gen
    {
      Session(gen.pc, written, ok)
    }

    constructor (gen: Generator)
      requires gen.pc == AwaitMenu
      ensures this.gen == gen && Valid() && State() == FRESH
    {
      this.gen, this.written, this.ok := gen, "", true;
    }

    /** edit_callback(status, args, fd): the exception it raises, if any. */
    method EditCallback(status: Status, args: Prompt) returns (raised: Option<Exc>)
      requires Valid()
      modifies this, gen
      ensures Valid()
      ensures State() == Handle(gen.plan, old(State()), Event(status, args))
      ensures raised == Raises(gen.plan, old(State()), Event(status, args))
    {
      if status in {Eof, GotIt, NeedPassphrase, GoodPassphrase, BadPassphrase, UseridHint,
                    SigExpired, KeyExpired, Progress, KeyCreated, AlreadySigned, KeyConsidered} {
        return None;
      }
      var sent := gen.Send(args);
      if sent.StopIteration? {
        ok := false;
        return Some(Exc(GpgmeError, Some([Member(SourceEnum, 0), Member(CodeEnum, GENERAL)])));
      }
      if sent.Raised? {
        ok := false;
        return Some(sent.e);
      }
      if sent.reply.Some? {
        written := written + sent.reply.value;
      }
      return None;
    }
  }

  /** The wrapper up to the first event: None when the arguments are rejected, in which case the
      ValueError reaches the caller and nothing is ever written. */
  method Open(plan: Plan, uids: nat) returns (editor: Option<KeyEditor>)
    ensures editor.Some? <==> InRange(plan, uids)
    ensures editor.Some? <==>
      if plan.Trust? then 1 <= plan.trust <= 5 else 0 <= plan.index <= uids && 0 <= plan.check <= 3
    ensures editor.Some? ==>
      var e := editor.value; fresh(e) && fresh(e.gen) && e.Valid() && e.gen.plan == plan && e.State() == FRESH
  {
    var gen := new Generator(plan, uids);
    var first := gen.Next();
    if first.Raised? { return None; }
    var e := new KeyEditor(gen);
    return Some(e);
  }
}
