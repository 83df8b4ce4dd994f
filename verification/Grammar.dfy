/** What the key editors accept and what they write, stated without program points. */
module Grammar {
  import opened Common
  import opened Errors
  import opened Editor

  // ---------- only the prompts of unfiltered events matter ----------

  /** The prompts of the events that are not filtered out. */
  function Prompts(evs: seq<Event>): seq<Prompt>
  {
    if evs == [] then []
    else (if Filtered(evs[0].status) then [] else [evs[0].args]) + Prompts(evs[1..])
  }

  function Feed(plan: Plan, s: Session, ps: seq<Prompt>): Session
    decreases |ps|
  {
    if ps == [] then s else Feed(plan, Prompted(plan, s, ps[0]), ps[1..])
  }

  /** Filtered events can be inserted and deleted anywhere, and the statuses of the others do not
      matter: a session is a function of its prompts. */
  lemma {:induction false} OnlyPromptsMatter(plan: Plan, s: Session, evs: seq<Event>)
    ensures Run(plan, s, evs) == Feed(plan, s, Prompts(evs))
    decreases |evs|
  {
    if evs != [] {
      OnlyPromptsMatter(plan, Handle(plan, s, evs[0]), evs[1..]);
      if Filtered(evs[0].status) {
        assert Prompts(evs) == Prompts(evs[1..]);
      } else {
        assert Prompts(evs)[1..] == Prompts(evs[1..]);
      }
    }
  }

  lemma {:induction false} PromptsConcat(a: seq<Event>, b: seq<Event>)
    ensures Prompts(a + b) == Prompts(a) + Prompts(b)
    decreases |a|
  {
    if a == [] {
      assert a + b == b;
    } else {
      assert (a + b)[1..] == a[1..] + b;
      PromptsConcat(a[1..], b);
    }
  }

  lemma StutterInvariance(plan: Plan, before: seq<Event>, noise: Event, after: seq<Event>)
    requires Filtered(noise.status)
    ensures Run(plan, FRESH, before + [noise] + after) == Run(plan, FRESH, before + after)
  {
    OnlyPromptsMatter(plan, FRESH, before + [noise] + after);
    OnlyPromptsMatter(plan, FRESH, before + after);
    PromptsConcat(before + [noise], after);
    PromptsConcat(before, [noise]);
    PromptsConcat(before, after);
    assert Prompts([noise]) == [];
    assert Prompts(before) + [] == Prompts(before);
  }

  lemma {:induction false} FeedSnoc(plan: Plan, s: Session, ps: seq<Prompt>, p: Prompt)
    ensures Feed(plan, s, ps + [p]) == Prompted(plan, Feed(plan, s, ps), p)
    decreases |ps|
  {
    if ps != [] {
      assert (ps + [p])[1..] == ps[1..] + [p];
      FeedSnoc(plan, Prompted(plan, s, ps[0]), ps[1..], p);
    }
  }

  /** A generator that has failed or been exhausted is closed for good: nothing is written any more. */
  lemma {:induction false} FailureIsAbsorbing(plan: Plan, s: Session, ps: seq<Prompt>)
    requires s.pc == Closed && !s.ok
    ensures Feed(plan, s, ps) == s
    decreases |ps|
  {
    if ps != [] {
      assert Prompted(plan, s, ps[0]) == s;
      FailureIsAbsorbing(plan, s, ps[1..]);
    }
  }

  /** A session fails exactly when its generator closes. */
  lemma {:induction false} OkIffOpen(plan: Plan, s: Session, ps: seq<Prompt>)
    requires Suits(plan, s.pc) && (s.ok <==> s.pc != Closed)
    ensures var end := Feed(plan, s, ps); Suits(plan, end.pc) && (end.ok <==> end.pc != Closed)
    decreases |ps|
  {
    if ps != [] { OkIffOpen(plan, Prompted(plan, s, ps[0]), ps[1..]); }
  }

  // ---------- the grammar ----------

  predicate Questions(q: seq<Prompt>) { forall i :: 0 <= i < |q| ==> IsQuestion(q[i]) }

  /** The complete dialogues: what gpg asks from the first prompt to the last. */
  ghost predicate Dialogue(plan: Plan, w: seq<Prompt>)
  {
    if plan.Trust? then
      w == [MENU, TRUST_VALUE, MENU, SAVE_OKAY] || w == [MENU, TRUST_VALUE, ULTIMATE_OKAY, MENU, SAVE_OKAY]
    else
      exists q :: Questions(q) && w == [MENU, MENU] + q + [MENU, SAVE_OKAY]
  }

  /** The same in gpg's own words. */
  lemma DialogueWords(plan: Plan, w: seq<Prompt>)
    ensures plan.Trust? ==>
      (Dialogue(plan, w) <==>
        || w == [Some("keyedit.prompt"), Some("edit_ownertrust.value"), Some("keyedit.prompt"), Some("keyedit.save.okay")]
        || w == [Some("keyedit.prompt"), Some("edit_ownertrust.value"), Some("edit_ownertrust.set_ultimate.okay"),
                 Some("keyedit.prompt"), Some("keyedit.save.okay")])
    ensures plan.Sign? ==>
      (Dialogue(plan, w) <==>
        && |w| >= 4 && w[0] == Some("keyedit.prompt") && w[1] == Some("keyedit.prompt")
        && (forall i :: 2 <= i < |w| - 2 ==>
              w[i] in {Some("keyedit.sign_all.okay"), Some("sign_uid.expire"), Some("sign_uid.class"), Some("sign_uid.okay")})
        && w[|w| - 2] == Some("keyedit.prompt") && w[|w| - 1] == Some("keyedit.save.okay"))
  {
    if plan.Sign? && |w| >= 4 {
      var q := w[2..|w| - 2];
      assert forall i :: 0 <= i < |q| ==> q[i] == w[i + 2];
      if w == [MENU, MENU] + q + [MENU, SAVE_OKAY] && Questions(q) { assert Dialogue(plan, w); }
    }
  }

  /** The wrapper's callback answers the twelve statuses it names by doing nothing, and no other. */
  lemma TwelveFiltered(status: Status)
    ensures Filtered(status) <==> !status.OtherStatus?
  {
  }

  ghost predicate StartsDialogue(plan: Plan, ps: seq<Prompt>)
  {
    exists w :: Dialogue(plan, w) && ps <= w
  }

  /** The dialogues that may still follow at a program point. */
  ghost predicate Rest(plan: Plan, pc: Point, w: seq<Prompt>)
  {
    match pc
    case AwaitMenu => Dialogue(plan, w)
    case AwaitTrustValue => w == [TRUST_VALUE, MENU, SAVE_OKAY] || w == [TRUST_VALUE, ULTIMATE_OKAY, MENU, SAVE_OKAY]
    case AwaitUltimate => w == [MENU, SAVE_OKAY] || w == [ULTIMATE_OKAY, MENU, SAVE_OKAY]
    case AwaitMenuAgain => w == [MENU, SAVE_OKAY]
    case AwaitUidMenu => exists q :: Questions(q) && w == [MENU] + q + [MENU, SAVE_OKAY]
    case AwaitQuestion => exists q :: Questions(q) && w == q + [MENU, SAVE_OKAY]
    case AwaitSave => w == [SAVE_OKAY]
    case AwaitEnd => w == []
    case Unstarted | Closed => false
  }

  lemma QuestionStep(plan: Plan, p: Prompt, w: seq<Prompt>)
    requires plan.Sign?
    ensures var (next, sent) := Resume(plan, AwaitQuestion, p);
            Rest(plan, AwaitQuestion, [p] + w) <==> sent.Yielded? && Rest(plan, next, w)
  {
    var (next, sent) := Resume(plan, AwaitQuestion, p);
    if Rest(plan, AwaitQuestion, [p] + w) {
      var q :| Questions(q) && [p] + w == q + [MENU, SAVE_OKAY];
      assert p == ([p] + w)[0];
      if q == [] {
        assert p == MENU;
        assert w == ([p] + w)[1..] == [SAVE_OKAY];
      } else {
        assert p == q[0];
        assert w == ([p] + w)[1..] == q[1..] + [MENU, SAVE_OKAY];
        assert Questions(q[1..]);
      }
    }
    if sent.Yielded? && Rest(plan, next, w) {
      if p == MENU {
        assert [p] + w == [] + [MENU, SAVE_OKAY];
        assert Questions([]);
      } else {
        var q :| Questions(q) && w == q + [MENU, SAVE_OKAY];
        assert [p] + w == ([p] + q) + [MENU, SAVE_OKAY];
        assert Questions([p] + q);
      }
    }
  }

  lemma UidMenuStep(plan: Plan, p: Prompt, w: seq<Prompt>)
    requires plan.Sign?
    ensures var (next, sent) := Resume(plan, AwaitUidMenu, p);
            Rest(plan, AwaitUidMenu, [p] + w) <==> sent.Yielded? && Rest(plan, next, w)
  {
    if q :| Questions(q) && [p] + w == [MENU] + q + [MENU, SAVE_OKAY] {
      assert p == ([p] + w)[0] && w == ([p] + w)[1..] == q + [MENU, SAVE_OKAY];
    }
    if q :| p == MENU && Questions(q) && w == q + [MENU, SAVE_OKAY] {
      assert [p] + w == [MENU] + q + [MENU, SAVE_OKAY];
    }
  }

  lemma SignMenuStep(plan: Plan, p: Prompt, w: seq<Prompt>)
    requires plan.Sign?
    ensures var (next, sent) := Resume(plan, AwaitMenu, p);
            Dialogue(plan, [p] + w) <==> sent.Yielded? && Rest(plan, next, w)
  {
    if q :| Questions(q) && [p] + w == [MENU, MENU] + q + [MENU, SAVE_OKAY] {
      assert p == ([p] + w)[0] && w == ([p] + w)[1..] == [MENU] + q + [MENU, SAVE_OKAY];
    }
    if q :| p == MENU && Questions(q) && w == [MENU] + q + [MENU, SAVE_OKAY] {
      assert [p] + w == [MENU, MENU] + q + [MENU, SAVE_OKAY];
    }
  }

  /** A prompt is accepted exactly when some dialogue continues with it. */
  lemma RestStep(plan: Plan, pc: Point, p: Prompt, w: seq<Prompt>)
    requires Suits(plan, pc)
    ensures var (next, sent) := Resume(plan, pc, p);
            Rest(plan, pc, [p] + w) <==> sent.Yielded? && Rest(plan, next, w)
  {
    if plan.Sign? && pc == AwaitQuestion {
      QuestionStep(plan, p, w);
    } else if plan.Sign? && pc == AwaitMenu {
      SignMenuStep(plan, p, w);
    } else if plan.Sign? && pc == AwaitUidMenu {
      UidMenuStep(plan, p, w);
    } else {
      assert ([p] + w)[0] == p && ([p] + w)[1..] == w;
    }
  }

  lemma RestExists(plan: Plan, pc: Point) returns (w: seq<Prompt>)
    requires Suits(plan, pc) && pc != Closed
    ensures Rest(plan, pc, w)
  {
    var end := [] + [MENU, SAVE_OKAY];
    assert Questions([]);
    w := match pc
      case AwaitMenu => if plan.Trust? then [MENU, TRUST_VALUE, MENU, SAVE_OKAY] else [MENU, MENU] + [] + [MENU, SAVE_OKAY]
      case AwaitTrustValue => [TRUST_VALUE, MENU, SAVE_OKAY]
      case AwaitUltimate | AwaitMenuAgain => [MENU, SAVE_OKAY]
      case AwaitUidMenu => [MENU] + [] + [MENU, SAVE_OKAY]
      case AwaitQuestion => [] + [MENU, SAVE_OKAY]
      case AwaitSave => [SAVE_OKAY]
      case _ => [];
  }

  lemma {:induction false} CompletesRest(plan: Plan, s: Session, ps: seq<Prompt>)
    requires Suits(plan, s.pc) && s.ok && s.pc != Closed
    ensures Feed(plan, s, ps).ok && Feed(plan, s, ps).pc == AwaitEnd <==> Rest(plan, s.pc, ps)
    decreases |ps|
  {
    if ps != [] {
      assert ps == [ps[0]] + ps[1..];
      RestStep(plan, s.pc, ps[0], ps[1..]);
      var s' := Prompted(plan, s, ps[0]);
      if s'.ok { CompletesRest(plan, s', ps[1..]); } else { FailureIsAbsorbing(plan, s', ps[1..]); }
    }
  }

  /** Beginnings of the dialogues that may follow at `pc`. */
  ghost predicate Begins(plan: Plan, pc: Point, ps: seq<Prompt>)
  {
    exists w :: Rest(plan, pc, w) && ps <= w
  }

  lemma BeginsStep(plan: Plan, pc: Point, p: Prompt, ps: seq<Prompt>)
    requires Suits(plan, pc)
    ensures var (next, sent) := Resume(plan, pc, p);
            Begins(plan, pc, [p] + ps) <==> sent.Yielded? && Begins(plan, next, ps)
  {
    var (next, sent) := Resume(plan, pc, p);
    if w :| Rest(plan, pc, w) && [p] + ps <= w {
      assert w == [p] + w[1..];
      RestStep(plan, pc, p, w[1..]);
      assert ([p] + ps)[1..] == ps <= w[1..];
    }
    if w :| sent.Yielded? && Rest(plan, next, w) && ps <= w {
      RestStep(plan, pc, p, w);
      assert [p] + ps <= [p] + w;
    }
  }

  lemma {:induction false} AcceptsRest(plan: Plan, s: Session, ps: seq<Prompt>)
    requires Suits(plan, s.pc) && s.ok && s.pc != Closed
    ensures Feed(plan, s, ps).ok <==> Begins(plan, s.pc, ps)
    decreases |ps|
  {
    if ps == [] {
      var w := RestExists(plan, s.pc);
      assert ps <= w;
    } else {
      assert ps == [ps[0]] + ps[1..];
      BeginsStep(plan, s.pc, ps[0], ps[1..]);
      var s' := Prompted(plan, s, ps[0]);
      if s'.ok { AcceptsRest(plan, s', ps[1..]); } else { FailureIsAbsorbing(plan, s', ps[1..]); }
    }
  }

  /** The editors accept exactly the beginnings of the dialogues, and are complete exactly on the
      dialogues; any event after the last reply fails. */
  lemma AcceptsExactly(plan: Plan, evs: seq<Event>)
    ensures Run(plan, FRESH, evs).ok <==> StartsDialogue(plan, Prompts(evs))
    ensures Run(plan, FRESH, evs).ok && Run(plan, FRESH, evs).pc == AwaitEnd <==> Dialogue(plan, Prompts(evs))
  {
    OnlyPromptsMatter(plan, FRESH, evs);
    AcceptsRest(plan, FRESH, Prompts(evs));
    CompletesRest(plan, FRESH, Prompts(evs));
    if w :| Dialogue(plan, w) && Prompts(evs) <= w { assert Rest(plan, AwaitMenu, w); }
  }

  lemma {:induction false} RunConcat(plan: Plan, s: Session, evs: seq<Event>, more: seq<Event>)
    ensures Run(plan, s, evs + more) == Run(plan, Run(plan, s, evs), more)
    decreases |evs|
  {
    if evs == [] {
      assert evs + more == more;
    } else {
      assert (evs + more)[1..] == evs[1..] + more;
      RunConcat(plan, Handle(plan, s, evs[0]), evs[1..], more);
    }
  }

  /** Once an event has failed, nothing that follows writes or succeeds. */
  lemma NothingAfterFailure(plan: Plan, evs: seq<Event>, more: seq<Event>)
    requires !Run(plan, FRESH, evs).ok
    ensures Run(plan, FRESH, evs + more) == Run(plan, FRESH, evs)
  {
    var s := Run(plan, FRESH, evs);
    RunConcat(plan, FRESH, evs, more);
    OnlyPromptsMatter(plan, FRESH, evs);
    OkIffOpen(plan, FRESH, Prompts(evs));
    OnlyPromptsMatter(plan, s, more);
    FailureIsAbsorbing(plan, s, Prompts(more));
  }

  /** The callback raises at the first unfiltered event that leaves the grammar and at every unfiltered
      event after it, at no other, and an event at which it raises writes nothing. */
  lemma FailsExactly(plan: Plan, evs: seq<Event>, ev: Event)
    ensures var s := Run(plan, FRESH, evs);
            && (Raises(plan, s, ev).Some? <==> !Filtered(ev.status) && !StartsDialogue(plan, Prompts(evs + [ev])))
            && (Raises(plan, s, ev).Some? ==> Handle(plan, s, ev).written == s.written)
  {
    var s := Run(plan, FRESH, evs);
    AcceptsExactly(plan, evs + [ev]);
    AcceptsExactly(plan, evs);
    RunConcat(plan, FRESH, evs, [ev]);
    assert Run(plan, s, [ev]) == Handle(plan, s, ev);
    OnlyPromptsMatter(plan, FRESH, evs);
    OkIffOpen(plan, FRESH, Prompts(evs));
  }
}
