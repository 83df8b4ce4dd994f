/** Reading back what an editing session wrote. */
module Transcript {
  import opened Common
  import opened Errors
  import opened Editor
  import opened Grammar

  // ---------- lines ----------

  predicate OneLine(text: string) { '\n' !in text }

  function Join(lines: seq<string>): string
  {
    if lines == [] then "" else lines[0] + "\n" + Join(lines[1..])
  }

  /** Split at the newlines; `cur` is the part of the current line already read. */
  function Split(text: string, cur: string): seq<string>
  {
    if text == "" then []
    else if text[0] == '\n' then [cur] + Split(text[1..], "")
    else Split(text[1..], cur + [text[0]])
  }

  lemma {:induction false} SplitLine(line: string, rest: string, cur: string)
    requires OneLine(line)
    ensures Split(line + "\n" + rest, cur) == [cur + line] + Split(rest, "")
    decreases |line|
  {
    var text := line + "\n" + rest;
    if line == "" {
      assert text[1..] == rest && cur + line == cur;
    } else {
      assert text[1..] == line[1..] + "\n" + rest;
      assert cur + [line[0]] + line[1..] == cur + line;
      SplitLine(line[1..], rest, cur + [line[0]]);
    }
  }

  lemma {:induction false} SplitJoin(lines: seq<string>)
    requires forall k :: 0 <= k < |lines| ==> OneLine(lines[k])
    ensures Split(Join(lines), "") == lines
    decreases |lines|
  {
    if lines != [] {
      SplitLine(lines[0], Join(lines[1..]), "");
      SplitJoin(lines[1..]);
      assert "" + lines[0] == lines[0];
    }
  }

  lemma {:induction false} JoinSnoc(lines: seq<string>, line: string)
    ensures Join(lines + [line]) == Join(lines) + line + "\n"
    decreases |lines|
  {
    if lines == [] {
      assert lines + [line] == [line];
      assert Join([line]) == line + "\n" + "" == line + "\n";
    } else {
      assert (lines + [line])[1..] == lines[1..] + [line];
      JoinSnoc(lines[1..], line);
      assert lines[0] + "\n" + (Join(lines[1..]) + line + "\n") == lines[0] + "\n" + Join(lines[1..]) + line + "\n";
    }
  }

  // ---------- decimal numbers ----------

  function DigitValue(c: char): int { c as int - '0' as int }

  function NumberOf(text: string): int
  {
    if text == "" then 0 else NumberOf(text[..|text| - 1]) * 10 + DigitValue(text[|text| - 1])
  }

  lemma {:induction false} DecimalReadsBack(n: int)
    requires n >= 0
    ensures NumberOf(Decimal(n)) == n
    ensures Decimal(n) != "" && forall k :: 0 <= k < |Decimal(n)| ==> '0' <= Decimal(n)[k] <= '9'
    decreases n
  {
    if n < 10 {
      assert Decimal(n)[..0] == "";
    } else {
      DecimalReadsBack(n / 10);
      assert Decimal(n)[..|Decimal(n)| - 1] == Decimal(n / 10);
    }
  }

  lemma DecimalInjective(a: int, b: int)
    requires a >= 0 && b >= 0 && Decimal(a) == Decimal(b)
    ensures a == b
  {
    DecimalReadsBack(a);
    DecimalReadsBack(b);
  }

  // ---------- what is written, position by position ----------

  /** The answer to the prompt at position `k` of a dialogue. */
  function LineFor(plan: Plan, ps: seq<Prompt>, k: nat): string
    requires k < |ps|
  {
    match plan
    case Trust(trust) =>
      if k == 0 then "trust" else if k == 1 then Decimal(trust) else if ps[k] == MENU then "quit" else "Y"
    case Sign(index, local, norevoke, expire, check) =>
      if k == 0 then "uid " + Decimal(index)
      else if k == 1 then Command(local, norevoke)
      else if ps[k] == MENU then "quit"
      else if ps[k] == SIGN_EXPIRE then (if expire then "Y" else "N")
      else if ps[k] == SIGN_CLASS then Decimal(check)
      else "Y"
  }

  function LinesFor(plan: Plan, ps: seq<Prompt>): (lines: seq<string>)
    ensures |lines| == |ps|
  {
    seq(|ps|, k requires 0 <= k < |ps| => LineFor(plan, ps, k))
  }

  /** How far an open session is, by the number of prompts it has accepted. */
  predicate At(plan: Plan, pc: Point, n: nat)
  {
    && (pc == AwaitMenu <==> n == 0)
    && (pc == AwaitTrustValue || pc == AwaitUidMenu <==> n == 1)
  }

  lemma ReplyIsLine(plan: Plan, pc: Point, ps: seq<Prompt>, p: Prompt)
    requires Suits(plan, pc) && pc != Closed && At(plan, pc, |ps|)
    ensures var (next, sent) := Resume(plan, pc, p);
            sent.Yielded? ==> At(plan, next, |ps| + 1) && Reply(sent) == LineFor(plan, ps + [p], |ps|) + "\n"
  {
    assert "trust" + "\n" == "trust\n" && "quit" + "\n" == "quit\n" && "Y" + "\n" == "Y\n";
  }

  lemma LinesSnoc(plan: Plan, ps: seq<Prompt>, p: Prompt)
    ensures LinesFor(plan, ps + [p]) == LinesFor(plan, ps) + [LineFor(plan, ps + [p], |ps|)]
  {
    assert forall k :: 0 <= k < |ps| ==> LineFor(plan, ps + [p], k) == LineFor(plan, ps, k);
  }

  lemma {:induction false} WritesLines(plan: Plan, ps: seq<Prompt>)
    requires Feed(plan, FRESH, ps).ok
    ensures Feed(plan, FRESH, ps).written == Join(LinesFor(plan, ps))
    ensures At(plan, Feed(plan, FRESH, ps).pc, |ps|)
    decreases |ps|
  {
    if ps != [] {
      var before, p := ps[..|ps| - 1], ps[|ps| - 1];
      assert before + [p] == ps;
      FeedSnoc(plan, FRESH, before, p);
      WritesLines(plan, before);
      OkIffOpen(plan, FRESH, before);
      ReplyIsLine(plan, Feed(plan, FRESH, before).pc, before, p);
      LinesSnoc(plan, before, p);
      var line := LineFor(plan, ps, |before|);
      JoinSnoc(LinesFor(plan, before), line);
      assert Join(LinesFor(plan, before)) + (line + "\n") == Join(LinesFor(plan, before)) + line + "\n";
    }
  }

  lemma LinesAreLines(plan: Plan, ps: seq<Prompt>, uids: nat)
    requires InRange(plan, uids)
    ensures forall k :: 0 <= k < |ps| ==> OneLine(LinesFor(plan, ps)[k])
  {
    DecimalReadsBack(if plan.Trust? then plan.trust else plan.index);
    DecimalReadsBack(if plan.Trust? then plan.trust else plan.check);
    assert OneLine("uid ");
  }

  /** While nothing fails, every unfiltered event gets exactly one line, which answers its prompt. */
  lemma OneLinePerPrompt(plan: Plan, uids: nat, evs: seq<Event>)
    requires InRange(plan, uids) && Run(plan, FRESH, evs).ok
    ensures var ps := Prompts(evs); var lines := Split(Run(plan, FRESH, evs).written, "");
            && |lines| == |ps| && Run(plan, FRESH, evs).written == Join(lines)
            && forall k :: 0 <= k < |ps| ==> lines[k] == LineFor(plan, ps, k) && OneLine(lines[k])
  {
    OnlyPromptsMatter(plan, FRESH, evs);
    WritesLines(plan, Prompts(evs));
    LinesAreLines(plan, Prompts(evs), uids);
    SplitJoin(LinesFor(plan, Prompts(evs)));
  }

  lemma CommandInjective(local: bool, norevoke: bool, local': bool, norevoke': bool)
    requires Command(local, norevoke) == Command(local', norevoke')
    ensures local == local' && norevoke == norevoke'
  {
    assert |"sign"| == 4 && |"l" + "sign"| == 5 && |"nr" + "sign"| == 6 && |"nr" + ("l" + "sign")| == 7;
  }

  /** The second line of a signing session is one of four commands: "l" stands for a local signature,
      "nr" before it for one that cannot be revoked. */
  lemma CommandLine(plan: Plan, uids: nat, evs: seq<Event>)
    requires plan.Sign? && InRange(plan, uids) && Run(plan, FRESH, evs).ok && |Prompts(evs)| >= 2
    ensures var lines := Split(Run(plan, FRESH, evs).written, "");
            && |lines| >= 2
            && (!plan.local && !plan.norevoke ==> lines[1] == "sign")
            && (plan.local && !plan.norevoke ==> lines[1] == "lsign")
            && (!plan.local && plan.norevoke ==> lines[1] == "nrsign")
            && (plan.local && plan.norevoke ==> lines[1] == "nrlsign")
  {
    OneLinePerPrompt(plan, uids, evs);
    assert Split(Run(plan, FRESH, evs).written, "")[1] == LineFor(plan, Prompts(evs), 1);
  }

  /** A whole session for ownertrust, line by line. */
  lemma TrustText(plan: Plan, evs: seq<Event>)
    requires plan.Trust? && 1 <= plan.trust <= 5 && Dialogue(plan, Prompts(evs))
    ensures Split(Run(plan, FRESH, evs).written, "")
            == ["trust", ["012345"[plan.trust]]] + (if |Prompts(evs)| == 5 then ["Y"] else []) + ["quit", "Y"]
  {
    var ps := Prompts(evs);
    AcceptsExactly(plan, evs);
    OneLinePerPrompt(plan, 0, evs);
    assert Decimal(plan.trust) == ["012345"[plan.trust]];
  }

  /** What is written after the command of a signing session, in gpg's own words. */
  function Reaction(plan: Plan, prompt: Prompt): string
    requires plan.Sign? && 0 <= plan.check <= 3
  {
    if prompt == Some("keyedit.prompt") then "quit"
    else if prompt == Some("sign_uid.expire") then (if plan.expire then "Y" else "N")
    else if prompt == Some("sign_uid.class") then ["0123"[plan.check]]
    else "Y"
  }

  lemma LineIsReaction(plan: Plan, ps: seq<Prompt>, k: nat)
    requires plan.Sign? && 0 <= plan.check <= 3 && 2 <= k < |ps|
    ensures LineFor(plan, ps, k) == Reaction(plan, ps[k])
  {
    assert Decimal(plan.check) == ["0123"[plan.check]];
  }

  /** A signing session, line by line, as far as it has got. */
  lemma SignText(plan: Plan, uids: nat, evs: seq<Event>)
    requires plan.Sign? && InRange(plan, uids) && Run(plan, FRESH, evs).ok
    ensures var ps := Prompts(evs); var lines := Split(Run(plan, FRESH, evs).written, "");
            && |lines| == |ps| && (|ps| >= 1 ==> lines[0] == "uid " + Decimal(plan.index))
            && forall k :: 2 <= k < |ps| ==> lines[k] == Reaction(plan, ps[k])
  {
    OneLinePerPrompt(plan, uids, evs);
    forall k | 2 <= k < |Prompts(evs)|
      ensures LineFor(plan, Prompts(evs), k) == Reaction(plan, Prompts(evs)[k])
    {
      LineIsReaction(plan, Prompts(evs), k);
    }
  }

  lemma UidLineInjective(a: int, b: int)
    requires a >= 0 && b >= 0 && "uid " + Decimal(a) == "uid " + Decimal(b)
    ensures a == b
  {
    assert ("uid " + Decimal(a))[4..] == Decimal(a) && ("uid " + Decimal(b))[4..] == Decimal(b);
    DecimalInjective(a, b);
  }

  lemma FirstLineTells(plan: Plan, plan': Plan, ps: seq<Prompt>, ps': seq<Prompt>)
    requires ps != [] && ps' != [] && LineFor(plan, ps, 0) == LineFor(plan', ps', 0)
    ensures plan.Trust? <==> plan'.Trust?
  {
    assert LineFor(plan, ps, 0)[0] == if plan.Trust? then 't' else 'u';
    assert LineFor(plan', ps', 0)[0] == if plan'.Trust? then 't' else 'u';
  }

  /** The line written for a question other than the first two prompts. */
  lemma LineTells(plan: Plan, uids: nat, ps: seq<Prompt>, plan': Plan, uids': nat, ps': seq<Prompt>, k: nat)
    requires plan.Sign? && plan'.Sign? && InRange(plan, uids) && InRange(plan', uids')
    requires 2 <= k < |ps| && k < |ps'| && LineFor(plan, ps, k) == LineFor(plan', ps', k)
    ensures ps[k] == SIGN_CLASS ==> ps'[k] == SIGN_CLASS && plan'.check == plan.check
    ensures ps[k] == SIGN_EXPIRE && !plan.expire ==> ps'[k] == SIGN_EXPIRE && !plan'.expire
  {
    assert Decimal(plan.check) == [Digit(plan.check)] && Decimal(plan'.check) == [Digit(plan'.check)];
    assert LineFor(plan, ps, k)[0] == LineFor(plan', ps', k)[0];
  }

  lemma AnswersTell(plan: Plan, uids: nat, ps: seq<Prompt>, plan': Plan, uids': nat, ps': seq<Prompt>)
    requires plan.Sign? && plan'.Sign? && InRange(plan, uids) && InRange(plan', uids')
    requires Dialogue(plan, ps) && |ps'| == |ps| && forall k :: 0 <= k < |ps| ==> LineFor(plan, ps, k) == LineFor(plan', ps', k)
    ensures SIGN_CLASS in ps ==> SIGN_CLASS in ps' && plan'.check == plan.check
    ensures SIGN_EXPIRE in ps && !plan.expire ==> SIGN_EXPIRE in ps' && !plan'.expire
  {
    assert ps[0] == MENU && ps[1] == MENU;
    if k :| 0 <= k < |ps| && ps[k] == SIGN_CLASS { LineTells(plan, uids, ps, plan', uids', ps', k); }
    if k :| !plan.expire && 0 <= k < |ps| && ps[k] == SIGN_EXPIRE { LineTells(plan, uids, ps, plan', uids', ps', k); }
  }

  lemma SameLines(plan: Plan, uids: nat, evs: seq<Event>, plan': Plan, uids': nat, evs': seq<Event>)
    requires InRange(plan, uids) && Dialogue(plan, Prompts(evs)) && SameTranscript(plan, evs, plan', uids', evs')
    ensures |Prompts(evs)| == |Prompts(evs')| >= 4
    ensures forall k :: 0 <= k < |Prompts(evs)| ==> LineFor(plan, Prompts(evs), k) == LineFor(plan', Prompts(evs'), k)
  {
    AcceptsExactly(plan, evs);
    AcceptsExactly(plan', evs');
    OneLinePerPrompt(plan, uids, evs);
    OneLinePerPrompt(plan', uids', evs');
    var lines := Split(Run(plan, FRESH, evs).written, "");
    assert forall k :: 0 <= k < |lines| ==> lines[k] == LineFor(plan, Prompts(evs), k) == LineFor(plan', Prompts(evs'), k);
  }

  /** A completed session for arguments in range that writes what the session of `plan` on `evs` wrote. */
  ghost predicate SameTranscript(plan: Plan, evs: seq<Event>, plan': Plan, uids': nat, evs': seq<Event>)
  {
    && InRange(plan', uids') && Dialogue(plan', Prompts(evs'))
    && Run(plan', FRESH, evs').written == Run(plan, FRESH, evs).written
  }

  /** What a completed session wrote determines what was asked for, whatever gpg asked in the other one:
      the kind of edit, the trust, or the user ID and the two flags of the signature; the check level if
      it was asked for; and the expiry if both sessions were asked, or if the answer was no. */
  lemma TranscriptDetermines(plan: Plan, uids: nat, evs: seq<Event>, plan': Plan, uids': nat, evs': seq<Event>)
    requires InRange(plan, uids) && Dialogue(plan, Prompts(evs)) && SameTranscript(plan, evs, plan', uids', evs')
    ensures |Prompts(evs)| == |Prompts(evs')|
    ensures plan.Trust? ==> plan' == plan
    ensures plan.Sign? ==>
      && plan'.Sign? && plan'.index == plan.index
      && plan'.local == plan.local && plan'.norevoke == plan.norevoke
      && (SIGN_CLASS in Prompts(evs) ==> SIGN_CLASS in Prompts(evs') && plan'.check == plan.check)
      && (SIGN_EXPIRE in Prompts(evs) && (SIGN_EXPIRE in Prompts(evs') || !plan.expire) ==> plan'.expire == plan.expire)
  {
    var ps, ps' := Prompts(evs), Prompts(evs');
    SameLines(plan, uids, evs, plan', uids', evs');
    assert LineFor(plan, ps, 0) == LineFor(plan', ps', 0) && LineFor(plan, ps, 1) == LineFor(plan', ps', 1);
    FirstLineTells(plan, plan', ps, ps');
    if plan.Trust? {
      DecimalInjective(plan.trust, plan'.trust);
    } else {
      UidLineInjective(plan.index, plan'.index);
      CommandInjective(plan.local, plan.norevoke, plan'.local, plan'.norevoke);
      AnswersTell(plan, uids, ps, plan', uids', ps');
      AnswersTell(plan', uids', ps', plan, uids, ps);
    }
  }

  // ---------- what a transcript does not tell ----------

  /** Events that gpg could send for these prompts. */
  function EventsOf(ps: seq<Prompt>): (evs: seq<Event>)
    ensures Prompts(evs) == ps
  {
    if ps == [] then [] else [Event(OtherStatus(0), ps[0])] + EventsOf(ps[1..])
  }

  lemma SameText(plan: Plan, evs: seq<Event>, plan': Plan, uids': nat, evs': seq<Event>)
    requires Dialogue(plan, Prompts(evs)) && Dialogue(plan', Prompts(evs')) && InRange(plan', uids')
    requires LinesFor(plan, Prompts(evs)) == LinesFor(plan', Prompts(evs'))
    ensures SameTranscript(plan, evs, plan', uids', evs')
  {
    AcceptsExactly(plan, evs);
    AcceptsExactly(plan', evs');
    OnlyPromptsMatter(plan, FRESH, evs);
    OnlyPromptsMatter(plan', FRESH, evs');
    WritesLines(plan, Prompts(evs));
    WritesLines(plan', Prompts(evs'));
  }

  /** The same dialogue with the question about expiry replaced by one that is always answered with "Y". */
  function Disguised(ps: seq<Prompt>): (r: seq<Prompt>)
    ensures |r| == |ps| && forall k :: 0 <= k < |ps| ==> r[k] == if ps[k] == SIGN_EXPIRE then SIGN_OKAY else ps[k]
  {
    seq(|ps|, k requires 0 <= k < |ps| => if ps[k] == SIGN_EXPIRE then SIGN_OKAY else ps[k])
  }

  lemma DisguisedDialogue(plan: Plan, ps: seq<Prompt>)
    requires plan.Sign? && Dialogue(plan, ps)
    ensures Dialogue(plan, Disguised(ps))
  {
    var q :| Questions(q) && ps == [MENU, MENU] + q + [MENU, SAVE_OKAY];
    assert Questions(Disguised(q));
    assert Disguised(ps) == [MENU, MENU] + Disguised(q) + [MENU, SAVE_OKAY];
  }

  /** A session that was asked about expiry and said yes, and one that did not want it and was not asked. */
  lemma YesIsAmbiguous(plan: Plan, uids: nat, evs: seq<Event>) returns (evs': seq<Event>)
    requires plan.Sign? && plan.expire && InRange(plan, uids) && Dialogue(plan, Prompts(evs))
    ensures SameTranscript(plan, evs, plan.(expire := false), uids, evs')
  {
    var ps, plan' := Prompts(evs), plan.(expire := false);
    evs' := EventsOf(Disguised(ps));
    DisguisedDialogue(plan, ps);
    assert Dialogue(plan', Disguised(ps));
    assert ps[0] == MENU && ps[1] == MENU;
    assert forall k :: 0 <= k < |ps| ==> LineFor(plan, ps, k) == LineFor(plan', Disguised(ps), k);
    SameText(plan, evs, plan', uids, evs');
  }

  /** What was not asked for is not told. */
  lemma UnaskedIsAmbiguous(plan: Plan, uids: nat, evs: seq<Event>, plan': Plan)
    requires plan.Sign? && plan'.Sign? && InRange(plan', uids) && Dialogue(plan, Prompts(evs))
    requires plan' == plan.(expire := plan'.expire, check := plan'.check)
    requires SIGN_EXPIRE in Prompts(evs) ==> plan'.expire == plan.expire
    requires SIGN_CLASS in Prompts(evs) ==> plan'.check == plan.check
    ensures SameTranscript(plan, evs, plan', uids, evs)
  {
    assert Dialogue(plan', Prompts(evs));
    assert LinesFor(plan, Prompts(evs)) == LinesFor(plan', Prompts(evs));
    SameText(plan, evs, plan', uids, evs);
  }

  /** Whether the signature expires can be told from the transcript if and only if the question was asked
      and answered with no: a "Y" does not tell which question it answers. */
  lemma ExpiryToldIff(plan: Plan, uids: nat, evs: seq<Event>)
    requires plan.Sign? && InRange(plan, uids) && Dialogue(plan, Prompts(evs))
    ensures (forall plan', uids', evs' :: SameTranscript(plan, evs, plan', uids', evs') ==>
               plan'.Sign? && plan'.expire == plan.expire)
            <==> SIGN_EXPIRE in Prompts(evs) && !plan.expire
  {
    if SIGN_EXPIRE in Prompts(evs) && !plan.expire {
      forall plan', uids', evs' | SameTranscript(plan, evs, plan', uids', evs')
        ensures plan'.Sign? && plan'.expire == plan.expire
      {
        TranscriptDetermines(plan, uids, evs, plan', uids', evs');
      }
    } else if plan.expire {
      var evs' := YesIsAmbiguous(plan, uids, evs);
    } else {
      UnaskedIsAmbiguous(plan, uids, evs, plan.(expire := true));
    }
  }

  /** The check level can be told if and only if it was asked for. */
  lemma CheckToldIff(plan: Plan, uids: nat, evs: seq<Event>)
    requires plan.Sign? && InRange(plan, uids) && Dialogue(plan, Prompts(evs))
    ensures (forall plan', uids', evs' :: SameTranscript(plan, evs, plan', uids', evs') ==>
               plan'.Sign? && plan'.check == plan.check)
            <==> SIGN_CLASS in Prompts(evs)
  {
    if SIGN_CLASS in Prompts(evs) {
      forall plan', uids', evs' | SameTranscript(plan, evs, plan', uids', evs')
        ensures plan'.Sign? && plan'.check == plan.check
      {
        TranscriptDetermines(plan, uids, evs, plan', uids', evs');
      }
    } else {
      UnaskedIsAmbiguous(plan, uids, evs, plan.(check := (plan.check + 1) % 4));
    }
  }
}
