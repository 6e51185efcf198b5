/** How a caller of the approval protocol ends: what it was answered decides, unless it was struck by a
    cancellation or by a failing prompt (pycodex/tools/orchestrator.py). */
module ApprovalOutcomes {
  import opened Prelude
  import opened Approval
  import opened ApprovalProtocol
  import opened ApprovalSafety

  predicate Grants(d: Decision) { d == Approved || d == ApprovedForSession }

  predicate Strikes(a: Action, p: nat) { a == Act(p, Cancel) || a == Act(p, AskFails) }

  /** The caller was cancelled, or its prompt failed, somewhere in the run. */
  predicate Struck(actions: seq<Action>, p: nat) { exists i :: 0 <= i < |actions| && Strikes(actions[i], p) }

  /** Where a caller with an answer of its own can be. */
  predicate Follows(pc: Pc, d: Decision) {
    || ((pc.Finalizing? || pc.InFinalize?) && pc.decision == Some(d))
    || (pc == Running(ByAnswer(d)) && Grants(d))
    || (pc == Done(Executed(ByAnswer(d))) && Grants(d))
    || (pc == Done(Refused(d)) && (d == Denied || d == Abort))
    || pc == Done(Cancelled)
  }

  /** What holds of a caller in every state of a run; `struck` says whether it was struck so far. */
  ghost predicate OnCourse(s: State, p: nat, struck: bool)
    requires p < |s.callers|
  {
    var pc := s.callers[p].pc;
    && (pc.Finalizing? || pc.InFinalize? ==> (pc.gone ==> struck) && (pc.decision.None? ==> pc.gone))
    && (pc == Done(Cancelled) ==> struck)
    && (pc.Done? && pc.outcome.Refused? ==> pc.outcome.decision == Denied || pc.outcome.decision == Abort)
    && (forall i :: 0 <= i < |s.answers| && s.answers[i].asker == Some(p) ==> Follows(pc, s.answers[i].decision))
    && (pc.Running? && pc.grant.ByAnswer? ==> Answer(Some(p), s.callers[p].key, pc.grant.decision) in s.answers)
    && (pc.Done? && pc.outcome.Executed? && pc.outcome.grant.ByAnswer? ==>
          Answer(Some(p), s.callers[p].key, pc.outcome.grant.decision) in s.answers)
    && (pc.Done? && pc.outcome.Refused? ==> Answer(Some(p), s.callers[p].key, pc.outcome.decision) in s.answers)
  }

  /** A step of somebody else. */
  lemma OthersStepStaysOnCourse(s: State, a: Action, p: nat, struck: bool)
    requires Inv(s) && Enabled(s, a) && p < |s.callers| && OnCourse(s, p, struck) && (a.Act? ==> a.p != p)
    ensures p < |Step(s, a).callers| && OnCourse(Step(s, a), p, struck)
  {
    var s' := Step(s, a);
    assert s'.callers[p] == s.callers[p] && s.answers <= s'.answers;
    assert forall i :: |s.answers| <= i < |s'.answers| ==> s'.answers[i].asker != Some(p);
  }

  lemma NotYetAnswered(s: State, p: nat)
    requires AnswersInv(s) && p < |s.callers| && (Unprompted(s.callers[p].pc) || s.callers[p].pc.Prompting?)
    ensures forall i :: 0 <= i < |s.answers| ==> s.answers[i].asker != Some(p)
  {
    forall i | 0 <= i < |s.answers|
      ensures s.answers[i].asker != Some(p)
    {
      if s.answers[i].asker.Some? {
        assert AnswerInv(s, s.answers[i]);
      }
    }
  }

  /** A step of a caller that has no answer yet. */
  lemma AskingStaysOnCourse(s: State, p: nat, move: Move, struck: bool)
    requires Inv(s) && Enabled(s, Act(p, move)) && OnCourse(s, p, struck)
    requires Unprompted(s.callers[p].pc) || s.callers[p].pc.Prompting?
    ensures OnCourse(Step(s, Act(p, move)), p, struck || Strikes(Act(p, move), p))
  {
    NotYetAnswered(s, p);
  }

  /** A step of a caller behind its prompt, or on its way without one. */
  lemma AnsweredStaysOnCourse(s: State, p: nat, move: Move, struck: bool)
    requires Inv(s) && Enabled(s, Act(p, move)) && OnCourse(s, p, struck)
    requires !Unprompted(s.callers[p].pc) && !s.callers[p].pc.Prompting?
    ensures OnCourse(Step(s, Act(p, move)), p, struck || Strikes(Act(p, move), p))
  {
    assert CallerInv(s, p);
  }

  lemma StepStaysOnCourse(s: State, a: Action, p: nat, struck: bool)
    requires Inv(s) && Enabled(s, a) && p < |s.callers| && OnCourse(s, p, struck)
    ensures p < |Step(s, a).callers| && OnCourse(Step(s, a), p, struck || Strikes(a, p))
  {
    if a.Act? && a.p == p {
      if Unprompted(s.callers[p].pc) || s.callers[p].pc.Prompting? {
        AskingStaysOnCourse(s, p, a.move, struck);
      } else {
        AnsweredStaysOnCourse(s, p, a.move, struck);
      }
    } else {
      OthersStepStaysOnCourse(s, a, p, struck);
    }
  }

  lemma StepKeepsKeys(s: State, a: Action, p: nat)
    requires Enabled(s, a) && p < |s.callers|
    ensures p < |Step(s, a).callers| && Step(s, a).callers[p].key == s.callers[p].key
  {}

  lemma {:induction false} RunStaysOnCourse(s: State, actions: seq<Action>, p: nat, struck: bool)
    requires Inv(s) && Possible(s, actions) && p < |s.callers| && OnCourse(s, p, struck)
    ensures Inv(Run(s, actions)) && p < |Run(s, actions).callers|
    ensures Run(s, actions).callers[p].key == s.callers[p].key
    ensures OnCourse(Run(s, actions), p, struck || Struck(actions, p))
    decreases |actions|
  {
    if actions == [] {
    } else {
      var a, rest := actions[0], actions[1..];
      StepKeeps(s, a);
      StepKeepsKeys(s, a, p);
      StepStaysOnCourse(s, a, p, struck);
      RunStaysOnCourse(Step(s, a), rest, p, struck || Strikes(a, p));
      StruckFirstOrLater(actions, p);
    }
  }

  lemma StruckFirstOrLater(actions: seq<Action>, p: nat)
    requires actions != []
    ensures Struck(actions, p) <==> Strikes(actions[0], p) || Struck(actions[1..], p)
  {
    if i :| 0 <= i < |actions[1..]| && Strikes(actions[1..][i], p) {
      assert Strikes(actions[i + 1], p);
    }
    if i :| 0 <= i < |actions| && Strikes(actions[i], p) && i > 0 {
      assert Strikes(actions[1..][i - 1], p);
    }
  }

  /** In every run: only a caller that was struck ends cancelled; a refusal is a denial or an abort; and a
      caller that is done without having been struck ran its tool on its own answer if it has a granting
      one, was refused by its own answer if it has another one, and ran its tool on the cache if it has
      none. */
  lemma OutcomeIsDecided(s: State, actions: seq<Action>, p: nat)
    requires Initial(s) && Possible(s, actions) && p < |s.callers|
    ensures p < |Run(s, actions).callers| && Run(s, actions).callers[p].key == s.callers[p].key
    ensures var t, pc := Run(s, actions), Run(s, actions).callers[p].pc;
      && (pc == Done(Cancelled) ==> Struck(actions, p))
      && (pc.Done? && pc.outcome.Refused? ==> pc.outcome.decision == Denied || pc.outcome.decision == Abort)
      && (pc.Done? && !Struck(actions, p) ==>
            && (forall d :: Answer(Some(p), s.callers[p].key, d) in t.answers ==>
                  pc == Done(if d == Approved || d == ApprovedForSession then Executed(ByAnswer(d)) else Refused(d)))
            && ((forall d :: Answer(Some(p), s.callers[p].key, d) !in t.answers) ==> pc == Done(Executed(ByCache))))
  {
    InitialInv(s);
    RunStaysOnCourse(s, actions, p, false);
    var t := Run(s, actions);
    forall d | Answer(Some(p), s.callers[p].key, d) in t.answers
      ensures Follows(t.callers[p].pc, d)
    {
      var i :| 0 <= i < |t.answers| && t.answers[i] == Answer(Some(p), s.callers[p].key, d);
      assert t.answers[i].asker == Some(p);
    }
  }

  // ---------------------------------------------------------------------------------------
  // Callers that find their key approved.

  /** The caller has asked nobody yet, or runs on the cache, or was cancelled. */
  predicate Unasked(pc: Pc) {
    Unprompted(pc) || pc == Running(ByCache) || pc == Done(Executed(ByCache)) || pc == Done(Cancelled)
  }

  lemma {:induction false} ApprovedCallerNeedsNoAnswer(s: State, actions: seq<Action>, p: nat)
    requires Possible(s, actions) && p < |s.callers|
    requires SessionApproved(s.store, s.callers[p].key) && Unasked(s.callers[p].pc)
    ensures p < |Run(s, actions).callers| && Unasked(Run(s, actions).callers[p].pc)
    decreases |actions|
  {
    if actions == [] {
    } else {
      ApprovedCallerNeedsNoAnswer(Step(s, actions[0]), actions[1..], p);
    }
  }

  /** A caller whose key is approved for the session before it has asked runs its tool on the cache, unless
      it is cancelled; nobody is asked. */
  lemma ApprovedKeyRunsOnCache(s: State, before: seq<Action>, after: seq<Action>, p: nat)
    requires Initial(s) && Possible(s, before) && Possible(Run(s, before), after)
    requires p < |Run(s, before).callers|
    requires var m := Run(s, before);
      SessionApproved(m.store, m.callers[p].key) && Unprompted(m.callers[p].pc)
    ensures var t := Run(Run(s, before), after);
      && p < |t.callers|
      && (t.callers[p].pc.Done? && !Struck(after, p) ==> t.callers[p].pc == Done(Executed(ByCache)))
  {
    InitialInv(s);
    RunKeeps(s, before);
    var m := Run(s, before);
    ApprovedCallerNeedsNoAnswer(m, after, p);
    NotYetAnswered(m, p);
    RunStaysOnCourse(m, after, p, false);
  }

  // ---------------------------------------------------------------------------------------
  // The recorded answers are the replies.

  function Replies(actions: seq<Action>): seq<(nat, Decision)> {
    if actions == [] then []
    else
      (if actions[0].Act? && actions[0].move.Reply? then [(actions[0].p, actions[0].move.decision)] else [])
      + Replies(actions[1..])
  }

  function Given(answers: seq<Answer>): seq<(nat, Decision)> {
    if answers == [] then []
    else
      var last := answers[|answers| - 1];
      Given(answers[..|answers| - 1]) + if last.asker.Some? then [(last.asker.value, last.decision)] else []
  }

  /** What callers are recorded to have been answered is what was replied to them, in order. */
  lemma {:induction false} AnswersAreReplies(s: State, actions: seq<Action>)
    requires Possible(s, actions)
    ensures Given(Run(s, actions).answers) == Given(s.answers) + Replies(actions)
    decreases |actions|
  {
    if actions == [] {
      assert Given(s.answers) + [] == Given(s.answers);
    } else {
      var a, next := actions[0], Step(s, actions[0]);
      var first := if a.Act? && a.move.Reply? then [(a.p, a.move.decision)] else [];
      if next.answers != s.answers {
        assert next.answers[..|s.answers|] == s.answers;
      }
      assert Given(next.answers) == Given(s.answers) + first;
      AnswersAreReplies(next, actions[1..]);
      ConcatAssociates(Given(s.answers), first, Replies(actions[1..]));
    }
  }

  // ---------------------------------------------------------------------------------------
  // Session-wide replies are remembered.

  predicate Publishing(pc: Pc) { (pc.Finalizing? || pc.InFinalize?) && pc.decision == Some(ApprovedForSession) }

  /** A session-wide reply is in the store, or on its way there. */
  ghost predicate Kept(s: State, i: nat)
    requires i < |s.answers|
  {
    var answer := s.answers[i];
    answer.asker.Some? && answer.decision == ApprovedForSession ==>
      && answer.asker.value < |s.callers| && s.callers[answer.asker.value].key == answer.key
      && (SessionApproved(s.store, answer.key) || Publishing(s.callers[answer.asker.value].pc))
  }

  lemma StepStillKeeps(s: State, a: Action, i: nat)
    requires Enabled(s, a) && i < |s.answers| && Kept(s, i)
    ensures i < |Step(s, a).answers| && Kept(Step(s, a), i)
  {}

  lemma NewAnswerIsKept(s: State, a: Action)
    requires Enabled(s, a)
    ensures var t := Step(s, a);
      |t.answers| == |s.answers| || (|t.answers| == |s.answers| + 1 && Kept(t, |s.answers|))
  {}

  lemma {:induction false} RunStillKeeps(s: State, actions: seq<Action>)
    requires Possible(s, actions) && forall i :: 0 <= i < |s.answers| ==> Kept(s, i)
    ensures forall i :: 0 <= i < |Run(s, actions).answers| ==> Kept(Run(s, actions), i)
    decreases |actions|
  {
    if actions == [] {
    } else {
      var t := Step(s, actions[0]);
      NewAnswerIsKept(s, actions[0]);
      forall i | 0 <= i < |t.answers|
        ensures Kept(t, i)
      {
        if i < |s.answers| { StepStillKeeps(s, actions[0], i); }
      }
      RunStillKeeps(t, actions[1..]);
    }
  }

  /** In every run: a session-wide approval that the user replied is remembered once the asking caller is
      done, also when the caller itself was cancelled after the reply. */
  lemma SessionReplyIsRemembered(s: State, actions: seq<Action>, p: nat, key: Key)
    requires Initial(s) && Possible(s, actions)
    requires Answer(Some(p), key, ApprovedForSession) in Run(s, actions).answers
    ensures var t := Run(s, actions);
      && p < |t.callers| && t.callers[p].key == key
      && (t.callers[p].pc.Done? ==> SessionApproved(t.store, key))
  {
    RunStillKeeps(s, actions);
    var t := Run(s, actions);
    var i :| 0 <= i < |t.answers| && t.answers[i] == Answer(Some(p), key, ApprovedForSession);
    assert Kept(t, i);
  }
}
