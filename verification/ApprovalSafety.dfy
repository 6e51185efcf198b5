/** What the approval protocol keeps in every interleaving (pycodex/tools/orchestrator.py,
    pycodex/approval/policy.py). */
module ApprovalSafety {
  import opened Prelude
  import opened Approval
  import opened ApprovalProtocol

  ghost predicate ExecutedBy(s: State, p: nat, grant: Grant) {
    p < |s.callers| && s.callers[p].pc == Done(Executed(grant))
  }

  predicate RunBy(pc: Pc) { pc.Done? && pc.outcome.Executed? }

  predicate RefusedTo(pc: Pc) { pc.Done? && pc.outcome.Refused? }

  /** In every interleaving, with cancellation anywhere: at most one coroutine is in a locked section; a
      key is pending exactly while one live owner (or the finaliser it left behind) holds it; whoever
      waits, waits for an event that is set or that such an owner will set. */
  lemma Safety(s: State, actions: seq<Action>)
    requires Initial(s) && Possible(s, actions)
    ensures var t := Run(s, actions);
      && (forall p, q :: 0 <= p < q < |t.callers| ==> !(HoldsLock(t.callers[p].pc) && HoldsLock(t.callers[q].pc)))
      && (forall k :: k in t.store.pending <==> exists p :: OwnerOf(t, k, p))
      && (forall k, p, q :: OwnerOf(t, k, p) && OwnerOf(t, k, q) ==> p == q)
      && (forall p :: 0 <= p < |t.callers| && t.callers[p].pc.Waiting? ==>
            || t.callers[p].pc.event in t.store.signalled
            || exists q: nat ::
                 OwnerOf(t, t.callers[p].key, q) && t.callers[q].pc.event == t.callers[p].pc.event)
  {
    InitialInv(s);
    RunKeeps(s, actions);
    var t := Run(s, actions);
    forall k
      ensures k in t.store.pending <==> exists p :: OwnerOf(t, k, p)
    {
      if p :| OwnerOf(t, k, p) {
        assert CallerInv(t, p);
      }
    }
    forall p | 0 <= p < |t.callers| && t.callers[p].pc.Waiting?
      ensures
        || t.callers[p].pc.event in t.store.signalled
        || exists q: nat :: OwnerOf(t, t.callers[p].key, q) && t.callers[q].pc.event == t.callers[p].pc.event
    {
      assert CallerInv(t, p);
      if t.callers[p].pc.event !in t.store.signalled {
        var q :| OwnerOf(t, t.callers[p].key, q);
        assert CallerInv(t, q);
      }
    }
  }

  /** An approval does not transfer. Whoever ran its tool on an answer got that very answer, to its own
      question about its own key, and it granted the call; whoever ran it on the cache had its key
      approved for the session; whoever was refused got the refusal itself. No caller is answered twice. */
  lemma ExecutionsAreApproved(s: State, actions: seq<Action>)
    requires Initial(s) && Possible(s, actions)
    ensures var t := Run(s, actions);
      && (forall p: nat :: p < |t.callers| && RunBy(t.callers[p].pc) ==>
            match t.callers[p].pc.outcome.grant
            case ByAnswer(decision) =>
              && (decision == Approved || decision == ApprovedForSession)
              && Answer(Some(p), t.callers[p].key, decision) in t.answers
            case ByCache => GaveForSession(t.answers, t.callers[p].key))
      && (forall p: nat :: p < |t.callers| && RefusedTo(t.callers[p].pc) ==>
            Answer(Some(p), t.callers[p].key, t.callers[p].pc.outcome.decision) in t.answers)
      && (forall i, j :: 0 <= i < j < |t.answers| && t.answers[i].asker.Some? ==>
            t.answers[i].asker != t.answers[j].asker)
  {
    InitialInv(s);
    RunKeeps(s, actions);
    var t := Run(s, actions);
    forall p: nat | p < |t.callers| && RunBy(t.callers[p].pc)
      ensures Justified(t, p, t.callers[p].pc.outcome.grant)
    {
      assert CallerInv(t, p);
    }
    forall p: nat | p < |t.callers| && RefusedTo(t.callers[p].pc)
      ensures Answer(Some(p), t.callers[p].key, t.callers[p].pc.outcome.decision) in t.answers
    {
      assert CallerInv(t, p);
    }
  }

  /** How often the user approved a caller's question for this one time. */
  function SingleApprovals(answers: seq<Answer>): nat {
    if answers == [] then 0
    else
      var last := answers[|answers| - 1];
      SingleApprovals(answers[..|answers| - 1]) + if last.asker.Some? && last.decision == Approved then 1 else 0
  }

  lemma {:induction false} AnsweredCallersCounted(answers: seq<Answer>, ps: set<nat>)
    requires forall p :: p in ps ==> exists key :: Answer(Some(p), key, Approved) in answers
    ensures |ps| <= SingleApprovals(answers)
    decreases |answers|
  {
    if answers == [] {
      assert ps == {};
    } else {
      var before, last := answers[..|answers| - 1], answers[|answers| - 1];
      var rest := if last.asker.Some? && last.decision == Approved then ps - {last.asker.value} else ps;
      forall p | p in rest
        ensures exists key :: Answer(Some(p), key, Approved) in before
      {
        var key :| Answer(Some(p), key, Approved) in answers;
        assert answers == before + [last];
      }
      AnsweredCallersCounted(before, rest);
      if last.asker.Some? {
        assert ps <= rest + {last.asker.value};
      }
    }
  }

  /** Calls run on a single-use approval are at most as many as the single-use approvals given. */
  lemma SingleUseApprovalsAreNotShared(s: State, actions: seq<Action>, ran: set<nat>)
    requires Initial(s) && Possible(s, actions)
    requires forall p :: p in ran ==> ExecutedBy(Run(s, actions), p, ByAnswer(Approved))
    ensures |ran| <= SingleApprovals(Run(s, actions).answers)
  {
    ExecutionsAreApproved(s, actions);
    var t := Run(s, actions);
    forall p | p in ran
      ensures exists key :: Answer(Some(p), key, Approved) in t.answers
    {
      assert ExecutedBy(t, p, ByAnswer(Approved)) && RunBy(t.callers[p].pc);
      assert Answer(Some(p), t.callers[p].key, Approved) in t.answers;
    }
    AnsweredCallersCounted(t.answers, ran);
  }

  /** A key approved for the session stays approved, and nobody is asked about it again. */
  lemma {:induction false} SessionApprovalIsForever(s: State, actions: seq<Action>, key: Key)
    requires Possible(s, actions) && SessionApproved(s.store, key)
    requires forall i :: 0 <= i < |s.prompts| ==> s.prompts[i] < |s.callers|
    ensures var t := Run(s, actions);
      && SessionApproved(t.store, key)
      && |t.callers| == |s.callers| && s.prompts <= t.prompts
      && (forall i :: |s.prompts| <= i < |t.prompts| ==>
            t.prompts[i] < |s.callers| && s.callers[t.prompts[i]].key != key)
    decreases |actions|
  {
    if actions == [] {
    } else {
      var next := Step(s, actions[0]);
      SessionApprovalIsForever(next, actions[1..], key);
      var t := Run(next, actions[1..]);
      forall i | |s.prompts| <= i < |t.prompts|
        ensures t.prompts[i] < |s.callers| && s.callers[t.prompts[i]].key != key
      {
        if i < |next.prompts| {
          assert t.prompts[i] == next.prompts[i];
        }
      }
    }
  }
}
