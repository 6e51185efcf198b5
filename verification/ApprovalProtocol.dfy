/** Many coroutines asking for approval at once: the retry loop of `_execute_with_standard_approval`
    under the policies that ask the user, as an interleaving transition system
    (pycodex/tools/orchestrator.py). */
module ApprovalProtocol {
  import opened Prelude
  import opened Approval

  /** Why a call may run its tool. */
  datatype Grant = ByCache | ByAnswer(decision: Decision)

  datatype Outcome = Executed(grant: Grant) | Refused(decision: Decision) | Cancelled

  /** Where a coroutine is. `Finalizing` and `InFinalize` are the shielded task that clears the prompt;
      `gone` says its owner was cancelled, or its callback failed, and only the task is left. */
  datatype Pc =
    | Start
    | WantLock
    | InLock
    | Waiting(event: nat)
    | Prompting(event: nat)
    | Finalizing(event: nat, decision: Option<Decision>, gone: bool)
    | InFinalize(event: nat, decision: Option<Decision>, gone: bool)
    | Running(grant: Grant)
    | Done(outcome: Outcome)

  datatype Caller = Caller(key: Key, pc: Pc)

  /** What the user said about a key, and the caller that asked; `None` for any other path. */
  datatype Answer = Answer(asker: Option<nat>, key: Key, decision: Decision)

  /** `prompts` lists the callers that asked the user, `answers` what the user said, in order. */
  datatype State = State(
    callers: seq<Caller>, store: Store, lock: Option<nat>, prompts: seq<nat>, answers: seq<Answer>)

  datatype Move =
    | Enter                       // the unlocked cache check
    | Lock
    | Decide                      // the locked section; releases the lock
    | Wake
    | Reply(decision: Decision)   // the user decides
    | AskFails                    // the owner is cancelled while prompting, or its callback raises
    | LockFinal
    | Publish                     // the locked section of the finaliser; releases the lock
    | Finish
    | Cancel

  /** A move of caller `p`, or a decision stored by another path of the orchestrator. */
  datatype Action = Act(p: nat, move: Move) | PutElsewhere(key: Key, decision: Decision)

  predicate Owner(pc: Pc) { pc.Prompting? || pc.Finalizing? || pc.InFinalize? }

  predicate HoldsLock(pc: Pc) { pc.InLock? || pc.InFinalize? }

  predicate Unprompted(pc: Pc) { pc.Start? || pc.WantLock? || pc.InLock? || pc.Waiting? }

  predicate CanMove(pc: Pc, move: Move, lockFree: bool, signalled: set<nat>) {
    match move
    case Enter => pc.Start?
    case Lock => pc.WantLock? && lockFree
    case Decide => pc.InLock?
    case Wake => pc.Waiting? && pc.event in signalled
    case Reply(_) => pc.Prompting?
    case AskFails => pc.Prompting?
    case LockFinal => pc.Finalizing? && lockFree
    case Publish => pc.InFinalize?
    case Finish => pc.Running?
    case Cancel =>
      pc.Start? || pc.WantLock? || pc.Waiting? || pc.Running? || ((pc.Finalizing? || pc.InFinalize?) && !pc.gone)
  }

  predicate Enabled(s: State, a: Action) {
    a.Act? ==> a.p < |s.callers| && CanMove(s.callers[a.p].pc, a.move, s.lock.None?, s.store.signalled)
  }

  function At(s: State, p: nat, pc: Pc): State
    requires p < |s.callers|
  {
    s.(callers := s.callers[p := Caller(s.callers[p].key, pc)])
  }

  /** What the owner does with its decision once the prompt is cleared. */
  function AfterDecision(decision: Option<Decision>, gone: bool): Pc {
    if gone || decision.None? then Done(Cancelled)
    else if decision.value == Abort || decision.value == Denied then Done(Refused(decision.value))
    else Running(ByAnswer(decision.value))
  }

  function Step(s: State, a: Action): State
    requires Enabled(s, a)
  {
    match a
    case PutElsewhere(key, decision) =>
      s.(store := Put(s.store, key, decision), answers := s.answers + [Answer(None, key, decision)])
    case Act(p, move) =>
      var key, pc := s.callers[p].key, s.callers[p].pc;
      match move
      case Enter => At(s, p, if SessionApproved(s.store, key) then Running(ByCache) else WantLock)
      case Lock => At(s.(lock := Some(p)), p, InLock)
      case Decide =>
        var free := s.(lock := None);
        if SessionApproved(s.store, key) then At(free, p, Running(ByCache))
        else if key in s.store.pending then At(free, p, Waiting(s.store.pending[key]))
        else At(free.(store := CreatePending(s.store, key), prompts := s.prompts + [p]), p, Prompting(s.store.created))
      case Wake => At(s, p, WantLock)
      case Reply(decision) =>
        At(s.(answers := s.answers + [Answer(Some(p), key, decision)]), p, Finalizing(pc.event, Some(decision), false))
      case AskFails => At(s, p, Finalizing(pc.event, None, true))
      case LockFinal => At(s.(lock := Some(p)), p, InFinalize(pc.event, pc.decision, pc.gone))
      case Publish =>
        At(s.(lock := None, store := Finalize(s.store, key, pc.decision)), p, AfterDecision(pc.decision, pc.gone))
      case Finish => At(s, p, Done(Executed(pc.grant)))
      case Cancel =>
        At(s, p, match pc
                 case Finalizing(e, d, _) => Finalizing(e, d, true)
                 case InFinalize(e, d, _) => InFinalize(e, d, true)
                 case _ => Done(Cancelled))
  }

  /** Any number of callers about to ask, over a store with no prompt in flight. Decisions may already be
      cached, if the user gave them earlier. */
  ghost predicate Initial(s: State) {
    && (forall p :: 0 <= p < |s.callers| ==> s.callers[p].pc == Start)
    && (forall i :: 0 <= i < |s.answers| ==> s.answers[i].asker.None?)
    && s.store.pending == map[] && StoreInv(s) && s.lock == None && s.prompts == []
  }

  predicate Possible(s: State, actions: seq<Action>)
    decreases |actions|
  {
    actions == [] || (Enabled(s, actions[0]) && Possible(Step(s, actions[0]), actions[1..]))
  }

  function Run(s: State, actions: seq<Action>): State
    requires Possible(s, actions)
    decreases |actions|
  {
    if actions == [] then s else Run(Step(s, actions[0]), actions[1..])
  }

  // ---------------------------------------------------------------------------------------
  // Safety.

  ghost predicate LockInv(s: State) {
    && (s.lock.Some? ==> s.lock.value < |s.callers|)
    && forall p :: 0 <= p < |s.callers| ==> (HoldsLock(s.callers[p].pc) <==> s.lock == Some(p))
  }

  ghost predicate StoreInv(s: State) {
    && (forall k :: k in s.store.pending ==>
          s.store.pending[k] < s.store.created && s.store.pending[k] !in s.store.signalled)
    && (forall k, l :: k in s.store.pending && l in s.store.pending && k != l ==>
          s.store.pending[k] != s.store.pending[l])
    && (forall e :: e in s.store.signalled ==> e < s.store.created)
    && (forall k :: k in s.store.cache ==> s.store.cache[k] == ApprovedForSession && GaveForSession(s.answers, k))
  }

  /** The user approved the key for the session. */
  ghost predicate GaveForSession(answers: seq<Answer>, key: Key) {
    exists i :: 0 <= i < |answers| && answers[i].key == key && answers[i].decision == ApprovedForSession
  }

  ghost predicate CallerInv(s: State, p: nat)
    requires p < |s.callers|
  {
    var key, pc := s.callers[p].key, s.callers[p].pc;
    && (Owner(pc) ==> key in s.store.pending && s.store.pending[key] == pc.event)
    && (pc.Waiting? ==> pc.event in s.store.signalled || (key in s.store.pending && s.store.pending[key] == pc.event))
    && (Unprompted(pc) ==> p !in s.prompts)
    && ((pc.Finalizing? || pc.InFinalize?) && pc.decision.Some? ==>
          Answer(Some(p), key, pc.decision.value) in s.answers)
    && (pc.Running? ==> Justified(s, p, pc.grant))
    && (pc.Done? && pc.outcome.Executed? ==> Justified(s, p, pc.outcome.grant))
    && (pc.Done? && pc.outcome.Refused? ==> Answer(Some(p), key, pc.outcome.decision) in s.answers)
  }

  /** Caller `p` asked and the user approved, or the key was approved for the session. */
  ghost predicate Justified(s: State, p: nat, grant: Grant)
    requires p < |s.callers|
  {
    match grant
    case ByCache => SessionApproved(s.store, s.callers[p].key) && GaveForSession(s.answers, s.callers[p].key)
    case ByAnswer(decision) =>
      && (decision == Approved || decision == ApprovedForSession)
      && Answer(Some(p), s.callers[p].key, decision) in s.answers
  }

  /** Every answer a caller got is about its key, is its only one, and came after it asked. */
  ghost predicate AnswersInv(s: State) {
    && (forall i :: 0 <= i < |s.answers| && s.answers[i].asker.Some? ==> AnswerInv(s, s.answers[i]))
    && (forall i, j :: 0 <= i < j < |s.answers| && s.answers[i].asker.Some? ==>
          s.answers[i].asker != s.answers[j].asker)
  }

  ghost predicate AnswerInv(s: State, a: Answer)
    requires a.asker.Some?
  {
    && a.asker.value < |s.callers| && s.callers[a.asker.value].key == a.key
    && !Unprompted(s.callers[a.asker.value].pc) && !s.callers[a.asker.value].pc.Prompting?
  }

  ghost predicate OwnersInv(s: State) {
    && (forall p, q :: 0 <= p < q < |s.callers| && Owner(s.callers[p].pc) && Owner(s.callers[q].pc) ==>
          s.callers[p].key != s.callers[q].key)
    && (forall k :: k in s.store.pending ==> exists p :: OwnerOf(s, k, p))
  }

  ghost predicate OwnerOf(s: State, key: Key, p: nat) {
    p < |s.callers| && s.callers[p].key == key && Owner(s.callers[p].pc)
  }

  ghost predicate PromptsInv(s: State) {
    && (forall i :: 0 <= i < |s.prompts| ==> s.prompts[i] < |s.callers|)
    && (forall i, j :: 0 <= i < j < |s.prompts| ==> s.prompts[i] != s.prompts[j])
  }

  ghost predicate Inv(s: State) {
    && LockInv(s) && StoreInv(s) && OwnersInv(s) && PromptsInv(s) && AnswersInv(s)
    && forall p {:trigger CallerInv(s, p)} :: 0 <= p < |s.callers| ==> CallerInv(s, p)
  }

  lemma InitialInv(s: State)
    requires Initial(s)
    ensures Inv(s)
  {}

  lemma GaveStays(answers: seq<Answer>, more: seq<Answer>)
    requires answers <= more
    ensures forall k :: GaveForSession(answers, k) ==> GaveForSession(more, k)
  {
    forall k | GaveForSession(answers, k)
      ensures GaveForSession(more, k)
    {
      var i :| 0 <= i < |answers| && answers[i].key == k && answers[i].decision == ApprovedForSession;
      assert more[i] == answers[i];
    }
  }

  /** What a caller that does not move needs of the others' step. */
  lemma OthersKeep(s: State, s': State, p: nat)
    requires Inv(s) && p < |s.callers| && |s'.callers| == |s.callers|
    requires s'.callers == s.callers[p := s'.callers[p]] && s'.callers[p].key == s.callers[p].key
    requires s.answers <= s'.answers && s'.prompts <= s.prompts + [p]
    requires forall k :: SessionApproved(s.store, k) ==> SessionApproved(s'.store, k)
    requires s.store.signalled <= s'.store.signalled
    requires forall k :: k in s.store.pending && k != s.callers[p].key ==>
               k in s'.store.pending && s'.store.pending[k] == s.store.pending[k]
    requires s.callers[p].key in s.store.pending ==>
               var e := s.store.pending[s.callers[p].key];
               e in s'.store.signalled
               || (s.callers[p].key in s'.store.pending && s'.store.pending[s.callers[p].key] == e)
    requires s'.store.pending == s.store.pending || (forall q :: OwnerOf(s, s.callers[p].key, q) ==> q == p)
    requires CallerInv(s', p)
    ensures forall q :: 0 <= q < |s'.callers| ==> CallerInv(s', q)
  {
    GaveStays(s.answers, s'.answers);
    forall q | 0 <= q < |s'.callers|
      ensures CallerInv(s', q)
    {
      assert CallerInv(s, q);
      assert Owner(s.callers[q].pc) ==> OwnerOf(s, s.callers[q].key, q);
    }
  }

  lemma AnswersKeep(s: State, p: nat, move: Move)
    requires Inv(s) && Enabled(s, Act(p, move))
    ensures AnswersInv(Step(s, Act(p, move)))
  {
    var s' := Step(s, Act(p, move));
    forall i | 0 <= i < |s'.answers| && s'.answers[i].asker.Some?
      ensures AnswerInv(s', s'.answers[i])
    {
      if i < |s.answers| {
        assert AnswerInv(s, s.answers[i]);
      }
    }
    if move.Reply? {
      forall i | 0 <= i < |s.answers| && s.answers[i].asker.Some?
        ensures s.answers[i].asker != Some(p)
      {
        assert AnswerInv(s, s.answers[i]);
      }
    }
  }

  /** A move that leaves the store alone and neither starts nor ends an ownership. */
  predicate Quiet(s: State, p: nat, move: Move)
    requires Enabled(s, Act(p, move))
  {
    && !move.Publish?
    && (move.Decide? ==> SessionApproved(s.store, s.callers[p].key) || s.callers[p].key in s.store.pending)
  }

  lemma MoverKeeps(s: State, p: nat, move: Move)
    requires Inv(s) && Enabled(s, Act(p, move)) && Quiet(s, p, move)
    ensures CallerInv(Step(s, Act(p, move)), p)
  {
    assert CallerInv(s, p);
    GaveStays(s.answers, Step(s, Act(p, move)).answers);
  }

  lemma LockKeeps(s: State, p: nat, move: Move)
    requires LockInv(s) && Enabled(s, Act(p, move))
    ensures LockInv(Step(s, Act(p, move)))
  {}

  lemma QuietMoveKeeps(s: State, p: nat, move: Move)
    requires Inv(s) && Enabled(s, Act(p, move)) && Quiet(s, p, move)
    ensures Inv(Step(s, Act(p, move)))
  {
    var s' := Step(s, Act(p, move));
    MoverKeeps(s, p, move);
    LockKeeps(s, p, move);
    AnswersKeep(s, p, move);
    QuietFrame(s, p, move);
    OthersKeep(s, s', p);
    OwnersStay(s, s', p);
    GaveStays(s.answers, s'.answers);
  }

  lemma QuietFrame(s: State, p: nat, move: Move)
    requires Inv(s) && Enabled(s, Act(p, move)) && Quiet(s, p, move)
    ensures var s' := Step(s, Act(p, move));
      && |s'.callers| == |s.callers| && s'.callers == s.callers[p := s'.callers[p]]
      && s'.callers[p].key == s.callers[p].key
      && s'.store == s.store && s'.prompts == s.prompts && s.answers <= s'.answers
      && Owner(s'.callers[p].pc) == Owner(s.callers[p].pc)
  {}

  lemma OwnersStay(s: State, s': State, p: nat)
    requires OwnersInv(s) && p < |s.callers| && |s'.callers| == |s.callers|
    requires s'.callers == s.callers[p := s'.callers[p]] && s'.callers[p].key == s.callers[p].key
    requires s'.store.pending == s.store.pending && Owner(s'.callers[p].pc) == Owner(s.callers[p].pc)
    ensures OwnersInv(s')
  {
    forall k | k in s'.store.pending
      ensures exists q :: OwnerOf(s', k, q)
    {
      var q :| OwnerOf(s, k, q);
      assert OwnerOf(s', k, q);
    }
  }

  lemma OwnersHoldTheirKeys(s: State)
    requires Inv(s)
    ensures forall p :: 0 <= p < |s.callers| && Owner(s.callers[p].pc) ==> s.callers[p].key in s.store.pending
  {
    forall p | 0 <= p < |s.callers| && Owner(s.callers[p].pc)
      ensures s.callers[p].key in s.store.pending
    {
      assert CallerInv(s, p);
    }
  }

  lemma ClaimKeeps(s: State, p: nat)
    requires Inv(s) && Enabled(s, Act(p, Decide)) && !Quiet(s, p, Decide)
    ensures Inv(Step(s, Act(p, Decide)))
  {
    var s' := Step(s, Act(p, Decide));
    OwnersHoldTheirKeys(s);
    assert CallerInv(s, p);
    OthersKeep(s, s', p);
    AnswersKeep(s, p, Decide);
    forall k | k in s'.store.pending
      ensures exists q :: OwnerOf(s', k, q)
    {
      if k == s.callers[p].key {
        assert OwnerOf(s', k, p);
      } else {
        var q :| OwnerOf(s, k, q);
        assert OwnerOf(s', k, q);
      }
    }
  }

  lemma PublishKeeps(s: State, p: nat)
    requires Inv(s) && Enabled(s, Act(p, Publish))
    ensures Inv(Step(s, Act(p, Publish)))
  {
    var s' := Step(s, Act(p, Publish));
    assert CallerInv(s, p);
    assert OwnerOf(s, s.callers[p].key, p);
    OthersKeep(s, s', p);
    AnswersKeep(s, p, Publish);
    PublishedStore(s, p);
    forall k | k in s'.store.pending
      ensures exists q :: OwnerOf(s', k, q)
    {
      var q :| OwnerOf(s, k, q);
      assert OwnerOf(s', k, q);
    }
  }

  lemma PublishedStore(s: State, p: nat)
    requires Inv(s) && Enabled(s, Act(p, Publish))
    ensures StoreInv(Step(s, Act(p, Publish)))
  {
    assert CallerInv(s, p);
    var pc, key := s.callers[p].pc, s.callers[p].key;
    if pc.decision == Some(ApprovedForSession) {
      var i :| 0 <= i < |s.answers| && s.answers[i] == Answer(Some(p), key, ApprovedForSession);
      assert GaveForSession(s.answers, key);
    }
  }

  lemma PutKeeps(s: State, key: Key, decision: Decision)
    requires Inv(s)
    ensures Inv(Step(s, PutElsewhere(key, decision)))
  {
    var s' := Step(s, PutElsewhere(key, decision));
    GaveStays(s.answers, s'.answers);
    if decision == ApprovedForSession {
      assert s'.answers[|s.answers|] == Answer(None, key, ApprovedForSession);
      assert GaveForSession(s'.answers, key);
    }
    forall q | 0 <= q < |s'.callers|
      ensures CallerInv(s', q)
    {
      assert CallerInv(s, q);
    }
    forall i | 0 <= i < |s'.answers| && s'.answers[i].asker.Some?
      ensures AnswerInv(s', s'.answers[i])
    {
      assert AnswerInv(s, s.answers[i]);
    }
    forall k | k in s'.store.pending
      ensures exists q :: OwnerOf(s', k, q)
    {
      var q :| OwnerOf(s, k, q);
      assert OwnerOf(s', k, q);
    }
  }

  lemma StepKeeps(s: State, a: Action)
    requires Inv(s) && Enabled(s, a)
    ensures Inv(Step(s, a))
  {
    match a
    case PutElsewhere(key, decision) => PutKeeps(s, key, decision);
    case Act(p, move) =>
      if move.Publish? {
        PublishKeeps(s, p);
      } else if Quiet(s, p, move) {
        QuietMoveKeeps(s, p, move);
      } else {
        ClaimKeeps(s, p);
      }
  }

  lemma {:induction false} RunKeeps(s: State, actions: seq<Action>)
    requires Inv(s) && Possible(s, actions)
    ensures Inv(Run(s, actions))
    decreases |actions|
  {
    if actions == [] {
    } else {
      StepKeeps(s, actions[0]);
      RunKeeps(Step(s, actions[0]), actions[1..]);
    }
  }
}
