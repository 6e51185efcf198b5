/** Progress of the approval protocol: one measure falls with every step of a caller, and somebody can
    always move while a caller is unfinished (pycodex/tools/orchestrator.py). */
module ApprovalProgress {
  import opened Approval
  import opened ApprovalProtocol

  /** A caller's distance from the end. `n` is the number of callers: clearing a prompt may send all of
      them one loop back, by three units each. */
  function Weight(pc: Pc, signalled: set<nat>, n: nat): nat {
    match pc
    case Done(_) => 0
    case Running(_) => 1
    case InFinalize(_, _, gone) => 4 * n + 2 + if gone then 0 else 1
    case Finalizing(_, _, gone) => 4 * n + 5 + if gone then 0 else 1
    case Prompting(_) => 4 * n + 8
    case Waiting(e) => if e in signalled then 4 * n + 14 else 4 * n + 11
    case InLock => 4 * n + 12
    case WantLock => 4 * n + 13
    case Start => 4 * n + 15
  }

  function Total(callers: seq<Caller>, signalled: set<nat>, n: nat): nat {
    if callers == [] then 0
    else Weight(callers[0].pc, signalled, n) + Total(callers[1..], signalled, n)
  }

  function Measure(s: State): nat { Total(s.callers, s.store.signalled, |s.callers|) }

  lemma {:induction false} TotalUpdate(callers: seq<Caller>, p: nat, c: Caller, signalled: set<nat>, n: nat)
    requires p < |callers|
    ensures Total(callers[p := c], signalled, n)
         == Total(callers, signalled, n) - Weight(callers[p].pc, signalled, n) + Weight(c.pc, signalled, n)
    decreases p
  {
    if p > 0 {
      assert callers[p := c][1..] == callers[1..][p - 1 := c];
      TotalUpdate(callers[1..], p - 1, c, signalled, n);
    } else {
      assert callers[p := c][1..] == callers[1..];
    }
  }

  lemma {:induction false} TotalSignalled(callers: seq<Caller>, before: set<nat>, after: set<nat>, n: nat)
    requires before <= after
    ensures Total(callers, after, n) <= Total(callers, before, n) + 3 * |callers|
  {
    if callers == [] {
    } else {
      TotalSignalled(callers[1..], before, after, n);
    }
  }

  lemma {:induction false} TotalBounded(callers: seq<Caller>, signalled: set<nat>, n: nat)
    ensures Total(callers, signalled, n) <= |callers| * (4 * n + 15)
  {
    if callers == [] {
    } else {
      TotalBounded(callers[1..], signalled, n);
      assert |callers| * (4 * n + 15) == (|callers| - 1) * (4 * n + 15) + (4 * n + 15);
    }
  }

  /** The mover's own loss: clearing a prompt outweighs sending every other caller one loop back. */
  lemma MoverLoses(s: State, p: nat, move: Move)
    requires Inv(s) && Enabled(s, Act(p, move))
    ensures var s', n := Step(s, Act(p, move)), |s.callers|;
      && |s'.callers| == n && s'.callers == s.callers[p := s'.callers[p]]
      && s.store.signalled <= s'.store.signalled
      && (!move.Publish? ==> s'.store.signalled == s.store.signalled)
      && Weight(s'.callers[p].pc, s.store.signalled, n) + (if move.Publish? then 3 * n else 0)
           < Weight(s.callers[p].pc, s.store.signalled, n)
  {
    assert CallerInv(s, p);
  }

  /** Every step of a caller brings the callers closer to the end, although a refusal sends all waiting
      callers round the loop again. */
  lemma StepDecreases(s: State, a: Action)
    requires Inv(s) && Enabled(s, a)
    ensures if a.PutElsewhere? then Measure(Step(s, a)) == Measure(s) else Measure(Step(s, a)) < Measure(s)
  {
    if a.Act? {
      var s', n := Step(s, a), |s.callers|;
      MoverLoses(s, a.p, a.move);
      TotalUpdate(s.callers, a.p, s'.callers[a.p], s.store.signalled, n);
      TotalSignalled(s'.callers, s.store.signalled, s'.store.signalled, n);
    }
  }

  predicate AllDone(s: State) { forall p :: 0 <= p < |s.callers| ==> s.callers[p].pc.Done? }

  /** Some caller can take a step of its own, without being cancelled. */
  ghost predicate Live(s: State) {
    exists a :: Enabled(s, a) && a.Act? && !a.move.Cancel? && !a.move.AskFails?
  }

  lemma OwnerCanMove(s: State, p: nat)
    requires Inv(s) && p < |s.callers| && Owner(s.callers[p].pc) && s.lock.None?
    ensures Live(s)
  {
    var pc := s.callers[p].pc;
    if pc.Prompting? {
      assert Enabled(s, Act(p, Reply(Denied)));
    } else if pc.Finalizing? {
      assert Enabled(s, Act(p, LockFinal));
    }
  }

  /** Nobody is stranded: while a caller is unfinished, some caller can move. */
  lemma NobodyIsStranded(s: State)
    requires Inv(s) && !AllDone(s)
    ensures Live(s)
  {
    if s.lock.Some? {
      var p := s.lock.value;
      assert HoldsLock(s.callers[p].pc);
      assert Enabled(s, Act(p, if s.callers[p].pc.InLock? then Decide else Publish));
    } else {
      var p :| 0 <= p < |s.callers| && !s.callers[p].pc.Done?;
      assert CallerInv(s, p);
      var pc := s.callers[p].pc;
      if pc.Start? {
        assert Enabled(s, Act(p, Enter));
      } else if pc.WantLock? {
        assert Enabled(s, Act(p, Lock));
      } else if pc.Running? {
        assert Enabled(s, Act(p, Finish));
      } else if pc.Waiting? {
        if pc.event in s.store.signalled {
          assert Enabled(s, Act(p, Wake));
        } else {
          var q :| OwnerOf(s, s.callers[p].key, q);
          OwnerCanMove(s, q);
        }
      } else if Owner(pc) {
        OwnerCanMove(s, p);
      }
    }
  }

  function CallerSteps(actions: seq<Action>): nat {
    if actions == [] then 0 else (if actions[0].PutElsewhere? then 0 else 1) + CallerSteps(actions[1..])
  }

  lemma {:induction false} RunDecreases(s: State, actions: seq<Action>)
    requires Inv(s) && Possible(s, actions)
    ensures Measure(Run(s, actions)) + CallerSteps(actions) <= Measure(s)
    ensures |Run(s, actions).callers| == |s.callers|
    decreases |actions|
  {
    if actions == [] {
    } else {
      StepKeeps(s, actions[0]);
      StepDecreases(s, actions[0]);
      RunDecreases(Step(s, actions[0]), actions[1..]);
    }
  }

  /** Distinct numbers below `n` are at most `n`. */
  lemma {:induction false} DistinctBelow(xs: seq<nat>, n: nat)
    requires forall i :: 0 <= i < |xs| ==> xs[i] < n
    requires forall i, j :: 0 <= i < j < |xs| ==> xs[i] != xs[j]
    ensures |xs| <= n
    decreases n
  {
    if xs == [] {
    } else {
      assert xs[0] < n;
      if n - 1 in xs {
        var i :| 0 <= i < |xs| && xs[i] == n - 1;
        var rest := xs[..i] + xs[i + 1..];
        forall j | 0 <= j < |rest|
          ensures rest[j] < n - 1
        {
          assert rest[j] == xs[if j < i then j else j + 1];
        }
        DistinctBelow(rest, n - 1);
      } else {
        forall i | 0 <= i < |xs|
          ensures xs[i] < n - 1
        {
          assert xs[i] in xs;
        }
        DistinctBelow(xs, n - 1);
      }
    }
  }

  /** N callers take at most N * (4N + 15) steps in any interleaving, each of them asks the user at most
      once, and a run can only stop moving when all of them are done. */
  lemma EveryCallerFinishes(s: State, actions: seq<Action>)
    requires Initial(s) && Possible(s, actions)
    ensures var t, n := Run(s, actions), |s.callers|;
      && CallerSteps(actions) <= n * (4 * n + 15)
      && |t.prompts| <= n
      && (forall i, j :: 0 <= i < j < |t.prompts| ==> t.prompts[i] != t.prompts[j])
      && (!Live(t) ==> AllDone(t))
  {
    InitialInv(s);
    RunKeeps(s, actions);
    RunDecreases(s, actions);
    TotalBounded(s.callers, s.store.signalled, |s.callers|);
    var t := Run(s, actions);
    DistinctBelow(t.prompts, |s.callers|);
    if !AllDone(t) {
      NobodyIsStranded(t);
    }
  }
}
