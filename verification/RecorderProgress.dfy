/** What callers of the recorder can count on: batches are accepted, waits are served in order, and only a
    failure of the worker fails one (pycodex/core/rollout_recorder.py). */
module RecorderProgress {
  import opened Prelude
  import opened JsonText
  import opened Recorder

  predicate Failure(a: Action) { a.OpenFails? || a.WorkFails? }

  predicate Healthy(actions: seq<Action>) { forall a :: a in actions ==> !Failure(a) }

  // ---------------------------------------------------------------------------------------
  // Every wait is accounted for.

  ghost predicate Queued(s: State, f: nat) { exists i :: 0 <= i < |s.queue| && IsWaitOn(s.queue[i], f) }

  /** While the worker lives, a wait is resolved or still in the queue, and none has failed. */
  ghost predicate Settled(s: State) {
    !s.worker.Dead? ==>
      forall f: nat :: f < |s.futures| ==> s.futures[f] == Resolved || (s.futures[f] == Waiting && Queued(s, f))
  }

  lemma StaysQueued(s: State, s': State, f: nat)
    requires Queued(s, f) && s.queue <= s'.queue
    ensures Queued(s', f)
  {
    var i :| 0 <= i < |s.queue| && IsWaitOn(s.queue[i], f);
    assert s'.queue[i] == s.queue[i];
  }

  lemma BehindHead(s: State, s': State, f: nat)
    requires Queued(s, f) && s.queue != [] && s'.queue == s.queue[1..] && !IsWaitOn(s.queue[0], f)
    ensures Queued(s', f)
  {
    var i :| 0 <= i < |s.queue| && IsWaitOn(s.queue[i], f);
    assert s'.queue[i - 1] == s.queue[i];
  }

  lemma StepSettles(s: State, a: Action)
    requires Inv(s) && Settled(s) && Enabled(s, a)
    ensures Settled(Step(s, a))
  {
    var s' := Step(s, a);
    if !s'.worker.Dead? {
      forall f: nat | f < |s'.futures|
        ensures s'.futures[f] == Resolved || (s'.futures[f] == Waiting && Queued(s', f))
      {
        if a.Work? {
          if !IsWaitOn(s.queue[0], f) && s.futures[f] != Resolved {
            BehindHead(s, s', f);
          }
        } else if f < |s.futures| {
          if s.futures[f] != Resolved {
            StaysQueued(s, s', f);
          }
        } else {
          assert IsWaitOn(s'.queue[|s.queue|], f);
        }
      }
    }
  }

  lemma {:induction false} RunSettles(s: State, actions: seq<Action>)
    requires Inv(s) && Settled(s) && Possible(s, actions)
    ensures Inv(Run(s, actions)) && Settled(Run(s, actions))
    decreases |actions|
  {
    if actions == [] {
    } else {
      StepKeeps(s, actions[0]);
      StepSettles(s, actions[0]);
      RunSettles(Step(s, actions[0]), actions[1..]);
    }
  }

  /** In every run: unless the worker died, every wait is resolved or stands in the queue exactly once, and
      none has failed. */
  lemma EveryWaitIsResolvedOrQueued(base: bytes, actions: seq<Action>, f: nat)
    requires Possible(Fresh(base), actions)
    requires f < |Run(Fresh(base), actions).futures| && !Run(Fresh(base), actions).worker.Dead?
    ensures var s := Run(Fresh(base), actions);
      || s.futures[f] == Resolved
      || (&& s.futures[f] == Waiting
          && (exists i :: 0 <= i < |s.queue| && IsWaitOn(s.queue[i], f))
          && forall i, j :: 0 <= i < j < |s.queue| ==> !(IsWaitOn(s.queue[i], f) && IsWaitOn(s.queue[j], f)))
  {
    RunSettles(Fresh(base), actions);
  }

  lemma StepKeepsResolved(s: State, a: Action, f: nat)
    requires Enabled(s, a) && f < |s.futures| && s.futures[f] == Resolved
    ensures f < |Step(s, a).futures| && Step(s, a).futures[f] == Resolved
  {
    if a.OpenFails? {
      FailedAreNotResolved(s.futures, s.queue);
    } else if a.WorkFails? {
      FailedAreNotResolved(s.futures, s.queue[1..]);
    }
  }

  lemma {:induction false} ResolvedStays(s: State, actions: seq<Action>, f: nat)
    requires Possible(s, actions) && f < |s.futures| && s.futures[f] == Resolved
    ensures f < |Run(s, actions).futures| && Run(s, actions).futures[f] == Resolved
    decreases |actions|
  {
    if actions == [] {
    } else {
      StepKeepsResolved(s, actions[0], f);
      ResolvedStays(Step(s, actions[0]), actions[1..], f);
    }
  }

  // ---------------------------------------------------------------------------------------
  // Waits are served in the order of the queue.

  function Works(actions: seq<Action>): nat {
    if actions == [] then 0 else (if actions[0].Work? then 1 else 0) + Works(actions[1..])
  }

  /** A wait with `i` requests ahead of it, none of them a shutdown, is resolved once the worker has served
      `i + 1` requests, whatever else happens meanwhile. */
  lemma {:induction false} WaitIsServed(s: State, actions: seq<Action>, i: nat, f: nat)
    requires Inv(s) && Possible(s, actions) && Healthy(actions)
    requires i < |s.queue| && IsWaitOn(s.queue[i], f)
    requires forall j :: 0 <= j < i ==> !s.queue[j].ShutdownRequest?
    requires Works(actions) > i
    ensures f < |Run(s, actions).futures| && Run(s, actions).futures[f] == Resolved
    decreases |actions|
  {
    var a, next := actions[0], Step(s, actions[0]);
    StepKeeps(s, a);
    assert QueuedInTime(s, i);
    if a.Work? && i == 0 {
      ResolvedStays(next, actions[1..], f);
    } else if a.Work? {
      WaitIsServed(next, actions[1..], i - 1, f);
    } else {
      QueueOnlyGrows(s, a);
      WaitIsServed(next, actions[1..], i, f);
    }
  }

  lemma QueueOnlyGrows(s: State, a: Action)
    requires Enabled(s, a) && !a.Work? && !Failure(a)
    ensures s.queue <= Step(s, a).queue
  {}

  // ---------------------------------------------------------------------------------------
  // What a caller sees.

  /** The batches that were recorded, in order. */
  function Recorded(actions: seq<Action>): seq<Batch> {
    if actions == [] then []
    else
      (if actions[0].Record? && actions[0].items != [] then [actions[0].items] else []) + Recorded(actions[1..])
  }

  /** How many calls wait. */
  function Waits(actions: seq<Action>): nat {
    if actions == [] then 0
    else (if actions[0].Flush? || actions[0].Shutdown? then 1 else 0) + Waits(actions[1..])
  }

  predicate Open(s: State) { !s.closed && !s.worker.Dead? }

  /** A healthy recorder that is not shut down accepts every batch and every wait. */
  lemma {:induction false} CallsAreAccepted(s: State, actions: seq<Action>)
    requires Possible(s, actions) && Healthy(actions) && Open(s)
    requires forall a :: a in actions ==> !a.ShutdownReturns?
    ensures var t := Run(s, actions);
      Open(t) && t.accepted == s.accepted + Recorded(actions) && |t.futures| == |s.futures| + Waits(actions)
    decreases |actions|
  {
    if actions == [] {
      assert s.accepted + [] == s.accepted;
    } else {
      var next := Step(s, actions[0]);
      assert actions[0] in actions;
      CallsAreAccepted(next, actions[1..]);
      assert Run(s, actions) == Run(next, actions[1..]);
      var first := if actions[0].Record? && actions[0].items != [] then [actions[0].items] else [];
      assert next.accepted == s.accepted + first;
      ConcatAssociates(s.accepted, first, Recorded(actions[1..]));
    }
  }

  lemma {:induction false} NoShutdownQueued(s: State, actions: seq<Action>)
    requires Possible(s, actions) && Healthy(actions) && (forall r :: r in s.queue ==> !r.ShutdownRequest?)
    requires forall a :: a in actions ==> !a.Shutdown?
    ensures forall r :: r in Run(s, actions).queue ==> !r.ShutdownRequest?
    decreases |actions|
  {
    if actions == [] {
    } else {
      NoShutdownQueued(Step(s, actions[0]), actions[1..]);
    }
  }

  lemma {:induction false} RunConcat(s: State, a: seq<Action>, b: seq<Action>)
    requires Possible(s, a + b)
    ensures Possible(s, a) && Possible(Run(s, a), b) && Run(s, a + b) == Run(Run(s, a), b)
    decreases |a|
  {
    if a == [] {
      assert a + b == b;
    } else {
      assert (a + b)[1..] == a[1..] + b;
      RunConcat(Step(s, a[0]), a[1..], b);
    }
  }

  /** The whole promise of `flush`, and of the first `shutdown`: if the worker stays healthy and serves what
      was queued and then the call, the call's wait is resolved and every batch recorded before the call
      is durable, behind the old content and in order. */
  lemma FlushMakesDurable(base: bytes, before: seq<Action>, call: Action, after: seq<Action>)
    requires call == Flush || call == Shutdown
    requires Possible(Fresh(base), before + [call] + after) && Healthy(before) && Healthy(after)
    requires forall a :: a in before ==> !a.Shutdown? && !a.ShutdownReturns?
    requires Possible(Fresh(base), before)
    requires Works(after) > |Run(Fresh(base), before).queue|
    ensures var t, f := Run(Fresh(base), before + [call] + after), Waits(before);
      && f < |t.futures| && t.futures[f] == Resolved && t.durable <= |t.written|
      && base + Text(Recorded(before)) <= t.written[..t.durable]
  {
    var s := Run(Fresh(base), before);
    RunConcat(Fresh(base), before + [call], after);
    RunConcat(Fresh(base), before, [call]);
    assert [call][1..] == [] && Run(s, [call]) == Step(s, call);
    RunSettles(Fresh(base), before + [call]);
    CallsAreAccepted(Fresh(base), before);
    assert [] + Recorded(before) == Recorded(before);
    NoShutdownQueued(Fresh(base), before);
    CallIsServed(s, call, after);
    ResolvedWaitIsDurable(base, before + [call] + after, |s.futures|);
  }

  /** The call of `FlushMakesDurable`, from the state it is made in. */
  lemma CallIsServed(s: State, call: Action, after: seq<Action>)
    requires call == Flush || call == Shutdown
    requires Open(s) && Inv(Step(s, call)) && (forall r :: r in s.queue ==> !r.ShutdownRequest?)
    requires |s.due| == |s.futures| && Possible(Step(s, call), after) && Healthy(after) && Works(after) > |s.queue|
    ensures var t, f := Run(Step(s, call), after), |s.futures|;
      && f < |t.futures| && t.futures[f] == Resolved
      && f < |t.due| && t.due[f] == |s.accepted| <= |t.accepted| && t.accepted[..|s.accepted|] == s.accepted
  {
    var waiting, f := Step(s, call), |s.futures|;
    assert IsWaitOn(waiting.queue[|s.queue|], f);
    WaitIsServed(waiting, after, |s.queue|, f);
    LaterKeeps(waiting, after);
  }

  /** Accepted batches stay accepted, and a call's due number does not change. */
  lemma {:induction false} LaterKeeps(s: State, actions: seq<Action>)
    requires Possible(s, actions)
    ensures s.accepted <= Run(s, actions).accepted && s.due <= Run(s, actions).due
    decreases |actions|
  {
    if actions == [] {
    } else {
      LaterKeeps(Step(s, actions[0]), actions[1..]);
    }
  }

  // ---------------------------------------------------------------------------------------
  // A file that cannot be opened.

  /** Nothing is served before the file is open. */
  predicate NothingServed(s: State) {
    s.worker.NotStarted? || s.worker.Opening? ==> forall f :: 0 <= f < |s.futures| ==> s.futures[f] != Resolved
  }

  lemma {:induction false} NothingServedYet(s: State, actions: seq<Action>)
    requires Possible(s, actions) && NothingServed(s)
    ensures NothingServed(Run(s, actions))
    decreases |actions|
  {
    if actions == [] {
    } else {
      NothingServedYet(Step(s, actions[0]), actions[1..]);
    }
  }

  /** If the file cannot be opened, every wait made so far fails and stays so, and no later call
      waits. */
  lemma OpenFailureFailsEveryWait(base: bytes, before: seq<Action>, later: seq<Action>, f: nat)
    requires Possible(Fresh(base), before) && Enabled(Run(Fresh(base), before), OpenFails)
    requires f < |Run(Fresh(base), before).futures|
    requires Possible(Step(Run(Fresh(base), before), OpenFails), later)
    ensures var end := Run(Step(Run(Fresh(base), before), OpenFails), later);
      && |end.futures| == |Run(Fresh(base), before).futures| && end.futures[f] == Failed
  {
    var s := Run(Fresh(base), before);
    NothingServedYet(Fresh(base), before);
    EveryWaitIsResolvedOrQueued(base, before, f);
    FailedAreNotResolved(s.futures, s.queue);
    DeadStaysSettled(Step(s, OpenFails), later);
  }
}
