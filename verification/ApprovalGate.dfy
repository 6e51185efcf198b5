/** The gate in front of every tool call: command rules, sandbox, approval policy, one call after another
    on a shared store (pycodex/tools/orchestrator.py). */
module ApprovalGate {
  import opened Prelude
  import opened Approval

  datatype Rule = Allow | Prompt | Forbidden

  datatype Sandbox = DangerFullAccess | ReadOnly | WorkspaceWrite

  datatype Outcome = ToolError(code: string) | ToolResult(exitCode: Option<int>)

  /** One tool call and what the environment answers. `key` is `None` when no approval key can be built;
      `rule` is `None` without an exec policy or a canonical command. `confined` is what the sandboxed
      execution returns (`None`: the sandbox is unavailable), `direct` what a plain execution returns, and
      `answer` what the user says when asked (`None`: the callback fails). */
  datatype Request = Request(
    policy: Policy, sandbox: Option<Sandbox>, mutating: bool, key: Option<Key>, rule: Option<Rule>,
    sandboxCapable: bool, direct: Outcome, confined: Option<Outcome>, answer: Option<Decision>)

  /** What a call did: executions, inside the sandbox or not, and questions to the user. */
  datatype Event = Ran(confined: bool, denied: bool) | Asked(answer: Option<Decision>)

  /** `Waits`: another caller is already asking about the key, and this one sleeps until that prompt is
      settled, to begin again. */
  datatype Verdict = Returned(outcome: Outcome) | AbortRaised | AskFailed | Waits

  datatype Effect = Effect(verdict: Verdict, events: seq<Event>, store: Store)

  predicate RequiresSandbox(r: Request) { r.sandbox.Some? && r.sandbox != Some(DangerFullAccess) }

  /** Any non-zero exit code counts as a possible sandbox denial. */
  predicate IsSandboxDenial(o: Outcome) {
    match o
    case ToolError(code) => code == "sandbox_blocked" || code == "sandbox_denied" || code == "sandbox_unavailable"
    case ToolResult(exitCode) => exitCode.Some? && exitCode.value != 0
  }

  /** `_run_sandboxed`; a tool that cannot be sandboxed is executed plainly. */
  function SandboxedOutcome(r: Request): Outcome {
    var raw := if r.sandboxCapable then r.confined else Some(r.direct);
    if raw.None? then ToolError("sandbox_unavailable")
    else if IsSandboxDenial(raw.value) then ToolError("sandbox_blocked")
    else raw.value
  }

  /** The sandbox in force cannot be started, so that nothing is executed. */
  predicate SandboxMissing(r: Request) { RequiresSandbox(r) && r.sandboxCapable && r.confined.None? }

  /** An attempt to execute under the sandbox setting in force, and what ran. */
  function Executed(r: Request): (Outcome, seq<Event>) {
    if !RequiresSandbox(r) then (r.direct, [Ran(false, false)])
    else if SandboxMissing(r) then (SandboxedOutcome(r), [])
    else (SandboxedOutcome(r), [Ran(r.sandboxCapable, IsSandboxDenial(SandboxedOutcome(r)))])
  }

  predicate Grants(answer: Option<Decision>) { answer == Some(Approved) || answer == Some(ApprovedForSession) }

  /** The user is asked, and a call that is approved then runs plainly. */
  function Settled(r: Request, store: Store, events: seq<Event>): Effect
    requires r.key.Some?
  {
    if r.answer.None? then Effect(AskFailed, events + [Asked(None)], store)
    else
      match r.answer.value
      case Abort => Effect(AbortRaised, events + [Asked(r.answer)], store)
      case Denied => Effect(Returned(ToolError("denied")), events + [Asked(r.answer)], store)
      case _ => Effect(Returned(r.direct), events + [Asked(r.answer), Ran(false, false)],
          Put(store, r.key.value, r.answer.value))
  }

  /** `execute_with_approval`, up to its end or to the point where it sleeps. */
  function Gate(r: Request, store: Store): Effect {
    var (outcome, ran) := Executed(r);
    if !r.mutating then Effect(Returned(r.direct), [Ran(false, false)], store)
    else if r.key.None? then Effect(Returned(ToolError("approval_key_error")), [], store)
    else if r.rule == Some(Forbidden) then Effect(Returned(ToolError("forbidden")), [], store)
    else if r.rule == Some(Allow) then Effect(Returned(outcome), ran, store)
    else if RequiresSandbox(r) && r.policy == Never then Effect(Returned(outcome), ran, store)
    else if RequiresSandbox(r) && r.policy == OnFailure then
      if IsSandboxDenial(outcome) then Settled(r, store, ran) else Effect(Returned(outcome), ran, store)
    else Standard(r, store)
  }

  /** `_execute_with_standard_approval`: the cache, the policies that never ask, the prompt of another
      caller, or a prompt of its own. */
  function Standard(r: Request, store: Store): Effect
    requires r.key.Some?
  {
    var (outcome, ran) := Executed(r);
    if SessionApproved(store, r.key.value) || r.policy == Never || r.policy == OnFailure then
      Effect(Returned(outcome), ran, store)
    else if r.key.value in store.pending then Effect(Waits, [], store)
    else
      // the prompt is registered, then cleared whatever the answer is
      var settled := Settled(r, store, []);
      var events := if Grants(r.answer) then [Asked(r.answer)] + ran else settled.events;
      var verdict := if Grants(r.answer) then Returned(outcome) else settled.verdict;
      Effect(verdict, events, Finalize(CreatePending(store, r.key.value), r.key.value, r.answer))
  }

  // ---------------------------------------------------------------------------------------
  // The code, on the mutable store.

  method ExecutePlainlyOrSandboxed(r: Request) returns (outcome: Outcome, events: seq<Event>)
    ensures (outcome, events) == Executed(r)
  {
    if !RequiresSandbox(r) { return r.direct, [Ran(false, false)]; }
    if r.sandboxCapable && r.confined.None? { return ToolError("sandbox_unavailable"), []; }
    outcome := if r.sandboxCapable then r.confined.value else r.direct;
    if IsSandboxDenial(outcome) { return ToolError("sandbox_blocked"), [Ran(r.sandboxCapable, true)]; }
    return outcome, [Ran(r.sandboxCapable, false)];
  }

  method ExecuteWithStandardApproval(r: Request, store: ApprovalStore) returns (verdict: Verdict, events: seq<Event>)
    requires r.key.Some?
    modifies store
    ensures Effect(verdict, events, store.View()) == Standard(r, old(store.View()))
  {
    var key := r.key.value;
    var cached := store.Get(key);
    if cached == Some(ApprovedForSession) || r.policy == Never || r.policy == OnFailure {
      var outcome, ran := ExecutePlainlyOrSandboxed(r);
      return Returned(outcome), ran;
    }
    var prompt := store.GetPendingPrompt(key);
    if prompt.Some? { return Waits, []; }
    var event := store.CreatePendingPrompt(key);
    store.FinalizePendingPrompt(key, r.answer);
    if r.answer.None? { return AskFailed, [Asked(None)]; }
    if r.answer.value == Abort { return AbortRaised, [Asked(r.answer)]; }
    if r.answer.value == Denied { return Returned(ToolError("denied")), [Asked(r.answer)]; }
    var outcome, ran := ExecutePlainlyOrSandboxed(r);
    return Returned(outcome), [Asked(r.answer)] + ran;
  }

  method ExecuteWithApproval(r: Request, store: ApprovalStore) returns (verdict: Verdict, events: seq<Event>)
    modifies store
    ensures Effect(verdict, events, store.View()) == Gate(r, old(store.View()))
  {
    if !r.mutating { return Returned(r.direct), [Ran(false, false)]; }
    if r.key.None? { return Returned(ToolError("approval_key_error")), []; }
    if r.rule == Some(Forbidden) { return Returned(ToolError("forbidden")), []; }
    if r.rule == Some(Allow) {
      var outcome, ran := ExecutePlainlyOrSandboxed(r);
      return Returned(outcome), ran;
    }
    if !RequiresSandbox(r) || r.policy == OnRequest || r.policy == UnlessTrusted {
      verdict, events := ExecuteWithStandardApproval(r, store);
      return;
    }
    var outcome, ran := ExecutePlainlyOrSandboxed(r);
    if r.policy == Never || !IsSandboxDenial(outcome) { return Returned(outcome), ran; }
    if r.answer.None? { return AskFailed, ran + [Asked(None)]; }
    if r.answer.value == Abort { return AbortRaised, ran + [Asked(r.answer)]; }
    if r.answer.value == Denied { return Returned(ToolError("denied")), ran + [Asked(r.answer)]; }
    store.PutDecision(r.key.value, r.answer.value);
    return Returned(r.direct), ran + [Asked(r.answer), Ran(false, false)];
  }

  // ---------------------------------------------------------------------------------------
  // Soundness over sequences of calls.

  /** The store after a sequence of calls. */
  function After(store: Store, rs: seq<Request>): Store {
    if rs == [] then store else Gate(rs[|rs| - 1], After(store, rs[..|rs| - 1])).store
  }

  /** What call `i` of the sequence did. */
  function EffectOf(store: Store, rs: seq<Request>, i: nat): Effect
    requires i < |rs|
  {
    Gate(rs[i], After(store, rs[..i]))
  }

  predicate Runs(events: seq<Event>) { exists n :: 0 <= n < |events| && events[n].Ran? }

  predicate Asks(events: seq<Event>, answer: Option<Decision>) { Asked(answer) in events }

  /** A call that the user answered with a session-wide approval for `key`. */
  predicate GaveSessionApproval(store: Store, rs: seq<Request>, i: nat, key: Key)
    requires i < |rs|
  {
    rs[i].key == Some(key) && Asks(EffectOf(store, rs, i).events, Some(ApprovedForSession))
  }

  lemma GateApprovals(r: Request, store: Store, key: Key)
    ensures SessionApproved(Gate(r, store).store, key) <==>
            SessionApproved(store, key) || (r.key == Some(key) && Asks(Gate(r, store).events, Some(ApprovedForSession)))
  {}

  /** The cache holds exactly the keys approved for the session so far, and loses none. */
  lemma {:induction false} ApprovedIffAnswered(store: Store, rs: seq<Request>, key: Key)
    ensures SessionApproved(After(store, rs), key) <==>
            SessionApproved(store, key) || exists i :: 0 <= i < |rs| && GaveSessionApproval(store, rs, i, key)
  {
    if rs == [] {
    } else {
      var before, last := rs[..|rs| - 1], |rs| - 1;
      ApprovedIffAnswered(store, before, key);
      GateApprovals(rs[last], After(store, before), key);
      GaveSnoc(store, rs, key);
    }
  }

  lemma GaveSnoc(store: Store, rs: seq<Request>, key: Key)
    requires rs != []
    ensures var before := rs[..|rs| - 1];
      (exists i :: 0 <= i < |rs| && GaveSessionApproval(store, rs, i, key)) <==>
      (exists i :: 0 <= i < |before| && GaveSessionApproval(store, before, i, key))
          || GaveSessionApproval(store, rs, |rs| - 1, key)
  {
    var before := rs[..|rs| - 1];
    forall i | 0 <= i < |before|
      ensures GaveSessionApproval(store, before, i, key) == GaveSessionApproval(store, rs, i, key)
    {
      assert before[..i] == rs[..i];
    }
    if i :| 0 <= i < |before| && GaveSessionApproval(store, before, i, key) {
      assert GaveSessionApproval(store, rs, i, key);
    }
  }

  /** The user was asked in call `i`, or in an earlier call for the session, and approved. */
  predicate ApprovedBy(store: Store, rs: seq<Request>, i: nat)
    requires i < |rs| && rs[i].key.Some?
  {
    || Asks(EffectOf(store, rs, i).events, Some(Approved))
    || Asks(EffectOf(store, rs, i).events, Some(ApprovedForSession))
    || SessionApproved(store, rs[i].key.value)
    || exists j :: 0 <= j < i && GaveSessionApproval(store, rs, j, rs[i].key.value)
  }

  /** When a call runs anything, under every policy. A call that mutates nothing always does. Any other
      needs an approval key and a rule that does not forbid it; then it runs, unless its sandbox is
      missing, by its rule, by a policy that never asks first, or by an approval. Only the retry of the
      on-failure policy, approved by the user, runs without a sandbox that is missing. */
  lemma RunsIffApproved(store: Store, rs: seq<Request>, i: nat)
    requires i < |rs|
    ensures var r := rs[i];
      Runs(EffectOf(store, rs, i).events) <==>
        || !r.mutating
        || (&& r.key.Some? && r.rule != Some(Forbidden)
            && if SandboxMissing(r) then r.policy == OnFailure && r.rule != Some(Allow) && Grants(r.answer)
               else || r.rule == Some(Allow) || r.policy == Never || r.policy == OnFailure
                    || ApprovedBy(store, rs, i))
  {
    var r, e := rs[i], EffectOf(store, rs, i);
    if r.key.Some? {
      ApprovedIffAnswered(store, rs[..i], r.key.value);
      forall j | 0 <= j < i
        ensures GaveSessionApproval(store, rs[..i], j, r.key.value) == GaveSessionApproval(store, rs, j, r.key.value)
      {
        assert rs[..i][..j] == rs[..j];
      }
    }
    RunsOf(r, After(store, rs[..i]));
  }

  /** One call, given what the cache holds. */
  lemma RunsOf(r: Request, store: Store)
    ensures var e := Gate(r, store);
      Runs(e.events) <==>
        || !r.mutating
        || (&& r.key.Some? && r.rule != Some(Forbidden)
            && if SandboxMissing(r) then r.policy == OnFailure && r.rule != Some(Allow) && Grants(r.answer)
               else || r.rule == Some(Allow) || r.policy == Never || r.policy == OnFailure
                    || Asks(e.events, Some(Approved)) || Asks(e.events, Some(ApprovedForSession))
                    || SessionApproved(store, r.key.value))
  {
    var events := Gate(r, store).events;
    assert |events| > 0 && events[0].Ran? ==> Runs(events);
    assert |events| > 1 && events[1].Ran? ==> Runs(events);
  }

  /** A command its rule forbids runs exactly when it mutates nothing, for then no rule is consulted; the
      user is never asked about it, whatever was approved before. */
  lemma ForbiddenRunsIffReadOnly(store: Store, rs: seq<Request>, i: nat)
    requires i < |rs| && rs[i].rule == Some(Forbidden)
    ensures Runs(EffectOf(store, rs, i).events) <==> !rs[i].mutating
    ensures forall answer :: !Asks(EffectOf(store, rs, i).events, answer)
  {
    RunsIffApproved(store, rs, i);
  }

  /** Under a restrictive sandbox a tool that can be sandboxed runs outside it exactly in on-failure mode,
      after a sandboxed run that was denied or could not start, and the user's explicit approval. */
  lemma UnconfinedOnlyAfterDenialAndApproval(r: Request, store: Store)
    requires r.mutating && RequiresSandbox(r) && r.sandboxCapable
    ensures var events := Gate(r, store).events;
      Ran(false, false) in events <==>
        && r.policy == OnFailure && Grants(r.answer)
        && events == (if SandboxMissing(r) then [] else [Ran(true, true)]) + [Asked(r.answer), Ran(false, false)]
  {
    assert Executed(r).1 == [] || exists denied :: Executed(r).1 == [Ran(true, denied)];
  }

  /** A session-wide approval spares the user every later question about the key, with one exception: in
      on-failure mode under a restrictive sandbox it is never looked up, so a denied run asks again. */
  lemma SessionApprovalAskedAgainIff(r: Request, store: Store)
    requires r.key.Some? && SessionApproved(store, r.key.value)
    ensures Asks(Gate(r, store).events, r.answer) <==>
      && r.mutating && r.rule != Some(Allow) && r.rule != Some(Forbidden)
      && RequiresSandbox(r) && r.policy == OnFailure && IsSandboxDenial(SandboxedOutcome(r))
  {}
}
