/** What a call through the gate returns, runs and asks, as a table over its request: policies, rules, exit
    codes and error codes (pycodex/tools/orchestrator.py). */
module ApprovalVerdicts {
  import opened Prelude
  import opened Approval
  import opened ApprovalGate

  ghost predicate Restricted(r: Request) { r.sandbox == Some(ReadOnly) || r.sandbox == Some(WorkspaceWrite) }

  // ---------------------------------------------------------------------------------------
  // One attempt to execute.

  /** The attempt of a call that is not refused: what it returns and what ran. Outside a sandbox the tool's
      own outcome counts. Inside, exit code 0 or none is success, any other exit code and the three sandbox
      error codes are a denial, and other errors are the tool's own. A missing sandbox runs nothing. */
  ghost predicate Attempt(r: Request, outcome: Outcome, ran: seq<Event>) {
    if !Restricted(r) then outcome == r.direct && ran == [Ran(false, false)]
    else if r.sandboxCapable && r.confined.None? then outcome == ToolError("sandbox_unavailable") && ran == []
    else
      match if r.sandboxCapable then r.confined.value else r.direct
      case ToolResult(code) =>
        if code == None || code == Some(0)
        then outcome == ToolResult(code) && ran == [Ran(r.sandboxCapable, false)]
        else outcome == ToolError("sandbox_blocked") && ran == [Ran(r.sandboxCapable, true)]
      case ToolError(code) =>
        if code == "sandbox_blocked" || code == "sandbox_denied" || code == "sandbox_unavailable"
        then outcome == ToolError("sandbox_blocked") && ran == [Ran(r.sandboxCapable, true)]
        else outcome == ToolError(code) && ran == [Ran(r.sandboxCapable, false)]
  }

  lemma AttemptIsExecuted(r: Request)
    ensures Attempt(r, Executed(r).0, Executed(r).1)
    ensures forall outcome, ran :: Attempt(r, outcome, ran) ==> Executed(r) == (outcome, ran)
  {
    if r.sandbox.Some? {
      assert r.sandbox.value == DangerFullAccess || Restricted(r);
    }
  }

  // ---------------------------------------------------------------------------------------
  // The whole call.

  /** What follows a question, when an approval lets the tool run once more or for the first time. */
  ghost predicate AfterAsking(
      r: Request, store: Store, e: Effect, before: seq<Event>, outcome: Outcome, ran: seq<Event>)
  {
    match r.answer
    case None =>
      e.verdict == AskFailed && e.events == before + [Asked(None)] && e.store.cache == store.cache
    case Some(Abort) =>
      e.verdict == AbortRaised && e.events == before + [Asked(r.answer)] && e.store.cache == store.cache
    case Some(Denied) =>
      && e.verdict == Returned(ToolError("denied")) && e.events == before + [Asked(r.answer)]
      && e.store.cache == store.cache
    case Some(Approved) =>
      e.verdict == Returned(outcome) && e.events == before + [Asked(r.answer)] + ran && e.store.cache == store.cache
    case Some(ApprovedForSession) =>
      && e.verdict == Returned(outcome) && e.events == before + [Asked(r.answer)] + ran
      && r.key.Some? && e.store.cache == store.cache[r.key.value := ApprovedForSession]
  }

  /** The table, top to bottom, for every request and store. */
  lemma VerdictTable(r: Request, store: Store, outcome: Outcome, ran: seq<Event>)
    requires Attempt(r, outcome, ran)
    ensures var e := Gate(r, store);
      if !r.mutating then e == Effect(Returned(r.direct), [Ran(false, false)], store)
      else if r.key == None then e == Effect(Returned(ToolError("approval_key_error")), [], store)
      else if r.rule == Some(Forbidden) then e == Effect(Returned(ToolError("forbidden")), [], store)
      else if r.rule == Some(Allow) || r.policy == Never then e == Effect(Returned(outcome), ran, store)
      else if r.policy == OnFailure then
        if Restricted(r) && (outcome == ToolError("sandbox_blocked") || outcome == ToolError("sandbox_unavailable"))
        then AfterAsking(r, store, e, ran, r.direct, [Ran(false, false)])
        else e == Effect(Returned(outcome), ran, store)
      else if SessionApproved(store, r.key.value) then e == Effect(Returned(outcome), ran, store)
      else if r.key.value in store.pending then e == Effect(Waits, [], store)
      else AfterAsking(r, store, e, [], outcome, ran) && e.store.pending == store.pending
  {
    AttemptIsExecuted(r);
    if r.key.Some? && r.key.value !in store.pending {
      PromptLeavesNothingPending(store, r.key.value, r.answer);
    }
  }

  /** A prompt that was settled leaves the pending map as it found it. */
  lemma PromptLeavesNothingPending(store: Store, key: Key, answer: Option<Decision>)
    requires key !in store.pending
    ensures var after := Finalize(CreatePending(store, key), key, answer);
      && after.pending == store.pending
      && after.cache ==
        if answer == Some(ApprovedForSession) then store.cache[key := ApprovedForSession] else store.cache
  {
    var created := CreatePending(store, key);
    assert created.pending - {key} == store.pending;
  }

  /** A success in the sandbox is never questioned and never repeated outside: under every policy that lets
      the call run without asking first, its result is what the caller gets. */
  lemma SandboxedSuccessIsReturned(r: Request, store: Store, code: Option<int>)
    requires r.mutating && r.key.Some? && Restricted(r) && r.sandboxCapable && r.rule != Some(Forbidden)
    requires r.confined == Some(ToolResult(code)) && (code == None || code == Some(0))
    requires r.rule == Some(Allow) || r.policy == Never || r.policy == OnFailure
    ensures Gate(r, store) == Effect(Returned(ToolResult(code)), [Ran(true, false)], store)
  {
    VerdictTable(r, store, ToolResult(code), [Ran(true, false)]);
  }

  /** In on-failure mode under a restrictive sandbox a question is asked exactly after a failed run: an exit
      code other than 0, one of the sandbox's error codes, or no sandbox at all. */
  lemma OnFailureAsksIff(r: Request, store: Store)
    requires r.mutating && r.key.Some? && Restricted(r) && r.policy == OnFailure
    requires r.rule != Some(Forbidden) && r.rule != Some(Allow)
    ensures Asks(Gate(r, store).events, r.answer) <==>
      || (r.sandboxCapable && r.confined == None)
      || var raw := if r.sandboxCapable then r.confined.value else r.direct;
         match raw
         case ToolResult(code) => code.Some? && code.value != 0
         case ToolError(code) => code == "sandbox_blocked" || code == "sandbox_denied" || code == "sandbox_unavailable"
  {
    var (outcome, ran) := Executed(r);
    AttemptIsExecuted(r);
    VerdictTable(r, store, outcome, ran);
    assert forall answer :: Asked(answer) !in ran;
  }
}
