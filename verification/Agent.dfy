/** The code of the session and of the turn loop, updating its fields in place, proved to do exactly
    the steps of `SessionState` (pycodex/core/session.py, agent.py). */
module Agent {
  import opened Prelude
  import opened PromptHistory
  import opened Rollout
  import opened SessionState

  class Session {
    var history: seq<Item>
    var usage: Usage
    var lastTurnInput: int
    var turnCount: nat
    var compactions: nat
    var contextInjected: bool
    var lastUser: Option<string>
    var metaWritten: bool
    var closed: bool
    var rollout: seq<Record>    // what the recorder has accepted

    function State(): Live
      reads this
    {
      Live(history, usage, lastTurnInput, turnCount, compactions, contextInjected, lastUser, metaWritten, closed,
          rollout)
    }

    constructor ()
      ensures State() == FRESH
    {
      history, usage, lastTurnInput, turnCount, compactions := [], NO_USAGE, 0, 0, 0;
      contextInjected, lastUser, metaWritten, closed, rollout := false, None, false, false, [];
    }

    method AppendUserMessage(text: string, skill: Option<SkillTag>)
      modifies this
      ensures State() == old(State()).(history := old(history) + [User(text, skill)], lastUser := Some(text))
    {
      lastUser := Some(text);
      history := history + [User(text, skill)];
    }

    method AppendAssistantMessage(text: string)
      modifies this
      ensures State() == old(State()).(history := old(history) + [Assistant(text)])
    {
      history := history + [Assistant(text)];
    }

    method AppendToolResult(callId: string, result: string)
      modifies this
      ensures State() == old(State()).(history := old(history) + [ToolResult(callId, Capped(result))])
    {
      var content := result;
      if |content| > MAX_TOOL_RESULT_CHARS {
        content := content[..MAX_TOOL_RESULT_CHARS] + "\n...[truncated by session history cap]";
      }
      history := history + [ToolResult(callId, content)];
    }

    method AppendFunctionCall(callId: string, name: string, arguments: string)
      modifies this
      ensures State() == old(State()).(history := old(history) + [FunctionCall(callId, name, arguments)])
    {
      history := history + [FunctionCall(callId, name, arguments)];
    }

    method PrependItems(items: seq<Item>)
      modifies this
      ensures State() == old(State()).(history := items + old(history))
    {
      history := items + history;
    }

    method RecordRolloutItems(items: seq<Record>)
      modifies this
      ensures State() == old(State()).(ledger := old(rollout) + items)
    {
      rollout := rollout + items;
    }

    method ToPrompt() returns (prompt: seq<Item>)
      ensures prompt == Normalized(history)
    {
      prompt := NormalizePromptHistory(history);
    }

    method ReplaceRangeWithSystemSummary(start: int, end: int, summary: string) returns (replaced: bool)
      modifies this
      ensures replaced == ReplaceRange(old(history), start, end, summary).Some?
      ensures State() ==
        if replaced
        then old(State()).(history := ReplaceRange(old(history), start, end, summary).value,
            compactions := old(compactions) + 1)
        else old(State())
    {
      if start < 0 || end <= start { return false; }
      var effectiveEnd := Min(end, |history|);
      if effectiveEnd <= start { return false; }
      history := history[..start] + [System(summary)] + history[effectiveEnd..];
      compactions := compactions + 1;
      return true;
    }

    method RecordTurnUsage(counts: Option<Usage>) returns (snapshot: Option<(Usage, Usage)>)
      modifies this
      ensures CountedUsage(counts).None? ==> snapshot == None && State() == old(State())
      ensures CountedUsage(counts).Some? ==>
        && snapshot == Some((counts.value, usage))
        && State() == old(State()).(usage := Usage(old(usage).input + counts.value.input,
            old(usage).output + counts.value.output),
                                    lastTurnInput := counts.value.input)
    {
      if counts.None? || counts.value.input < 0 || counts.value.output < 0 { return None; }
      lastTurnInput := counts.value.input;
      usage := Usage(usage.input + counts.value.input, usage.output + counts.value.output);
      return Some((counts.value, usage));
    }

    method MarkTurnCompleted()
      modifies this
      ensures State() == old(State()).(turnCount := old(turnCount) + 1)
    {
      turnCount := turnCount + 1;
    }

    method CloseRollout()
      modifies this
      ensures State() == Close(old(State()))
    {
      if closed { return; }
      rollout := rollout + [SessionClosed(lastUser, turnCount, usage)];
      closed := true;
    }

    /** `restore_session_from_rollout`, on a session just created for the ledger. */
    method RestoreFromRollout(ledger: seq<Record>, replayed: Replayed)
      requires State() == FRESH && replayed == Replay(ledger)
      modifies this
      ensures State() == Restore(ledger)
    {
      history := replayed.history;
      usage := Usage(Max(0, replayed.usage.input), Max(0, replayed.usage.output));
      lastTurnInput, turnCount, compactions, contextInjected := 0, replayed.turnCount, replayed.compactions, true;
      rollout := ledger;
    }
  }

  // ---------------------------------------------------------------------------------------
  // The dictionary of calls not yet answered; keys keep their insertion order.

  type Pending = seq<(string, string)>

  function SetPending(pending: Pending, id: string, name: string): Pending {
    if pending == [] then [(id, name)]
    else if pending[0].0 == id then [(id, name)] + pending[1..]
    else [pending[0]] + SetPending(pending[1..], id, name)
  }

  function PopPending(pending: Pending, id: string): Pending {
    if pending == [] then []
    else if pending[0].0 == id then pending[1..]
    else [pending[0]] + PopPending(pending[1..], id)
  }

  /** The outputs given to calls that got none of their own. */
  function Outputs(pending: Pending, outcome: string): seq<Item> {
    seq(|pending|, i requires 0 <= i < |pending| => ToolResult(pending[i].0, outcome))
  }

  lemma OutputsSnoc(pending: Pending, outcome: string, i: nat)
    requires i < |pending|
    ensures Outputs(pending[..i + 1], outcome) == Outputs(pending[..i], outcome) + [ToolResult(pending[i].0, outcome)]
  {}

  lemma RecordsSnoc(items: seq<Item>, item: Item)
    ensures ItemRecords(items + [item]) == ItemRecords(items) + [HistoryItem(item)]
  {}

  lemma NothingStored(s: Live)
    ensures StoreItems(s, []) == s
  {
    assert s.history + [] == s.history && s.ledger + ItemRecords([]) == s.ledger;
  }

  lemma OneStored(s: Live, id: string, outcome: string)
    ensures StoreItems(s, [ToolResult(id, outcome)]) == Append(s, ToolResult(id, outcome))
  {
    assert ItemRecords([ToolResult(id, outcome)]) == [HistoryItem(ToolResult(id, outcome))];
  }

  class TurnAgent {
    const session: Session
    const setup: Setup

    constructor (session: Session, setup: Setup)
      ensures this.session == session && this.setup == setup
    {
      this.session, this.setup := session, setup;
    }

    method PersistLatestHistoryItem()
      requires session.history != []
      modifies session
      ensures session.State() ==
          Log(old(session.State()), HistoryItem(old(session.history)[|old(session.history)| - 1]))
    {
      session.RecordRolloutItems([HistoryItem(session.history[|session.history| - 1])]);
    }

    method PersistTurnCompleted(snapshot: Option<(Usage, Usage)>)
      modifies session
      ensures session.State() == Log(old(session.State()),
        if snapshot.Some? then TurnCompleted(snapshot.value.0, snapshot.value.1)
        else TurnCompleted(NO_USAGE, old(session.usage)))
    {
      var payload := if snapshot.Some? then snapshot.value else (NO_USAGE, session.usage);
      session.RecordRolloutItems([TurnCompleted(payload.0, payload.1)]);
    }

    method FinishTurn(counts: Option<Usage>)
      modifies session
      ensures session.State() == CompleteTurn(old(session.State()), counts)
    {
      var snapshot := session.RecordTurnUsage(counts);
      session.MarkTurnCompleted();
      PersistTurnCompleted(snapshot);
    }

    /** `_ensure_initial_context` and the two records it may lead to. */
    method OpenTurnRecords()
      modifies session
      ensures session.State() == OpenTurn(old(session.State()), setup.config)
    {
      if setup.config.None? { return; }
      var context: seq<Item> := [];
      if !session.contextInjected {
        context := setup.config.value;
        if context != [] { session.PrependItems(context); }
        assert [] + old(session.history) == old(session.history);
        session.contextInjected := true;
      }
      if !session.metaWritten {
        session.RecordRolloutItems([SessionMeta]);
        session.metaWritten := true;
      }
      if context != [] {
        session.RecordRolloutItems(ItemRecords(context));
      }
      assert [] + old(session.history) == old(session.history);
      assert session.rollout + [] == session.rollout && ItemRecords([]) == [];
    }

    /** `_existing_injected_keys_for_same_turn`: the backward scan over the prompt. */
    method ExistingInjectedKeys() returns (existing: set<SkillTag>)
      ensures existing == ExistingSkills(Normalized(session.history))
    {
      var prompt := session.ToPrompt();
      existing := {};
      if |prompt| < 2 { return; }
      var n := |prompt| - 1;
      while n > 0 && prompt[n - 1].User? && prompt[n - 1].skill.Some?
        invariant 0 <= n <= |prompt| - 1
        invariant existing + TrailingSkills(prompt[..n]) == TrailingSkills(prompt[..|prompt| - 1])
      {
        assert prompt[..n][..n - 1] == prompt[..n - 1];
        existing := existing + {prompt[n - 1].skill.value};
        n := n - 1;
      }
    }

    /** `_append_injected_messages`. */
    method AppendInjectedMessages(messages: seq<SkillMessage>)
      modifies session
      ensures session.State() == InjectPlan(old(session.State()), messages)
    {
      var existing := ExistingInjectedKeys();
      for i := 0 to |messages|
        invariant InjectSkills(session.State(), messages[i..], existing) == InjectPlan(old(session.State()), messages)
      {
        var message := messages[i];
        assert messages[i..][1..] == messages[i + 1..];
        if message.tag !in existing {
          session.AppendUserMessage(message.text, Some(message.tag));
          PersistLatestHistoryItem();
          existing := existing + {message.tag};
        }
      }
    }

    /** `CompactionOrchestrator.compact` and the record of an applied compaction. */
    method CompactHistoryIfNeeded(it: Iteration) returns (stop: Option<Exit>)
      modifies session
      ensures (session.State(), stop) == CompactStep(old(session.State()), setup.strategy, it)
    {
      if setup.strategy.None? { return None; }
      var prompt := session.ToPrompt();
      var plan := Compaction.PlanCompaction(setup.strategy.value, prompt, it.tokens);
      if plan.None? || Compaction.Summarised(prompt, plan.value) == [] { return None; }
      match it.summary
      case SummaryCancelled => return Some(Interrupted);
      case SummaryFailed => return Some(Failed);
      case SummaryText(text) =>
        var block := Compaction.RenderSummary(text);
        var replaced := session.ReplaceRangeWithSystemSummary(plan.value.start, plan.value.end, block);
        if replaced {
          var applied := CompactionApplied(block, plan.value.start, plan.value.end, plan.value.end - plan.value.start);
          session.RecordRolloutItems([applied]);
        }
        return None;
    }

    /** `_append_pending_tool_outputs` followed by `_persist_pending_tool_outputs`. */
    method AppendPendingToolOutputs(pending: Pending, outcome: string)
      requires outcome == ABORTED || outcome == INTERRUPTED
      modifies session
      ensures session.State() == StoreItems(old(session.State()), Outputs(pending, outcome))
    {
      var all := Outputs(pending, outcome);
      assert pending[..|pending|] == pending;
      NothingStored(session.State());
      for i := 0 to |pending|
        invariant session.State() ==
          old(session.State()).(history := old(session.history) + Outputs(pending[..i], outcome))
      {
        OutputsSnoc(pending, outcome, i);
        session.AppendToolResult(pending[i].0, outcome);
      }
      for i := 0 to |pending|
        invariant session.State() == old(session.State()).(
          history := old(session.history) + all,
              ledger := old(session.rollout) + ItemRecords(Outputs(pending[..i], outcome)))
      {
        OutputsSnoc(pending, outcome, i);
        RecordsSnoc(Outputs(pending[..i], outcome), ToolResult(pending[i].0, outcome));
        session.RecordRolloutItems([HistoryItem(ToolResult(pending[i].0, outcome))]);
      }
    }

    /** One tool call. A cancellation leaves with the exception still to be handled: `pending` is then
        what the outer handler finds. */
    method DispatchToolCall(call: Call) returns (exit: Option<Exit>, pending: Pending)
      modifies session
      ensures pending != [] ==> exit == Some(Interrupted)
      ensures RunCall(old(session.State()), call) ==
        (StoreItems(session.State(), Outputs(pending, INTERRUPTED)), exit)
    {
      session.AppendFunctionCall(call.id, call.name, call.arguments);
      PersistLatestHistoryItem();
      pending := SetPending([], call.id, call.name);
      OneStored(session.State(), call.id, INTERRUPTED);
      OneStored(session.State(), call.id, ABORTED);
      assert forall outcome :: Outputs(pending, outcome) == [ToolResult(call.id, outcome)];
      match call.run
      case CancelledAtNotice =>
        return Some(Interrupted), pending;
      case CancelledInTool =>
        AppendPendingToolOutputs(pending, INTERRUPTED);
        NothingStored(session.State());
        return Some(Interrupted), [];
      case AbortedInTool =>
        AppendPendingToolOutputs(pending, ABORTED);
        session.MarkTurnCompleted();
        PersistTurnCompleted(None);
        NothingStored(session.State());
        return Some(AbortedByUser), [];
      case Finished(result, thenCancelled) =>
        pending := PopPending(pending, call.id);
        session.AppendToolResult(call.id, result);
        PersistLatestHistoryItem();
        NothingStored(session.State());
        return if thenCancelled then Some(Interrupted) else None, pending;
    }

    /** The `for tool_call in tool_calls` loop. */
    method DispatchToolCalls(calls: seq<Call>) returns (exit: Option<Exit>, pending: Pending)
      modifies session
      ensures pending != [] ==> exit == Some(Interrupted)
      ensures RunCalls(old(session.State()), calls) ==
        (StoreItems(session.State(), Outputs(pending, INTERRUPTED)), exit)
    {
      for i := 0 to |calls|
        invariant RunCalls(session.State(), calls[i..]) == RunCalls(old(session.State()), calls)
      {
        assert calls[i..][0] == calls[i] && calls[i..][1..] == calls[i + 1..];
        exit, pending := DispatchToolCall(calls[i]);
        NothingStored(session.State());
        if exit.Some? { return; }
      }
      assert calls[|calls|..] == [];
      NothingStored(session.State());
      return None, [];
    }

    /** The body of the `try`: `pending` is non-empty only when a cancellation is being raised. */
    method SampleUntilDone(iterations: seq<Iteration>) returns (exit: Exit, pending: Pending)
      modifies session
      ensures pending != [] ==> exit == Interrupted
      ensures Loop(old(session.State()), setup.strategy, iterations, Max(setup.signalBudget, 0)) ==
        (StoreItems(session.State(), Outputs(pending, INTERRUPTED)), exit)
    {
      var budget := Max(setup.signalBudget, 0);
      pending := [];
      var i := 0;
      while i < |iterations|
        invariant 0 <= i <= |iterations| && budget >= 0
        invariant Loop(session.State(), setup.strategy, iterations[i..], budget)
               == Loop(old(session.State()), setup.strategy, iterations, Max(setup.signalBudget, 0))
      {
        var it := iterations[i];
        assert iterations[i..][0] == it && iterations[i..][1..] == iterations[i + 1..];
        var stop := CompactHistoryIfNeeded(it);
        NothingStored(session.State());
        if stop.Some? { return stop.value, []; }
        match it.sampled
        case StreamCancelled => return Interrupted, [];
        case StreamFailed => return Failed, [];
        case Reply(calls, text, counts) =>
          if text != "" {
            session.AppendAssistantMessage(text);
            PersistLatestHistoryItem();
          }
          if calls == [] {
            if budget > 0 && it.signalled {
              budget := budget - 1;
              AppendInjectedMessages(it.skills);
            } else {
              FinishTurn(counts);
              NothingStored(session.State());
              return Completed(text), [];
            }
          } else {
            var stopped, left := DispatchToolCalls(calls);
            NothingStored(session.State());
            if stopped.Some? { return stopped.value, left; }
          }
          i := i + 1;
      }
      assert iterations[i..] == [];
      NothingStored(session.State());
      return Interrupted, [];
    }

    /** `Agent.run_turn`, with its outer handler for cancellation. */
    method RunTurn(input: TurnInput) returns (exit: Exit)
      modifies session
      ensures (session.State(), exit) == Turn(old(session.State()), setup, input)
    {
      OpenTurnRecords();
      session.AppendUserMessage(input.text, None);
      PersistLatestHistoryItem();
      AppendInjectedMessages(input.skills);
      if input.cancelledAtStart { return Interrupted; }
      var pending;
      exit, pending := SampleUntilDone(input.iterations);
      NothingStored(session.State());
      if exit == Interrupted {
        AppendPendingToolOutputs(pending, INTERRUPTED);
      }
      if input.cancelledAtEnd && (exit.Completed? || exit.AbortedByUser?) {
        exit := Interrupted;
      }
    }
  }
}
