/** One agent turn, and whole runs of turns, as transformations of the live session and the ledger
    written beside it (pycodex/core/agent.py, session.py, rollout_replay.py). */
module SessionState {
  import opened Prelude
  import opened PromptHistory
  import opened Rollout
  import Compaction

  /** The live session together with every record its recorder has accepted. */
  datatype Live = Live(
    history: seq<Item>, usage: Usage, lastTurnInput: int, turnCount: nat, compactions: nat,
    contextInjected: bool, lastUser: Option<string>, metaWritten: bool, closed: bool, ledger: seq<Record>)

  const FRESH := Live([], NO_USAGE, 0, 0, 0, false, None, false, false, [])

  // ---------------------------------------------------------------------------------------
  // What the environment decides: samples, tool outcomes, summaries, cancellation points.

  type CallId = s: string | s != "" witness "c"

  /** How one dispatched call ends. A cancellation can also strike at the notice sent before the tool
      starts, or at the one sent after its result is stored. */
  datatype ToolRun =
    | CancelledAtNotice
    | CancelledInTool
    | AbortedInTool
    | Finished(result: string, thenCancelled: bool)

  datatype Call = Call(id: CallId, name: string, arguments: string, run: ToolRun)

  datatype Sampled =
    | Reply(calls: seq<Call>, text: string, usage: Option<Usage>)
    | StreamCancelled
    | StreamFailed

  datatype Summary = SummaryText(text: string) | SummaryCancelled | SummaryFailed

  datatype SkillMessage = SkillMessage(tag: SkillTag, text: string)

  /** One pass of the sampling loop. `signalled` says that the reply names a skill not yet injected;
      `skills` are then the messages of its injection plan. */
  datatype Iteration = Iteration(tokens: int, summary: Summary, sampled: Sampled, signalled: bool,
      skills: seq<SkillMessage>)

  /** A user turn. After the last iteration the stream is cancelled. */
  datatype TurnInput = TurnInput(
    text: string, skills: seq<SkillMessage>, cancelledAtStart: bool, iterations: seq<Iteration>, cancelledAtEnd: bool)

  /** `config` holds the initial context items, when the session has a configuration. */
  datatype Setup = Setup(config: Option<seq<Item>>, strategy: Option<Compaction.Strategy>, signalBudget: int)

  datatype Exit = Completed(text: string) | AbortedByUser | Interrupted | Failed

  /** Initial context items are system messages that do not pose as compaction summaries. */
  ghost predicate ValidSetup(setup: Setup) {
    setup.config.Some? ==>
      forall i :: 0 <= i < |setup.config.value| ==>
          setup.config.value[i].System? && !Compaction.IsSummary(setup.config.value[i])
  }

  // ---------------------------------------------------------------------------------------
  // The steps.

  const MAX_TOOL_RESULT_CHARS: nat := 200000

  function Capped(result: string): string {
    if |result| > MAX_TOOL_RESULT_CHARS
    then result[..MAX_TOOL_RESULT_CHARS] + "\n...[truncated by session history cap]"
    else result
  }

  function Log(s: Live, r: Record): Live { s.(ledger := s.ledger + [r]) }

  /** Appends to the history and persists the item just appended. */
  function Append(s: Live, item: Item): Live {
    var lastUser := if item.User? then Some(item.text) else s.lastUser;
    Log(s.(history := s.history + [item], lastUser := lastUser), HistoryItem(item))
  }

  function ItemRecords(items: seq<Item>): seq<Record> {
    seq(|items|, i requires 0 <= i < |items| => HistoryItem(items[i]))
  }

  /** Initial context, once; session metadata, once per recorder. */
  function OpenTurn(s: Live, config: Option<seq<Item>>): Live {
    match config
    case None => s
    case Some(items) =>
      var context := if s.contextInjected then [] else items;
      var prepended := s.(history := context + s.history, contextInjected := true);
      var described := if s.metaWritten then prepended else Log(prepended, SessionMeta).(metaWritten := true);
      described.(ledger := described.ledger + ItemRecords(context))
  }

  /** The skill messages standing right before the last prompt item. */
  function TrailingSkills(items: seq<Item>): set<SkillTag> {
    if items != [] && items[|items| - 1].User? && items[|items| - 1].skill.Some?
    then {items[|items| - 1].skill.value} + TrailingSkills(items[..|items| - 1])
    else {}
  }

  function ExistingSkills(prompt: seq<Item>): set<SkillTag> {
    if |prompt| < 2 then {} else TrailingSkills(prompt[..|prompt| - 1])
  }

  function InjectSkills(s: Live, messages: seq<SkillMessage>, existing: set<SkillTag>): Live
    decreases |messages|
  {
    if messages == [] then s
    else if messages[0].tag in existing then InjectSkills(s, messages[1..], existing)
    else InjectSkills(Append(s, User(messages[0].text, Some(messages[0].tag))), messages[1..],
        existing + {messages[0].tag})
  }

  function InjectPlan(s: Live, messages: seq<SkillMessage>): Live {
    InjectSkills(s, messages, ExistingSkills(Normalized(s.history)))
  }

  function CompactStep(s: Live, strategy: Option<Compaction.Strategy>, it: Iteration): (Live, Option<Exit>) {
    if strategy.None? then (s, None)
    else
      match Compaction.Target(strategy.value, Normalized(s.history), it.tokens)
      case None => (s, None)
      case Some(plan) =>
        match it.summary
        case SummaryCancelled => (s, Some(Interrupted))
        case SummaryFailed => (s, Some(Failed))
        case SummaryText(text) =>
          match Compaction.Compacted(s.history, plan, text)
          case None => (s, None)
          case Some(h) =>
            (Log(s.(history := h, compactions := s.compactions + 1),
                 CompactionApplied(Compaction.RenderSummary(text), plan.start, plan.end, plan.end - plan.start)), None)
  }

  function CountedUsage(usage: Option<Usage>): Option<Usage> {
    if usage.Some? && usage.value.input >= 0 && usage.value.output >= 0 then usage else None
  }

  function CompleteTurn(s: Live, usage: Option<Usage>): Live {
    match CountedUsage(usage)
    case None => Log(s.(turnCount := s.turnCount + 1), TurnCompleted(NO_USAGE, s.usage))
    case Some(u) =>
      var total := Usage(s.usage.input + u.input, s.usage.output + u.output);
      Log(s.(turnCount := s.turnCount + 1, usage := total, lastTurnInput := u.input), TurnCompleted(u, total))
  }

  const ABORTED := "aborted by user"
  const INTERRUPTED := "interrupted"

  /** One tool call, and how the turn ends if it ends there. */
  function RunCall(s: Live, c: Call): (Live, Option<Exit>) {
    var called := Append(s, FunctionCall(c.id, c.name, c.arguments));
    match c.run
    case CancelledAtNotice => (Append(called, ToolResult(c.id, INTERRUPTED)), Some(Interrupted))
    case CancelledInTool => (Append(called, ToolResult(c.id, INTERRUPTED)), Some(Interrupted))
    case AbortedInTool => (CompleteTurn(Append(called, ToolResult(c.id, ABORTED)), None), Some(AbortedByUser))
    case Finished(result, thenCancelled) =>
      (Append(called, ToolResult(c.id, Capped(result))), if thenCancelled then Some(Interrupted) else None)
  }

  /** The tool calls of one reply, in order, up to the first abort or cancellation. */
  function RunCalls(s: Live, calls: seq<Call>): (Live, Option<Exit>)
    decreases |calls|
  {
    if calls == [] then (s, None)
    else
      var (ran, exit) := RunCall(s, calls[0]);
      if exit.Some? then (ran, exit) else RunCalls(ran, calls[1..])
  }

  function AppendText(s: Live, text: string): Live { if text == "" then s else Append(s, Assistant(text)) }

  /** The sampling loop. */
  function Loop(s: Live, strategy: Option<Compaction.Strategy>, its: seq<Iteration>, budget: nat): (Live, Exit)
    decreases |its|
  {
    if its == [] then (s, Interrupted)
    else
      var it := its[0];
      var (compacted, stop) := CompactStep(s, strategy, it);
      if stop.Some? then (compacted, stop.value)
      else
        match it.sampled
        case StreamCancelled => (compacted, Interrupted)
        case StreamFailed => (compacted, Failed)
        case Reply(calls, text, usage) =>
          var texted := AppendText(compacted, text);
          if calls == [] then
            if budget > 0 && it.signalled
            then Loop(InjectPlan(texted, it.skills), strategy, its[1..], budget - 1)
            else (CompleteTurn(texted, usage), Completed(text))
          else
            var (ran, exit) := RunCalls(texted, calls);
            if exit.Some? then (ran, exit.value) else Loop(ran, strategy, its[1..], budget)
  }

  /** What one pass of the loop leaves, when the loop goes on. */
  function Continued(s: Live, strategy: Option<Compaction.Strategy>, it: Iteration, budget: nat): Option<(Live, nat)> {
    var (compacted, stop) := CompactStep(s, strategy, it);
    if stop.Some? || !it.sampled.Reply? then None
    else
      var texted := AppendText(compacted, it.sampled.text);
      if it.sampled.calls == [] then
        if budget > 0 && it.signalled then Some((InjectPlan(texted, it.skills), budget - 1)) else None
      else
        var (ran, exit) := RunCalls(texted, it.sampled.calls);
        if exit.Some? then None else Some((ran, budget))
  }

  /** The states at which the loop plans a compaction or samples the model, in order. */
  ghost function Points(s: Live, strategy: Option<Compaction.Strategy>, its: seq<Iteration>, budget: nat): seq<Live>
    decreases |its|
  {
    if its == [] then [s]
    else
      [s, CompactStep(s, strategy, its[0]).0] +
      match Continued(s, strategy, its[0], budget)
      case None => []
      case Some((next, left)) => Points(next, strategy, its[1..], left)
  }

  /** The turn up to the sampling loop. */
  function Started(s: Live, setup: Setup, input: TurnInput): Live {
    InjectPlan(Append(OpenTurn(s, setup.config), User(input.text, None)), input.skills)
  }

  /** `run_turn`. */
  function Turn(s: Live, setup: Setup, input: TurnInput): (Live, Exit) {
    var started := Started(s, setup, input);
    if input.cancelledAtStart then (started, Interrupted)
    else
      var (final, exit) := Loop(started, setup.strategy, input.iterations, Max(setup.signalBudget, 0));
      (final, if input.cancelledAtEnd && (exit.Completed? || exit.AbortedByUser?) then Interrupted else exit)
  }

  function Close(s: Live): Live {
    if s.closed then s else Log(s, SessionClosed(s.lastUser, s.turnCount, s.usage)).(closed := true)
  }

  /** `restore_session_from_rollout`: a new session and recorder over an existing ledger. */
  function Restore(ledger: seq<Record>): Live {
    var r := Replay(ledger);
    Live(r.history, Usage(Max(0, r.usage.input), Max(0, r.usage.output)), 0, r.turnCount, r.compactions,
         true, None, false, false, ledger)
  }

  datatype Step =
    | TurnStep(input: TurnInput)
    | CloseStep
    | ResumeStep
    | CrashStep(kept: nat)     // only the first `kept` records survive; the session is then restored

  predicate Enabled(s: Live, step: Step) {
    match step
    case TurnStep(_) => !s.closed
    case CrashStep(kept) => kept <= |s.ledger|
    case _ => true
  }

  function Next(s: Live, setup: Setup, step: Step): Live
    requires Enabled(s, step)
  {
    match step
    case TurnStep(input) => Turn(s, setup, input).0
    case CloseStep => Close(s)
    case ResumeStep => Restore(s.ledger)
    case CrashStep(kept) => Restore(s.ledger[..kept])
  }

  predicate Legal(s: Live, setup: Setup, steps: seq<Step>)
    decreases |steps|
  {
    steps == [] || (Enabled(s, steps[0]) && Legal(Next(s, setup, steps[0]), setup, steps[1..]))
  }

  function Run(s: Live, setup: Setup, steps: seq<Step>): Live
    requires Legal(s, setup, steps)
    decreases |steps|
  {
    if steps == [] then s else Run(Next(s, setup, steps[0]), setup, steps[1..])
  }

  // ---------------------------------------------------------------------------------------
  // Invariants. All of them are about every prefix of the ledger, because a crash may leave any.

  /** Refinement: folding the ledger gives the live history, usage, turn count and compaction count. */
  ghost predicate Agrees(s: Live) {
    var r := Replay(s.ledger);
    r.history == s.history && r.usage == s.usage && r.turnCount == s.turnCount && r.compactions == s.compactions
  }

  predicate EndsInCall(ledger: seq<Record>) {
    ledger != [] && ledger[|ledger| - 1].HistoryItem? && ledger[|ledger| - 1].item.FunctionCall?
  }

  function LastCallId(ledger: seq<Record>): string
    requires EndsInCall(ledger)
  {
    ledger[|ledger| - 1].item.callId
  }

  predicate IsOutputRecord(r: Record) { r.HistoryItem? && r.item.ToolResult? }

  /** `last_user_message_from_history`. */
  function LastUserMessage(history: seq<Item>): Option<string> {
    if history == [] then None
    else if history[|history| - 1].User? then Some(history[|history| - 1].text)
    else LastUserMessage(history[..|history| - 1])
  }

  /** The usage of all turns the ledger records. */
  function TurnSum(ledger: seq<Record>): Usage {
    if ledger == [] then NO_USAGE
    else
      var before, last := TurnSum(ledger[..|ledger| - 1]), ledger[|ledger| - 1];
      if last.TurnCompleted? then Usage(before.input + last.turn.input, before.output + last.turn.output) else before
  }

  lemma TurnSumSnoc(ledger: seq<Record>, r: Record)
    ensures var before := TurnSum(ledger);
      TurnSum(ledger + [r]) ==
        if r.TurnCompleted? then Usage(before.input + r.turn.input, before.output + r.turn.output) else before
  {
    assert (ledger + [r])[..|ledger|] == ledger;
  }

  /** Where both are known, they are the same. */
  predicate SameMessage(a: Option<string>, b: Option<string>) { a.Some? && b.Some? ==> a == b }

  /** Summary blocks are counted and lead; totals are sums; a closing record repeats the totals and
      names no other last message than the history has. */
  ghost predicate SoundAt(ledger: seq<Record>, i: nat)
    requires i <= |ledger|
  {
    var r := Replay(ledger[..i]);
    && Compaction.SummaryPrefix(r.history, r.compactions)
    && r.usage == TurnSum(ledger[..i])
    && r.usage.input >= 0 && r.usage.output >= 0
    && (i < |ledger| && ledger[i].SessionClosed? ==>
          && ledger[i].turnCount == r.turnCount && ledger[i].total == r.usage
          && SameMessage(ledger[i].lastUser, LastUserMessage(r.history)))
  }

  /** Only the call recorded last can be waiting for its output. */
  ghost predicate OnlyLastCallWaits(ledger: seq<Record>) {
    && (EndsInCall(ledger) ==> LastCallId(ledger) != "")
    && (forall id :: id != "" ==>
          Waiting(Replay(ledger).history, id, 0) == if EndsInCall(ledger) && LastCallId(ledger) == id then 1 else 0)
  }

  /** Only the call recorded last can be waiting, and the record after a call is its one output. */
  ghost predicate CleanAt(ledger: seq<Record>, i: nat)
    requires i <= |ledger|
  {
    var cut := ledger[..i];
    && OnlyLastCallWaits(cut)
    && (i < |ledger| && EndsInCall(cut) ==> IsOutputRecord(ledger[i]) && ledger[i].item.callId == LastCallId(cut))
    && (i < |ledger| && IsOutputRecord(ledger[i]) ==> EndsInCall(cut))
  }

  ghost predicate Sound(ledger: seq<Record>) {
    forall i {:trigger SoundAt(ledger, i)} :: 0 <= i <= |ledger| ==> SoundAt(ledger, i)
  }

  ghost predicate Clean(ledger: seq<Record>) {
    forall i {:trigger CleanAt(ledger, i)} :: 0 <= i <= |ledger| ==> CleanAt(ledger, i)
  }

  /** The session remembers no other last message than its history has. A resumed session remembers none,
      and a compaction may cut the message out of the history. */
  ghost predicate Remembers(s: Live) { SameMessage(s.lastUser, LastUserMessage(s.history)) }

  ghost predicate Inv(s: Live, clean: bool) {
    Agrees(s) && Sound(s.ledger) && Remembers(s) && (clean ==> Clean(s.ledger))
  }

  /** The invariant between tool calls and between turns: no call is being run. */
  ghost predicate AtRest(s: Live, clean: bool) { Inv(s, clean) && (clean ==> !EndsInCall(s.ledger)) }

  lemma {:induction false} SoundSnoc(ledger: seq<Record>, r: Record)
    requires Sound(ledger)
    requires r.SessionClosed? ==>
      && r.turnCount == Replay(ledger).turnCount && r.total == Replay(ledger).usage
      && SameMessage(r.lastUser, LastUserMessage(Replay(ledger).history))
    requires var next := Replay(ledger + [r]);
             && Compaction.SummaryPrefix(next.history, next.compactions)
             && next.usage.input >= 0 && next.usage.output >= 0 && next.usage == TurnSum(ledger + [r])
    ensures Sound(ledger + [r])
  {
    forall i | 0 <= i <= |ledger + [r]|
      ensures SoundAt(ledger + [r], i)
    {
      if i <= |ledger| {
        assert SoundAt(ledger, i);
        assert (ledger + [r])[..i] == ledger[..i];
        assert i == |ledger| ==> ledger[..i] == ledger;
      } else {
        assert (ledger + [r])[..i] == ledger + [r];
      }
    }
  }

  /** The record `r` may follow a clean ledger: an output exactly after its call. */
  ghost predicate MayFollow(ledger: seq<Record>, r: Record) {
    if EndsInCall(ledger) then IsOutputRecord(r) && r.item.callId == LastCallId(ledger) else !IsOutputRecord(r)
  }

  lemma {:induction false} CleanSnoc(ledger: seq<Record>, r: Record)
    requires Clean(ledger) && MayFollow(ledger, r)
    requires OnlyLastCallWaits(ledger + [r])
    ensures Clean(ledger + [r])
  {
    forall i | 0 <= i <= |ledger + [r]|
      ensures CleanAt(ledger + [r], i)
    {
      if i <= |ledger| {
        assert CleanAt(ledger, i);
        assert (ledger + [r])[..i] == ledger[..i];
        assert i == |ledger| ==> ledger[..i] == ledger;
      } else {
        assert (ledger + [r])[..i] == ledger + [r];
      }
    }
  }

  lemma CleanNow(ledger: seq<Record>)
    requires Clean(ledger)
    ensures OnlyLastCallWaits(ledger)
  {
    assert CleanAt(ledger, |ledger|);
    assert ledger[..|ledger|] == ledger;
  }

  lemma SoundNow(ledger: seq<Record>)
    requires Sound(ledger)
    ensures Compaction.SummaryPrefix(Replay(ledger).history, Replay(ledger).compactions)
    ensures Replay(ledger).usage.input >= 0 && Replay(ledger).usage.output >= 0
    ensures Replay(ledger).usage == TurnSum(ledger)
  {
    assert SoundAt(ledger, |ledger|);
    assert ledger[..|ledger|] == ledger;
  }

  lemma AnsweredAtRest(s: Live, clean: bool)
    requires AtRest(s, clean) && clean
    ensures Answered(s.history)
  {
    CleanNow(s.ledger);
  }

  lemma {:induction false} LastMessageOfConcat(a: seq<Item>, b: seq<Item>)
    ensures LastUserMessage(a + b) == if LastUserMessage(b).Some? then LastUserMessage(b) else LastUserMessage(a)
    decreases |b|
  {
    if b == [] {
      assert a + b == a;
    } else {
      assert (a + b)[..|a + b| - 1] == a + b[..|b| - 1];
      LastMessageOfConcat(a, b[..|b| - 1]);
    }
  }

  lemma {:induction false} NoMessageIffNoUser(history: seq<Item>)
    ensures LastUserMessage(history) == None <==> forall i :: 0 <= i < |history| ==> !history[i].User?
  {
    if history != [] && !history[|history| - 1].User? {
      var before := history[..|history| - 1];
      NoMessageIffNoUser(before);
      assert history == before + [history[|history| - 1]];
      if i :| 0 <= i < |before| && before[i].User? {
        assert history[i].User?;
      }
    }
  }

  /** A compaction leaves the last message of the history or none: only summaries stand before the cut. */
  lemma CutKeepsMessage(h: seq<Item>, k: nat, end: int, text: string)
    requires Compaction.SummaryPrefix(h, k) && Rollout.ReplaceRange(h, k, end, text).Some?
    ensures var cut := Rollout.ReplaceRange(h, k, end, text).value;
      LastUserMessage(cut).Some? ==> LastUserMessage(cut) == LastUserMessage(h)
  {
    var rest := Max(k, Min(end, |h|));
    var block := System(text);
    assert Rollout.ReplaceRange(h, k, end, text).value == (h[..k] + [block]) + h[rest..];
    LastMessageOfConcat(h[..rest], h[rest..]);
    assert h[..rest] + h[rest..] == h;
    LastMessageOfConcat(h[..k] + [block], h[rest..]);
    forall i | 0 <= i < k
      ensures !h[i].User?
    {
      assert Compaction.IsSummary(h[i]);
    }
    NoMessageIffNoUser(h[..k] + [block]);
  }

  // Preservation, step by step.

  lemma AppendKeeps(s: Live, item: Item, clean: bool)
    requires Inv(s, clean) && !item.Malformed? && !Compaction.IsSummary(item)
    requires clean ==> MayFollow(s.ledger, HistoryItem(item)) && (item.FunctionCall? ==> item.callId != "")
    ensures Inv(Append(s, item), clean)
  {
    var r := HistoryItem(item);
    ReplaySnoc(s.ledger, r);
    TurnSumSnoc(s.ledger, r);
    SoundNow(s.ledger);
    SoundSnoc(s.ledger, r);
    LastMessageOfConcat(s.history, [item]);
    assert [item][..0] == [];
    if clean {
      CleanNow(s.ledger);
      forall id | id != ""
        ensures Waiting(s.history + [item], id, 0) == if item.FunctionCall? && item.callId == id then 1 else 0
      {
        WaitingSnoc(s.history, item, id);
      }
      CleanSnoc(s.ledger, r);
    }
  }

  /** A record that leaves the history alone. */
  lemma LogKeeps(s: Live, r: Record, s': Live, clean: bool)
    requires AtRest(s, clean) && s'.ledger == s.ledger + [r] && s'.history == s.history && s'.lastUser == s.lastUser
    requires r.SessionMeta? || r.SessionClosed? || r.TurnCompleted?
    requires r.SessionClosed? ==> r.turnCount == s.turnCount && r.total == s.usage && r.lastUser == s.lastUser
    requires r.TurnCompleted? ==>
      && r.cumulative.input >= 0 && r.cumulative.output >= 0
      && r.cumulative == Usage(s.usage.input + r.turn.input, s.usage.output + r.turn.output)
    requires s'.usage == (if r.TurnCompleted? then r.cumulative else s.usage)
    requires s'.turnCount == (if r.TurnCompleted? then s.turnCount + 1 else s.turnCount)
    requires s'.compactions == s.compactions
    ensures AtRest(s', clean)
  {
    ReplaySnoc(s.ledger, r);
    TurnSumSnoc(s.ledger, r);
    SoundNow(s.ledger);
    SoundSnoc(s.ledger, r);
    if clean {
      CleanNow(s.ledger);
      CleanSnoc(s.ledger, r);
    }
  }

  lemma CompleteTurnKeeps(s: Live, usage: Option<Usage>, clean: bool)
    requires AtRest(s, clean)
    ensures AtRest(CompleteTurn(s, usage), clean)
  {
    SoundNow(s.ledger);
    var s' := CompleteTurn(s, usage);
    LogKeeps(s, s'.ledger[|s.ledger|], s', clean);
  }

  /** Items appended to history and ledger. */
  function StoreItems(s: Live, items: seq<Item>): Live {
    s.(history := s.history + items, ledger := s.ledger + ItemRecords(items))
  }

  lemma StoredFirst(s: Live, items: seq<Item>)
    requires items != [] && items[0].System?
    ensures StoreItems(s, items) == StoreItems(Append(s, items[0]), items[1..])
  {
    assert items == [items[0]] + items[1..];
    assert ItemRecords(items) == [HistoryItem(items[0])] + ItemRecords(items[1..]);
    assert s.history + [items[0]] + items[1..] == s.history + items;
  }

  lemma {:induction false} StoredKeeps(s: Live, items: seq<Item>, clean: bool)
    requires AtRest(s, clean)
    requires forall i :: 0 <= i < |items| ==> items[i].System? && !Compaction.IsSummary(items[i])
    ensures AtRest(StoreItems(s, items), clean)
    decreases |items|
  {
    if items == [] {
      assert StoreItems(s, items) == s;
    } else {
      AppendKeeps(s, items[0], clean);
      StoredFirst(s, items);
      StoredKeeps(Append(s, items[0]), items[1..], clean);
    }
  }

  /** The initial context is prepended live but replayed as appended: the same, on an empty history. */
  ghost predicate ContextPending(s: Live, setup: Setup) {
    setup.config.Some? && !s.contextInjected ==> s.history == []
  }

  lemma OpenTurnKeeps(s: Live, setup: Setup, clean: bool)
    requires ValidSetup(setup) && AtRest(s, clean) && ContextPending(s, setup)
    ensures AtRest(OpenTurn(s, setup.config), clean)
    ensures setup.config.Some? ==> OpenTurn(s, setup.config).contextInjected
  {
    if setup.config.Some? {
      var described := if s.metaWritten then s else Log(s, SessionMeta).(metaWritten := true);
      if !s.metaWritten {
        LogKeeps(s, SessionMeta, described, clean);
      }
      var context := if s.contextInjected then [] else setup.config.value;
      StoredKeeps(described, context, clean);
      assert context + s.history == s.history + context;
      assert ItemRecords([]) == [];
      var begun := OpenTurn(s, setup.config);
      assert begun.history == described.history + context && begun.ledger == described.ledger + ItemRecords(context);
    }
  }

  lemma {:induction false} InjectSkillsKeeps(s: Live, messages: seq<SkillMessage>, existing: set<SkillTag>, clean: bool)
    requires AtRest(s, clean)
    ensures AtRest(InjectSkills(s, messages, existing), clean)
    ensures InjectSkills(s, messages, existing).contextInjected == s.contextInjected
    decreases |messages|
  {
    if messages == [] {
    } else {
      if messages[0].tag in existing {
        InjectSkillsKeeps(s, messages[1..], existing, clean);
      } else {
        var item := User(messages[0].text, Some(messages[0].tag));
        AppendKeeps(s, item, clean);
        InjectSkillsKeeps(Append(s, item), messages[1..], existing + {messages[0].tag}, clean);
      }
    }
  }

  lemma CompactStepKeeps(s: Live, strategy: Option<Compaction.Strategy>, it: Iteration, clean: bool)
    requires AtRest(s, clean)
    ensures AtRest(CompactStep(s, strategy, it).0, clean)
    ensures CompactStep(s, strategy, it).0.contextInjected == s.contextInjected
  {
    var s' := CompactStep(s, strategy, it).0;
    if s' != s {
      var prompt, k := Normalized(s.history), s.compactions;
      var plan := Compaction.Target(strategy.value, prompt, it.tokens).value;
      var r := s'.ledger[|s.ledger|];
      SoundNow(s.ledger);
      Compaction.PromptKeepsSummaryPrefix(s.history, k);
      Compaction.TargetShape(strategy.value, prompt, k, it.tokens);
      Compaction.ReplacementKeepsPrefix(s.history, k, plan.end, it.summary.text);
      CutKeepsMessage(s.history, k, plan.end, Compaction.RenderSummary(it.summary.text));
      ReplaySnoc(s.ledger, r);
      TurnSumSnoc(s.ledger, r);
      SoundSnoc(s.ledger, r);
      if clean {
        CleanNow(s.ledger);
        Compaction.CompactionRemovesWhatItSummarised(strategy.value, s.history, k, it.tokens, it.summary.text);
        CleanSnoc(s.ledger, r);
      }
    }
  }

  lemma CallAndOutputKeep(s: Live, c: Call, output: string, clean: bool)
    requires AtRest(s, clean)
    ensures var called := Append(s, FunctionCall(c.id, c.name, c.arguments));
            AtRest(Append(called, ToolResult(c.id, output)), clean)
  {
    AppendKeeps(s, FunctionCall(c.id, c.name, c.arguments), clean);
    AppendKeeps(Append(s, FunctionCall(c.id, c.name, c.arguments)), ToolResult(c.id, output), clean);
  }

  lemma AbortedCallKeeps(s: Live, c: Call, clean: bool)
    requires AtRest(s, clean)
    ensures var called := Append(s, FunctionCall(c.id, c.name, c.arguments));
            AtRest(CompleteTurn(Append(called, ToolResult(c.id, ABORTED)), None), clean)
  {
    var called := Append(s, FunctionCall(c.id, c.name, c.arguments));
    CallAndOutputKeep(s, c, ABORTED, clean);
    CompleteTurnKeeps(Append(called, ToolResult(c.id, ABORTED)), None, clean);
  }

  lemma RunCallKeeps(s: Live, c: Call, clean: bool)
    requires AtRest(s, clean)
    ensures AtRest(RunCall(s, c).0, clean)
    ensures RunCall(s, c).0.contextInjected == s.contextInjected
  {
    match c.run
    case AbortedInTool =>
      AbortedCallKeeps(s, c, clean);
    case Finished(result, _) =>
      CallAndOutputKeep(s, c, Capped(result), clean);
    case _ =>
      CallAndOutputKeep(s, c, INTERRUPTED, clean);
  }

  lemma {:induction false} RunCallsKeeps(s: Live, calls: seq<Call>, clean: bool)
    requires AtRest(s, clean)
    ensures AtRest(RunCalls(s, calls).0, clean)
    ensures RunCalls(s, calls).0.contextInjected == s.contextInjected
    decreases |calls|
  {
    if calls == [] {
    } else {
      RunCallKeeps(s, calls[0], clean);
      RunCallsKeeps(RunCall(s, calls[0]).0, calls[1..], clean);
    }
  }

  lemma AppendTextKeeps(s: Live, text: string, clean: bool)
    requires AtRest(s, clean)
    ensures AtRest(AppendText(s, text), clean)
  {
    if text != "" {
      AppendKeeps(s, Assistant(text), clean);
    }
  }

  lemma ContinuedKeeps(s: Live, strategy: Option<Compaction.Strategy>, it: Iteration, budget: nat, clean: bool)
    requires AtRest(s, clean) && Continued(s, strategy, it, budget).Some?
    ensures var next := Continued(s, strategy, it, budget).value.0;
            AtRest(next, clean) && next.contextInjected == s.contextInjected
  {
    CompactStepKeeps(s, strategy, it, clean);
    var compacted := CompactStep(s, strategy, it).0;
    AppendTextKeeps(compacted, it.sampled.text, clean);
    var texted := AppendText(compacted, it.sampled.text);
    if it.sampled.calls == [] {
      InjectSkillsKeeps(texted, it.skills, ExistingSkills(Normalized(texted.history)), clean);
    } else {
      RunCallsKeeps(texted, it.sampled.calls, clean);
    }
  }

  /** Where the loop stops in its first pass. */
  lemma StoppedKeeps(s: Live, strategy: Option<Compaction.Strategy>, its: seq<Iteration>, budget: nat, clean: bool)
    requires AtRest(s, clean) && its != [] && Continued(s, strategy, its[0], budget).None?
    ensures var final := Loop(s, strategy, its, budget).0;
            AtRest(final, clean) && final.contextInjected == s.contextInjected
  {
    var (compacted, stop) := CompactStep(s, strategy, its[0]);
    CompactStepKeeps(s, strategy, its[0], clean);
    if stop.None? && its[0].sampled.Reply? {
      StoppedAfterReply(s, strategy, its, budget, compacted);
      AfterReplyKeeps(compacted, its[0], clean);
    }
  }

  /** The state in which a reply that ends the turn leaves it. */
  function AfterReply(compacted: Live, it: Iteration): Live
    requires it.sampled.Reply?
  {
    var texted := AppendText(compacted, it.sampled.text);
    if it.sampled.calls == [] then CompleteTurn(texted, it.sampled.usage) else RunCalls(texted, it.sampled.calls).0
  }

  lemma AfterReplyKeeps(compacted: Live, it: Iteration, clean: bool)
    requires it.sampled.Reply? && AtRest(compacted, clean)
    ensures AtRest(AfterReply(compacted, it), clean)
    ensures AfterReply(compacted, it).contextInjected == compacted.contextInjected
  {
    var texted := AppendText(compacted, it.sampled.text);
    AppendTextKeeps(compacted, it.sampled.text, clean);
    if it.sampled.calls == [] {
      CompleteTurnKeeps(texted, it.sampled.usage, clean);
    } else {
      RunCallsKeeps(texted, it.sampled.calls, clean);
    }
  }

  lemma StoppedAfterReply(
        s: Live, strategy: Option<Compaction.Strategy>, its: seq<Iteration>, budget: nat, compacted: Live)
    requires its != [] && Continued(s, strategy, its[0], budget).None? && its[0].sampled.Reply?
    requires CompactStep(s, strategy, its[0]) == (compacted, None)
    ensures Loop(s, strategy, its, budget).0 == AfterReply(compacted, its[0])
  {}

  lemma {:induction false} LoopKeeps(
        s: Live, strategy: Option<Compaction.Strategy>, its: seq<Iteration>, budget: nat, clean: bool)
    requires AtRest(s, clean)
    ensures AtRest(Loop(s, strategy, its, budget).0, clean)
    ensures Loop(s, strategy, its, budget).0.contextInjected == s.contextInjected
    decreases |its|
  {
    if its == [] {
    } else {
      match Continued(s, strategy, its[0], budget)
      case None =>
        StoppedKeeps(s, strategy, its, budget, clean);
      case Some((next, left)) =>
        ContinuedKeeps(s, strategy, its[0], budget, clean);
        LoopKeeps(next, strategy, its[1..], left, clean);
        assert Loop(s, strategy, its, budget) == Loop(next, strategy, its[1..], left);
    }
  }

  lemma {:induction false} PointsKeep(
        s: Live, strategy: Option<Compaction.Strategy>, its: seq<Iteration>, budget: nat, clean: bool)
    requires AtRest(s, clean)
    ensures forall p :: p in Points(s, strategy, its, budget) ==> AtRest(p, clean)
    decreases |its|
  {
    if its == [] {
    } else {
      CompactStepKeeps(s, strategy, its[0], clean);
      match Continued(s, strategy, its[0], budget)
      case None =>
      case Some((next, left)) =>
        ContinuedKeeps(s, strategy, its[0], budget, clean);
        PointsKeep(next, strategy, its[1..], left, clean);
    }
  }

  lemma StartedKeeps(s: Live, setup: Setup, input: TurnInput, clean: bool)
    requires ValidSetup(setup) && AtRest(s, clean) && ContextPending(s, setup)
    ensures AtRest(Started(s, setup, input), clean)
    ensures setup.config.Some? ==> Started(s, setup, input).contextInjected
  {
    OpenTurnKeeps(s, setup, clean);
    var begun := OpenTurn(s, setup.config);
    AppendKeeps(begun, User(input.text, None), clean);
    var asked := Append(begun, User(input.text, None));
    InjectSkillsKeeps(asked, input.skills, ExistingSkills(Normalized(asked.history)), clean);
  }

  /** Whatever way a turn ends, the ledger agrees with the session and, unless a crash tore a call from
      its output before, every recorded call has exactly one output. */
  lemma TurnKeeps(s: Live, setup: Setup, input: TurnInput, clean: bool)
    requires ValidSetup(setup) && AtRest(s, clean) && ContextPending(s, setup)
    ensures AtRest(Turn(s, setup, input).0, clean)
    ensures ContextPending(Turn(s, setup, input).0, setup)
  {
    StartedKeeps(s, setup, input, clean);
    LoopKeeps(Started(s, setup, input), setup.strategy, input.iterations, Max(setup.signalBudget, 0), clean);
  }

  lemma CutKeeps(ledger: seq<Record>, kept: nat, clean: bool)
    requires Sound(ledger) && kept <= |ledger| && (clean ==> Clean(ledger))
    ensures Inv(Restore(ledger[..kept]), clean)
  {
    var cut := ledger[..kept];
    forall i | 0 <= i <= |cut|
      ensures SoundAt(cut, i) && (clean ==> CleanAt(cut, i))
    {
      assert cut[..i] == ledger[..i];
      assert SoundAt(ledger, i) && (clean ==> CleanAt(ledger, i));
    }
    SoundNow(cut);
  }

  // ---------------------------------------------------------------------------------------
  // Runs.

  /** No crash of the run keeps a call but loses its output. */
  predicate NoTornCall(s: Live, setup: Setup, steps: seq<Step>)
    requires Legal(s, setup, steps)
    decreases |steps|
  {
    steps == [] ||
    (&& (steps[0].CrashStep? ==> !EndsInCall(s.ledger[..steps[0].kept]))
     && NoTornCall(Next(s, setup, steps[0]), setup, steps[1..]))
  }

  lemma {:induction false} RunKeeps(s: Live, setup: Setup, steps: seq<Step>, clean: bool)
    requires ValidSetup(setup) && Legal(s, setup, steps)
    requires AtRest(s, clean) && ContextPending(s, setup)
    requires clean ==> NoTornCall(s, setup, steps)
    ensures AtRest(Run(s, setup, steps), clean)
    ensures ContextPending(Run(s, setup, steps), setup)
    decreases |steps|
  {
    if steps == [] {
    } else {
      match steps[0] {
        case TurnStep(input) =>
          TurnKeeps(s, setup, input, clean);
        case CloseStep =>
          if !s.closed {
            LogKeeps(s, SessionClosed(s.lastUser, s.turnCount, s.usage), Close(s), clean);
          }
        case ResumeStep =>
          CutKeeps(s.ledger, |s.ledger|, clean);
          assert s.ledger[..|s.ledger|] == s.ledger;
        case CrashStep(kept) =>
          CutKeeps(s.ledger, kept, clean);
      }
      RunKeeps(Next(s, setup, steps[0]), setup, steps[1..], clean);
    }
  }

  lemma FreshIsAtRest()
    ensures AtRest(FRESH, true)
  {
    assert FRESH.ledger[..0] == [];
  }

  /** Refinement over every run, crashes anywhere included: the fold of the records is the live state,
      and the live history starts with exactly as many summary blocks as compactions were counted. */
  lemma ReplayRefinesEveryRun(setup: Setup, steps: seq<Step>)
    requires ValidSetup(setup) && Legal(FRESH, setup, steps)
    ensures var s := Run(FRESH, setup, steps);
            && Replay(s.ledger).history == s.history
            && Replay(s.ledger).usage == s.usage
            && Replay(s.ledger).turnCount == s.turnCount
            && Replay(s.ledger).compactions == s.compactions
            && Compaction.SummaryPrefix(s.history, s.compactions)
  {
    FreshIsAtRest();
    RunKeeps(FRESH, setup, steps, false);
    SoundNow(Run(FRESH, setup, steps).ledger);
  }

  /** In a run whose crashes tear no call from its output, each call record is followed by its one
      output and each output record follows its call; and at every point of a next turn where a
      compaction is planned or the model sampled, the prompt is the raw history itself and the ledger
      folds to the state. */
  lemma EveryCallAnsweredOnce(setup: Setup, steps: seq<Step>, input: TurnInput)
    requires ValidSetup(setup) && Legal(FRESH, setup, steps) && NoTornCall(FRESH, setup, steps)
    ensures var s := Run(FRESH, setup, steps);
            && (forall i :: 0 <= i < |s.ledger| && s.ledger[i].HistoryItem? && s.ledger[i].item.FunctionCall? ==>
                  && i + 1 < |s.ledger| && IsOutputRecord(s.ledger[i + 1])
                  && s.ledger[i + 1].item.callId == s.ledger[i].item.callId)
            && (forall i :: 0 <= i < |s.ledger| && IsOutputRecord(s.ledger[i]) ==>
                  i > 0 && s.ledger[i - 1].HistoryItem? && s.ledger[i - 1].item.FunctionCall?)
            && Normalized(s.history) == s.history
            && (forall p :: p in Points(Started(s, setup, input), setup.strategy, input.iterations,
                  Max(setup.signalBudget, 0)) ==>
                  Normalized(p.history) == p.history && Agrees(p))
  {
    FreshIsAtRest();
    RunKeeps(FRESH, setup, steps, true);
    var s := Run(FRESH, setup, steps);
    assert s.ledger[..|s.ledger|] == s.ledger;
    forall i | 0 <= i < |s.ledger| && s.ledger[i].HistoryItem? && s.ledger[i].item.FunctionCall?
      ensures i + 1 < |s.ledger| && IsOutputRecord(s.ledger[i + 1])
      ensures s.ledger[i + 1].item.callId == s.ledger[i].item.callId
    {
      assert CleanAt(s.ledger, i + 1);
      assert EndsInCall(s.ledger[..i + 1]);
    }
    forall i | 0 <= i < |s.ledger| && IsOutputRecord(s.ledger[i])
      ensures i > 0 && s.ledger[i - 1].HistoryItem? && s.ledger[i - 1].item.FunctionCall?
    {
      assert CleanAt(s.ledger, i);
    }
    AnsweredAtRest(s, true);
    PromptIsHistoryIffAnswered(s.history);
    StartedKeeps(s, setup, input, true);
    PointsKeep(Started(s, setup, input), setup.strategy, input.iterations, Max(setup.signalBudget, 0), true);
    forall p | p in Points(Started(s, setup, input), setup.strategy, input.iterations, Max(setup.signalBudget, 0))
      ensures Normalized(p.history) == p.history && Agrees(p)
    {
      AnsweredAtRest(p, true);
      PromptIsHistoryIffAnswered(p.history);
    }
  }

  /** After a crash that keeps the first `kept` records, the restored prompt is the restored history
      exactly when the last record kept is not a call: the one torn pair is the whole failing family. */
  lemma CrashLeavesUnansweredIffItTearsACall(setup: Setup, steps: seq<Step>, kept: nat)
    requires ValidSetup(setup) && Legal(FRESH, setup, steps) && NoTornCall(FRESH, setup, steps)
    requires kept <= |Run(FRESH, setup, steps).ledger|
    ensures var cut := Run(FRESH, setup, steps).ledger[..kept];
            Normalized(Restore(cut).history) == Restore(cut).history <==> !EndsInCall(cut)
  {
    FreshIsAtRest();
    RunKeeps(FRESH, setup, steps, true);
    var s := Run(FRESH, setup, steps);
    CutKeeps(s.ledger, kept, true);
    CleanNow(s.ledger[..kept]);
    var cut := s.ledger[..kept];
    PromptIsHistoryIffAnswered(Restore(cut).history);
    if EndsInCall(cut) {
      assert Waiting(Restore(cut).history, LastCallId(cut), 0) == 1;
    }
  }

  /** Every closing record, wherever it stands and however often the session was resumed or crashed,
      carries the turn count and token totals that replay computes up to and including it. */
  lemma ClosingRecordsRepeatReplay(setup: Setup, steps: seq<Step>, i: nat)
    requires ValidSetup(setup) && Legal(FRESH, setup, steps)
    requires i < |Run(FRESH, setup, steps).ledger| && Run(FRESH, setup, steps).ledger[i].SessionClosed?
    ensures var ledger := Run(FRESH, setup, steps).ledger;
            ledger[i].turnCount == Replay(ledger[..i + 1]).turnCount && ledger[i].total == Replay(ledger[..i + 1]).usage
  {
    FreshIsAtRest();
    RunKeeps(FRESH, setup, steps, false);
    var ledger := Run(FRESH, setup, steps).ledger;
    var before, closing := ledger[..i], ledger[i];
    assert ledger[..i + 1] == before + [closing];
    ReplaySnoc(before, closing);
    assert SoundAt(ledger, i);
  }

  function TurnsRecorded(ledger: seq<Record>): nat {
    if ledger == [] then 0
    else TurnsRecorded(ledger[..|ledger| - 1]) + if ledger[|ledger| - 1].TurnCompleted? then 1 else 0
  }

  lemma {:induction false} ReplayCountsTurns(ledger: seq<Record>)
    ensures Replay(ledger).turnCount == TurnsRecorded(ledger)
  {
    if ledger == [] {
    } else {
      ReplayCountsTurns(ledger[..|ledger| - 1]);
    }
  }

  /** Conservation: after every run, crashes and resumes included, the cumulative usage is the sum of the
      usages of the recorded turns, and the turn count is their number. */
  lemma UsageIsConserved(setup: Setup, steps: seq<Step>)
    requires ValidSetup(setup) && Legal(FRESH, setup, steps)
    ensures var s := Run(FRESH, setup, steps);
            s.usage == TurnSum(s.ledger) && s.turnCount == TurnsRecorded(s.ledger)
  {
    FreshIsAtRest();
    RunKeeps(FRESH, setup, steps, false);
    var s := Run(FRESH, setup, steps);
    SoundNow(s.ledger);
    ReplayCountsTurns(s.ledger);
  }
}
