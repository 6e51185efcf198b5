/** What a turn writes down: every message, every call with its output, and how it ended
    (pycodex/core/agent.py). */
module TurnRecords {
  import opened Prelude
  import opened PromptHistory
  import opened Rollout
  import opened SessionState
  import Compaction
  import Text

  // ---------------------------------------------------------------------------------------
  // The calls of one reply.

  predicate Finishes(c: Call) { c.run.Finished? && !c.run.thenCancelled }

  /** The output a call gets. */
  function Output(c: Call): string {
    match c.run
    case Finished(result, _) => Capped(result)
    case AbortedInTool => "aborted by user"
    case CancelledInTool => "interrupted"
    case CancelledAtNotice => "interrupted"
  }

  /** A result is stored as it is, or cut to its first 200000 characters and marked. */
  lemma CappedIs(result: string)
    ensures |result| <= 200000 ==> Capped(result) == result
    ensures |result| > 200000 ==>
      |Capped(result)| > 200000 && Capped(result)[..200000] == result[..200000]
      && Capped(result)[200000..] == "\n...[truncated by session history cap]"
  {}

  /** Each call followed by its output, in order. */
  function Exchanges(calls: seq<Call>): seq<Item> {
    seq(2 * |calls|, n requires 0 <= n < 2 * |calls| =>
      var c := calls[n / 2];
      if n % 2 == 0 then FunctionCall(c.id, c.name, c.arguments) else ToolResult(c.id, Output(c)))
  }

  lemma ExchangesSplit(calls: seq<Call>, k: nat)
    requires k < |calls|
    ensures Exchanges(calls[..k + 1]) == Exchanges(calls[..k]) + Exchanges([calls[k]])
  {
    var c := calls[k];
    assert Exchanges([c]) == [FunctionCall(c.id, c.name, c.arguments), ToolResult(c.id, Output(c))];
    forall n | 0 <= n < 2 * (k + 1)
      ensures Exchanges(calls[..k + 1])[n] == (Exchanges(calls[..k]) + Exchanges([c]))[n]
    {
      if n >= 2 * k {
        assert n == 2 * k || n == 2 * k + 1;
      }
    }
  }

  lemma StoreConcat(s: Live, a: seq<Item>, b: seq<Item>)
    ensures StoreItems(StoreItems(s, a), b) == StoreItems(s, a + b)
  {
    ConcatAssociates(s.history, a, b);
    assert ItemRecords(a + b) == ItemRecords(a) + ItemRecords(b);
    ConcatAssociates(s.ledger, ItemRecords(a), ItemRecords(b));
  }

  lemma StoreNothing(s: Live)
    ensures StoreItems(s, []) == s
  {
    assert s.history + [] == s.history && s.ledger + ItemRecords([]) == s.ledger;
  }

  /** An abort counts the turn and records it without usage. */
  function Aborted(s: Live): Live {
    s.(turnCount := s.turnCount + 1, ledger := s.ledger + [TurnCompleted(Usage(0, 0), s.usage)])
  }

  lemma OneCallRuns(s: Live, c: Call)
    ensures var t := StoreItems(s, Exchanges([c]));
      RunCall(s, c) ==
        match c.run
        case Finished(_, thenCancelled) => (t, if thenCancelled then Some(Interrupted) else None)
        case AbortedInTool =>
          (Aborted(t), Some(AbortedByUser))
        case _ => (t, Some(Interrupted))
  {
    var call, output := FunctionCall(c.id, c.name, c.arguments), ToolResult(c.id, Output(c));
    assert Exchanges([c]) == [call, output];
    assert ItemRecords([call, output]) == [HistoryItem(call), HistoryItem(output)];
    assert Append(Append(s, call), output) == StoreItems(s, [call, output]);
  }

  /** Nothing stops a call before number `k`: exactly these calls are run, each recorded with its output. */
  lemma {:induction false} CallsRunInOrder(s: Live, calls: seq<Call>, k: nat)
    requires k <= |calls| && forall i :: 0 <= i < k ==> Finishes(calls[i])
    ensures RunCalls(s, calls) == RunCalls(StoreItems(s, Exchanges(calls[..k])), calls[k..])
  {
    if k == 0 {
      assert Exchanges(calls[..0]) == [] && calls[0..] == calls;
      StoreNothing(s);
    } else {
      var before := StoreItems(s, Exchanges(calls[..k - 1]));
      CallsRunInOrder(s, calls, k - 1);
      OneCallRuns(before, calls[k - 1]);
      ExchangesSplit(calls, k - 1);
      StoreConcat(s, Exchanges(calls[..k - 1]), Exchanges([calls[k - 1]]));
      assert calls[k - 1..][0] == calls[k - 1] && calls[k - 1..][1..] == calls[k..];
    }
  }

  /** If every call finishes, every call is run: the history and the ledger grow by exactly all calls with
      their outputs, and nothing else changes. */
  lemma EveryCallIsRun(s: Live, calls: seq<Call>)
    requires forall c :: c in calls ==> Finishes(c)
    ensures RunCalls(s, calls) == (StoreItems(s, Exchanges(calls)), None)
  {
    CallsRunInOrder(s, calls, |calls|);
    assert calls[..|calls|] == calls && calls[|calls|..] == [];
  }

  /** Otherwise the first call that stops the turn is the last one recorded; it still gets its output, and
      an abort also completes the turn. */
  lemma StoppingCallIsLast(s: Live, calls: seq<Call>, k: nat)
    requires k < |calls| && !Finishes(calls[k]) && forall i :: 0 <= i < k ==> Finishes(calls[i])
    ensures var t := StoreItems(s, Exchanges(calls[..k + 1]));
      RunCalls(s, calls) ==
        if calls[k].run.AbortedInTool? then (Aborted(t), Some(AbortedByUser))
        else (t, Some(Interrupted))
  {
    CallsRunInOrder(s, calls, k);
    OneCallRuns(StoreItems(s, Exchanges(calls[..k])), calls[k]);
    ExchangesSplit(calls, k);
    StoreConcat(s, Exchanges(calls[..k]), Exchanges([calls[k]]));
    assert calls[k..][0] == calls[k];
  }

  // ---------------------------------------------------------------------------------------
  // The passes of the loop, as they show in the ledger.

  /** Everything but compactions and injected skill messages, which depend on the state. */
  predicate Plain(r: Record) { !r.CompactionApplied? && !(r.HistoryItem? && r.item.User? && r.item.skill.Some?) }

  function PlainRecords(ledger: seq<Record>): seq<Record> {
    if ledger == [] then []
    else
      var last := ledger[|ledger| - 1];
      PlainRecords(ledger[..|ledger| - 1]) + if Plain(last) then [last] else []
  }

  lemma PlainSnoc(ledger: seq<Record>, r: Record)
    ensures PlainRecords(ledger + [r]) == PlainRecords(ledger) + if Plain(r) then [r] else []
  {
    assert (ledger + [r])[..|ledger|] == ledger;
  }

  lemma {:induction false} PlainConcat(ledger: seq<Record>, more: seq<Record>)
    requires forall r :: r in more ==> Plain(r)
    ensures PlainRecords(ledger + more) == PlainRecords(ledger) + more
    decreases |more|
  {
    if more == [] {
      assert ledger + more == ledger && PlainRecords(ledger) + more == PlainRecords(ledger);
    } else {
      var init, last := more[..|more| - 1], more[|more| - 1];
      assert more == init + [last];
      PlainConcat(ledger, init);
      PlainSnoc(ledger + init, last);
      ConcatAssociates(ledger, init, [last]);
      ConcatAssociates(PlainRecords(ledger), init, [last]);
    }
  }

  /** What a reply leaves in the ledger: its text, if any, and its calls with their outputs. */
  function Said(it: Iteration): seq<Record>
    requires it.sampled.Reply?
  {
    (if it.sampled.text == "" then [] else [HistoryItem(Assistant(it.sampled.text))])
    + ItemRecords(Exchanges(it.sampled.calls))
  }

  /** A pass behind which the loop goes on: all its calls finish, or it only names skills. A summary, if one
      is asked for, comes back. */
  predicate GoesOn(it: Iteration) {
    && it.summary.SummaryText? && it.sampled.Reply?
    && if it.sampled.calls == [] then it.signalled else forall c :: c in it.sampled.calls ==> Finishes(c)
  }

  predicate AllGoOn(its: seq<Iteration>) { forall i :: 0 <= i < |its| ==> GoesOn(its[i]) }

  function SaidAll(its: seq<Iteration>): seq<Record>
    requires AllGoOn(its)
  {
    if its == [] then [] else Said(its[0]) + SaidAll(its[1..])
  }

  /** The passes that use up the budget for skills. */
  function SkillPasses(its: seq<Iteration>): nat
    requires AllGoOn(its)
  {
    if its == [] then 0 else (if its[0].sampled.calls == [] then 1 else 0) + SkillPasses(its[1..])
  }

  /** Totals and flags are alike, and the ledger of `t` is that of `s` with `more` behind it, compactions and
      skill messages aside. */
  ghost predicate Extends(s: Live, t: Live, more: seq<Record>) {
    && PlainRecords(t.ledger) == PlainRecords(s.ledger) + more
    && t.usage == s.usage && t.turnCount == s.turnCount
    && t.closed == s.closed && t.contextInjected == s.contextInjected && t.metaWritten == s.metaWritten
  }

  lemma ExtendsTransitive(s: Live, t: Live, u: Live, a: seq<Record>, b: seq<Record>)
    requires Extends(s, t, a) && Extends(t, u, b)
    ensures Extends(s, u, a + b)
  {
    ConcatAssociates(PlainRecords(s.ledger), a, b);
  }

  lemma CompactStepIsQuiet(s: Live, strategy: Option<Compaction.Strategy>, it: Iteration)
    requires it.summary.SummaryText?
    ensures CompactStep(s, strategy, it).1 == None && Extends(s, CompactStep(s, strategy, it).0, [])
  {
    var t := CompactStep(s, strategy, it).0;
    assert PlainRecords(s.ledger) + [] == PlainRecords(s.ledger);
    if t.ledger != s.ledger {
      PlainSnoc(s.ledger, t.ledger[|s.ledger|]);
      assert t.ledger == s.ledger + [t.ledger[|s.ledger|]];
    }
  }

  lemma {:induction false} InjectingIsQuiet(s: Live, messages: seq<SkillMessage>, existing: set<SkillTag>)
    ensures Extends(s, InjectSkills(s, messages, existing), [])
    decreases |messages|
  {
    assert PlainRecords(s.ledger) + [] == PlainRecords(s.ledger);
    if messages == [] {
    } else if messages[0].tag in existing {
      InjectingIsQuiet(s, messages[1..], existing);
    } else {
      var r := HistoryItem(User(messages[0].text, Some(messages[0].tag)));
      var next := Append(s, r.item);
      PlainSnoc(s.ledger, r);
      InjectingIsQuiet(next, messages[1..], existing + {messages[0].tag});
    }
  }

  lemma TextIsSaid(s: Live, text: string)
    ensures Extends(s, AppendText(s, text), if text == "" then [] else [HistoryItem(Assistant(text))])
  {
    assert PlainRecords(s.ledger) + [] == PlainRecords(s.ledger);
    PlainSnoc(s.ledger, HistoryItem(Assistant(text)));
  }

  lemma StoredIsSaid(s: Live, calls: seq<Call>)
    ensures Extends(s, StoreItems(s, Exchanges(calls)), ItemRecords(Exchanges(calls)))
  {
    PlainConcat(s.ledger, ItemRecords(Exchanges(calls)));
  }

  /** What a pass leaves behind which the loop goes on. */
  ghost function AfterPass(s: Live, strategy: Option<Compaction.Strategy>, it: Iteration): Live
    requires GoesOn(it)
  {
    var texted := AppendText(CompactStep(s, strategy, it).0, it.sampled.text);
    if it.sampled.calls == [] then InjectPlan(texted, it.skills) else StoreItems(texted, Exchanges(it.sampled.calls))
  }

  lemma PassExtends(s: Live, strategy: Option<Compaction.Strategy>, it: Iteration)
    requires GoesOn(it)
    ensures Extends(s, AfterPass(s, strategy, it), Said(it))
  {
    var compacted := CompactStep(s, strategy, it).0;
    var texted := AppendText(compacted, it.sampled.text);
    var text := if it.sampled.text == "" then [] else [HistoryItem(Assistant(it.sampled.text))];
    CompactStepIsQuiet(s, strategy, it);
    TextIsSaid(compacted, it.sampled.text);
    ExtendsTransitive(s, compacted, texted, [], text);
    assert [] + text == text;
    var t := AfterPass(s, strategy, it);
    if it.sampled.calls == [] {
      InjectingIsQuiet(texted, it.skills, ExistingSkills(Normalized(texted.history)));
      ExtendsTransitive(s, texted, t, text, []);
      assert Exchanges([]) == [] && ItemRecords([]) == [];
    } else {
      StoredIsSaid(texted, it.sampled.calls);
      ExtendsTransitive(s, texted, t, text, ItemRecords(Exchanges(it.sampled.calls)));
    }
  }

  lemma PassGoesOn(s: Live, strategy: Option<Compaction.Strategy>, its: seq<Iteration>, budget: nat)
    requires its != [] && GoesOn(its[0]) && (its[0].sampled.calls == [] ==> budget > 0)
    ensures Loop(s, strategy, its, budget) ==
      Loop(AfterPass(s, strategy, its[0]), strategy, its[1..],
           if its[0].sampled.calls == [] then budget - 1 else budget)
  {
    var it := its[0];
    CompactStepIsQuiet(s, strategy, it);
    if it.sampled.calls != [] {
      EveryCallIsRun(AppendText(CompactStep(s, strategy, it).0, it.sampled.text), it.sampled.calls);
    }
  }

  /** Any number of such passes. */
  ghost function AfterPasses(s: Live, strategy: Option<Compaction.Strategy>, its: seq<Iteration>): Live
    requires AllGoOn(its)
    decreases |its|
  {
    if its == [] then s else AfterPasses(AfterPass(s, strategy, its[0]), strategy, its[1..])
  }

  lemma {:induction false} PassesExtend(s: Live, strategy: Option<Compaction.Strategy>, its: seq<Iteration>)
    requires AllGoOn(its)
    ensures Extends(s, AfterPasses(s, strategy, its), SaidAll(its))
    decreases |its|
  {
    if its == [] {
      assert PlainRecords(s.ledger) + [] == PlainRecords(s.ledger);
    } else {
      var next := AfterPass(s, strategy, its[0]);
      PassExtends(s, strategy, its[0]);
      PassesExtend(next, strategy, its[1..]);
      ExtendsTransitive(s, next, AfterPasses(s, strategy, its), Said(its[0]), SaidAll(its[1..]));
    }
  }

  type Ending = (Live, seq<Iteration>, nat) -> (Live, Exit)

  /** Such a pass can be skipped when asking how the loop ends. */
  ghost predicate Skips(end: Ending, strategy: Option<Compaction.Strategy>) {
    forall s: Live, its: seq<Iteration>, budget: nat {:trigger end(s, its, budget), AfterPass(s, strategy, its[0])} ::
      its != [] && GoesOn(its[0]) && (its[0].sampled.calls == [] ==> budget > 0) ==>
        end(s, its, budget) ==
        end(AfterPass(s, strategy, its[0]), its[1..], if its[0].sampled.calls == [] then budget - 1 else budget)
  }

  lemma {:induction false} PassesAreSkipped(
      end: Ending, s: Live, strategy: Option<Compaction.Strategy>, its: seq<Iteration>, rest: seq<Iteration>,
      budget: nat)
    requires Skips(end, strategy) && AllGoOn(its) && SkillPasses(its) <= budget
    ensures end(s, its + rest, budget) == end(AfterPasses(s, strategy, its), rest, budget - SkillPasses(its))
    decreases |its|
  {
    if its == [] {
      assert its + rest == rest;
    } else {
      var left := if its[0].sampled.calls == [] then budget - 1 else budget;
      assert (its + rest)[0] == its[0] && (its + rest)[1..] == its[1..] + rest;
      PassesAreSkipped(end, AfterPass(s, strategy, its[0]), strategy, its[1..], rest, left);
    }
  }

  lemma PassesGoOn(s: Live, strategy: Option<Compaction.Strategy>, its: seq<Iteration>, rest: seq<Iteration>,
                   budget: nat)
    requires AllGoOn(its) && SkillPasses(its) <= budget
    ensures Loop(s, strategy, its + rest, budget) ==
      Loop(AfterPasses(s, strategy, its), strategy, rest, budget - SkillPasses(its))
  {
    var end: Ending := (t: Live, all: seq<Iteration>, left: nat) => Loop(t, strategy, all, left);
    forall t: Live, all: seq<Iteration>, left: nat
      | all != [] && GoesOn(all[0]) && (all[0].sampled.calls == [] ==> left > 0)
      ensures end(t, all, left) ==
        end(AfterPass(t, strategy, all[0]), all[1..], if all[0].sampled.calls == [] then left - 1 else left)
    {
      PassGoesOn(t, strategy, all, left);
    }
    PassesAreSkipped(end, s, strategy, its, rest, budget);
  }

  // ---------------------------------------------------------------------------------------
  // The last pass, and the whole turn.

  function TextRecord(text: string): seq<Record> { if text == "" then [] else [HistoryItem(Assistant(text))] }

  /** Call `k` is the first of the reply to stop the turn. */
  predicate StopsAt(calls: seq<Call>, k: nat) {
    k < |calls| && !Finishes(calls[k]) && forall i :: 0 <= i < k ==> Finishes(calls[i])
  }

  /** The loop ends with the first of these passes, or for want of one. `k` is the stopping call, if the
      reply has calls. */
  predicate EndsThere(rest: seq<Iteration>, budget: nat, k: nat) {
    rest != [] ==>
      && rest[0].summary.SummaryText?
      && (rest[0].sampled.Reply? ==>
            if rest[0].sampled.calls == [] then !(rest[0].signalled && budget > 0)
            else StopsAt(rest[0].sampled.calls, k))
  }

  /** Usage is counted if it is there and not negative. */
  function Counted(usage: Option<Usage>): Usage {
    match usage
    case Some(u) => if u.input < 0 || u.output < 0 then Usage(0, 0) else u
    case None => Usage(0, 0)
  }

  /** What the last pass records and how the turn ends, when `usage` was used before. */
  function LastRecords(usage: Usage, rest: seq<Iteration>, budget: nat, k: nat): (seq<Record>, Exit)
    requires EndsThere(rest, budget, k)
  {
    if rest == [] then ([], Interrupted)
    else
      match rest[0].sampled
      case StreamCancelled => ([], Interrupted)
      case StreamFailed => ([], Failed)
      case Reply(calls, text, used) =>
        if calls == [] then
          var u := Counted(used);
          (TextRecord(text) + [TurnCompleted(u, Total(usage, u))], Completed(text))
        else
          var said := TextRecord(text) + ItemRecords(Exchanges(calls[..k + 1]));
          if calls[k].run.AbortedInTool? then (said + [TurnCompleted(Usage(0, 0), usage)], AbortedByUser)
          else (said, Interrupted)
  }

  /** A turn counts, and its usage is added, exactly when its last record says that it was completed. */
  ghost predicate Ends(s: Live, t: Live, records: seq<Record>) {
    && PlainRecords(t.ledger) == PlainRecords(s.ledger) + records
    && if records != [] && records[|records| - 1].TurnCompleted?
       then t.turnCount == s.turnCount + 1 && t.usage == records[|records| - 1].cumulative
       else t.turnCount == s.turnCount && t.usage == s.usage
  }

  function Total(before: Usage, used: Usage): Usage { Usage(before.input + used.input, before.output + used.output) }

  lemma CompletionIs(t: Live, usage: Option<Usage>)
    ensures var done, total := CompleteTurn(t, usage), Total(t.usage, Counted(usage));
      && done.ledger == t.ledger + [TurnCompleted(Counted(usage), total)]
      && done.turnCount == t.turnCount + 1 && done.usage == total
      && (CountsUsage(usage) ==> done.lastTurnInput == usage.value.input)
      && (!CountsUsage(usage) ==> done.lastTurnInput == t.lastTurnInput && done.usage == t.usage)
  {}

  predicate CountsUsage(usage: Option<Usage>) { usage.Some? && usage.value.input >= 0 && usage.value.output >= 0 }

  lemma EndsWithCompletion(s: Live, t: Live, usage: Option<Usage>, said: seq<Record>)
    requires Extends(s, t, said)
    ensures Ends(s, CompleteTurn(t, usage), said + [TurnCompleted(Counted(usage), Total(s.usage, Counted(usage)))])
  {
    var r := TurnCompleted(Counted(usage), Total(s.usage, Counted(usage)));
    CompletionIs(t, usage);
    PlainSnoc(t.ledger, r);
    ConcatAssociates(PlainRecords(s.ledger), said, [r]);
    assert (said + [r])[|said + [r]| - 1] == r;
  }

  lemma LastPass(s: Live, strategy: Option<Compaction.Strategy>, rest: seq<Iteration>, budget: nat, k: nat)
    requires EndsThere(rest, budget, k)
    ensures var (records, exit) := LastRecords(s.usage, rest, budget, k);
      Loop(s, strategy, rest, budget).1 == exit && Ends(s, Loop(s, strategy, rest, budget).0, records)
  {
    assert PlainRecords(s.ledger) + [] == PlainRecords(s.ledger);
    if rest != [] {
      var it := rest[0];
      var compacted := CompactStep(s, strategy, it).0;
      CompactStepIsQuiet(s, strategy, it);
      if it.sampled.Reply? {
        LastReply(s, strategy, rest, budget, k, compacted);
      }
    }
  }

  lemma LastReply(
      s: Live, strategy: Option<Compaction.Strategy>, rest: seq<Iteration>, budget: nat, k: nat, compacted: Live)
    requires rest != [] && rest[0].sampled.Reply? && EndsThere(rest, budget, k)
    requires CompactStep(s, strategy, rest[0]) == (compacted, None) && Extends(s, compacted, [])
    ensures var (records, exit) := LastRecords(s.usage, rest, budget, k);
      Loop(s, strategy, rest, budget).1 == exit && Ends(s, Loop(s, strategy, rest, budget).0, records)
  {
    var it := rest[0];
    LoopEndsHere(s, strategy, rest, budget, k, compacted);
    TextIsExtended(s, compacted, it.sampled.text);
    var texted, text := AppendText(compacted, it.sampled.text), TextRecord(it.sampled.text);
    var records := LastRecords(s.usage, rest, budget, k).0;
    if it.sampled.calls == [] {
      Answers(s, texted, it.sampled.usage, text, records);
    } else {
      Stops(s, texted, it.sampled.calls, k, text, records);
    }
  }

  lemma TextIsExtended(s: Live, compacted: Live, text: string)
    requires Extends(s, compacted, [])
    ensures Extends(s, AppendText(compacted, text), TextRecord(text))
  {
    TextIsSaid(compacted, text);
    ExtendsTransitive(s, compacted, AppendText(compacted, text), [], TextRecord(text));
    assert [] + TextRecord(text) == TextRecord(text);
  }

  lemma Answers(s: Live, texted: Live, usage: Option<Usage>, text: seq<Record>, records: seq<Record>)
    requires Extends(s, texted, text)
    requires var u := Counted(usage);
      records == text + [TurnCompleted(u, Total(s.usage, u))]
    ensures Ends(s, CompleteTurn(texted, usage), records)
  {
    EndsWithCompletion(s, texted, usage, text);
  }

  lemma Stops(s: Live, texted: Live, calls: seq<Call>, k: nat, text: seq<Record>, records: seq<Record>)
    requires StopsAt(calls, k) && Extends(s, texted, text) && forall r :: r in text ==> !r.TurnCompleted?
    requires var said := text + ItemRecords(Exchanges(calls[..k + 1]));
      records == if calls[k].run.AbortedInTool? then said + [TurnCompleted(Usage(0, 0), s.usage)] else said
    ensures Ends(s, RunCalls(texted, calls).0, records)
    ensures RunCalls(texted, calls).1 == Some(if calls[k].run.AbortedInTool? then AbortedByUser else Interrupted)
  {
    StoppedReply(s, texted, calls, k, text);
  }

  /** The loop does not go on behind such a reply. */
  lemma LoopEndsHere(
      s: Live, strategy: Option<Compaction.Strategy>, rest: seq<Iteration>, budget: nat, k: nat, compacted: Live)
    requires rest != [] && rest[0].sampled.Reply? && EndsThere(rest, budget, k)
    requires CompactStep(s, strategy, rest[0]) == (compacted, None)
    ensures var it, texted := rest[0], AppendText(compacted, rest[0].sampled.text);
      Loop(s, strategy, rest, budget) ==
        if it.sampled.calls == [] then (CompleteTurn(texted, it.sampled.usage), Completed(it.sampled.text))
        else
          var (t, exit) := RunCalls(texted, it.sampled.calls);
          (t, if exit.Some? then exit.value else Failed)
  {
    var it, texted := rest[0], AppendText(compacted, rest[0].sampled.text);
    if it.sampled.calls != [] {
      StoppingCallIsLast(texted, it.sampled.calls, k);
    }
  }

  /** The calls of a reply that stops the turn. */
  lemma StoppedReply(s: Live, texted: Live, calls: seq<Call>, k: nat, text: seq<Record>)
    requires StopsAt(calls, k) && Extends(s, texted, text)
    requires forall r :: r in text ==> !r.TurnCompleted?
    ensures var said := text + ItemRecords(Exchanges(calls[..k + 1]));
      var (t, exit) := RunCalls(texted, calls);
      if calls[k].run.AbortedInTool?
      then exit == Some(AbortedByUser) && Ends(s, t, said + [TurnCompleted(Usage(0, 0), s.usage)])
      else exit == Some(Interrupted) && Ends(s, t, said)
  {
    var ran, said := StoreItems(texted, Exchanges(calls[..k + 1])), ItemRecords(Exchanges(calls[..k + 1]));
    StoppingCallIsLast(texted, calls, k);
    StoredIsSaid(texted, calls[..k + 1]);
    ExtendsTransitive(s, texted, ran, text, said);
    if calls[k].run.AbortedInTool? {
      EndsWithCompletion(s, ran, None, text + said);
      assert Aborted(ran) == CompleteTurn(ran, None);
    } else {
      assert forall r :: r in text + said ==> !r.TurnCompleted?;
    }
  }

  /** What opens a turn: the metadata once per recorder, the initial context once per session, the question. */
  function Opening(s: Live, setup: Setup, text: string): seq<Record> {
    OpeningRecords(s, setup) + [HistoryItem(User(text, None))]
  }

  function OpeningRecords(s: Live, setup: Setup): seq<Record> {
    match setup.config
    case None => []
    case Some(context) =>
      (if s.metaWritten then [] else [SessionMeta]) + (if s.contextInjected then [] else ItemRecords(context))
  }

  lemma TurnOpens(s: Live, setup: Setup, input: TurnInput)
    requires ValidSetup(setup)
    ensures var t := Started(s, setup, input);
      && PlainRecords(t.ledger) == PlainRecords(s.ledger) + Opening(s, setup, input.text)
      && t.usage == s.usage && t.turnCount == s.turnCount
      && (setup.config.Some? ==> t.contextInjected && t.metaWritten)
  {
    var begun, question := OpenTurn(s, setup.config), HistoryItem(User(input.text, None));
    var asked, before := Append(begun, question.item), OpeningRecords(s, setup);
    BegunLedger(s, setup);
    PlainConcat(s.ledger, before);
    PlainSnoc(begun.ledger, question);
    ConcatAssociates(PlainRecords(s.ledger), before, [question]);
    InjectingIsQuiet(asked, input.skills, ExistingSkills(Normalized(asked.history)));
    assert PlainRecords(asked.ledger) + [] == PlainRecords(asked.ledger);
  }

  /** In the history the initial context stands before everything else, and the question behind it, with
      nothing but skill messages after it. */
  lemma TurnOpensHistory(s: Live, setup: Setup, input: TurnInput)
    ensures var context := if setup.config.Some? && !s.contextInjected then setup.config.value else [];
      var front, h := context + s.history + [User(input.text, None)], Started(s, setup, input).history;
      front <= h && forall i :: |front| <= i < |h| ==> h[i].User? && h[i].skill.Some?
  {
    var asked := Append(OpenTurn(s, setup.config), User(input.text, None));
    var existing := ExistingSkills(Normalized(asked.history));
    assert [] + s.history == s.history;
    FreshSkillsAreInjected(asked, input.skills, existing);
    FreshItemsAreSkills(input.skills, existing, |input.skills|);
  }

  lemma BegunLedger(s: Live, setup: Setup)
    requires ValidSetup(setup)
    ensures OpenTurn(s, setup.config).ledger == s.ledger + OpeningRecords(s, setup)
    ensures forall r :: r in OpeningRecords(s, setup) ==> Plain(r)
  {
    if setup.config.None? {
      assert s.ledger + [] == s.ledger;
    } else {
      var meta := if s.metaWritten then [] else [SessionMeta];
      var context := if s.contextInjected then [] else setup.config.value;
      assert ItemRecords([]) == [];
      ConcatAssociates(s.ledger, meta, ItemRecords(context));
      assert s.ledger + [] == s.ledger;
    }
  }

  /** The whole turn, for any number of passes that go on before the last one, and any compactions and
      skill messages between: the ledger gains the opening, everything every reply said and every call with
      its output, and the end of the turn; and the turn ends as the last pass says. */
  lemma TurnRecordsEverything(
      s: Live, setup: Setup, input: TurnInput, its: seq<Iteration>, rest: seq<Iteration>, k: nat)
      returns (final: Live, exit: Exit, records: seq<Record>)
    requires ValidSetup(setup) && !input.cancelledAtStart && input.iterations == its + rest && AllGoOn(its)
    requires SkillPasses(its) <= Max(setup.signalBudget, 0)
    requires EndsThere(rest, Max(setup.signalBudget, 0) - SkillPasses(its), k)
    ensures (records, exit) == LastRecords(s.usage, rest, Max(setup.signalBudget, 0) - SkillPasses(its), k)
    ensures Ends(s, final, Opening(s, setup, input.text) + SaidAll(its) + records)
    ensures Turn(s, setup, input) ==
      (final, if input.cancelledAtEnd && (exit.Completed? || exit.AbortedByUser?) then Interrupted else exit)
  {
    assert Started(s, setup, input).usage == s.usage by {
      TurnOpens(s, setup, input);
    }
    final, records, exit :=
      LoopRecordsEverything(Started(s, setup, input), setup.strategy, its, rest, Max(setup.signalBudget, 0), k);
    TurnEndsAsLoop(s, setup, input, SaidAll(its), records, final, exit);
  }

  lemma TurnEndsAsLoop(
      s: Live, setup: Setup, input: TurnInput, said: seq<Record>, records: seq<Record>, final: Live, exit: Exit)
    requires ValidSetup(setup) && !input.cancelledAtStart
    requires Ends(Started(s, setup, input), final, said + records)
    requires (final, exit) ==
      Loop(Started(s, setup, input), setup.strategy, input.iterations, Max(setup.signalBudget, 0))
    ensures Ends(s, final, Opening(s, setup, input.text) + said + records)
    ensures Turn(s, setup, input) ==
      (final, if input.cancelledAtEnd && (exit.Completed? || exit.AbortedByUser?) then Interrupted else exit)
  {
    TurnOpens(s, setup, input);
    EndsLater(s, Started(s, setup, input), final, Opening(s, setup, input.text), said + records);
    ConcatAssociates(Opening(s, setup, input.text), said, records);
  }

  lemma LoopRecordsEverything(
      s: Live, strategy: Option<Compaction.Strategy>, its: seq<Iteration>, rest: seq<Iteration>, budget: nat, k: nat)
      returns (final: Live, records: seq<Record>, exit: Exit)
    requires AllGoOn(its) && SkillPasses(its) <= budget && EndsThere(rest, budget - SkillPasses(its), k)
    ensures (final, exit) == Loop(s, strategy, its + rest, budget)
    ensures (records, exit) == LastRecords(s.usage, rest, budget - SkillPasses(its), k)
    ensures Ends(s, final, SaidAll(its) + records)
  {
    var left := budget - SkillPasses(its);
    var last := AfterPasses(s, strategy, its);
    PassesGoOn(s, strategy, its, rest, budget);
    PassesExtend(s, strategy, its);
    LastPass(last, strategy, rest, left, k);
    SaidIsNoEnd(its);
    final, records := Loop(last, strategy, rest, left).0, LastRecords(s.usage, rest, left, k).0;
    exit := Loop(last, strategy, rest, left).1;
    EndsLater(s, last, final, SaidAll(its), records);
  }

  /** An ending counts for the whole turn. */
  lemma EndsLater(s: Live, last: Live, t: Live, before: seq<Record>, records: seq<Record>)
    requires PlainRecords(last.ledger) == PlainRecords(s.ledger) + before && Ends(last, t, records)
    requires last.usage == s.usage && last.turnCount == s.turnCount && forall r :: r in before ==> !r.TurnCompleted?
    ensures Ends(s, t, before + records)
  {
    ConcatAssociates(PlainRecords(s.ledger), before, records);
    if records == [] {
      assert before + records == before;
    } else {
      assert (before + records)[|before + records| - 1] == records[|records| - 1];
    }
  }

  /** Replies themselves complete no turn. */
  lemma {:induction false} SaidIsNoEnd(its: seq<Iteration>)
    requires AllGoOn(its)
    ensures forall r :: r in SaidAll(its) ==> !r.TurnCompleted?
  {
    if its == [] {
    } else {
      SaidIsNoEnd(its[1..]);
    }
  }

  /** A turn cancelled before the first pass leaves only its opening. */
  lemma CancelledTurnRecordsOpening(s: Live, setup: Setup, input: TurnInput)
    requires ValidSetup(setup) && input.cancelledAtStart
    ensures var (t, ended) := Turn(s, setup, input);
      && ended == Interrupted && t.usage == s.usage && t.turnCount == s.turnCount
      && PlainRecords(t.ledger) == PlainRecords(s.ledger) + Opening(s, setup, input.text)
  {
    TurnOpens(s, setup, input);
  }

  /** A summary that does not come back ends the turn at that pass, with nothing recorded. */
  lemma LostSummaryEndsTurn(s: Live, strategy: Option<Compaction.Strategy>, its: seq<Iteration>, budget: nat)
    requires its != [] && !its[0].summary.SummaryText?
    requires strategy.Some? && Compaction.Target(strategy.value, Normalized(s.history), its[0].tokens).Some?
    ensures Loop(s, strategy, its, budget) == (s, if its[0].summary.SummaryCancelled? then Interrupted else Failed)
  {}

  /** What a compaction writes down: the rendered summary, where it stands, and how many items made room
      for it, the summary blocks before and the recent items behind left alone. */
  lemma CompactionRecordIs(s: Live, strategy: Compaction.Strategy, it: Iteration, k: nat)
    requires Answered(s.history) && Compaction.SummaryPrefix(s.history, k) && strategy.keepRecent >= 0
    requires it.summary.SummaryText? && Compaction.Target(strategy, Normalized(s.history), it.tokens).Some?
    ensures var t, text := CompactStep(s, Some(strategy), it).0, Compaction.RenderSummary(it.summary.text);
      var end := |s.history| - strategy.keepRecent;
      && 0 <= k < end
      && t.history == s.history[..k] + [System(text)] + s.history[end..]
      && t.ledger == s.ledger + [CompactionApplied(text, k, end, |s.history| - |t.history| + 1)]
      && t.compactions == s.compactions + 1
  {
    PromptIsHistoryIffAnswered(s.history);
    Compaction.TargetShape(strategy, s.history, k, it.tokens);
  }

  /** A rendered summary is the marker line and the summary without the space around it, or a note. */
  lemma RenderedSummaryIs(summary: string) returns (before: string, body: string, after: string)
    ensures summary == before + body + after && Text.Trimmed(body)
    ensures forall c :: c in before || c in after ==> Text.IsSpace(c)
    ensures Compaction.RenderSummary(summary)
      == "[compaction.summary.v1]\n" + if body == "" then "No summary content." else body
  {
    body := Text.Strip(summary);
    before, after := Text.StripIs(summary);
    Text.StripTrims(summary);
  }

  /** A resumed session has its initial context already: its turns only describe the new recorder. */
  lemma ResumedTurnRepeatsNoContext(ledger: seq<Record>, setup: Setup)
    ensures OpeningRecords(Restore(ledger), setup) == if setup.config.None? then [] else [SessionMeta]
  {}

  // ---------------------------------------------------------------------------------------
  // Injected skills.

  /** Message `i` is the first of the plan for its skill, which is not there yet. */
  ghost predicate IsFresh(messages: seq<SkillMessage>, existing: set<SkillTag>, i: nat)
    requires i < |messages|
  {
    messages[i].tag !in existing && forall j :: 0 <= j < i ==> messages[j].tag != messages[i].tag
  }

  /** The fresh ones of the first `n` messages, in order. */
  ghost function FreshItems(messages: seq<SkillMessage>, existing: set<SkillTag>, n: nat): seq<Item>
    requires n <= |messages|
  {
    if n == 0 then []
    else
      FreshItems(messages, existing, n - 1)
      + if IsFresh(messages, existing, n - 1) then [User(messages[n - 1].text, Some(messages[n - 1].tag))] else []
  }

  lemma {:induction false} FreshItemsAreSkills(messages: seq<SkillMessage>, existing: set<SkillTag>, n: nat)
    requires n <= |messages|
    ensures forall item :: item in FreshItems(messages, existing, n) ==> item.User? && item.skill.Some?
  {
    if n > 0 {
      FreshItemsAreSkills(messages, existing, n - 1);
    }
  }

  function Tags(messages: seq<SkillMessage>): set<SkillTag> { set m | m in messages :: m.tag }

  lemma {:induction false} InjectedUpTo(s: Live, messages: seq<SkillMessage>, existing: set<SkillTag>, n: nat)
    returns (t: Live)
    requires n <= |messages|
    ensures InjectSkills(s, messages, existing) == InjectSkills(t, messages[n..], existing + Tags(messages[..n]))
    ensures var items := FreshItems(messages, existing, n);
      t.history == s.history + items && t.ledger == s.ledger + ItemRecords(items)
  {
    if n == 0 {
      t := s;
      assert messages[0..] == messages && existing + Tags(messages[..0]) == existing;
      assert s.history + [] == s.history && s.ledger + ItemRecords([]) == s.ledger;
    } else {
      var before := InjectedUpTo(s, messages, existing, n - 1);
      var m, items := messages[n - 1], FreshItems(messages, existing, n - 1);
      assert messages[n - 1..][0] == m && messages[n - 1..][1..] == messages[n..];
      TagsSnoc(messages, existing, n);
      if IsFresh(messages, existing, n - 1) {
        var item := User(m.text, Some(m.tag));
        t := Append(before, item);
        ConcatAssociates(s.history, items, [item]);
        assert ItemRecords(items + [item]) == ItemRecords(items) + [HistoryItem(item)];
        ConcatAssociates(s.ledger, ItemRecords(items), [HistoryItem(item)]);
      } else {
        t := before;
        assert items + [] == items;
        assert existing + Tags(messages[..n]) == existing + Tags(messages[..n - 1]);
      }
    }
  }

  lemma TagsSnoc(messages: seq<SkillMessage>, existing: set<SkillTag>, n: nat)
    requires 0 < n <= |messages|
    ensures existing + Tags(messages[..n]) == existing + Tags(messages[..n - 1]) + {messages[n - 1].tag}
    ensures IsFresh(messages, existing, n - 1) <==> messages[n - 1].tag !in existing + Tags(messages[..n - 1])
  {
    var before, m := messages[..n - 1], messages[n - 1];
    assert messages[..n] == before + [m];
    forall j | 0 <= j < n - 1
      ensures messages[j].tag in Tags(before)
    {
      assert before[j] in before;
    }
    if m.tag in Tags(before) {
      var other :| other in before && other.tag == m.tag;
      var j :| 0 <= j < n - 1 && before[j] == other;
      assert messages[j].tag == m.tag;
    }
  }

  /** Injection appends exactly the fresh messages of the plan, in order. */
  lemma FreshSkillsAreInjected(s: Live, messages: seq<SkillMessage>, existing: set<SkillTag>)
    ensures var t, items := InjectSkills(s, messages, existing), FreshItems(messages, existing, |messages|);
      t.history == s.history + items && t.ledger == s.ledger + ItemRecords(items)
  {
    var t := InjectedUpTo(s, messages, existing, |messages|);
    assert messages[|messages|..] == [];
  }

  /** A skill counts as there already exactly if its message stands before the last item of the prompt with
      only skill messages between. */
  lemma ExistingSkillsAre(prompt: seq<Item>, tag: SkillTag)
    requires |prompt| >= 2
    ensures var before := prompt[..|prompt| - 1];
      tag in ExistingSkills(prompt) <==>
        exists i :: 0 <= i < |before| && InjectedFrom(before, i) && before[i].skill == Some(tag)
  {
    TrailingSkillsAre(prompt[..|prompt| - 1], tag);
  }

  predicate InjectedFrom(items: seq<Item>, i: nat)
    requires i < |items|
  {
    forall j :: i <= j < |items| ==> items[j].User? && items[j].skill.Some?
  }

  lemma InjectedSnoc(init: seq<Item>, last: Item, i: nat)
    requires i <= |init|
    ensures InjectedFrom(init + [last], i) <==>
      last.User? && last.skill.Some? && (i < |init| ==> InjectedFrom(init, i))
  {
    var items := init + [last];
    assert items[|init|] == last;
    assert forall j :: i <= j < |init| ==> items[j] == init[j];
  }

  lemma {:induction false} TrailingSkillsAre(items: seq<Item>, tag: SkillTag)
    ensures tag in TrailingSkills(items) <==>
      exists i :: 0 <= i < |items| && InjectedFrom(items, i) && items[i].skill == Some(tag)
  {
    if items == [] {
    } else {
      var init, last := items[..|items| - 1], items[|items| - 1];
      TrailingSkillsAre(init, tag);
      assert items == init + [last];
      forall i | 0 <= i < |items|
        ensures InjectedFrom(items, i) <==>
          last.User? && last.skill.Some? && (i < |init| ==> InjectedFrom(init, i))
      {
        InjectedSnoc(init, last, i);
      }
      assert items[|init|] == last;
    }
  }
}
