/** History compaction: when to compact, which range, and what the replacement leaves behind
    (pycodex/core/compaction.py). */
module Compaction {
  import opened Prelude
  import opened PromptHistory
  import Rollout
  import Text

  const SUMMARY_BLOCK_MARKER := "[compaction.summary.v1]"

  /** `ThresholdV1Strategy` with the orchestrator's window. Any integers are accepted as options. */
  datatype Strategy = Strategy(threshold: real, keepRecent: int, minReplace: int, window: int)

  datatype Plan = Plan(start: nat, end: nat)

  predicate IsSummary(item: Item) {
    item.System? && Text.StartsWith(Text.LStrip(item.text), SUMMARY_BLOCK_MARKER)
  }

  function RenderSummary(summary: string): string {
    var body := Text.Strip(summary);
    SUMMARY_BLOCK_MARKER + "\n" + if body == "" then "No summary content." else body
  }

  lemma RenderedIsSummary(summary: string)
    ensures IsSummary(System(RenderSummary(summary)))
  {
    assert RenderSummary(summary)[0] == '[';
  }

  /** One past the last summary block among the first `n` items; 0 if there is none. */
  function SummaryEnd(h: seq<Item>, n: nat): nat
    requires n <= |h|
  {
    if n == 0 then 0 else if IsSummary(h[n - 1]) then n else SummaryEnd(h, n - 1)
  }

  /** Too little of the window remains for an estimate of `tokens`. */
  predicate OverThreshold(st: Strategy, tokens: int)
    requires st.window > 0
  {
    Max(st.window - Max(tokens, 0), 0) as real / st.window as real < st.threshold
  }

  function PlanFor(st: Strategy, prompt: seq<Item>, tokens: int): Option<Plan> {
    if st.window <= 0 || |prompt| <= st.keepRecent || !OverThreshold(st, tokens) then None
    else
      var end := |prompt| - st.keepRecent;
      var start := SummaryEnd(prompt, Min(end, |prompt|));
      if end - start < st.minReplace then None else Some(Plan(start, end))
  }

  function SourceItems(items: seq<Item>): seq<Item> {
    if items == [] then []
    else (if IsSummary(items[0]) then [] else [items[0]]) + SourceItems(items[1..])
  }

  lemma {:induction false} SummaryEndBounded(h: seq<Item>, n: nat)
    requires n <= |h|
    ensures SummaryEnd(h, n) <= n
    ensures forall i :: SummaryEnd(h, n) <= i < n ==> !IsSummary(h[i])
  {
    if n > 0 && !IsSummary(h[n - 1]) {
      SummaryEndBounded(h, n - 1);
    }
  }

  /** The items a plan hands to the summariser (Python slices stop at the end of the list). */
  function Summarised(prompt: seq<Item>, plan: Plan): seq<Item> {
    var end := Min(plan.end, |prompt|);
    if plan.start <= end then SourceItems(prompt[plan.start..end]) else []
  }

  /** The compaction that will be attempted for a prompt, if any. */
  function Target(st: Strategy, prompt: seq<Item>, tokens: int): Option<Plan> {
    match PlanFor(st, prompt, tokens)
    case None => None
    case Some(plan) => if Summarised(prompt, plan) == [] then None else Some(plan)
  }

  /** The raw history after the summary of `plan` came back; `None` when nothing was replaced. */
  function Compacted(h: seq<Item>, plan: Plan, summary: string): Option<seq<Item>> {
    Rollout.ReplaceRange(h, plan.start, plan.end, RenderSummary(summary))
  }

  // ---------------------------------------------------------------------------------------
  // Laws.

  /** The first `k` items are summary blocks and no other item is. */
  ghost predicate SummaryPrefix(h: seq<Item>, k: nat) {
    k <= |h| && forall i :: 0 <= i < |h| ==> (IsSummary(h[i]) <==> i < k)
  }

  lemma {:induction false} NoSummariesInSource(items: seq<Item>)
    requires forall i :: 0 <= i < |items| ==> !IsSummary(items[i])
    ensures SourceItems(items) == items
  {
    if items == [] {
    } else {
      NoSummariesInSource(items[1..]);
    }
  }

  lemma {:induction false} SummaryEndOfPrefix(h: seq<Item>, k: nat, n: nat)
    requires SummaryPrefix(h, k) && n <= |h|
    ensures SummaryEnd(h, n) == if n < k then n else k
  {
    if n > 0 {
      SummaryEndOfPrefix(h, k, n - 1);
    }
  }

  /** Completing a history leaves its leading summary blocks alone and adds none. */
  lemma {:induction false} PlaceholdersKeepPrefix(h: seq<Item>, i: nat)
    requires i <= |h|
    requires forall j :: i <= j < |h| ==> !IsSummary(h[j])
    ensures SummaryPrefix(WithPlaceholders(h, i), 0)
    decreases |h| - i
  {
    if i < |h| {
      PlaceholdersKeepPrefix(h, i + 1);
    }
  }

  lemma {:induction false} PromptKeepsSummaryPrefix(h: seq<Item>, k: nat)
    requires SummaryPrefix(h, k)
    ensures SummaryPrefix(Normalized(h), k)
    ensures Normalized(h)[..k] == h[..k]
  {
    NothingBetween(h, 0, k);
    PlaceholdersKeepPrefix(h, k);
  }

  // When a compaction is planned.

  /** The share of the window that is left, measured in tokens, is below the threshold. */
  ghost predicate WindowRunsLow(st: Strategy, tokens: int) {
    (st.window - Min(Max(tokens, 0), st.window)) as real < st.threshold * st.window as real
  }

  lemma ShareIs(left: real, window: real, threshold: real)
    requires window > 0.0
    ensures left / window < threshold <==> left < threshold * window
  {
    var share := left / window;
    assert share * window == left;
  }

  lemma OverThresholdIff(st: Strategy, tokens: int)
    requires st.window > 0
    ensures OverThreshold(st, tokens) <==> WindowRunsLow(st, tokens)
  {
    ShareIs(Max(st.window - Max(tokens, 0), 0) as real, st.window as real, st.threshold);
  }

  lemma {:induction false} SummaryEndFinds(h: seq<Item>, n: nat)
    requires n <= |h|
    ensures SummaryEnd(h, n) <= n && (SummaryEnd(h, n) > 0 ==> IsSummary(h[SummaryEnd(h, n) - 1]))
    ensures forall i :: SummaryEnd(h, n) <= i < n ==> !IsSummary(h[i])
  {
    if n == 0 {
    } else if !IsSummary(h[n - 1]) {
      SummaryEndFinds(h, n - 1);
    }
  }

  /** Exactly when which range is planned: the window is known and runs low, and the range from behind the
      last summary block in it to the recent items is long enough. */
  lemma PlannedIff(st: Strategy, prompt: seq<Item>, tokens: int, start: nat, end: nat)
    ensures PlanFor(st, prompt, tokens) == Some(Plan(start, end)) <==>
      && st.window > 0 && WindowRunsLow(st, tokens)
      && 0 < end == |prompt| - st.keepRecent
      && start <= Min(end, |prompt|) && (start > 0 ==> IsSummary(prompt[start - 1]))
      && (forall i :: start <= i < Min(end, |prompt|) ==> !IsSummary(prompt[i]))
      && end - start >= st.minReplace
  {
    if st.window > 0 {
      OverThresholdIff(st, tokens);
    }
    if |prompt| > st.keepRecent {
      var n := Min(|prompt| - st.keepRecent, |prompt|);
      SummaryEndFinds(prompt, n);
    }
  }

  /** Exactly when a compaction is attempted on a prompt that starts with its `k` summary blocks. */
  lemma TargetIff(st: Strategy, prompt: seq<Item>, k: nat, tokens: int)
    requires SummaryPrefix(prompt, k)
    ensures var end := |prompt| - st.keepRecent;
      Target(st, prompt, tokens).Some? <==>
        st.window > 0 && WindowRunsLow(st, tokens) && k < Min(end, |prompt|) && end - k >= st.minReplace
  {
    if st.window > 0 {
      OverThresholdIff(st, tokens);
    }
    var end := |prompt| - st.keepRecent;
    if end > 0 {
      var n := Min(end, |prompt|);
      SummaryEndOfPrefix(prompt, k, n);
      NoSummariesInSource(prompt[Min(k, n)..n]);
    }
  }

  /** More tokens never undo a plan nor change it, and a full window plans under every threshold above
      zero as soon as there is enough to replace. */
  lemma PlansAreMonotone(st: Strategy, prompt: seq<Item>, tokens: int, more: int)
    requires tokens <= more
    ensures PlanFor(st, prompt, tokens).Some? ==> PlanFor(st, prompt, more) == PlanFor(st, prompt, tokens)
    ensures st.window <= more && st.threshold > 0.0 && PlanFor(st, prompt, more).None? ==>
      forall any: int :: PlanFor(st, prompt, any).None?
  {
    if st.window > 0 {
      forall any: int
        ensures OverThreshold(st, any) <==> WindowRunsLow(st, any)
      {
        OverThresholdIff(st, any);
      }
      if st.threshold > 0.0 {
        assert st.threshold * st.window as real > 0.0;
      }
    }
  }

  /** A target starts right after the summary blocks, and what is handed to the summariser is the
      whole planned range. */
  lemma TargetShape(st: Strategy, prompt: seq<Item>, k: nat, tokens: int)
    requires SummaryPrefix(prompt, k) && Target(st, prompt, tokens).Some?
    ensures var plan := Target(st, prompt, tokens).value;
            var end := Min(plan.end, |prompt|);
            && plan.start == k < end
            && plan.end == |prompt| - st.keepRecent
            && Summarised(prompt, plan) == prompt[k..end]
  {
    var plan := Target(st, prompt, tokens).value;
    var end := Min(plan.end, |prompt|);
    SummaryEndOfPrefix(prompt, k, end);
    assert plan.start == Min(end, k);
    assert prompt[end..end] == [];
    NoSummariesInSource(prompt[plan.start..end]);
  }

  /** Replacing keeps the summary blocks a prefix, one longer. Holds for any history, complete or not. */
  lemma ReplacementKeepsPrefix(h: seq<Item>, k: nat, end: int, summary: string)
    requires SummaryPrefix(h, k)
    requires Rollout.ReplaceRange(h, k, end, RenderSummary(summary)).Some?
    ensures SummaryPrefix(Rollout.ReplaceRange(h, k, end, RenderSummary(summary)).value, k + 1)
  {
    RenderedIsSummary(summary);
  }

  /** Cutting items after a call-free prefix out of a complete history leaves it complete, even when
      the cut separates a call from its output. */
  lemma CutKeepsAnswered(h: seq<Item>, start: nat, end: nat, item: Item)
    requires Answered(h) && start <= end <= |h|
    requires forall i :: 0 <= i < start ==> !h[i].FunctionCall?
    requires !item.FunctionCall?
    ensures Answered(h[..start] + [item] + h[end..])
  {
    forall id | id != ""
      ensures Waiting(h[..start] + [item] + h[end..], id, 0) == 0
    {
      var head := h[..start] + [item];
      NoCallsNoWaiting(head, id);
      WaitingConcat(head, h[end..], id, 0);
      WaitingConcat(h[..end], h[end..], id, 0);
      assert h[..end] + h[end..] == h;
      WaitingMonotone(h[end..], id, 0, Waiting(h[..end], id, 0));
    }
  }

  /** On a complete history, a compaction removes exactly the items it summarised: the summary blocks
      before them, and the `keepRecent` items after them, stay; the result is again complete, with one
      more summary block; it is shorter exactly when at least two items were replaced. */
  lemma CompactionRemovesWhatItSummarised(st: Strategy, h: seq<Item>, k: nat, tokens: int, summary: string)
    requires Answered(h) && SummaryPrefix(h, k) && Target(st, Normalized(h), tokens).Some?
    ensures var plan := Target(st, Normalized(h), tokens).value;
            var removed := Summarised(Normalized(h), plan);
            && Compacted(h, plan, summary).Some?
            && var h' := Compacted(h, plan, summary).value;
            && k + |removed| <= |h|
            && h == h[..k] + removed + h[k + |removed|..]
            && h' == h[..k] + [System(RenderSummary(summary))] + h[k + |removed|..]
            && |h| - (k + |removed|) == Max(st.keepRecent, 0)
            && Answered(h') && SummaryPrefix(h', k + 1)
            && (|h'| < |h| <==> |removed| >= 2)
            && (st.keepRecent >= 0 && st.minReplace >= 2 ==> |h'| < |h|)
  {
    PromptIsHistoryIffAnswered(h);
    TargetShape(st, h, k, tokens);
    var plan := Target(st, h, tokens).value;
    ReplacementKeepsPrefix(h, k, plan.end, summary);
    forall i | 0 <= i < k
      ensures !h[i].FunctionCall?
    {
      assert IsSummary(h[i]);
    }
    CutKeepsAnswered(h, k, Min(plan.end, |h|), System(RenderSummary(summary)));
  }

  /** Once compacted, nothing more happens until new items arrive, whatever the token estimate and the
      other options are. */
  lemma CompactionIsQuiescent(
        st: Strategy, h: seq<Item>, k: nat, tokens: int, summary: string, st': Strategy, tokens': int)
    requires Answered(h) && SummaryPrefix(h, k) && Target(st, Normalized(h), tokens).Some?
    requires st'.keepRecent == st.keepRecent
    ensures var compacted := Compacted(h, Target(st, Normalized(h), tokens).value, summary);
            compacted.Some? && Target(st', Normalized(compacted.value), tokens') == None
  {
    CompactionRemovesWhatItSummarised(st, h, k, tokens, summary);
    var h' := Compacted(h, Target(st, Normalized(h), tokens).value, summary).value;
    PromptIsHistoryIffAnswered(h');
    if Target(st', h', tokens').Some? {
      TargetShape(st', h', k + 1, tokens');
      assert false;
    }
  }

  /** Indices are computed on the prompt and applied to the raw history. The items summarised are the
      items removed, for every possible end of the range, exactly when no call is unanswered. */
  lemma RangesAgreeIffAnswered(h: seq<Item>, k: nat)
    requires SummaryPrefix(h, k)
    ensures (forall end :: k <= end <= |Normalized(h)| ==> Normalized(h)[k..end] == h[k..Max(k, Min(end, |h|))])
            <==> Answered(h)
  {
    var prompt := Normalized(h);
    PromptIsHistoryIffAnswered(h);
    PromptKeepsSummaryPrefix(h, k);
    PlaceholdersLengthen(h, 0, |h|);
    if forall end :: k <= end <= |prompt| ==> prompt[k..end] == h[k..Max(k, Min(end, |h|))] {
      assert prompt[k..|prompt|] == h[k..Max(k, Min(|prompt|, |h|))] == h[k..];
      assert prompt == prompt[..k] + prompt[k..] == h[..k] + h[k..] == h;
    }
  }

  /** When a range that ends at `end` is safe: no unanswered call stands before the last item of it, or
      everything behind the call up to there happens to be the very output a placeholder gives it. */
  ghost predicate SafeEnd(h: seq<Item>, end: nat) {
    forall i {:trigger Unanswered(h, i)} :: 0 <= i < |h| && Unanswered(h, i) && i + 1 < end ==>
      end <= |h| && forall m :: i < m < end ==> h[m] == Placeholder(h[i].callId)
  }

  /** For one planned range: the items summarised are the items removed exactly when its end is safe. */
  lemma PlanAgreesIff(h: seq<Item>, k: nat, end: nat)
    requires SummaryPrefix(h, k) && k <= end <= |Normalized(h)|
    ensures Normalized(h)[k..end] == h[k..Max(k, Min(end, |h|))] <==> SafeEnd(h, end)
  {
    var prompt := Normalized(h);
    PromptKeepsSummaryPrefix(h, k);
    PrefixAgreesIff(h, end);
    if end <= |h| {
      assert prompt[..end] == prompt[..k] + prompt[k..end];
      assert h[..end] == h[..k] + h[k..end];
    } else {
      assert |prompt[k..end]| > |h[k..|h|]|;
    }
  }

  lemma PrefixAgreesIff(h: seq<Item>, end: nat)
    requires end <= |Normalized(h)|
    ensures end <= |h| && Normalized(h)[..end] == h[..end] <==> SafeEnd(h, end)
  {
    if i :| 0 <= i < |h| && Unanswered(h, i) && i + 1 < end {
      var first := FirstUnanswered(h, i);
      if end <= |h| {
        if SafeEnd(h, end) {
          PlaceholdersCoincide(h, first, end);
        }
        if Normalized(h)[..end] == h[..end] {
          CoincidenceIsPlaceholders(h, first, end, end - 1);
          OnlyFirstUnanswered(h, first, end);
        }
      }
    } else {
      NothingBefore(h, end);
    }
  }

  lemma FirstUnanswered(h: seq<Item>, i: nat) returns (first: nat)
    requires i < |h| && Unanswered(h, i)
    ensures first <= i && Unanswered(h, first)
    ensures forall j {:trigger Unanswered(h, j)} :: 0 <= j < first ==> !Unanswered(h, j)
    ensures Normalized(h) == h[..first + 1] + [Placeholder(h[first].callId)] + WithPlaceholders(h, first + 1)
  {
    first := 0;
    while !Unanswered(h, first)
      invariant first <= i
      invariant forall j {:trigger Unanswered(h, j)} :: 0 <= j < first ==> !Unanswered(h, j)
      decreases i - first
    {
      first := first + 1;
    }
    PromptSplits(h, first);
  }

  lemma PromptSplits(h: seq<Item>, first: nat)
    requires first < |h| && Unanswered(h, first)
    requires forall j {:trigger Unanswered(h, j)} :: 0 <= j < first ==> !Unanswered(h, j)
    ensures Normalized(h) == h[..first + 1] + [Placeholder(h[first].callId)] + WithPlaceholders(h, first + 1)
  {
    var before, call, placeholder := h[0..first], [h[first]], [Placeholder(h[first].callId)];
    var rest := WithPlaceholders(h, first + 1);
    NothingBetween(h, 0, first);
    assert Normalized(h) == before + (call + placeholder + rest);
    assert before + call == h[..first + 1];
    assert before + (call + placeholder + rest) == before + call + placeholder + rest by {
      ConcatAssociates(before, call + placeholder, rest);
      ConcatAssociates(before, call, placeholder);
    }
  }

  /** Without an unanswered call before its last item, a prefix of the prompt is one of the history. */
  lemma NothingBefore(h: seq<Item>, end: nat)
    requires end <= |Normalized(h)|
    requires forall i {:trigger Unanswered(h, i)} :: 0 <= i < |h| && Unanswered(h, i) ==> i + 1 >= end
    ensures end <= |h| && Normalized(h)[..end] == h[..end]
  {
    if end > |h| {
      NothingBetween(h, 0, |h|);
    } else if end > 0 {
      var rest := WithPlaceholders(h, end - 1);
      NothingBetween(h, 0, end - 1);
      assert rest[0] == h[end - 1];
      assert (h[..end - 1] + rest)[..end] == h[..end - 1] + [rest[0]] == h[..end];
    }
  }

  /** Up to the next unanswered call the prompt is the history moved by the placeholder. */
  lemma PromptBehind(h: seq<Item>, first: nat, m: nat)
    requires first < m < |h| && Unanswered(h, first)
    requires Normalized(h) == h[..first + 1] + [Placeholder(h[first].callId)] + WithPlaceholders(h, first + 1)
    requires forall j {:trigger Unanswered(h, j)} :: first < j < m ==> !Unanswered(h, j)
    ensures m < |Normalized(h)|
    ensures Normalized(h)[m] == if m == first + 1 then Placeholder(h[first].callId) else h[m - 1]
  {
    var rest := WithPlaceholders(h, m);
    NothingBetween(h, first + 1, m);
    assert Normalized(h) == h[..first + 1] + [Placeholder(h[first].callId)] + (h[first + 1..m] + rest);
  }

  /** Behind the first unanswered call stand only outputs that look like its placeholder. */
  ghost predicate OnlyPlaceholders(h: seq<Item>, first: nat, end: nat)
    requires first < |h| && h[first].FunctionCall?
  {
    end <= |h| && forall m :: first < m < end ==> h[m] == Placeholder(h[first].callId)
  }

  lemma PlaceholdersCoincide(h: seq<Item>, first: nat, end: nat)
    requires first + 1 < end <= |h| && Unanswered(h, first) && OnlyPlaceholders(h, first, end)
    requires Normalized(h) == h[..first + 1] + [Placeholder(h[first].callId)] + WithPlaceholders(h, first + 1)
    ensures end <= |Normalized(h)| && Normalized(h)[..end] == h[..end]
  {
    PlaceholdersLengthen(h, 0, first);
    forall m | 0 <= m < end
      ensures Normalized(h)[m] == h[m]
    {
      if m > first {
        PromptBehind(h, first, m);
      }
    }
  }

  lemma {:induction false} CoincidenceIsPlaceholders(h: seq<Item>, first: nat, end: nat, m: nat)
    requires first <= m < end <= |h| && Unanswered(h, first)
    requires Normalized(h) == h[..first + 1] + [Placeholder(h[first].callId)] + WithPlaceholders(h, first + 1)
    requires end <= |Normalized(h)| && Normalized(h)[..end] == h[..end]
    ensures OnlyPlaceholders(h, first, m + 1)
  {
    if m > first {
      CoincidenceIsPlaceholders(h, first, end, m - 1);
      PromptBehind(h, first, m);
      assert Normalized(h)[..end][m] == h[..end][m];
    }
  }

  lemma OnlyFirstUnanswered(h: seq<Item>, first: nat, end: nat)
    requires first < |h| && Unanswered(h, first) && OnlyPlaceholders(h, first, end)
    requires forall j {:trigger Unanswered(h, j)} :: 0 <= j < first ==> !Unanswered(h, j)
    ensures SafeEnd(h, end)
  {
    forall i | 0 <= i < |h| && Unanswered(h, i) && i + 1 < end
      ensures i == first
    {
      assert i > first ==> h[i] == Placeholder(h[first].callId);
    }
  }

  lemma UnansweredExample(h: seq<Item>, q: Item, call: Item, again: Item)
    requires h == [q, call, again] && q.User? && again.User? && call.FunctionCall? && call.callId != ""
    ensures Normalized(h) == [q, call, Placeholder(call.callId), again]
  {
    var id := call.callId;
    assert h[1..] == [call, again] && h[2..] == [again] && h[3..] == [];
    assert h[1..][1..] == h[2..] && h[2..][1..] == h[3..];
    assert Waiting(h, id, 0) == Waiting(h[1..], id, 0) == Waiting(h[2..], id, 1) == Waiting(h[3..], id, 1) == 1;
    assert Calls(h[2..], id) == Calls(h[3..], id) == 0;
    assert Unanswered(h, 1) && !Unanswered(h, 0) && !Unanswered(h, 2);
    assert WithPlaceholders(h, 2) == [again] + [] + WithPlaceholders(h, 3);
    assert WithPlaceholders(h, 1) == [call] + [Placeholder(id)] + WithPlaceholders(h, 2);
    assert WithPlaceholders(h, 0) == [q] + [] + WithPlaceholders(h, 1);
  }

  /** With an unanswered call (only a crash leaves one), a compaction can discard a recent item that was
      never summarised. */
  lemma UnansweredCallLosesItem()
    ensures var st := Strategy(1.0, 1, 1, 100);
            var h := [User("q", None), FunctionCall("c", "shell", "{}"), User("again", None)];
            && SummaryPrefix(h, 0)
            && Target(st, Normalized(h), 50) == Some(Plan(0, 3))
            && h[2] !in Summarised(Normalized(h), Plan(0, 3))
            && Compacted(h, Plan(0, 3), "s") == Some([System(RenderSummary("s"))])
  {
    var st := Strategy(1.0, 1, 1, 100);
    var h := [User("q", None), FunctionCall("c", "shell", "{}"), User("again", None)];
    UnansweredExample(h, h[0], h[1], h[2]);
    var prompt := Normalized(h);
    assert SummaryPrefix(prompt, 0);
    SummaryEndOfPrefix(prompt, 0, 3);
    assert OverThreshold(st, 50) by { assert 50.0 / 100.0 < 1.0; }
    NoSummariesInSource(prompt[0..3]);
    assert prompt[0..3] == [h[0], h[1], Placeholder("c")];
    assert h[..0] + [System(RenderSummary("s"))] + h[3..] == [System(RenderSummary("s"))];
  }

  // ---------------------------------------------------------------------------------------
  // The code: the planning loop.

  method PlanCompaction(st: Strategy, prompt: seq<Item>, tokens: int) returns (plan: Option<Plan>)
    ensures plan == PlanFor(st, prompt, tokens)
  {
    if st.window <= 0 { return None; }
    if |prompt| <= st.keepRecent { return None; }
    if !OverThreshold(st, tokens) { return None; }
    var end := |prompt| - st.keepRecent;
    if end <= 0 { return None; }
    var start := 0;
    var index := 0;
    while index < |prompt| && index < end
      invariant 0 <= index <= |prompt| && index <= end
      invariant start == SummaryEnd(prompt, index)
    {
      if IsSummary(prompt[index]) { start := index + 1; }
      index := index + 1;
    }
    SummaryEndBounded(prompt, index);
    if end - start < st.minReplace { return None; }
    plan := Some(Plan(start, end));
  }
}
