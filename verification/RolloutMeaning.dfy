/** What replay reconstructs, told from the stored records and lines alone (pycodex/core/rollout_replay.py). */
module RolloutMeaning {
  import opened Prelude
  import opened PromptHistory
  import opened Rollout

  // ---------------------------------------------------------------------------------------
  // Totals and flags.

  /** Record `k` is the last completion of a turn. */
  ghost predicate LastCompletion(ledger: seq<Record>, k: nat) {
    k < |ledger| && ledger[k].TurnCompleted? && forall i :: k < i < |ledger| ==> !ledger[i].TurnCompleted?
  }

  ghost predicate LastClosing(ledger: seq<Record>, k: nat) {
    k < |ledger| && ledger[k].SessionClosed? && forall i :: k < i < |ledger| ==> !ledger[i].SessionClosed?
  }

  /** The usage is that of the last completed turn. */
  lemma {:induction false} UsageIsLatest(ledger: seq<Record>, k: nat)
    ensures LastCompletion(ledger, k) ==>
      Replay(ledger).usage == ledger[k].cumulative && Replay(ledger).lastTurnInput == ledger[k].turn.input
    ensures (forall i :: 0 <= i < |ledger| ==> !ledger[i].TurnCompleted?) ==>
      Replay(ledger).usage == NO_USAGE && Replay(ledger).lastTurnInput == 0
  {
    if ledger == [] {
    } else {
      UsageIsLatest(ledger[..|ledger| - 1], k);
    }
  }

  /** A session counts as closed by its last closing record. */
  lemma {:induction false} ClosingIsLatest(ledger: seq<Record>, k: nat)
    ensures LastClosing(ledger, k) ==> Replay(ledger).closed == Some(ledger[k])
    ensures Replay(ledger).closed.None? <==> forall i :: 0 <= i < |ledger| ==> !ledger[i].SessionClosed?
  {
    if ledger == [] {
    } else {
      ClosingIsLatest(ledger[..|ledger| - 1], k);
    }
  }

  /** The context counts as injected exactly if a record says so. */
  lemma {:induction false} ContextIsInjectedIff(ledger: seq<Record>)
    ensures Replay(ledger).contextInjected <==> exists i :: 0 <= i < |ledger| && ledger[i].InitialContextApplied?
  {
    if ledger == [] {
    } else {
      ContextIsInjectedIff(ledger[..|ledger| - 1]);
      assert ledger[|ledger| - 1].InitialContextApplied? ==> Replay(ledger).contextInjected;
    }
  }

  // ---------------------------------------------------------------------------------------
  // Ranges.

  /** A range is replaced exactly if it holds an item of the history; the part behind the end is ignored. */
  lemma ReplacementIs(h: seq<Item>, start: int, end: int, summary: string)
    ensures ReplaceRange(h, start, end, summary).Some? <==> 0 <= start < |h| && start < end
    ensures ReplaceRange(h, start, end, summary).Some? ==>
      var replaced, gone := ReplaceRange(h, start, end, summary).value, Min(end, |h|) - start;
      && |replaced| == |h| - gone + 1
      && replaced[start] == System(summary)
      && (forall i :: 0 <= i < start ==> replaced[i] == h[i])
      && (forall i :: start < i < |replaced| ==> replaced[i] == h[i + gone - 1])
  {}

  // ---------------------------------------------------------------------------------------
  // Warnings.

  /** One for a malformed item, one for a range that reaches behind the history so far, one for a range
      without an item. */
  function RecordWarnings(h: seq<Item>, r: Record): nat {
    match r
    case HistoryItem(item) => if item.Malformed? then 1 else 0
    case CompactionApplied(_, start, end, _) =>
      (if end > |h| then 1 else 0) + (if 0 <= start < |h| && start < end then 0 else 1)
    case _ => 0
  }

  lemma RecordWarns(s: Replayed, s': Replayed, r: Record)
    requires s.history == s'.history
    ensures Apply(s, r).warnings == s.warnings + RecordWarnings(s.history, r)
    ensures Apply(s, r).history == Apply(s', r).history
  {}

  /** One more for an unknown type or a torn last line. */
  function LineWarnings(h: seq<Item>, line: Line): nat {
    match line
    case NotJson => 1
    case UnknownType => 1
    case Stored(record) => RecordWarnings(h, record)
    case _ => 0
  }

  ghost function WarningsAt(lines: seq<Line>, i: nat): nat
    requires i < |lines|
  {
    LineWarnings(Replay(StoredRecords(lines[..i])).history, lines[i])
  }

  ghost function WarningsFrom(lines: seq<Line>, i: nat): nat
    requires i <= |lines|
    decreases |lines| - i
  {
    if i == |lines| then 0 else WarningsAt(lines, i) + WarningsFrom(lines, i + 1)
  }

  lemma LineWarns(s: Replayed, before: seq<Record>, line: Line, isLast: bool)
    requires s.history == Replay(before).history
    ensures var next := ApplyLine(s, line, isLast);
      next.Ok? ==>
        && next.value.warnings == s.warnings + LineWarnings(Replay(before).history, line)
        && next.value.history == Replay(before + if line.Stored? then [line.record] else []).history
  {
    if line.Stored? {
      ReplaySnoc(before, line.record);
      RecordWarns(s, Replay(before), line.record);
    } else {
      assert before + [] == before;
    }
  }

  lemma {:induction false} WarningsCountedFrom(lines: seq<Line>, i: nat, s: Replayed)
    requires i <= |lines| && s.history == Replay(StoredRecords(lines[..i])).history
    ensures ReplayFrom(lines, i, s).Ok? ==>
      ReplayFrom(lines, i, s).value.warnings == s.warnings + WarningsFrom(lines, i)
    decreases |lines| - i
  {
    if i < |lines| {
      var next := ApplyLine(s, lines[i], i == |lines| - 1);
      LineWarns(s, StoredRecords(lines[..i]), lines[i], i == |lines| - 1);
      StoredSnoc(lines, i);
      if next.Ok? {
        WarningsCountedFrom(lines, i + 1, next.value);
      }
    }
  }

  /** A replay that succeeds has warned about every line as said above, and about nothing else. */
  lemma WarningsAreCounted(lines: seq<Line>)
    ensures ReplayLines(lines).Ok? ==> ReplayLines(lines).value.warnings == WarningsFrom(lines, 0)
  {
    assert lines[..0] == [];
    WarningsCountedFrom(lines, 0, EMPTY);
  }
}
