/** The session ledger and its replay (pycodex/core/rollout_schema.py, rollout_replay.py). */
module Rollout {
  import opened Prelude
  import opened PromptHistory

  datatype Usage = Usage(input: int, output: int)

  const NO_USAGE := Usage(0, 0)

  datatype Record =
    | SessionMeta
    | HistoryItem(item: Item)
    | TurnCompleted(turn: Usage, cumulative: Usage)
    | CompactionApplied(summary: string, start: int, end: int, replacedItems: int)
    | InitialContextApplied
    | SessionClosed(lastUser: Option<string>, turnCount: int, total: Usage)

  /** What replay reconstructs. `displayed` is every stored item, with no compaction applied. */
  datatype Replayed = Replayed(
    history: seq<Item>, displayed: seq<Item>, usage: Usage, lastTurnInput: int, turnCount: nat,
    compactions: nat, contextInjected: bool, closed: Option<Record>, warnings: nat)

  const EMPTY := Replayed([], [], NO_USAGE, 0, 0, 0, false, None, 0)

  /** history[start:end] replaced by one system message; `None` when the range is empty or starts
      outside the history. An end past the history is cut back to it. */
  function ReplaceRange(h: seq<Item>, start: int, end: int, summary: string): Option<seq<Item>> {
    var effectiveEnd := Min(end, |h|);
    if effectiveEnd > start >= 0 then Some(h[..start] + [System(summary)] + h[effectiveEnd..]) else None
  }

  /** One ledger record applied to the replay state. */
  function Apply(s: Replayed, r: Record): Replayed {
    match r
    case HistoryItem(item) =>
      if item.Malformed? then s.(warnings := s.warnings + 1)
      else s.(history := s.history + [item], displayed := s.displayed + [item])
    case TurnCompleted(turn, cumulative) =>
      s.(usage := cumulative, turnCount := s.turnCount + 1, lastTurnInput := turn.input)
    case CompactionApplied(summary, start, end, _) =>
      var warned := s.warnings + if end > |s.history| then 1 else 0;
      var counted := s.(compactions := s.compactions + 1);
      match ReplaceRange(s.history, start, end, summary) {
        case Some(h) => counted.(history := h, warnings := warned)
        case None => counted.(warnings := warned + 1)
      }
    case InitialContextApplied => s.(contextInjected := true)
    case SessionMeta => s
    case SessionClosed(_, _, _) => s.(closed := Some(r))
  }

  /** The whole ledger, folded from the empty state. */
  function Replay(ledger: seq<Record>): Replayed {
    if ledger == [] then EMPTY
    else Apply(Replay(ledger[..|ledger| - 1]), ledger[|ledger| - 1])
  }

  lemma ReplaySnoc(ledger: seq<Record>, r: Record)
    ensures Replay(ledger + [r]) == Apply(Replay(ledger), r)
  {
    assert (ledger + [r])[..|ledger|] == ledger;
  }

  // ---------------------------------------------------------------------------------------
  // Lines of the stored file: only a torn last line is forgiven.

  datatype Line =
    | Blank                 // nothing but white space
    | NotJson
    | NotAnObject
    | BadVersion            // schema_version is no "<digits>..." string
    | OtherMajor            // a well-formed version with another major number
    | NoType
    | UnknownType
    | SchemaError           // a known type whose fields do not validate
    | Stored(record: Record)

  datatype ReplayError = SchemaVersionMismatch | ReplayFailure

  /** What line `index` of `count` does to the state. */
  function ApplyLine(s: Replayed, line: Line, isLast: bool): Result<Replayed, ReplayError> {
    match line
    case Blank => Ok(s)
    case NotJson => if isLast then Ok(s.(warnings := s.warnings + 1)) else Err(ReplayFailure)
    case OtherMajor => Err(SchemaVersionMismatch)
    case UnknownType => Ok(s.(warnings := s.warnings + 1))
    case Stored(r) => Ok(Apply(s, r))
    case _ => Err(ReplayFailure)
  }

  function ReplayFrom(lines: seq<Line>, i: nat, s: Replayed): Result<Replayed, ReplayError>
    requires i <= |lines|
    decreases |lines| - i
  {
    if i == |lines| then Ok(s)
    else
      var next :- ApplyLine(s, lines[i], i == |lines| - 1);
      ReplayFrom(lines, i + 1, next)
  }

  function ReplayLines(lines: seq<Line>): Result<Replayed, ReplayError> { ReplayFrom(lines, 0, EMPTY) }

  /** The records stored in the file, in order. */
  function StoredRecords(lines: seq<Line>): seq<Record> {
    if lines == [] then []
    else
      StoredRecords(lines[..|lines| - 1]) +
      if lines[|lines| - 1].Stored? then [lines[|lines| - 1].record] else []
  }

  predicate Readable(lines: seq<Line>, i: nat)
    requires i < |lines|
  {
    lines[i].Blank? || lines[i].UnknownType? || lines[i].Stored? || (lines[i].NotJson? && i == |lines| - 1)
  }

  /** Warnings never influence the rest of the state. */
  ghost predicate SameButWarnings(a: Replayed, b: Replayed) { a.(warnings := 0) == b.(warnings := 0) }

  lemma LineIgnoresWarnings(s: Replayed, s': Replayed, line: Line, isLast: bool)
    requires SameButWarnings(s, s')
    ensures var next := ApplyLine(s, line, isLast);
            next.Ok? ==> SameButWarnings(next.value, if line.Stored? then Apply(s', line.record) else s')
  {}

  lemma StoredSnoc(lines: seq<Line>, i: nat)
    requires i < |lines|
    ensures StoredRecords(lines[..i + 1])
      == StoredRecords(lines[..i]) + if lines[i].Stored? then [lines[i].record] else []
  {
    assert lines[..i + 1][..i] == lines[..i];
  }

  lemma {:induction false} ReplayFromStored(lines: seq<Line>, i: nat, s: Replayed)
    requires i <= |lines| && SameButWarnings(s, Replay(StoredRecords(lines[..i])))
    ensures ReplayFrom(lines, i, s).Ok? <==> forall j {:trigger Readable(lines, j)} :: i <= j < |lines| ==>
        Readable(lines, j)
    ensures ReplayFrom(lines, i, s).Ok? ==> SameButWarnings(ReplayFrom(lines, i, s).value, Replay(StoredRecords(lines)))
    decreases |lines| - i
  {
    if i == |lines| {
      assert lines[..i] == lines;
    } else {
      var next := ApplyLine(s, lines[i], i == |lines| - 1);
      assert next.Ok? <==> Readable(lines, i);
      if next.Ok? {
        var before := StoredRecords(lines[..i]);
        StoredSnoc(lines, i);
        LineIgnoresWarnings(s, Replay(before), lines[i], i == |lines| - 1);
        if lines[i].Stored? {
          ReplaySnoc(before, lines[i].record);
        } else {
          assert before + [] == before;
        }
        ReplayFromStored(lines, i + 1, next.value);
      }
    }
  }

  /** Replay of a file succeeds exactly when every line but a torn last one is readable, and then it
      is the fold of the stored records. */
  lemma ReplayLinesIsFold(lines: seq<Line>)
    ensures ReplayLines(lines).Ok? <==> forall j {:trigger Readable(lines, j)} :: 0 <= j < |lines| ==>
        Readable(lines, j)
    ensures ReplayLines(lines).Ok? ==> SameButWarnings(ReplayLines(lines).value, Replay(StoredRecords(lines)))
  {
    assert lines[..0] == [];
    ReplayFromStored(lines, 0, EMPTY);
  }

  /** The items the ledger stores, in order. */
  function StoredItems(ledger: seq<Record>): seq<Item> {
    if ledger == [] then []
    else
      var last := ledger[|ledger| - 1];
      StoredItems(ledger[..|ledger| - 1]) + if last.HistoryItem? && !last.item.Malformed? then [last.item] else []
  }

  /** What is displayed is every stored item, whatever was compacted; and without a compaction that is the
      history too. */
  lemma {:induction false} DisplayedIsEverythingStored(ledger: seq<Record>)
    ensures Replay(ledger).displayed == StoredItems(ledger)
    ensures (forall r :: r in ledger ==> !r.CompactionApplied?) ==> Replay(ledger).history == StoredItems(ledger)
  {
    if ledger == [] {
    } else {
      var before, last := ledger[..|ledger| - 1], ledger[|ledger| - 1];
      DisplayedIsEverythingStored(before);
      assert last in ledger && forall r :: r in before ==> r in ledger;
    }
  }

  /** Replay stops at the first line that is not readable, with an error that tells another schema version
      from every other fault. */
  lemma ReplayFailsAtFirstBadLine(lines: seq<Line>, i: nat)
    requires i < |lines| && !Readable(lines, i)
    requires forall j {:trigger Readable(lines, j)} :: 0 <= j < i ==> Readable(lines, j)
    ensures ReplayLines(lines) == Err(if lines[i].OtherMajor? then SchemaVersionMismatch else ReplayFailure)
  {
    FailsAt(lines, 0, i, EMPTY);
  }

  lemma {:induction false} FailsAt(lines: seq<Line>, from: nat, i: nat, s: Replayed)
    requires from <= i < |lines| && !Readable(lines, i)
    requires forall j {:trigger Readable(lines, j)} :: from <= j < i ==> Readable(lines, j)
    ensures ReplayFrom(lines, from, s) == Err(if lines[i].OtherMajor? then SchemaVersionMismatch else ReplayFailure)
    decreases i - from
  {
    if from < i {
      assert Readable(lines, from);
      FailsAt(lines, from + 1, i, ApplyLine(s, lines[from], from == |lines| - 1).value);
    }
  }

  // ---------------------------------------------------------------------------------------
  // The code: local lists and counters updated line by line.

  class Replayer {
    var history: seq<Item>
    var displayed: seq<Item>
    var usage: Usage
    var lastTurnInput: int
    var turnCount: nat
    var compactions: nat
    var contextInjected: bool
    var closed: Option<Record>
    var warnings: nat

    function State(): Replayed
      reads this
    {
      Replayed(history, displayed, usage, lastTurnInput, turnCount, compactions, contextInjected, closed, warnings)
    }

    constructor ()
      ensures State() == EMPTY
    {
      history, displayed, usage, lastTurnInput := [], [], NO_USAGE, 0;
      turnCount, compactions, contextInjected, closed, warnings := 0, 0, false, None, 0;
    }

    /** `_apply_rollout_item`: the part that edits the history list and the usage dictionary. */
    method ApplyRolloutItem(item: Record)
      modifies this`history, this`usage, this`warnings
      ensures history == Apply(old(State()), item).history
      ensures usage == Apply(old(State()), item).usage
      ensures warnings == Apply(old(State()), item).warnings
    {
      match item
      case HistoryItem(raw) =>
        if raw.Malformed? { warnings := warnings + 1; } else { history := history + [raw]; }
      case TurnCompleted(_, cumulative) =>
        usage := cumulative;
      case CompactionApplied(summary, start, end, _) =>
        if end > |history| { warnings := warnings + 1; }
        var effectiveEnd := Min(end, |history|);
        if effectiveEnd > start >= 0 {
          history := history[..start] + history[effectiveEnd..];
          history := history[..start] + [System(summary)] + history[start..];
        } else {
          warnings := warnings + 1;
        }
      case _ =>
    }

    /** `replay_rollout`: the loop over the lines. */
    method ReplayRollout(lines: seq<Line>) returns (failure: Option<ReplayError>)
      requires State() == EMPTY
      modifies this
      ensures failure.None? ==> ReplayLines(lines) == Ok(State())
      ensures failure.Some? ==> ReplayLines(lines) == Err(failure.value)
    {
      for index := 0 to |lines|
        invariant ReplayFrom(lines, index, State()) == ReplayLines(lines)
      {
        match lines[index]
        case Blank =>
        case NotJson =>
          if index < |lines| - 1 { return Some(ReplayFailure); }
          warnings := warnings + 1;
        case OtherMajor =>
          return Some(SchemaVersionMismatch);
        case UnknownType =>
          warnings := warnings + 1;
        case Stored(record) =>
          if record.HistoryItem? && !record.item.Malformed? { displayed := displayed + [record.item]; }
          ApplyRolloutItem(record);
          match record {
            case TurnCompleted(turn, _) => turnCount, lastTurnInput := turnCount + 1, turn.input;
            case CompactionApplied(_, _, _, _) => compactions := compactions + 1;
            case InitialContextApplied => contextInjected := true;
            case SessionClosed(_, _, _) => closed := Some(record);
            case _ =>
          }
        case _ =>
          return Some(ReplayFailure);
      }
      return None;
    }
  }
}
