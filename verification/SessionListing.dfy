/** The session list: the closing record when it is the last line, a full replay otherwise
    (pycodex/core/session_store.py). */
module SessionListing {
  import opened Prelude
  import opened PromptHistory
  import opened Rollout
  import SessionState
  import Compaction

  datatype Row = Row(closed: bool, turnCount: int, tokenTotal: int, lastUser: Option<string>)

  /** `read_session_closed` on a ledger split into lines; `LedgerFile` treats the byte scan. */
  function ClosingRecord(lines: seq<Line>): Option<Record> {
    if lines != [] && lines[|lines| - 1].Stored? && lines[|lines| - 1].record.SessionClosed?
    then Some(lines[|lines| - 1].record)
    else None
  }

  function FastRow(r: Record): Row
    requires r.SessionClosed?
  {
    Row(true, r.turnCount, r.total.input + r.total.output, r.lastUser)
  }

  function SlowRow(s: Replayed): Row {
    Row(s.closed.Some?, s.turnCount, s.usage.input + s.usage.output, SessionState.LastUserMessage(s.history))
  }

  function RowOf(lines: seq<Line>): Result<Row, ReplayError> {
    match ClosingRecord(lines)
    case Some(r) => Ok(FastRow(r))
    case None =>
      var s :- ReplayLines(lines);
      Ok(SlowRow(s))
  }

  function Rows(files: seq<seq<Line>>): Result<seq<Row>, ReplayError> {
    if files == [] then Ok([])
    else
      var before :- Rows(files[..|files| - 1]);
      var row :- RowOf(files[|files| - 1]);
      Ok(before + [row])
  }

  /** `list_sessions` over the files in listing order: a limit cuts the list before later files are read. */
  method ListSessions(files: seq<seq<Line>>, limit: Option<int>) returns (rows: Result<seq<Row>, ReplayError>)
    ensures limit.None? ==> rows == Rows(files)
    ensures limit.Some? && limit.value <= 0 ==> rows == Ok([])
    ensures limit.Some? && limit.value > 0 ==> rows == Rows(files[..Min(limit.value, |files|)])
  {
    if limit.Some? && limit.value <= 0 { return Ok([]); }
    var records: seq<Row> := [];
    var n := if limit.Some? then Min(limit.value, |files|) else |files|;
    assert limit.None? ==> files[..n] == files;
    for i := 0 to |files|
      invariant Rows(files[..i]) == Ok(records) && |records| == i
      invariant limit.Some? ==> i < limit.value
    {
      assert files[..i + 1][..i] == files[..i];
      var closed := ClosingRecord(files[i]);
      if closed.Some? {
        records := records + [FastRow(closed.value)];
      } else {
        var replayer := new Replayer();
        var failure := replayer.ReplayRollout(files[i]);
        if failure.Some? {
          assert files[..n][..i + 1] == files[..i + 1];
          RowsFailLater(files[..n], i + 1, failure.value);
          return Err(failure.value);
        }
        records := records + [SlowRow(replayer.State())];
      }
      if limit.Some? && |records| >= limit.value { return Ok(records); }
    }
    assert files[..|files|] == files;
    return Ok(records);
  }

  lemma {:induction false} RowsFailLater(files: seq<seq<Line>>, i: nat, e: ReplayError)
    requires i <= |files| && Rows(files[..i]) == Err(e)
    ensures Rows(files) == Err(e)
    decreases |files|
  {
    if i == |files| {
      assert files[..i] == files;
    } else {
      assert files[..|files| - 1][..i] == files[..i];
      RowsFailLater(files[..|files| - 1], i, e);
    }
  }

  function Lines(ledger: seq<Record>): seq<Line> { seq(|ledger|, i requires 0 <= i < |ledger| => Stored(ledger[i])) }

  lemma {:induction false} LinesStoreLedger(ledger: seq<Record>)
    ensures StoredRecords(Lines(ledger)) == ledger
  {
    if ledger == [] {
    } else {
      assert Lines(ledger)[..|ledger| - 1] == Lines(ledger[..|ledger| - 1]);
      LinesStoreLedger(ledger[..|ledger| - 1]);
    }
  }

  ghost predicate HasClosing(ledger: seq<Record>) { exists i :: 0 <= i < |ledger| && ledger[i].SessionClosed? }

  lemma HasClosingSnoc(ledger: seq<Record>, r: Record)
    ensures HasClosing(ledger + [r]) <==> HasClosing(ledger) || r.SessionClosed?
  {
    var longer := ledger + [r];
    if i :| 0 <= i < |ledger| && ledger[i].SessionClosed? {
      assert longer[i].SessionClosed?;
    }
    assert longer[|ledger|] == r;
  }

  /** Replay reports a session closed as soon as any closing record stands anywhere in the ledger. */
  lemma {:induction false} ClosedIffSomeClosingRecord(ledger: seq<Record>)
    ensures Replay(ledger).closed.Some? <==> HasClosing(ledger)
  {
    if ledger == [] {
    } else {
      var before, last := ledger[..|ledger| - 1], ledger[|ledger| - 1];
      ClosedIffSomeClosingRecord(before);
      HasClosingSnoc(before, last);
      assert ledger == before + [last];
    }
  }

  ghost predicate HasUser(history: seq<Item>) { exists i :: 0 <= i < |history| && history[i].User? }

  /** The two rows of a ledger agree on status, turn count and tokens. They agree on the last user message
      too, unless the ledger ends in a closing record that names a message when the history has none or
      the other way round. */
  ghost predicate RowsAgree(ledger: seq<Record>) {
    var lines := Lines(ledger);
    && ReplayLines(lines).Ok? && RowOf(lines).Ok?
    && var fast, slow, closing := RowOf(lines).value, SlowRow(ReplayLines(lines).value), ClosingRecord(lines);
    && fast.(lastUser := None) == slow.(lastUser := None)
    && (fast == slow <==> (closing.Some? ==> (closing.value.lastUser.Some? <==> HasUser(Replay(ledger).history))))
  }

  lemma LedgerReplays(ledger: seq<Record>)
    ensures ReplayLines(Lines(ledger)).Ok? && SameButWarnings(ReplayLines(Lines(ledger)).value, Replay(ledger))
  {
    forall j | 0 <= j < |ledger|
      ensures Readable(Lines(ledger), j)
    {}
    ReplayLinesIsFold(Lines(ledger));
    LinesStoreLedger(ledger);
  }

  lemma RowsAgreeAtRest(s: SessionState.Live)
    requires SessionState.AtRest(s, false)
    ensures RowsAgree(s.ledger)
  {
    var ledger := s.ledger;
    var lines := Lines(ledger);
    LedgerReplays(ledger);
    if ClosingRecord(lines).Some? {
      var i := |ledger| - 1;
      assert SessionState.SoundAt(ledger, i);
      ReplaySnoc(ledger[..i], ledger[i]);
      assert ledger[..i] + [ledger[i]] == ledger;
      ClosedIffSomeClosingRecord(ledger);
      SessionState.NoMessageIffNoUser(Replay(ledger).history);
    }
  }

  /** For every ledger a run leaves, with any turns, compactions, resumes and crashes. */
  lemma FastListingAgreesWithReplay(setup: SessionState.Setup, steps: seq<SessionState.Step>)
    requires SessionState.ValidSetup(setup) && SessionState.Legal(SessionState.FRESH, setup, steps)
    ensures RowsAgree(SessionState.Run(SessionState.FRESH, setup, steps).ledger)
  {
    SessionState.FreshIsAtRest();
    SessionState.RunKeeps(SessionState.FRESH, setup, steps, false);
    RowsAgreeAtRest(SessionState.Run(SessionState.FRESH, setup, steps));
  }

  /** Closing a session after any run gives two equal rows exactly if the session remembers a user message
      just when its history holds one. Both can be seen before closing. */
  lemma ClosingRowsAgreeIff(setup: SessionState.Setup, steps: seq<SessionState.Step>)
    requires SessionState.ValidSetup(setup) && SessionState.Legal(SessionState.FRESH, setup, steps)
    requires !SessionState.Run(SessionState.FRESH, setup, steps).closed
    ensures var s := SessionState.Run(SessionState.FRESH, setup, steps);
      var ledger := SessionState.Close(s).ledger;
      RowOf(Lines(ledger)) == Ok(SlowRow(Replay(ledger))) <==> (s.lastUser.Some? <==> HasUser(s.history))
  {
    SessionState.FreshIsAtRest();
    SessionState.RunKeeps(SessionState.FRESH, setup, steps, false);
    ClosingRowsAtRest(SessionState.Run(SessionState.FRESH, setup, steps));
  }

  lemma ClosingRowsAtRest(s: SessionState.Live)
    requires SessionState.AtRest(s, false) && !s.closed
    ensures var ledger := SessionState.Close(s).ledger;
      RowOf(Lines(ledger)) == Ok(SlowRow(Replay(ledger))) <==> (s.lastUser.Some? <==> HasUser(s.history))
  {
    var closing := SessionClosed(s.lastUser, s.turnCount, s.usage);
    var closed := SessionState.Close(s);
    SessionState.LogKeeps(s, closing, closed, false);
    RowsAgreeAtRest(closed);
    LedgerReplays(closed.ledger);
    ClosesWith(s.ledger, closing);
  }

  lemma ClosesWith(ledger: seq<Record>, closing: Record)
    requires closing.SessionClosed?
    ensures ClosingRecord(Lines(ledger + [closing])) == Some(closing)
    ensures Replay(ledger + [closing]).history == Replay(ledger).history
  {
    ReplaySnoc(ledger, closing);
    var all := ledger + [closing];
    assert |Lines(all)| == |ledger| + 1 && all[|ledger|] == closing;
  }

  /** Both ways to disagree exist. A session restored and closed without a turn remembers no message,
      while its history may hold one. */
  lemma ResumeForgetsLastMessage(ledger: seq<Record>)
    ensures var closed := Lines(SessionState.Close(SessionState.Restore(ledger)).ledger);
      && ClosingRecord(closed).Some? && RowOf(closed).value.lastUser == None
      && (RowOf(closed).value.lastUser ==
            SlowRow(Replay(SessionState.Close(SessionState.Restore(ledger)).ledger)).lastUser
          <==> !HasUser(Replay(ledger).history))
  {
    var s := SessionState.Restore(ledger);
    var r := SessionClosed(s.lastUser, s.turnCount, s.usage);
    ClosesWith(ledger, r);
    SessionState.NoMessageIffNoUser(Replay(ledger).history);
    assert SessionState.Close(s).ledger == ledger + [r];
  }

  const SETUP := SessionState.Setup(None, Some(Compaction.Strategy(1.0, 1, 1, 100)), 0)

  function Pass(calls: seq<SessionState.Call>, text: string): SessionState.Iteration {
    SessionState.Iteration(50, SessionState.SummaryText("s"), SessionState.Reply(calls, text, None), false, [])
  }

  /** A turn with one call; the second pass compacts the question and the call. */
  function CompactedTurn(): SessionState.TurnInput {
    var call := SessionState.Call("c", "f", "{}", SessionState.Finished("r", false));
    SessionState.TurnInput("q", [], false, [Pass([call], ""), Pass([], "done")], false)
  }

  /** The question and its call, as the second pass finds them. */
  lemma BeforeCompaction()
    ensures var s := SessionState.Started(SessionState.FRESH, SETUP, CompactedTurn());
      var next := SessionState.Continued(s, SETUP.strategy, CompactedTurn().iterations[0], 0);
      && next.Some? && SessionState.AtRest(next.value.0, true) && next.value.1 == 0
      && next.value.0.lastUser == Some("q")
      && next.value.0.history == [User("q", None), FunctionCall("c", "f", "{}"), ToolResult("c", "r")]
  {
    var s := SessionState.Started(SessionState.FRESH, SETUP, CompactedTurn());
    var first := CompactedTurn().iterations[0];
    SessionState.FreshIsAtRest();
    SessionState.StartedKeeps(SessionState.FRESH, SETUP, CompactedTurn(), true);
    assert s.history == [User("q", None)];
    SessionState.AnsweredAtRest(s, true);
    PromptIsHistoryIffAnswered(s.history);
    assert SessionState.CompactStep(s, SETUP.strategy, first) == (s, None);
    var call := first.sampled.calls[0];
    var ran := SessionState.RunCall(s, call);
    assert first.sampled.calls[1..] == [];
    assert SessionState.RunCalls(s, [call]) == (ran.0, None);
    SessionState.ContinuedKeeps(s, SETUP.strategy, first, 0, true);
  }

  /** The other way: a compaction can cut the last user message out of the history, and the session that
      never was resumed still remembers it when it closes. */
  lemma CompactionForgetsLastMessage()
    ensures var s := SessionState.Turn(SessionState.FRESH, SETUP, CompactedTurn()).0;
      s.lastUser == Some("q") && !HasUser(s.history)
  {
    BeforeCompaction();
    var s := SessionState.Started(SessionState.FRESH, SETUP, CompactedTurn());
    var its := CompactedTurn().iterations;
    var next := SessionState.Continued(s, SETUP.strategy, its[0], 0).value.0;
    assert SessionState.Loop(s, SETUP.strategy, its, 0) == SessionState.Loop(next, SETUP.strategy, its[1..], 0);
    assert its[1..] == [Pass([], "done")];
    SecondLoop(next);
  }

  lemma SecondLoop(s: SessionState.Live)
    requires SessionState.AtRest(s, true)
    requires s.history == [User("q", None), FunctionCall("c", "f", "{}"), ToolResult("c", "r")]
    ensures var final := SessionState.Loop(s, SETUP.strategy, [Pass([], "done")], 0).0;
      final.lastUser == s.lastUser && !HasUser(final.history)
  {
    SessionState.AnsweredAtRest(s, true);
    PromptIsHistoryIffAnswered(s.history);
    CompactionTarget(s.history);
    SecondPass(s, Pass([], "done"));
    var compacted := SessionState.CompactStep(s, SETUP.strategy, Pass([], "done")).0;
    SessionState.StoppedAfterReply(s, SETUP.strategy, [Pass([], "done")], 0, compacted);
  }

  lemma SecondPass(s: SessionState.Live, it: SessionState.Iteration)
    requires |s.history| == 3 && s.history[2].ToolResult?
    requires Normalized(s.history) == s.history && it == Pass([], "done")
    requires Compaction.Target(SETUP.strategy.value, s.history, 50) == Some(Compaction.Plan(0, 2))
    ensures var (compacted, stop) := SessionState.CompactStep(s, SETUP.strategy, it);
      var final := SessionState.AfterReply(compacted, it);
      stop == None && final.lastUser == s.lastUser && !HasUser(final.history)
  {
    var block := System(Compaction.RenderSummary("s"));
    var compacted := SessionState.CompactStep(s, SETUP.strategy, it).0;
    assert compacted.history == [block, s.history[2]];
    assert SessionState.AfterReply(compacted, it).history == [block, s.history[2], Assistant("done")];
  }

  lemma CompactionTarget(h: seq<Item>)
    requires |h| == 3 && forall i :: 0 <= i < |h| ==> !h[i].System?
    ensures Compaction.Target(SETUP.strategy.value, h, 50) == Some(Compaction.Plan(0, 2))
  {
    assert Compaction.OverThreshold(SETUP.strategy.value, 50) by { assert 50.0 / 100.0 < 1.0; }
    Compaction.SummaryEndOfPrefix(h, 0, 2);
    assert h[0..2] == [h[0], h[1]];
    Compaction.NoSummariesInSource(h[0..2]);
  }
}
