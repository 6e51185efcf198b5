/** What the view shows of a turn, told from the events alone (tui/src/hooks/useTurns.ts). */
module TurnsMeaning {
  import opened Prelude
  import opened TurnsView

  function Lookup(v: View, id: string): Option<Turn> {
    var i := Find(v.turns, id);
    if i < |v.turns| then Some(v.turns[i]) else None
  }

  predicate Replaces(e: Event) { e.ThreadStarted? || e.SessionHydrated? }

  predicate Names(e: Event, id: string) { !Replaces(e) && !e.NotAboutTurns? && e.turn == id }

  predicate Ends(e: Event, id: string) { (e.TurnCompleted? || e.TurnFailed?) && e.turn == id }

  // ---------------------------------------------------------------------------------------
  // One event, one turn.

  lemma UpdateLooksUp(v: View, id: string, f: Turn -> Turn, other: string)
    requires forall t: Turn :: f(t).id == t.id
    ensures Lookup(Update(v, id, f), other) ==
      if other == id && Lookup(v, id).Some? then Some(f(Lookup(v, id).value)) else Lookup(v, other)
  {
    FindFinds(v.turns, id);
    FindFinds(v.turns, other);
    SameIdsSameFind(v.turns, Update(v, id, f).turns, other);
  }

  lemma {:induction false} FindAppended(turns: seq<Turn>, t: Turn, id: string)
    ensures Find(turns + [t], id) ==
      if Find(turns, id) < |turns| then Find(turns, id) else if t.id == id then |turns| else |turns| + 1
  {
    if turns == [] {
    } else {
      assert (turns + [t])[1..] == turns[1..] + [t];
      FindAppended(turns[1..], t, id);
    }
  }

  /** Every event but a start of thread or a hydration keeps the thread, the order of the turns and every
      turn it does not name. Only the start of an unknown turn adds one, empty and active, at the end. */
  lemma EventsTouchOneTurn(v: View, e: Event)
    requires !Replaces(e)
    ensures var w := Reduce(v, e);
      && w.thread == v.thread
      && |v.turns| <= |w.turns|
      && (forall i :: 0 <= i < |v.turns| ==>
            && w.turns[i].id == v.turns[i].id && w.turns[i].userText == v.turns[i].userText
            && (!Names(e, v.turns[i].id) ==> w.turns[i] == v.turns[i]))
      && (|w.turns| > |v.turns| <==>
            e.TurnStarted? && forall i :: 0 <= i < |v.turns| ==> v.turns[i].id != e.turn)
      && (|w.turns| > |v.turns| ==>
            var t := w.turns[|v.turns|];
            && |w.turns| == |v.turns| + 1 && t.id == e.turn && Streaming(t, "")
            && t.userText == "" && t.tools == map[] && t.status == Active && t.error == t.usage == None
            && t.compaction.status == CompactionPending && !t.pressure)
  {
    if !e.NotAboutTurns? {
      FindFinds(v.turns, e.turn);
    }
  }

  lemma StartKeeps(v: View, turn: string, id: string)
    requires Lookup(v, id).Some?
    ensures Lookup(Reduce(v, TurnStarted(turn)), id) == Lookup(v, id)
  {
    FindFinds(v.turns, id);
    FindAppended(v.turns, FreshTurn(turn), id);
  }

  /** What an event that names a turn leaves alone, and what the two context events set. */
  lemma EventsSetTheirFields(v: View, e: Event, id: string)
    requires Lookup(v, id).Some? && !Replaces(e)
    ensures var t := Lookup(v, id).value;
      && Lookup(Reduce(v, e), id).Some?
      && var u := Lookup(Reduce(v, e), id).value;
      && u.id == t.id && u.userText == t.userText
      && (!e.ItemStarted? && !e.ItemCompleted? ==> u.tools == t.tools)
      && (!e.ItemUpdated? && !Ends(e, id) ==> Buffer(u) == Buffer(t))
      && (!Ends(e, id) ==> u.status == t.status && u.error == t.error && u.usage == t.usage)
      && (!Ends(e, id) && !(e.ContextCompacted? && e.turn == id) ==> u.compaction == t.compaction)
      && (e.ContextCompacted? && e.turn == id ==> u.compaction == CompactionView(Triggered, Some(e.info), false))
      && (!Ends(e, id) ==> (u.pressure <==> t.pressure || (e.ContextPressure? && e.turn == id)))
  {
    match e
    case TurnStarted(turn) => StartKeeps(v, turn, id);
    case ContextCompacted(turn, info) =>
      UpdateLooksUp(v, turn, (t: Turn) => t.(compaction := CompactionView(Triggered, Some(info), false)), id);
    case ContextPressure(turn) => UpdateLooksUp(v, turn, (t: Turn) => t.(pressure := true), id);
    case TurnCompleted(turn, finalText, counts) =>
      UpdateLooksUp(v, turn, (t: Turn) => Complete(t, finalText, counts), id);
    case TurnFailed(turn, message) => UpdateLooksUp(v, turn, (t: Turn) => Fail(t, message), id);
    case ItemStarted(turn, _, _, _, _) => UpdateLooksUp(v, turn, (t: Turn) => StartTool(t, e), id);
    case ItemCompleted(turn, _, _, _) => UpdateLooksUp(v, turn, (t: Turn) => FinishTool(t, e), id);
    case ItemUpdated(turn, delta) => UpdateLooksUp(v, turn, (t: Turn) => WithDelta(t, delta), id);
    case _ =>
  }

  // ---------------------------------------------------------------------------------------
  // Text.

  const EMPTY := LineBuffer([], "")

  /** The turn shows `text`, cut at its newlines, with the unfinished line apart. */
  predicate Streaming(t: Turn, text: string) { Buffer(t) == Push(EMPTY, text) }

  predicate Unbroken(lines: seq<string>) { forall i :: 0 <= i < |lines| ==> '\n' !in lines[i] }

  lemma StreamingMeans(t: Turn, text: string)
    requires Streaming(t, text)
    ensures Join(t.lines + [t.partial]) == text && Unbroken(t.lines) && '\n' !in t.partial
  {
    assert "" + text == text;
    SplitIsJoinsInverse(text);
    assert t.lines + [t.partial] == Split(text);
  }

  /** The deltas of one turn, in order. */
  function Deltas(events: seq<Event>, id: string): string {
    if events == [] then ""
    else
      var e := events[|events| - 1];
      Deltas(events[..|events| - 1], id) + if e.ItemUpdated? && e.turn == id then e.delta else ""
  }

  lemma TextStep(v: View, e: Event, id: string, text: string)
    requires Lookup(v, id).Some? && Streaming(Lookup(v, id).value, text)
    requires !Replaces(e) && !Ends(e, id)
    ensures Lookup(Reduce(v, e), id).Some?
    ensures Streaming(Lookup(Reduce(v, e), id).value, text + if e.ItemUpdated? && e.turn == id then e.delta else "")
  {
    EventsSetTheirFields(v, e, id);
    assert text + "" == text;
    if e.ItemUpdated? {
      UpdateLooksUp(v, e.turn, (t: Turn) => WithDelta(t, e.delta), id);
      PushPush(EMPTY, text, e.delta);
    }
  }

  /** While a turn runs it shows what it showed and then its deltas, whatever happens to other turns. */
  lemma {:induction false} TextIsDeltas(v: View, events: seq<Event>, id: string, text: string)
    requires Lookup(v, id).Some? && Streaming(Lookup(v, id).value, text)
    requires forall i :: 0 <= i < |events| ==> !Replaces(events[i]) && !Ends(events[i], id)
    ensures Lookup(ReduceAll(v, events), id).Some?
    ensures Streaming(Lookup(ReduceAll(v, events), id).value, text + Deltas(events, id))
  {
    if events == [] {
      assert text + "" == text;
    } else {
      var before, e := events[..|events| - 1], events[|events| - 1];
      TextIsDeltas(v, before, id, text);
      TextStep(ReduceAll(v, before), e, id, text + Deltas(before, id));
      ConcatAssociates(text, Deltas(before, id), if e.ItemUpdated? && e.turn == id then e.delta else "");
    }
  }

  /** The lines of a finished text: a newline at its end opens no line of its own. */
  predicate LinesShow(lines: seq<string>, text: string) {
    && Unbroken(lines)
    && (text == "" <==> lines == [])
    && (text != "" ==> Join(lines) + (if text[|text| - 1] == '\n' then "\n" else "") == text)
  }

  lemma {:induction false} JoinEmptyLine(lines: seq<string>)
    requires lines != []
    ensures Join(lines + [""]) == Join(lines) + "\n"
  {
    assert (lines + [""])[1..] == lines[1..] + [""];
    if |lines| > 1 {
      JoinEmptyLine(lines[1..]);
      ConcatAssociates(lines[0] + "\n", Join(lines[1..]), "\n");
    } else {
      assert Join([""]) == "";
    }
  }

  lemma {:induction false} JoinEnds(lines: seq<string>)
    requires lines != [] && Last(lines) != ""
    ensures Join(lines) != "" && Join(lines)[|Join(lines)| - 1] == Last(lines)[|Last(lines)| - 1]
  {
    if |lines| > 1 {
      JoinEnds(lines[1..]);
    }
  }

  lemma FlushedLinesShow(b: LineBuffer)
    requires Unbroken(b.committed) && '\n' !in b.partial
    ensures LinesShow(Flush(b).committed, Join(b.committed + [b.partial]))
  {
    if b.partial != "" {
      JoinEnds(b.committed + [b.partial]);
    } else if b.committed != [] {
      JoinEmptyLine(b.committed);
    }
  }

  lemma FlushShows(text: string)
    ensures LinesShow(Flush(Push(EMPTY, text)).committed, text)
  {
    assert "" + text == text;
    SplitIsJoinsInverse(text);
    var b := Push(EMPTY, text);
    assert b.committed + [b.partial] == Split(text);
    FlushedLinesShow(b);
  }

  predicate Settled(before: CompactionView, after: CompactionView) {
    if before.status == CompactionPending then after == CompactionView(Idle, None, false) else after == before
  }

  /** A completed turn shows its final text; the streamed text stays if there is none. */
  lemma CompletedShows(v: View, id: string, text: string, finalText: string, counts: Option<string>)
    requires Lookup(v, id).Some? && Streaming(Lookup(v, id).value, text)
    ensures Lookup(Reduce(v, TurnCompleted(id, finalText, counts)), id).Some?
    ensures var t, u := Lookup(v, id).value, Lookup(Reduce(v, TurnCompleted(id, finalText, counts)), id).value;
      && LinesShow(u.lines, if finalText != "" then finalText else text) && u.partial == ""
      && u.status == Completed && u.error == None && u.usage == counts
      && Settled(t.compaction, u.compaction) && !u.pressure && u.tools == t.tools && u.userText == t.userText
  {
    UpdateLooksUp(v, id, (t: Turn) => Complete(t, finalText, counts), id);
    FlushShows(text);
    FlushShows(finalText);
  }

  /** A failed turn keeps what was streamed and shows the error; usage reported before stays. */
  lemma FailedShows(v: View, id: string, text: string, message: string)
    requires Lookup(v, id).Some? && Streaming(Lookup(v, id).value, text)
    ensures Lookup(Reduce(v, TurnFailed(id, message)), id).Some?
    ensures var t, u := Lookup(v, id).value, Lookup(Reduce(v, TurnFailed(id, message)), id).value;
      && LinesShow(u.lines, text) && u.partial == ""
      && u.status == Failed && u.error == Some(message) && u.usage == t.usage
      && Settled(t.compaction, u.compaction) && !u.pressure && u.tools == t.tools && u.userText == t.userText
  {
    UpdateLooksUp(v, id, (t: Turn) => Fail(t, message), id);
    FlushShows(text);
  }

  /** From its start to its end a turn shows exactly its own deltas, between events of all other turns. */
  lemma TurnShowsItsDeltas(v: View, id: string, during: seq<Event>, counts: Option<string>)
    requires Lookup(v, id).None?
    requires forall i :: 0 <= i < |during| ==> !Replaces(during[i]) && !Ends(during[i], id)
    ensures var w := Reduce(ReduceAll(Reduce(v, TurnStarted(id)), during), TurnCompleted(id, "", counts));
      && Lookup(w, id).Some?
      && LinesShow(Lookup(w, id).value.lines, Deltas(during, id))
  {
    FindAppended(v.turns, FreshTurn(id), id);
    FindFinds(v.turns, id);
    TextIsDeltas(Reduce(v, TurnStarted(id)), during, id, "");
    assert "" + Deltas(during, id) == Deltas(during, id);
    CompletedShows(ReduceAll(Reduce(v, TurnStarted(id)), during), id, Deltas(during, id), "", counts);
  }

  // ---------------------------------------------------------------------------------------
  // Tools.

  function LastWith(events: seq<Event>, p: Event -> bool): (last: Option<Event>)
    ensures last.Some? ==> p(last.value)
  {
    if events == [] then None
    else if p(events[|events| - 1]) then Some(events[|events| - 1])
    else LastWith(events[..|events| - 1], p)
  }

  lemma {:induction false} LastWithIsLast(events: seq<Event>, p: Event -> bool)
    ensures LastWith(events, p).Some? <==> exists i :: 0 <= i < |events| && p(events[i])
    ensures LastWith(events, p).Some? ==>
      exists k :: 0 <= k < |events| && LastWith(events, p) == Some(events[k]) && p(events[k])
        && forall i :: k < i < |events| ==> !p(events[i])
  {
    if events != [] && !p(events[|events| - 1]) {
      LastWithIsLast(events[..|events| - 1], p);
    }
  }

  predicate StartsTool(e: Event, id: string, item: string) {
    e.ItemStarted? && e.isToolCall && e.turn == id && e.item == item
  }

  predicate FinishesTool(e: Event, id: string, item: string) {
    e.ItemCompleted? && e.isToolResult && e.turn == id && e.item == item
  }

  function Reports(id: string, item: string): Event -> bool {
    e => StartsTool(e, id, item) || FinishesTool(e, id, item)
  }

  function Results(id: string, item: string): Event -> bool { e => FinishesTool(e, id, item) }

  function Namings(id: string, item: string): Event -> bool { e => StartsTool(e, id, item) && e.name.Some? }

  function Arguings(id: string, item: string): Event -> bool { e => StartsTool(e, id, item) && e.arguments.Some? }

  /** A tool is shown as the latest word on each of its fields says. */
  predicate AsReported(t: Turn, events: seq<Event>, id: string, item: string) {
    var reported := LastWith(events, Reports(id, item));
    var result := LastWith(events, Results(id, item));
    var naming := LastWith(events, Namings(id, item));
    var arguing := LastWith(events, Arguings(id, item));
    && (item in t.tools <==> reported.Some?)
    && (item in t.tools ==>
          var tool := t.tools[item];
          && (tool.status == Done <==> reported.value.ItemCompleted?)
          && tool.content == (if result.Some? then Some(result.value.content) else None)
          && tool.name == (if naming.Some? then naming.value.name.value else "unknown")
          && tool.arguments == (if arguing.Some? then arguing.value.arguments else None))
  }

  lemma {:induction false} LastWithWeaker(events: seq<Event>, p: Event -> bool, q: Event -> bool)
    requires forall e :: p(e) ==> q(e)
    ensures LastWith(events, p).Some? ==> LastWith(events, q).Some?
  {
    if events != [] {
      LastWithWeaker(events[..|events| - 1], p, q);
    }
  }

  /** Only a reported tool has a name, arguments or a result. */
  lemma UnreportedIsUnknown(events: seq<Event>, id: string, item: string)
    requires LastWith(events, Reports(id, item)).None?
    ensures LastWith(events, Results(id, item)).None?
    ensures LastWith(events, Namings(id, item)).None? && LastWith(events, Arguings(id, item)).None?
  {
    LastWithWeaker(events, Results(id, item), Reports(id, item));
    LastWithWeaker(events, Namings(id, item), Reports(id, item));
    LastWithWeaker(events, Arguings(id, item), Reports(id, item));
  }

  lemma LastWithSnoc(before: seq<Event>, e: Event, p: Event -> bool)
    ensures LastWith(before + [e], p) == if p(e) then Some(e) else LastWith(before, p)
  {
    assert (before + [e])[..|before|] == before;
  }

  /** What one more event changes in the latest words on a tool. */
  lemma ReportStep(before: seq<Event>, e: Event, id: string, item: string)
    ensures LastWith(before + [e], Reports(id, item)) ==
      if StartsTool(e, id, item) || FinishesTool(e, id, item) then Some(e) else LastWith(before, Reports(id, item))
    ensures LastWith(before + [e], Results(id, item)) ==
      if FinishesTool(e, id, item) then Some(e) else LastWith(before, Results(id, item))
    ensures LastWith(before + [e], Namings(id, item)) ==
      if StartsTool(e, id, item) && e.name.Some? then Some(e) else LastWith(before, Namings(id, item))
    ensures LastWith(before + [e], Arguings(id, item)) ==
      if StartsTool(e, id, item) && e.arguments.Some? then Some(e) else LastWith(before, Arguings(id, item))
  {
    LastWithSnoc(before, e, Reports(id, item));
    LastWithSnoc(before, e, Results(id, item));
    LastWithSnoc(before, e, Namings(id, item));
    LastWithSnoc(before, e, Arguings(id, item));
  }

  lemma StartStep(t: Turn, before: seq<Event>, e: Event, id: string, item: string)
    requires AsReported(t, before, id, item) && e.ItemStarted? && e.isToolCall && e.turn == id
    ensures AsReported(StartTool(t, e), before + [e], id, item)
  {
    ReportStep(before, e, id, item);
    if item !in t.tools { UnreportedIsUnknown(before, id, item); }
  }

  lemma FinishStep(t: Turn, before: seq<Event>, e: Event, id: string, item: string)
    requires AsReported(t, before, id, item) && e.ItemCompleted? && e.isToolResult && e.turn == id
    ensures AsReported(FinishTool(t, e), before + [e], id, item)
  {
    ReportStep(before, e, id, item);
    if item !in t.tools { UnreportedIsUnknown(before, id, item); }
  }

  lemma ToolStep(v: View, before: seq<Event>, e: Event, id: string, item: string)
    requires Lookup(v, id).Some? && AsReported(Lookup(v, id).value, before, id, item) && !Replaces(e)
    ensures Lookup(Reduce(v, e), id).Some?
    ensures AsReported(Lookup(Reduce(v, e), id).value, before + [e], id, item)
  {
    var t := Lookup(v, id).value;
    EventsSetTheirFields(v, e, id);
    if e.ItemStarted? && e.isToolCall {
      UpdateLooksUp(v, e.turn, (t: Turn) => StartTool(t, e), id);
      if e.turn == id { StartStep(t, before, e, id, item); } else { ReportStep(before, e, id, item); }
    } else if e.ItemCompleted? && e.isToolResult {
      UpdateLooksUp(v, e.turn, (t: Turn) => FinishTool(t, e), id);
      if e.turn == id { FinishStep(t, before, e, id, item); } else { ReportStep(before, e, id, item); }
    } else {
      ReportStep(before, e, id, item);
    }
  }

  /** Whatever order starts and results come in, also after the turn has ended. */
  lemma {:induction false} ToolsAreAsReported(v: View, events: seq<Event>, id: string, item: string)
    requires Lookup(v, id).Some? && Lookup(v, id).value.tools == map[]
    requires forall i :: 0 <= i < |events| ==> !Replaces(events[i])
    ensures Lookup(ReduceAll(v, events), id).Some?
    ensures AsReported(Lookup(ReduceAll(v, events), id).value, events, id, item)
  {
    if events == [] {
    } else {
      var before, e := events[..|events| - 1], events[|events| - 1];
      ToolsAreAsReported(v, before, id, item);
      ToolStep(ReduceAll(v, before), before, e, id, item);
      assert before + [e] == events;
    }
  }

  // ---------------------------------------------------------------------------------------
  // Threads, hydration and the user's text.

  /** Another thread clears the turns; the same one, or the first, keeps them. */
  lemma ThreadStartedShows(v: View, thread: string)
    ensures var w := Reduce(v, ThreadStarted(thread));
      && w.thread == Some(thread)
      && (v.thread in {None, Some(thread)} ==> w.turns == v.turns)
      && (v.thread !in {None, Some(thread)} ==> w.turns == [])
  {}

  lemma HydrateShows(h: HydratedTurn)
    ensures LinesShow(Hydrate(h).lines, h.assistantText)
  {
    FlushShows(h.assistantText);
  }

  /** Hydration shows the turns of a stored session as completed; another thread's is ignored. */
  lemma HydratedShows(v: View, thread: string, hydrated: seq<HydratedTurn>)
    ensures var w := Reduce(v, SessionHydrated(thread, hydrated));
      && (v.thread !in {None, Some(thread)} ==> w == v)
      && (v.thread in {None, Some(thread)} ==>
            && w.thread == Some(thread) && |w.turns| == |hydrated|
            && forall i :: 0 <= i < |hydrated| ==>
              var t, h := w.turns[i], hydrated[i];
              && t.id == h.id && t.userText == h.userText && LinesShow(t.lines, h.assistantText) && t.partial == ""
              && t.tools == map[] && t.status == Completed && t.error == t.usage == None && !t.pressure
              && t.compaction.detail == None && t.compaction.hydrated == h.wasCompacted
              && (t.compaction.status == Triggered <==> h.wasCompacted)
              && (t.compaction.status == Idle <==> !h.wasCompacted))
  {
    forall i | 0 <= i < |hydrated|
      ensures LinesShow(Hydrate(hydrated[i]).lines, hydrated[i].assistantText)
    {
      HydrateShows(hydrated[i]);
    }
  }

  /** Text the user typed is given to the turn that starts next, exactly once. */
  lemma QueuedTextReachesTurn(h: Hook, id: string)
    ensures var after := Next(h, Arrives(TurnStarted(id)));
      && Lookup(after.view, id).Some? && after.queuedInput == None
      && (h.queuedInput.Some? ==> Lookup(after.view, id).value.userText == h.queuedInput.value)
      && (h.queuedInput.None? && Lookup(Batch(h.view, h.pending), id).None? ==>
            Lookup(after.view, id).value.userText == "")
  {
    var v := Batch(h.view, h.pending);
    FindAppended(v.turns, FreshTurn(id), id);
    FindFinds(v.turns, id);
    if h.queuedInput.Some? {
      UpdateLooksUp(Reduce(v, TurnStarted(id)), id, (t: Turn) => t.(userText := h.queuedInput.value), id);
    }
  }

  predicate EmptiesSlot(tick: Tick) {
    (tick.Arrives? && tick.event.TurnStarted?) || tick.InputTimesOut? || tick.Emptied?
  }

  /** Text `j` was typed, and since then no turn started, no timeout fired and the events were not emptied. */
  ghost predicate StillWaits(ticks: seq<Tick>, j: nat) {
    j < |ticks| && ticks[j].InputQueued? && forall i :: j < i < |ticks| ==> !EmptiesSlot(ticks[i])
  }

  lemma StillWaitsSnoc(ticks: seq<Tick>, tick: Tick, j: nat)
    ensures StillWaits(ticks + [tick], j) <==>
      (StillWaits(ticks, j) && !EmptiesSlot(tick)) || (j == |ticks| && tick.InputQueued?)
  {
    assert (ticks + [tick])[|ticks|] == tick;
    assert j < |ticks| ==> (ticks + [tick])[j] == ticks[j];
    assert forall i :: 0 <= i < |ticks| ==> (ticks + [tick])[i] == ticks[i];
  }

  ghost predicate FirstWaiting(ticks: seq<Tick>, j: nat) {
    StillWaits(ticks, j) && forall i: nat :: i < j ==> !StillWaits(ticks, i)
  }

  /** The slot is empty exactly if no typed text still waits; otherwise it holds the first that does. */
  lemma {:induction false} SlotHoldsFirstWaiting(ticks: seq<Tick>, j: nat)
    ensures After(ticks).queuedInput.None? ==> !StillWaits(ticks, j)
    ensures After(ticks).queuedInput.Some? ==> exists i: nat :: StillWaits(ticks, i)
    ensures FirstWaiting(ticks, j) ==> After(ticks).queuedInput == Some(ticks[j].text)
  {
    if ticks == [] {
    } else {
      var before, last := ticks[..|ticks| - 1], ticks[|ticks| - 1];
      assert ticks == before + [last];
      SlotHoldsFirstWaiting(before, j);
      StillWaitsSnoc(before, last, j);
      if i: nat :| StillWaits(before, i) {
        StillWaitsSnoc(before, last, i);
      }
      if last.InputQueued? {
        StillWaitsSnoc(before, last, |before|);
      }
      if FirstWaiting(ticks, j) {
        forall i: nat | i < j
          ensures !StillWaits(before, i)
        {
          StillWaitsSnoc(before, last, i);
        }
      }
    }
  }
}
