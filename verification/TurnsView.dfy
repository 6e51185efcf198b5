/** The terminal view of a conversation: a reducer over protocol events, and the hook that buffers text
    deltas per turn before it dispatches them (tui/src/hooks/useTurns.ts, useLineBuffer.ts). */
module TurnsView {
  import opened Prelude

  // ---------------------------------------------------------------------------------------
  // Line buffer.

  datatype LineBuffer = LineBuffer(committed: seq<string>, partial: string)

  /** `text.split("\n")`: never empty. */
  function Split(s: string): (parts: seq<string>)
    ensures parts != []
  {
    if s == "" then [""]
    else if s[0] == '\n' then [""] + Split(s[1..])
    else var rest := Split(s[1..]); [[s[0]] + rest[0]] + rest[1..]
  }

  function Push(b: LineBuffer, delta: string): LineBuffer {
    var segments := Split(b.partial + delta);
    LineBuffer(b.committed + Init(segments), Last(segments))
  }

  function Flush(b: LineBuffer): LineBuffer {
    LineBuffer(if |b.partial| > 0 then b.committed + [b.partial] else b.committed, "")
  }

  function Join(parts: seq<string>): string
    requires parts != []
  {
    if |parts| == 1 then parts[0] else parts[0] + "\n" + Join(parts[1..])
  }

  lemma JoinBreak(rest: seq<string>)
    requires rest != []
    ensures Join([""] + rest) == "\n" + Join(rest)
  {
    assert ([""] + rest)[1..] == rest;
  }

  lemma JoinCons(c: char, rest: seq<string>)
    requires rest != []
    ensures Join([[c] + rest[0]] + rest[1..]) == [c] + Join(rest)
  {
    assert ([[c] + rest[0]] + rest[1..])[1..] == rest[1..];
  }

  /** Splitting cuts at every newline and loses nothing. */
  lemma {:induction false} SplitIsJoinsInverse(s: string)
    ensures Join(Split(s)) == s
    ensures forall i :: 0 <= i < |Split(s)| ==> '\n' !in Split(s)[i]
  {
    if s == "" {
    } else {
      SplitIsJoinsInverse(s[1..]);
      var rest := Split(s[1..]);
      if s[0] == '\n' {
        JoinBreak(rest);
        assert s == "\n" + s[1..];
      } else {
        JoinCons(s[0], rest);
        assert s == [s[0]] + s[1..];
      }
    }
  }

  lemma SplitCons(c: char, s: string)
    ensures Split([c] + s) ==
      if c == '\n' then [""] + Split(s) else [[c] + Split(s)[0]] + Split(s)[1..]
  {
    assert ([c] + s)[1..] == s;
  }

  function Init(parts: seq<string>): seq<string>
    requires parts != []
  {
    parts[..|parts| - 1]
  }

  function Last(parts: seq<string>): string
    requires parts != []
  {
    parts[|parts| - 1]
  }

  /** Prefixing a character works the same on both sides of a cut. */
  lemma ConsKeepsCut(c: char, rest: seq<string>, tail: seq<string>)
    requires rest != [] && tail != []
    ensures var whole := Init(rest) + tail;
      && (c == '\n' ==> [""] + whole == Init([""] + rest) + tail && Last([""] + rest) == Last(rest))
      && (|rest| > 1 ==>
            && [[c] + whole[0]] + whole[1..] == Init([[c] + rest[0]] + rest[1..]) + tail
            && Last([[c] + rest[0]] + rest[1..]) == Last(rest))
  {}

  /** Splitting a concatenation splits the second text behind the last part of the first. */
  lemma {:induction false} SplitConcat(a: string, b: string)
    ensures Split(a + b) == Init(Split(a)) + Split(Last(Split(a)) + b)
    decreases a
  {
    if a == "" {
      assert a + b == b && "" + b == b;
    } else {
      var c, rest := a[0], Split(a[1..]);
      SplitConcat(a[1..], b);
      assert a == [c] + a[1..] && a + b == [c] + (a[1..] + b);
      SplitCons(c, a[1..]);
      SplitCons(c, a[1..] + b);
      ConsKeepsCut(c, rest, Split(Last(rest) + b));
      if c != '\n' && |rest| == 1 {
        assert Split(a[1..] + b) == Split(rest[0] + b);
        SplitLastPart(c, a[1..], b, rest[0]);
        assert Split(a) == [[c] + rest[0]];
      }
    }
  }

  lemma SplitLastPart(c: char, s: string, b: string, part: string)
    requires c != '\n' && Split(s + b) == Split(part + b)
    ensures Split([c] + (s + b)) == Split([c] + part + b)
  {
    SplitCons(c, s + b);
    SplitCons(c, part + b);
    assert [c] + part + b == [c] + (part + b);
  }

  /** Two pushes are one push of the concatenated text. */
  lemma PushPush(b: LineBuffer, d1: string, d2: string)
    ensures Push(Push(b, d1), d2) == Push(b, d1 + d2)
  {
    var once := Split(b.partial + d1);
    SplitConcat(b.partial + d1, d2);
    assert b.partial + d1 + d2 == b.partial + (d1 + d2);
    var twice := Split(Last(once) + d2);
    assert Init(Init(once) + twice) == Init(once) + Init(twice) && Last(Init(once) + twice) == Last(twice);
    assert b.committed + (Init(once) + Init(twice)) == b.committed + Init(once) + Init(twice);
  }

  // ---------------------------------------------------------------------------------------
  // State and events.

  datatype ToolStatus = Pending | Done

  datatype ToolCall = ToolCall(name: string, arguments: Option<string>, status: ToolStatus, content: Option<string>)

  datatype TurnStatus = Active | Completed | Failed

  datatype CompactionStatus = CompactionPending | Triggered | Idle

  datatype CompactionView = CompactionView(status: CompactionStatus, detail: Option<string>, hydrated: bool)

  datatype Turn = Turn(
    id: string, userText: string, lines: seq<string>, partial: string, tools: map<string, ToolCall>,
    status: TurnStatus, error: Option<string>, usage: Option<string>, compaction: CompactionView, pressure: bool)

  datatype View = View(thread: Option<string>, turns: seq<Turn>)

  const INITIAL := View(None, [])

  datatype HydratedTurn = HydratedTurn(id: string, userText: string, assistantText: string, wasCompacted: bool)

  datatype Event =
    | ThreadStarted(thread: string)
    | TurnStarted(turn: string)
    | ContextCompacted(turn: string, info: string)
    | ContextPressure(turn: string)
    | TurnCompleted(turn: string, finalText: string, counts: Option<string>)
    | TurnFailed(turn: string, message: string)
    | ItemStarted(turn: string, item: string, isToolCall: bool, name: Option<string>, arguments: Option<string>)
    | ItemCompleted(turn: string, item: string, isToolResult: bool, content: string)
    | SessionHydrated(thread: string, hydrated: seq<HydratedTurn>)
    | ItemUpdated(turn: string, delta: string)
    | NotAboutTurns      // approval requests, session lists and status, slash replies, session errors

  function Or<T>(a: Option<T>, b: Option<T>): Option<T> { if a.Some? then a else b }

  function FinalLines(text: string): seq<string> { Flush(Push(LineBuffer([], ""), text)).committed }

  function Hydrate(h: HydratedTurn): Turn {
    var lines := if |h.assistantText| > 0 then FinalLines(h.assistantText) else [];
    Turn(h.id, h.userText, lines, "", map[], Completed, None, None,
         CompactionView(if h.wasCompacted then Triggered else Idle, None, h.wasCompacted), false)
  }

  /** `findIndex`; the length when absent. */
  function Find(turns: seq<Turn>, id: string): nat {
    if turns == [] then 0 else if turns[0].id == id then 0 else 1 + Find(turns[1..], id)
  }

  function Update(v: View, id: string, f: Turn -> Turn): View {
    var i := Find(v.turns, id);
    if i < |v.turns| then v.(turns := v.turns[i := f(v.turns[i])]) else v
  }

  function Buffer(t: Turn): LineBuffer { LineBuffer(t.lines, t.partial) }

  function SettleCompaction(c: CompactionView): CompactionView {
    if c.status == CompactionPending then CompactionView(Idle, None, false) else c
  }

  function WithDelta(t: Turn, delta: string): Turn {
    t.(lines := Push(Buffer(t), delta).committed, partial := Push(Buffer(t), delta).partial)
  }

  function ApplyDelta(v: View, id: string, delta: string): View {
    if delta == "" then v else Update(v, id, (t: Turn) => WithDelta(t, delta))
  }

  function StartTool(t: Turn, e: Event): Turn
    requires e.ItemStarted?
  {
    var existing := if e.item in t.tools then Some(t.tools[e.item]) else None;
    var oldName := if existing.Some? then Some(existing.value.name) else None;
    var oldArguments := if existing.Some? then existing.value.arguments else None;
    var name := Or(Or(e.name, oldName), Some("unknown")).value;
    t.(tools := t.tools[e.item := ToolCall(name, Or(e.arguments, oldArguments), Pending,
                                           if existing.Some? then existing.value.content else None)])
  }

  function FinishTool(t: Turn, e: Event): Turn
    requires e.ItemCompleted?
  {
    var existing := if e.item in t.tools then Some(t.tools[e.item]) else None;
    t.(tools := t.tools[e.item := ToolCall(if existing.Some? then existing.value.name else "unknown",
                                           if existing.Some? then existing.value.arguments else None,
                                           Done, Some(e.content))])
  }

  function Complete(t: Turn, finalText: string, counts: Option<string>): Turn {
    t.(lines := if |finalText| > 0 then FinalLines(finalText) else Flush(Buffer(t)).committed, partial := "",
       status := Completed, error := None, usage := counts, compaction := SettleCompaction(t.compaction),
           pressure := false)
  }

  function Fail(t: Turn, message: string): Turn {
    t.(lines := Flush(Buffer(t)).committed, partial := "", status := Failed, error := Some(message),
       compaction := SettleCompaction(t.compaction), pressure := false)
  }

  function FreshTurn(id: string): Turn {
    Turn(id, "", [], "", map[], Active, None, None, CompactionView(CompactionPending, None, false), false)
  }

  /** `reduceTurns`. */
  function Reduce(v: View, e: Event): View {
    match e
    case ThreadStarted(thread) =>
      if v.thread.Some? && v.thread.value != thread then View(Some(thread), []) else v.(thread := Some(thread))
    case TurnStarted(id) => if Find(v.turns, id) < |v.turns| then v else v.(turns := v.turns + [FreshTurn(id)])
    case ContextCompacted(id, info) =>
      Update(v, id, (t: Turn) => t.(compaction := CompactionView(Triggered, Some(info), false)))
    case ContextPressure(id) => Update(v, id, (t: Turn) => t.(pressure := true))
    case TurnCompleted(id, finalText, counts) => Update(v, id, (t: Turn) => Complete(t, finalText, counts))
    case TurnFailed(id, message) => Update(v, id, (t: Turn) => Fail(t, message))
    case ItemStarted(id, _, isToolCall, _, _) => if isToolCall then Update(v, id, (t: Turn) => StartTool(t, e)) else v
    case ItemCompleted(id, _, isToolResult, _) =>
      if isToolResult then Update(v, id, (t: Turn) => FinishTool(t, e)) else v
    case SessionHydrated(thread, hydrated) =>
      if v.thread.Some? && v.thread.value != thread then v
      else View(Some(thread), seq(|hydrated|, i requires 0 <= i < |hydrated| => Hydrate(hydrated[i])))
    case ItemUpdated(id, delta) => ApplyDelta(v, id, delta)
    case NotAboutTurns => v
  }

  /** `reduceTurnsSequence`. */
  function ReduceAll(v: View, events: seq<Event>): View {
    if events == [] then v else Reduce(ReduceAll(v, events[..|events| - 1]), events[|events| - 1])
  }

  function SetUserText(v: View, id: string, text: string): View { Update(v, id, (t: Turn) => t.(userText := text)) }

  // ---------------------------------------------------------------------------------------
  // The hook.

  /** Buffered deltas, one entry per turn, in the order the turns first appeared. */
  type Updates = seq<(string, string)>

  function Accumulate(pending: Updates, id: string, delta: string): Updates {
    if pending == [] then [(id, delta)]
    else if pending[0].0 == id then [(id, pending[0].1 + delta)] + pending[1..]
    else [pending[0]] + Accumulate(pending[1..], id, delta)
  }

  /** The batch action: the buffered deltas, entry by entry. */
  function Batch(v: View, updates: Updates): View
    decreases |updates|
  {
    if updates == [] then v else Batch(ApplyDelta(v, updates[0].0, updates[0].1), updates[1..])
  }

  datatype Hook = Hook(view: View, pending: Updates, queuedInput: Option<string>, started: bool)

  /** What can happen to the hook, in any order: an event is processed, the scheduled flush fires, the
      user types, the typed input times out, a caller sets a turn's text, the event list is emptied. */
  datatype Tick =
    | Arrives(event: Event)
    | FlushFires
    | InputQueued(text: string)
    | InputTimesOut
    | TextSet(turn: string, text: string)
    | Emptied

  function Flushed(h: Hook): Hook { h.(view := Batch(h.view, h.pending), pending := []) }

  function Next(h: Hook, tick: Tick): Hook {
    match tick
    case Arrives(event) =>
      if event.ItemUpdated? then h.(pending := Accumulate(h.pending, event.turn, event.delta), started := true)
      else
        var reduced := Flushed(h).(view := Reduce(Flushed(h).view, event), started := true);
        if !event.TurnStarted? then reduced
        else if h.queuedInput.Some? then
          reduced.(view := SetUserText(reduced.view, event.turn, h.queuedInput.value), queuedInput := None)
        else reduced
    case FlushFires => Flushed(h)
    case InputQueued(text) => if h.queuedInput.Some? then h else h.(queuedInput := Some(text))
    case InputTimesOut => h.(queuedInput := None)
    case TextSet(turn, text) => h.(view := SetUserText(h.view, turn, text))
    case Emptied => Hook(if h.started then INITIAL else h.view, [], None, false)
  }

  function After(ticks: seq<Tick>): Hook {
    if ticks == [] then Hook(INITIAL, [], None, false) else Next(After(ticks[..|ticks| - 1]), ticks[|ticks| - 1])
  }

  /** The raw stream since the list was last emptied. */
  function Arrived(ticks: seq<Tick>): seq<Event> {
    if ticks == [] then []
    else
      var before, last := Arrived(ticks[..|ticks| - 1]), ticks[|ticks| - 1];
      if last.Arrives? then before + [last.event] else if last.Emptied? then [] else before
  }

  // ---------------------------------------------------------------------------------------
  // Deltas coalesce and commute.

  lemma {:induction false} FindFinds(turns: seq<Turn>, id: string)
    ensures Find(turns, id) <= |turns|
    ensures Find(turns, id) < |turns| ==> turns[Find(turns, id)].id == id
    ensures forall i :: 0 <= i < Find(turns, id) ==> turns[i].id != id
  {
    if turns != [] && turns[0].id != id {
      FindFinds(turns[1..], id);
    }
  }

  /** Lookups only see the ids. */
  lemma {:induction false} SameIdsSameFind(a: seq<Turn>, b: seq<Turn>, id: string)
    requires |a| == |b| && forall i :: 0 <= i < |a| ==> a[i].id == b[i].id
    ensures Find(a, id) == Find(b, id)
  {
    if a == [] {
    } else {
      SameIdsSameFind(a[1..], b[1..], id);
    }
  }

  lemma DeltasCoalesce(v: View, id: string, d1: string, d2: string)
    ensures ApplyDelta(ApplyDelta(v, id, d1), id, d2) == ApplyDelta(v, id, d1 + d2)
  {
    var i := Find(v.turns, id);
    FindFinds(v.turns, id);
    SameIdsSameFind(v.turns, ApplyDelta(v, id, d1).turns, id);
    assert d1 == "" ==> d1 + d2 == d2;
    assert d2 == "" ==> d1 + d2 == d1;
    if i < |v.turns| {
      PushPush(Buffer(v.turns[i]), d1, d2);
    }
  }

  lemma DeltasCommute(v: View, id1: string, d1: string, id2: string, d2: string)
    requires id1 != id2
    ensures ApplyDelta(ApplyDelta(v, id1, d1), id2, d2) == ApplyDelta(ApplyDelta(v, id2, d2), id1, d1)
  {
    FindFinds(v.turns, id1);
    FindFinds(v.turns, id2);
    SameIdsSameFind(v.turns, ApplyDelta(v, id1, d1).turns, id2);
    SameIdsSameFind(v.turns, ApplyDelta(v, id2, d2).turns, id1);
    assert ApplyDelta(ApplyDelta(v, id1, d1), id2, d2).turns == ApplyDelta(ApplyDelta(v, id2, d2), id1, d1).turns;
  }

  ghost predicate DistinctTurns(pending: Updates) {
    forall i, j :: 0 <= i < j < |pending| ==> pending[i].0 != pending[j].0
  }

  lemma {:induction false} DeltaPassesBatch(v: View, rest: Updates, id: string, delta: string)
    requires forall i :: 0 <= i < |rest| ==> rest[i].0 != id
    ensures Batch(ApplyDelta(v, id, delta), rest) == ApplyDelta(Batch(v, rest), id, delta)
    decreases |rest|
  {
    if rest == [] {
    } else {
      DeltasCommute(v, id, delta, rest[0].0, rest[0].1);
      DeltaPassesBatch(ApplyDelta(v, rest[0].0, rest[0].1), rest[1..], id, delta);
    }
  }

  /** Buffering one more delta is the same as applying it after the buffered ones. */
  lemma {:induction false} BufferingIsApplying(v: View, pending: Updates, id: string, delta: string)
    requires DistinctTurns(pending)
    ensures Batch(v, Accumulate(pending, id, delta)) == ApplyDelta(Batch(v, pending), id, delta)
    decreases |pending|
  {
    if pending == [] {
      assert Accumulate(pending, id, delta)[1..] == [];
    } else if pending[0].0 == id {
      assert Accumulate(pending, id, delta)[1..] == pending[1..];
      DeltasCoalesce(v, id, pending[0].1, delta);
      DeltaPassesBatch(ApplyDelta(v, id, pending[0].1), pending[1..], id, delta);
    } else {
      assert Accumulate(pending, id, delta)[1..] == Accumulate(pending[1..], id, delta);
      BufferingIsApplying(ApplyDelta(v, pending[0].0, pending[0].1), pending[1..], id, delta);
    }
  }

  lemma {:induction false} AccumulateStaysDistinct(pending: Updates, id: string, delta: string)
    requires DistinctTurns(pending)
    ensures DistinctTurns(Accumulate(pending, id, delta))
    ensures forall i :: 0 <= i < |Accumulate(pending, id, delta)| ==>
      var turn := Accumulate(pending, id, delta)[i].0;
      turn == id || exists j :: 0 <= j < |pending| && pending[j].0 == turn
    decreases |pending|
  {
    if pending != [] && pending[0].0 != id {
      AccumulateStaysDistinct(pending[1..], id, delta);
    }
  }

  // ---------------------------------------------------------------------------------------
  // The user's own text is outside the comparison.

  function EraseTurn(t: Turn): Turn { t.(userText := "") }

  function Erase(v: View): View { v.(turns := seq(|v.turns|, i requires 0 <= i < |v.turns| => EraseTurn(v.turns[i]))) }

  lemma UpdateErases(a: View, b: View, id: string, f: Turn -> Turn, g: Turn -> Turn)
    requires Erase(a) == Erase(b)
    requires forall s, t :: EraseTurn(s) == EraseTurn(t) ==> EraseTurn(f(s)) == EraseTurn(g(t))
    ensures Erase(Update(a, id, f)) == Erase(Update(b, id, g))
  {
    assert |a.turns| == |Erase(a).turns| == |Erase(b).turns| == |b.turns|;
    forall i | 0 <= i < |a.turns|
      ensures EraseTurn(a.turns[i]) == EraseTurn(b.turns[i])
    {
      assert Erase(a).turns[i] == Erase(b).turns[i];
    }
    SameIdsSameFind(a.turns, b.turns, id);
    assert Erase(Update(a, id, f)).turns == Erase(Update(b, id, g)).turns;
  }

  /** No event reads the user's text. */
  lemma ReduceErases(a: View, b: View, e: Event)
    requires Erase(a) == Erase(b)
    ensures Erase(Reduce(a, e)) == Erase(Reduce(b, e))
  {
    assert |a.turns| == |Erase(a).turns| == |Erase(b).turns| == |b.turns|;
    match e
    case TurnStarted(id) =>
      forall i | 0 <= i < |a.turns|
        ensures EraseTurn(a.turns[i]) == EraseTurn(b.turns[i])
      {
        assert Erase(a).turns[i] == Erase(b).turns[i];
      }
      SameIdsSameFind(a.turns, b.turns, id);
      assert Erase(Reduce(a, e)).turns == Erase(Reduce(b, e)).turns;
    case ContextCompacted(id, info) =>
      var f := (t: Turn) => t.(compaction := CompactionView(Triggered, Some(info), false));
      UpdateErases(a, b, id, f, f);
    case ContextPressure(id) =>
      var f := (t: Turn) => t.(pressure := true);
      UpdateErases(a, b, id, f, f);
    case TurnCompleted(id, finalText, counts) =>
      var f := (t: Turn) => Complete(t, finalText, counts);
      UpdateErases(a, b, id, f, f);
    case TurnFailed(id, message) =>
      var f := (t: Turn) => Fail(t, message);
      UpdateErases(a, b, id, f, f);
    case ItemStarted(id, _, _, _, _) =>
      var f := (t: Turn) => StartTool(t, e);
      UpdateErases(a, b, id, f, f);
    case ItemCompleted(id, _, _, _) =>
      var f := (t: Turn) => FinishTool(t, e);
      UpdateErases(a, b, id, f, f);
    case ItemUpdated(id, delta) =>
      var f := (t: Turn) => WithDelta(t, delta);
      UpdateErases(a, b, id, f, f);
    case _ =>
  }

  lemma {:induction false} BatchErases(a: View, b: View, updates: Updates)
    requires Erase(a) == Erase(b)
    ensures Erase(Batch(a, updates)) == Erase(Batch(b, updates))
    decreases |updates|
  {
    if updates == [] {
    } else {
      ReduceErases(a, b, ItemUpdated(updates[0].0, updates[0].1));
      BatchErases(ApplyDelta(a, updates[0].0, updates[0].1), ApplyDelta(b, updates[0].0, updates[0].1), updates[1..]);
    }
  }

  lemma SetUserTextErases(v: View, id: string, text: string)
    ensures Erase(SetUserText(v, id, text)) == Erase(v)
  {
    var set_ := (t: Turn) => t.(userText := text);
    var keep := (t: Turn) => t;
    UpdateErases(v, v, id, set_, keep);
    assert Update(v, id, keep).turns == v.turns;
  }

  // ---------------------------------------------------------------------------------------
  // Coalescing preserves meaning.

  /** At every moment, the dispatched state with the buffered deltas applied is the reduction of the raw
      stream, up to the user's text. */
  ghost predicate Inv(h: Hook, events: seq<Event>) {
    && DistinctTurns(h.pending)
    && Erase(Batch(h.view, h.pending)) == Erase(ReduceAll(INITIAL, events))
    && (!h.started ==> events == [] && h.pending == [] && h.view == INITIAL)
  }

  lemma ArrivalKeeps(h: Hook, events: seq<Event>, event: Event)
    requires Inv(h, events)
    ensures Inv(Next(h, Arrives(event)), events + [event])
  {
    var raw := ReduceAll(INITIAL, events);
    assert (events + [event])[..|events|] == events;
    ReduceErases(Batch(h.view, h.pending), raw, event);
    if event.ItemUpdated? {
      BufferingIsApplying(h.view, h.pending, event.turn, event.delta);
      AccumulateStaysDistinct(h.pending, event.turn, event.delta);
    } else if event.TurnStarted? && h.queuedInput.Some? {
      SetUserTextErases(Reduce(Batch(h.view, h.pending), event), event.turn, h.queuedInput.value);
    }
  }

  lemma {:induction false} CoalescingInv(ticks: seq<Tick>)
    ensures Inv(After(ticks), Arrived(ticks))
  {
    if ticks == [] {
    } else {
      var before, last := ticks[..|ticks| - 1], ticks[|ticks| - 1];
      CoalescingInv(before);
      var h := After(before);
      match last {
        case Arrives(event) => ArrivalKeeps(h, Arrived(before), event);
        case TextSet(turn, text) =>
          SetUserTextErases(h.view, turn, text);
          BatchErases(SetUserText(h.view, turn, text), h.view, h.pending);
        case _ =>
      }
    }
  }

  /** For every sequence of events and every flush schedule: once the buffer is flushed, the dispatched
      state is what reducing the raw events one by one gives, up to the user's text. */
  lemma CoalescingPreservesMeaning(ticks: seq<Tick>)
    ensures var h := After(ticks + [FlushFires]);
      && h.pending == []
      && Erase(h.view) == Erase(ReduceAll(INITIAL, Arrived(ticks)))
  {
    CoalescingInv(ticks);
    assert (ticks + [FlushFires])[..|ticks|] == ticks;
  }

  // ---------------------------------------------------------------------------------------
  // The code: refs and a map updated by the effect.

  class TurnsHook {
    var view: View
    var pending: Updates
    var queuedInput: Option<string>
    var started: bool

    function State(): Hook
      reads this
    {
      Hook(view, pending, queuedInput, started)
    }

    constructor ()
      ensures State() == After([])
    {
      view, pending, queuedInput, started := INITIAL, [], None, false;
    }

    /** `flushPendingItemUpdates`: empty deltas are dropped, the rest is dispatched as one batch. */
    method FlushPendingItemUpdates()
      modifies this
      ensures State() == Flushed(old(State()))
    {
      var updates := NonemptyUpdates();
      pending := [];
      DispatchBatch(updates);
    }

    method NonemptyUpdates() returns (updates: Updates)
      ensures Batch(view, updates) == Batch(view, pending)
    {
      updates := [];
      assert updates + pending[0..] == pending;
      for i := 0 to |pending|
        invariant Batch(view, updates + pending[i..]) == Batch(view, pending)
      {
        assert pending[i..] == [pending[i]] + pending[i + 1..];
        if |pending[i].1| > 0 {
          assert updates + pending[i..] == updates + [pending[i]] + pending[i + 1..];
          updates := updates + [pending[i]];
        } else {
          BatchSkips(view, updates, pending[i..]);
        }
      }
      assert updates + pending[|pending|..] == updates;
    }

    /** The reducer's batch action. */
    method DispatchBatch(updates: Updates)
      modifies this`view
      ensures view == Batch(old(view), updates)
    {
      for i := 0 to |updates|
        invariant Batch(view, updates[i..]) == Batch(old(view), updates)
      {
        assert updates[i..][0] == updates[i] && updates[i..][1..] == updates[i + 1..];
        view := ApplyDelta(view, updates[i].0, updates[i].1);
      }
    }

    /** The effect when the event list is empty: a session was closed or replaced. */
    method ProcessEmptied()
      modifies this
      ensures State() == Next(old(State()), Emptied)
    {
      pending := [];
      queuedInput := None;
      if started { view := INITIAL; }
      started := false;
    }

    /** `queueUserInput`: the slot holds one text; a second one is refused until a turn starts or the
        timeout empties the slot. */
    method QueueUserInput(text: string) returns (accepted: bool)
      modifies this
      ensures accepted == old(queuedInput).None?
      ensures State() == Next(old(State()), InputQueued(text))
    {
      accepted := queuedInput.None?;
      if accepted { queuedInput := Some(text); }
    }

    /** The effect's loop over the events not processed yet. */
    method ProcessEvents(events: seq<Event>, ghost earlier: seq<Tick>) returns (ghost ticks: seq<Tick>)
      requires State() == After(earlier)
      modifies this
      ensures |ticks| == |earlier| + |events| && earlier <= ticks
      ensures forall i :: 0 <= i < |events| ==> ticks[|earlier| + i] == Arrives(events[i])
      ensures State() == After(ticks)
    {
      ticks := earlier;
      for n := 0 to |events|
        invariant |ticks| == |earlier| + n && earlier <= ticks
        invariant forall i :: 0 <= i < n ==> ticks[|earlier| + i] == Arrives(events[i])
        invariant State() == After(ticks)
      {
        var event := events[n];
        assert (ticks + [Arrives(event)])[..|ticks|] == ticks;
        ticks := ticks + [Arrives(event)];
        started := true;
        if event.ItemUpdated? {
          pending := Accumulate(pending, event.turn, event.delta);
        } else {
          FlushPendingItemUpdates();
          view := Reduce(view, event);
          if event.TurnStarted? {
            var text := queuedInput;
            queuedInput := None;
            if text.Some? { view := SetUserText(view, event.turn, text.value); }
          }
        }
      }
    }
  }

  lemma {:induction false} BatchSkips(v: View, updates: Updates, rest: Updates)
    requires rest != [] && rest[0].1 == ""
    ensures Batch(v, updates + rest) == Batch(v, updates + rest[1..])
    decreases |updates|
  {
    if updates == [] {
      assert updates + rest == rest && updates + rest[1..] == rest[1..];
    } else {
      assert (updates + rest)[1..] == updates[1..] + rest && (updates + rest[1..])[1..] == updates[1..] + rest[1..];
      BatchSkips(ApplyDelta(v, updates[0].0, updates[0].1), updates[1..], rest);
    }
  }
}
