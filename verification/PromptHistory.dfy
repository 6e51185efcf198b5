/** Prompt items, FIFO pairing of function calls with their outputs, and the normalisation that
    every prompt goes through before it reaches the model (pycodex/core/session.py). */
module PromptHistory {
  import opened Prelude
  import Sorting

  datatype SkillTag = SkillTag(name: string, path: Option<string>, reason: Option<string>)

  /** One prompt item. `Malformed` stands for a stored object with neither a role nor the
      function-call type; it can only come out of a damaged ledger. */
  datatype Item =
    | User(text: string, skill: Option<SkillTag>)
    | Assistant(text: string)
    | System(text: string)
    | ToolResult(callId: string, content: string)
    | FunctionCall(callId: string, name: string, arguments: string)
    | Malformed

  const MISSING_TOOL_OUTPUT := "aborted"

  function Placeholder(id: string): Item { ToolResult(id, MISSING_TOOL_OUTPUT) }

  predicate Opens(item: Item, id: string) { item.FunctionCall? && item.callId == id }

  predicate Closes(item: Item, id: string) { item.ToolResult? && item.callId == id }

  // ---------------------------------------------------------------------------------------
  // The counting specification of FIFO pairing.

  /** How many calls of `id` wait after scanning `h`, when `q` of them waited before it. An output
      with nothing to answer is skipped. */
  function Waiting(h: seq<Item>, id: string, q: nat): nat {
    if h == [] then q
    else Waiting(h[1..], id, if Opens(h[0], id) then q + 1 else if Closes(h[0], id) && q > 0 then q - 1 else q)
  }

  function Calls(h: seq<Item>, id: string): nat {
    if h == [] then 0 else (if Opens(h[0], id) then 1 else 0) + Calls(h[1..], id)
  }

  /** Every identified call has an output: nothing waits at the end. */
  ghost predicate Answered(h: seq<Item>) {
    forall id :: id != "" ==> Waiting(h, id, 0) == 0
  }

  /** FIFO answers the oldest calls first, so the calls left over are the last ones: fewer calls of
      the same id follow than are left waiting. */
  predicate Unanswered(h: seq<Item>, i: nat)
    requires i < |h|
  {
    && h[i].FunctionCall?
    && h[i].callId != ""
    && Calls(h[i + 1..], h[i].callId) < Waiting(h, h[i].callId, 0)
  }

  /** The items of `h` from `i` on, in order, with one placeholder right after each left-over call. */
  function WithPlaceholders(h: seq<Item>, i: nat): seq<Item>
    requires i <= |h|
    decreases |h| - i
  {
    if i == |h| then []
    else
      [h[i]] + (if Unanswered(h, i) then [Placeholder(h[i].callId)] else []) + WithPlaceholders(h, i + 1)
  }

  /** The prompt sent for history `h`. */
  function Normalized(h: seq<Item>): seq<Item> { WithPlaceholders(h, 0) }

  lemma {:induction false} WaitingConcat(a: seq<Item>, b: seq<Item>, id: string, q: nat)
    ensures Waiting(a + b, id, q) == Waiting(b, id, Waiting(a, id, q))
    decreases a
  {
    if a == [] {
      assert a + b == b;
    } else {
      assert (a + b)[1..] == a[1..] + b;
      WaitingConcat(a[1..], b, id, if Opens(a[0], id) then q + 1 else if Closes(a[0], id) && q > 0 then q - 1 else q);
    }
  }

  lemma {:induction false} CallsConcat(a: seq<Item>, b: seq<Item>, id: string)
    ensures Calls(a + b, id) == Calls(a, id) + Calls(b, id)
    decreases a
  {
    if a == [] {
      assert a + b == b;
    } else {
      assert (a + b)[1..] == a[1..] + b;
      CallsConcat(a[1..], b, id);
    }
  }

  /** Starting with fewer waiting calls leaves fewer, and at most the new calls are added. */
  lemma {:induction false} WaitingMonotone(h: seq<Item>, id: string, q: nat, q': nat)
    requires q <= q'
    ensures Waiting(h, id, q) <= Waiting(h, id, q')
    ensures Waiting(h, id, q') <= q' + Calls(h, id)
    decreases h
  {
    if h == [] {
    } else {
      var step := (n: nat) => if Opens(h[0], id) then n + 1 else if Closes(h[0], id) && n > 0 then n - 1 else n;
      WaitingMonotone(h[1..], id, step(q), step(q'));
    }
  }

  lemma WaitingSnoc(h: seq<Item>, item: Item, id: string)
    ensures Waiting(h + [item], id, 0)
      == var q := Waiting(h, id, 0);
         if Opens(item, id) then q + 1 else if Closes(item, id) && q > 0 then q - 1 else q
  {
    WaitingConcat(h, [item], id, 0);
    assert [item][1..] == [];
  }

  /** Items with no calls in them leave nothing waiting. */
  lemma {:induction false} NoCallsNoWaiting(h: seq<Item>, id: string)
    requires forall i :: 0 <= i < |h| ==> !h[i].FunctionCall?
    ensures Waiting(h, id, 0) == 0 && Calls(h, id) == 0
  {
    if h == [] {
    } else {
      NoCallsNoWaiting(h[1..], id);
    }
  }

  // ---------------------------------------------------------------------------------------
  // Normalising an already complete history changes nothing; and only then.

  lemma {:induction false} AnsweredIsIdentity(h: seq<Item>, i: nat)
    requires Answered(h) && i <= |h|
    ensures WithPlaceholders(h, i) == h[i..]
    decreases |h| - i
  {
    if i < |h| {
      AnsweredIsIdentity(h, i + 1);
      assert h[i..] == [h[i]] + h[i + 1..];
    }
  }

  lemma {:induction false} PlaceholdersLengthen(h: seq<Item>, i: nat, j: nat)
    requires i <= j <= |h|
    ensures |WithPlaceholders(h, i)| >= |h| - i
    ensures j < |h| && Unanswered(h, j) ==> |WithPlaceholders(h, i)| > |h| - i
    decreases |h| - i
  {
    if i < |h| {
      PlaceholdersLengthen(h, i + 1, if i < j then j else i + 1);
    }
  }

  /** The prompt is the raw history exactly when no call is unanswered. */
  lemma PromptIsHistoryIffAnswered(h: seq<Item>)
    ensures Normalized(h) == h <==> Answered(h)
  {
    if Answered(h) {
      AnsweredIsIdentity(h, 0);
    } else {
      var id :| id != "" && Waiting(h, id, 0) != 0;
      FifoCounts(h, id, |h|);
      assert h[..|h|] == h;
      var queue := Fifo(h, id, |h|);
      var last := queue[|queue| - 1];
      assert h[last + 1..|h|] == h[last + 1..];
      PlaceholdersLengthen(h, 0, last);
    }
  }

  /** Of the `Waiting(h, id, 0)` calls left over, those at or after position `n`. */
  ghost function LeftFrom(h: seq<Item>, id: string, n: nat): nat
    requires n <= |h|
  {
    Min(Waiting(h, id, 0), Calls(h[n..], id))
  }

  /** Rescanning the normalised items from `n` on ends with nothing waiting, provided the scan enters
      with the calls that still get a real output. */
  lemma {:induction false} RescanAnswers(h: seq<Item>, id: string, n: nat)
    requires n <= |h| && id != ""
    ensures Waiting(h[..n], id, 0) + LeftFrom(h, id, n) >= Waiting(h, id, 0)
    ensures Waiting(WithPlaceholders(h, n), id,
                    Waiting(h[..n], id, 0) + LeftFrom(h, id, n) - Waiting(h, id, 0)) == 0
    decreases |h| - n
  {
    WaitingConcat(h[..n], h[n..], id, 0);
    assert h[..n] + h[n..] == h;
    WaitingMonotone(h[n..], id, 0, Waiting(h[..n], id, 0));
    if n < |h| {
      RescanAnswers(h, id, n + 1);
      RescanStep(h, id, n);
    } else {
      assert h[..n] == h;
    }
  }

  /** Item `n` and its placeholder, if it gets one, take the scan on to item `n + 1`. */
  lemma RescanStep(h: seq<Item>, id: string, n: nat)
    requires n < |h| && id != ""
    requires Waiting(h[..n], id, 0) + LeftFrom(h, id, n) >= Waiting(h, id, 0)
    requires Waiting(h[..n + 1], id, 0) + LeftFrom(h, id, n + 1) >= Waiting(h, id, 0)
    ensures
      Waiting(WithPlaceholders(h, n), id, Waiting(h[..n], id, 0) + LeftFrom(h, id, n) - Waiting(h, id, 0)) ==
      Waiting(WithPlaceholders(h, n + 1), id, Waiting(h[..n + 1], id, 0) + LeftFrom(h, id, n + 1) - Waiting(h, id, 0))
  {
    WaitingSnoc(h[..n], h[n], id);
    assert h[..n] + [h[n]] == h[..n + 1];
    assert h[n..][1..] == h[n + 1..];
    var entry := Waiting(h[..n], id, 0) + LeftFrom(h, id, n) - Waiting(h, id, 0);
    var head := [h[n]] + (if Unanswered(h, n) then [Placeholder(h[n].callId)] else []);
    WaitingConcat(head, WithPlaceholders(h, n + 1), id, entry);
    WaitingHead(h, id, n, entry);
    assert WithPlaceholders(h, n) == head + WithPlaceholders(h, n + 1);
    assert Waiting(head, id, entry) == Waiting(h[..n + 1], id, 0) + LeftFrom(h, id, n + 1) - Waiting(h, id, 0);
  }

  /** What one item and its placeholder, if it gets one, do to the number waiting. */
  lemma WaitingHead(h: seq<Item>, id: string, n: nat, q: nat)
    requires n < |h|
    ensures var head := [h[n]] + (if Unanswered(h, n) then [Placeholder(h[n].callId)] else []);
      Waiting(head, id, q) ==
        if Unanswered(h, n) then q
        else if Opens(h[n], id) then q + 1 else if Closes(h[n], id) && q > 0 then q - 1 else q
  {
    if Unanswered(h, n) {
      var head := [h[n]] + [Placeholder(h[n].callId)];
      assert head[1..] == [Placeholder(h[n].callId)] && head[1..][1..] == [];
      assert Waiting(head, id, q) == Waiting(head[1..], id, if Opens(h[n], id) then q + 1 else q);
    } else {
      assert [h[n]] + [] == [h[n]] && [h[n]][1..] == [];
    }
  }

  /** Every prompt is complete, whatever the raw history is: each call in it has an output. */
  lemma PromptsAreAnswered(h: seq<Item>)
    ensures Answered(Normalized(h))
  {
    forall id | id != ""
      ensures Waiting(Normalized(h), id, 0) == 0
    {
      RescanAnswers(h, id, 0);
      assert h[..0] == [];
      WaitingMonotone(h, id, 0, 0);
      assert h[0..] == h;
    }
  }

  lemma NormalizeIsIdempotent(h: seq<Item>)
    ensures Normalized(Normalized(h)) == Normalized(h)
  {
    PromptsAreAnswered(h);
    PromptIsHistoryIffAnswered(Normalized(h));
  }

  // ---------------------------------------------------------------------------------------
  // The deque the code keeps, and why it holds the last calls.

  /** Positions of the calls of `id` waiting after the first `n` items, oldest first. */
  function Fifo(h: seq<Item>, id: string, n: nat): seq<nat>
    requires n <= |h|
  {
    if n == 0 then []
    else
      var queue := Fifo(h, id, n - 1);
      if Opens(h[n - 1], id) then queue + [n - 1]
      else if Closes(h[n - 1], id) && queue != [] then queue[1..]
      else queue
  }

  /** Position `j` of the deque holds a call followed by exactly as many calls as stand behind it. */
  lemma {:induction false} FifoCounts(h: seq<Item>, id: string, n: nat)
    requires n <= |h|
    ensures |Fifo(h, id, n)| == Waiting(h[..n], id, 0)
    ensures forall j {:trigger Fifo(h, id, n)[j]} :: 0 <= j < |Fifo(h, id, n)| ==>
      var i := Fifo(h, id, n)[j];
      i < n && Opens(h[i], id) && Calls(h[i + 1..n], id) == |Fifo(h, id, n)| - 1 - j
  {
    if n > 0 {
      var before, after := Fifo(h, id, n - 1), Fifo(h, id, n);
      FifoCounts(h, id, n - 1);
      WaitingSnoc(h[..n - 1], h[n - 1], id);
      assert h[..n - 1] + [h[n - 1]] == h[..n];
      forall j | 0 <= j < |after|
        ensures var i := after[j];
                i < n && Opens(h[i], id) && Calls(h[i + 1..n], id) == |after| - 1 - j
      {
        var i := after[j];
        if i == n - 1 && Opens(h[n - 1], id) && j == |before| {
          assert h[i + 1..n] == [];
        } else {
          var k := if Closes(h[n - 1], id) then j + 1 else j;
          assert i == before[k];
          CallsConcat(h[i + 1..n - 1], [h[n - 1]], id);
          assert h[i + 1..n - 1] + [h[n - 1]] == h[i + 1..n];
          assert [h[n - 1]][1..] == [];
        }
      }
    }
  }

  /** Two calls of one id are followed by different numbers of calls of that id. */
  lemma LaterCallsDiffer(h: seq<Item>, id: string, i: nat, j: nat)
    requires i < j < |h| && Opens(h[j], id)
    ensures Calls(h[i + 1..], id) > Calls(h[j + 1..], id)
  {
    CallsConcat(h[i + 1..j], h[j..], id);
    assert h[i + 1..j] + h[j..] == h[i + 1..];
    assert h[j..][1..] == h[j + 1..];
  }

  /** The deque left at the end holds exactly the unanswered calls. */
  lemma FifoIsUnanswered(h: seq<Item>, id: string, i: nat)
    requires i < |h| && id != ""
    ensures i in Fifo(h, id, |h|) <==> Unanswered(h, i) && h[i].callId == id
  {
    var queue := Fifo(h, id, |h|);
    FifoCounts(h, id, |h|);
    assert h[..|h|] == h;
    if i in queue {
      var j :| 0 <= j < |queue| && queue[j] == i;
      assert h[i + 1..|h|] == h[i + 1..];
    } else if Unanswered(h, i) && h[i].callId == id {
      var twin := queue[|queue| - 1 - Calls(h[i + 1..], id)];
      assert h[twin + 1..|h|] == h[twin + 1..];
      if i < twin { LaterCallsDiffer(h, id, i, twin); } else if twin < i { LaterCallsDiffer(h, id, twin, i); }
      assert false;
    }
  }

  // ---------------------------------------------------------------------------------------
  // The code: a dictionary of deques, then back-to-front insertion.

  /** The scan over the history: the dictionary ends up holding each id's non-empty deque. */
  method ScanPendingCalls(history: seq<Item>) returns (pending: map<string, seq<nat>>)
    ensures forall id :: id in pending <==> id != "" && Fifo(history, id, |history|) != []
    ensures forall id :: id in pending ==> pending[id] == Fifo(history, id, |history|)
  {
    pending := map[];
    for index := 0 to |history|
      invariant forall id :: id in pending <==> id != "" && Fifo(history, id, index) != []
      invariant forall id :: id in pending ==> pending[id] == Fifo(history, id, index)
    {
      var item := history[index];
      match item
      case FunctionCall(callId, _, _) =>
        if callId != "" {
          var deque := if callId in pending then pending[callId] else [];
          pending := pending[callId := deque + [index]];
        }
      case ToolResult(callId, _) =>
        if callId != "" && callId in pending {
          if |pending[callId]| == 1 {
            pending := pending - {callId};
          } else {
            pending := pending[callId := pending[callId][1..]];
          }
        }
      case _ =>
    }
  }

  function LaterFirst(a: (nat, string), b: (nat, string)): bool { a.0 >= b.0 }

  ghost predicate Missing(history: seq<Item>, m: (nat, string)) {
    m.0 < |history| && Unanswered(history, m.0) && history[m.0].callId == m.1
  }

  function Tagged(queue: seq<nat>, id: string): (tagged: seq<(nat, string)>)
    ensures |tagged| == |queue| && forall k :: 0 <= k < |queue| ==> tagged[k] == (queue[k], id)
  {
    seq(|queue|, k requires 0 <= k < |queue| => (queue[k], id))
  }

  ghost predicate DistinctPositions(missing: seq<(nat, string)>) {
    forall i, j :: 0 <= i < j < |missing| ==> missing[i].0 != missing[j].0
  }

  /** One deque's worth of missing outputs: all of its id's, none of another's. */
  lemma QueueIsMissing(history: seq<Item>, id: string)
    requires id != ""
    ensures var tagged := Tagged(Fifo(history, id, |history|), id);
            && (forall m :: m in tagged <==> Missing(history, m) && m.1 == id)
            && DistinctPositions(tagged)
  {
    var queue := Fifo(history, id, |history|);
    var tagged := Tagged(queue, id);
    FifoCounts(history, id, |history|);
    forall m
      ensures m in tagged <==> Missing(history, m) && m.1 == id
    {
      if m in tagged {
        var k :| 0 <= k < |tagged| && tagged[k] == m;
        assert queue[k] in queue;
        FifoIsUnanswered(history, id, queue[k]);
      }
      if Missing(history, m) && m.1 == id {
        FifoIsUnanswered(history, id, m.0);
        var k :| 0 <= k < |queue| && queue[k] == m.0;
        assert tagged[k] == m;
      }
    }
  }

  /** Flattens the dictionary into the list of missing outputs, one entry per unanswered call. */
  method MissingOutputs(history: seq<Item>) returns (missing: seq<(nat, string)>)
    ensures forall m :: m in missing <==> Missing(history, m)
    ensures DistinctPositions(missing)
  {
    var pending := ScanPendingCalls(history);
    missing := [];
    var keys := pending.Keys;
    while keys != {}
      invariant keys <= pending.Keys
      invariant forall m :: m in missing <==> Missing(history, m) && m.1 in pending.Keys - keys
      invariant DistinctPositions(missing)
      decreases keys
    {
      var id :| id in keys;
      QueueIsMissing(history, id);
      var tagged := Tagged(pending[id], id);
      forall i, j | 0 <= i < |missing| && 0 <= j < |tagged|
        ensures missing[i].0 != tagged[j].0
      {
        assert missing[i] in missing && tagged[j] in tagged;
      }
      missing := missing + tagged;
      keys := keys - {id};
    }
    forall m | Missing(history, m)
      ensures m.1 in pending.Keys
    {
      FifoIsUnanswered(history, m.1, m.0);
    }
  }

  lemma {:induction false} NothingBetween(h: seq<Item>, i: nat, j: nat)
    requires i <= j <= |h|
    requires forall k {:trigger Unanswered(h, k)} :: i <= k < j ==> !Unanswered(h, k)
    ensures WithPlaceholders(h, i) == h[i..j] + WithPlaceholders(h, j)
    decreases j - i
  {
    if i < j {
      var rest := WithPlaceholders(h, i + 1);
      NothingBetween(h, i + 1, j);
      assert WithPlaceholders(h, i) == [h[i]] + [] + rest by { assert !Unanswered(h, i); }
      assert h[i..j] == [h[i]] + h[i + 1..j];
    } else {
      assert h[i..j] == [];
    }
  }

  /** Inserting after the last remaining unanswered call completes the history from that call on. */
  lemma InsertCompletes(h: seq<Item>, at: nat, done: nat)
    requires at < done <= |h| && Unanswered(h, at)
    requires forall k {:trigger Unanswered(h, k)} :: at < k < done ==> !Unanswered(h, k)
    ensures var prompt := h[..done] + WithPlaceholders(h, done);
            prompt[..at + 1] + [Placeholder(h[at].callId)] + prompt[at + 1..] == h[..at] + WithPlaceholders(h, at)
  {
    var prompt, rest := h[..done] + WithPlaceholders(h, done), WithPlaceholders(h, at + 1);
    NothingBetween(h, at + 1, done);
    assert prompt[..at + 1] == h[..at] + [h[at]];
    assert prompt[at + 1..] == rest;
    assert WithPlaceholders(h, at) == [h[at]] + [Placeholder(h[at].callId)] + rest;
  }

  /** Entry `n` and later ones are the unanswered calls still to be completed, below `done`. */
  ghost predicate Remaining(history: seq<Item>, todo: seq<(nat, string)>, n: nat, done: nat) {
    && n <= |todo| && done <= |history|
    && (forall m :: n <= m < |todo| ==> Missing(history, todo[m]) && todo[m].0 < done)
    && (forall k {:trigger Unanswered(history, k)} :: 0 <= k < done && Unanswered(history, k) ==>
          exists m :: n <= m < |todo| && todo[m].0 == k)
  }

  lemma LaterAreSmaller(todo: seq<(nat, string)>, n: nat)
    requires n < |todo| && Sorting.Sorted(todo, LaterFirst) && DistinctPositions(todo)
    ensures forall m :: n < m < |todo| ==> todo[m].0 < todo[n].0
    ensures forall m :: 0 <= m < n ==> todo[n].0 < todo[m].0
  {
    assert forall m :: n < m < |todo| ==> LaterFirst(todo[n], todo[m]);
    assert forall m :: 0 <= m < n ==> LaterFirst(todo[m], todo[n]);
  }

  lemma NextRemaining(history: seq<Item>, todo: seq<(nat, string)>, n: nat, done: nat)
    requires n < |todo| && Remaining(history, todo, n, done)
    requires Sorting.Sorted(todo, LaterFirst) && DistinctPositions(todo)
    ensures Remaining(history, todo, n + 1, todo[n].0)
    ensures forall k {:trigger Unanswered(history, k)} :: todo[n].0 < k < done ==> !Unanswered(history, k)
  {
    LaterAreSmaller(todo, n);
    forall k | 0 <= k < todo[n].0 && Unanswered(history, k)
      ensures exists m :: n + 1 <= m < |todo| && todo[m].0 == k
    {
      var m :| n <= m < |todo| && todo[m].0 == k;
    }
  }

  lemma AllRemain(history: seq<Item>, missing: seq<(nat, string)>, todo: seq<(nat, string)>)
    requires DistinctPositions(missing) && multiset(missing) == multiset(todo)
    requires forall m :: m in missing <==> Missing(history, m)
    ensures Remaining(history, todo, 0, |history|) && DistinctPositions(todo)
  {
    SortKeepsDistinct(missing, todo);
    forall m | 0 <= m < |todo|
      ensures Missing(history, todo[m])
    {
      assert todo[m] in multiset(missing);
    }
    forall k | 0 <= k < |history| && Unanswered(history, k)
      ensures exists m :: 0 <= m < |todo| && todo[m].0 == k
    {
      assert Missing(history, (k, history[k].callId));
      assert (k, history[k].callId) in todo;
    }
  }

  /** The insertions, back to front, so that earlier positions stay where they are. */
  method InsertPlaceholders(history: seq<Item>, todo: seq<(nat, string)>) returns (prompt: seq<Item>)
    requires Remaining(history, todo, 0, |history|)
    requires Sorting.Sorted(todo, LaterFirst) && DistinctPositions(todo)
    ensures prompt == Normalized(history)
  {
    prompt := history;
    ghost var done: nat := |history|;
    for n := 0 to |todo|
      invariant Remaining(history, todo, n, done)
      invariant prompt == history[..done] + WithPlaceholders(history, done)
    {
      var (at, id) := todo[n];
      NextRemaining(history, todo, n, done);
      InsertCompletes(history, at, done);
      prompt := prompt[..at + 1] + [Placeholder(id)] + prompt[at + 1..];
      done := at;
    }
    assert forall k {:trigger Unanswered(history, k)} :: 0 <= k < done ==> !Unanswered(history, k);
    NothingBetween(history, 0, done);
  }

  /** `_normalize_prompt_history`: scan, sort the missing outputs from the back, insert in place. */
  method NormalizePromptHistory(history: seq<Item>) returns (prompt: seq<Item>)
    ensures prompt == Normalized(history)
  {
    var missing := MissingOutputs(history);
    var todo := Sorting.Sort(missing, LaterFirst);
    Sorting.SortSorts(missing, LaterFirst);
    AllRemain(history, missing, todo);
    prompt := InsertPlaceholders(history, todo);
  }

  /** Sorting a list with distinct positions keeps them distinct, and loses none. */
  lemma SortKeepsDistinct(missing: seq<(nat, string)>, sorted: seq<(nat, string)>)
    requires multiset(missing) == multiset(sorted)
    requires DistinctPositions(missing)
    ensures DistinctPositions(sorted)
    ensures forall m :: m in missing ==> m in sorted
  {
    forall m | m in missing
      ensures m in sorted
    {
      assert m in multiset(missing);
    }
    forall i, j | 0 <= i < j < |sorted|
      ensures sorted[i].0 != sorted[j].0
    {
      if sorted[i].0 == sorted[j].0 {
        assert sorted[i] in multiset(missing) && sorted[j] in multiset(missing);
        var a :| 0 <= a < |missing| && missing[a] == sorted[i];
        var b :| 0 <= b < |missing| && missing[b] == sorted[j];
        assert a == b;
        TwiceInMultiset(sorted, i, j);
        OnceInMultiset(missing, a);
        assert false;
      }
    }
  }

  lemma TwiceInMultiset<T>(s: seq<T>, i: nat, j: nat)
    requires i < j < |s| && s[i] == s[j]
    ensures multiset(s)[s[i]] >= 2
  {
    assert s == s[..i] + [s[i]] + s[i + 1..j] + [s[j]] + s[j + 1..];
  }

  lemma OnceInMultiset(s: seq<(nat, string)>, i: nat)
    requires i < |s|
    requires DistinctPositions(s)
    ensures multiset(s)[s[i]] == 1
  {
    assert s == s[..i] + [s[i]] + s[i + 1..];
    assert s[i] !in s[..i] && s[i] !in s[i + 1..];
  }
}
