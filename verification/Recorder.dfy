/** The queue-backed single writer of the ledger (pycodex/core/rollout_recorder.py), as an interleaving of
    its callers, its worker and the storage below it. */
module Recorder {
  import opened Prelude
  import opened JsonText
  import opened LedgerFile

  /** Records arrive as JSON texts. */
  type Batch = seq<bytes>

  datatype Request = WriteBatch(items: Batch) | FlushRequest(future: nat) | ShutdownRequest(future: nat)

  datatype Future = Waiting | Resolved | Failed

  datatype Worker = NotStarted | Opening | Serving | Stopped | Dead

  /** `base` is the file when the worker opened it and `written` what it holds or buffers since;
      `durable` bytes of it have reached storage. `accepted` lists every batch `record` took, and
      `due[f]` how many there were when the call behind future `f` was made. */
  datatype State = State(
    queue: seq<Request>, worker: Worker, closed: bool, futures: seq<Future>, due: seq<nat>,
    accepted: seq<Batch>, base: bytes, written: bytes, durable: nat)

  datatype Action =
    | Record(items: Batch)
    | Flush                      // the call, up to its wait
    | Shutdown                   // the call, up to its wait
    | Open                       // the worker has repaired and opened the file
    | OpenFails
    | ShutdownReturns            // the wait is over and the worker task has ended
    | Work                       // the worker serves the request at the head of the queue
    | WorkFails(written: nat)    // serving it raises, after that many bytes of a batch
    | Spill(durable: nat)        // the buffer drains on its own

  function Text(batches: seq<Batch>): bytes {
    if batches == [] then [] else Text(batches[..|batches| - 1]) + LedgerText(batches[|batches| - 1])
  }

  function QueuedBatches(queue: seq<Request>): seq<Batch> {
    if queue == [] then []
    else (if queue[0].WriteBatch? then [queue[0].items] else []) + QueuedBatches(queue[1..])
  }

  /** The worker is started by the first call that enqueues something. */
  function Started(s: State): State { if s.worker.NotStarted? then s.(worker := Opening) else s }

  function Awaited(s: State, request: Request): State {
    Started(s).(queue := s.queue + [request], futures := s.futures + [Waiting], due := s.due + [|s.accepted|])
  }

  function FailOne(futures: seq<Future>, r: Request): seq<Future> {
    if r.WriteBatch? || r.future >= |futures| || futures[r.future] != Waiting then futures
    else futures[r.future := Failed]
  }

  /** Draining the queue of a dead worker. */
  function FailQueued(futures: seq<Future>, queue: seq<Request>): seq<Future>
    decreases |queue|
  {
    if queue == [] then futures else FailQueued(FailOne(futures, queue[0]), queue[1..])
  }

  predicate Enabled(s: State, a: Action) {
    match a
    case Work => s.worker.Serving? && s.queue != []
    case WorkFails(n) =>
      s.worker.Serving? && s.queue != [] && n <= if s.queue[0].WriteBatch? then |LedgerText(s.queue[0].items)| else 0
    case Open => s.worker.Opening?
    case OpenFails => s.worker.Opening?
    case ShutdownReturns => s.worker.Stopped?
    case Spill(n) => s.durable <= n <= |s.written|
    case _ => true
  }

  /** One step. A call on a closed recorder either raises or returns at once; neither changes anything. */
  function Step(s: State, a: Action): State
    requires Enabled(s, a)
  {
    match a
    case Record(items) =>
      if s.closed || s.worker.Dead? || items == [] then s
      else Started(s).(queue := s.queue + [WriteBatch(items)], accepted := s.accepted + [items])
    case Flush => if s.closed || s.worker.Dead? then s else Awaited(s, FlushRequest(|s.futures|))
    case Shutdown => if s.closed || s.worker.Dead? then s else Awaited(s, ShutdownRequest(|s.futures|))
    case Open => s.(worker := Serving)
    case OpenFails => s.(queue := [], worker := Dead, closed := true, futures := FailQueued(s.futures, s.queue))
    case ShutdownReturns => s.(closed := true)
    case Spill(n) => s.(durable := n)
    case Work =>
      var served := s.(queue := s.queue[1..]);
      match s.queue[0] {
        case WriteBatch(items) => served.(written := s.written + LedgerText(items))
        case FlushRequest(f) => served.(durable := |s.written|, futures := Resolve(s.futures, f))
        case ShutdownRequest(f) => served.(durable := |s.written|, futures := Resolve(s.futures, f), worker := Stopped)
      }
    case WorkFails(n) =>
      var torn := if s.queue[0].WriteBatch? then LedgerText(s.queue[0].items)[..n] else [];
      s.(queue := [], worker := Dead, closed := true, written := s.written + torn,
          futures := FailQueued(s.futures, s.queue[1..]))
  }

  function Resolve(futures: seq<Future>, f: nat): seq<Future> {
    if f < |futures| then futures[f := Resolved] else futures
  }

  predicate Possible(s: State, actions: seq<Action>)
    decreases |actions|
  {
    actions == [] || (Enabled(s, actions[0]) && Possible(Step(s, actions[0]), actions[1..]))
  }

  function Run(s: State, actions: seq<Action>): State
    requires Possible(s, actions)
    decreases |actions|
  {
    if actions == [] then s else Run(Step(s, actions[0]), actions[1..])
  }

  /** A new recorder on a file that ends at a line boundary. */
  function Fresh(base: bytes): State { State([], NotStarted, false, [], [], [], base, base, |base|) }

  // ---------------------------------------------------------------------------------------
  // Invariant.

  /** The file up to and including the first `n` accepted batches. */
  function FileAfter(s: State, n: nat): bytes
    requires n <= |s.accepted|
  {
    s.base + Text(s.accepted[..n])
  }

  /** How many accepted batches the worker has taken. */
  function Taken(s: State): int { |s.accepted| - |QueuedBatches(s.queue)| }

  /** The writer is at batch boundary `Taken`, and the queue holds the rest in order. */
  ghost predicate InOrder(s: State) {
    && 0 <= Taken(s)
    && QueuedBatches(s.queue) == s.accepted[Taken(s)..]
    && s.written == FileAfter(s, Taken(s))
  }

  /** A queued wait was made when no more batches had been accepted than precede it in the queue. */
  ghost predicate QueuedInTime(s: State, i: nat)
    requires i < |s.queue| && |s.due| == |s.futures|
  {
    !s.queue[i].WriteBatch? ==>
      && s.queue[i].future < |s.futures|
      && s.futures[s.queue[i].future] == Waiting
      && s.due[s.queue[i].future] == Taken(s) + |QueuedBatches(s.queue[..i])|
  }

  ghost predicate Barrier(s: State, f: nat)
    requires f < |s.futures| && |s.due| == |s.futures| && s.durable <= |s.written|
  {
    && s.due[f] <= |s.accepted|
    && (s.futures[f] == Resolved ==> FileAfter(s, s.due[f]) <= s.written[..s.durable])
  }

  ghost predicate Inv(s: State) {
    && s.durable <= |s.written| && |s.due| == |s.futures|
    && (if s.worker.Dead? then s.queue == [] && s.closed && s.written <= FileAfter(s, |s.accepted|) else InOrder(s))
    && (s.worker.Stopped? ==> s.durable == |s.written|)
    && (s.closed ==> s.worker.Stopped? || s.worker.Dead?)
    && (s.worker.NotStarted? ==> s.queue == [])
    && (forall i :: 0 <= i < |s.queue| ==> QueuedInTime(s, i))
    && (forall i, j :: 0 <= i < j < |s.queue| && !s.queue[i].WriteBatch? && !s.queue[j].WriteBatch? ==>
          s.queue[i].future != s.queue[j].future)
    && (forall f {:trigger Barrier(s, f)} :: 0 <= f < |s.futures| ==> Barrier(s, f))
  }

  lemma {:induction false} QueuedSnoc(queue: seq<Request>, r: Request)
    ensures QueuedBatches(queue + [r]) == QueuedBatches(queue) + if r.WriteBatch? then [r.items] else []
  {
    if queue != [] {
      assert (queue + [r])[1..] == queue[1..] + [r];
      QueuedSnoc(queue[1..], r);
    } else {
      assert queue + [r] == [r];
    }
  }

  lemma {:induction false} TextMonotone(batches: seq<Batch>, n: nat)
    requires n <= |batches|
    ensures Text(batches[..n]) <= Text(batches)
    decreases |batches|
  {
    if n < |batches| {
      TextMonotone(batches[..|batches| - 1], n);
      assert batches[..|batches| - 1][..n] == batches[..n];
    } else {
      assert batches[..n] == batches;
    }
  }

  lemma FileGrows(s: State, m: nat, n: nat)
    requires m <= n <= |s.accepted|
    ensures FileAfter(s, m) <= FileAfter(s, n)
  {
    TextMonotone(s.accepted[..n], m);
    assert s.accepted[..n][..m] == s.accepted[..m];
  }

  /** The barrier clauses survive any step that only extends what is written, accepted and durable. */
  lemma BarriersSurvive(s: State, s': State)
    requires Inv(s) && |s'.due| == |s'.futures| >= |s.futures|
    requires s.base == s'.base && s.accepted <= s'.accepted
    requires s.written <= s'.written && s.durable <= s'.durable <= |s'.written|
    requires s.due <= s'.due
    requires forall f :: 0 <= f < |s.futures| && s'.futures[f] == Resolved && s.futures[f] != Resolved ==>
               s.due[f] <= |s.accepted| && FileAfter(s, s.due[f]) <= s'.written[..s'.durable]
    requires forall f :: |s.futures| <= f < |s'.futures| ==> s'.futures[f] == Waiting && s'.due[f] <= |s'.accepted|
    ensures forall f :: 0 <= f < |s'.futures| ==> Barrier(s', f)
  {
    forall f | 0 <= f < |s'.futures|
      ensures Barrier(s', f)
    {
      if f < |s.futures| {
        assert Barrier(s, f);
        assert s'.accepted[..s.due[f]] == s.accepted[..s.due[f]];
        assert s.written[..s.durable] <= s'.written[..s'.durable];
      }
    }
  }

  ghost predicate Enqueued(s: State, r: Request, s': State) {
    if r.WriteBatch? then s' == Started(s).(queue := s.queue + [r], accepted := s.accepted + [r.items])
    else r.future == |s.futures| && s' == Awaited(s, r)
  }

  lemma EnqueuedInTime(s: State, r: Request, s': State)
    requires Inv(s) && !s.worker.Dead? && Enqueued(s, r, s')
    ensures Taken(s') == Taken(s)
    ensures forall i :: 0 <= i < |s'.queue| ==> QueuedInTime(s', i)
  {
    QueuedSnoc(s.queue, r);
    forall i | 0 <= i < |s'.queue|
      ensures QueuedInTime(s', i)
    {
      if i < |s.queue| {
        assert s'.queue[..i] == s.queue[..i];
        assert QueuedInTime(s, i);
      } else {
        assert s'.queue[..i] == s.queue;
      }
    }
  }

  lemma EnqueueKeeps(s: State, r: Request, s': State)
    requires Inv(s) && !s.worker.Dead? && !s.closed && Enqueued(s, r, s')
    ensures Inv(s')
  {
    EnqueuedInTime(s, r, s');
    QueuedSnoc(s.queue, r);
    BarriersSurvive(s, s');
    assert s'.accepted[..Taken(s)] == s.accepted[..Taken(s)];
    forall i | 0 <= i < |s.queue|
      ensures !s.queue[i].WriteBatch? ==> s.queue[i].future < |s.futures|
    {
      assert QueuedInTime(s, i);
    }
  }

  /** What is left in the queue after its head is taken stays in order and in time. */
  lemma RestStaysInTime(s: State, s': State)
    requires Inv(s) && s.queue != [] && s'.queue == s.queue[1..]
    requires s'.accepted == s.accepted && s'.due == s.due && |s'.futures| == |s.futures|
    requires forall f :: 0 <= f < |s.futures| ==>
               s'.futures[f] == s.futures[f] || (!s.queue[0].WriteBatch? && f == s.queue[0].future)
    ensures forall i :: 0 <= i < |s'.queue| ==> QueuedInTime(s', i)
  {
    forall i | 0 <= i < |s'.queue|
      ensures QueuedInTime(s', i)
    {
      assert QueuedInTime(s, i + 1);
      assert s.queue[..i + 1][1..] == s'.queue[..i];
    }
  }

  lemma WriteKeeps(s: State)
    requires Inv(s) && Enabled(s, Work) && s.queue[0].WriteBatch?
    ensures Inv(Step(s, Work))
  {
    var s', k := Step(s, Work), Taken(s);
    assert s.accepted[..k + 1][..k] == s.accepted[..k];
    assert s.accepted[k] == s.queue[0].items;
    assert s.accepted[k..][1..] == s.accepted[k + 1..];
    BarriersSurvive(s, s');
    RestStaysInTime(s, s');
  }

  lemma WaitServedKeeps(s: State)
    requires Inv(s) && Enabled(s, Work) && !s.queue[0].WriteBatch?
    ensures Inv(Step(s, Work))
  {
    var s' := Step(s, Work);
    assert QueuedInTime(s, 0) && s.queue[..0] == [];
    assert s'.written[..s'.durable] == s.written;
    BarriersSurvive(s, s');
    RestStaysInTime(s, s');
  }

  predicate IsWaitOn(r: Request, f: nat) { !r.WriteBatch? && r.future == f }

  lemma {:induction false} FailedAreNotResolved(futures: seq<Future>, queue: seq<Request>)
    ensures |FailQueued(futures, queue)| == |futures|
    ensures forall f :: 0 <= f < |futures| ==>
      FailQueued(futures, queue)[f] ==
        if futures[f] == Waiting && (exists i :: 0 <= i < |queue| && IsWaitOn(queue[i], f)) then Failed else futures[f]
    decreases |queue|
  {
    if queue == [] {
    } else {
      FailedAreNotResolved(FailOne(futures, queue[0]), queue[1..]);
      forall f | 0 <= f < |futures|
        ensures (exists i :: 0 <= i < |queue| && IsWaitOn(queue[i], f))
                <==> IsWaitOn(queue[0], f) || exists i :: 0 <= i < |queue[1..]| && IsWaitOn(queue[1..][i], f)
      {
        if i :| 0 <= i < |queue| && IsWaitOn(queue[i], f) && i > 0 {
          assert IsWaitOn(queue[1..][i - 1], f);
        }
        if i :| 0 <= i < |queue[1..]| && IsWaitOn(queue[1..][i], f) {
          assert IsWaitOn(queue[i + 1], f);
        }
      }
    }
  }

  lemma OpenFailsKeeps(s: State)
    requires Inv(s) && Enabled(s, OpenFails)
    ensures Inv(Step(s, OpenFails))
  {
    var s' := Step(s, OpenFails);
    FileGrows(s, Taken(s), |s.accepted|);
    FailedAreNotResolved(s.futures, s.queue);
    BarriersSurvive(s, s');
  }

  lemma WorkFailsKeeps(s: State, n: nat)
    requires Inv(s) && Enabled(s, WorkFails(n))
    ensures Inv(Step(s, WorkFails(n)))
  {
    var s' := Step(s, WorkFails(n));
    var k := Taken(s);
    if s.queue[0].WriteBatch? {
      assert s.accepted[..k + 1][..k] == s.accepted[..k];
      assert s.accepted[k] == s.queue[0].items;
      FileGrows(s, k + 1, |s.accepted|);
    } else {
      FileGrows(s, k, |s.accepted|);
    }
    FailedAreNotResolved(s.futures, s.queue[1..]);
    BarriersSurvive(s, s');
  }

  lemma StepKeeps(s: State, a: Action)
    requires Inv(s) && Enabled(s, a)
    ensures Inv(Step(s, a))
  {
    var s' := Step(s, a);
    match a
    case Work => if s.queue[0].WriteBatch? { WriteKeeps(s); } else { WaitServedKeeps(s); }
    case WorkFails(n) => WorkFailsKeeps(s, n);
    case OpenFails => OpenFailsKeeps(s);
    case Record(items) => if s' != s { EnqueueKeeps(s, WriteBatch(items), s'); }
    case Flush => if s' != s { EnqueueKeeps(s, FlushRequest(|s.futures|), s'); }
    case Shutdown => if s' != s { EnqueueKeeps(s, ShutdownRequest(|s.futures|), s'); }
    case _ =>
      BarriersSurvive(s, s');
      forall i | 0 <= i < |s'.queue|
        ensures QueuedInTime(s', i)
      {
        assert QueuedInTime(s, i);
      }
  }

  lemma {:induction false} RunKeeps(s: State, actions: seq<Action>)
    requires Inv(s) && Possible(s, actions)
    ensures Inv(Run(s, actions))
    ensures Run(s, actions).base == s.base
    decreases |actions|
  {
    if actions == [] {
    } else {
      StepKeeps(s, actions[0]);
      RunKeeps(Step(s, actions[0]), actions[1..]);
    }
  }

  // ---------------------------------------------------------------------------------------
  // Results.

  /** In every interleaving the file is the text of a prefix of the accepted batches, in the order they
      were accepted; only a worker that died may have stopped inside a batch. */
  lemma FileIsPrefixOfAccepted(base: bytes, actions: seq<Action>)
    requires Possible(Fresh(base), actions)
    ensures var s := Run(Fresh(base), actions);
      && s.written <= base + Text(s.accepted)
      && (!s.worker.Dead? ==> exists n :: 0 <= n <= |s.accepted| && s.written == base + Text(s.accepted[..n]))
  {
    RunKeeps(Fresh(base), actions);
    var s := Run(Fresh(base), actions);
    assert s.accepted[..|s.accepted|] == s.accepted;
    if !s.worker.Dead? {
      FileGrows(s, Taken(s), |s.accepted|);
    }
  }

  /** The barrier: once the wait of a `flush` or `shutdown` is resolved, every batch accepted before that
      call is durable, and stays so, whatever happens later to the worker. */
  lemma ResolvedWaitIsDurable(base: bytes, actions: seq<Action>, f: nat)
    requires Possible(Fresh(base), actions)
    requires f < |Run(Fresh(base), actions).futures| && Run(Fresh(base), actions).futures[f] == Resolved
    ensures var s := Run(Fresh(base), actions);
      && |s.due| == |s.futures| && s.due[f] <= |s.accepted| && s.durable <= |s.written|
      && base + Text(s.accepted[..s.due[f]]) <= s.written[..s.durable]
  {
    RunKeeps(Fresh(base), actions);
    assert Barrier(Run(Fresh(base), actions), f);
  }

  lemma {:induction false} TextGrowsPerBatch(batches: seq<Batch>, n: nat)
    requires n <= |batches| && forall i :: 0 <= i < |batches| ==> batches[i] != []
    ensures |Text(batches)| >= |Text(batches[..n])| + |batches| - n
    decreases |batches|
  {
    if n < |batches| {
      assert batches[..|batches| - 1][..n] == batches[..n];
      TextGrowsPerBatch(batches[..|batches| - 1], n);
    } else {
      assert batches[..n] == batches;
    }
  }

  lemma {:induction false} OnlyNonemptyAccepted(s: State, actions: seq<Action>)
    requires Possible(s, actions) && forall i :: 0 <= i < |s.accepted| ==> s.accepted[i] != []
    ensures forall i :: 0 <= i < |Run(s, actions).accepted| ==> Run(s, actions).accepted[i] != []
    decreases |actions|
  {
    if actions == [] {
    } else {
      OnlyNonemptyAccepted(Step(s, actions[0]), actions[1..]);
    }
  }

  /** A call on a recorder closed by `shutdown` returns at once. Everything accepted is then durable
      exactly when no batch was queued behind the shutdown request. */
  lemma SilentReturnIsDurableIffNothingQueued(base: bytes, actions: seq<Action>)
    requires Possible(Fresh(base), actions)
    requires Run(Fresh(base), actions).closed && !Run(Fresh(base), actions).worker.Dead?
    ensures var s := Run(Fresh(base), actions);
      && s.durable <= |s.written|
      && (s.written[..s.durable] == base + Text(s.accepted) <==> forall r :: r in s.queue ==> !r.WriteBatch?)
  {
    RunKeeps(Fresh(base), actions);
    OnlyNonemptyAccepted(Fresh(base), actions);
    var s := Run(Fresh(base), actions);
    QueuedIffBatches(s.queue);
    TextGrowsPerBatch(s.accepted, Taken(s));
    assert s.accepted[..|s.accepted|] == s.accepted;
    assert s.written[..s.durable] == s.written;
  }

  lemma {:induction false} QueuedIffBatches(queue: seq<Request>)
    ensures QueuedBatches(queue) == [] <==> forall r :: r in queue ==> !r.WriteBatch?
  {
    if queue == [] {
    } else {
      QueuedIffBatches(queue[1..]);
      assert queue == [queue[0]] + queue[1..];
    }
  }

  /** Such a batch is possible with a healthy worker: one recorded while `shutdown` waits is accepted and
      never written. */
  lemma RecordDuringShutdownIsLost(base: bytes, record: bytes)
    ensures var actions := [Shutdown, Record([record]), Open, Work, ShutdownReturns];
      && Possible(Fresh(base), actions)
      && var s := Run(Fresh(base), actions);
      && s.accepted == [[record]] && s.worker.Stopped? && s.closed && s.written == base && Step(s, Flush) == s
  {
    var actions := [Shutdown, Record([record]), Open, Work, ShutdownReturns];
    var s1 := Step(Fresh(base), actions[0]);
    var s2 := Step(s1, actions[1]);
    assert s2.queue == [ShutdownRequest(0), WriteBatch([record])];
    var s3 := Step(s2, actions[2]);
    var s4 := Step(s3, actions[3]);
    var s5 := Step(s4, actions[4]);
    assert actions[1..][1..] == actions[2..] && actions[2..][1..] == actions[3..] && actions[3..][1..] == actions[4..];
    assert actions[4..][1..] == [];
    assert Possible(s4, actions[4..]) && Possible(s3, actions[3..]) && Possible(s2, actions[2..])
        && Possible(s1, actions[1..]);
    assert Run(s4, actions[4..]) == s5;
    assert Run(s3, actions[3..]) == s5 && Run(s2, actions[2..]) == s5 && Run(s1, actions[1..]) == s5;
  }

  /** When serving a request raises, every wait still queued fails; the wait in hand, if any, is the one
      that is neither resolved nor failed, then or later. */
  lemma WaitInHandIsNeverSettled(s: State, n: nat, f: nat, later: seq<Action>)
    requires Inv(s) && Enabled(s, WorkFails(n)) && f < |s.futures| && s.futures[f] == Waiting
    requires Possible(Step(s, WorkFails(n)), later)
    requires IsWaitOn(s.queue[0], f) || exists i :: 0 < i < |s.queue| && IsWaitOn(s.queue[i], f)
    ensures var end := Run(Step(s, WorkFails(n)), later);
      && f < |end.futures|
      && end.futures[f] == if IsWaitOn(s.queue[0], f) then Waiting else Failed
  {
    var dead, rest := Step(s, WorkFails(n)), s.queue[1..];
    FailedAreNotResolved(s.futures, rest);
    if i :| 0 < i < |s.queue| && IsWaitOn(s.queue[i], f) {
      assert IsWaitOn(rest[i - 1], f);
    }
    if i :| 0 <= i < |rest| && IsWaitOn(rest[i], f) {
      assert IsWaitOn(s.queue[i + 1], f);
    }
    DeadStaysSettled(dead, later);
  }

  lemma {:induction false} DeadStaysSettled(s: State, actions: seq<Action>)
    requires s.worker.Dead? && s.closed && Possible(s, actions)
    ensures Run(s, actions).futures == s.futures
    decreases |actions|
  {
    if actions == [] {
    } else {
      DeadStaysSettled(Step(s, actions[0]), actions[1..]);
    }
  }

  // ---------------------------------------------------------------------------------------
  // The code, on the recorder's fields.

  class RolloutRecorder {
    var queue: seq<Request>
    var worker: Worker
    var closed: bool
    var futures: seq<Future>
    var due: seq<nat>
    var accepted: seq<Batch>
    const base: bytes
    var written: bytes
    var durable: nat

    function View(): State
      reads this
    {
      State(queue, worker, closed, futures, due, accepted, base, written, durable)
    }

    constructor (base: bytes)
      ensures View() == Fresh(base)
    {
      queue, worker, closed, futures, due, accepted := [], NotStarted, false, [], [], [];
      this.base, written, durable := base, base, |base|;
    }

    method EnsureWorker()
      modifies this
      ensures View() == Started(old(View()))
    {
      if worker.NotStarted? { worker := Opening; }
    }

    /** `record`; the result tells whether it raised. */
    method RecordItems(items: Batch) returns (raised: bool)
      requires worker.Dead? ==> closed
      modifies this
      ensures View() == Step(old(View()), Record(items)) && raised == old(closed)
    {
      if closed { return true; }
      if items == [] { return false; }
      EnsureWorker();
      queue := queue + [WriteBatch(items)];
      accepted := accepted + [items];
      return false;
    }

    /** The part of `flush` and `shutdown` before the wait; no future is returned by a closed recorder. */
    method Enqueue(shutdown: bool) returns (future: Option<nat>)
      requires worker.Dead? ==> closed
      modifies this
      ensures View() == Step(old(View()), if shutdown then Shutdown else Flush)
      ensures future == if old(closed) then None else Some(|old(futures)|)
    {
      if closed { return None; }
      EnsureWorker();
      future := Some(|futures|);
      queue := queue + [if shutdown then ShutdownRequest(|futures|) else FlushRequest(|futures|)];
      futures, due := futures + [Waiting], due + [|accepted|];
    }

    /** `_write_batch`: record by record, each followed by a newline. */
    method WriteItems(items: Batch)
      modifies this`written
      ensures written == old(written) + LedgerText(items)
    {
      for i := 0 to |items|
        invariant written + LedgerText(items[i..]) == old(written) + LedgerText(items)
      {
        assert items[i..][1..] == items[i + 1..];
        written := written + items[i];
        written := written + [LF];
      }
    }

    /** One turn of the worker's loop that succeeds. */
    method Serve()
      requires worker.Serving? && queue != []
      modifies this
      ensures View() == Step(old(View()), Work)
    {
      var request := queue[0];
      queue := queue[1..];
      match request
      case WriteBatch(items) =>
        WriteItems(items);
      case FlushRequest(f) =>
        durable := |written|;
        futures := Resolve(futures, f);
      case ShutdownRequest(f) =>
        durable := |written|;
        futures := Resolve(futures, f);
        worker := Stopped;
    }

    /** The worker's exception handler with `_fail_pending_waiters`; `rest` is the queue without the request
        in hand. */
    method FailPendingWaiters(rest: seq<Request>)
      modifies this
      ensures View() == old(View()).(queue := [], worker := Dead, closed := true,
          futures := FailQueued(old(futures), rest))
    {
      closed := true;
      worker := Dead;
      queue := rest;
      while queue != []
        invariant View() == old(View()).(queue := queue, worker := Dead, closed := true, futures := futures)
        invariant FailQueued(futures, queue) == FailQueued(old(futures), rest)
        decreases |queue|
      {
        var request := queue[0];
        queue := queue[1..];
        if !request.WriteBatch? && request.future < |futures| && futures[request.future] == Waiting {
          futures := futures[request.future := Failed];
        }
      }
    }
  }
}
