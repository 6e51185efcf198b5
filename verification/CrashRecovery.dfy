/** Writer, crash and repair together: what a flush promises survives a crash at any byte. */
module CrashRecovery {
  import opened JsonText
  import opened LedgerFile
  import Recorder

  function Flatten(batches: seq<Recorder.Batch>): seq<bytes> {
    if batches == [] then [] else Flatten(batches[..|batches| - 1]) + batches[|batches| - 1]
  }

  lemma {:induction false} TextIsLedger(batches: seq<Recorder.Batch>)
    ensures Recorder.Text(batches) == LedgerText(Flatten(batches))
  {
    if batches == [] {
    } else {
      TextIsLedger(batches[..|batches| - 1]);
      LedgerConcat(Flatten(batches[..|batches| - 1]), batches[|batches| - 1]);
    }
  }

  lemma {:induction false} FlattenPrefix(batches: seq<Recorder.Batch>, n: nat)
    requires n <= |batches|
    ensures Flatten(batches[..n]) <= Flatten(batches)
    decreases |batches|
  {
    if n == |batches| {
      assert batches[..n] == batches;
    } else {
      var shorter := batches[..|batches| - 1];
      FlattenPrefix(shorter, n);
      assert shorter[..n] == batches[..n];
    }
  }

  lemma {:induction false} LedgerShorter(records: seq<bytes>, k: nat)
    requires k <= |records|
    ensures |LedgerText(records[..k])| <= |LedgerText(records)|
  {
    LedgerConcat(records[..k], records[k..]);
    assert records[..k] + records[k..] == records;
  }

  /** The process dies at any moment of any run, leaving any part of the file not shorter than its durable
      part. Repair then leaves exactly the ledger of the first `kept` records ever accepted, and `kept`
      covers everything accepted before a flush that returned. */
  lemma FlushedRecordsSurviveCrash(
        earlier: seq<bytes>, actions: seq<Recorder.Action>, f: nat, size: nat, isObject: bytes -> bool)
    requires Recorder.Possible(Recorder.Fresh(LedgerText(earlier)), actions)
    requires var s := Recorder.Run(Recorder.Fresh(LedgerText(earlier)), actions);
      && s.durable <= size <= |s.written| && f < |s.futures|
      && AllRecords(earlier + Flatten(s.accepted)) && AcceptsAll(isObject, earlier + Flatten(s.accepted))
    requires OnlyAcceptsObjects(isObject)
    ensures var s := Recorder.Run(Recorder.Fresh(LedgerText(earlier)), actions);
      var all := earlier + Flatten(s.accepted);
      var kept := Complete(all, size);
      && kept <= |all|
      && Repaired(s.written[..size], isObject) == LedgerText(all[..kept])
      && (s.futures[f] == Recorder.Resolved ==>
            |s.due| == |s.futures| && s.due[f] <= |s.accepted| && |earlier| + |Flatten(s.accepted[..s.due[f]])| <= kept)
  {
    var base := LedgerText(earlier);
    var s := Recorder.Run(Recorder.Fresh(base), actions);
    var all := earlier + Flatten(s.accepted);
    var whole := LedgerText(all);
    Recorder.FileIsPrefixOfAccepted(base, actions);
    TextIsLedger(s.accepted);
    LedgerConcat(earlier, Flatten(s.accepted));
    assert s.written <= whole;
    assert s.written[..size] == whole[..size];
    RepairKeepsCompleteRecords(all, size, isObject);
    if s.futures[f] == Recorder.Resolved {
      Recorder.ResolvedWaitIsDurable(base, actions, f);
      var flushed := s.accepted[..s.due[f]];
      TextIsLedger(flushed);
      LedgerConcat(earlier, Flatten(flushed));
      FlattenPrefix(s.accepted, s.due[f]);
      FlushedAreComplete(all, earlier + Flatten(flushed), size);
    }
  }

  lemma LongerIsCut(all: seq<bytes>, size: nat, m: nat)
    requires AllRecords(all) && Complete(all, size) < m <= |all|
    ensures size < |LedgerText(all[..m])|
  {
    forall i | 0 <= i < |all|
      ensures all[i] != []
    {
      assert IsRecord(all[i]);
      ObjectTextStarts(all[i]);
    }
    CompleteIsLongest(all, size);
    var next := Complete(all, size) + 1;
    assert all[..m][..next] == all[..next];
    LedgerShorter(all[..m], next);
  }

  lemma FlushedAreComplete(all: seq<bytes>, flushed: seq<bytes>, size: nat)
    requires AllRecords(all) && flushed <= all && |LedgerText(flushed)| <= size
    ensures |flushed| <= Complete(all, size)
  {
    assert all[..|flushed|] == flushed;
    if Complete(all, size) < |flushed| {
      LongerIsCut(all, size, |flushed|);
    }
  }
}
