/** Approval vocabulary and the session's decision store (pycodex/approval/policy.py). */
module Approval {
  import opened Prelude

  datatype Policy = Never | OnFailure | OnRequest | UnlessTrusted

  datatype Decision = Approved | ApprovedForSession | Denied | Abort

  /** The sorted-keys text of an approval key. */
  type Key = string

  /** The store as a value: cached decisions, the event each pending prompt will set, and the events
      created or set so far. */
  datatype Store = Store(cache: map<Key, Decision>, pending: map<Key, nat>, created: nat, signalled: set<nat>)

  const EMPTY_STORE := Store(map[], map[], 0, {})

  predicate SessionApproved(s: Store, key: Key) { key in s.cache && s.cache[key] == ApprovedForSession }

  /** Only session-wide approvals are kept. */
  function Put(s: Store, key: Key, decision: Decision): Store {
    if decision == ApprovedForSession then s.(cache := s.cache[key := decision]) else s
  }

  function CreatePending(s: Store, key: Key): Store {
    s.(pending := s.pending[key := s.created], created := s.created + 1)
  }

  /** `_finalize_pending_prompt`: publish the decision, clear the entry, wake the waiters. */
  function Finalize(s: Store, key: Key, decision: Option<Decision>): Store {
    var published := if decision.Some? then Put(s, key, decision.value) else s;
    if key in published.pending
    then published.(pending := published.pending - {key}, signalled := published.signalled + {published.pending[key]})
    else published
  }

  /** No decision ever evicts a session-wide approval. */
  lemma PutNeverEvicts(s: Store, key: Key, decision: Decision, other: Key)
    ensures SessionApproved(Put(s, key, decision), other) <==>
            SessionApproved(s, other) || (key == other && decision == ApprovedForSession)
  {}

  class ApprovalStore {
    var cache: map<Key, Decision>
    var pending: map<Key, nat>
    var created: nat
    var signalled: set<nat>

    function View(): Store
      reads this
    {
      Store(cache, pending, created, signalled)
    }

    constructor ()
      ensures View() == EMPTY_STORE
    {
      cache, pending, created, signalled := map[], map[], 0, {};
    }

    method Get(key: Key) returns (decision: Option<Decision>)
      ensures decision == if key in cache then Some(cache[key]) else None
    {
      return if key in cache then Some(cache[key]) else None;
    }

    method PutDecision(key: Key, decision: Decision)
      modifies this
      ensures View() == Put(old(View()), key, decision)
    {
      if decision != ApprovedForSession { return; }
      cache := cache[key := decision];
    }

    method GetPendingPrompt(key: Key) returns (event: Option<nat>)
      ensures event == if key in pending then Some(pending[key]) else None
    {
      return if key in pending then Some(pending[key]) else None;
    }

    method CreatePendingPrompt(key: Key) returns (event: nat)
      modifies this
      ensures View() == CreatePending(old(View()), key) && event == old(created)
    {
      event := created;
      created := created + 1;
      pending := pending[key := event];
    }

    method ClearPendingPrompt(key: Key) returns (event: Option<nat>)
      modifies this
      ensures event == old(if key in pending then Some(pending[key]) else None)
      ensures View() == old(View()).(pending := old(pending) - {key})
    {
      event := if key in pending then Some(pending[key]) else None;
      pending := pending - {key};
    }

    method FinalizePendingPrompt(key: Key, decision: Option<Decision>)
      modifies this
      ensures View() == Finalize(old(View()), key, decision)
    {
      if decision.Some? { PutDecision(key, decision.value); }
      var event := ClearPendingPrompt(key);
      if event.Some? {
        signalled := signalled + {event.value};
      } else {
        assert pending == old(pending);
      }
    }
  }
}
