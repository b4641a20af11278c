/** The application-wide event bus: named subscriptions with increasing ids. Callbacks and
    callers are opaque handles. */
module EventsSystem {
  import opened Wrappers
  import opened Sequences

  /** One subscription. `caller` is `None` when none was given; `callback` names the function. */
  datatype StoredCallback = StoredCallback(id: nat, eventName: string, caller: Option<nat>, callback: nat)

  function IdIsNot(id: nat): StoredCallback -> bool
  {
    (c: StoredCallback) => c.id != id
  }

  function CallerIsNot(caller: Option<nat>): StoredCallback -> bool
  {
    (c: StoredCallback) => c.caller != caller
  }

  function NameIs(eventName: string): StoredCallback -> bool
  {
    (c: StoredCallback) => c.eventName == eventName
  }

  /** Ids strictly increase along the list. */
  predicate IdsIncreasing(cbs: seq<StoredCallback>)
  {
    forall i, j :: 0 <= i < j < |cbs| ==> cbs[i].id < cbs[j].id
  }

  /** Every id was handed out: it lies between 1 and the counter. */
  predicate IdsIssued(cbs: seq<StoredCallback>, nextId: nat)
  {
    forall k :: 0 <= k < |cbs| ==> 1 <= cbs[k].id <= nextId
  }

  /** Removing entries keeps the ids increasing. */
  lemma {:induction false} FilterKeepsIdsIncreasing(cbs: seq<StoredCallback>, keep: StoredCallback -> bool)
    requires IdsIncreasing(cbs)
    ensures IdsIncreasing(Filter(cbs, keep))
  {
    if |cbs| > 0 {
      var tail := cbs[1..];
      assert IdsIncreasing(tail) by {
        forall i, j | 0 <= i < j < |tail| ensures tail[i].id < tail[j].id {
          assert tail[i] == cbs[i + 1] && tail[j] == cbs[j + 1];
        }
      }
      FilterKeepsIdsIncreasing(tail, keep);
      var rest := Filter(tail, keep);
      forall k | 0 <= k < |rest| ensures cbs[0].id < rest[k].id {
        assert rest[k] in rest;
        var m :| 0 <= m < |tail| && tail[m] == rest[k];
        assert tail[m] == cbs[m + 1];
      }
    }
  }

  /** Removing entries keeps every id issued. */
  lemma FilterKeepsIdsIssued(cbs: seq<StoredCallback>, keep: StoredCallback -> bool, nextId: nat)
    requires IdsIssued(cbs, nextId)
    ensures IdsIssued(Filter(cbs, keep), nextId)
  {
    var r := Filter(cbs, keep);
    forall k | 0 <= k < |r| ensures 1 <= r[k].id <= nextId {
      assert r[k] in r;
    }
  }

  function Handles(cbs: seq<StoredCallback>): seq<nat>
  {
    seq(|cbs|, k requires 0 <= k < |cbs| => cbs[k].callback)
  }

  /** The callbacks `emit(eventName)` calls, in registration order. */
  function Invoked(cbs: seq<StoredCallback>, eventName: string): seq<nat>
  {
    Handles(Filter(cbs, NameIs(eventName)))
  }

  /** A new subscription is called last by its own event and by no other. */
  lemma SubscriptionJoinsItsEvent(cbs: seq<StoredCallback>, entry: StoredCallback, eventName: string)
    ensures entry.eventName == eventName ==> Invoked(cbs + [entry], eventName) == Invoked(cbs, eventName) + [entry.callback]
    ensures entry.eventName != eventName ==> Invoked(cbs + [entry], eventName) == Invoked(cbs, eventName)
  {
    FilterAppend(cbs, [entry], NameIs(eventName));
    assert Filter([entry], NameIs(eventName)) == (if entry.eventName == eventName then [entry] else []) + Filter([], NameIs(eventName));
  }

  /** `off(id)` removes exactly the entries with that id, keeps the order, and is a no-op for
      an id that is not registered. */
  lemma OffRemovesExactly(cbs: seq<StoredCallback>, id: nat)
    ensures forall c :: c in Filter(cbs, IdIsNot(id)) <==> c in cbs && c.id != id
    ensures (forall k :: 0 <= k < |cbs| ==> cbs[k].id != id) ==> Filter(cbs, IdIsNot(id)) == cbs
  {
    if forall k :: 0 <= k < |cbs| ==> cbs[k].id != id {
      FilterKeepsAll(cbs, IdIsNot(id));
    }
  }

  /** `unsubscribe(caller)` removes exactly that caller's entries and keeps the order. */
  lemma UnsubscribeRemovesExactly(cbs: seq<StoredCallback>, caller: Option<nat>)
    ensures forall c :: c in Filter(cbs, CallerIsNot(caller)) <==> c in cbs && c.caller != caller
    ensures (forall k :: 0 <= k < |cbs| ==> cbs[k].caller != caller) ==> Filter(cbs, CallerIsNot(caller)) == cbs
    ensures Filter(Filter(cbs, CallerIsNot(caller)), CallerIsNot(caller)) == Filter(cbs, CallerIsNot(caller))
  {
    if forall k :: 0 <= k < |cbs| ==> cbs[k].caller != caller {
      FilterKeepsAll(cbs, CallerIsNot(caller));
    }
    FilterIdempotent(cbs, CallerIsNot(caller));
  }

  class Events {
    var callbacks: seq<StoredCallback>
    var nextId: nat

    predicate Valid()
      reads this
    {
      IdsIncreasing(callbacks) && IdsIssued(callbacks, nextId)
    }

    constructor()
      ensures Valid() && callbacks == [] && nextId == 0
    {
      callbacks := [];
      nextId := 0;
    }

    /** `emit`: the callbacks registered for `eventName`, each once, in registration order. */
    method Emit(eventName: string) returns (invoked: seq<nat>)
      ensures invoked == Invoked(callbacks, eventName)
      ensures |invoked| <= |callbacks|
    {
      invoked := [];
      for i := 0 to |callbacks|
        invariant invoked == Invoked(callbacks[..i], eventName)
      {
        SubscriptionJoinsItsEvent(callbacks[..i], callbacks[i], eventName);
        assert callbacks[..i + 1] == callbacks[..i] + [callbacks[i]];
        if callbacks[i].eventName == eventName {
          invoked := invoked + [callbacks[i].callback];
        }
      }
      assert callbacks[..|callbacks|] == callbacks;
    }

    /** `on`: draw the next id and append one subscription. */
    method On(eventName: string, caller: Option<nat>, callback: nat) returns (id: nat)
      requires Valid()
      modifies this
      ensures Valid()
      ensures id == old(nextId) + 1 && nextId == id
      ensures callbacks == old(callbacks) + [StoredCallback(id, eventName, caller, callback)]
      ensures forall k :: 0 <= k < |old(callbacks)| ==> old(callbacks)[k].id < id
    {
      nextId := nextId + 1;
      callbacks := callbacks + [StoredCallback(nextId, eventName, caller, callback)];
      id := nextId;
    }

    /** `off`: drop the subscriptions with this id. */
    method Off(id: nat)
      requires Valid()
      modifies this
      ensures Valid()
      ensures callbacks == Filter(old(callbacks), IdIsNot(id)) && nextId == old(nextId)
    {
      FilterKeepsIdsIncreasing(callbacks, IdIsNot(id));
      FilterKeepsIdsIssued(callbacks, IdIsNot(id), nextId);
      callbacks := Filter(callbacks, IdIsNot(id));
    }

    /** `unsubscribe`: drop every subscription made by this caller. */
    method Unsubscribe(caller: Option<nat>)
      requires Valid()
      modifies this
      ensures Valid()
      ensures callbacks == Filter(old(callbacks), CallerIsNot(caller)) && nextId == old(nextId)
    {
      FilterKeepsIdsIncreasing(callbacks, CallerIsNot(caller));
      FilterKeepsIdsIssued(callbacks, CallerIsNot(caller), nextId);
      callbacks := Filter(callbacks, CallerIsNot(caller));
    }
  }
}
