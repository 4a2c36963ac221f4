/** Clients of the canister: what a caller can conclude from the five entry
    points' contracts alone, over a whole sequence of calls. */
module Scenarios {
  import opened Types
  import opened Backend

  /** One call to an entry point, with the clock reading it would see. */
  datatype Call =
    | AddCall(payload: MessagePayload, now: uint64)
    | GetCall(id: uint64)
    | UpdateCall(id: uint64, payload: MessagePayload, now: uint64)
    | DeleteCall(id: uint64)

  function AddCount(calls: seq<Call>): nat
  {
    if calls == [] then 0
    else AddCount(calls[..|calls| - 1]) + (if calls[|calls| - 1].AddCall? then 1 else 0)
  }

  /** The ids that are keys after one more call, given the ids `live` that
      were keys and the number `adds` of adds so far: an add contributes
      `adds`, a delete takes its id out, reads and updates change nothing. */
  function NextLive(live: set<int>, adds: nat, call: Call): set<int>
  {
    if call.AddCall? then live + {adds}
    else if call.DeleteCall? then live - {call.id}
    else live
  }

  /** Reference definition of the ids that are keys after `calls` on a fresh
      canister. */
  ghost function LiveIds(calls: seq<Call>): set<int>
  {
    if calls == [] then {}
    else
      var prefix := calls[..|calls| - 1];
      NextLive(LiveIds(prefix), AddCount(prefix), calls[|calls| - 1])
  }

  /** How one more call extends `AddCount` and `LiveIds`. */
  lemma AppendCall(prefix: seq<Call>, call: Call)
    ensures AddCount(prefix + [call]) == AddCount(prefix) + (if call.AddCall? then 1 else 0)
    ensures LiveIds(prefix + [call]) == NextLive(LiveIds(prefix), AddCount(prefix), call)
  {
    assert (prefix + [call])[..|prefix|] == prefix;
  }

  /** Performs one call on a canister holding the ids `live` after `adds`
      adds: an add issues the current counter value, a successful delete
      finds its id, and the keys afterwards are `NextLive(live, adds, call)`. */
  method ApplyCall(canister: Canister, ghost live: set<int>, ghost adds: nat, call: Call)
    returns (added: Option<uint64>, deleted: bool)
    requires canister.Valid()
    requires call.AddCall? ==> canister.idCounter < UINT64_MAX
    requires canister.idCounter == adds && canister.storage.Keys == live
    modifies canister
    ensures canister.Valid()
    ensures added == if call.AddCall? then Some(old(canister.idCounter)) else None
    ensures canister.idCounter == old(canister.idCounter) + (if call.AddCall? then 1 else 0)
    ensures deleted <==> call.DeleteCall? && call.id in old(canister.storage)
    ensures |canister.storage| + (if deleted then 1 else 0)
         == |old(canister.storage)| + (if call.AddCall? then 1 else 0)
    ensures canister.storage.Keys == NextLive(live, adds, call)
  {
    added, deleted := None, false;
    match call
    case AddCall(payload, now) =>
      var message := canister.AddMessage(payload, now);
      added := Some(message.value.id);
    case GetCall(id) =>
      var _ := canister.GetMessage(id);
    case UpdateCall(id, payload, now) =>
      var _ := canister.UpdateMessage(id, payload, now);
    case DeleteCall(id) =>
      var result := canister.DeleteMessage(id);
      deleted := result.Ok?;
  }

  /** Runs `calls` on a canister in its initial state. The i-th add issues
      id i whatever reads, updates and deletes come between; the keys left
      are `LiveIds(calls)`; `removed` counts the deletes that found their id. */
  method RunCalls(canister: Canister, calls: seq<Call>) returns (issued: seq<uint64>, removed: nat)
    requires canister.Valid() && canister.idCounter == 0 && canister.storage == map[]
    requires |calls| < UINT64_MAX
    modifies canister
    ensures canister.Valid()
    ensures canister.idCounter == |issued| == AddCount(calls)
    ensures forall i :: 0 <= i < |issued| ==> issued[i] == i
    ensures removed <= |issued| && |canister.storage| == |issued| - removed
    ensures canister.storage.Keys == LiveIds(calls)
  {
    issued, removed := [], 0;
    var n := 0;
    ghost var done: seq<Call> := [];
    ghost var live: set<int> := {};
    while n < |calls|
      invariant 0 <= n <= |calls| && done == calls[..n]
      invariant live == LiveIds(done) && |issued| == AddCount(done)
      invariant canister.Valid()
      invariant canister.idCounter == |issued| <= n
      invariant forall i :: 0 <= i < |issued| ==> issued[i] == i
      invariant removed <= |issued| && |canister.storage| == |issued| - removed
      invariant canister.storage.Keys == live
    {
      AppendCall(done, calls[n]);
      var added, deleted := ApplyCall(canister, live, |issued|, calls[n]);
      live := NextLive(live, |issued|, calls[n]);
      done := done + [calls[n]];
      if added.Some? {
        issued := issued + [added.value];
      }
      if deleted {
        removed := removed + 1;
      }
      n := n + 1;
      assert done == calls[..n];
    }
    assert done == calls;
  }

  /** Runs `calls` on a fresh canister, then lists it. The i-th add issues id
      i, so ids are distinct, increasing and never reissued after a delete;
      the listing holds the record of every add that was not deleted and no
      other, ascending by id, and `removed` counts the deletes that found
      their id. */
  method Replay(calls: seq<Call>) returns (issued: seq<uint64>, removed: nat, listing: seq<Message>)
    requires |calls| < UINT64_MAX
    ensures |issued| == AddCount(calls)
    ensures forall i :: 0 <= i < |issued| ==> issued[i] == i
    ensures removed <= |issued| && |listing| == |issued| - removed
    ensures forall i, j :: 0 <= i < j < |listing| ==> listing[i].id < listing[j].id
    ensures forall i :: 0 <= i < |listing| ==> listing[i].id < |issued|
    ensures (set i | 0 <= i < |listing| :: listing[i].id) == LiveIds(calls)
    ensures removed == AddCount(calls) - |LiveIds(calls)|
  {
    var canister := new Canister();
    issued, removed := RunCalls(canister, calls);
    var response := canister.GetAllMessages();
    listing := response.data.value;
    assert |canister.storage.Keys| == |canister.storage|;
  }

  /** Two adds, an update of the first, a delete of the second and a read
      of the deleted id, starting from a fresh canister. */
  method AddUpdateDeleteScenario(t0: uint64, t1: uint64, t2: uint64)
    returns (first: Option<Message>, second: Option<Message>, updated: Result<Message, MyError>,
             deleted: Result<Message, MyError>, missing: Result<Message, MyError>)
    ensures first == Some(Message(0, "A", "B", "U", t0, None))
    ensures second == Some(Message(1, "A", "B", "U", t1, None))
    ensures updated == Ok(Message(0, "C", "B", "U", t0, Some(t2)))
    ensures deleted == Ok(second.value)
    ensures missing == Err(NotFound(GetNotFoundText(1)))
  {
    var canister := new Canister();
    first := canister.AddMessage(MessagePayload("A", "B", "U"), t0);
    second := canister.AddMessage(MessagePayload("A", "B", "U"), t1);
    assert canister.storage[0] == first.value && canister.storage[1] == second.value;
    updated := canister.UpdateMessage(0, MessagePayload("C", "B", "U"), t2);
    assert updated.Ok? && canister.storage[1] == second.value;
    deleted := canister.DeleteMessage(1);
    assert 1 !in canister.storage;
    missing := canister.GetMessage(1);
  }
}
