/** The canister's state and its five entry points. `ID_COUNTER` becomes the
    field `idCounter`, `STORAGE` the field `storage`; the host clock is the
    parameter `now` of the operations that stamp a time. */
module Backend {
  import opened Types
  import opened Listing
  import Format

  const LIST_SUCCESS_LOG: string := "Succesfully Retrieved all messages"

  function GetNotFoundText(id: uint64): string
  {
    "a message with id=" + Format.Decimal(id) + " not fount"
  }

  function UpdateNotFoundText(id: uint64): string
  {
    "couldn't update a message with id=" + Format.Decimal(id) + ". message not found"
  }

  function DeleteNotFoundText(id: uint64): string
  {
    "couldn't delete message of id=" + Format.Decimal(id) + ". message not found"
  }

  /** A decimal id framed by a fixed prefix and suffix can be read back, so
      two framings agree only when the ids do. */
  lemma FramedDecimalInjective(prefix: string, suffix: string, a: nat, b: nat)
    requires prefix + Format.Decimal(a) + suffix == prefix + Format.Decimal(b) + suffix
    ensures a == b
  {
    var t := prefix + Format.Decimal(a) + suffix;
    assert t[|prefix|..|t| - |suffix|] == Format.Decimal(a);
    assert t[|prefix|..|t| - |suffix|] == Format.Decimal(b);
    Format.DecimalRoundTrip(a);
    Format.DecimalRoundTrip(b);
  }

  /** Each not-found text names its id: distinct ids give distinct texts. */
  lemma NotFoundTextsInjective(a: uint64, b: uint64)
    ensures GetNotFoundText(a) == GetNotFoundText(b) ==> a == b
    ensures UpdateNotFoundText(a) == UpdateNotFoundText(b) ==> a == b
    ensures DeleteNotFoundText(a) == DeleteNotFoundText(b) ==> a == b
  {
    if GetNotFoundText(a) == GetNotFoundText(b) {
      FramedDecimalInjective("a message with id=", " not fount", a, b);
    }
    if UpdateNotFoundText(a) == UpdateNotFoundText(b) {
      FramedDecimalInjective("couldn't update a message with id=", ". message not found", a, b);
    }
    if DeleteNotFoundText(a) == DeleteNotFoundText(b) {
      FramedDecimalInjective("couldn't delete message of id=", ". message not found", a, b);
    }
  }

  class Canister {
    var idCounter: uint64
    var storage: map<uint64, Message>
    /** Every id the counter has handed out, deleted or not. */
    ghost var Issued: set<uint64>

    /** Each record is stored under its own id, only issued ids are keys,
        and the issued ids are exactly those below the counter. */
    ghost predicate Valid()
      reads this
    {
      && IdsMatchKeys(storage)
      && storage.Keys <= Issued
      && (forall i: uint64 :: i in Issued <==> i < idCounter)
    }

    /** A fresh canister: the counter cell starts at 0, the map is empty. */
    constructor ()
      ensures Valid()
      ensures idCounter == 0 && storage == map[] && Issued == {}
    {
      idCounter := 0;
      storage := map[];
      Issued := {};
    }

    /** `_get_message`: point lookup in the map. */
    function LookupMessage(id: uint64): (r: Option<Message>)
      reads this
      ensures r.Some? <==> id in storage
      ensures r.Some? ==> r.value == storage[id]
      ensures Valid() && r.Some? ==> r.value.id == id
    {
      if id in storage then Some(storage[id]) else None
    }

    /** `get_message`: the stored record, or `NotFound`. */
    method GetMessage(id: uint64) returns (r: Result<Message, MyError>)
      ensures id in storage ==> r == Ok(storage[id])
      ensures id !in storage ==> r == Err(NotFound(GetNotFoundText(id)))
    {
      match LookupMessage(id)
      case Some(message) =>
        r := Ok(message);
      case None =>
        r := Err(NotFound(GetNotFoundText(id)));
    }

    /** `get_all_messages`: every record in ascending id order, wrapped in a
        response that always succeeds. */
    method GetAllMessages() returns (r: ApiResponse<seq<Message>>)
      requires Valid()
      ensures r == ApiResponse(Some(ValuesInKeyOrder(storage)), [LIST_SUCCESS_LOG], None)
      ensures |r.data.value| == |storage|
      ensures forall k :: k in storage ==> storage[k] in r.data.value
      ensures forall i :: 0 <= i < |r.data.value| ==>
        r.data.value[i].id in storage && storage[r.data.value[i].id] == r.data.value[i]
      ensures forall i, j :: 0 <= i < j < |r.data.value| ==> r.data.value[i].id < r.data.value[j].id
      ensures (set i | 0 <= i < |r.data.value| :: r.data.value[i].id) == storage.Keys
    {
      var messages := CollectInKeyOrder(storage);
      ListingCoversStore(storage);
      ListingOrderedById(storage);
      ListedIds(storage);
      r := ApiResponse(Some(messages), [LIST_SUCCESS_LOG], None);
    }

    /** The `ID_COUNTER` step of `add_message`: `Cell::set` stores the
        successor and hands back the previous value, which becomes the id. */
    method AllocateId() returns (id: uint64)
      requires Valid()
      requires idCounter < UINT64_MAX
      modifies this
      ensures Valid()
      ensures id == old(idCounter) && idCounter == old(idCounter) + 1
      ensures id !in old(Issued) && Issued == old(Issued) + {id}
      ensures storage == old(storage)
    {
      var current := idCounter;
      idCounter := current + 1;
      id := current;
      Issued := Issued + {id};
    }

    /** `insert_message`: the record is always keyed by its own id. */
    method InsertMessage(message: Message)
      modifies this`storage
      ensures storage == old(storage)[message.id := message]
    {
      storage := storage[message.id := message];
    }

    /** `add_message`: a record under a never-issued id, created now and
        not yet updated. */
    method AddMessage(payload: MessagePayload, now: uint64) returns (r: Option<Message>)
      requires Valid()
      requires idCounter < UINT64_MAX
      modifies this
      ensures Valid()
      ensures r == Some(Message(old(idCounter), payload.title, payload.body, payload.attachmentUrl, now, None))
      ensures r.value.id !in old(Issued) && r.value.id !in old(storage)
      ensures idCounter == old(idCounter) + 1 && Issued == old(Issued) + {r.value.id}
      ensures storage == old(storage)[r.value.id := r.value]
      ensures |storage| == |old(storage)| + 1
    {
      var id := AllocateId();
      var message := Message(id, payload.title, payload.body, payload.attachmentUrl, now, None);
      InsertMessage(message);
      r := Some(message);
    }

    /** `update_message`: overwrite the payload fields and stamp the update
        time of a present record; `NotFound` for an absent one. */
    method UpdateMessage(id: uint64, payload: MessagePayload, now: uint64) returns (r: Result<Message, MyError>)
      requires Valid()
      modifies this
      ensures Valid()
      ensures idCounter == old(idCounter) && Issued == old(Issued)
      ensures id in old(storage) ==>
        && r == Ok(Message(id, payload.title, payload.body, payload.attachmentUrl,
                           old(storage)[id].createdAt, Some(now)))
        && storage == old(storage)[id := r.value]
      ensures id !in old(storage) ==>
        r == Err(NotFound(UpdateNotFoundText(id))) && storage == old(storage)
      ensures storage.Keys == old(storage.Keys)
    {
      match LookupMessage(id)
      case Some(message) =>
        var updated := message.(attachementUrl := payload.attachmentUrl);
        updated := updated.(body := payload.body);
        updated := updated.(title := payload.title);
        updated := updated.(updatedAt := Some(now));
        InsertMessage(updated);
        r := Ok(updated);
      case None =>
        r := Err(NotFound(UpdateNotFoundText(id)));
    }

    /** `delete_message`: remove a present record and return it; the
        counter, and so the set of issued ids, is untouched. */
    method DeleteMessage(id: uint64) returns (r: Result<Message, MyError>)
      requires Valid()
      modifies this`storage
      ensures Valid()
      ensures id in old(storage) ==> r == Ok(old(storage)[id]) && storage == old(storage) - {id}
      ensures id in old(storage) ==> |storage| == |old(storage)| - 1
      ensures id !in old(storage) ==>
        r == Err(NotFound(DeleteNotFoundText(id))) && storage == old(storage)
      ensures id !in storage
    {
      var removed := LookupMessage(id);
      storage := storage - {id};
      match removed
      case Some(message) =>
        r := Ok(message);
      case None =>
        r := Err(NotFound(DeleteNotFoundText(id)));
    }
  }
}
