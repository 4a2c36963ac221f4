# Message canister store, modelled in Dafny

The backend keeps messages in two pieces of canister state: `ID_COUNTER`,
a persisted `u64` cell initialised to 0, and `STORAGE`, an ordered map from
`u64` id to `Message`. Five entry points work on them: `add_message`,
`get_message`, `get_all_messages`, `update_message` and `delete_message`,
with `_get_message` (point lookup) and `insert_message` (keyed write) as
helpers.

The model is a class `Backend.Canister` whose fields are the counter
(`idCounter: uint64`) and the map (`storage: map<uint64, Message>`), plus a
ghost field `Issued` holding every id the counter has handed out. Its object
invariant `Valid()` says that every record is stored under its own id, that
every key is an issued id, and that the issued ids are exactly those below
the counter. Every entry point keeps this invariant and states its whole new
state. The state-changing entry points are methods with `modifies`. The
read-only queries change nothing.

- `types.dfy` (module `Types`): `Message`, `MessagePayload`, `MyError`,
  `ApiResponse`, `Option`, `Result`, and `uint64`.
- `format.dfy` (module `Format`): the decimal rendering of an id that
  `format!` puts into the error texts, with its inverse and a round-trip lemma.
- `listing.dfy` (module `Listing`): the in-order scan of the ordered map.
  The map is abstract; the iterator visits keys in ascending order, realised
  as repeated extraction of the smallest key not yet visited
  (`CollectInKeyOrder`, `SmallestKey`).
  The specification functions `AscendingKeys` and `ValuesInKeyOrder` say what
  the scan yields.
- `canister.dfy` (module `Backend`): the class and its entry points.
- `scenarios.dfy` (module `Scenarios`): callers that use only the entry
  points' contracts. `Replay` runs any sequence of calls on a fresh canister
  and relates its listing to `LiveIds`, the ids of the adds in the sequence
  that no later delete removed.
  `AddUpdateDeleteScenario` runs the add/add/update/delete/get walk-through.

The host clock `ic_cdk::api::time()` is the parameter `now` of `AddMessage`
and `UpdateMessage`. The first id issued is 0, because `Cell::set` returns
the previous value and that value becomes the id.

The read error text keeps the code's spelling, "a message with id=<id> not
fount". The record field is `attachement_url` (kept as `attachementUrl`)
while the payload field is `attachment_url`.

## Model

| member | source | states |
|---|---|---|
| Backend.Canister.constructor | src/icp_rust_boilerplate_backend/src/lib.rs:72-81 | a fresh canister has counter 0, an empty map, no issued ids, and satisfies the invariant |
| Backend.Canister.LookupMessage | src/icp_rust_boilerplate_backend/src/lib.rs:119-124 | the lookup is `Some` exactly when the id is a key, then holds the stored record, whose id is the looked-up id under the invariant |
| Backend.Canister.GetMessage | src/icp_rust_boilerplate_backend/src/lib.rs:106-118 | returns `Ok` of the stored record when the id is a key, otherwise `NotFound` with the read error text; changes nothing |
| Backend.Canister.GetAllMessages | src/icp_rust_boilerplate_backend/src/lib.rs:126-143 | always returns data `Some(ValuesInKeyOrder(storage))`, exactly one success log line and no error; the data has one entry per key, contains every stored record, lists only records stored under their own id, is strictly ascending by id, and the set of listed ids is exactly the key set |
| Backend.Canister.AllocateId | src/icp_rust_boilerplate_backend/src/lib.rs:148-151 | returns the counter value before the call, leaves the counter one larger, the returned id was never issued before, and the map is unchanged |
| Backend.Canister.InsertMessage | src/icp_rust_boilerplate_backend/src/lib.rs:196-198 | the new map is the old one with the record written under its own id, last write wins |
| Backend.Canister.AddMessage | src/icp_rust_boilerplate_backend/src/lib.rs:147-162 | returns `Some` of a record with id = old counter, the payload's title, body and url, `created_at = now`, `updated_at = None`; that id was never issued and is not a key; the counter grows by one; the map gains exactly that entry and nothing else changes; the invariant is kept |
| Backend.Canister.UpdateMessage | src/icp_rust_boilerplate_backend/src/lib.rs:166-181 | on a present id keeps id and `created_at`, takes title, body and url from the payload, sets `updated_at = Some(now)`, writes it back under the same key and returns it; on an absent id returns `NotFound` with the map unchanged; never changes the counter or the key set; keeps the invariant |
| Backend.Canister.DeleteMessage | src/icp_rust_boilerplate_backend/src/lib.rs:184-192 | on a present id removes exactly that key and returns the removed record; on an absent id returns `NotFound` with the map unchanged; never touches the counter or the issued ids, so a deleted id is never reissued; keeps the invariant |
| Listing.MinKey | src/icp_rust_boilerplate_backend/src/lib.rs:129-131 | the least key of a non-empty key set is a member and below or equal to every member |
| Listing.CollectInKeyOrder | src/icp_rust_boilerplate_backend/src/lib.rs:129-132 | collecting the map's values through its iterator yields exactly `ValuesInKeyOrder` of the map |
| Listing.SmallestKey | src/icp_rust_boilerplate_backend/src/lib.rs:129-131 | the iterator step finds the least remaining key |
| Listing.AscendingKeys | src/icp_rust_boilerplate_backend/src/lib.rs:129-132 | the scan order of a key set has one entry per key, only keys of the set, and is strictly ascending |
| Listing.AscendingKeysCovers | src/icp_rust_boilerplate_backend/src/lib.rs:129-132 | every key of the set appears in the scan order |
| Listing.ValuesInKeyOrder | src/icp_rust_boilerplate_backend/src/lib.rs:129-132 | the collected values have as many entries as the map has keys |
| Listing.ListingCoversStore | src/icp_rust_boilerplate_backend/src/lib.rs:129-132 | the collected values contain every stored record and only stored records |
| Listing.ListedIds | src/icp_rust_boilerplate_backend/src/lib.rs:129-132 | when records sit under their own ids, the set of ids in the collected values is exactly the map's key set |
| Listing.ListingOrderedById | src/icp_rust_boilerplate_backend/src/lib.rs:129-132 | when records sit under their own ids, the collected values are strictly ascending by id and each is the record stored under its id |
| Format.Decimal | src/icp_rust_boilerplate_backend/src/lib.rs:115 | an id renders as a non-empty string of decimal digits with a leading zero only for 0 |
| Format.DecimalRoundTrip | src/icp_rust_boilerplate_backend/src/lib.rs:115 | reading the rendered digits back gives the id again |
| Backend.NotFoundTextsInjective | src/icp_rust_boilerplate_backend/src/lib.rs:115-189 | each of the three not-found texts determines its id: equal texts for ids a and b imply a = b |
| Scenarios.Replay | src/icp_rust_boilerplate_backend/src/lib.rs:147-192 | over any call sequence on a fresh canister the i-th add issues id i, whatever reads, updates and deletes lie between; the final listing is strictly ascending by id, its ids are exactly `LiveIds(calls)` (the ids of adds not later deleted), and the number of deletes that found their record is the number of adds minus the number of live ids |
| Scenarios.RunCalls | src/icp_rust_boilerplate_backend/src/lib.rs:147-192 | running the calls one after another from a fresh canister keeps the invariant, issues ids 0, 1, 2, … in add order, leaves the counter at the number of adds and the key set at `LiveIds(calls)` |
| Scenarios.ApplyCall | src/icp_rust_boilerplate_backend/src/lib.rs:147-192 | one call keeps the invariant; only an add moves the counter, by one, and it issues the old counter value; a delete reports success exactly when its id was a key; an add grows the record count by one, a successful delete shrinks it by one, other calls leave it; the new key set is the old one with the add's id inserted or the deleted id removed (`NextLive`) |
| Scenarios.AppendCall | src/icp_rust_boilerplate_backend/src/lib.rs:147-192 | appending one call to a history adds one to the add count only for an add, and moves the live ids by one `NextLive` step |
| Scenarios.AddUpdateDeleteScenario | src/icp_rust_boilerplate_backend/src/lib.rs:147-192 | from a fresh canister two adds give ids 0 and 1; updating 0 changes the title, keeps `created_at` and stamps `updated_at`; deleting 1 returns the second record; reading 1 afterwards is `NotFound` |

## Left out

- The Candid codec (`Storable::to_bytes`/`from_bytes`) and the bound `MAX_SIZE = 1024`: the byte format and the size check live in external crates whose code is not part of this model. Records are stored as values, so encode and decode failures (which panic in the code) cannot occur in the model.
- The memory manager and its virtual memory regions, and persistence across upgrades: `STORAGE` is a plain map and `ID_COUNTER` a plain field.
- The B-tree inside `StableBTreeMap`: only its map semantics and its ascending-key iteration are modelled.
- `ic_cdk::api::time()`: a host call, passed in as the parameter `now`.
- `println!` logging, the query/update attributes, `export_candid!()`, the `thread_local!`/`RefCell` borrow checks and the `Display` impl of the error: none of them affects the state.
- The `expect("Cannot create a counter")` and `expect("cannot increment id counter")` panics: a stable-memory failure of the host is not modelled.
- Backend.Canister.AddMessage: requires the counter below `u64::MAX`; at `u64::MAX` the addition `current_value + 1` overflows (a trap with overflow checks, a wrap to 0 without), and that case is not modelled.
- Backend.Canister.AllocateId: shares that precondition, for the same reason.
- `SerializationError` is declared in `MyError` but no operation produces it.
