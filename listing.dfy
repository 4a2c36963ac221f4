/** The in-order scan of the ordered map `STORAGE`: the map is kept abstract
    (a Dafny `map`), and its iterator visits the keys in ascending order. */
module Listing {
  import opened Types

  /** Every record is stored under its own id. */
  ghost predicate IdsMatchKeys(m: map<uint64, Message>)
  {
    forall k :: k in m ==> m[k].id == k
  }

  /** The least key of a non-empty key set. */
  ghost function MinKey(ks: set<uint64>): (k: uint64)
    requires ks != {}
    ensures k in ks
    ensures forall j :: j in ks ==> k <= j
  {
    var x :| x in ks;
    var rest := ks - {x};
    if rest == {} then
      assert ks == {x};
      x
    else
      var m := MinKey(rest);
      assert ks == rest + {x};
      if x <= m then x else m
  }

  /** The keys of `ks`, each once, in strictly ascending order. */
  ghost function AscendingKeys(ks: set<uint64>): (s: seq<uint64>)
    ensures |s| == |ks|
    ensures forall i :: 0 <= i < |s| ==> s[i] in ks
    ensures forall i, j :: 0 <= i < j < |s| ==> s[i] < s[j]
  {
    if ks == {} then []
    else
      var k := MinKey(ks);
      var rest := ks - {k};
      assert ks == rest + {k} && |rest| == |ks| - 1;
      var tail := AscendingKeys(rest);
      var s := [k] + tail;
      assert forall i, j :: 0 <= i < j < |s| ==> s[i] < s[j] by {
        assert forall i :: 0 <= i < |tail| ==> k < tail[i];
        assert forall i :: 1 <= i < |s| ==> s[i] == tail[i - 1];
      }
      s
  }

  /** The scan starts with the least key. */
  lemma AscendingKeysUnfold(ks: set<uint64>)
    requires ks != {}
    ensures AscendingKeys(ks) == [MinKey(ks)] + AscendingKeys(ks - {MinKey(ks)})
  {
  }

  /** One iterator step: after `visited`, the rest of the scan of `all`
      starts with the least key not yet visited. */
  lemma ScanStep(all: set<uint64>, visited: seq<uint64>, remaining: set<uint64>)
    requires remaining != {}
    requires visited + AscendingKeys(remaining) == AscendingKeys(all)
    ensures (visited + [MinKey(remaining)]) + AscendingKeys(remaining - {MinKey(remaining)}) == AscendingKeys(all)
  {
    AscendingKeysUnfold(remaining);
  }

  /** Every key of `ks` appears in `AscendingKeys(ks)`. */
  lemma {:induction false} AscendingKeysCovers(ks: set<uint64>)
    ensures forall k :: k in ks ==> k in AscendingKeys(ks)
  {
    if ks != {} {
      var k := MinKey(ks);
      AscendingKeysCovers(ks - {k});
      assert AscendingKeys(ks) == [k] + AscendingKeys(ks - {k});
    }
  }

  /** The records stored under the keys `ks`, in that order. */
  ghost function ValuesAt(m: map<uint64, Message>, ks: seq<uint64>): seq<Message>
    requires forall i :: 0 <= i < |ks| ==> ks[i] in m
  {
    seq(|ks|, i requires 0 <= i < |ks| => m[ks[i]])
  }

  /** Extending the visited keys by one key extends the visited records by
      the record under it. */
  lemma ValuesAtSnoc(m: map<uint64, Message>, ks: seq<uint64>, k: uint64)
    requires forall i :: 0 <= i < |ks| ==> ks[i] in m
    requires k in m
    ensures forall i :: 0 <= i < |ks + [k]| ==> (ks + [k])[i] in m
    ensures ValuesAt(m, ks + [k]) == ValuesAt(m, ks) + [m[k]]
  {
  }

  /** What iterating the ordered map and keeping the values yields. */
  ghost function ValuesInKeyOrder(m: map<uint64, Message>): (vs: seq<Message>)
    ensures |vs| == |m|
  {
    ValuesAt(m, AscendingKeys(m.Keys))
  }

  /** The scan lists every stored record and nothing else. */
  lemma ListingCoversStore(m: map<uint64, Message>)
    ensures forall k :: k in m ==> m[k] in ValuesInKeyOrder(m)
    ensures forall v :: v in ValuesInKeyOrder(m) ==> v in m.Values
  {
    var ks := AscendingKeys(m.Keys);
    var vs := ValuesInKeyOrder(m);
    AscendingKeysCovers(m.Keys);
    forall k | k in m
      ensures m[k] in vs
    {
      var i :| 0 <= i < |ks| && ks[i] == k;
      assert vs[i] == m[k];
    }
  }

  /** When every record sits under its own id, the scan is strictly
      ascending by id and each listed record is the one stored under its id. */
  lemma ListingOrderedById(m: map<uint64, Message>)
    requires IdsMatchKeys(m)
    ensures forall i :: 0 <= i < |ValuesInKeyOrder(m)| ==>
      ValuesInKeyOrder(m)[i].id in m && m[ValuesInKeyOrder(m)[i].id] == ValuesInKeyOrder(m)[i]
    ensures forall i, j :: 0 <= i < j < |ValuesInKeyOrder(m)| ==>
      ValuesInKeyOrder(m)[i].id < ValuesInKeyOrder(m)[j].id
  {
  }

  /** When every record sits under its own id, the ids in the scan are
      exactly the keys. */
  lemma ListedIds(m: map<uint64, Message>)
    requires IdsMatchKeys(m)
    ensures (set i | 0 <= i < |ValuesInKeyOrder(m)| :: ValuesInKeyOrder(m)[i].id) == m.Keys
  {
    var vs := ValuesInKeyOrder(m);
    ListingCoversStore(m);
    ListingOrderedById(m);
    forall k | k in m
      ensures k in (set i | 0 <= i < |vs| :: vs[i].id)
    {
      var i :| 0 <= i < |vs| && vs[i] == m[k];
    }
  }

  /** `iter().map(|(_, message)| message).collect()`: the values of the map,
      visited in ascending key order. */
  method CollectInKeyOrder(m: map<uint64, Message>) returns (vs: seq<Message>)
    ensures vs == ValuesInKeyOrder(m)
  {
    var remaining := m.Keys;
    vs := [];
    ghost var visited: seq<uint64> := [];
    while remaining != {}
      invariant remaining <= m.Keys
      invariant forall i :: 0 <= i < |visited| ==> visited[i] in m
      invariant visited + AscendingKeys(remaining) == AscendingKeys(m.Keys)
      invariant vs == ValuesAt(m, visited)
      decreases remaining
    {
      var k := SmallestKey(remaining);
      ValuesAtSnoc(m, visited, k);
      ScanStep(m.Keys, visited, remaining);
      vs := vs + [m[k]];
      visited := visited + [k];
      remaining := remaining - {k};
    }
    assert AscendingKeys(remaining) == [] && visited + [] == visited;
  }

  /** One step of the iterator: the smallest key not yet visited. */
  method SmallestKey(ks: set<uint64>) returns (k: uint64)
    requires ks != {}
    ensures k in ks && forall j :: j in ks ==> k <= j
    ensures k == MinKey(ks)
  {
    k :| k in ks;
    var unseen := ks - {k};
    while unseen != {}
      invariant unseen <= ks && k in ks
      invariant forall j :: j in ks && j !in unseen ==> k <= j
      decreases unseen
    {
      var j :| j in unseen;
      if j < k {
        k := j;
      }
      unseen := unseen - {j};
    }
  }
}
