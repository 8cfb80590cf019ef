/**
The inverted indexes of the streaming manager: for each clob pair, subaccount or market id,
the ids of the subscriptions that named it.
*/
module SubscriptionIndex {
  import opened Seqs

  type SubId = nat

  type Index<!K> = map<K, seq<SubId>>

  function Entry<K>(index: Index<K>, k: K): seq<SubId> {
    if k in index then index[k] else []
  }

  /** Under key `k` the index lists exactly the subscriptions that named it, once each, and keeps
      no empty list. `names` gives each live subscription's own list. */
  ghost predicate ExactAt<K>(index: Index<K>, names: map<SubId, seq<K>>, k: K) {
    && (k in index ==> index[k] != [])
    && NoDup(Entry(index, k))
    && forall id :: id in Entry(index, k) <==> id in names && k in names[id]
  }

  ghost predicate Exact<K(!new)>(index: Index<K>, names: map<SubId, seq<K>>) {
    forall k :: ExactAt(index, names, k)
  }

  /** What subscribing does to one index: append the id under every named key, in turn. */
  function AddAll<K>(index: Index<K>, keys: seq<K>, id: SubId): Index<K> {
    if keys == [] then index
    else
      var before := AddAll(index, keys[..|keys| - 1], id);
      var k := keys[|keys| - 1];
      before[k := Entry(before, k) + [id]]
  }

  /** What removing does to one index: drop the first occurrence of the id under every key,
      and the key itself when its list becomes empty. */
  function DropAll<K>(index: Index<K>, id: SubId): Index<K> {
    map k | k in index && RemoveFirst(index[k], id) != [] :: RemoveFirst(index[k], id)
  }

  /** Under each key, subscribing appends the id as often as the request names the key. */
  lemma {:induction false} AddAllEntry<K>(index: Index<K>, keys: seq<K>, id: SubId, k: K)
    ensures Entry(AddAll(index, keys, id), k) == Entry(index, k) + Repeat(id, multiset(keys)[k])
    ensures k in AddAll(index, keys, id) <==> k in index || k in keys
  {
    if keys != [] {
      var n := |keys| - 1;
      var m := multiset(keys[..n])[k];
      assert keys == keys[..n] + [keys[n]];
      AddAllEntry(index, keys[..n], id, k);
      if k == keys[n] {
        RepeatSnoc(id, m);
        Associate(Entry(index, k), Repeat(id, m), [id]);
      }
    }
  }

  lemma {:induction false} AddAllExact<K(!new)>(
      index: Index<K>, names: map<SubId, seq<K>>, keys: seq<K>, id: SubId)
    requires Exact(index, names) && id !in names && NoDup(keys)
    ensures Exact(AddAll(index, keys, id), names[id := keys])
  {
    var after, names' := AddAll(index, keys, id), names[id := keys];
    forall k
      ensures ExactAt(after, names', k)
    {
      assert ExactAt(index, names, k);
      AddAllEntry(index, keys, id, k);
      NoDupMultiplicity(keys, k);
      assert Repeat(id, 1) == [id];
    }
  }

  lemma {:induction false} DropAllExact<K(!new)>(index: Index<K>, names: map<SubId, seq<K>>, id: SubId)
    requires Exact(index, names)
    ensures Exact(DropAll(index, id), names - {id})
  {
    var after, names' := DropAll(index, id), names - {id};
    forall k
      ensures ExactAt(after, names', k)
    {
      assert ExactAt(index, names, k);
      assert Entry(after, k) == RemoveFirst(Entry(index, k), id);
      RemoveFirstNoDup(Entry(index, k), id);
      forall x
        ensures x in Entry(after, k) <==> x in names' && k in names'[x]
      {
        RemoveFirstMember(Entry(index, k), id, x);
      }
    }
  }

  /** Removing a subscription undoes subscribing exactly when its request names no key twice. */
  lemma {:induction false} RemoveUndoesSubscribe<K(!new)>(index: Index<K>, keys: seq<K>, id: SubId)
    requires forall k :: k in index ==> index[k] != [] && id !in index[k]
    ensures DropAll(AddAll(index, keys, id), id) == index <==> NoDup(keys)
  {
    var back := DropAll(AddAll(index, keys, id), id);
    forall k
      ensures Entry(back, k) == Entry(index, k) + Repeat(id, if multiset(keys)[k] == 0 then 0 else multiset(keys)[k] - 1)
      ensures k in back <==> k in index || multiset(keys)[k] > 1
    {
      DropAfterAdd(index, keys, id, k);
    }
    if NoDup(keys) {
      forall k
        ensures k in back <==> k in index
        ensures k in index ==> back[k] == index[k]
      {
        NoDupMultiplicity(keys, k);
      }
      assert back == index;
    } else {
      var i, j :| 0 <= i < j < |keys| && keys[i] == keys[j];
      TwiceInMultiset(keys, i, j);
      assert |Entry(back, keys[i])| > |Entry(index, keys[i])|;
    }
  }

  lemma DropAfterAdd<K>(index: Index<K>, keys: seq<K>, id: SubId, k: K)
    requires forall k :: k in index ==> index[k] != [] && id !in index[k]
    ensures var back := DropAll(AddAll(index, keys, id), id);
            var n := multiset(keys)[k];
            && Entry(back, k) == Entry(index, k) + Repeat(id, if n == 0 then 0 else n - 1)
            && (k in back <==> k in index || n > 1)
  {
    var n := multiset(keys)[k];
    var after := AddAll(index, keys, id);
    AddAllEntry(index, keys, id, k);
    RemoveFirstAppend(Entry(index, k), Repeat(id, n), id);
    if n > 0 {
      assert RemoveFirst(Repeat(id, n), id) == Repeat(id, n - 1);
    }
    assert Entry(DropAll(after, id), k) == RemoveFirst(Entry(after, k), id);
  }

  lemma TwiceInMultiset<K>(keys: seq<K>, i: nat, j: nat)
    requires i < j < |keys| && keys[i] == keys[j]
    ensures multiset(keys)[keys[i]] >= 2
  {
    assert keys == keys[..j] + keys[j..];
    assert keys[i] in keys[..j] by { assert keys[..j][i] == keys[i]; }
    assert keys[j] in keys[j..] by { assert keys[j..][0] == keys[j]; }
  }

  /** The leftover of a request that names a key twice: after removal the dead id is still
      listed, so whoever is given that id next is sent this key's updates. */
  lemma DuplicateRequestLeavesDeadId()
    ensures DropAll(AddAll(map[], [7, 7], 0), 0) == map[7 := [0]]
  {
    DropAfterAdd(map[], [7, 7], 0, 7);
    assert multiset([7, 7])[7] == 2;
    var back := DropAll(AddAll(map[], [7, 7], 0), 0);
    forall k | k != 7
      ensures k !in back
    {
      DropAfterAdd(map[], [7, 7], 0, k);
      assert k !in [7, 7];
    }
    assert Repeat(0 as SubId, 1) == [0];
  }

  /** The subscribing loop over one index (run once per kind of id). */
  method AddSubscription<K>(index: Index<K>, keys: seq<K>, id: SubId) returns (r: Index<K>)
    ensures r == AddAll(index, keys, id)
  {
    r := index;
    for i := 0 to |keys|
      invariant r == AddAll(index, keys[..i], id)
    {
      assert keys[..i + 1][..i] == keys[..i];
      if keys[i] !in r {
        r := r[keys[i] := []];
      }
      r := r[keys[i] := r[keys[i]] + [id]];
    }
    assert keys[..|keys|] == keys;
  }

  /** The removing loop over one index. Keys are visited in any order. */
  method DropSubscription<K>(index: Index<K>, id: SubId) returns (r: Index<K>)
    ensures r == DropAll(index, id)
  {
    r := index;
    var todo := index.Keys;
    while todo != {}
      invariant todo <= index.Keys
      invariant forall k :: k in todo ==> k in r && r[k] == index[k]
      invariant forall k :: k !in todo ==> (k in r <==> k in DropAll(index, id))
      invariant forall k :: k !in todo && k in r ==> r[k] == RemoveFirst(index[k], id)
    {
      var k :| k in todo;
      var ids := DropFirst(r[k], id);
      if ids == [] {
        r := map x | x in r && x != k :: r[x];
      } else {
        r := r[k := ids];
      }
      todo := todo - {k};
    }
  }

  /** The scan of one list: cut the id out where it is first met. */
  method DropFirst(ids: seq<SubId>, id: SubId) returns (r: seq<SubId>)
    ensures r == RemoveFirst(ids, id)
  {
    for i := 0 to |ids|
      invariant id !in ids[..i]
    {
      if ids[i] == id {
        RemoveFirstAppend(ids[..i], ids[i..], id);
        assert ids == ids[..i] + ids[i..];
        return ids[..i] + ids[i + 1..];
      }
    }
    RemoveFirstAbsent(ids, id);
    return ids;
  }
}
