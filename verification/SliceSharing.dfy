/**
Recipient lists at the level of Go slices. `StreamingManager` models a cached recipient list as a
value; the source builds the list for a clob pair by appending the all-pairs subscriptions to the
index's own slice, so the list can share the index's array. This module follows the lists of one
clob pair through everything that can happen between caching and flushing, and proves exactly when
the list that is flushed names the recipients that were cached. Subscriptions are only ever removed
while nothing is cached, so what can happen is: a subscription that names the pair joins, or another
update is cached, with the all-pairs subscriptions of that moment.
*/
module SliceSharing {
  import opened Seqs
  import opened SubscriptionIndex

  /** Backing arrays; the length of an array is its capacity. */
  type Arrays = seq<seq<SubId>>

  datatype Slice = Slice(arr: nat, len: nat)

  predicate InBounds(h: Arrays, s: Slice) {
    s.arr < |h| && s.len <= |h[s.arr]|
  }

  function Read(h: Arrays, s: Slice): (r: seq<SubId>)
    requires InBounds(h, s)
    ensures |r| == s.len
  {
    h[s.arr][..s.len]
  }

  /** Whether an append of `n` elements writes into the slice's own array. */
  predicate Fits(h: Arrays, s: Slice, n: nat)
    requires InBounds(h, s)
  {
    s.len + n <= |h[s.arr]|
  }

  /** Arrays are added, and none is resized. */
  predicate Extends(h: Arrays, h': Arrays) {
    |h| <= |h'| && forall a :: 0 <= a < |h| ==> |h'[a]| == |h[a]|
  }

  /** Overwrites `a` from position `at`. */
  function Overwrite(a: seq<SubId>, at: nat, xs: seq<SubId>): (r: seq<SubId>)
    requires at + |xs| <= |a|
    ensures |r| == |a|
  {
    a[..at] + xs + a[at + |xs|..]
  }

  /** Go's append: in place when the capacity allows, otherwise into a new array that leaves
      `slack` spare places. */
  function Append(h: Arrays, s: Slice, xs: seq<SubId>, slack: nat): (r: (Arrays, Slice))
    requires InBounds(h, s)
    ensures InBounds(r.0, r.1) && InBounds(r.0, s) && Read(r.0, r.1) == Read(h, s) + xs
    ensures Extends(h, r.0)
  {
    if Fits(h, s, |xs|) then
      (h[s.arr := Overwrite(h[s.arr], s.len, xs)], Slice(s.arr, s.len + |xs|))
    else
      (h + [Read(h, s) + xs + Repeat(0, slack)], Slice(|h|, s.len + |xs|))
  }

  /** Caching one update for the pair: the recipients are the index's list followed by `all`. */
  function Cache(h: Arrays, index: Slice, all: seq<SubId>, slack: nat): (r: (Arrays, Slice))
    requires InBounds(h, index)
    ensures InBounds(r.0, r.1) && InBounds(r.0, index) && Read(r.0, r.1) == Read(h, index) + all
    ensures Read(r.0, index) == Read(h, index)
  {
    var r := Append(h, index, all, slack);
    assert Read(r.0, index) == Read(h, index);
    r
  }

  /** What an append to the index's slice does to an earlier recipient list. */
  lemma AppendSeen(h: Arrays, index: Slice, all: seq<SubId>, slack: nat, ys: seq<SubId>, slack': nat)
    requires InBounds(h, index)
    ensures var (h1, cached) := Cache(h, index, all, slack);
            var h2 := Append(h1, index, ys, slack').0;
            && InBounds(h2, cached)
            && (if Fits(h, index, |all|) && Fits(h1, index, |ys|) then
                  forall i :: 0 <= i < cached.len ==>
                    Read(h2, cached)[i] == if index.len <= i < index.len + |ys| then ys[i - index.len] else Read(h1, cached)[i]
                else Read(h2, cached) == Read(h1, cached))
  {
    var (h1, cached) := Cache(h, index, all, slack);
    var h2 := Append(h1, index, ys, slack').0;
    assert InBounds(h2, cached);
  }

  // ---- Between caching and flushing ----

  datatype Later =
    | Newcomer(id: SubId, slack: nat)
    | Caching(all: seq<SubId>, slack: nat)

  /** A newcomer is appended to the index; caching leaves the index's own slice as it is. */
  function After(h: Arrays, index: Slice, e: Later): (r: (Arrays, Slice))
    requires InBounds(h, index)
    ensures InBounds(r.0, r.1)
    ensures Extends(h, r.0)
  {
    match e
    case Newcomer(id, slack) => Append(h, index, [id], slack)
    case Caching(all, slack) => (Cache(h, index, all, slack).0, index)
  }

  function AfterAll(h: Arrays, index: Slice, es: seq<Later>): (r: Arrays)
    requires InBounds(h, index)
    ensures Extends(h, r)
    decreases |es|
  {
    if es == [] then h
    else
      var (h1, index1) := After(h, index, es[0]);
      AfterAll(h1, index1, es[1..])
  }

  /** Nothing is appended into the part of an array that the slice covers. */
  predicate Clear(s: Slice, index: Slice) {
    s.arr != index.arr || s.len <= index.len
  }

  lemma AfterKeepsClear(h: Arrays, index: Slice, s: Slice, e: Later)
    requires InBounds(h, index) && InBounds(h, s) && Clear(s, index)
    ensures var (h1, index1) := After(h, index, e);
            Clear(s, index1) && Read(h1, s) == Read(h, s)
  {
  }

  /** Whatever happens later, a slice that is clear of the index is never changed. */
  lemma {:induction false} ClearIsUntouched(h: Arrays, index: Slice, s: Slice, es: seq<Later>)
    requires InBounds(h, index) && InBounds(h, s) && Clear(s, index)
    ensures Read(AfterAll(h, index, es), s) == Read(h, s)
    decreases |es|
  {
    if es != [] {
      AfterKeepsClear(h, index, s, es[0]);
      var (h1, index1) := After(h, index, es[0]);
      ClearIsUntouched(h1, index1, s, es[1..]);
    }
  }

  /** A list without all-pairs subscriptions, or one that had to be copied, is flushed as it was
      cached, whatever happens in between. */
  lemma {:induction false} CopiedListIsSafe(h: Arrays, index: Slice, all: seq<SubId>, slack: nat, es: seq<Later>)
    requires InBounds(h, index) && (all == [] || !Fits(h, index, |all|))
    ensures var (h1, cached) := Cache(h, index, all, slack);
            Read(AfterAll(h1, index, es), cached) == Read(h1, cached)
  {
    var (h1, cached) := Cache(h, index, all, slack);
    ClearIsUntouched(h1, index, cached, es);
  }

  /** Subaccount and market updates cache the index's slice itself, which nothing later changes. */
  lemma {:induction false} WholeListIsSafe(h: Arrays, index: Slice, es: seq<Later>)
    requires InBounds(h, index)
    ensures Read(AfterAll(h, index, es), index) == Read(h, index)
  {
    ClearIsUntouched(h, index, index, es);
  }

  /** A newcomer's id is not in use, and no all-pairs subscription leaves before the flush. */
  ghost predicate Possible(all: seq<SubId>, es: seq<Later>) {
    forall i :: 0 <= i < |es| ==> PossibleNext(all, es[i])
  }

  ghost predicate PossibleNext(all: seq<SubId>, e: Later) {
    match e
    case Newcomer(id, _) => id !in all
    case Caching(again, _) => multiset(all) <= multiset(again)
  }

  predicate SomeoneJoins(es: seq<Later>) {
    exists i :: 0 <= i < |es| && es[i].Newcomer?
  }

  /** The all-pairs list of the last caching that finds room beside the index, or else `all`. */
  function LastInPlace(room: int, all: seq<SubId>, es: seq<Later>): seq<SubId>
    decreases |es|
  {
    if es == [] then all
    else LastInPlace(room, if es[0].Caching? && |es[0].all| <= room then es[0].all else all, es[1..])
  }

  /** Two lists name the same ids, each as often. */
  predicate SameIds(a: seq<SubId>, b: seq<SubId>) {
    multiset(a) == multiset(b)
  }

  /** A list begins with the all-pairs subscriptions `all`, in any order. */
  predicate BeginsWith(list: seq<SubId>, all: seq<SubId>) {
    |all| <= |list| && SameIds(list[..|all|], all)
  }

  /** `s` covers the index's list and `k` places after it in the same array. */
  predicate Shares(h: Arrays, index: Slice, s: Slice, k: nat) {
    InBounds(h, index) && InBounds(h, s) && s.arr == index.arr && s.len == index.len + k
  }

  lemma CachingShared(h: Arrays, index: Slice, s: Slice, k: nat, again: seq<SubId>, slack: nat)
    requires Shares(h, index, s, k) && k <= |again|
    ensures var h1 := Cache(h, index, again, slack).0;
            && Shares(h1, index, s, k) && |h1[index.arr]| == |h[index.arr]|
            && Read(h1, s)[index.len..] == (if Fits(h, index, |again|) then again[..k] else Read(h, s)[index.len..])
  {
    var h1 := Cache(h, index, again, slack).0;
    if Fits(h, index, |again|) {
      assert Read(h1, s)[index.len..] == again[..k];
    } else {
      assert Read(h1, s)[index.len..] == Read(h, s)[index.len..];
    }
  }

  lemma AtLeastAsLong(all: seq<SubId>, again: seq<SubId>)
    requires multiset(all) <= multiset(again)
    ensures |all| <= |again|
  {
    assert multiset(again) == multiset(all) + (multiset(again) - multiset(all));
    assert |multiset(all)| == |all| && |multiset(again)| == |again|;
  }

  /** While nobody joins, the places after the index's list hold what was last cached in place. */
  lemma {:induction false} LastCachingShows(h: Arrays, index: Slice, s: Slice, k: nat, now: seq<SubId>, es: seq<Later>)
    requires Shares(h, index, s, k) && k <= |now| && Read(h, s)[index.len..] == now[..k]
    requires forall i :: 0 <= i < |es| ==> es[i].Caching? && k <= |es[i].all|
    ensures var last := LastInPlace(|h[index.arr]| - index.len, now, es);
            k <= |last| && Read(AfterAll(h, index, es), s)[index.len..] == last[..k]
    decreases |es|
  {
    if es != [] {
      var again := es[0].all;
      CachingShared(h, index, s, k, again, es[0].slack);
      LastCachingShows(After(h, index, es[0]).0, index, s, k, if Fits(h, index, |again|) then again else now, es[1..]);
    }
  }

  /** Once somebody has joined in place, the first of those places is lost for good. */
  lemma {:induction false} NewcomerShows(h: Arrays, index: Slice, s: Slice, k: nat, all: seq<SubId>, es: seq<Later>)
    requires Shares(h, index, s, k) && 0 < k == |all| && Possible(all, es) && SomeoneJoins(es)
    ensures Read(AfterAll(h, index, es), s)[index.len] !in all
    decreases |es|
  {
    var (h1, index1) := After(h, index, es[0]);
    assert PossibleNext(all, es[0]);
    match es[0]
    case Newcomer(id, slack) =>
      var upTo := Slice(index.arr, index.len + 1);
      ClearIsUntouched(h1, index1, upTo, es[1..]);
      assert Read(h1, upTo)[index.len] == id;
      assert Read(AfterAll(h, index, es), upTo)[index.len] == Read(AfterAll(h, index, es), s)[index.len];
    case Caching(again, slack) =>
      AtLeastAsLong(all, again);
      CachingShared(h, index, s, k, again, slack);
      JoinsLater(es);
      assert forall i :: 0 <= i < |es| - 1 ==> es[1..][i] == es[i + 1];
      NewcomerShows(h1, index, s, k, all, es[1..]);
  }

  lemma {:induction false} JoinsLater(es: seq<Later>)
    requires SomeoneJoins(es) && !es[0].Newcomer?
    ensures SomeoneJoins(es[1..])
  {
    var i :| 0 <= i < |es| && es[i].Newcomer?;
    assert es[1..][i - 1] == es[i];
  }

  lemma TailDecides(a: seq<SubId>, b: seq<SubId>, n: nat)
    requires n <= |a| && n <= |b| && a[..n] == b[..n]
    ensures SameIds(a, b) <==> SameIds(a[n..], b[n..])
  {
    assert a == a[..n] + a[n..] && b == b[..n] + b[n..];
    assert multiset(a[n..]) == multiset(a) - multiset(a[..n]);
    assert multiset(b[n..]) == multiset(b) - multiset(b[..n]);
  }

  lemma {:induction false} JoinedListLost(h: Arrays, index: Slice, s: Slice, all: seq<SubId>, es: seq<Later>)
    requires Shares(h, index, s, |all|) && all != [] && Possible(all, es) && SomeoneJoins(es)
    ensures !SameIds(Read(AfterAll(h, index, es), s)[index.len..], all)
  {
    NewcomerShows(h, index, s, |all|, all, es);
    var tail := Read(AfterAll(h, index, es), s)[index.len..];
    assert tail[0] in multiset(tail);
  }

  lemma {:induction false} CachedOverList(h: Arrays, index: Slice, s: Slice, all: seq<SubId>, es: seq<Later>)
    requires Shares(h, index, s, |all|) && Read(h, s)[index.len..] == all && Possible(all, es) && !SomeoneJoins(es)
    ensures SameIds(Read(AfterAll(h, index, es), s)[index.len..], all)
       <==> BeginsWith(LastInPlace(|h[index.arr]| - index.len, all, es), all)
  {
    assert all[..|all|] == all;
    forall i | 0 <= i < |es|
      ensures es[i].Caching? && |all| <= |es[i].all|
    {
      assert PossibleNext(all, es[i]);
      AtLeastAsLong(all, es[i].all);
    }
    LastCachingShows(h, index, s, |all|, all, es);
  }

  /** What caching leaves: a list beside the index when there is room for it, otherwise a copy. */
  lemma CacheShares(h: Arrays, index: Slice, all: seq<SubId>, slack: nat)
    requires InBounds(h, index)
    ensures var (h1, cached) := Cache(h, index, all, slack);
            && |h1[index.arr]| == |h[index.arr]|
            && (if Fits(h, index, |all|) then Shares(h1, index, cached, |all|) else Clear(cached, index))
            && Read(h1, cached)[index.len..] == all
  {
  }

  lemma ReadPart(h: Arrays, s: Slice, part: Slice)
    requires InBounds(h, s) && s.arr == part.arr && part.len <= s.len
    ensures InBounds(h, part) && Read(h, s)[..part.len] == Read(h, part)
  {
  }

  lemma {:induction false} ListKept(h: Arrays, index: Slice, s: Slice, all: seq<SubId>, es: seq<Later>)
    requires Shares(h, index, s, |all|) && Read(h, s)[index.len..] == all && all != [] && Possible(all, es)
    ensures SameIds(Read(AfterAll(h, index, es), s), Read(h, s))
       <==> !SomeoneJoins(es) && BeginsWith(LastInPlace(|h[index.arr]| - index.len, all, es), all)
  {
    var end := AfterAll(h, index, es);
    ClearIsUntouched(h, index, index, es);
    ReadPart(end, s, index);
    ReadPart(h, s, index);
    TailDecides(Read(end, s), Read(h, s), index.len);
    if SomeoneJoins(es) {
      JoinedListLost(h, index, s, all, es);
    } else {
      CachedOverList(h, index, s, all, es);
    }
  }

  /** For every course of events up to the flush, the flushed list names the recipients cached exactly
      when no all-pairs subscription was listed, or the list was copied, or nobody joined the pair and
      the last list cached in its place begins with the same all-pairs subscriptions. */
  lemma {:induction false} RecipientsKept(h: Arrays, index: Slice, all: seq<SubId>, slack: nat, es: seq<Later>)
    requires InBounds(h, index) && Possible(all, es)
    ensures var (h1, cached) := Cache(h, index, all, slack);
            SameIds(Read(AfterAll(h1, index, es), cached), Read(h1, cached)) <==>
              || all == []
              || !Fits(h, index, |all|)
              || (!SomeoneJoins(es) && BeginsWith(LastInPlace(|h[index.arr]| - index.len, all, es), all))
  {
    var (h1, cached) := Cache(h, index, all, slack);
    CacheShares(h, index, all, slack);
    if all == [] || !Fits(h, index, |all|) {
      ClearIsUntouched(h1, index, cached, es);
    } else {
      ListKept(h1, index, cached, all, es);
    }
  }

  /** With the same all-pairs subscriptions, in whatever order the map yields them each time, no
      amount of later caching for the pair changes who an earlier update goes to. */
  lemma {:induction false} LaterCachingIsHarmless(h: Arrays, index: Slice, all: seq<SubId>, slack: nat, es: seq<Later>)
    requires InBounds(h, index)
    requires forall i :: 0 <= i < |es| ==> es[i].Caching? && multiset(es[i].all) == multiset(all)
    ensures var (h1, cached) := Cache(h, index, all, slack);
            SameIds(Read(AfterAll(h1, index, es), cached), Read(h1, cached))
  {
    LastIsSame(|h[index.arr]| - index.len, all, all, es);
    SameIsPossible(all, es);
    RecipientsKept(h, index, all, slack, es);
  }

  lemma {:induction false} SameIsPossible(all: seq<SubId>, es: seq<Later>)
    requires forall i :: 0 <= i < |es| ==> es[i].Caching? && multiset(es[i].all) == multiset(all)
    ensures Possible(all, es) && !SomeoneJoins(es)
  {
  }

  lemma {:induction false} LastIsSame(room: int, all: seq<SubId>, now: seq<SubId>, es: seq<Later>)
    requires multiset(now) == multiset(all)
    requires forall i :: 0 <= i < |es| ==> es[i].Caching? && multiset(es[i].all) == multiset(all)
    ensures BeginsWith(LastInPlace(room, now, es), all)
    decreases |es|
  {
    assert |multiset(now)| == |now| && |multiset(all)| == |all|;
    assert now[..|now|] == now;
    if es != [] {
      LastIsSame(room, all, if |es[0].all| <= room then es[0].all else now, es[1..]);
    }
  }

  /** A subscription that names the pair, arriving between caching and flushing, leaves the cached
      recipients as they were exactly when there was no all-pairs subscription or the list had to be
      copied; otherwise it takes the place of the first all-pairs subscription. */
  lemma SubscribeBetween(h: Arrays, index: Slice, all: seq<SubId>, slack: nat, id: SubId, slack': nat)
    requires InBounds(h, index) && id !in all
    ensures var (h1, cached) := Cache(h, index, all, slack);
            var h2 := Append(h1, index, [id], slack').0;
            var safe := all == [] || !Fits(h, index, |all|);
            && InBounds(h2, cached)
            && (multiset(Read(h2, cached)) == multiset(Read(h1, cached)) <==> safe)
            && (!safe ==> Read(h2, cached) == Read(h1, cached)[index.len := id])
  {
    var (h1, cached) := Cache(h, index, all, slack);
    var h2 := Append(h1, index, [id], slack').0;
    AppendSeen(h, index, all, slack, [id], slack');
    if all == [] {
      assert Read(h2, cached) == Read(h1, cached);
    } else if Fits(h, index, |all|) {
      var was, now := Read(h1, cached), Read(h2, cached);
      assert now == was[index.len := id];
      assert was[index.len] == all[0];
      assert multiset(now) == multiset(was) - multiset{all[0]} + multiset{id};
      assert multiset(now)[all[0]] == multiset(was)[all[0]] - 1;
    }
  }

  /** Concretely: one subscription names the pair, one wants every pair, an update is cached for both,
      and a third that names the pair arrives. The update then goes to the first and the third. */
  lemma DeliveryStolen()
    ensures var h := [[0, 9, 9, 9]];
            var index := Slice(0, 1);
            var (h1, cached) := Cache(h, index, [1], 0);
            var h2 := Append(h1, index, [2], 0).0;
            Read(h1, cached) == [0, 1] && InBounds(h2, cached) && Read(h2, cached) == [0, 2]
  {
    SubscribeBetween([[0, 9, 9, 9]], Slice(0, 1), [1], 0, 2, 0);
    assert Read([[0, 9, 9, 9]], Slice(0, 1)) == [0];
  }

  /** No one joins the pair, but a second subscription to every pair does before the next caching, which
      the set happens to yield first. The earlier update then goes to the newcomer instead. */
  lemma DeliveryDisplaced()
    ensures var h := [[0, 9, 9, 9]];
            var index := Slice(0, 1);
            var (h1, cached) := Cache(h, index, [1], 0);
            var h2 := AfterAll(h1, index, [Caching([2, 1], 0)]);
            Read(h1, cached) == [0, 1] && InBounds(h2, cached) && Read(h2, cached) == [0, 2]
  {
    var h, index := [[0, 9, 9, 9]], Slice(0, 1);
    var (h1, cached) := Cache(h, index, [1], 0);
    var es := [Caching([2, 1], 0)];
    assert Overwrite([0, 9, 9, 9], 1, [1]) == [0, 1, 9, 9];
    assert Overwrite([0, 1, 9, 9], 1, [2, 1]) == [0, 2, 1, 9];
    assert es[1..] == [];
    assert AfterAll(h1, index, es) == After(h1, index, es[0]).0 == [[0, 2, 1, 9]];
  }

  /** Two subscriptions to the pair in a row take both all-pairs places. */
  lemma TwoDeliveriesStolen()
    ensures var h := [[0, 9, 9, 9]];
            var index := Slice(0, 1);
            var (h1, cached) := Cache(h, index, [1, 5], 0);
            var h2 := AfterAll(h1, index, [Newcomer(2, 0), Newcomer(3, 0)]);
            Read(h1, cached) == [0, 1, 5] && InBounds(h2, cached) && Read(h2, cached) == [0, 2, 3]
  {
    var h, index := [[0, 9, 9, 9]], Slice(0, 1);
    var (h1, cached) := Cache(h, index, [1, 5], 0);
    var es := [Newcomer(2, 0), Newcomer(3, 0)];
    assert Overwrite([0, 9, 9, 9], 1, [1, 5]) == [0, 1, 5, 9];
    assert Overwrite([0, 1, 5, 9], 1, [2]) == [0, 2, 5, 9];
    assert Overwrite([0, 2, 5, 9], 2, [3]) == [0, 2, 3, 9];
    var (h2, index2) := After(h1, index, es[0]);
    assert h2 == [[0, 2, 5, 9]] && index2 == Slice(0, 2);
    var (h3, index3) := After(h2, index2, es[1]);
    assert h3 == [[0, 2, 3, 9]];
    assert es[1..][1..] == [] && AfterAll(h3, index3, []) == h3;
    assert AfterAll(h2, index2, es[1..]) == h3;
  }
}
