/** Small facts about sequences that the other modules share. */
module Seqs {

  /** No element occurs twice. */
  ghost predicate NoDup<T>(s: seq<T>) {
    forall i, j :: 0 <= i < j < |s| ==> s[i] != s[j]
  }

  /** The batches of a channel, one after the other. */
  function Flatten<T>(ss: seq<seq<T>>): seq<T> {
    if ss == [] then [] else Flatten(ss[..|ss| - 1]) + ss[|ss| - 1]
  }

  lemma {:induction false} FlattenConcat<T>(a: seq<seq<T>>, b: seq<seq<T>>)
    ensures Flatten(a + b) == Flatten(a) + Flatten(b)
    decreases |b|
  {
    if b == [] {
      assert a + b == a;
    } else {
      var c := b[..|b| - 1];
      assert (a + b)[..|a + b| - 1] == a + c;
      FlattenConcat(a, c);
    }
  }

  lemma FlattenOne<T>(s: seq<T>)
    ensures Flatten([s]) == s
  {
    assert Flatten<T>([]) == [];
    assert [s][..0] == [];
  }

  /** `u` repeated `n` times. */
  function Repeat<T>(u: T, n: nat): (r: seq<T>)
    ensures |r| == n && forall i :: 0 <= i < n ==> r[i] == u
  {
    seq(n, _ => u)
  }

  lemma Associate<T>(a: seq<T>, b: seq<T>, c: seq<T>)
    ensures a + (b + c) == a + b + c
  {
  }

  lemma RepeatSnoc<T>(u: T, n: nat)
    ensures Repeat(u, n + 1) == Repeat(u, n) + [u]
  {
  }

  lemma NoDupConcat<T>(a: seq<T>, b: seq<T>)
    requires NoDup(a) && NoDup(b) && forall x :: x in a ==> x !in b
    ensures NoDup(a + b)
  {
    forall i, j | 0 <= i < j < |a + b|
      ensures (a + b)[i] != (a + b)[j]
    {
      if i < |a| <= j {
        assert a[i] in a && b[j - |a|] in b;
      }
    }
  }

  /** Deletes the first occurrence of `x`, if there is one. */
  function RemoveFirst<T(==)>(s: seq<T>, x: T): seq<T> {
    if s == [] then [] else if s[0] == x then s[1..] else [s[0]] + RemoveFirst(s[1..], x)
  }

  lemma {:induction false} RemoveFirstAbsent<T>(s: seq<T>, x: T)
    requires x !in s
    ensures RemoveFirst(s, x) == s
  {
    if s != [] {
      RemoveFirstAbsent(s[1..], x);
    }
  }

  lemma {:induction false} RemoveFirstMember<T>(s: seq<T>, x: T, y: T)
    ensures y != x ==> (y in RemoveFirst(s, x) <==> y in s)
    ensures y in RemoveFirst(s, x) ==> y in s
    ensures NoDup(s) ==> x !in RemoveFirst(s, x)
  {
    if s != [] {
      RemoveFirstMember(s[1..], x, y);
      assert s == [s[0]] + s[1..];
    }
  }

  lemma {:induction false} RemoveFirstNoDup<T>(s: seq<T>, x: T)
    requires NoDup(s)
    ensures NoDup(RemoveFirst(s, x))
  {
    if s != [] && s[0] != x {
      RemoveFirstNoDup(s[1..], x);
      RemoveFirstMember(s[1..], x, s[0]);
    }
  }

  /** Removing from a concatenation touches the left part when it holds the element. */
  lemma {:induction false} RemoveFirstAppend<T>(s: seq<T>, t: seq<T>, x: T)
    requires x !in s
    ensures RemoveFirst(s + t, x) == s + RemoveFirst(t, x)
  {
    if s == [] {
      assert s + t == t;
    } else {
      assert (s + t)[1..] == s[1..] + t;
      RemoveFirstAppend(s[1..], t, x);
    }
  }

  /** A duplicate-free sequence lists each of its elements exactly once. */
  lemma {:induction false} NoDupMultiplicity<T>(s: seq<T>, x: T)
    requires NoDup(s)
    ensures multiset(s)[x] == if x in s then 1 else 0
  {
    if s != [] {
      var n := |s| - 1;
      assert s == s[..n] + [s[n]];
      NoDupMultiplicity(s[..n], x);
    }
  }

  // ---- Picking elements in order ----

  ghost predicate Increasing(ps: seq<nat>) {
    forall i, j :: 0 <= i < j < |ps| ==> ps[i] < ps[j]
  }

  /** `at` lists, in increasing order, exactly the positions of the elements to keep. */
  ghost predicate Marks<T>(at: seq<nat>, input: seq<T>, keep: T -> bool) {
    Increasing(at) && forall i: nat :: i in at <==> i < |input| && keep(input[i])
  }

  /** `out` holds what `get` makes of the elements at those positions, one after the other. */
  ghost predicate PicksAt<T, U>(input: seq<T>, keep: T -> bool, get: T -> U, out: seq<U>, at: seq<nat>) {
    && Marks(at, input, keep)
    && |out| == |at|
    && forall k :: 0 <= k < |at| ==> at[k] < |input| && out[k] == get(input[at[k]])
  }

  /** `out` holds what `get` makes of the elements to keep, each once and in their order. */
  ghost predicate Picks<T, U>(input: seq<T>, keep: T -> bool, get: T -> U, out: seq<U>) {
    exists at :: PicksAt(input, keep, get, out, at)
  }

  function Same<T>(): T -> T {
    x => x
  }

  lemma PicksNothing<T, U>(keep: T -> bool, get: T -> U)
    ensures Picks([], keep, get, [])
  {
    assert PicksAt([], keep, get, [], []);
  }

  /** Picking all but the last element, then perhaps the last. */
  lemma PicksLast<T, U>(input: seq<T>, keep: T -> bool, get: T -> U, before: seq<U>, out: seq<U>)
    requires input != [] && Picks(input[..|input| - 1], keep, get, before)
    requires var last := input[|input| - 1]; out == before + if keep(last) then [get(last)] else []
    ensures Picks(input, keep, get, out)
  {
    var n := |input| - 1;
    var at :| PicksAt(input[..n], keep, get, before, at);
    if keep(input[n]) {
      LastPicked(input, keep, get, before, at);
      assert out == before + [get(input[n])];
    } else {
      LastSkipped(input, keep, get, before, at);
      assert out == before;
    }
  }

  lemma LastPicked<T, U>(input: seq<T>, keep: T -> bool, get: T -> U, before: seq<U>, at: seq<nat>)
    requires input != [] && PicksAt(input[..|input| - 1], keep, get, before, at) && keep(input[|input| - 1])
    ensures PicksAt(input, keep, get, before + [get(input[|input| - 1])], at + [|input| - 1])
  {
    var n := |input| - 1;
    var more := at + [n];
    assert forall k :: 0 <= k < |at| ==> at[k] in at;
    assert Increasing(more);
    forall i: nat
      ensures i in more <==> i < |input| && keep(input[i])
    {
      assert i in more <==> i in at || i == n;
    }
  }

  lemma LastSkipped<T, U>(input: seq<T>, keep: T -> bool, get: T -> U, before: seq<U>, at: seq<nat>)
    requires input != [] && PicksAt(input[..|input| - 1], keep, get, before, at) && !keep(input[|input| - 1])
    ensures PicksAt(input, keep, get, before, at)
  {
  }
}
