/**
Random byte strings between two bounds. The random source is a list of raw draws: a draw below `n`
is the next raw number reduced modulo `n`, and 0 once the list is used up, so the lists of draws
cover every behaviour of the source.
*/
module RandomBytes {
  import opened Basics
  import opened Lex

  type Draws = seq<nat>

  function Draw(ds: Draws, n: nat): (r: nat)
    requires n > 0
    ensures r < n
  {
    if ds == [] then 0 else ds[0] % n
  }

  function Rest(ds: Draws): Draws {
    if ds == [] then [] else ds[1..]
  }

  function MinLen(start: Bytes, end: Bytes): nat { if |start| <= |end| then |start| else |end| }

  function MaxLen(start: Bytes, end: Bytes): nat { if |start| <= |end| then |end| else |start| }

  // ---- The generator, step by step ----

  /** The bounds of the next byte, and whether what was generated still follows each bound. */
  datatype Bounds = Bounds(floor: int, ceiling: int, onStart: bool, onEnd: bool)

  /** Whatever follows, the result will not come before `start`. */
  ghost predicate Above(acc: Bytes, start: Bytes) {
    IsPrefix(start, acc) || exists d: nat :: DifferAt(acc, start, d) && acc[d] > start[d]
  }

  /** Whatever follows, the result will come before `end`. */
  ghost predicate Below(acc: Bytes, end: Bytes) {
    exists d: nat :: DifferAt(acc, end, d) && acc[d] < end[d]
  }

  ghost predicate Fits(start: Bytes, end: Bytes, acc: Bytes, b: Bounds) {
    && 0 <= b.floor <= b.ceiling <= 255
    && (b.onStart ==> IsPrefix(acc, start) && b.floor == if |acc| < |start| then start[|acc|] as int else 0)
    && (!b.onStart ==> b.floor == 0 && Above(acc, start))
    && (b.onEnd ==> IsPrefix(acc, end) && |acc| < |end| && b.ceiling == end[|acc|] as int)
    && (!b.onEnd ==> b.ceiling == 255 && Below(acc, end))
    && (b.onStart && b.onEnd && |acc| < |start| ==> b.floor < b.ceiling)
  }

  /** The bounds after `current` was put at position `i`. */
  function Narrow(start: Bytes, end: Bytes, i: nat, b: Bounds, current: int): Bounds {
    var follow := b.onStart && current == b.floor && i + 1 < |start|;
    var followEnd := b.onEnd && current == b.ceiling && i + 1 < |end|;
    Bounds(if follow then start[i + 1] as int else 0, if followEnd then end[i + 1] as int else 255, follow, followEnd)
  }

  /** The string has reached `end` and nothing may follow. */
  predicate Stops(end: Bytes, i: nat, b: Bounds, current: int) {
    b.onEnd && current == b.ceiling && i + 1 >= |end|
  }

  lemma AboveExtends(acc: Bytes, start: Bytes, x: byte)
    requires Above(acc, start)
    ensures Above(acc + [x], start)
  {
    if IsPrefix(start, acc) {
      assert (acc + [x])[..|start|] == acc[..|start|];
    } else {
      var d: nat :| DifferAt(acc, start, d) && acc[d] > start[d];
      assert (acc + [x])[..d] == acc[..d];
      assert DifferAt(acc + [x], start, d);
    }
  }

  lemma BelowExtends(acc: Bytes, end: Bytes, x: byte)
    requires Below(acc, end)
    ensures Below(acc + [x], end)
  {
    var d: nat :| DifferAt(acc, end, d) && acc[d] < end[d];
    assert (acc + [x])[..d] == acc[..d];
    assert DifferAt(acc + [x], end, d);
  }

  /** One byte more keeps the lower side in order. */
  lemma NarrowStart(start: Bytes, end: Bytes, acc: Bytes, b: Bounds, x: byte)
    requires Fits(start, end, acc, b) && b.floor <= x as int
    ensures var b' := Narrow(start, end, |acc|, b, x as int);
            if b'.onStart then IsPrefix(acc + [x], start) else Above(acc + [x], start)
  {
    if !b.onStart {
      AboveExtends(acc, start, x);
    } else if |acc| < |start| && x as int > b.floor {
      assert (acc + [x])[..|acc|] == acc;
      assert DifferAt(acc + [x], start, |acc|);
    } else if |acc| < |start| {
      assert start[..|acc| + 1] == start[..|acc|] + [start[|acc|]];
    } else {
      assert (acc + [x])[..|start|] == start;
    }
  }

  lemma NarrowEnd(start: Bytes, end: Bytes, acc: Bytes, b: Bounds, x: byte)
    requires Fits(start, end, acc, b) && x as int <= b.ceiling && !Stops(end, |acc|, b, x as int)
    ensures var b' := Narrow(start, end, |acc|, b, x as int);
            if b'.onEnd then IsPrefix(acc + [x], end) else Below(acc + [x], end)
  {
    if !b.onEnd {
      BelowExtends(acc, end, x);
    } else if x as int < b.ceiling {
      assert (acc + [x])[..|acc|] == acc;
      assert DifferAt(acc + [x], end, |acc|);
    } else {
      assert end[..|acc| + 1] == end[..|acc|] + [end[|acc|]];
    }
  }

  /** The next byte is never drawn from an empty range. */
  lemma NarrowFits(start: Bytes, end: Bytes, acc: Bytes, b: Bounds, x: byte)
    requires Fits(start, end, acc, b) && b.floor <= x as int <= b.ceiling && !Stops(end, |acc|, b, x as int)
    ensures Fits(start, end, acc + [x], Narrow(start, end, |acc|, b, x as int))
  {
    NarrowStart(start, end, acc, b, x);
    NarrowEnd(start, end, acc, b, x);
  }

  function Current(b: Bounds, ds: Draws): (c: int)
    requires 0 <= b.floor <= b.ceiling <= 255
    ensures b.floor <= c <= b.ceiling
  {
    b.floor + Draw(ds, b.ceiling - b.floor + 1)
  }

  /** The rest of the string, from `acc` on. */
  function Generate(start: Bytes, end: Bytes, acc: Bytes, target: nat, b: Bounds, ds: Draws): Bytes
    requires Fits(start, end, acc, b)
    decreases target - |acc|
  {
    if |acc| >= target then acc
    else
      var x := Current(b, ds);
      if Stops(end, |acc|, b, x) then acc + [x as byte]
      else
        NarrowFits(start, end, acc, b, x as byte);
        Generate(start, end, acc + [x as byte], target, Narrow(start, end, |acc|, b, x), Rest(ds))
  }

  /** How long the string should be: each draw of 256 out of 257 shortens it by one. */
  function Target(j: nat, max: nat, ds: Draws): (r: (nat, Draws))
    requires j <= max
    ensures j <= r.0 <= max
    decreases max - j
  {
    if j == max then (max, ds)
    else if Draw(ds, 257) != 256 then (max, Rest(ds))
    else
      var (t, rest) := Target(j + 1, max, Rest(ds));
      (t - 1, rest)
  }

  /** The draw stands for a byte left out: the last of 257 values. */
  predicate Unset(ds: Draws, i: nat) {
    i < |ds| && ds[i] % 257 == 256
  }

  /** The string is shortened once for every leading draw that stands for a byte left out, and no more. */
  lemma {:induction false} TargetShortens(j: nat, max: nat, ds: Draws)
    requires j <= max
    ensures var n := max - Target(j, max, ds).0;
            && (forall i :: 0 <= i < n ==> Unset(ds, i))
            && (n < max - j ==> !Unset(ds, n))
    decreases max - j
  {
    if j < max && Draw(ds, 257) == 256 {
      var rest := ds[1..];
      TargetShortens(j + 1, max, rest);
      var m := max - Target(j + 1, max, rest).0;
      assert Target(j, max, ds).0 == Target(j + 1, max, rest).0 - 1;
      forall i | 0 <= i < m + 1
        ensures Unset(ds, i)
      {
        assert i > 0 ==> Unset(rest, i - 1);
      }
    }
  }

  /** The first position where the bounds may differ, with its range. */
  function Opening(start: Bytes, end: Bytes): (b: Bounds)
    requires Common(start, end) < |end|
  {
    var i := Common(start, end);
    Bounds(if i < |start| then start[i] as int else 0, end[i] as int, true, true)
  }

  lemma OpeningFits(start: Bytes, end: Bytes)
    requires Common(start, end) < |end|
    requires Common(start, end) < |start| ==> start[Common(start, end)] < end[Common(start, end)]
    ensures Fits(start, end, start[..Common(start, end)], Opening(start, end))
  {
    var i := Common(start, end);
    assert start[..i] == end[..i];
  }

  /** None stands for a panic. */
  function Random(start: Bytes, end: Bytes, ds: Draws): Option<Bytes> {
    var i := Common(start, end);
    if i < |start| && i < |end| && start[i] > end[i] then None
    else if i == MaxLen(start, end) then Some(start)
    else if i >= |end| then None
    else
      OpeningFits(start, end);
      var (target, rest) := Target(MinLen(start, end), MaxLen(start, end), ds);
      Some(Generate(start, end, start[..i], target, Opening(start, end), rest))
  }

  // ---- The source's loops ----

  method RandomBytesBetween(start: Bytes, end: Bytes, draws: Draws) returns (r: Option<Bytes>)
    ensures r == Random(start, end, draws)
  {
    var minLen, maxLen := |start|, |end|;
    if minLen > maxLen {
      minLen, maxLen := maxLen, minLen;
    }
    var bytes := new byte[maxLen];
    var i := CopyCommon(start, end, bytes);
    if i < minLen && start[i] > end[i] {
      return None;
    }
    if i == maxLen {
      assert bytes[..] == start;
      return Some(bytes[..]);
    }
    if i >= |end| {
      return None;
    }
    OpeningFits(start, end);
    var target, rest := DrawLength(minLen, maxLen, draws);
    var filled := Fill(start, end, bytes, i, target, Opening(start, end), rest);
    r := Some(filled);
  }

  /** Copies the bytes the two bounds share. */
  method CopyCommon(start: Bytes, end: Bytes, bytes: array<byte>) returns (i: nat)
    requires bytes.Length == MaxLen(start, end)
    modifies bytes
    ensures i == Common(start, end) && bytes[..i] == start[..i]
  {
    i := 0;
    while i < |start| && i < |end| && start[i] == end[i]
      invariant i <= |start| && i <= |end| && bytes[..i] == start[..i] == end[..i]
    {
      bytes[i] := start[i];
      assert start[..i + 1] == start[..i] + [start[i]] && end[..i + 1] == end[..i] + [end[i]];
      i := i + 1;
    }
    CommonIs(start, end, i);
  }

  /** Draws the remaining bytes. */
  method Fill(start: Bytes, end: Bytes, bytes: array<byte>, from: nat, target: nat, bounds: Bounds, draws: Draws)
    returns (r: Bytes)
    requires from <= target <= bytes.Length && Fits(start, end, bytes[..from], bounds)
    modifies bytes
    ensures r == Generate(start, end, old(bytes[..from]), target, bounds, draws)
  {
    var i, b, rest := from, bounds, draws;
    ghost var result := Generate(start, end, bytes[..from], target, bounds, draws);
    while i < target
      invariant i <= target && Fits(start, end, bytes[..i], b)
      invariant Generate(start, end, bytes[..i], target, b, rest) == result
    {
      ghost var acc := bytes[..i];
      var current := Current(b, rest);
      bytes[i] := current as byte;
      assert bytes[..i + 1] == acc + [current as byte];
      if Stops(end, i, b, current) {
        return bytes[..i + 1];
      }
      NarrowFits(start, end, acc, b, current as byte);
      b := Narrow(start, end, i, b, current);
      rest := Rest(rest);
      i := i + 1;
    }
    return bytes[..target];
  }

  lemma CommonIs(a: Bytes, b: Bytes, n: nat)
    requires n <= |a| && n <= |b| && a[..n] == b[..n] && (n < |a| && n < |b| ==> a[n] != b[n])
    ensures Common(a, b) == n
  {
    var m := Common(a, b);
    assert forall j :: 0 <= j < n ==> a[j] == a[..n][j] && b[j] == b[..n][j];
    assert forall j :: 0 <= j < m ==> a[j] == a[..m][j] && b[j] == b[..m][j];
  }

  method DrawLength(minLen: nat, maxLen: nat, draws: Draws) returns (target: nat, rest: Draws)
    requires minLen <= maxLen
    ensures (target, rest) == Target(minLen, maxLen, draws)
  {
    target, rest := maxLen, draws;
    var j := minLen;
    while j < maxLen
      invariant minLen <= j <= maxLen && target == maxLen - (j - minLen)
      invariant Target(minLen, maxLen, draws) == (Target(j, maxLen, rest).0 - (j - minLen), Target(j, maxLen, rest).1)
    {
      var d := Draw(rest, 257);
      var after := Rest(rest);
      if d != 256 {
        rest := after;
        return;
      }
      rest := after;
      target := target - 1;
      j := j + 1;
    }
  }

  // ---- What can come out ----

  /** Not after `end`, of a length between the two lengths, and either not before `start` or a proper
      prefix of it. */
  predicate Possible(start: Bytes, end: Bytes, r: Bytes) {
    && MinLen(start, end) <= |r| <= MaxLen(start, end)
    && !Less(end, r)
    && (!Less(r, start) || (IsPrefix(r, start) && |r| < |start|))
  }

  lemma AboveNotBefore(acc: Bytes, start: Bytes)
    requires Above(acc, start)
    ensures !Less(acc, start)
  {
    if IsPrefix(start, acc) {
      PrefixDecides(start, acc);
    } else {
      var d: nat :| DifferAt(acc, start, d) && acc[d] > start[d];
      FirstDifferenceDecides(acc, start, d);
    }
  }

  lemma BelowNotAfter(acc: Bytes, end: Bytes)
    requires Below(acc, end)
    ensures !Less(end, acc)
  {
    var d: nat :| DifferAt(acc, end, d) && acc[d] < end[d];
    assert DifferAt(end, acc, d);
    FirstDifferenceDecides(end, acc, d);
  }

  /** Any string the generator may stop at is in order on both sides. */
  lemma FitsIsOrdered(start: Bytes, end: Bytes, acc: Bytes, b: Bounds)
    requires Fits(start, end, acc, b)
    ensures !Less(end, acc)
    ensures !Less(acc, start) || (IsPrefix(acc, start) && |acc| < |start|)
  {
    if b.onEnd {
      PrefixDecides(acc, end);
    } else {
      BelowNotAfter(acc, end);
    }
    if b.onStart {
      PrefixDecides(acc, start);
    } else {
      AboveNotBefore(acc, start);
    }
  }

  lemma {:induction false} GenerateIsOrdered(start: Bytes, end: Bytes, acc: Bytes, target: nat, b: Bounds, ds: Draws)
    requires Fits(start, end, acc, b) && |acc| <= target
    ensures var r := Generate(start, end, acc, target, b, ds);
            && (|r| == target || |r| == |end| <= target)
            && !Less(end, r)
            && (!Less(r, start) || (IsPrefix(r, start) && |r| < |start|))
    decreases target - |acc|
  {
    if |acc| == target {
      FitsIsOrdered(start, end, acc, b);
    } else {
      var x := Current(b, ds) as byte;
      if Stops(end, |acc|, b, x as int) {
        assert acc + [x] == end;
        PrefixDecides(end, end);
        NarrowStart(start, end, acc, b, x);
        if Narrow(start, end, |acc|, b, x as int).onStart {
          PrefixDecides(acc + [x], start);
        } else {
          AboveNotBefore(acc + [x], start);
        }
      } else {
        NarrowFits(start, end, acc, b, x);
        GenerateIsOrdered(start, end, acc + [x], target, Narrow(start, end, |acc|, b, x as int), Rest(ds));
      }
    }
  }

  /** The generator panics exactly when `start` comes after `end`. */
  lemma PanicsWhenOutOfOrder(start: Bytes, end: Bytes, ds: Draws)
    ensures Random(start, end, ds) == None <==> Less(end, start)
  {
    var i := Common(start, end);
    if i < |start| && i < |end| {
      assert DifferAt(end, start, i);
      FirstDifferenceDecides(end, start, i);
    } else if i == |end| {
      PrefixDecides(end, start);
    } else {
      PrefixDecides(start, end);
    }
  }

  lemma OutputsArePossible(start: Bytes, end: Bytes, ds: Draws)
    requires Random(start, end, ds).Some?
    ensures Possible(start, end, Random(start, end, ds).value)
  {
    var i := Common(start, end);
    if i == MaxLen(start, end) {
      PrefixDecides(start, end);
      PrefixDecides(start, start);
    } else {
      OpeningFits(start, end);
      var (target, rest) := Target(MinLen(start, end), MaxLen(start, end), ds);
      GenerateIsOrdered(start, end, start[..i], target, Opening(start, end), rest);
    }
  }

  /** The next byte of a possible string lies within the bounds. */
  lemma NextByteAllowed(start: Bytes, end: Bytes, acc: Bytes, r: Bytes, b: Bounds)
    requires Fits(start, end, acc, b) && IsPrefix(acc, r) && |acc| < |r|
    requires !Less(end, r) && (!Less(r, start) || IsPrefix(r, start))
    ensures b.floor <= r[|acc|] as int <= b.ceiling
  {
    var i := |acc|;
    if b.onStart && i < |start| && r[i] != start[i] {
      assert DifferAt(r, start, i);
      assert !IsPrefix(r, start) by { assert |r| <= |start| ==> start[..|r|][i] == start[i]; }
      FirstDifferenceDecides(r, start, i);
    }
    if b.onEnd && r[i] != end[i] {
      assert DifferAt(end, r, i);
      FirstDifferenceDecides(end, r, i);
    }
  }

  lemma DrawExactly(v: nat, n: nat, rest: Draws)
    requires v < n
    ensures Draw([v] + rest, n) == v && Rest([v] + rest) == rest
  {
  }

  /** One draw chooses one byte. */
  lemma GenerateByte(start: Bytes, end: Bytes, acc: Bytes, target: nat, b: Bounds, x: byte, rest: Draws)
    requires Fits(start, end, acc, b) && |acc| < target && b.floor <= x as int <= b.ceiling
    requires !Stops(end, |acc|, b, x as int) ==>
               Fits(start, end, acc + [x], Narrow(start, end, |acc|, b, x as int))
    ensures Generate(start, end, acc, target, b, [x as int - b.floor] + rest) ==
            if Stops(end, |acc|, b, x as int) then acc + [x]
            else Generate(start, end, acc + [x], target, Narrow(start, end, |acc|, b, x as int), rest)
  {
    DrawExactly(x as int - b.floor, b.ceiling - b.floor + 1, rest);
  }

  /** Draws that make the generator spell out a possible string. */
  lemma {:induction false} SpellOut(start: Bytes, end: Bytes, acc: Bytes, r: Bytes, b: Bounds) returns (ds: Draws)
    requires Fits(start, end, acc, b) && IsPrefix(acc, r)
    requires !Less(end, r) && (!Less(r, start) || IsPrefix(r, start))
    ensures Generate(start, end, acc, |r|, b, ds) == r
    decreases |r| - |acc|
  {
    ds := [];
    if |acc| < |r| {
      var x := r[|acc|];
      NextByteAllowed(start, end, acc, r, b);
      assert r[..|acc| + 1] == acc + [x];
      if Stops(end, |acc|, b, x as int) {
        assert acc + [x] == end;
        PrefixDecides(end, r);
      } else {
        NarrowFits(start, end, acc, b, x);
        ds := SpellOut(start, end, acc + [x], r, Narrow(start, end, |acc|, b, x as int));
      }
      GenerateByte(start, end, acc, |r|, b, x, ds);
      ds := [x as int - b.floor] + ds;
    }
  }

  /** Draws that shorten the string by `n`. */
  lemma {:induction false} ShortenBy(j: nat, max: nat, n: nat, rest: Draws) returns (ds: Draws)
    requires j + n <= max
    ensures Target(j, max, ds) == (max - n, rest)
    decreases n
  {
    if n > 0 {
      ds := ShortenBy(j + 1, max, n - 1, rest);
      assert Rest([256] + ds) == ds;
      ds := [256] + ds;
    } else if j < max {
      ds := [0] + rest;
      assert Rest(ds) == rest;
    } else {
      ds := rest;
    }
  }

  /** A possible string opens with what the bounds have in common. */
  lemma SharesOpening(start: Bytes, end: Bytes, r: Bytes)
    requires Possible(start, end, r)
    ensures IsPrefix(start[..Common(start, end)], r)
  {
    var i, d := Common(start, end), Common(r, start);
    if d < i {
      assert start[d] == start[..i][d] == end[d];
      assert DifferAt(r, start, d);
      assert !IsPrefix(r, start) by { assert |r| <= |start| ==> start[..|r|][d] == start[d]; }
      FirstDifferenceDecides(r, start, d);
      assert end[..d] == end[..i][..d] == start[..i][..d] == start[..d];
      assert DifferAt(end, r, d);
      FirstDifferenceDecides(end, r, d);
    } else {
      assert r[..i] == r[..d][..i] == start[..d][..i] == start[..i];
    }
  }

  /** Every possible string can come out. */
  lemma PossibleComesOut(start: Bytes, end: Bytes, r: Bytes) returns (ds: Draws)
    requires !Less(end, start) && Possible(start, end, r)
    ensures Random(start, end, ds) == Some(r)
  {
    PanicsWhenOutOfOrder(start, end, []);
    SharesOpening(start, end, r);
    var i := Common(start, end);
    if i == MaxLen(start, end) {
      assert start[..i] == start && r[..i] == r;
      return [];
    }
    OpeningFits(start, end);
    var rest := SpellOut(start, end, start[..i], r, Opening(start, end));
    ds := ShortenBy(MinLen(start, end), MaxLen(start, end), MaxLen(start, end) - |r|, rest);
  }

  /** The outputs for bounds in order are exactly the possible strings. */
  lemma OutputsExactly(start: Bytes, end: Bytes, r: Bytes)
    requires !Less(end, start)
    ensures (exists ds :: Random(start, end, ds) == Some(r)) <==> Possible(start, end, r)
  {
    if Possible(start, end, r) {
      var ds := PossibleComesOut(start, end, r);
    }
    forall ds | Random(start, end, ds) == Some(r)
      ensures Possible(start, end, r)
    {
      OutputsArePossible(start, end, ds);
    }
  }

  /** The documented lower bound holds for every draw exactly when `start` is not the longer one. */
  lemma LowerBoundHolds(start: Bytes, end: Bytes)
    requires !Less(end, start)
    ensures (forall ds :: Random(start, end, ds).Some? ==> !Less(Random(start, end, ds).value, start)) <==> |start| <= |end|
  {
    if |start| <= |end| {
      forall ds | Random(start, end, ds).Some?
        ensures !Less(Random(start, end, ds).value, start)
      {
        OutputsArePossible(start, end, ds);
      }
    } else {
      var r := start[..|end|];
      PrefixDecides(r, start);
      var d := Common(end, start);
      if d == |end| {
        PrefixDecides(end, start);
      } else {
        FirstDifferenceDecides(end, start, d);
        assert r[..d] == start[..d];
        assert DifferAt(end, r, d);
        FirstDifferenceDecides(end, r, d);
      }
      var ds := PossibleComesOut(start, end, r);
    }
  }
}
