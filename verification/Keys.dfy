/** Byte strings and their lexicographic order. */
module Lex {
  newtype byte = x: int | 0 <= x < 256

  type Bytes = seq<byte>

  predicate Less(a: Bytes, b: Bytes)
    decreases |a|
  {
    b != [] && (a == [] || a[0] < b[0] || (a[0] == b[0] && Less(a[1..], b[1..])))
  }

  predicate IsPrefix(a: Bytes, b: Bytes) {
    |a| <= |b| && a == b[..|a|]
  }

  /** The strings agree before `d` and differ at `d`. */
  predicate DifferAt(a: Bytes, b: Bytes, d: nat) {
    d < |a| && d < |b| && a[..d] == b[..d] && a[d] != b[d]
  }

  /** The first difference decides. */
  lemma {:induction false} FirstDifferenceDecides(a: Bytes, b: Bytes, d: nat)
    requires DifferAt(a, b, d)
    ensures Less(a, b) <==> a[d] < b[d]
    decreases d
  {
    if d > 0 {
      assert a[0] == a[..d][0] && b[0] == b[..d][0];
      assert a[1..][..d - 1] == a[..d][1..] && b[1..][..d - 1] == b[..d][1..];
      FirstDifferenceDecides(a[1..], b[1..], d - 1);
    }
  }

  /** A string comes before its proper extensions and not after any. */
  lemma {:induction false} PrefixDecides(a: Bytes, b: Bytes)
    requires IsPrefix(a, b)
    ensures Less(a, b) <==> |a| < |b|
    ensures !Less(b, a)
    decreases |a|
  {
    if a != [] {
      assert a[0] == b[..|a|][0];
      assert b[1..][..|a| - 1] == b[..|a|][1..];
      PrefixDecides(a[1..], b[1..]);
    }
  }

  /** Length of the longest common prefix. */
  function Common(a: Bytes, b: Bytes): (n: nat)
    ensures n <= |a| && n <= |b| && a[..n] == b[..n]
    ensures n < |a| && n < |b| ==> a[n] != b[n]
    decreases |a|
  {
    if a == [] || b == [] || a[0] != b[0] then 0
    else
      var n := Common(a[1..], b[1..]);
      assert a[..n + 1] == [a[0]] + a[1..][..n] && b[..n + 1] == [b[0]] + b[1..][..n];
      n + 1
  }
}

/** Big-endian store keys for 32-bit indexes. */
module Keys {
  import opened Basics
  import opened Lex

  function Key(i: nat): (k: Bytes)
    requires i < UINT32
    ensures |k| == 4
  {
    [(i / 0x100_0000) as byte, (i / 0x1_0000 % 256) as byte, (i / 0x100 % 256) as byte, (i % 256) as byte]
  }

  method Uint32ToKey(i: nat) returns (bytes: array<byte>)
    requires i < UINT32
    ensures fresh(bytes) && bytes[..] == Key(i)
  {
    bytes := new byte[4];
    bytes[0] := (i / 0x100_0000) as byte;
    bytes[1] := (i / 0x1_0000 % 256) as byte;
    bytes[2] := (i / 0x100 % 256) as byte;
    bytes[3] := (i % 256) as byte;
  }

  /** Reads the first four bytes. */
  function BytesToUint32(b: Bytes): (i: nat)
    requires |b| >= 4
    ensures i < UINT32
  {
    b[0] as nat * 0x100_0000 + b[1] as nat * 0x1_0000 + b[2] as nat * 0x100 + b[3] as nat
  }

  lemma KeyRoundTrip(i: nat)
    requires i < UINT32
    ensures BytesToUint32(Key(i)) == i
  {
    assert i / 0x100_0000 * 0x100 + i / 0x1_0000 % 256 == i / 0x1_0000;
    assert i / 0x1_0000 * 0x100 + i / 0x100 % 256 == i / 0x100;
  }

  lemma BytesRoundTrip(b: Bytes)
    requires |b| == 4
    ensures Key(BytesToUint32(b)) == b
  {
    var hi := b[0] as nat * 0x100 + b[1] as nat;
    var mid := hi * 0x100 + b[2] as nat;
    var i := BytesToUint32(b);
    assert i == mid * 0x100 + b[3] as nat;
    assert i / 0x100 == mid && i / 0x1_0000 == hi && i / 0x100_0000 == b[0] as nat;
  }

  /** On four bytes the lexicographic order is the order of the numbers. */
  lemma FourByteOrder(a: Bytes, b: Bytes)
    requires |a| == |b| == 4
    ensures Less(a, b) <==> BytesToUint32(a) < BytesToUint32(b)
  {
    var a1, b1 := a[1..], b[1..];
    var a2, b2 := a1[1..], b1[1..];
    var a3, b3 := a2[1..], b2[1..];
    assert Less(a3, b3) <==> a[3] < b[3] by { assert a3[1..] == [] && b3[1..] == []; }
    assert Less(a2, b2) <==> a[2] < b[2] || (a[2] == b[2] && Less(a3, b3));
    assert Less(a1, b1) <==> a[1] < b[1] || (a[1] == b[1] && Less(a2, b2));
  }

  /** Keys are ordered as the indexes they encode. */
  lemma KeysOrdered(i: nat, j: nat)
    requires i < UINT32 && j < UINT32
    ensures Less(Key(i), Key(j)) <==> i < j
  {
    FourByteOrder(Key(i), Key(j));
    KeyRoundTrip(i);
    KeyRoundTrip(j);
  }
}
