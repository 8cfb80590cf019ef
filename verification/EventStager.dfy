/** Staging of FinalizeBlock events: a list kept in a byte-keyed transient store as a counter and
    one entry per index. */
module EventStager {
  import opened Basics
  import opened Lex
  import opened Keys

  /** The message codec. */
  datatype Codec<!T> = Codec(marshal: T -> Bytes, unmarshal: Bytes -> T)

  ghost predicate Lossless<T(!new)>(c: Codec<T>) {
    forall e :: c.unmarshal(c.marshal(e)) == e
  }

  type Store = map<Bytes, Bytes>

  /** The two keys a stager is made with. */
  datatype Layout = Layout(countKey: Bytes, prefix: Bytes)

  /** The layout the streaming manager uses: "EvtCnt" and "Evt:". */
  const STREAMING := Layout([69, 118, 116, 67, 110, 116], [69, 118, 116, 58])

  function EventKey(l: Layout, i: nat): Bytes
    requires i < UINT32
  {
    l.prefix + Key(i)
  }

  /** An event's key is the prefix followed by its index in four bytes. */
  lemma EventKeyParts(l: Layout, i: nat)
    requires i < UINT32
    ensures |EventKey(l, i)| == |l.prefix| + 4
    ensures IsPrefix(l.prefix, EventKey(l, i)) && BytesToUint32(EventKey(l, i)[|l.prefix|..]) == i
  {
    KeyRoundTrip(i);
    assert EventKey(l, i)[|l.prefix|..] == Key(i);
  }

  /** The keys in use spell the documented strings. */
  lemma StreamingKeysSpelled()
    ensures |STREAMING.countKey| == |"EvtCnt"| && |STREAMING.prefix| == |"Evt:"|
    ensures forall i :: 0 <= i < 6 ==> STREAMING.countKey[i] as int == "EvtCnt"[i] as int
    ensures forall i :: 0 <= i < 4 ==> STREAMING.prefix[i] as int == "Evt:"[i] as int
  {
  }

  /** The counter's key is not the key of any event. */
  ghost predicate Apart(l: Layout) {
    forall b: Bytes :: |b| == 4 ==> l.countKey != l.prefix + b
  }

  lemma StreamingKeysApart()
    ensures Apart(STREAMING)
  {
  }

  lemma ApartFromEvents(l: Layout, i: nat)
    requires Apart(l) && i < UINT32
    ensures l.countKey != EventKey(l, i)
  {
  }

  lemma EventKeysDistinct(l: Layout, i: nat, j: nat)
    requires i < UINT32 && j < UINT32 && EventKey(l, i) == EventKey(l, j)
    ensures i == j
  {
    assert EventKey(l, i)[|l.prefix|..] == Key(i) && EventKey(l, j)[|l.prefix|..] == Key(j);
    KeyRoundTrip(i);
    KeyRoundTrip(j);
  }

  // ---- What the store holds ----

  /** A stored counter has its four bytes. */
  predicate Readable(l: Layout, s: Store) {
    l.countKey in s ==> |s[l.countKey]| >= 4
  }

  function Count(l: Layout, s: Store): (n: nat)
    requires Readable(l, s)
    ensures n < UINT32
  {
    if l.countKey in s then BytesToUint32(s[l.countKey]) else 0
  }

  function Get(s: Store, k: Bytes): Bytes {
    if k in s then s[k] else []
  }

  /** Staging: bump the 32-bit counter, then store the event under the old count. */
  function Staged<T>(l: Layout, c: Codec<T>, s: Store, e: T): Store
    requires Readable(l, s)
  {
    var n := Count(l, s);
    s[l.countKey := Key((n + 1) % UINT32)][EventKey(l, n) := c.marshal(e)]
  }

  function Retrieved<T>(l: Layout, c: Codec<T>, s: Store): (r: seq<T>)
    requires Readable(l, s)
    ensures |r| == Count(l, s)
  {
    seq(Count(l, s), i requires 0 <= i < Count(l, s) => c.unmarshal(Get(s, EventKey(l, i))))
  }

  lemma StagedReadable<T>(l: Layout, c: Codec<T>, s: Store, e: T)
    requires Apart(l) && Readable(l, s)
    ensures Readable(l, Staged(l, c, s, e))
    ensures Count(l, Staged(l, c, s, e)) == (Count(l, s) + 1) % UINT32
  {
    var n := Count(l, s);
    ApartFromEvents(l, n);
    KeyRoundTrip((n + 1) % UINT32);
  }

  function StagedAll<T>(l: Layout, c: Codec<T>, es: seq<T>): (s: Store)
    requires Apart(l)
    ensures Readable(l, s)
    ensures Count(l, s) == |es| % UINT32
  {
    if |es| == 0 then map[]
    else
      var before := StagedAll(l, c, es[..|es| - 1]);
      StagedReadable(l, c, before, es[|es| - 1]);
      WrapSuccessor(|es| - 1);
      Staged(l, c, before, es[|es| - 1])
  }

  lemma WrapSuccessor(n: nat)
    ensures (n % UINT32 + 1) % UINT32 == (n + 1) % UINT32
  {
  }

  /** Below 2^32 events the counter is exact. */
  lemma {:induction false} CountExact<T>(l: Layout, c: Codec<T>, es: seq<T>)
    requires Apart(l) && |es| < UINT32
    ensures Count(l, StagedAll(l, c, es)) == |es|
  {
    SmallRemainder(|es|);
    var s := StagedAll(l, c, es);
    assert Count(l, s) == |es| % UINT32;
  }

  lemma SmallRemainder(n: nat)
    requires n < UINT32
    ensures n % UINT32 == n
  {
  }

  /** Staging changes one entry besides the counter. */
  lemma StagedEntry<T>(l: Layout, c: Codec<T>, s: Store, e: T, k: Bytes)
    requires Readable(l, s) && k != l.countKey
    ensures Get(Staged(l, c, s, e), k) == if k == EventKey(l, Count(l, s)) then c.marshal(e) else Get(s, k)
  {
  }

  lemma IndexedEntry<T>(l: Layout, c: Codec<T>, s: Store, e: T, i: nat)
    requires Apart(l) && Readable(l, s) && i <= Count(l, s)
    ensures Get(Staged(l, c, s, e), EventKey(l, i)) == if i == Count(l, s) then c.marshal(e) else Get(s, EventKey(l, i))
  {
    ApartFromEvents(l, i);
    StagedEntry(l, c, s, e, EventKey(l, i));
    if i < Count(l, s) {
      OtherKey(l, i, Count(l, s));
    }
  }

  /** Every event staged so far can be read back under its index. */
  lemma {:induction false} EntriesKept<T>(l: Layout, c: Codec<T>, es: seq<T>, i: nat)
    requires Apart(l) && i < |es| < UINT32
    ensures Get(StagedAll(l, c, es), EventKey(l, i)) == c.marshal(es[i])
    decreases |es|
  {
    var n := |es| - 1;
    CountExact(l, c, es[..n]);
    IndexedEntry(l, c, StagedAll(l, c, es[..n]), es[n], i);
    if i < n {
      EntriesKept(l, c, es[..n], i);
    }
  }

  lemma OtherKey(l: Layout, i: nat, n: nat)
    requires i < n < UINT32
    ensures EventKey(l, i) != EventKey(l, n)
  {
    if EventKey(l, i) == EventKey(l, n) {
      EventKeysDistinct(l, i, n);
    }
  }

  lemma RetrieveFewer<T(!new)>(l: Layout, c: Codec<T>, es: seq<T>)
    requires Apart(l) && Lossless(c) && |es| < UINT32
    ensures Retrieved(l, c, StagedAll(l, c, es)) == es
  {
    var r := Retrieved(l, c, StagedAll(l, c, es));
    CountExact(l, c, es);
    forall i | 0 <= i < |es|
      ensures r[i] == es[i]
    {
      EntriesKept(l, c, es, i);
    }
  }

  /** Retrieval gives back exactly the staged events, in order, exactly when fewer than 2^32 events
      were staged: beyond that the 32-bit counter has wrapped. */
  lemma RetrieveStaged<T(!new)>(l: Layout, c: Codec<T>, es: seq<T>)
    requires Apart(l) && Lossless(c)
    ensures Retrieved(l, c, StagedAll(l, c, es)) == es <==> |es| < UINT32
  {
    if |es| < UINT32 {
      RetrieveFewer(l, c, es);
    } else {
      assert |Retrieved(l, c, StagedAll(l, c, es))| < UINT32;
    }
  }

  /** The stager over its transient store. */
  class EventStager<T> {
    const layout: Layout
    const codec: Codec<T>
    var store: Store

    constructor (layout: Layout, codec: Codec<T>)
      ensures this.layout == layout && this.codec == codec && store == map[]
    {
      this.layout, this.codec, store := layout, codec, map[];
    }

    method StagedEventsCount() returns (count: nat)
      requires Readable(layout, store)
      ensures count == Count(layout, store)
    {
      if layout.countKey !in store {
        return 0;
      }
      count := BytesToUint32(store[layout.countKey]);
    }

    method Stage(event: T)
      requires Apart(layout) && Readable(layout, store)
      modifies this
      ensures Readable(layout, store) && store == Staged(layout, codec, old(store), event)
    {
      StagedReadable(layout, codec, store, event);
      var count := StagedEventsCount();
      var next := Uint32ToKey((count + 1) % UINT32);
      store := store[layout.countKey := next[..]];
      var key := Uint32ToKey(count);
      store := store[layout.prefix + key[..] := codec.marshal(event)];
    }

    method GetStaged() returns (events: seq<T>)
      requires Readable(layout, store)
      ensures events == Retrieved(layout, codec, store)
    {
      var count := StagedEventsCount();
      events := [];
      for i := 0 to count
        invariant |events| == i
        invariant forall j :: 0 <= j < i ==> events[j] == codec.unmarshal(Get(store, EventKey(layout, j)))
      {
        var key := Uint32ToKey(i);
        events := events + [codec.unmarshal(Get(store, layout.prefix + key[..]))];
      }
    }
  }

  /** The streaming manager's stager, from staging to retrieval. */
  method StageAndRetrieve<T(!new)>(codec: Codec<T>, events: seq<T>) returns (r: seq<T>)
    requires Lossless(codec) && |events| < UINT32
    ensures r == events
  {
    StreamingKeysApart();
    var stager := new EventStager<T>(STREAMING, codec);
    for i := 0 to |events|
      invariant stager.layout == STREAMING && stager.codec == codec
      invariant Readable(stager.layout, stager.store)
      invariant stager.store == StagedAll(STREAMING, codec, events[..i])
    {
      assert events[..i + 1][..i] == events[..i];
      stager.Stage(events[i]);
    }
    assert events[..|events|] == events;
    r := stager.GetStaged();
    RetrieveStaged(STREAMING, codec, events);
  }
}
