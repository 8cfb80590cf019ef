/** What holds in every run of the streaming service, for every sequence of events. */
module StreamRuns {
  import opened Basics
  import opened Arith
  import opened Seqs
  import opened SubscriptionIndex
  import opened StreamTypes
  import opened StreamSpec
  import opened OffchainGrouping

  /** One critical section of the manager, or one take by a subscription's poller. */
  datatype Event =
    | Subscribe(request: Request, filterByAccount: bool)
    | Add(items: seq<Item>)
    | Tick
    | FinalizeBlock(items: seq<Item>)
    | Snapshot(src: Sources)
    | Poll(id: SubId)

  function Step(cfg: Config, h: Hub, e: Event): Hub {
    match e
    case Subscribe(req, f) => if Accepts(req, f) then Join(h, req) else h
    case Add(items) => Overflow(cfg, Publish(h, items))
    case Tick => Flush(cfg, h)
    case FinalizeBlock(items) => Flush(cfg, Publish(Flush(cfg, h), items))
    case Snapshot(src) => SnapshotAll(cfg, Flush(cfg, h), src)
    case Poll(id) => Take(h, id)
  }

  function Run(cfg: Config, es: seq<Event>): Hub {
    if |es| == 0 then Hub(map[], map[], 0) else Step(cfg, Run(cfg, es[..|es| - 1]), es[|es| - 1])
  }

  // ---- Nothing is lost, repeated or reordered ----

  /** What an event addresses to whoever made a request, a snapshot only if one is waited for. */
  function Addressed(req: Request, snapshotted: bool, e: Event): Batch {
    match e
    case Add(items) => Relevant(req, items)
    case FinalizeBlock(items) => Relevant(req, items)
    case Snapshot(src) => if snapshotted then [] else SnapshotBatch(req, src)
    case _ => []
  }

  /** The request in the event that made `id` live, which the present holder of `id` made. */
  function RequestOf(cfg: Config, es: seq<Event>, id: SubId): Option<Request> {
    if |es| == 0 then None
    else
      var prev, e := es[..|es| - 1], es[|es| - 1];
      if id in Run(cfg, prev).subs then RequestOf(cfg, prev, id)
      else if e.Subscribe? then Some(e.request)
      else None
  }

  /** Everything addressed to `id` since it subscribed: published updates that match the request it then
      made, and each snapshot at the moment it was due. Channels and batches play no part. */
  function Log(cfg: Config, es: seq<Event>, id: SubId): Batch {
    if |es| == 0 then []
    else
      var prev := es[..|es| - 1];
      var h := Run(cfg, prev);
      var req := RequestOf(cfg, prev, id);
      if id !in h.subs || req.None? then []
      else
        Log(cfg, prev, id) + Addressed(req.value, h.subs[id].snapshotted, es[|es| - 1])
  }

  /** What the client has been given, is about to be given, and is owed. */
  function Delivered(c: Client): Batch {
    Flatten(c.sub.received) + Flatten(c.sub.channel) + c.pending
  }

  lemma PutDelivers(cfg: Config, sub: Subscription, batch: Batch, pending: Batch)
    requires Put(cfg, sub, batch).Some?
    ensures Delivered(Client(Put(cfg, sub, batch).value, pending))
         == Flatten(sub.received) + Flatten(sub.channel) + batch + pending
  {
    FlattenConcat(sub.channel, [batch]);
    FlattenOne(batch);
  }

  lemma FlushKeeps(cfg: Config, c: Client)
    requires FlushClient(cfg, c).Some?
    ensures Delivered(FlushClient(cfg, c).value) == Delivered(c)
    ensures FlushClient(cfg, c).value.pending == []
    ensures FlushClient(cfg, c).value.sub ==
            c.sub.(channel := c.sub.channel + if c.pending == [] then [] else [c.pending])
  {
    if c.pending != [] {
      PutDelivers(cfg, c.sub, c.pending, []);
    } else {
      assert c.sub.channel + [] == c.sub.channel;
    }
  }

  lemma SnapshotDelivers(cfg: Config, src: Sources, c: Client)
    requires SnapshotSub(cfg, src, c.sub).Some? && c.pending == []
    ensures Delivered(Client(SnapshotSub(cfg, src, c.sub).value, []))
         == Delivered(c) + if c.sub.snapshotted then [] else SnapshotBatch(c.sub.request, src)
  {
    if !c.sub.snapshotted {
      PutDelivers(cfg, c.sub, SnapshotBatch(c.sub.request, src), []);
    }
  }

  lemma TakeKeeps(c: Client)
    requires c.sub.channel != []
    ensures Delivered(c.(sub := TakeSub(c.sub))) == Delivered(c)
  {
    var ch := c.sub.channel;
    assert ch == [ch[0]] + ch[1..];
    FlattenConcat([ch[0]], ch[1..]);
    FlattenConcat(c.sub.received, [ch[0]]);
    FlattenOne(ch[0]);
  }

  /** Flushing acts on each client separately. */
  lemma FlushAt(cfg: Config, h: Hub, id: SubId)
    requires id in h.subs
    ensures id in Flush(cfg, h).subs <==> FlushClient(cfg, At(h, id)).Some?
    ensures id in Flush(cfg, h).subs ==> At(Flush(cfg, h), id) == FlushClient(cfg, At(h, id)).value
  {
  }

  /** Publishing adds to each client what concerns it. */
  lemma PublishAt(h: Hub, items: seq<Item>, id: SubId)
    requires id in h.subs
    ensures At(Publish(h, items), id) == Client(h.subs[id], At(h, id).pending + Relevant(h.subs[id].request, items))
  {
  }

  lemma SnapshotAt(cfg: Config, h: Hub, src: Sources, id: SubId)
    requires id in Flush(cfg, h).subs
    ensures var f := Flush(cfg, h);
            && (id in SnapshotAll(cfg, f, src).subs <==> SnapshotSub(cfg, src, f.subs[id]).Some?)
            && (id in SnapshotAll(cfg, f, src).subs ==>
                  At(SnapshotAll(cfg, f, src), id) == Client(SnapshotSub(cfg, src, f.subs[id]).value, []))
  {
  }

  /** One event adds to a surviving client's deliveries exactly what the event addresses to it. */
  lemma StepDelivers(cfg: Config, h: Hub, e: Event, id: SubId)
    requires id in h.subs && id in Step(cfg, h, e).subs
    ensures Delivered(At(Step(cfg, h, e), id)) == Delivered(At(h, id)) + Addressed(h.subs[id].request, h.subs[id].snapshotted, e)
  {
    var c := At(h, id);
    match e
    case Subscribe(req, f) =>
    case Add(items) => PublishAt(h, items, id);
    case Tick =>
      FlushAt(cfg, h, id);
      FlushKeeps(cfg, c);
    case FinalizeBlock(items) => FinalizeStepDelivers(cfg, h, items, id);
    case Snapshot(src) =>
      FlushAt(cfg, h, id);
      FlushKeeps(cfg, c);
      SnapshotAt(cfg, h, src, id);
      SnapshotDelivers(cfg, src, At(Flush(cfg, h), id));
    case Poll(i) =>
      if i == id && c.sub.channel != [] {
        TakeKeeps(c);
      }
  }

  /** A finalized block, seen by one client: flush, publish, flush. */
  function FinalizeClient(cfg: Config, c: Client, r: Batch): Option<Client> {
    match FlushClient(cfg, c)
    case None => None
    case Some(f) => FlushClient(cfg, Client(f.sub, f.pending + r))
  }

  lemma FinalizeAt(cfg: Config, h: Hub, items: seq<Item>, id: SubId)
    requires id in h.subs
    ensures var c := FinalizeClient(cfg, At(h, id), Relevant(h.subs[id].request, items));
            && (id in Step(cfg, h, FinalizeBlock(items)).subs <==> c.Some?)
            && (id in Step(cfg, h, FinalizeBlock(items)).subs ==>
                  At(Step(cfg, h, FinalizeBlock(items)), id) == c.value)
  {
    FlushAt(cfg, h, id);
    var f := Flush(cfg, h);
    if id in f.subs {
      FinalizeLive(cfg, h, items, id);
    } else {
      FlushAddsNobody(cfg, Publish(f, items), id);
    }
  }

  lemma FinalizeLive(cfg: Config, h: Hub, items: seq<Item>, id: SubId)
    requires id in h.subs && id in Flush(cfg, h).subs
    ensures var g := Flush(cfg, Publish(Flush(cfg, h), items));
            var c := FinalizeClient(cfg, At(h, id), Relevant(h.subs[id].request, items));
            && (id in g.subs <==> c.Some?)
            && (id in g.subs ==> At(g, id) == c.value)
  {
    FlushAt(cfg, h, id);
    assert Flush(cfg, h).subs[id].request == h.subs[id].request;
    PublishThenFlush(cfg, Flush(cfg, h), items, id);
  }

  lemma FlushAddsNobody(cfg: Config, h: Hub, id: SubId)
    requires id !in h.subs
    ensures id !in Flush(cfg, h).subs
  {
  }

  lemma PublishThenFlush(cfg: Config, f: Hub, items: seq<Item>, id: SubId)
    requires id in f.subs
    ensures var g := Flush(cfg, Publish(f, items));
            var c := FlushClient(cfg, Client(f.subs[id], At(f, id).pending + Relevant(f.subs[id].request, items)));
            && (id in g.subs <==> c.Some?)
            && (id in g.subs ==> At(g, id) == c.value)
  {
    PublishAt(f, items, id);
    FlushAt(cfg, Publish(f, items), id);
  }

  lemma FinalizeStepDelivers(cfg: Config, h: Hub, items: seq<Item>, id: SubId)
    requires id in h.subs && id in Step(cfg, h, FinalizeBlock(items)).subs
    ensures Delivered(At(Step(cfg, h, FinalizeBlock(items)), id))
         == Delivered(At(h, id)) + Relevant(h.subs[id].request, items)
  {
    FinalizeAt(cfg, h, items, id);
    FinalizeDelivers(cfg, At(h, id), Relevant(h.subs[id].request, items));
  }

  lemma FinalizeDelivers(cfg: Config, c: Client, r: Batch)
    requires FinalizeClient(cfg, c, r).Some?
    ensures Delivered(FinalizeClient(cfg, c, r).value) == Delivered(c) + r
  {
    FlushKeeps(cfg, c);
    var f := FlushClient(cfg, c).value;
    FlushKeeps(cfg, Client(f.sub, f.pending + r));
  }

  lemma FinalizeKeepsRequest(cfg: Config, h: Hub, items: seq<Item>, id: SubId)
    requires id in h.subs && id in Step(cfg, h, FinalizeBlock(items)).subs
    ensures Step(cfg, h, FinalizeBlock(items)).subs[id].request == h.subs[id].request
  {
    FinalizeAt(cfg, h, items, id);
  }

  lemma SnapshotKeepsRequest(cfg: Config, h: Hub, src: Sources, id: SubId)
    requires id in h.subs && id in Step(cfg, h, Snapshot(src)).subs
    ensures Step(cfg, h, Snapshot(src)).subs[id].request == h.subs[id].request
  {
    FlushAt(cfg, h, id);
    SnapshotAt(cfg, h, src, id);
  }

  /** A live subscription keeps its request. */
  lemma StepKeepsRequest(cfg: Config, h: Hub, e: Event, id: SubId)
    requires id in h.subs && id in Step(cfg, h, e).subs
    ensures Step(cfg, h, e).subs[id].request == h.subs[id].request
  {
    match e
    case FinalizeBlock(items) => FinalizeKeepsRequest(cfg, h, items, id);
    case Snapshot(src) => SnapshotKeepsRequest(cfg, h, src, id);
    case Tick => FlushAt(cfg, h, id);
    case _ =>
  }

  /** Only a request that names something, and subaccounts when it asks to filter by them, adds a
      subscription: a new one, with that very request and nothing sent yet. */
  lemma OnlySubscribeAdds(cfg: Config, h: Hub, e: Event, id: SubId)
    requires id !in h.subs && id in Step(cfg, h, e).subs
    ensures e.Subscribe?
    ensures |e.request.pairs| + |e.request.accounts| + |e.request.markets| > 0
    ensures e.filterByAccount ==> |e.request.accounts| > 0
    ensures var sub := Step(cfg, h, e).subs[id];
            sub.request == e.request && sub.received == [] && sub.channel == [] && !sub.snapshotted
  {
  }

  /** In every run a live subscription holds the request its holder made. */
  lemma {:induction false} RequestIsTheirs(cfg: Config, es: seq<Event>, id: SubId)
    requires id in Run(cfg, es).subs
    ensures RequestOf(cfg, es, id) == Some(Run(cfg, es).subs[id].request)
    decreases |es|
  {
    if |es| > 0 {
      var prev, e := es[..|es| - 1], es[|es| - 1];
      if id in Run(cfg, prev).subs {
        RequestIsTheirs(cfg, prev, id);
        StepKeepsRequest(cfg, Run(cfg, prev), e, id);
      } else {
        OnlySubscribeAdds(cfg, Run(cfg, prev), e, id);
      }
    }
  }

  predicate SameFlags(a: Subscription, b: Subscription) {
    a.snapshotted == b.snapshotted && a.nextSnapshot == b.nextSnapshot
  }

  /** A poller takes the oldest batch in its channel, if there is one, and nothing else changes. */
  lemma PollTakesOldest(cfg: Config, h: Hub, id: SubId)
    requires id in h.subs
    ensures var h', was := Step(cfg, h, Poll(id)), h.subs[id];
            && h'.subs.Keys == h.subs.Keys && h'.pending == h.pending && h'.cached == h.cached
            && (forall i :: i in h.subs && i != id ==> h'.subs[i] == h.subs[i])
            && (if was.channel == [] then h'.subs[id] == was
                else
                  && h'.subs[id].received == was.received + [was.channel[0]]
                  && [was.channel[0]] + h'.subs[id].channel == was.channel
                  && h'.subs[id].request == was.request && SameFlags(h'.subs[id], was))
  {
  }

  /** Nothing is ever pending for an id that is not live. */
  lemma {:induction false} MailOnlyForLive(cfg: Config, es: seq<Event>)
    ensures Run(cfg, es).pending.Keys <= Run(cfg, es).subs.Keys
    decreases |es|
  {
    if |es| > 0 {
      MailOnlyForLive(cfg, es[..|es| - 1]);
    }
  }

  /** In every run, what a live subscription was given, followed by what waits for it, is exactly its
      log: in order, nothing missing, nothing twice, nothing from an earlier holder of its id. */
  lemma {:induction false} DeliveryIsTheLog(cfg: Config, es: seq<Event>, id: SubId)
    requires id in Run(cfg, es).subs
    ensures Delivered(At(Run(cfg, es), id)) == Log(cfg, es, id)
    decreases |es|
  {
    if |es| > 0 {
      var prev := es[..|es| - 1];
      if id in Run(cfg, prev).subs {
        DeliveryIsTheLog(cfg, prev, id);
        RequestIsTheirs(cfg, prev, id);
        StepDelivers(cfg, Run(cfg, prev), es[|es| - 1], id);
      } else {
        MailOnlyForLive(cfg, prev);
      }
    }
  }

  // ---- What goes into the channels, and who is dropped ----

  function NonEmpty(b: Batch): seq<Batch> {
    if b == [] then [] else [b]
  }

  /** The batches an event puts in a client's channel: what was pending comes first, as a batch of
      its own, then what the event itself brings, as one further batch. */
  function Owed(c: Client, e: Event): seq<Batch> {
    match e
    case Tick => NonEmpty(c.pending)
    case FinalizeBlock(items) => NonEmpty(c.pending) + NonEmpty(Relevant(c.sub.request, items))
    case Snapshot(src) =>
      NonEmpty(c.pending) + if c.sub.snapshotted then [] else [SnapshotBatch(c.sub.request, src)]
    case _ => []
  }

  lemma FlushSends(cfg: Config, c: Client)
    requires |c.sub.channel| <= cfg.capacity
    ensures FlushClient(cfg, c).Some? <==> |c.sub.channel| + |NonEmpty(c.pending)| <= cfg.capacity
    ensures FlushClient(cfg, c).Some? ==>
              FlushClient(cfg, c).value == Client(c.sub.(channel := c.sub.channel + NonEmpty(c.pending)), [])
  {
    if c.pending == [] {
      assert c.sub.channel + [] == c.sub.channel;
    }
  }

  lemma FinalizeSends(cfg: Config, c: Client, r: Batch)
    requires |c.sub.channel| <= cfg.capacity
    ensures var owed := NonEmpty(c.pending) + NonEmpty(r);
            && (FinalizeClient(cfg, c, r).Some? <==> |c.sub.channel| + |owed| <= cfg.capacity)
            && (FinalizeClient(cfg, c, r).Some? ==>
                  FinalizeClient(cfg, c, r).value == Client(c.sub.(channel := c.sub.channel + owed), []))
  {
    FlushSends(cfg, c);
    if FlushClient(cfg, c).Some? {
      var f := FlushClient(cfg, c).value;
      assert f.pending + r == r;
      FlushSends(cfg, Client(f.sub, r));
      assert c.sub.channel + NonEmpty(c.pending) + NonEmpty(r) == c.sub.channel + (NonEmpty(c.pending) + NonEmpty(r));
    }
  }

  lemma SnapshotSends(cfg: Config, src: Sources, sub: Subscription)
    requires |sub.channel| <= cfg.capacity
    ensures var due := if sub.snapshotted then [] else [SnapshotBatch(sub.request, src)];
            && (SnapshotSub(cfg, src, sub).Some? <==> |sub.channel| + |due| <= cfg.capacity)
            && (SnapshotSub(cfg, src, sub).Some? ==> SnapshotSub(cfg, src, sub).value.channel == sub.channel + due)
  {
  }

  /** A sending event reaches a client's channel with exactly the batches owed, in order, and the
      client is dropped exactly when they do not all fit. */
  lemma SendsWhatIsOwed(cfg: Config, h: Hub, e: Event, id: SubId)
    requires e.Tick? || e.FinalizeBlock? || e.Snapshot?
    requires id in h.subs && |h.subs[id].channel| <= cfg.capacity
    ensures var c := At(h, id);
            && (id in Step(cfg, h, e).subs <==> |c.sub.channel| + |Owed(c, e)| <= cfg.capacity)
            && (id in Step(cfg, h, e).subs ==>
                  && At(Step(cfg, h, e), id).pending == []
                  && Step(cfg, h, e).subs[id].channel == c.sub.channel + Owed(c, e))
  {
    var c := At(h, id);
    FlushAt(cfg, h, id);
    FlushSends(cfg, c);
    match e
    case Tick =>
    case FinalizeBlock(items) =>
      FinalizeAt(cfg, h, items, id);
      FinalizeSends(cfg, c, Relevant(c.sub.request, items));
    case Snapshot(src) =>
      if FlushClient(cfg, c).Some? {
        SnapshotAt(cfg, h, src, id);
        SnapshotSends(cfg, src, FlushClient(cfg, c).value.sub);
      }
  }

  /** No other event ends a subscription, except adding updates beyond the cache limit. */
  lemma OtherEventsKeep(cfg: Config, h: Hub, e: Event, id: SubId)
    requires e.Subscribe? || e.Add? || e.Poll?
    requires id in h.subs
    ensures id !in Step(cfg, h, e).subs <==> e.Add? && h.cached + |e.items| > cfg.maxCached
  {
  }

  predicate WithinBounds(cfg: Config, h: Hub) {
    && h.cached <= cfg.maxCached
    && forall id :: id in h.subs ==> |h.subs[id].channel| <= cfg.capacity
  }

  lemma StepBounded(cfg: Config, h: Hub, e: Event, id: SubId)
    requires WithinBounds(cfg, h) && id in Step(cfg, h, e).subs
    ensures |Step(cfg, h, e).subs[id].channel| <= cfg.capacity
  {
    if e.Tick? || e.FinalizeBlock? || e.Snapshot? {
      SendsWhatIsOwed(cfg, h, e, id);
    }
  }

  /** In every run the cache stays within its limit and every channel within its capacity. */
  lemma {:induction false} Bounded(cfg: Config, es: seq<Event>)
    ensures WithinBounds(cfg, Run(cfg, es))
    decreases |es|
  {
    if |es| > 0 {
      var h := Run(cfg, es[..|es| - 1]);
      Bounded(cfg, es[..|es| - 1]);
      forall id | id in Run(cfg, es).subs
        ensures |Run(cfg, es).subs[id].channel| <= cfg.capacity
      {
        StepBounded(cfg, h, es[|es| - 1], id);
      }
    }
  }

  /** A subscription's final batch keeps the block's order: sync updates, fills, order book updates,
      subaccount updates, prices. */
  lemma BlockBatchOrder(
      req: Request, sync: seq<OffchainUpdate>, staged: seq<StagedEvent>, perps: Perpetuals, height: nat, mode: nat)
    requires AllAttributable(staged, perps)
    ensures Relevant(req, BlockItems(sync, staged, perps, height, mode))
         == Relevant(req, GroupItems(sync, height, mode))
            + Relevant(req, FillItems(Fills(staged), perps, height, mode))
            + Relevant(req, BookItems(Books(staged), height, mode))
            + Relevant(req, AccountItems(Accounts(staged), height, mode))
            + Relevant(req, PriceItems(Prices(staged), height, mode))
  {
    var a := GroupItems(sync, height, mode);
    var b := FillItems(Fills(staged), perps, height, mode);
    var c := BookItems(Books(staged), height, mode);
    var d := AccountItems(Accounts(staged), height, mode);
    RelevantConcat(req, a, b);
    RelevantConcat(req, a + b, c);
    RelevantConcat(req, a + b + c, d);
    RelevantConcat(req, a + b + c + d, PriceItems(Prices(staged), height, mode));
  }

  // ---- When snapshots are sent ----

  /** The height of the first snapshot sent to the present holder of `id`. */
  function FirstSnapshot(cfg: Config, es: seq<Event>, id: SubId): Option<nat> {
    if |es| == 0 then None
    else
      var prev := es[..|es| - 1];
      if id !in Run(cfg, prev).subs then None else FirstAfter(FirstSnapshot(cfg, prev, id), es[|es| - 1])
  }

  function FirstAfter(first: Option<nat>, e: Event): Option<nat> {
    if first.None? && e.Snapshot? then Some(e.src.height) else first
  }

  function LastAfter(last: Option<nat>, e: Event): Option<nat> {
    if e.Snapshot? then Some(e.src.height) else last
  }

  function LastHeight(es: seq<Event>): Option<nat> {
    if |es| == 0 then None else LastAfter(LastHeight(es[..|es| - 1]), es[|es| - 1])
  }

  /** New streams are initialized once at every block height, each height a uint32. */
  ghost predicate Consecutive(es: seq<Event>) {
    |es| == 0 ||
    var prev := es[..|es| - 1];
    var e := es[|es| - 1];
    && Consecutive(prev)
    && (e.Snapshot? ==> e.src.height < UINT32 && (LastHeight(prev).Some? ==> e.src.height == LastHeight(prev).value + 1))
  }

  predicate Due(interval: nat, first: nat, height: nat) {
    first <= height && if interval == 0 then height == first else (height - first) % interval == 0
  }

  /** The first due height after `last`. */
  function NextDue(interval: nat, first: nat, last: nat): int
    requires interval > 0
  {
    last - (last - first) % interval + interval
  }

  /** Between calls, a subscription's flag and next height are fixed by when it was first
      snapshotted and by the last height seen. */
  ghost predicate OnSchedule(k: nat, sub: Subscription, first: Option<nat>, last: Option<nat>) {
    match first
    case None => !sub.snapshotted
    case Some(f) => last.Some? && Scheduled(k, sub, f, last.value)
  }

  predicate Scheduled(k: nat, sub: Subscription, first: nat, last: nat) {
    && first <= last < UINT32
    && (sub.snapshotted <==> !Due(k, first, last + 1))
    && (k > 0 ==> sub.nextSnapshot == NextDue(k, first, last) % UINT32)
  }

  /** Numbers less than a period apart meet modulo it only when equal. */
  lemma MeetOnce(a: int, b: int, m: int)
    requires 0 <= a <= b < a + m
    ensures a % m == b % m <==> a == b
  {
    var q := a / m;
    assert a == q * m + a % m;
    if a % m + (b - a) < m {
      DivModUnique(b, m, q, a % m + (b - a));
    } else {
      assert (q + 1) * m == q * m + m;
      DivModUnique(b, m, q + 1, a % m + (b - a) - m);
    }
  }

  /** The scheduled height meets the next block exactly when the next block is due, whatever wraps. */
  lemma RearmWhenDue(k: nat, first: nat, last: nat)
    requires 0 < k < UINT32 && first <= last
    ensures (last + 1) % UINT32 == NextDue(k, first, last) % UINT32 <==> Due(k, first, last + 1)
  {
    NextRemainder(last - first, k);
    assert last + 1 - first == (last - first) + 1;
    MeetOnce(last + 1, NextDue(k, first, last), UINT32);
  }

  /** A block that is not due leaves the scheduled height, one that is due moves it on. */
  lemma NextDueStep(k: nat, first: nat, height: nat)
    requires k > 0 && first <= height
    ensures Due(k, first, height) ==> NextDue(k, first, height) == height + k
    ensures !Due(k, first, height) ==> first < height && NextDue(k, first, height) == NextDue(k, first, height - 1)
  {
    DivModUnique(0, k, 0, 0);
    if first < height {
      NextRemainder(height - 1 - first, k);
      assert height - first == (height - 1 - first) + 1;
    }
  }

  /** One call of the snapshot routine, seen by one subscription that survives it. */
  lemma CallKeepsSchedule(cfg: Config, src: Sources, sub: Subscription, first: Option<nat>, last: Option<nat>)
    requires cfg.interval < UINT32 && OnSchedule(cfg.interval, sub, first, last)
    requires src.height < UINT32 && (last.Some? ==> src.height == last.value + 1)
    requires SnapshotSub(cfg, src, sub).Some?
    ensures OnSchedule(cfg.interval, SnapshotSub(cfg, src, sub).value,
                       FirstAfter(first, Snapshot(src)), Some(src.height))
  {
    var f := if first.Some? then first.value else src.height;
    assert sub.snapshotted <==> !Due(cfg.interval, f, src.height) by {
      if cfg.interval > 0 {
        DivModUnique(0, cfg.interval, 0, 0);
      }
    }
    CallSchedules(cfg, src, sub, f);
  }

  lemma CallSchedules(cfg: Config, src: Sources, sub: Subscription, first: nat)
    requires cfg.interval < UINT32 && first <= src.height < UINT32
    requires sub.snapshotted <==> !Due(cfg.interval, first, src.height)
    requires sub.snapshotted && cfg.interval > 0 ==>
      first < src.height && sub.nextSnapshot == NextDue(cfg.interval, first, src.height - 1) % UINT32
    requires SnapshotSub(cfg, src, sub).Some?
    ensures Scheduled(cfg.interval, SnapshotSub(cfg, src, sub).value, first, src.height)
  {
    if cfg.interval > 0 {
      NextDueStep(cfg.interval, first, src.height);
      RearmWhenDue(cfg.interval, first, src.height);
    }
  }

  lemma RoundKeepsSchedule(cfg: Config, h: Hub, src: Sources, id: SubId, first: Option<nat>, last: Option<nat>)
    requires id in h.subs && id in Step(cfg, h, Snapshot(src)).subs
    requires cfg.interval < UINT32 && OnSchedule(cfg.interval, h.subs[id], first, last)
    requires src.height < UINT32 && (last.Some? ==> src.height == last.value + 1)
    ensures OnSchedule(cfg.interval, Step(cfg, h, Snapshot(src)).subs[id],
                       FirstAfter(first, Snapshot(src)), Some(src.height))
  {
    FlushAt(cfg, h, id);
    SnapshotAt(cfg, h, src, id);
    CallKeepsSchedule(cfg, src, Flush(cfg, h).subs[id], first, last);
  }

  lemma TickKeepsFlags(cfg: Config, h: Hub, id: SubId)
    requires id in h.subs && id in Step(cfg, h, Tick).subs
    ensures SameFlags(Step(cfg, h, Tick).subs[id], h.subs[id])
  {
    FlushAt(cfg, h, id);
  }

  lemma FinalizeKeepsFlags(cfg: Config, h: Hub, items: seq<Item>, id: SubId)
    requires id in h.subs && id in Step(cfg, h, FinalizeBlock(items)).subs
    ensures SameFlags(Step(cfg, h, FinalizeBlock(items)).subs[id], h.subs[id])
  {
    FinalizeAt(cfg, h, items, id);
  }

  lemma OthersKeepFlags(cfg: Config, h: Hub, e: Event, id: SubId)
    requires e.Subscribe? || e.Add? || e.Poll?
    requires id in h.subs && id in Step(cfg, h, e).subs
    ensures SameFlags(Step(cfg, h, e).subs[id], h.subs[id])
  {
  }

  lemma StepKeepsFlags(cfg: Config, h: Hub, e: Event, id: SubId)
    requires !e.Snapshot? && id in h.subs && id in Step(cfg, h, e).subs
    ensures SameFlags(Step(cfg, h, e).subs[id], h.subs[id])
  {
    match e
    case Tick => TickKeepsFlags(cfg, h, id);
    case FinalizeBlock(items) => FinalizeKeepsFlags(cfg, h, items, id);
    case _ => OthersKeepFlags(cfg, h, e, id);
  }

  lemma ScheduleStep(cfg: Config, h: Hub, e: Event, id: SubId, first: Option<nat>, last: Option<nat>)
    requires id in h.subs && id in Step(cfg, h, e).subs
    requires cfg.interval < UINT32 && OnSchedule(cfg.interval, h.subs[id], first, last)
    requires e.Snapshot? ==> e.src.height < UINT32 && (last.Some? ==> e.src.height == last.value + 1)
    ensures OnSchedule(cfg.interval, Step(cfg, h, e).subs[id], FirstAfter(first, e), LastAfter(last, e))
  {
    if e.Snapshot? {
      RoundKeepsSchedule(cfg, h, e.src, id, first, last);
    } else {
      StepKeepsFlags(cfg, h, e, id);
      FlagsDecide(cfg.interval, h.subs[id], Step(cfg, h, e).subs[id], first, last);
    }
  }

  lemma FlagsDecide(k: nat, a: Subscription, b: Subscription, first: Option<nat>, last: Option<nat>)
    requires SameFlags(b, a) && OnSchedule(k, a, first, last)
    ensures OnSchedule(k, b, first, last)
  {
  }

  lemma {:induction false} AlwaysScheduled(cfg: Config, es: seq<Event>, id: SubId)
    requires Consecutive(es) && cfg.interval < UINT32 && id in Run(cfg, es).subs
    ensures OnSchedule(cfg.interval, Run(cfg, es).subs[id], FirstSnapshot(cfg, es, id), LastHeight(es))
    decreases |es|
  {
    if |es| > 0 {
      if id in Run(cfg, es[..|es| - 1]).subs {
        var prev := es[..|es| - 1];
        AlwaysScheduled(cfg, prev, id);
        ScheduleStep(cfg, Run(cfg, prev), es[|es| - 1], id, FirstSnapshot(cfg, prev, id), LastHeight(prev));
      }
    }
  }

  lemma SentWhenDue(cfg: Config, es: seq<Event>, id: SubId)
    requires |es| > 0 && es[|es| - 1].Snapshot? && Consecutive(es) && cfg.interval < UINT32
    requires id in Run(cfg, es[..|es| - 1]).subs
    ensures FirstSnapshot(cfg, es, id).Some?
    ensures !Run(cfg, es[..|es| - 1]).subs[id].snapshotted <==>
            Due(cfg.interval, FirstSnapshot(cfg, es, id).value, es[|es| - 1].src.height)
  {
    AlwaysScheduled(cfg, es[..|es| - 1], id);
  }

  /** A subscription first snapshotted at height h is snapshotted at exactly h, h + k, h + 2k, ...
      while it lives, and exactly once when k is 0: a call puts in its channel what was pending and then,
      if and only if the height is due, the snapshot. It survives if and only if that fits. */
  lemma SnapshotSchedule(cfg: Config, es: seq<Event>, id: SubId)
    requires |es| > 0 && es[|es| - 1].Snapshot? && Consecutive(es) && cfg.interval < UINT32
    requires id in Run(cfg, es[..|es| - 1]).subs
    ensures FirstSnapshot(cfg, es, id).Some?
    ensures var c := At(Run(cfg, es[..|es| - 1]), id);
            var src := es[|es| - 1].src;
            var sent := NonEmpty(c.pending) +
                        if Due(cfg.interval, FirstSnapshot(cfg, es, id).value, src.height)
                        then [SnapshotBatch(c.sub.request, src)] else [];
            && (id in Run(cfg, es).subs <==> |c.sub.channel| + |sent| <= cfg.capacity)
            && (id in Run(cfg, es).subs ==> Run(cfg, es).subs[id].channel == c.sub.channel + sent)
  {
    var prev := es[..|es| - 1];
    var h := Run(cfg, prev);
    SentWhenDue(cfg, es, id);
    Bounded(cfg, prev);
    SendsWhatIsOwed(cfg, h, es[|es| - 1], id);
  }
}
