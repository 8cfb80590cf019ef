/**
The simple specification of the streaming service: a table of clients, each with its own queue.
There are no indexes and no shared cache here; publishing looks at every client's request.
*/
module StreamSpec {
  import opened Basics
  import opened Seqs
  import opened SubscriptionIndex
  import opened StreamTypes

  /** `pending` holds, per subscription, what has been published to it and not yet put in its
      channel; `cached` counts the updates published since the last flush, wanted or not. */
  datatype Hub = Hub(subs: map<SubId, Subscription>, pending: map<SubId, Batch>, cached: nat)

  /** What a map of batches holds for an id. */
  function BatchFor(m: map<SubId, Batch>, id: SubId): Batch {
    if id in m then m[id] else []
  }

  /** One subscription with what is pending for it. */
  datatype Client = Client(sub: Subscription, pending: Batch)

  function At(h: Hub, id: SubId): Client
    requires id in h.subs
  {
    Client(h.subs[id], BatchFor(h.pending, id))
  }

  // ---- Who is sent what ----

  /** A request that names no clob pair asks for all of them. */
  predicate Interested(req: Request, topic: Topic) {
    match topic
    case Pair(p) => req.pairs == [] || p in req.pairs
    case Account(a) => a in req.accounts
    case Market(m) => m in req.markets
  }

  function Relevant(req: Request, items: seq<Item>): Batch {
    if items == [] then []
    else
      var last := items[|items| - 1];
      Relevant(req, items[..|items| - 1]) + (if Interested(req, last.topic) then [last.update] else [])
  }

  lemma {:induction false} RelevantConcat(req: Request, a: seq<Item>, b: seq<Item>)
    ensures Relevant(req, a + b) == Relevant(req, a) + Relevant(req, b)
    decreases |b|
  {
    if b == [] {
      assert a + b == a;
    } else {
      assert (a + b)[..|a + b| - 1] == a + b[..|b| - 1];
      RelevantConcat(req, a, b[..|b| - 1]);
    }
  }

  // ---- Operations on one client ----

  /** A non-blocking send: it succeeds exactly when the channel has room. */
  function Put(cfg: Config, sub: Subscription, batch: Batch): Option<Subscription> {
    if |sub.channel| < cfg.capacity then Some(sub.(channel := sub.channel + [batch])) else None
  }

  function FlushClient(cfg: Config, c: Client): Option<Client> {
    if c.pending == [] then Some(c)
    else match Put(cfg, c.sub, c.pending)
      case None => None
      case Some(s) => Some(Client(s, []))
  }

  function BookOf(book: PairId -> seq<OffchainUpdate>, pairs: seq<PairId>): seq<OffchainUpdate> {
    if pairs == [] then [] else BookOf(book, pairs[..|pairs| - 1]) + book(pairs[|pairs| - 1])
  }

  function AccountsOf(src: Sources, accounts: seq<SubaccountId>): Batch {
    if accounts == [] then []
    else
      var a := accounts[|accounts| - 1];
      AccountsOf(src, accounts[..|accounts| - 1]) +
      (if a in src.accounts then [Update(SubaccountUpdate(a, src.accounts[a]), src.height, src.mode)] else [])
  }

  function PricesOf(src: Sources, markets: seq<MarketId>): Batch {
    if markets == [] then []
    else
      var m := markets[|markets| - 1];
      PricesOf(src, markets[..|markets| - 1]) +
      (if m in src.prices then [Update(PriceUpdate(m, src.prices[m]), src.height, src.mode)] else [])
  }

  /** One order book message, then the known subaccounts, then the known prices, in request order. */
  function SnapshotBatch(req: Request, src: Sources): Batch {
    [Update(OrderbookUpdate(BookOf(src.book, req.pairs), true), src.height, src.mode)]
    + AccountsOf(src, req.accounts)
    + PricesOf(src, req.markets)
  }

  /** Asks for a new snapshot when the next block is the scheduled one (32-bit arithmetic). */
  function Rearm(cfg: Config, sub: Subscription, height: nat): Subscription {
    if cfg.interval > 0 && (height + 1) % UINT32 == sub.nextSnapshot then sub.(snapshotted := false) else sub
  }

  function MarkSnapshotted(cfg: Config, sub: Subscription, height: nat): Subscription {
    sub.(snapshotted := true,
         nextSnapshot := if cfg.interval != 0 then (height + cfg.interval) % UINT32 else sub.nextSnapshot)
  }

  function SnapshotSub(cfg: Config, src: Sources, sub: Subscription): Option<Subscription> {
    if sub.snapshotted then Some(Rearm(cfg, sub, src.height))
    else match Put(cfg, sub, SnapshotBatch(sub.request, src))
      case None => None
      case Some(s) => Some(Rearm(cfg, MarkSnapshotted(cfg, s, src.height), src.height))
  }

  // ---- Operations on the whole table ----

  function Publish(h: Hub, items: seq<Item>): Hub {
    Hub(h.subs, Mailed(h.subs, h.pending, items), h.cached + |items|)
  }

  function MailFor(subs: map<SubId, Subscription>, pending: map<SubId, Batch>, items: seq<Item>, id: SubId): Batch
    requires id in subs
  {
    BatchFor(pending, id) + Relevant(subs[id].request, items)
  }

  function Mailed(subs: map<SubId, Subscription>, pending: map<SubId, Batch>, items: seq<Item>): map<SubId, Batch> {
    map id | id in subs && MailFor(subs, pending, items, id) != [] :: MailFor(subs, pending, items, id)
  }

  lemma MailedTwice(subs: map<SubId, Subscription>, pending: map<SubId, Batch>, a: seq<Item>, b: seq<Item>, id: SubId)
    requires id in subs
    ensures MailFor(subs, Mailed(subs, pending, a), b, id) == MailFor(subs, pending, a + b, id)
  {
    RelevantConcat(subs[id].request, a, b);
    assert BatchFor(Mailed(subs, pending, a), id) == MailFor(subs, pending, a, id);
    Associate(BatchFor(pending, id), Relevant(subs[id].request, a), Relevant(subs[id].request, b));
  }

  /** Publishing in two steps is publishing at once. */
  lemma PublishConcat(h: Hub, a: seq<Item>, b: seq<Item>)
    ensures Publish(Publish(h, a), b) == Publish(h, a + b)
  {
    forall id | id in h.subs
      ensures MailFor(h.subs, Mailed(h.subs, h.pending, a), b, id) == MailFor(h.subs, h.pending, a + b, id)
    {
      MailedTwice(h.subs, h.pending, a, b, id);
    }
    SameMail(h.subs, Mailed(h.subs, h.pending, a), b, h.pending, a + b);
  }

  lemma SameMail(subs: map<SubId, Subscription>, p: map<SubId, Batch>, a: seq<Item>, q: map<SubId, Batch>, b: seq<Item>)
    requires forall id :: id in subs ==> MailFor(subs, p, a, id) == MailFor(subs, q, b, id)
    ensures Mailed(subs, p, a) == Mailed(subs, q, b)
  {
  }

  /** Too many cached updates end every subscription. */
  function Overflow(cfg: Config, h: Hub): Hub {
    if h.cached > cfg.maxCached then Hub(map[], map[], 0) else h
  }

  function Flush(cfg: Config, h: Hub): Hub {
    Hub(map id | id in h.subs && FlushClient(cfg, At(h, id)).Some? :: FlushClient(cfg, At(h, id)).value.sub, map[], 0)
  }

  function SnapshotAll(cfg: Config, h: Hub, src: Sources): Hub {
    h.(subs := map id | id in h.subs && SnapshotSub(cfg, src, h.subs[id]).Some? :: SnapshotSub(cfg, src, h.subs[id]).value)
  }

  predicate Accepts(req: Request, filterByAccount: bool) {
    && (req.pairs != [] || req.accounts != [] || req.markets != [])
    && (filterByAccount ==> req.accounts != [])
  }

  function NewSubscription(req: Request): Subscription {
    Subscription(req, [], [], false, 0)
  }

  function Join(h: Hub, req: Request): Hub {
    h.(subs := h.subs[LeastFree(h.subs.Keys, 0) := NewSubscription(req)])
  }

  /** The poller of subscription `id` takes the oldest batch, if there is one. */
  function Take(h: Hub, id: SubId): Hub {
    if id in h.subs && h.subs[id].channel != [] then h.(subs := h.subs[id := TakeSub(h.subs[id])]) else h
  }

  function TakeSub(s: Subscription): Subscription
    requires s.channel != []
  {
    s.(received := s.received + [s.channel[0]], channel := s.channel[1..])
  }

  // ---- The least unused id ----

  /** Numbers below `n` that are all in a set number at most the set's size. */
  lemma {:induction false} BelowSize(ids: set<nat>, n: nat)
    requires forall i: nat :: i < n ==> i in ids
    ensures n <= |ids|
  {
    if n > 0 {
      BelowSize(ids - {n - 1}, n - 1);
    }
  }

  function LeastFree(ids: set<SubId>, n: nat): (r: SubId)
    requires forall i: nat :: i < n ==> i in ids
    ensures r !in ids && forall i: nat :: i < r ==> i in ids
    ensures r <= |ids|
    decreases |ids| - n
  {
    BelowSize(ids, n);
    if n !in ids then n
    else
      BelowSize(ids, n + 1);
      LeastFree(ids, n + 1)
  }
}
