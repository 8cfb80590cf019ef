/**
The full node streaming manager: indexed, cached and batched. Every operation is one critical
section under the manager's lock and is proved to do to `View()` what the simple table of clients
in `StreamSpec` does.
*/
module StreamingManager {
  import opened Basics
  import opened Seqs
  import opened SubscriptionIndex
  import opened StreamTypes
  import opened StreamSpec
  import opened StreamCache
  import opened StreamContents
  import opened OffchainGrouping
  import opened StreamRuns

  function PairNames(subs: map<SubId, Subscription>): map<SubId, seq<PairId>> {
    map id | id in subs :: subs[id].request.pairs
  }

  function AccountNames(subs: map<SubId, Subscription>): map<SubId, seq<SubaccountId>> {
    map id | id in subs :: subs[id].request.accounts
  }

  function MarketNames(subs: map<SubId, Subscription>): map<SubId, seq<MarketId>> {
    map id | id in subs :: subs[id].request.markets
  }

  function WantingAll(subs: map<SubId, Subscription>): set<SubId> {
    set id | id in subs && subs[id].request.pairs == []
  }

  /** The four indexes agree with the table of live subscriptions. */
  ghost predicate Indexed(
    subs: map<SubId, Subscription>, pairs: Index<PairId>, accounts: Index<SubaccountId>, markets: Index<MarketId>,
    all: set<SubId>)
  {
    && Exact(pairs, PairNames(subs))
    && Exact(accounts, AccountNames(subs))
    && Exact(markets, MarketNames(subs))
    && all == WantingAll(subs)
  }

  lemma SubscribeKeepsIndexes(
      subs: map<SubId, Subscription>, pairs: Index<PairId>, accounts: Index<SubaccountId>, markets: Index<MarketId>,
      all: set<SubId>, id: SubId, sub: Subscription)
    requires Indexed(subs, pairs, accounts, markets, all) && id !in subs
    requires NoDup(sub.request.pairs) && NoDup(sub.request.accounts) && NoDup(sub.request.markets)
    ensures Indexed(subs[id := sub],
                    AddAll(pairs, sub.request.pairs, id),
                    AddAll(accounts, sub.request.accounts, id),
                    AddAll(markets, sub.request.markets, id),
                    if sub.request.pairs == [] then all + {id} else all)
  {
    AddAllExact(pairs, PairNames(subs), sub.request.pairs, id);
    AddAllExact(accounts, AccountNames(subs), sub.request.accounts, id);
    AddAllExact(markets, MarketNames(subs), sub.request.markets, id);
    PairNamesAfter(subs, id, sub);
    AccountNamesAfter(subs, id, sub);
    MarketNamesAfter(subs, id, sub);
  }

  lemma PairNamesAfter(subs: map<SubId, Subscription>, id: SubId, sub: Subscription)
    requires id !in subs
    ensures PairNames(subs[id := sub]) == PairNames(subs)[id := sub.request.pairs]
    ensures WantingAll(subs[id := sub]) == if sub.request.pairs == [] then WantingAll(subs) + {id} else WantingAll(subs)
  {
  }

  lemma AccountNamesAfter(subs: map<SubId, Subscription>, id: SubId, sub: Subscription)
    ensures AccountNames(subs[id := sub]) == AccountNames(subs)[id := sub.request.accounts]
  {
  }

  lemma MarketNamesAfter(subs: map<SubId, Subscription>, id: SubId, sub: Subscription)
    ensures MarketNames(subs[id := sub]) == MarketNames(subs)[id := sub.request.markets]
  {
  }

  lemma RemoveKeepsIndexes(
      subs: map<SubId, Subscription>, pairs: Index<PairId>, accounts: Index<SubaccountId>, markets: Index<MarketId>,
      all: set<SubId>, id: SubId)
    requires Indexed(subs, pairs, accounts, markets, all)
    ensures Indexed(subs - {id}, DropAll(pairs, id), DropAll(accounts, id), DropAll(markets, id), all - {id})
  {
    var after := subs - {id};
    DropAllExact(pairs, PairNames(subs), id);
    DropAllExact(accounts, AccountNames(subs), id);
    DropAllExact(markets, MarketNames(subs), id);
    assert PairNames(after) == PairNames(subs) - {id};
    assert AccountNames(after) == AccountNames(subs) - {id};
    assert MarketNames(after) == MarketNames(subs) - {id};
  }

  method AddToIndexes(
      ghost subs: map<SubId, Subscription>, pairs: Index<PairId>, accounts: Index<SubaccountId>, markets: Index<MarketId>,
      all: set<SubId>, id: SubId, sub: Subscription)
    returns (pairs': Index<PairId>, accounts': Index<SubaccountId>, markets': Index<MarketId>, all': set<SubId>)
    requires Indexed(subs, pairs, accounts, markets, all) && id !in subs
    requires NoDup(sub.request.pairs) && NoDup(sub.request.accounts) && NoDup(sub.request.markets)
    ensures Indexed(subs[id := sub], pairs', accounts', markets', all')
  {
    all' := if sub.request.pairs == [] then all + {id} else all;
    pairs' := AddSubscription(pairs, sub.request.pairs, id);
    accounts' := AddSubscription(accounts, sub.request.accounts, id);
    markets' := AddSubscription(markets, sub.request.markets, id);
    SubscribeKeepsIndexes(subs, pairs, accounts, markets, all, id, sub);
  }

  method DropFromIndexes(
      ghost subs: map<SubId, Subscription>, pairs: Index<PairId>, accounts: Index<SubaccountId>, markets: Index<MarketId>,
      all: set<SubId>, id: SubId)
    returns (pairs': Index<PairId>, accounts': Index<SubaccountId>, markets': Index<MarketId>, all': set<SubId>)
    requires Indexed(subs, pairs, accounts, markets, all)
    ensures Indexed(subs - {id}, pairs', accounts', markets', all')
  {
    all' := all - {id};
    pairs' := DropSubscription(pairs, id);
    accounts' := DropSubscription(accounts, id);
    markets' := DropSubscription(markets, id);
    RemoveKeepsIndexes(subs, pairs, accounts, markets, all, id);
  }

  /** Changing channels or snapshot flags leaves the indexes right. */
  lemma SameRequestsKeepIndexes(
      subs: map<SubId, Subscription>, after: map<SubId, Subscription>,
      pairs: Index<PairId>, accounts: Index<SubaccountId>, markets: Index<MarketId>, all: set<SubId>)
    requires Indexed(subs, pairs, accounts, markets, all) && SameRequests(subs, after)
    ensures Indexed(after, pairs, accounts, markets, all)
  {
    assert PairNames(after) == PairNames(subs);
    assert AccountNames(after) == AccountNames(subs);
    assert MarketNames(after) == MarketNames(subs);
  }

  /** The index of a pair, followed by the all-pairs subscriptions in any order, is right for the pair. */
  lemma PairListResolves(subs: map<SubId, Subscription>, index: Index<PairId>, all: seq<SubId>, p: PairId)
    requires Exact(index, PairNames(subs)) && NoDup(all) && (forall id :: id in all <==> id in WantingAll(subs))
    ensures Resolves(subs, Pair(p), Entry(index, p) + all)
  {
    assert ExactAt(index, PairNames(subs), p);
    NoDupConcat(Entry(index, p), all);
  }

  lemma AccountListResolves(subs: map<SubId, Subscription>, index: Index<SubaccountId>, a: SubaccountId)
    requires Exact(index, AccountNames(subs))
    ensures Resolves(subs, Account(a), Entry(index, a))
  {
    assert ExactAt(index, AccountNames(subs), a);
  }

  lemma MarketListResolves(subs: map<SubId, Subscription>, index: Index<MarketId>, m: MarketId)
    requires Exact(index, MarketNames(subs))
    ensures Resolves(subs, Market(m), Entry(index, m))
  {
    assert ExactAt(index, MarketNames(subs), m);
  }

  function PairItems(updates: Batch, pairs: seq<PairId>): (r: seq<Item>)
    requires |updates| == |pairs|
    ensures |r| == |updates| && Updates(r) == updates
    ensures forall i :: 0 <= i < |r| ==> r[i].update == updates[i] && r[i].topic == Pair(pairs[i])
  {
    seq(|updates|, i requires 0 <= i < |updates| => Item(updates[i], Pair(pairs[i])))
  }

  function AccountTopicItems(updates: Batch, accounts: seq<SubaccountId>): (r: seq<Item>)
    requires |updates| == |accounts|
    ensures |r| == |updates| && Updates(r) == updates
    ensures forall i :: 0 <= i < |r| ==> r[i].update == updates[i] && r[i].topic == Account(accounts[i])
  {
    seq(|updates|, i requires 0 <= i < |updates| => Item(updates[i], Account(accounts[i])))
  }

  function MarketTopicItems(updates: Batch, markets: seq<MarketId>): (r: seq<Item>)
    requires |updates| == |markets|
    ensures |r| == |updates| && Updates(r) == updates
    ensures forall i :: 0 <= i < |r| ==> r[i].update == updates[i] && r[i].topic == Market(markets[i])
  {
    seq(|updates|, i requires 0 <= i < |updates| => Item(updates[i], Market(markets[i])))
  }

  class StreamingManager {
    const cfg: Config

    var subscriptions: map<SubId, Subscription>
    var active: set<SubId>
    var cache: Batch
    var recipients: seq<seq<SubId>>
    var pairIndex: Index<PairId>
    var accountIndex: Index<SubaccountId>
    var marketIndex: Index<MarketId>
    var allPairs: set<SubId>

    // ---- Invariants ----

    /** Each index lists exactly the live subscriptions that named the id, once each and with no empty
        entry; the all-pairs set holds exactly those that named no pair; the active ids are the live ids. */
    ghost predicate TableValid()
      reads this
    {
      && Indexed(subscriptions, pairIndex, accountIndex, marketIndex, allPairs)
      && active == subscriptions.Keys
      && forall id :: id in subscriptions ==> |subscriptions[id].channel| <= cfg.capacity
    }

    /** The two cache slices are in step, and every cached recipient is live. */
    ghost predicate CacheValid()
      reads this
    {
      && TableValid()
      && |cache| == |recipients|
      && AllLive(recipients, subscriptions)
    }

    /** Holds whenever the lock is free. */
    ghost predicate Valid()
      reads this
    {
      CacheValid() && |cache| <= cfg.maxCached
    }

    ghost function View(): Hub
      requires |cache| == |recipients|
      reads this
    {
      Hub(subscriptions, PerSub(cache, recipients), |cache|)
    }

    constructor (cfg: Config)
      ensures this.cfg == cfg && Valid() && View() == Hub(map[], map[], 0)
    {
      this.cfg := cfg;
      subscriptions := map[];
      active := {};
      cache, recipients := [], [];
      pairIndex, accountIndex, marketIndex := map[], map[], map[];
      allPairs := {};
    }

    // ---- Subscribing and removing ----

    method NextAvailableId() returns (id: SubId)
      requires |active| < UINT32
      ensures id == LeastFree(active, 0) && id < UINT32
    {
      id := 0;
      while id in active
        invariant forall i: nat :: i < id ==> i in active
        invariant LeastFree(active, id) == LeastFree(active, 0)
        decreases |active| - id
      {
        BelowSize(active, id + 1);
        id := id + 1;
      }
      BelowSize(active, id);
    }

    method Subscribe(request: Request, filterByAccount: bool) returns (id: Option<SubId>)
      requires Valid() && |subscriptions| < UINT32
      requires NoDup(request.pairs) && NoDup(request.accounts) && NoDup(request.markets)
      modifies this
      ensures Valid()
      ensures View() == Step(cfg, old(View()), Event.Subscribe(request, filterByAccount))
      ensures id.Some? <==>
                (request.pairs != [] || request.accounts != [] || request.markets != []) &&
                (filterByAccount ==> request.accounts != [])
      ensures id.None? ==> subscriptions == old(subscriptions)
      ensures id.Some? ==>
                && id.value !in old(subscriptions)
                && subscriptions == old(subscriptions)[id.value := Subscription(request, [], [], false, 0)]
    {
      if request.pairs == [] && request.accounts == [] && request.markets == [] {
        return None;
      }
      if filterByAccount && request.accounts == [] {
        return None;
      }
      var next := Register(request);
      id := Some(next);
    }

    method Register(request: Request) returns (id: SubId)
      requires Valid() && |subscriptions| < UINT32
      requires NoDup(request.pairs) && NoDup(request.accounts) && NoDup(request.markets)
      modifies this
      ensures Valid() && View() == Join(old(View()), request)
      ensures id !in old(subscriptions)
      ensures subscriptions == old(subscriptions)[id := Subscription(request, [], [], false, 0)]
    {
      id := NextAvailableId();
      var subscription := NewSubscription(request);
      LiveMonotone(recipients, subscriptions, subscriptions[id := subscription]);
      Insert(id, subscription);
    }

    method Insert(id: SubId, sub: Subscription)
      requires TableValid() && id !in subscriptions && |sub.channel| <= cfg.capacity
      requires NoDup(sub.request.pairs) && NoDup(sub.request.accounts) && NoDup(sub.request.markets)
      modifies this
      ensures TableValid()
      ensures subscriptions == old(subscriptions)[id := sub]
      ensures cache == old(cache) && recipients == old(recipients)
    {
      pairIndex, accountIndex, marketIndex, allPairs :=
        AddToIndexes(subscriptions, pairIndex, accountIndex, marketIndex, allPairs, id, sub);
      subscriptions, active := subscriptions[id := sub], active + {id};
    }

    /** Does nothing for an id that is not live. */
    method RemoveSubscription(id: SubId)
      requires TableValid()
      modifies this
      ensures TableValid()
      ensures subscriptions == old(subscriptions) - {id}
      ensures cache == old(cache) && recipients == old(recipients)
    {
      if id !in subscriptions {
        assert subscriptions - {id} == subscriptions;
        return;
      }
      pairIndex, accountIndex, marketIndex, allPairs :=
        DropFromIndexes(subscriptions, pairIndex, accountIndex, marketIndex, allPairs, id);
      subscriptions, active := subscriptions - {id}, active - {id};
    }

    method TracksSubaccount(account: SubaccountId) returns (tracked: bool)
      requires Valid()
      ensures tracked <==> exists id :: id in subscriptions && account in subscriptions[id].request.accounts
    {
      tracked := account in accountIndex;
      AccountListResolves(subscriptions, accountIndex, account);
      if tracked {
        assert ExactAt(accountIndex, AccountNames(subscriptions), account);
        assert accountIndex[account][0] in Entry(accountIndex, account);
      }
    }

    method TracksMarket(market: MarketId) returns (tracked: bool)
      requires Valid()
      ensures tracked <==> exists id :: id in subscriptions && market in subscriptions[id].request.markets
    {
      tracked := market in marketIndex;
      MarketListResolves(subscriptions, marketIndex, market);
      if tracked {
        assert ExactAt(marketIndex, MarketNames(subscriptions), market);
        assert marketIndex[market][0] in Entry(marketIndex, market);
      }
    }

    // ---- Caching ----

    method CacheByPair(updates: Batch, pairs: seq<PairId>)
      requires CacheValid() && |updates| == |pairs|
      modifies this
      ensures CacheValid() && subscriptions == old(subscriptions)
      ensures View() == Publish(old(View()), PairItems(updates, pairs))
    {
      var all := SetToSeq(allPairs);
      var r := ResolvePairs(pairIndex, all, pairs);
      ghost var items := PairItems(updates, pairs);
      forall i | 0 <= i < |r|
        ensures Resolves(subscriptions, items[i].topic, r[i])
      {
        PairListResolves(subscriptions, pairIndex, all, pairs[i]);
      }
      CacheStep(subscriptions, cache, recipients, items, r);
      cache := cache + updates;
      recipients := recipients + r;
    }

    method CacheByAccount(updates: Batch, accounts: seq<SubaccountId>)
      requires CacheValid() && |updates| == |accounts|
      modifies this
      ensures CacheValid() && subscriptions == old(subscriptions)
      ensures View() == Publish(old(View()), AccountTopicItems(updates, accounts))
    {
      var r := ResolveKeys(accountIndex, accounts);
      ghost var items := AccountTopicItems(updates, accounts);
      forall i | 0 <= i < |r|
        ensures Resolves(subscriptions, items[i].topic, r[i])
      {
        AccountListResolves(subscriptions, accountIndex, accounts[i]);
      }
      CacheStep(subscriptions, cache, recipients, items, r);
      cache := cache + updates;
      recipients := recipients + r;
    }

    /** A mismatch of lengths is reported and nothing is cached. */
    method CacheByMarket(updates: Batch, markets: seq<MarketId>)
      requires CacheValid()
      modifies this
      ensures CacheValid() && subscriptions == old(subscriptions)
      ensures |updates| == |markets| ==> View() == Publish(old(View()), MarketTopicItems(updates, markets))
      ensures |updates| != |markets| ==> View() == old(View())
    {
      if |updates| != |markets| {
        return;
      }
      var r := ResolveKeys(marketIndex, markets);
      ghost var items := MarketTopicItems(updates, markets);
      forall i | 0 <= i < |r|
        ensures Resolves(subscriptions, items[i].topic, r[i])
      {
        MarketListResolves(subscriptions, marketIndex, markets[i]);
      }
      CacheStep(subscriptions, cache, recipients, items, r);
      cache := cache + updates;
      recipients := recipients + r;
    }

    /** Beyond the limit, every subscription and every cached update is dropped. */
    method RemoveAllIfFull()
      requires CacheValid()
      modifies this
      ensures Valid()
      ensures View() == Overflow(cfg, old(View()))
    {
      if |cache| > cfg.maxCached {
        var todo := subscriptions.Keys;
        while todo != {}
          invariant TableValid() && todo == subscriptions.Keys
        {
          var id :| id in todo;
          RemoveSubscription(id);
          todo := todo - {id};
        }
        cache, recipients := [], [];
      }
    }

    method AddOrderUpdates(updates: Batch, pairs: seq<PairId>)
      requires Valid() && |updates| == |pairs|
      modifies this
      ensures Valid()
      ensures View() == Step(cfg, old(View()), Event.Add(PairItems(updates, pairs)))
    {
      CacheByPair(updates, pairs);
      RemoveAllIfFull();
    }

    method AddSubaccountUpdates(updates: Batch, accounts: seq<SubaccountId>)
      requires Valid() && |updates| == |accounts|
      modifies this
      ensures Valid()
      ensures View() == Step(cfg, old(View()), Event.Add(AccountTopicItems(updates, accounts)))
    {
      CacheByAccount(updates, accounts);
      RemoveAllIfFull();
    }

    // ---- Flushing ----

    method FlushUpdates()
      requires CacheValid()
      modifies this
      ensures Valid() && cache == []
      ensures View() == Flush(cfg, old(View()))
    {
      var after, refused := OfferCached(cfg, subscriptions, cache, recipients);
      SameRequestsKeepIndexes(subscriptions, after, pairIndex, accountIndex, marketIndex, allPairs);
      subscriptions := after;
      cache, recipients := [], [];
      RemoveAll(refused);
    }

    /** The periodic flush. */
    method FlushStreamUpdates()
      requires Valid()
      modifies this
      ensures Valid() && cache == []
      ensures View() == Step(cfg, old(View()), Event.Tick)
    {
      FlushUpdates();
    }

    method RemoveAll(ids: seq<SubId>)
      requires TableValid()
      modifies this
      ensures TableValid()
      ensures subscriptions == old(subscriptions) - (set id | id in ids)
      ensures cache == old(cache) && recipients == old(recipients)
    {
      for i := 0 to |ids|
        invariant TableValid() && cache == old(cache) && recipients == old(recipients)
        invariant subscriptions == old(subscriptions) - (set id | id in ids[..i])
      {
        assert ids[..i + 1] == ids[..i] + [ids[i]];
        RemoveSubscription(ids[i]);
      }
      assert ids[..|ids|] == ids;
    }

    // ---- Snapshots ----

    method InitializeStreams(src: Sources)
      requires Valid()
      modifies this
      ensures Valid()
      ensures View() == Step(cfg, old(View()), Event.Snapshot(src))
    {
      FlushUpdates();
      ghost var start := subscriptions;
      var memo: map<PairId, seq<OffchainUpdate>> := map[];
      var todo := subscriptions.Keys;
      HalfwayStart(cfg, src, start);
      while todo != {}
        invariant TableValid() && cache == [] && recipients == []
        invariant Remembers(memo, src)
        invariant todo <= start.Keys && Halfway(cfg, src, start, subscriptions, todo)
      {
        var id :| id in todo;
        assert Turn(cfg, src, start, subscriptions, todo, id);
        var sub, known := SnapshotOne(cfg, subscriptions[id], src, memo);
        memo := known;
        ghost var before := subscriptions;
        SetOrRemove(id, sub);
        HalfwayStep(cfg, src, start, before, subscriptions, todo, id);
        todo := todo - {id};
      }
      HalfwayDone(cfg, src, start, subscriptions);
    }

    method SetOrRemove(id: SubId, sub: Option<Subscription>)
      requires TableValid() && id in subscriptions
      requires sub.Some? ==> sub.value.request == subscriptions[id].request && |sub.value.channel| <= cfg.capacity
      modifies this
      ensures TableValid() && cache == old(cache) && recipients == old(recipients)
      ensures subscriptions == match sub case None => old(subscriptions) - {id} case Some(s) => old(subscriptions)[id := s]
    {
      match sub
      case None => RemoveSubscription(id);
      case Some(s) =>
        SameRequestsKeepIndexes(subscriptions, subscriptions[id := s], pairIndex, accountIndex, marketIndex, allPairs);
        subscriptions := subscriptions[id := s];
    }

    // ---- Finalized blocks ----

    method CacheGrouped(us: seq<OffchainUpdate>, height: nat, mode: nat)
      requires CacheValid()
      modifies this
      ensures CacheValid() && subscriptions == old(subscriptions)
      ensures View() == Publish(old(View()), GroupItems(us, height, mode))
    {
      var updates, pairs := GroupByPair(us, height, mode);
      assert PairItems(updates, pairs) == GroupItems(us, height, mode);
      CacheByPair(updates, pairs);
    }

    method CacheFills(fills: seq<StagedEvent>, perps: Perpetuals, height: nat, mode: nat)
      requires CacheValid() && forall e :: e in fills ==> e.StagedFill? && Attributable(e.fill, perps)
      modifies this
      ensures CacheValid() && subscriptions == old(subscriptions)
      ensures View() == Publish(old(View()), FillItems(fills, perps, height, mode))
    {
      var updates, pairs := FillUpdates(fills, perps, height, mode);
      CacheByPair(updates, pairs);
    }

    method CacheBooks(books: seq<StagedEvent>, height: nat, mode: nat)
      requires CacheValid() && forall e :: e in books ==> e.StagedOrderbook?
      modifies this
      ensures CacheValid() && subscriptions == old(subscriptions)
      ensures View() == Publish(old(View()), BookItems(books, height, mode))
    {
      LiveIsTidy(subscriptions, cache, recipients);
      PublishNothing(View());
      for i := 0 to |books|
        invariant CacheValid() && subscriptions == old(subscriptions)
        invariant View() == Publish(old(View()), BookItems(books[..i], height, mode))
      {
        assert books[..i + 1][..i] == books[..i];
        PublishConcat(old(View()), BookItems(books[..i], height, mode), GroupItems(books[i].updates, height, mode));
        CacheGrouped(books[i].updates, height, mode);
      }
      assert books[..|books|] == books;
    }

    method CacheAccounts(accounts: seq<StagedEvent>, height: nat, mode: nat)
      requires CacheValid() && forall e :: e in accounts ==> e.StagedSubaccount?
      modifies this
      ensures CacheValid() && subscriptions == old(subscriptions)
      ensures View() == Publish(old(View()), AccountItems(accounts, height, mode))
    {
      var updates, ids := AccountUpdates(accounts, height, mode);
      CacheByAccount(updates, ids);
    }

    method CachePrices(prices: seq<StagedEvent>, height: nat, mode: nat)
      requires CacheValid() && forall e :: e in prices ==> e.StagedPrice?
      modifies this
      ensures CacheValid() && subscriptions == old(subscriptions)
      ensures View() == Publish(old(View()), PriceItems(prices, height, mode))
    {
      var updates, ids := PriceUpdates(prices, height, mode);
      CacheByMarket(updates, ids);
    }

    method CacheBlock(
        sync: seq<OffchainUpdate>, staged: seq<StagedEvent>, perps: Perpetuals, height: nat, mode: nat)
      requires CacheValid() && AllAttributable(staged, perps)
      modifies this
      ensures CacheValid() && subscriptions == old(subscriptions)
      ensures View() == Publish(old(View()), BlockItems(sync, staged, perps, height, mode))
    {
      var fills, accounts, books, prices := SplitStaged(staged);
      CacheGrouped(sync, height, mode);
      ghost var items := GroupItems(sync, height, mode);
      PublishConcat(old(View()), items, FillItems(fills, perps, height, mode));
      CacheFills(fills, perps, height, mode);
      items := items + FillItems(fills, perps, height, mode);
      PublishConcat(old(View()), items, BookItems(books, height, mode));
      CacheBooks(books, height, mode);
      items := items + BookItems(books, height, mode);
      PublishConcat(old(View()), items, AccountItems(accounts, height, mode));
      CacheAccounts(accounts, height, mode);
      items := items + AccountItems(accounts, height, mode);
      PublishConcat(old(View()), items, PriceItems(prices, height, mode));
      CachePrices(prices, height, mode);
    }

    method StreamBatchAfterFinalizeBlock(
        sync: seq<OffchainUpdate>, staged: seq<StagedEvent>, perps: Perpetuals, height: nat, mode: nat)
      requires Valid() && AllAttributable(staged, perps)
      modifies this
      ensures Valid() && cache == []
      ensures View() == Step(cfg, old(View()), Event.FinalizeBlock(BlockItems(sync, staged, perps, height, mode)))
    {
      FlushUpdates();
      CacheBlock(sync, staged, perps, height, mode);
      FlushUpdates();
    }

    /** A poller takes the oldest batch from its channel. */
    method Poll(id: SubId)
      requires Valid()
      modifies this
      ensures Valid()
      ensures View() == Step(cfg, old(View()), Event.Poll(id))
    {
      if id in subscriptions && subscriptions[id].channel != [] {
        var after := subscriptions[id := TakeSub(subscriptions[id])];
        SameRequestsKeepIndexes(subscriptions, after, pairIndex, accountIndex, marketIndex, allPairs);
        subscriptions := after;
      }
    }
  }

  lemma PublishNothing(h: Hub)
    requires Tidy(h.subs, h.pending)
    ensures Publish(h, []) == h
  {
    forall id | id in h.subs
      ensures MailFor(h.subs, h.pending, [], id) == BatchFor(h.pending, id)
    {
    }
    assert Mailed(h.subs, h.pending, []) == h.pending;
  }

  method FillUpdates(fills: seq<StagedEvent>, perps: Perpetuals, height: nat, mode: nat)
    returns (updates: Batch, pairs: seq<PairId>)
    requires forall e :: e in fills ==> e.StagedFill? && Attributable(e.fill, perps)
    ensures |updates| == |pairs| && PairItems(updates, pairs) == FillItems(fills, perps, height, mode)
    ensures |fills| == |updates| && forall i :: 0 <= i < |fills| ==>
              && updates[i] == Update(OrderFill(fills[i].fill), height, mode)
              && pairs[i] == match fills[i].fill
                             case DeleveragingFill(p, _) => perps[p][0]
                             case MatchFill(orders, _) => orders[0]
  {
    updates, pairs := [], [];
    for i := 0 to |fills|
      invariant |updates| == |pairs| == i
      invariant forall j :: 0 <= j < i ==> updates[j] == Update(OrderFill(fills[j].fill), height, mode)
      invariant forall j :: 0 <= j < i ==> pairs[j] == FillPair(fills[j].fill, perps)
    {
      updates := updates + [Update(OrderFill(fills[i].fill), height, mode)];
      pairs := pairs + [FillPair(fills[i].fill, perps)];
    }
  }

  method AccountUpdates(accounts: seq<StagedEvent>, height: nat, mode: nat)
    returns (updates: Batch, ids: seq<SubaccountId>)
    requires forall e :: e in accounts ==> e.StagedSubaccount?
    ensures |updates| == |ids| && AccountTopicItems(updates, ids) == AccountItems(accounts, height, mode)
    ensures |accounts| == |updates| && forall i :: 0 <= i < |accounts| ==>
              && updates[i] == Update(SubaccountUpdate(accounts[i].account, accounts[i].body), height, mode)
              && ids[i] == accounts[i].account
  {
    updates, ids := [], [];
    for i := 0 to |accounts|
      invariant |updates| == |ids| == i
      invariant forall j :: 0 <= j < i ==> updates[j] == Update(SubaccountUpdate(accounts[j].account, accounts[j].body), height, mode)
      invariant forall j :: 0 <= j < i ==> ids[j] == accounts[j].account
    {
      updates := updates + [Update(SubaccountUpdate(accounts[i].account, accounts[i].body), height, mode)];
      ids := ids + [accounts[i].account];
    }
  }

  method PriceUpdates(prices: seq<StagedEvent>, height: nat, mode: nat)
    returns (updates: Batch, ids: seq<MarketId>)
    requires forall e :: e in prices ==> e.StagedPrice?
    ensures |updates| == |ids| && MarketTopicItems(updates, ids) == PriceItems(prices, height, mode)
    ensures |prices| == |updates| && forall i :: 0 <= i < |prices| ==>
              && updates[i] == Update(PriceUpdate(prices[i].market, prices[i].body), height, mode)
              && ids[i] == prices[i].market
  {
    updates, ids := [], [];
    for i := 0 to |prices|
      invariant |updates| == |ids| == i
      invariant forall j :: 0 <= j < i ==> updates[j] == Update(PriceUpdate(prices[j].market, prices[j].body), height, mode)
      invariant forall j :: 0 <= j < i ==> ids[j] == prices[j].market
    {
      updates := updates + [Update(PriceUpdate(prices[i].market, prices[i].body), height, mode)];
      ids := ids + [prices[i].market];
    }
  }

  // ---- Snapshots ----

  /** Order book snapshots already fetched during this call. */
  ghost predicate Remembers(memo: map<PairId, seq<OffchainUpdate>>, src: Sources) {
    forall p :: p in memo ==> memo[p] == src.book(p)
  }

  method BuildSnapshot(req: Request, src: Sources, memo: map<PairId, seq<OffchainUpdate>>)
    returns (batch: Batch, memo': map<PairId, seq<OffchainUpdate>>)
    requires Remembers(memo, src)
    ensures batch == SnapshotBatch(req, src) && Remembers(memo', src)
    ensures IsSnapshot(req, src, batch)
  {
    memo' := memo;
    var updates: seq<OffchainUpdate> := [];
    for i := 0 to |req.pairs|
      invariant Remembers(memo', src) && updates == BookOf(src.book, req.pairs[..i])
    {
      assert req.pairs[..i + 1][..i] == req.pairs[..i];
      var p := req.pairs[i];
      if p !in memo' {
        memo' := memo'[p := src.book(p)];
      }
      updates := updates + memo'[p];
    }
    assert req.pairs[..|req.pairs|] == req.pairs;
    var accounts: Batch := [];
    for i := 0 to |req.accounts|
      invariant accounts == AccountsOf(src, req.accounts[..i])
    {
      assert req.accounts[..i + 1][..i] == req.accounts[..i];
      var a := req.accounts[i];
      if a in src.accounts {
        accounts := accounts + [Update(SubaccountUpdate(a, src.accounts[a]), src.height, src.mode)];
      }
    }
    assert req.accounts[..|req.accounts|] == req.accounts;
    var prices: Batch := [];
    for i := 0 to |req.markets|
      invariant prices == PricesOf(src, req.markets[..i])
    {
      assert req.markets[..i + 1][..i] == req.markets[..i];
      var m := req.markets[i];
      if m in src.prices {
        prices := prices + [Update(PriceUpdate(m, src.prices[m]), src.height, src.mode)];
      }
    }
    assert req.markets[..|req.markets|] == req.markets;
    batch := [Update(OrderbookUpdate(updates, true), src.height, src.mode)] + accounts + prices;
    SnapshotContents(req, src);
  }

  /** One subscription's turn: send a snapshot if it waits for one, and schedule the next. */
  method SnapshotOne(cfg: Config, sub: Subscription, src: Sources, memo: map<PairId, seq<OffchainUpdate>>)
    returns (r: Option<Subscription>, memo': map<PairId, seq<OffchainUpdate>>)
    requires Remembers(memo, src) && |sub.channel| <= cfg.capacity
    ensures r == SnapshotSub(cfg, src, sub) && Remembers(memo', src)
    ensures r.Some? ==> r.value.request == sub.request && |r.value.channel| <= cfg.capacity
  {
    var s := sub;
    memo' := memo;
    if !s.snapshotted {
      var batch;
      batch, memo' := BuildSnapshot(s.request, src, memo);
      if |s.channel| >= cfg.capacity {
        return None, memo';
      }
      s := s.(snapshotted := true, channel := s.channel + [batch]);
      if cfg.interval != 0 {
        s := s.(nextSnapshot := (src.height + cfg.interval) % UINT32);
      }
    }
    if cfg.interval > 0 && (src.height + 1) % UINT32 == s.nextSnapshot {
      s := s.(snapshotted := false);
    }
    r := Some(s);
  }

  /** The table partway through the snapshot round: ids in `todo` are untouched, the others are done. */
  ghost predicate Halfway(
    cfg: Config, src: Sources, start: map<SubId, Subscription>, now: map<SubId, Subscription>, todo: set<SubId>)
  {
    forall id :: Turn(cfg, src, start, now, todo, id)
  }

  ghost predicate Turn(
    cfg: Config, src: Sources, start: map<SubId, Subscription>, now: map<SubId, Subscription>, todo: set<SubId>, id: SubId)
  {
    if id !in start then id !in now
    else if id in todo then id in now && now[id] == start[id]
    else match SnapshotSub(cfg, src, start[id])
      case None => id !in now
      case Some(s) => id in now && now[id] == s
  }

  lemma HalfwayStart(cfg: Config, src: Sources, start: map<SubId, Subscription>)
    ensures Halfway(cfg, src, start, start, start.Keys)
  {
  }

  lemma HalfwayDone(cfg: Config, src: Sources, start: map<SubId, Subscription>, now: map<SubId, Subscription>)
    requires Halfway(cfg, src, start, now, {})
    ensures Hub(now, map[], 0) == SnapshotAll(cfg, Hub(start, map[], 0), src)
  {
    forall id
      ensures id in now <==> id in start && SnapshotSub(cfg, src, start[id]).Some?
      ensures id in now ==> now[id] == SnapshotSub(cfg, src, start[id]).value
    {
      assert Turn(cfg, src, start, now, {}, id);
    }
    assert now == SnapshotAll(cfg, Hub(start, map[], 0), src).subs;
  }

  lemma HalfwayStep(
      cfg: Config, src: Sources, start: map<SubId, Subscription>, before: map<SubId, Subscription>,
      after: map<SubId, Subscription>, todo: set<SubId>, id: SubId)
    requires Halfway(cfg, src, start, before, todo) && id in todo && id in start
    requires after == match SnapshotSub(cfg, src, start[id]) case None => before - {id} case Some(s) => before[id := s]
    ensures Halfway(cfg, src, start, after, todo - {id})
  {
    var left := todo - {id};
    forall x
      ensures Turn(cfg, src, start, after, left, x)
    {
      assert Turn(cfg, src, start, before, todo, x);
    }
  }

  method SetToSeq(ids: set<SubId>) returns (r: seq<SubId>)
    ensures NoDup(r) && forall id :: id in r <==> id in ids
  {
    r := [];
    var todo := ids;
    while todo != {}
      invariant todo <= ids && NoDup(r)
      invariant forall id :: id in r <==> id in ids && id !in todo
    {
      var id :| id in todo;
      r := r + [id];
      todo := todo - {id};
    }
  }

  method ResolvePairs(index: Index<PairId>, all: seq<SubId>, pairs: seq<PairId>) returns (r: seq<seq<SubId>>)
    ensures |r| == |pairs| && forall i :: 0 <= i < |pairs| ==> r[i] == Entry(index, pairs[i]) + all
  {
    r := [];
    for i := 0 to |pairs|
      invariant |r| == i && forall j :: 0 <= j < i ==> r[j] == Entry(index, pairs[j]) + all
    {
      r := r + [Entry(index, pairs[i]) + all];
    }
  }

  method ResolveKeys<K>(index: Index<K>, keys: seq<K>) returns (r: seq<seq<SubId>>)
    ensures |r| == |keys| && forall i :: 0 <= i < |keys| ==> r[i] == Entry(index, keys[i])
  {
    r := [];
    for i := 0 to |keys|
      invariant |r| == i && forall j :: 0 <= j < i ==> r[j] == Entry(index, keys[j])
    {
      r := r + [Entry(index, keys[i])];
    }
  }
}
