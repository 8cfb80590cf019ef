/** The shared cache: one slice of updates and, in step with it, one slice of recipient lists. */
module StreamCache {
  import opened Basics
  import opened Seqs
  import opened SubscriptionIndex
  import opened StreamTypes
  import opened StreamSpec

  /** Hands one update to each listed id, as often as it is listed. */
  function Deliver(m: map<SubId, Batch>, update: Update, ids: seq<SubId>): map<SubId, Batch> {
    if ids == [] then m
    else
      var before := Deliver(m, update, ids[..|ids| - 1]);
      var id := ids[|ids| - 1];
      before[id := BatchFor(before, id) + [update]]
  }

  /** The cached updates sorted by recipient, each recipient's in order. */
  function PerSub(cache: Batch, recipients: seq<seq<SubId>>): map<SubId, Batch>
    requires |cache| == |recipients|
  {
    if cache == [] then map[]
    else
      var n := |cache| - 1;
      Deliver(PerSub(cache[..n], recipients[..n]), cache[n], recipients[n])
  }

  method DeliverOne(m: map<SubId, Batch>, update: Update, ids: seq<SubId>) returns (r: map<SubId, Batch>)
    ensures r == Deliver(m, update, ids)
  {
    r := m;
    for j := 0 to |ids|
      invariant r == Deliver(m, update, ids[..j])
    {
      assert ids[..j + 1][..j] == ids[..j];
      r := r[ids[j] := BatchFor(r, ids[j]) + [update]];
    }
    assert ids[..|ids|] == ids;
  }

  method CollectUpdates(cache: Batch, recipients: seq<seq<SubId>>) returns (perSub: map<SubId, Batch>)
    requires |cache| == |recipients|
    ensures perSub == PerSub(cache, recipients)
  {
    perSub := map[];
    for i := 0 to |cache|
      invariant perSub == PerSub(cache[..i], recipients[..i])
    {
      perSub := DeliverOne(perSub, cache[i], recipients[i]);
      assert cache[..i + 1][..i] == cache[..i] && recipients[..i + 1][..i] == recipients[..i];
    }
    assert cache[..|cache|] == cache && recipients[..|cache|] == recipients;
  }

  /** Each listed id gets one copy per listing, and no other id changes. */
  lemma {:induction false} DeliverCopies(m: map<SubId, Batch>, update: Update, ids: seq<SubId>, id: SubId)
    ensures BatchFor(Deliver(m, update, ids), id) == BatchFor(m, id) + Repeat(update, multiset(ids)[id])
    ensures id in Deliver(m, update, ids) <==> id in m || id in ids
  {
    if ids != [] {
      var n := |ids| - 1;
      assert ids == ids[..n] + [ids[n]];
      DeliverCopies(m, update, ids[..n], id);
      RepeatSnoc(update, multiset(ids[..n])[id]);
    }
  }

  /** Only who is listed, and how often, matters: the order of a recipient list does not. */
  lemma {:induction false} DeliverOrderFree(m: map<SubId, Batch>, update: Update, ids: seq<SubId>, ids': seq<SubId>)
    requires multiset(ids) == multiset(ids')
    ensures Deliver(m, update, ids) == Deliver(m, update, ids')
  {
    var a, b := Deliver(m, update, ids), Deliver(m, update, ids');
    forall id
      ensures (id in a <==> id in b) && BatchFor(a, id) == BatchFor(b, id)
    {
      DeliverCopies(m, update, ids, id);
      DeliverCopies(m, update, ids', id);
      assert id in ids <==> id in multiset(ids);
      assert id in ids' <==> id in multiset(ids');
    }
    assert a.Keys == b.Keys;
    assert forall id :: id in a ==> a[id] == BatchFor(a, id) && b[id] == BatchFor(b, id);
  }

  /** A recipient list is right for a topic: it names, once each, the live subscriptions interested. */
  ghost predicate Resolves(subs: map<SubId, Subscription>, topic: Topic, ids: seq<SubId>) {
    && NoDup(ids)
    && forall id :: id in ids <==> id in subs && Interested(subs[id].request, topic)
  }

  function Updates(items: seq<Item>): (r: Batch)
    ensures |r| == |items|
  {
    seq(|items|, i requires 0 <= i < |items| => items[i].update)
  }

  ghost predicate AllResolve(subs: map<SubId, Subscription>, items: seq<Item>, r: seq<seq<SubId>>) {
    |items| == |r| && forall i :: 0 <= i < |r| ==> Resolves(subs, items[i].topic, r[i])
  }

  /** Delivering along a right recipient list is mailing the one item. */
  lemma DeliverIsMailing(subs: map<SubId, Subscription>, m: map<SubId, Batch>, item: Item, ids: seq<SubId>, id: SubId)
    requires Resolves(subs, item.topic, ids) && id in subs
    ensures BatchFor(Deliver(m, item.update, ids), id)
         == BatchFor(m, id) + if Interested(subs[id].request, item.topic) then [item.update] else []
  {
    DeliverCopies(m, item.update, ids, id);
    NoDupMultiplicity(ids, id);
    assert Repeat(item.update, 1) == [item.update];
  }

  /** Every id the cache is sorted under is live, and has something. */
  ghost predicate Tidy(subs: map<SubId, Subscription>, m: map<SubId, Batch>) {
    forall id :: id in m ==> id in subs && m[id] != []
  }

  lemma DeliverTidy(subs: map<SubId, Subscription>, m: map<SubId, Batch>, item: Item, ids: seq<SubId>)
    requires Resolves(subs, item.topic, ids) && Tidy(subs, m)
    ensures Tidy(subs, Deliver(m, item.update, ids))
  {
    var after := Deliver(m, item.update, ids);
    forall id | id in after
      ensures id in subs && after[id] != []
    {
      DeliverCopies(m, item.update, ids, id);
      NoDupMultiplicity(ids, id);
    }
  }

  /** Caching all but the last item, then the last one. */
  lemma PerSubLast(cache: Batch, recipients: seq<seq<SubId>>, items: seq<Item>, r: seq<seq<SubId>>)
    requires |cache| == |recipients| && |items| == |r| > 0
    ensures PerSub(cache + Updates(items), recipients + r)
         == Deliver(PerSub(cache + Updates(items[..|items| - 1]), recipients + r[..|items| - 1]),
                    items[|items| - 1].update, r[|items| - 1])
  {
    var n := |items| - 1;
    var c, q := cache + Updates(items[..n]), recipients + r[..n];
    UpdatesLast(items);
    assert r == r[..n] + [r[n]];
    Associate(cache, Updates(items[..n]), [items[n].update]);
    Associate(recipients, r[..n], [r[n]]);
    PerSubSnoc(c, q, items[n].update, r[n]);
  }

  lemma UpdatesLast(items: seq<Item>)
    requires items != []
    ensures Updates(items) == Updates(items[..|items| - 1]) + [items[|items| - 1].update]
  {
  }

  lemma PerSubSnoc(cache: Batch, recipients: seq<seq<SubId>>, update: Update, ids: seq<SubId>)
    requires |cache| == |recipients|
    ensures PerSub(cache + [update], recipients + [ids]) == Deliver(PerSub(cache, recipients), update, ids)
  {
    assert (cache + [update])[..|cache|] == cache && (recipients + [ids])[..|cache|] == recipients;
  }

  lemma {:induction false} CachingMails(
      subs: map<SubId, Subscription>, cache: Batch, recipients: seq<seq<SubId>>,
      items: seq<Item>, r: seq<seq<SubId>>, id: SubId)
    requires |cache| == |recipients| && AllResolve(subs, items, r) && id in subs
    ensures BatchFor(PerSub(cache + Updates(items), recipients + r), id)
         == MailFor(subs, PerSub(cache, recipients), items, id)
    decreases |items|
  {
    if items == [] {
      assert cache + Updates(items) == cache && recipients + r == recipients;
    } else {
      var n := |items| - 1;
      CachingMails(subs, cache, recipients, items[..n], r[..n], id);
      PerSubLast(cache, recipients, items, r);
      assert Resolves(subs, items[n].topic, r[n]);
      DeliverIsMailing(subs, PerSub(cache + Updates(items[..n]), recipients + r[..n]), items[n], r[n], id);
    }
  }

  lemma {:induction false} CachingTidy(
      subs: map<SubId, Subscription>, cache: Batch, recipients: seq<seq<SubId>>, items: seq<Item>, r: seq<seq<SubId>>)
    requires |cache| == |recipients| && AllResolve(subs, items, r) && Tidy(subs, PerSub(cache, recipients))
    ensures Tidy(subs, PerSub(cache + Updates(items), recipients + r))
    decreases |items|
  {
    if items == [] {
      assert cache + Updates(items) == cache && recipients + r == recipients;
    } else {
      var n := |items| - 1;
      CachingTidy(subs, cache, recipients, items[..n], r[..n]);
      PerSubLast(cache, recipients, items, r);
      assert Resolves(subs, items[n].topic, r[n]);
      DeliverTidy(subs, PerSub(cache + Updates(items[..n]), recipients + r[..n]), items[n], r[n]);
    }
  }

  /** Appending items with right recipient lists to the cache is mailing them to every client. */
  lemma CachingIsPublishing(
      subs: map<SubId, Subscription>, cache: Batch, recipients: seq<seq<SubId>>, items: seq<Item>, r: seq<seq<SubId>>)
    requires |cache| == |recipients| && AllResolve(subs, items, r) && Tidy(subs, PerSub(cache, recipients))
    ensures PerSub(cache + Updates(items), recipients + r) == Mailed(subs, PerSub(cache, recipients), items)
    ensures Tidy(subs, PerSub(cache + Updates(items), recipients + r))
  {
    var after := PerSub(cache + Updates(items), recipients + r);
    CachingTidy(subs, cache, recipients, items, r);
    forall id | id in subs
      ensures BatchFor(after, id) == MailFor(subs, PerSub(cache, recipients), items, id)
    {
      CachingMails(subs, cache, recipients, items, r, id);
    }
  }

  /** Every cached recipient is live. */
  ghost predicate AllLive(recipients: seq<seq<SubId>>, subs: map<SubId, Subscription>) {
    forall i :: 0 <= i < |recipients| ==> Live(recipients[i], subs)
  }

  ghost predicate Live(ids: seq<SubId>, subs: map<SubId, Subscription>) {
    forall id :: id in ids ==> id in subs
  }

  lemma LiveMonotone(recipients: seq<seq<SubId>>, subs: map<SubId, Subscription>, after: map<SubId, Subscription>)
    requires AllLive(recipients, subs) && subs.Keys <= after.Keys
    ensures AllLive(recipients, after)
  {
    forall i | 0 <= i < |recipients|
      ensures Live(recipients[i], after)
    {
      assert Live(recipients[i], subs);
    }
  }

  /** Live recipients keep the sorted cache tidy. */
  lemma {:induction false} LiveIsTidy(subs: map<SubId, Subscription>, cache: Batch, recipients: seq<seq<SubId>>)
    requires |cache| == |recipients| && AllLive(recipients, subs)
    ensures Tidy(subs, PerSub(cache, recipients))
  {
    if cache != [] {
      var n := |cache| - 1;
      LiveIsTidy(subs, cache[..n], recipients[..n]);
      assert Live(recipients[n], subs);
      var m := PerSub(cache[..n], recipients[..n]);
      forall id | id in PerSub(cache, recipients)
        ensures id in subs && PerSub(cache, recipients)[id] != []
      {
        DeliverCopies(m, cache[n], recipients[n], id);
        assert id in recipients[n] ==> multiset(recipients[n])[id] > 0;
      }
    }
  }

  /** Caching items with right recipient lists publishes them and leaves every recipient live. */
  lemma CacheStep(
      subs: map<SubId, Subscription>, cache: Batch, recipients: seq<seq<SubId>>, items: seq<Item>, r: seq<seq<SubId>>)
    requires |cache| == |recipients| && AllLive(recipients, subs) && AllResolve(subs, items, r)
    ensures Hub(subs, PerSub(cache + Updates(items), recipients + r), |cache| + |items|)
         == Publish(Hub(subs, PerSub(cache, recipients), |cache|), items)
    ensures AllLive(recipients + r, subs)
  {
    LiveIsTidy(subs, cache, recipients);
    CachingIsPublishing(subs, cache, recipients, items, r);
    ResolvedIsLive(subs, recipients, items, r);
  }

  // ---- Flushing ----

  /** A subscription after its batch was offered to its channel. */
  function Sent(cfg: Config, sub: Subscription, batch: Batch): Subscription {
    if batch == [] || |sub.channel| >= cfg.capacity then sub else sub.(channel := sub.channel + [batch])
  }

  predicate NoRoom(cfg: Config, subs: map<SubId, Subscription>, perSub: map<SubId, Batch>, id: SubId) {
    id in perSub && id in subs && |subs[id].channel| >= cfg.capacity
  }

  /** Offers every batch to its channel without blocking, in any order, and lists those refused. */
  method SendBatches(cfg: Config, subs: map<SubId, Subscription>, perSub: map<SubId, Batch>)
    returns (after: map<SubId, Subscription>, refused: seq<SubId>)
    requires Tidy(subs, perSub)
    ensures after.Keys == subs.Keys
    ensures forall id :: id in subs ==> after[id] == Sent(cfg, subs[id], BatchFor(perSub, id))
    ensures forall id :: id in refused <==> NoRoom(cfg, subs, perSub, id)
  {
    after, refused := subs, [];
    var todo := perSub.Keys;
    while todo != {}
      invariant todo <= perSub.Keys && after.Keys == subs.Keys
      invariant forall id :: id in subs ==>
        after[id] == if id in todo then subs[id] else Sent(cfg, subs[id], BatchFor(perSub, id))
      invariant forall id :: id in refused <==> id !in todo && NoRoom(cfg, subs, perSub, id)
    {
      var id :| id in todo;
      if id in after {
        if |after[id].channel| < cfg.capacity {
          after := after[id := after[id].(channel := after[id].channel + [perSub[id]])];
        } else {
          refused := refused + [id];
        }
      }
      todo := todo - {id};
    }
  }

  /** Offering the batches and removing those refused is flushing the table of clients. */
  lemma SendingIsFlushing(
      cfg: Config, subs: map<SubId, Subscription>, perSub: map<SubId, Batch>, cached: nat,
      after: map<SubId, Subscription>, refused: seq<SubId>)
    requires Tidy(subs, perSub) && after.Keys == subs.Keys
    requires forall id :: id in subs ==> after[id] == Sent(cfg, subs[id], BatchFor(perSub, id))
    requires forall id :: id in refused <==> NoRoom(cfg, subs, perSub, id)
    ensures Hub(after - (set id | id in refused), map[], 0) == Flush(cfg, Hub(subs, perSub, cached))
  {
    var h := Hub(subs, perSub, cached);
    var gone := set id | id in refused;
    forall id | id in subs
      ensures id in gone <==> FlushClient(cfg, At(h, id)).None?
      ensures id !in gone ==> after[id] == FlushClient(cfg, At(h, id)).value.sub
    {
      assert id in refused <==> NoRoom(cfg, subs, perSub, id);
    }
    assert (after - gone) == Flush(cfg, h).subs;
  }

  /** Sorts the cache by recipient and offers each its batch. */
  method OfferCached(cfg: Config, subs: map<SubId, Subscription>, cache: Batch, recipients: seq<seq<SubId>>)
    returns (after: map<SubId, Subscription>, refused: seq<SubId>)
    requires |cache| == |recipients| && AllLive(recipients, subs)
    requires forall id :: id in subs ==> |subs[id].channel| <= cfg.capacity
    ensures SameRequests(subs, after)
    ensures forall id :: id in after ==> |after[id].channel| <= cfg.capacity
    ensures Hub(after - (set id | id in refused), map[], 0)
         == Flush(cfg, Hub(subs, PerSub(cache, recipients), |cache|))
  {
    var perSub := CollectUpdates(cache, recipients);
    LiveIsTidy(subs, cache, recipients);
    after, refused := SendBatches(cfg, subs, perSub);
    SendingIsFlushing(cfg, subs, perSub, |cache|, after, refused);
  }

  ghost predicate SameRequests(a: map<SubId, Subscription>, b: map<SubId, Subscription>) {
    a.Keys == b.Keys && forall id :: id in a ==> a[id].request == b[id].request
  }

  lemma ResolvedIsLive(subs: map<SubId, Subscription>, recipients: seq<seq<SubId>>, items: seq<Item>, r: seq<seq<SubId>>)
    requires AllLive(recipients, subs) && AllResolve(subs, items, r)
    ensures AllLive(recipients + r, subs)
  {
    var q := recipients + r;
    forall i | 0 <= i < |q|
      ensures Live(q[i], subs)
    {
      if i >= |recipients| {
        assert Resolves(subs, items[i - |recipients|].topic, r[i - |recipients|]);
      } else {
        assert Live(recipients[i], subs);
      }
    }
  }
}
