/** A manager driven by any list of calls, and what the theorems about runs say of it. */
module StreamReplay {
  import opened Basics
  import opened Seqs
  import opened SubscriptionIndex
  import opened StreamTypes
  import opened StreamSpec
  import opened OffchainGrouping
  import opened StreamRuns
  import opened Manager = StreamingManager

  /** One call of a method of the manager, or one take by a poller. */
  datatype Call =
    | CallSubscribe(request: Request, filterByAccount: bool)
    | CallAddOrders(updates: Batch, pairs: seq<PairId>)
    | CallAddAccounts(updates: Batch, accounts: seq<SubaccountId>)
    | CallFlush
    | CallFinalize(sync: seq<OffchainUpdate>, staged: seq<StagedEvent>, perps: Perpetuals, height: nat, mode: nat)
    | CallInitialize(src: Sources)
    | CallPoll(id: SubId)

  /** What the manager's methods ask of their arguments. */
  ghost predicate Proper(c: Call) {
    match c
    case CallSubscribe(req, _) => NoDup(req.pairs) && NoDup(req.accounts) && NoDup(req.markets)
    case CallAddOrders(updates, pairs) => |updates| == |pairs|
    case CallAddAccounts(updates, accounts) => |updates| == |accounts|
    case CallFinalize(_, staged, perps, _, _) => AllAttributable(staged, perps)
    case _ => true
  }

  ghost function EventOf(c: Call): Event
    requires Proper(c)
  {
    match c
    case CallSubscribe(req, filter) => Event.Subscribe(req, filter)
    case CallAddOrders(updates, pairs) => Event.Add(PairItems(updates, pairs))
    case CallAddAccounts(updates, accounts) => Event.Add(AccountTopicItems(updates, accounts))
    case CallFlush => Event.Tick
    case CallFinalize(sync, staged, perps, height, mode) =>
      Event.FinalizeBlock(BlockItems(sync, staged, perps, height, mode))
    case CallInitialize(src) => Event.Snapshot(src)
    case CallPoll(id) => Event.Poll(id)
  }

  ghost predicate AllProper(cs: seq<Call>) {
    forall i :: 0 <= i < |cs| ==> Proper(cs[i])
  }

  ghost function Events(cs: seq<Call>): (es: seq<Event>)
    requires AllProper(cs)
    ensures |es| == |cs|
  {
    seq(|cs|, i requires 0 <= i < |cs| => EventOf(cs[i]))
  }

  /** There are never 2^32 subscriptions when a call is made. */
  ghost predicate NeverCrowded(cfg: Config, es: seq<Event>) {
    forall n :: 0 <= n < |es| ==> |Run(cfg, es[..n]).subs| < UINT32
  }

  lemma RunNext(cfg: Config, es: seq<Event>, n: nat)
    requires n < |es|
    ensures Run(cfg, es[..n + 1]) == Step(cfg, Run(cfg, es[..n]), es[n])
  {
    assert es[..n + 1][..n] == es[..n];
  }

  /** One call is one step of the service. */
  method Perform(m: StreamingManager, c: Call)
    requires m.Valid() && Proper(c) && |m.subscriptions| < UINT32
    modifies m
    ensures m.Valid()
    ensures m.View() == Step(m.cfg, old(m.View()), EventOf(c))
  {
    match c
    case CallSubscribe(req, filter) => var _ := m.Subscribe(req, filter);
    case CallAddOrders(updates, pairs) => m.AddOrderUpdates(updates, pairs);
    case CallAddAccounts(updates, accounts) => m.AddSubaccountUpdates(updates, accounts);
    case CallFlush => m.FlushStreamUpdates();
    case CallFinalize(sync, staged, perps, height, mode) =>
      m.StreamBatchAfterFinalizeBlock(sync, staged, perps, height, mode);
    case CallInitialize(src) => m.InitializeStreams(src);
    case CallPoll(id) => m.Poll(id);
  }

  /** Whatever calls are made, the manager is valid, is in the state the service's run ends in, and what
      it has given and still owes each live subscription is exactly that subscription's log. */
  method Replay(cfg: Config, calls: seq<Call>) returns (m: StreamingManager)
    requires AllProper(calls) && NeverCrowded(cfg, Events(calls))
    ensures fresh(m) && m.cfg == cfg && m.Valid()
    ensures m.View() == Run(cfg, Events(calls))
    ensures forall id :: id in m.subscriptions ==> Delivered(At(m.View(), id)) == Log(cfg, Events(calls), id)
  {
    m := new StreamingManager(cfg);
    ghost var es := Events(calls);
    for n := 0 to |calls|
      invariant m.cfg == cfg && m.Valid() && fresh(m)
      invariant m.View() == Run(cfg, es[..n])
    {
      Perform(m, calls[n]);
      RunNext(cfg, es, n);
    }
    assert es[..|calls|] == es;
    forall id | id in m.subscriptions
      ensures Delivered(At(m.View(), id)) == Log(cfg, es, id)
    {
      DeliveryIsTheLog(cfg, es, id);
    }
  }
}
