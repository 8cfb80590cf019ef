/** The values the streaming manager works on. Message payloads that the manager never looks at
    are kept as opaque numbers (`body`). */
module StreamTypes {
  import opened SubscriptionIndex

  type PairId = nat
  type MarketId = nat
  type PerpetualId = nat
  datatype SubaccountId = SubaccountId(owner: string, number: nat)

  /** One off-chain order event; the clob pair it belongs to sits in a different field of each kind. */
  datatype OffchainUpdate =
    | OrderPlace(orderPair: PairId, body: nat)
    | OrderReplace(oldPair: PairId, body: nat)
    | OrderRemove(removedPair: PairId, body: nat)
    | OrderUpdate(updatedPair: PairId, body: nat)

  /** A fill carries its orders; a deleveraging fill is resolved through its perpetual instead. */
  datatype Fill =
    | MatchFill(orderPairs: seq<PairId>, body: nat)
    | DeleveragingFill(perpetual: PerpetualId, body: nat)

  datatype Message =
    | OrderbookUpdate(updates: seq<OffchainUpdate>, snapshot: bool)
    | OrderFill(fill: Fill)
    | TakerOrder(body: nat)
    | SubaccountUpdate(account: SubaccountId, body: nat)
    | PriceUpdate(market: MarketId, body: nat)

  datatype Update = Update(message: Message, height: nat, mode: nat)

  type Batch = seq<Update>

  /** What an update is about, which decides who is sent it. */
  datatype Topic = Pair(pair: PairId) | Account(account: SubaccountId) | Market(market: MarketId)

  datatype Item = Item(update: Update, topic: Topic)

  datatype Request = Request(pairs: seq<PairId>, accounts: seq<SubaccountId>, markets: seq<MarketId>)

  /** A live subscription: its request, the batches its poller has taken, the batches still in its
      channel, and its snapshot bookkeeping. */
  datatype Subscription = Subscription(
    request: Request,
    received: seq<Batch>,
    channel: seq<Batch>,
    snapshotted: bool,
    nextSnapshot: nat)

  datatype Config = Config(maxCached: nat, capacity: nat, interval: nat)

  /** Where a snapshot's contents come from at one block height. */
  datatype Sources = Sources(
    book: PairId -> seq<OffchainUpdate>,
    accounts: map<SubaccountId, nat>,
    prices: map<MarketId, nat>,
    height: nat,
    mode: nat)

  function PairOf(u: OffchainUpdate): PairId {
    match u
    case OrderPlace(p, _) => p
    case OrderReplace(p, _) => p
    case OrderRemove(p, _) => p
    case OrderUpdate(p, _) => p
  }
}
