/** What batches hold, position by position: an update's way to the interested subscriptions, and the
    contents of a snapshot. */
module StreamContents {
  import opened Basics
  import opened Seqs
  import opened SubscriptionIndex
  import opened StreamTypes
  import opened StreamSpec

  // ---- Published updates ----

  /** A subscription wants a pair it named, or any when it named none; and the subaccounts and markets it
      named. */
  function Wants(req: Request): Item -> bool {
    (item: Item) =>
      match item.topic
      case Pair(p) => p in req.pairs || |req.pairs| == 0
      case Account(a) => a in req.accounts
      case Market(m) => m in req.markets
  }

  function ItsUpdate(): Item -> Update {
    (item: Item) => item.update
  }

  /** Of a list of published items a subscription is sent exactly those it wants, each once and in order. */
  lemma {:induction false} RelevantInOrder(req: Request, items: seq<Item>)
    ensures Picks(items, Wants(req), ItsUpdate(), Relevant(req, items))
  {
    if items == [] {
      PicksNothing(Wants(req), ItsUpdate());
    } else {
      var prev := items[..|items| - 1];
      RelevantInOrder(req, prev);
      PicksLast(items, Wants(req), ItsUpdate(), Relevant(req, prev), Relevant(req, items));
    }
  }

  // ---- Snapshots ----

  /** Where the `i`-th pair's book begins: after the books before it. */
  function BookStart(book: PairId -> seq<OffchainUpdate>, pairs: seq<PairId>, i: nat): nat
    requires i <= |pairs|
  {
    if i == 0 then 0 else BookStart(book, pairs, i - 1) + |book(pairs[i - 1])|
  }

  ghost predicate BookAt(us: seq<OffchainUpdate>, book: PairId -> seq<OffchainUpdate>, pairs: seq<PairId>, i: nat)
    requires i < |pairs|
  {
    var start := BookStart(book, pairs, i);
    start + |book(pairs[i])| <= |us| && us[start..start + |book(pairs[i])|] == book(pairs[i])
  }

  /** The books of the named pairs, end to end and nothing else. */
  ghost predicate EndToEnd(us: seq<OffchainUpdate>, book: PairId -> seq<OffchainUpdate>, pairs: seq<PairId>) {
    && |us| == BookStart(book, pairs, |pairs|)
    && forall i :: 0 <= i < |pairs| ==> BookAt(us, book, pairs, i)
  }

  lemma {:induction false} BookStartPrefix(book: PairId -> seq<OffchainUpdate>, pairs: seq<PairId>, n: nat, i: nat)
    requires i <= n <= |pairs|
    ensures BookStart(book, pairs[..n], i) == BookStart(book, pairs, i)
  {
    if i > 0 {
      BookStartPrefix(book, pairs, n, i - 1);
    }
  }

  lemma {:induction false} BooksEndToEnd(book: PairId -> seq<OffchainUpdate>, pairs: seq<PairId>)
    ensures EndToEnd(BookOf(book, pairs), book, pairs)
  {
    if pairs != [] {
      var n := |pairs| - 1;
      var us := BookOf(book, pairs);
      BooksEndToEnd(book, pairs[..n]);
      BookStartPrefix(book, pairs, n, n);
      forall i | 0 <= i < |pairs|
        ensures BookAt(us, book, pairs, i)
      {
        if i < n {
          BookStartPrefix(book, pairs, n, i);
          assert BookAt(BookOf(book, pairs[..n]), book, pairs[..n], i);
        }
      }
    }
  }

  function KnownAccount(src: Sources): SubaccountId -> bool {
    (a: SubaccountId) => a in src.accounts
  }

  function AccountNow(src: Sources): SubaccountId -> Update {
    (a: SubaccountId) =>
      Update(SubaccountUpdate(a, if a in src.accounts then src.accounts[a] else 0), src.height, src.mode)
  }

  function KnownPrice(src: Sources): MarketId -> bool {
    (m: MarketId) => m in src.prices
  }

  function PriceNow(src: Sources): MarketId -> Update {
    (m: MarketId) => Update(PriceUpdate(m, if m in src.prices then src.prices[m] else 0), src.height, src.mode)
  }

  lemma {:induction false} AccountsInOrder(src: Sources, accounts: seq<SubaccountId>)
    ensures Picks(accounts, KnownAccount(src), AccountNow(src), AccountsOf(src, accounts))
  {
    if accounts == [] {
      PicksNothing(KnownAccount(src), AccountNow(src));
    } else {
      var prev := accounts[..|accounts| - 1];
      AccountsInOrder(src, prev);
      PicksLast(accounts, KnownAccount(src), AccountNow(src), AccountsOf(src, prev), AccountsOf(src, accounts));
    }
  }

  lemma {:induction false} PricesInOrder(src: Sources, markets: seq<MarketId>)
    ensures Picks(markets, KnownPrice(src), PriceNow(src), PricesOf(src, markets))
  {
    if markets == [] {
      PicksNothing(KnownPrice(src), PriceNow(src));
    } else {
      var prev := markets[..|markets| - 1];
      PricesInOrder(src, prev);
      PicksLast(markets, KnownPrice(src), PriceNow(src), PricesOf(src, prev), PricesOf(src, markets));
    }
  }

  /** One order book message with the named books end to end, then the known named subaccounts, then the
      known named prices, each in request order. */
  ghost predicate SnapshotParts(
    req: Request, src: Sources, batch: Batch, us: seq<OffchainUpdate>, accounts: Batch, prices: Batch)
  {
    && batch == [Update(OrderbookUpdate(us, true), src.height, src.mode)] + accounts + prices
    && EndToEnd(us, src.book, req.pairs)
    && Picks(req.accounts, KnownAccount(src), AccountNow(src), accounts)
    && Picks(req.markets, KnownPrice(src), PriceNow(src), prices)
  }

  ghost predicate IsSnapshot(req: Request, src: Sources, batch: Batch) {
    exists us, accounts, prices :: SnapshotParts(req, src, batch, us, accounts, prices)
  }

  lemma SnapshotContents(req: Request, src: Sources)
    ensures IsSnapshot(req, src, SnapshotBatch(req, src))
  {
    BooksEndToEnd(src.book, req.pairs);
    AccountsInOrder(src, req.accounts);
    PricesInOrder(src, req.markets);
    assert SnapshotParts(req, src, SnapshotBatch(req, src),
                         BookOf(src.book, req.pairs), AccountsOf(src, req.accounts), PricesOf(src, req.markets));
  }

  /** The update is in the batch, and only there. */
  ghost predicate OnlyAt(u: Update, batch: Batch, i: nat) {
    i < |batch| && batch[i] == u && forall j :: 0 <= j < |batch| && j != i ==> batch[j] != u
  }

  ghost predicate OnceIn(u: Update, batch: Batch) {
    exists i :: OnlyAt(u, batch, i)
  }

  lemma OnceAmong(u: Update, a: Batch, b: Batch, c: Batch, k: nat)
    requires u !in a && OnlyAt(u, b, k) && u !in c
    ensures OnceIn(u, a + b + c)
  {
    assert OnlyAt(u, a + b + c, |a| + k);
  }

  ghost predicate TellsApart<T>(input: seq<T>, get: T -> Update, x: T) {
    forall i :: 0 <= i < |input| && input[i] != x ==> get(input[i]) != get(x)
  }

  lemma Differs<T>(input: seq<T>, get: T -> Update, x: T, i: nat)
    requires TellsApart(input, get, x) && i < |input| && input[i] != x
    ensures get(input[i]) != get(x)
  {
  }

  /** A kept element that occurs once is picked once, if `get` tells it from the others. */
  lemma PickedOnce<T>(input: seq<T>, keep: T -> bool, get: T -> Update, out: Batch, x: T) returns (k: nat)
    requires Picks(input, keep, get, out) && NoDup(input) && x in input && keep(x)
    requires TellsApart(input, get, x)
    ensures OnlyAt(get(x), out, k)
  {
    var at :| PicksAt(input, keep, get, out, at);
    var i :| 0 <= i < |input| && input[i] == x;
    k := PlaceOf(input, keep, at, i);
    forall j | 0 <= j < |out| && j != k
      ensures out[j] != get(x)
    {
      OtherPlace(input, keep, at, j, k);
      Differs(input, get, x, at[j]);
    }
  }

  lemma PlaceOf<T>(input: seq<T>, keep: T -> bool, at: seq<nat>, i: nat) returns (k: nat)
    requires Marks(at, input, keep) && i < |input| && keep(input[i])
    ensures k < |at| && at[k] == i
  {
    assert i in at;
    k :| k < |at| && at[k] == i;
  }

  lemma OtherPlace<T>(input: seq<T>, keep: T -> bool, at: seq<nat>, j: nat, k: nat)
    requires Marks(at, input, keep) && NoDup(input) && j < |at| && k < |at| && j != k
    ensures at[j] < |input| && at[k] < |input| && input[at[j]] != input[at[k]]
  {
    assert at[j] in at && at[k] in at;
    assert at[j] < at[k] || at[k] < at[j];
  }

  /** A duplicate-free request gets each known subaccount it names exactly once, with its value. */
  lemma AccountSentOnce(req: Request, src: Sources, batch: Batch, a: SubaccountId)
    requires IsSnapshot(req, src, batch) && NoDup(req.accounts) && a in req.accounts && a in src.accounts
    ensures OnceIn(Update(SubaccountUpdate(a, src.accounts[a]), src.height, src.mode), batch)
  {
    var us, accounts, prices :| SnapshotParts(req, src, batch, us, accounts, prices);
    var u := AccountNow(src)(a);
    var k := PickedOnce(req.accounts, KnownAccount(src), AccountNow(src), accounts, a);
    AllPrices(req, src, prices);
    OnceAmong(u, [Update(OrderbookUpdate(us, true), src.height, src.mode)], accounts, prices, k);
  }

  /** The same for the prices it names. */
  lemma PriceSentOnce(req: Request, src: Sources, batch: Batch, m: MarketId)
    requires IsSnapshot(req, src, batch) && NoDup(req.markets) && m in req.markets && m in src.prices
    ensures OnceIn(Update(PriceUpdate(m, src.prices[m]), src.height, src.mode), batch)
  {
    var us, accounts, prices :| SnapshotParts(req, src, batch, us, accounts, prices);
    var u := PriceNow(src)(m);
    var k := PickedOnce(req.markets, KnownPrice(src), PriceNow(src), prices, m);
    AllAccounts(req, src, accounts);
    var before := [Update(OrderbookUpdate(us, true), src.height, src.mode)] + accounts;
    assert before + prices + [] == batch;
    OnceAmong(u, before, prices, [], k);
  }

  lemma AllPrices(req: Request, src: Sources, prices: Batch)
    requires Picks(req.markets, KnownPrice(src), PriceNow(src), prices)
    ensures forall u :: u in prices ==> u.message.PriceUpdate?
  {
    var at :| PicksAt(req.markets, KnownPrice(src), PriceNow(src), prices, at);
  }

  lemma AllAccounts(req: Request, src: Sources, accounts: Batch)
    requires Picks(req.accounts, KnownAccount(src), AccountNow(src), accounts)
    ensures forall u :: u in accounts ==> u.message.SubaccountUpdate?
  {
    var at :| PicksAt(req.accounts, KnownAccount(src), AccountNow(src), accounts, at);
  }
}
