/** Grouping of off-chain order events by clob pair, and the updates a finalized block brings. */
module OffchainGrouping {
  import opened Seqs
  import opened StreamTypes

  /** The events of one pair, in their original order. */
  function Only(us: seq<OffchainUpdate>, p: PairId): seq<OffchainUpdate> {
    if us == [] then []
    else
      var last := us[|us| - 1];
      Only(us[..|us| - 1], p) + if PairOf(last) == p then [last] else []
  }

  function OfPair(p: PairId): OffchainUpdate -> bool {
    u => PairOf(u) == p
  }

  /** A group is exactly the events of its pair, each once and in input order. */
  lemma {:induction false} OnlyInOrder(us: seq<OffchainUpdate>, p: PairId)
    ensures Picks(us, OfPair(p), Same(), Only(us, p))
  {
    if us == [] {
      PicksNothing(OfPair(p), Same<OffchainUpdate>());
    } else {
      OnlyInOrder(us[..|us| - 1], p);
      PicksLast(us, OfPair(p), Same(), Only(us[..|us| - 1], p), Only(us, p));
    }
  }

  /** The pairs met, each where it is met first. */
  function Pairs(us: seq<OffchainUpdate>): seq<PairId> {
    if us == [] then []
    else
      var before := Pairs(us[..|us| - 1]);
      var p := PairOf(us[|us| - 1]);
      if p in before then before else before + [p]
  }

  function GroupUpdate(us: seq<OffchainUpdate>, p: PairId, height: nat, mode: nat): Update {
    Update(OrderbookUpdate(Only(us, p), false), height, mode)
  }

  function GroupItems(us: seq<OffchainUpdate>, height: nat, mode: nat): seq<Item> {
    seq(|Pairs(us)|, i requires 0 <= i < |Pairs(us)| =>
      Item(GroupUpdate(us, Pairs(us)[i], height, mode), Pair(Pairs(us)[i])))
  }

  /** An update that carries exactly the events of one pair, each once and in input order. */
  ghost predicate IsGroup(us: seq<OffchainUpdate>, p: PairId, update: Update, height: nat, mode: nat) {
    && update.message.OrderbookUpdate? && !update.message.snapshot
    && Picks(us, OfPair(p), Same(), update.message.updates)
    && update.height == height && update.mode == mode
  }

  /** The items made of a list of events: one group for each pair, addressed to the pair. */
  lemma GroupItemsAre(us: seq<OffchainUpdate>, height: nat, mode: nat, i: nat)
    requires i < |Pairs(us)|
    ensures |GroupItems(us, height, mode)| == |Pairs(us)|
    ensures var item := GroupItems(us, height, mode)[i];
            item.topic == Pair(Pairs(us)[i]) && IsGroup(us, Pairs(us)[i], item.update, height, mode)
  {
    OnlyInOrder(us, Pairs(us)[i]);
  }

  method GroupByPair(us: seq<OffchainUpdate>, height: nat, mode: nat)
    returns (updates: seq<Update>, pairs: seq<PairId>)
    ensures pairs == Pairs(us)
    ensures updates == seq(|pairs|, i requires 0 <= i < |pairs| => GroupUpdate(us, pairs[i], height, mode))
    ensures forall i :: 0 <= i < |pairs| ==> IsGroup(us, pairs[i], updates[i], height, mode)
  {
    var groups;
    groups, pairs := CollectGroups(us);
    updates := [];
    for i := 0 to |pairs|
      invariant |updates| == i
      invariant forall j :: 0 <= j < i ==> updates[j] == GroupUpdate(us, pairs[j], height, mode)
    {
      assert pairs[i] in groups && groups[pairs[i]] == Group(groups, pairs[i]);
      updates := updates + [Update(OrderbookUpdate(groups[pairs[i]], false), height, mode)];
    }
    forall i | 0 <= i < |pairs|
      ensures IsGroup(us, pairs[i], updates[i], height, mode)
    {
      OnlyInOrder(us, pairs[i]);
    }
  }

  function Group(groups: map<PairId, seq<OffchainUpdate>>, p: PairId): seq<OffchainUpdate> {
    if p in groups then groups[p] else []
  }

  method CollectGroups(us: seq<OffchainUpdate>)
    returns (groups: map<PairId, seq<OffchainUpdate>>, pairs: seq<PairId>)
    ensures pairs == Pairs(us)
    ensures forall p :: p in groups <==> p in pairs
    ensures forall p :: Group(groups, p) == Only(us, p)
  {
    groups := map[];
    pairs := [];
    for i := 0 to |us|
      invariant pairs == Pairs(us[..i])
      invariant forall p :: p in groups <==> p in pairs
      invariant forall p :: Group(groups, p) == Only(us[..i], p)
    {
      assert us[..i + 1][..i] == us[..i];
      var p := PairOf(us[i]);
      if p !in groups {
        groups := groups[p := []];
        pairs := pairs + [p];
      }
      groups := groups[p := groups[p] + [us[i]]];
    }
    assert us[..|us|] == us;
  }

  ghost predicate Occurs(us: seq<OffchainUpdate>, p: PairId) {
    exists i :: 0 <= i < |us| && PairOf(us[i]) == p
  }

  /** Where a pair is first met. */
  ghost predicate FirstAt(us: seq<OffchainUpdate>, i: nat, p: PairId) {
    i < |us| && PairOf(us[i]) == p && forall j :: 0 <= j < i ==> PairOf(us[j]) != p
  }

  /** The pairs listed are exactly the pairs of the input. */
  lemma {:induction false} PairsOccur(us: seq<OffchainUpdate>, p: PairId)
    ensures p in Pairs(us) <==> Occurs(us, p)
  {
    if us != [] {
      var n := |us| - 1;
      PairsOccur(us[..n], p);
      if Occurs(us[..n], p) {
        var i :| 0 <= i < n && PairOf(us[..n][i]) == p;
        assert PairOf(us[i]) == p;
      }
      if Occurs(us, p) && PairOf(us[n]) != p {
        var i :| 0 <= i < |us| && PairOf(us[i]) == p;
        assert PairOf(us[..n][i]) == p;
      }
    }
  }

  lemma {:induction false} PairsDistinct(us: seq<OffchainUpdate>)
    ensures NoDup(Pairs(us))
  {
    if us != [] {
      PairsDistinct(us[..|us| - 1]);
    }
  }

  /** The pairs stand in the order in which the input first meets them. */
  lemma {:induction false} PairsInFirstOccurrenceOrder(us: seq<OffchainUpdate>, a: nat, b: nat, i: nat, j: nat)
    requires a < b < |Pairs(us)| && FirstAt(us, i, Pairs(us)[a]) && FirstAt(us, j, Pairs(us)[b])
    ensures i < j
  {
    var n := |us| - 1;
    PairsOccur(us[..n], Pairs(us)[a]);
    PairsOccur(us[..n], Pairs(us)[b]);
    var k :| 0 <= k < n && PairOf(us[..n][k]) == Pairs(us)[a];
    assert PairOf(us[k]) == Pairs(us)[a];
    if b < |Pairs(us[..n])| {
      var l :| 0 <= l < n && PairOf(us[..n][l]) == Pairs(us)[b];
      assert PairOf(us[l]) == Pairs(us)[b];
      PairsInFirstOccurrenceOrder(us[..n], a, b, i, j);
    } else {
      PairsDistinct(us);
      assert forall m :: 0 <= m < n ==> us[..n][m] == us[m];
    }
  }

  /** All groups together. */
  function Grouped(us: seq<OffchainUpdate>, ps: seq<PairId>): multiset<OffchainUpdate> {
    if ps == [] then multiset{} else Grouped(us, ps[..|ps| - 1]) + multiset(Only(us, ps[|ps| - 1]))
  }

  /** One more event goes to its own group, and to no other. */
  lemma {:induction false} GroupedStep(us: seq<OffchainUpdate>, ps: seq<PairId>)
    requires us != [] && NoDup(ps)
    ensures Grouped(us, ps) == Grouped(us[..|us| - 1], ps) +
            if PairOf(us[|us| - 1]) in ps then multiset{us[|us| - 1]} else multiset{}
  {
    if ps != [] {
      var n := |ps| - 1;
      assert ps == ps[..n] + [ps[n]];
      GroupedStep(us, ps[..n]);
    }
  }

  lemma {:induction false} OnlyAbsent(us: seq<OffchainUpdate>, p: PairId)
    requires p !in Pairs(us)
    ensures Only(us, p) == []
  {
    if us != [] {
      OnlyAbsent(us[..|us| - 1], p);
    }
  }

  /** The groups together hold every input event as often as the input does. */
  lemma {:induction false} GroupsConserve(us: seq<OffchainUpdate>)
    ensures Grouped(us, Pairs(us)) == multiset(us)
  {
    if us != [] {
      var n := |us| - 1;
      var prev := us[..n];
      var p := PairOf(us[n]);
      assert us == prev + [us[n]];
      GroupsConserve(prev);
      PairsDistinct(prev);
      GroupedStep(us, Pairs(prev));
      if p !in Pairs(prev) {
        OnlyAbsent(prev, p);
        assert Only(us, p) == [us[n]];
        assert Pairs(us)[..|Pairs(us)| - 1] == Pairs(prev);
      }
    }
  }

  // ---- Finalized blocks ----

  datatype StagedEvent =
    | StagedFill(fill: Fill)
    | StagedSubaccount(account: SubaccountId, body: nat)
    | StagedOrderbook(updates: seq<OffchainUpdate>)
    | StagedPrice(market: MarketId, body: nat)

  datatype Kind = FillKind | SubaccountKind | OrderbookKind | PriceKind

  function KindOf(e: StagedEvent): Kind {
    match e
    case StagedFill(_) => FillKind
    case StagedSubaccount(_, _) => SubaccountKind
    case StagedOrderbook(_) => OrderbookKind
    case StagedPrice(_, _) => PriceKind
  }

  /** The events of one category, in staging order. */
  function Category(staged: seq<StagedEvent>, kind: Kind): (r: seq<StagedEvent>)
    ensures forall e :: e in r ==> e in staged && KindOf(e) == kind
  {
    if staged == [] then []
    else
      var last := staged[|staged| - 1];
      Category(staged[..|staged| - 1], kind) + if KindOf(last) == kind then [last] else []
  }

  function OfKind(kind: Kind): StagedEvent -> bool {
    e => KindOf(e) == kind
  }

  /** A category is exactly the staged events of its kind, each once and in staging order. */
  lemma {:induction false} CategoryInOrder(staged: seq<StagedEvent>, kind: Kind)
    ensures Picks(staged, OfKind(kind), Same(), Category(staged, kind))
  {
    if staged == [] {
      PicksNothing(OfKind(kind), Same<StagedEvent>());
    } else {
      var prev := staged[..|staged| - 1];
      CategoryInOrder(prev, kind);
      PicksLast(staged, OfKind(kind), Same(), Category(prev, kind), Category(staged, kind));
    }
  }

  function Fills(staged: seq<StagedEvent>): seq<StagedEvent> { Category(staged, FillKind) }
  function Books(staged: seq<StagedEvent>): seq<StagedEvent> { Category(staged, OrderbookKind) }
  function Accounts(staged: seq<StagedEvent>): seq<StagedEvent> { Category(staged, SubaccountKind) }
  function Prices(staged: seq<StagedEvent>): seq<StagedEvent> { Category(staged, PriceKind) }

  method SplitStaged(staged: seq<StagedEvent>)
    returns (fills: seq<StagedEvent>, accounts: seq<StagedEvent>, books: seq<StagedEvent>, prices: seq<StagedEvent>)
    ensures fills == Fills(staged) && accounts == Accounts(staged)
    ensures books == Books(staged) && prices == Prices(staged)
  {
    fills, accounts, books, prices := [], [], [], [];
    for i := 0 to |staged|
      invariant fills == Fills(staged[..i]) && accounts == Accounts(staged[..i])
      invariant books == Books(staged[..i]) && prices == Prices(staged[..i])
    {
      assert staged[..i + 1][..i] == staged[..i];
      match staged[i]
      case StagedFill(_) => fills := fills + [staged[i]];
      case StagedSubaccount(_, _) => accounts := accounts + [staged[i]];
      case StagedOrderbook(_) => books := books + [staged[i]];
      case StagedPrice(_, _) => prices := prices + [staged[i]];
    }
    assert staged[..|staged|] == staged;
  }

  /** Every staged event goes to its own category as often as it was staged, and to no other. */
  lemma {:induction false} SplitConserves(staged: seq<StagedEvent>, kind: Kind, e: StagedEvent)
    ensures multiset(Category(staged, kind))[e] == if KindOf(e) == kind then multiset(staged)[e] else 0
  {
    if staged != [] {
      var prev, last := staged[..|staged| - 1], staged[|staged| - 1];
      SplitConserves(prev, kind, e);
      assert staged == prev + [last];
    }
  }

  type Perpetuals = map<PerpetualId, seq<PairId>>

  /** A fill can be attributed to a pair: through its perpetual's first pair, or its first order. */
  predicate Attributable(fill: Fill, perps: Perpetuals) {
    match fill
    case DeleveragingFill(p, _) => p in perps && perps[p] != []
    case MatchFill(orderPairs, _) => orderPairs != []
  }

  function FillPair(fill: Fill, perps: Perpetuals): PairId
    requires Attributable(fill, perps)
  {
    match fill
    case DeleveragingFill(p, _) => perps[p][0]
    case MatchFill(orderPairs, _) => orderPairs[0]
  }

  ghost predicate AllAttributable(staged: seq<StagedEvent>, perps: Perpetuals) {
    forall e :: e in staged && e.StagedFill? ==> Attributable(e.fill, perps)
  }

  function FillItems(fills: seq<StagedEvent>, perps: Perpetuals, height: nat, mode: nat): (r: seq<Item>)
    requires forall e :: e in fills ==> e.StagedFill? && Attributable(e.fill, perps)
    ensures |r| == |fills|
  {
    seq(|fills|, i requires 0 <= i < |fills| =>
      Item(Update(OrderFill(fills[i].fill), height, mode), Pair(FillPair(fills[i].fill, perps))))
  }

  function BookItems(books: seq<StagedEvent>, height: nat, mode: nat): seq<Item>
    requires forall e :: e in books ==> e.StagedOrderbook?
  {
    if books == [] then []
    else BookItems(books[..|books| - 1], height, mode) + GroupItems(books[|books| - 1].updates, height, mode)
  }

  /** Staged order book updates are grouped one by one, in order. */
  lemma {:induction false} BookItemsConcat(a: seq<StagedEvent>, b: seq<StagedEvent>, height: nat, mode: nat)
    requires forall e :: e in a + b ==> e.StagedOrderbook?
    ensures (forall e :: e in a ==> e in a + b) && (forall e :: e in b ==> e in a + b)
    ensures BookItems(a + b, height, mode) == BookItems(a, height, mode) + BookItems(b, height, mode)
    ensures |b| == 1 ==> BookItems(b, height, mode) == GroupItems(b[0].updates, height, mode)
    decreases |b|
  {
    if b == [] {
      assert a + b == a;
    } else {
      var n := |b| - 1;
      assert (a + b)[..|a + b| - 1] == a + b[..n];
      assert forall e :: e in a + b[..n] ==> e in a + b;
      BookItemsConcat(a, b[..n], height, mode);
      Associate(BookItems(a, height, mode), BookItems(b[..n], height, mode), GroupItems(b[n].updates, height, mode));
      assert |b| == 1 ==> b[..n] == [];
    }
  }

  function AccountItems(accounts: seq<StagedEvent>, height: nat, mode: nat): (r: seq<Item>)
    requires forall e :: e in accounts ==> e.StagedSubaccount?
    ensures |r| == |accounts|
  {
    seq(|accounts|, i requires 0 <= i < |accounts| =>
      Item(Update(SubaccountUpdate(accounts[i].account, accounts[i].body), height, mode), Account(accounts[i].account)))
  }

  function PriceItems(prices: seq<StagedEvent>, height: nat, mode: nat): (r: seq<Item>)
    requires forall e :: e in prices ==> e.StagedPrice?
    ensures |r| == |prices|
  {
    seq(|prices|, i requires 0 <= i < |prices| =>
      Item(Update(PriceUpdate(prices[i].market, prices[i].body), height, mode), Market(prices[i].market)))
  }

  /** Everything a finalized block brings: sync updates, then fills, order book updates, subaccount
      updates and prices, each category in staging order. */
  function BlockItems(sync: seq<OffchainUpdate>, staged: seq<StagedEvent>, perps: Perpetuals, height: nat, mode: nat): seq<Item>
    requires AllAttributable(staged, perps)
  {
    GroupItems(sync, height, mode)
    + FillItems(Fills(staged), perps, height, mode)
    + BookItems(Books(staged), height, mode)
    + AccountItems(Accounts(staged), height, mode)
    + PriceItems(Prices(staged), height, mode)
  }
}
