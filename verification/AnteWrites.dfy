/** What decorators see and write, key by key, and what that makes of the store in every run. */
module AnteWrites {
  import opened Basics
  import opened AnteSerial
  import opened AnteProtocol
  import opened AnteProof
  import opened AnteRuns

  /** What the `i`-th decorator may touch: its signers' accounts, and under the global lock all the rest. */
  predicate Reaches(tx: Tx, i: nat, k: Key) {
    match k
    case Sequence(a) => a in tx.signers
    case Row(a, _) => a in tx.signers
    case Shared(_) => |tx.early| <= i
  }

  /** `v` is the part of `s` that the `i`-th decorator may touch, with nothing missing or added. */
  ghost predicate SeenBy(tx: Tx, i: nat, s: Store, v: Store) {
    && (forall k :: k in v <==> k in s && Reaches(tx, i, k))
    && (forall k :: k in v ==> v[k] == s[k])
  }

  lemma SeenIsVisible(tx: Tx, i: nat, s: Store, v: Store)
    requires SeenBy(tx, i, s, v)
    ensures v == Visible(s, tx.signers, IsLate(tx, i))
  {
  }

  /** A decorator runs on what it may touch of the branched store. If it passes, its context is handed on;
      whatever it wrote within its reach, sequence numbers apart, can then be read from the branch, and
      all else reads as before. If it rejects, the transaction fails with its error. */
  lemma WorkEffect(tx: Tx, s: Store, i: nat, ctx: Context, b: Store, run: (Context, Store) -> Verdict, v: Store)
    requires i < Length(tx) && Prefix(tx, s, i) == Running(ctx, b) && DecoratorAt(tx, i) == Work(run)
    requires SeenBy(tx, i, s + b, v)
    ensures match run(ctx, v)
            case Reject(e) => Prefix(tx, s, i + 1) == Failed(e)
            case Pass(c, w) =>
              && Prefix(tx, s, i + 1).Running? && Prefix(tx, s, i + 1).ctx == c
              && forall k :: Get(s + Prefix(tx, s, i + 1).branch, k) ==
                             if k in w && Reaches(tx, i, k) && !k.Sequence? then w[k] else Get(s + b, k)
  {
    SeenIsVisible(tx, i, s + b, v);
  }

  /** The sequence step raises the sequence number of each signer by one and changes nothing else. */
  lemma IncrementEffect(tx: Tx, s: Store, i: nat, ctx: Context, b: Store)
    requires i < Length(tx) && Prefix(tx, s, i) == Running(ctx, b) && DecoratorAt(tx, i) == IncrementSequence
    ensures Prefix(tx, s, i + 1).Running? && Prefix(tx, s, i + 1).ctx == ctx
    ensures forall k :: Get(s + Prefix(tx, s, i + 1).branch, k) ==
                        Get(s + b, k) + if k.Sequence? && k.addr in tx.signers then 1 else 0
  {
  }

  // ---- The last write wins ----

  function Sees(tx: Tx, i: nat, s: Store): Store {
    map k | k in s && Reaches(tx, i, k) :: s[k]
  }

  /** What the first `i` decorators last wrote to `k`, if any of them did. */
  function Written(tx: Tx, s: Store, i: nat, k: Key): Option<nat>
    requires i <= Length(tx)
  {
    if i == 0 then None
    else match Prefix(tx, s, i - 1)
      case Failed(_) => None
      case Running(ctx, b) => WrittenBy(tx, i - 1, ctx, s + b, k, Written(tx, s, i - 1, k))
  }

  function WrittenBy(tx: Tx, i: nat, ctx: Context, s: Store, k: Key, before: Option<nat>): Option<nat>
    requires i < Length(tx)
  {
    match DecoratorAt(tx, i)
    case IncrementSequence => if k.Sequence? && k.addr in tx.signers then Some(Get(s, k) + 1) else before
    case Work(run) =>
      match run(ctx, Sees(tx, i, s))
      case Reject(_) => before
      case Pass(_, w) => if k in w && Reaches(tx, i, k) && !k.Sequence? then Some(w[k]) else before
  }

  function Or(w: Option<nat>, otherwise: nat): nat {
    match w
    case Some(x) => x
    case None => otherwise
  }

  lemma {:induction false} PrefixValue(tx: Tx, s: Store, i: nat, k: Key)
    requires i <= Length(tx) && Prefix(tx, s, i).Running?
    ensures Get(s + Prefix(tx, s, i).branch, k) == Or(Written(tx, s, i, k), Get(s, k))
  {
    if i > 0 {
      PrefixValue(tx, s, i - 1, k);
      var (ctx, b) := (Prefix(tx, s, i - 1).ctx, Prefix(tx, s, i - 1).branch);
      match DecoratorAt(tx, i - 1)
      case IncrementSequence => IncrementEffect(tx, s, i - 1, ctx, b);
      case Work(run) => WorkEffect(tx, s, i - 1, ctx, b, run, Sees(tx, i - 1, s + b));
    }
  }

  /** A committed transaction leaves each key with what it last wrote there. */
  lemma AfterValue(tx: Tx, s: Store, k: Key)
    ensures Get(After(tx, s), k) ==
            if Result(tx, s).Committed? then Or(Written(tx, s, Length(tx), k), Get(s, k)) else Get(s, k)
  {
    if Result(tx, s).Committed? {
      PrefixValue(tx, s, Length(tx), k);
    }
  }

  /** What the committed among the first `n` decided transactions last wrote to `k`, or its start value. */
  ghost function LastWrite(s: State, store: Store, n: nat, k: Key): nat
    requires OrderKnown(s.txs, s.order) && n <= |s.order|
  {
    if n == 0 then Get(store, k)
    else
      var t := s.order[n - 1];
      var before := LastWrite(s, store, n - 1, k);
      if DidCommit(s, t)
      then Or(Written(s.txs[t], AfterAll(s.txs, store, s.order[..n - 1]), Length(s.txs[t]), k), before)
      else before
  }

  lemma {:induction false} ValueUpTo(s: State, store: Store, n: nat, k: Key)
    requires OrderKnown(s.txs, s.order) && n <= |s.order|
    requires forall j :: 0 <= j < |s.order| ==> OutcomeOk(s, store, j)
    ensures Get(AfterAll(s.txs, store, s.order[..n]), k) == LastWrite(s, store, n, k)
  {
    if n > 0 {
      ValueUpTo(s, store, n - 1, k);
      AfterAllLast(s.txs, store, s.order, n);
      assert OutcomeOk(s, store, n - 1);
      AfterValue(s.txs[s.order[n - 1]], AfterAll(s.txs, store, s.order[..n - 1]), k);
    }
  }

  /** In every run each key of the settled store holds what the last committed decorator that wrote it
      wrote, or its start value. */
  lemma {:induction false} SettledValue(txs: map<Tid, Tx>, store: Store, sched: Schedule, s: State, k: Key)
    requires Runs(Init(txs, store), sched, s)
    ensures OrderKnown(s.txs, s.order) && Get(Settled(s), k) == LastWrite(s, store, |s.order|, k)
  {
    RunKeepsInv(txs, store, sched, s);
    ValueUpTo(s, store, |s.order|, k);
    assert s.order[..|s.order|] == s.order;
  }

  /** One fee, written by one decorator, is in the store once the transaction commits. */
  lemma WriteArrives()
    ensures var tx := Tx({0}, None, [], [Work((c, s) => Pass(c, map[Row(0, 1) := 5]))]);
            Result(tx, map[]) == Committed([]) && Get(After(tx, map[]), Row(0, 1)) == 5
  {
    var tx := Tx({0}, None, [], [Work((c, s) => Pass(c, map[Row(0, 1) := 5]))]);
    assert Prefix(tx, map[], 0) == Running([], map[]);
    assert Prefix(tx, map[], 1).Running?;
  }
}
