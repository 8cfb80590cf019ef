/** The theorems about every run of concurrent `checkTx` handlers. */
module AnteRuns {
  import opened Basics
  import opened AnteSerial
  import opened AnteProtocol
  import opened AnteProof

  lemma InitInv(txs: map<Tid, Tx>, store: Store)
    ensures Inv(Init(txs, store), store)
  {
    var s := Init(txs, store);
    forall t | t in s.txs
      ensures HandlerOk(s, t)
    {
    }
  }

  lemma {:induction false} RunKeepsInv(txs: map<Tid, Tx>, store: Store, sched: Schedule, s: State)
    requires Runs(Init(txs, store), sched, s)
    ensures Inv(s, store) && s.txs == txs
    decreases |sched|
  {
    if |sched| == 0 {
      InitInv(txs, store);
    } else {
      var before, move := sched[..|sched| - 1], sched[|sched| - 1];
      var mid :| Runs(Init(txs, store), before, mid) && Moves(mid, move, s);
      RunKeepsInv(txs, store, before, mid);
      MoveKeepsInv(mid, store, move, s);
      TxsKept(mid, move, s);
    }
  }

  lemma MoveKeepsInv(s: State, init: Store, move: (Tid, Key), s': State)
    requires Inv(s, init) && Moves(s, move, s')
    ensures Inv(s', init)
  {
    StepKeepsInv(s, init, move.0, move.1);
  }

  lemma TxsKept(s: State, move: (Tid, Key), s': State)
    requires Moves(s, move, s')
    ensures s'.txs == s.txs
  {
  }

  /** In every interleaving the store, once the write in progress is complete, is what running the
      decided transactions one by one gives, and each of them had the outcome it has there. */
  lemma Linearizable(txs: map<Tid, Tx>, store: Store, sched: Schedule, s: State)
    requires Runs(Init(txs, store), sched, s)
    ensures forall t :: t in s.order ==> t in txs
    ensures Settled(s) == AfterAll(txs, store, s.order)
    ensures (forall t :: t in s.handlers ==> !s.handlers[t].pc.Writing?) ==> s.store == AfterAll(txs, store, s.order)
    ensures forall j :: 0 <= j < |s.order| ==>
              && s.order[j] in s.handlers
              && s.handlers[s.order[j]].outcome == Some(Result(txs[s.order[j]], AfterAll(txs, store, s.order[..j])))
    ensures forall i, j :: 0 <= i < j < |s.order| ==> s.order[i] != s.order[j]
    ensures forall t :: t in s.handlers && s.handlers[t].pc.Done? ==> t in s.order
  {
    RunKeepsInv(txs, store, sched, s);
    forall j | 0 <= j < |s.order|
      ensures s.order[j] in s.handlers
      ensures s.handlers[s.order[j]].outcome == Some(Result(txs[s.order[j]], AfterAll(txs, store, s.order[..j])))
    {
      assert OutcomeOk(s, store, j);
    }
    forall t | t in s.handlers && s.handlers[t].pc.Done?
      ensures t in s.order
    {
      assert HandlerOk(s, t);
    }
  }

  /** A transaction that was rejected left no trace: dropping it from the order changes nothing. */
  lemma RejectedLeavesNoTrace(txs: map<Tid, Tx>, store: Store, sched: Schedule, s: State, j: nat)
    requires Runs(Init(txs, store), sched, s) && j < |s.order|
    requires s.order[j] in s.handlers && s.handlers[s.order[j]].outcome.Some?
    requires s.handlers[s.order[j]].outcome.value.Rejected?
    ensures forall t :: t in s.order ==> t in txs
    ensures AfterAll(txs, store, s.order[..j + 1]) == AfterAll(txs, store, s.order[..j])
  {
    RunKeepsInv(txs, store, sched, s);
    assert OutcomeOk(s, store, j);
    assert s.order[..j + 1][..j] == s.order[..j];
  }

  lemma AfterAllLast(txs: map<Tid, Tx>, store: Store, order: seq<Tid>, n: nat)
    requires OrderKnown(txs, order) && 0 < n <= |order|
    ensures AfterAll(txs, store, order[..n]) == After(txs[order[n - 1]], AfterAll(txs, store, order[..n - 1]))
  {
    assert order[..n][..n - 1] == order[..n - 1];
  }

  predicate DidCommit(s: State, t: Tid) {
    t in s.handlers && s.handlers[t].outcome.Some? && s.handlers[t].outcome.value.Committed?
  }

  /** The committed transactions among the first `n` decided, in the order of their writes. */
  function Committers(s: State, n: nat): seq<Tid>
    requires n <= |s.order|
  {
    if n == 0 then []
    else if DidCommit(s, s.order[n - 1]) then Committers(s, n - 1) + [s.order[n - 1]]
    else Committers(s, n - 1)
  }

  lemma AfterAllSnoc(txs: map<Tid, Tx>, store: Store, order: seq<Tid>, t: Tid)
    requires OrderKnown(txs, order) && t in txs
    ensures OrderKnown(txs, order + [t])
    ensures AfterAll(txs, store, order + [t]) == After(txs[t], AfterAll(txs, store, order))
  {
    assert (order + [t])[..|order|] == order;
  }

  lemma {:induction false} CommittersSuffice(store: Store, s: State, n: nat)
    requires OrderKnown(s.txs, s.order) && n <= |s.order|
    requires forall j :: 0 <= j < |s.order| ==> OutcomeOk(s, store, j)
    ensures OrderKnown(s.txs, Committers(s, n))
    ensures AfterAll(s.txs, store, Committers(s, n)) == AfterAll(s.txs, store, s.order[..n])
  {
    if n > 0 {
      CommittersSuffice(store, s, n - 1);
      AfterAllLast(s.txs, store, s.order, n);
      assert OutcomeOk(s, store, n - 1);
      AfterAllSnoc(s.txs, store, Committers(s, n - 1), s.order[n - 1]);
    }
  }

  /** In every interleaving the store, once the write in progress is complete, is what running the
      committed transactions one by one, in the order of their writes, gives. */
  lemma CommittedOneByOne(txs: map<Tid, Tx>, store: Store, sched: Schedule, s: State)
    requires Runs(Init(txs, store), sched, s)
    ensures OrderKnown(txs, Committers(s, |s.order|))
    ensures Settled(s) == AfterAll(txs, store, Committers(s, |s.order|))
  {
    RunKeepsInv(txs, store, sched, s);
    CommittersSuffice(store, s, |s.order|);
    assert s.order[..|s.order|] == s.order;
  }

  // ---- No deadlock ----

  predicate Unfinished(s: State, t: Tid) {
    t in s.handlers && !s.handlers[t].pc.Done?
  }

  /** Rows above the one a handler waits for. */
  ghost function RowsAbove(s: State, a: Addr): set<Addr> {
    set b | b in s.rows && b > a
  }

  /** Follow the waiting: the holder of the row waited for either can step or waits for a higher row. */
  lemma {:induction false} Climb(s: State, init: Store, u: Tid, k: Key) returns (t: Tid)
    requires Inv(s, init) && s.global.None? && u in s.txs && s.handlers[u].pc.Locking?
    ensures Enabled(s, t, k)
    decreases if s.handlers[u].held < s.txs[u].signers then RowsAbove(s, NextRow(s.txs[u], s.handlers[u])) else {}
  {
    assert HandlerOk(s, u);
    if !(s.handlers[u].held < s.txs[u].signers) || NextRow(s.txs[u], s.handlers[u]) !in s.rows {
      return u;
    }
    var a := NextRow(s.txs[u], s.handlers[u]);
    assert RowOk(s, a);
    var v := s.rows[a];
    assert HandlerOk(s, v);
    if !s.handlers[v].pc.Locking? {
      return v;
    }
    if s.handlers[v].held < s.txs[v].signers && NextRow(s.txs[v], s.handlers[v]) in s.rows {
      var b := NextRow(s.txs[v], s.handlers[v]);
      assert a < b;
      assert b in RowsAbove(s, a) && b !in RowsAbove(s, b);
      t := Climb(s, init, v, k);
    } else {
      t := v;
    }
  }

  /** As long as some handler is unfinished, some unfinished handler can step: no set of handlers
      ever waits in a cycle. */
  lemma SomeoneCanStep(s: State, init: Store, t: Tid)
    requires Inv(s, init) && Unfinished(s, t)
    ensures exists u, k :: Enabled(s, u, k) && Unfinished(s, u)
  {
    assert HandlerOk(s, t);
    var h := s.handlers[t];
    if s.global.Some? {
      var g := s.global.value;
      assert HandlerOk(s, g);
      var k := if s.handlers[g].branch != map[] then SomeKey(s.handlers[g].branch) else Shared(0);
      assert Enabled(s, g, k) && Unfinished(s, g);
    } else if h.pc.Locking? {
      var u := Climb(s, init, t, Shared(0));
      assert Enabled(s, u, Shared(0)) && Unfinished(s, u);
    } else {
      assert Enabled(s, t, Shared(0));
    }
  }

  ghost function SomeKey(b: Store): (k: Key)
    requires b != map[]
    ensures k in b
  {
    assert b.Keys != {};
    var k :| k in b.Keys;
    k
  }

  lemma NeverStuck(txs: map<Tid, Tx>, store: Store, sched: Schedule, s: State, t: Tid)
    requires Runs(Init(txs, store), sched, s) && Unfinished(s, t)
    ensures exists u, k :: Enabled(s, u, k) && Unfinished(s, u)
  {
    RunKeepsInv(txs, store, sched, s);
    SomeoneCanStep(s, store, t);
  }

  // ---- The two kinds of transaction that reach the locks ----

  type Run = (Context, Store) -> Verdict

  /** A property of the transaction itself, which may fail to be established. */
  datatype Flag = Is(value: bool) | FlagError(error: nat)

  datatype Msg =
    | ClobMsg(signers: set<Addr>, pre: Option<nat>, consumeTxSizeGas: Run, validateSigCount: Run, replayProtection: Run,
              sigVerification: Run, shortTerm: Flag, timestampNonce: Flag, clobRateLimit: Run, clob: Run)
    | OtherMsg(signers: set<Addr>, pre: Option<nat>, consumeTxSizeGas: Run, deductFee: Run, validateSigCount: Run,
               replayProtection: Run, sigVerification: Run, timestampNonce: Flag)

  function RejectWith(e: nat): Run {
    (ctx: Context, s: Store) => Reject(e)
  }

  /** Short-term clob and timestamp-nonce transactions do not use the sequence number. */
  predicate UsesSequence(m: Msg) {
    m.timestampNonce == Is(false) && (m.ClobMsg? ==> m.shortTerm == Is(false))
  }

  function SequenceStep(m: Msg): seq<Decorator> {
    if m.ClobMsg? && m.shortTerm.FlagError? then [Work(RejectWith(m.shortTerm.error))]
    else if m.timestampNonce.FlagError? then [Work(RejectWith(m.timestampNonce.error))]
    else if UsesSequence(m) then [IncrementSequence]
    else []
  }

  /** Clob messages take the global lock for the clob decorators only; other messages take it at once. */
  function TxOf(m: Msg): Tx {
    match m
    case ClobMsg(signers, pre, consume, sigCount, replay, sig, _, _, rateLimit, clob) =>
      Tx(signers, pre, [Work(consume), Work(sigCount), Work(replay), Work(sig)] + SequenceStep(m), [Work(rateLimit), Work(clob)])
    case OtherMsg(signers, pre, consume, fee, sigCount, replay, sig, _) =>
      Tx(signers, pre, [], [Work(consume), Work(fee), Work(sigCount), Work(replay), Work(sig)] + SequenceStep(m))
  }

  /** A stretch of foreign decorators does not touch sequence numbers. */
  lemma {:induction false} WorkStretch(tx: Tx, lo: nat, hi: nat)
    requires lo <= hi <= Length(tx) && forall i :: lo <= i < hi ==> DecoratorAt(tx, i).Work?
    ensures IncrementsIn(tx, hi) == IncrementsIn(tx, lo)
    decreases hi
  {
    if lo < hi {
      WorkStretch(tx, lo, hi - 1);
    }
  }

  predicate IsShortTerm(m: Msg) {
    m.ClobMsg? && m.shortTerm == Is(true)
  }

  predicate IsTimestampNonce(m: Msg) {
    m.timestampNonce == Is(true)
  }

  predicate FlagsKnown(m: Msg) {
    m.timestampNonce.Is? && (m.ClobMsg? ==> m.shortTerm.Is?)
  }

  lemma PlanIncrements(m: Msg)
    ensures IncrementsIn(TxOf(m), Length(TxOf(m))) == if UsesSequence(m) then 1 else 0
    ensures FlagsKnown(m) ==> (UsesSequence(m) <==> !IsShortTerm(m) && !IsTimestampNonce(m))
  {
    var tx := TxOf(m);
    var at := if m.ClobMsg? then 4 else 5;
    WorkStretch(tx, 0, at);
    if UsesSequence(m) {
      assert DecoratorAt(tx, at) == IncrementSequence;
      WorkStretch(tx, at + 1, Length(tx));
    } else {
      WorkStretch(tx, at, Length(tx));
    }
  }

  lemma UnknownFlagRejects(m: Msg, s: Store)
    requires !FlagsKnown(m)
    ensures Result(TxOf(m), s).Rejected?
  {
    var tx := TxOf(m);
    var at := if m.ClobMsg? then 4 else 5;
    assert DecoratorAt(tx, at).Work?;
    if tx.pre.None? {
      if Prefix(tx, s, at).Running? {
        FailedIsRejected(tx, s, at + 1);
      } else {
        FailedIsRejected(tx, s, at);
      }
    }
  }

  function TxsOf(msgs: map<Tid, Msg>): map<Tid, Tx> {
    map t | t in msgs :: TxOf(msgs[t])
  }

  /** How many of the first `n` decided transactions were committed, signed by `a`, and neither short-term
      clob nor timestamp-nonce transactions. */
  function Counted(msgs: map<Tid, Msg>, s: State, n: nat, a: Addr): nat
    requires n <= |s.order|
  {
    if n == 0 then 0
    else
      var t := s.order[n - 1];
      Counted(msgs, s, n - 1, a) +
      if t in msgs && DidCommit(s, t) && a in msgs[t].signers && !IsShortTerm(msgs[t]) && !IsTimestampNonce(msgs[t])
      then 1 else 0
  }

  /** What one decided transaction does to an account's sequence number. */
  lemma DecidedSequence(m: Msg, before: Store, a: Addr)
    ensures Get(After(TxOf(m), before), Sequence(a)) == Get(before, Sequence(a)) +
            if Result(TxOf(m), before).Committed? && a in m.signers && !IsShortTerm(m) && !IsTimestampNonce(m)
            then 1 else 0
  {
    AfterSequence(TxOf(m), before, a);
    PlanIncrements(m);
    if !FlagsKnown(m) {
      UnknownFlagRejects(m, before);
    }
  }

  lemma {:induction false} SequencesUpTo(msgs: map<Tid, Msg>, store: Store, s: State, n: nat, a: Addr)
    requires s.txs == TxsOf(msgs) && OrderKnown(s.txs, s.order) && n <= |s.order|
    requires forall j :: 0 <= j < |s.order| ==> OutcomeOk(s, store, j)
    ensures Get(AfterAll(s.txs, store, s.order[..n]), Sequence(a)) == Get(store, Sequence(a)) + Counted(msgs, s, n, a)
  {
    if n > 0 {
      var t := s.order[n - 1];
      SequencesUpTo(msgs, store, s, n - 1, a);
      AfterAllLast(s.txs, store, s.order, n);
      assert OutcomeOk(s, store, n - 1);
      assert s.txs[t] == TxOf(msgs[t]);
      DecidedSequence(msgs[t], AfterAll(s.txs, store, s.order[..n - 1]), a);
    }
  }

  /** In every run an account's sequence number is its start plus the number of committed transactions
      it signed that were neither short-term clob nor timestamp-nonce transactions. */
  lemma SequenceNumbers(msgs: map<Tid, Msg>, store: Store, sched: Schedule, s: State, a: Addr)
    requires Runs(Init(TxsOf(msgs), store), sched, s)
    ensures Get(Settled(s), Sequence(a)) == Get(store, Sequence(a)) + Counted(msgs, s, |s.order|, a)
  {
    RunKeepsInv(TxsOf(msgs), store, sched, s);
    SequencesUpTo(msgs, store, s, |s.order|, a);
    assert s.order[..|s.order|] == s.order;
  }
}
