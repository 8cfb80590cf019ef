/** Every run of concurrent `checkTx` handlers ends, and every run can be completed. */
module AnteTermination {
  import opened Basics
  import opened AnteSerial
  import opened AnteProtocol
  import opened AnteProof
  import opened AnteRuns

  // ---- How much is left to do ----

  function Left(tx: Tx, done: nat): nat {
    if done <= Length(tx) then Length(tx) - done else 0
  }

  /** Steps left to a handler, the writing of single keys apart: how many keys there will be to write is
      not known before the last decorator has run. */
  function Stage(tx: Tx, h: Handler): nat {
    match h.pc
    case Start => 8 + Length(tx) + |tx.signers|
    case Locking => 7 + Length(tx) + |tx.signers - h.held|
    case Early(i) => 6 + Left(tx, i)
    case Late(i) => 4 + Left(tx, i)
    case Writing => 3
    case UnlockGlobal => 2
    case UnlockRows => 1
    case Done => 0
  }

  function Keys(h: Handler): nat {
    if h.pc.Writing? then |h.branch| else 0
  }

  function Weight(s: State, t: Tid, keys: bool): nat {
    if !Known(s, t) then 0 else if keys then Keys(s.handlers[t]) else Stage(s.txs[t], s.handlers[t])
  }

  ghost function Total(s: State, ts: set<Tid>, keys: bool): nat {
    if ts == {} then 0 else Weight(s, Min(ts), keys) + Total(s, ts - {Min(ts)}, keys)
  }

  ghost function Stages(s: State): nat { Total(s, s.handlers.Keys, false) }

  ghost function KeysLeft(s: State): nat { Total(s, s.handlers.Keys, true) }

  /** There is less to do: fewer stages, or as many and fewer keys to write. */
  ghost predicate Less(s': State, s: State) {
    Stages(s') < Stages(s) || (Stages(s') == Stages(s) && KeysLeft(s') < KeysLeft(s))
  }

  lemma {:induction false} TotalSame(s: State, s': State, ts: set<Tid>, keys: bool)
    requires forall u :: u in ts ==> Weight(s', u, keys) == Weight(s, u, keys)
    ensures Total(s', ts, keys) == Total(s, ts, keys)
  {
    if ts != {} {
      TotalSame(s, s', ts - {Min(ts)}, keys);
    }
  }

  lemma {:induction false} TotalLess(s: State, s': State, ts: set<Tid>, t: Tid, keys: bool)
    requires t in ts && Weight(s', t, keys) < Weight(s, t, keys)
    requires forall u :: u in ts && u != t ==> Weight(s', u, keys) == Weight(s, u, keys)
    ensures Total(s', ts, keys) < Total(s, ts, keys)
  {
    if t == Min(ts) {
      TotalSame(s, s', ts - {t}, keys);
    } else {
      TotalLess(s, s', ts - {Min(ts)}, t, keys);
    }
  }

  // ---- Every step does something ----

  /** A step moves one handler only. */
  lemma StepMoves(s: State, t: Tid, k: Key)
    requires Enabled(s, t, k)
    ensures OnlyMoves(s, Step(s, t, k), t)
  {
  }

  lemma RowTaken(signers: set<Addr>, held: set<Addr>, a: Addr)
    requires a in signers && a !in held
    ensures |signers - (held + {a})| < |signers - held|
  {
    assert signers - held == (signers - (held + {a})) + {a};
  }

  lemma KeyWritten(branch: Store, k: Key)
    requires k in branch
    ensures |branch - {k}| < |branch|
  {
    assert (branch - {k}).Keys == branch.Keys - {k};
    assert |branch.Keys| == |branch| && |(branch - {k}).Keys| == |branch - {k}|;
  }

  /** A handler's move from `h` to `h'` leaves it less to do. */
  predicate Advances(tx: Tx, h: Handler, h': Handler) {
    if h.pc.Writing? && h.branch != map[] then h'.pc.Writing? && Keys(h') < Keys(h) else Stage(tx, h') < Stage(tx, h)
  }

  lemma DecoratorProgress(s: State, t: Tid, i: nat)
    requires Known(s, t) && i < Length(s.txs[t]) && s.handlers[t].pc == (if IsLate(s.txs[t], i) then Late(i) else Early(i))
    ensures Advances(s.txs[t], s.handlers[t], RunDecorator(s, t, i).handlers[t])
  {
  }

  lemma LockProgress(s: State, t: Tid, k: Key)
    requires Enabled(s, t, k) && s.handlers[t].pc.Locking?
    ensures Advances(s.txs[t], s.handlers[t], Step(s, t, k).handlers[t])
  {
    var tx, h := s.txs[t], s.handlers[t];
    if h.held < tx.signers {
      RowTaken(tx.signers, h.held, NextRow(tx, h));
    }
  }

  lemma WriteProgress(s: State, t: Tid, k: Key)
    requires Enabled(s, t, k) && s.handlers[t].pc.Writing?
    ensures Advances(s.txs[t], s.handlers[t], Step(s, t, k).handlers[t])
  {
    if s.handlers[t].branch != map[] {
      KeyWritten(s.handlers[t].branch, k);
    }
  }

  lemma TurnProgress(s: State, t: Tid, k: Key)
    requires Enabled(s, t, k) && !s.handlers[t].pc.Locking? && !s.handlers[t].pc.Writing?
    requires s.handlers[t].pc.Early? ==> s.handlers[t].pc.done == |s.txs[t].early|
    requires s.handlers[t].pc.Late? ==> s.handlers[t].pc.done >= Length(s.txs[t])
    ensures Advances(s.txs[t], s.handlers[t], Step(s, t, k).handlers[t])
  {
  }

  lemma WithinTx(s: State, t: Tid)
    requires HandlerOk(s, t)
    ensures s.handlers[t].pc.Early? ==> s.handlers[t].pc.done <= |s.txs[t].early|
    ensures s.handlers[t].pc.Late? ==> |s.txs[t].early| <= s.handlers[t].pc.done
  {
  }

  /** The handler that steps has less to do. */
  lemma HandlerProgress(s: State, t: Tid, k: Key)
    requires Enabled(s, t, k)
    requires s.handlers[t].pc.Early? ==> s.handlers[t].pc.done <= |s.txs[t].early|
    requires s.handlers[t].pc.Late? ==> |s.txs[t].early| <= s.handlers[t].pc.done
    ensures Advances(s.txs[t], s.handlers[t], Step(s, t, k).handlers[t])
  {
    var tx, pc := s.txs[t], s.handlers[t].pc;
    if pc.Locking? {
      LockProgress(s, t, k);
    } else if pc.Writing? {
      WriteProgress(s, t, k);
    } else if (pc.Early? && pc.done < |tx.early|) || (pc.Late? && pc.done < Length(tx)) {
      DecoratorProgress(s, t, pc.done);
    } else {
      TurnProgress(s, t, k);
    }
  }

  /** Whichever handler steps, there is less to do afterwards. */
  lemma StepProgress(s: State, init: Store, move: (Tid, Key), s': State)
    requires Inv(s, init) && Moves(s, move, s')
    ensures Less(s', s)
  {
    var t := move.0;
    assert HandlerOk(s, t);
    StepMoves(s, t, move.1);
    WithinTx(s, t);
    HandlerProgress(s, t, move.1);
    assert s'.handlers.Keys == s.handlers.Keys;
    if s.handlers[t].pc.Writing? && s.handlers[t].branch != map[] {
      TotalSame(s, s', s.handlers.Keys, false);
      TotalLess(s, s', s.handlers.Keys, t, true);
    } else {
      TotalLess(s, s', s.handlers.Keys, t, false);
    }
  }

  // ---- Runs end ----

  /** No run goes on for ever: in any sequence of states that starts with a run's, some step is not taken. */
  lemma EveryRunEnds(txs: map<Tid, Tx>, store: Store, states: nat -> State, moves: nat -> (Tid, Key))
    requires states(0) == Init(txs, store)
    ensures exists i: nat :: !Moves(states(i), moves(i), states(i + 1))
  {
    InitInv(txs, store);
    StopsAfter(store, states, moves, 0);
  }

  lemma {:induction false} StopsAfter(init: Store, states: nat -> State, moves: nat -> (Tid, Key), i: nat)
    requires Inv(states(i), init)
    ensures exists j: nat :: !Moves(states(j), moves(j), states(j + 1))
    decreases Stages(states(i)), KeysLeft(states(i))
  {
    if Moves(states(i), moves(i), states(i + 1)) {
      MoveKeepsInv(states(i), init, moves(i), states(i + 1));
      StepProgress(states(i), init, moves(i), states(i + 1));
      StopsAfter(init, states, moves, i + 1);
    }
  }

  ghost predicate AllDone(s: State) {
    forall t :: t in s.handlers ==> s.handlers[t].pc.Done?
  }

  /** Every run can be continued until all handlers are done; the locks are then free, and every
      transaction has its place in the order. */
  lemma {:induction false} EveryRunCompletes(txs: map<Tid, Tx>, store: Store, sched: Schedule, s: State)
    returns (sched': Schedule, end: State)
    requires Runs(Init(txs, store), sched, s)
    ensures sched <= sched' && Runs(Init(txs, store), sched', end)
    ensures AllDone(end) && end.global.None? && end.rows == map[]
    ensures forall t :: t in txs ==> t in end.order
    decreases Stages(s), KeysLeft(s)
  {
    RunKeepsInv(txs, store, sched, s);
    if AllDone(s) {
      AllReleased(s, store);
      return sched, s;
    }
    var move, next := NextMove(s, store);
    RunExtends(Init(txs, store), sched, s, move, next);
    sched', end := EveryRunCompletes(txs, store, sched + [move], next);
  }

  lemma NextMove(s: State, init: Store) returns (move: (Tid, Key), next: State)
    requires Inv(s, init) && !AllDone(s)
    ensures Moves(s, move, next) && Less(next, s)
  {
    var t :| t in s.handlers && !s.handlers[t].pc.Done?;
    SomeoneCanStep(s, init, t);
    var u, k :| Enabled(s, u, k) && Unfinished(s, u);
    move, next := (u, k), Step(s, u, k);
    StepProgress(s, init, move, next);
  }

  lemma RunExtends(start: State, sched: Schedule, s: State, move: (Tid, Key), next: State)
    requires Runs(start, sched, s) && Moves(s, move, next)
    ensures Runs(start, sched + [move], next)
  {
    assert (sched + [move])[..|sched|] == sched;
  }

  lemma AllReleased(s: State, init: Store)
    requires Inv(s, init) && AllDone(s)
    ensures s.global.None? && s.rows == map[] && forall t :: t in s.txs ==> t in s.order
  {
    forall t | t in s.txs
      ensures t in s.order && s.handlers[t].held == {} && s.global != Some(t)
    {
      assert HandlerOk(s, t);
    }
  }
}
