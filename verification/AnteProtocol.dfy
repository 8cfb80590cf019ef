/**
Concurrent non-simulated `checkTx` handlers as a state machine. Each handler takes its signers' row
locks in address order, branches the store, runs its early decorators, takes the global lock, runs
its late decorators, writes its branch back key by key, and releases the locks in reverse. The
branch is a read-through overlay: reads that miss it see the shared store as it is at that moment.
*/
module AnteProtocol {
  import opened Basics
  import opened AnteSerial

  datatype Pc =
    | Start
    | Locking
    | Early(done: nat)
    | Late(done: nat)
    | Writing
    | UnlockGlobal
    | UnlockRows
    | Done

  /** `branch` is the overlay; while writing it holds what is still to be written. */
  datatype Handler = Handler(pc: Pc, held: set<Addr>, ctx: Context, branch: Store, outcome: Option<Outcome>)

  /** `order` lists handlers in the order in which their outcome was decided. */
  datatype State = State(
    txs: map<Tid, Tx>,
    handlers: map<Tid, Handler>,
    rows: map<Addr, Tid>,
    global: Option<Tid>,
    store: Store,
    order: seq<Tid>)

  function Init(txs: map<Tid, Tx>, store: Store): State {
    State(txs, map t | t in txs :: Handler(Start, {}, [], map[], None), map[], None, store, [])
  }

  // ---- Steps ----

  predicate Known(s: State, t: Tid) {
    t in s.handlers && t in s.txs
  }

  ghost predicate IsMin(a: Addr, of: set<Addr>) {
    a in of && forall b :: b in of ==> a <= b
  }

  /** A non-empty set of addresses has a least one. */
  lemma {:induction false} MinExists(of: set<Addr>)
    requires of != {}
    ensures exists a :: IsMin(a, of)
  {
    var a :| a in of;
    if of == {a} {
      assert IsMin(a, of);
    } else {
      MinExists(of - {a});
      var b :| IsMin(b, of - {a});
      assert forall x :: x in of ==> x == a || x in of - {a};
      assert IsMin(if a < b then a else b, of);
    }
  }

  ghost function Min(of: set<Addr>): (a: Addr)
    requires of != {}
    ensures IsMin(a, of)
  {
    MinExists(of);
    var a :| IsMin(a, of);
    a
  }

  /** The row a handler asks for next. */
  ghost function NextRow(tx: Tx, h: Handler): Addr
    requires h.held < tx.signers
  {
    var a :| a in tx.signers && a !in h.held;
    assert a in tx.signers - h.held;
    Min(tx.signers - h.held)
  }

  /** A handler can step unless it waits for a lock; `k` is the key to be written, when writing. */
  ghost predicate Enabled(s: State, t: Tid, k: Key) {
    && Known(s, t)
    && var tx, h := s.txs[t], s.handlers[t];
    match h.pc
    case Start => true
    case Locking => h.held < tx.signers ==> NextRow(tx, h) !in s.rows
    case Early(i) => i < |tx.early| || s.global.None?
    case Late(i) => true
    case Writing => h.branch == map[] || k in h.branch
    case UnlockGlobal => true
    case UnlockRows => true
    case Done => false
  }

  function Put(s: State, t: Tid, h: Handler): State {
    s.(handlers := s.handlers[t := h])
  }

  /** The handler's outcome is decided here. */
  function Decide(s: State, t: Tid, h: Handler, o: Outcome): State {
    Put(s, t, h.(outcome := Some(o))).(order := s.order + [t])
  }

  function RunDecorator(s: State, t: Tid, i: nat): State
    requires Known(s, t) && i < Length(s.txs[t])
  {
    var tx, h := s.txs[t], s.handlers[t];
    match Advance(tx, i, s.store, h.ctx, h.branch)
    case Failed(e) => Decide(s, t, h.(pc := if IsLate(tx, i) then UnlockGlobal else UnlockRows), Rejected(e))
    case Running(c, b) => Put(s, t, h.(pc := if IsLate(tx, i) then Late(i + 1) else Early(i + 1), ctx := c, branch := b))
  }

  ghost function Step(s: State, t: Tid, k: Key): State
    requires Enabled(s, t, k)
  {
    var tx, h := s.txs[t], s.handlers[t];
    match h.pc
    case Start =>
      if tx.pre.Some? then Decide(s, t, h.(pc := Done), Rejected(tx.pre.value))
      else Put(s, t, h.(pc := Locking))
    case Locking =>
      if h.held < tx.signers then
        var a := NextRow(tx, h);
        Put(s, t, h.(held := h.held + {a})).(rows := s.rows[a := t])
      else Put(s, t, h.(pc := Early(0)))
    case Early(i) =>
      if i < |tx.early| then RunDecorator(s, t, i)
      else Put(s, t, h.(pc := Late(|tx.early|))).(global := Some(t))
    case Late(i) =>
      if i < Length(tx) then RunDecorator(s, t, i)
      else Decide(s, t, h.(pc := Writing), Committed(h.ctx))
    case Writing =>
      if h.branch == map[] then Put(s, t, h.(pc := UnlockGlobal))
      else Put(s, t, h.(branch := h.branch - {k})).(store := s.store[k := h.branch[k]])
    case UnlockGlobal => Put(s, t, h.(pc := UnlockRows)).(global := None)
    case UnlockRows => Put(s, t, h.(pc := Done, held := {})).(rows := s.rows - h.held)
    case Done => s
  }

  /** A schedule names, step by step, the handler that moves and the key it writes, if it writes. */
  type Schedule = seq<(Tid, Key)>

  ghost predicate Moves(s: State, move: (Tid, Key), s': State) {
    Enabled(s, move.0, move.1) && s' == Step(s, move.0, move.1)
  }

  ghost predicate Runs(s: State, sched: Schedule, end: State)
    decreases |sched|
  {
    if |sched| == 0 then end == s
    else
      var before, move := sched[..|sched| - 1], sched[|sched| - 1];
      exists mid :: Runs(s, before, mid) && Moves(mid, move, end)
  }

  // ---- The invariant ----

  predicate HoldsGlobal(pc: Pc) {
    pc.Late? || pc.Writing? || pc.UnlockGlobal?
  }

  predicate HoldsRows(pc: Pc) {
    pc.Early? || pc.UnlockRows? || HoldsGlobal(pc)
  }

  predicate Decided(pc: Pc) {
    pc.Writing? || pc.UnlockGlobal? || pc.UnlockRows? || pc.Done?
  }

  /** The store once the write in progress, if any, is complete. */
  function Settled(s: State): Store {
    if s.global.Some? && s.global.value in s.handlers && s.handlers[s.global.value].pc.Writing?
    then s.store + s.handlers[s.global.value].branch
    else s.store
  }

  /** Rows are taken in address order. */
  ghost predicate LowFirst(held: set<Addr>, signers: set<Addr>) {
    forall a, b :: a in held && b in signers && b !in held ==> a < b
  }

  ghost predicate Owns(rows: map<Addr, Tid>, held: set<Addr>, t: Tid) {
    forall a :: a in held ==> a in rows && rows[a] == t
  }

  /** Which locks a handler holds follows from where it is. */
  ghost predicate LocksOk(s: State, t: Tid)
    requires Known(s, t)
  {
    var tx, h := s.txs[t], s.handlers[t];
    && h.held <= tx.signers
    && (h.pc.Start? || h.pc.Done? ==> h.held == {})
    && (HoldsRows(h.pc) ==> h.held == tx.signers)
    && LowFirst(h.held, tx.signers)
    && Owns(s.rows, h.held, t)
    && (s.global == Some(t) <==> HoldsGlobal(h.pc))
  }

  /** A handler at work is exactly where it would be, had it run alone from the settled store. */
  ghost predicate WorkOk(s: State, t: Tid)
    requires Known(s, t)
  {
    var tx, h := s.txs[t], s.handlers[t];
    && (h.pc.Early? || h.pc.Late? ==>
          && h.pc.done <= Length(tx)
          && (if h.pc.Early? then h.pc.done <= |tx.early| else |tx.early| <= h.pc.done)
          && Prefix(tx, Settled(s), h.pc.done) == Running(h.ctx, h.branch))
    && (h.pc.Early? || h.pc.Late? || h.pc.Locking? ==> tx.pre.None?)
    && (h.pc.Start? || h.pc.Locking? ==> h.ctx == [] && h.branch == map[])
    && (h.pc.Writing? ==> KeysInFrame(h.branch, tx.signers, true))
  }

  ghost predicate HandlerOk(s: State, t: Tid) {
    && Known(s, t)
    && LocksOk(s, t)
    && WorkOk(s, t)
    && (s.handlers[t].outcome.Some? <==> Decided(s.handlers[t].pc))
    && (t in s.order <==> s.handlers[t].outcome.Some?)
  }

  ghost predicate RowOk(s: State, a: Addr)
    requires a in s.rows
  {
    s.rows[a] in s.handlers && a in s.handlers[s.rows[a]].held
  }

  ghost predicate OrderKnown(txs: map<Tid, Tx>, order: seq<Tid>) {
    forall t :: t in order ==> t in txs
  }

  /** The outcome decided at place `j` is the one the transaction has when run alone after those
      before it. */
  ghost predicate OutcomeOk(s: State, init: Store, j: nat)
    requires j < |s.order| && OrderKnown(s.txs, s.order)
  {
    && s.order[j] in s.handlers
    && s.handlers[s.order[j]].outcome == Some(Result(s.txs[s.order[j]], AfterAll(s.txs, init, s.order[..j])))
  }

  /** Handlers, locks and rows fit together. */
  ghost predicate Consistent(s: State) {
    && s.handlers.Keys == s.txs.Keys
    && (forall t :: t in s.txs ==> HandlerOk(s, t))
    && OwnersOk(s)
  }

  /** Whoever is recorded as holding a lock is a handler that holds it. */
  ghost predicate OwnersOk(s: State) {
    && (forall a :: a in s.rows ==> RowOk(s, a))
    && (s.global.Some? ==> s.global.value in s.txs)
  }

  /** The settled store and all outcomes are those of running the decided transactions one by one. */
  ghost predicate Linear(s: State, init: Store) {
    && OrderKnown(s.txs, s.order)
    && (forall i, j :: 0 <= i < j < |s.order| ==> s.order[i] != s.order[j])
    && Settled(s) == AfterAll(s.txs, init, s.order)
    && (forall j :: 0 <= j < |s.order| ==> OutcomeOk(s, init, j))
  }

  ghost predicate Inv(s: State, init: Store) {
    Consistent(s) && Linear(s, init)
  }
}
