/** Every run of the concurrent handlers is equivalent to running their transactions one by one. */
module AnteProof {
  import opened Basics
  import opened AnteSerial
  import opened AnteProtocol

  // ---- What a step by `t` leaves alone ----

  ghost predicate OnlyMoves(s: State, s': State, t: Tid) {
    && s'.txs == s.txs
    && s'.handlers.Keys == s.handlers.Keys
    && forall u :: u in s.handlers && u != t ==> s'.handlers[u] == s.handlers[u]
  }

  lemma OtherOk(s: State, s': State, t: Tid, u: Tid)
    requires OnlyMoves(s, s', t) && u != t && HandlerOk(s, u)
    requires s'.global == Some(u) <==> s.global == Some(u)
    requires Owns(s'.rows, s.handlers[u].held, u)
    requires u in s'.order <==> u in s.order
    requires var h := s.handlers[u];
             (h.pc.Early? || h.pc.Late? ==>
                Prefix(s.txs[u], Settled(s'), h.pc.done) == Prefix(s.txs[u], Settled(s), h.pc.done))
    ensures HandlerOk(s', u)
  {
  }

  /** Handlers that both hold all their rows have no signer in common. */
  lemma RowsApart(s: State, init: Store, t: Tid, u: Tid)
    requires Inv(s, init) && t in s.txs && u in s.txs && t != u
    requires HoldsRows(s.handlers[t].pc) && HoldsRows(s.handlers[u].pc)
    ensures s.txs[t].signers !! s.txs[u].signers
  {
    assert HandlerOk(s, t) && HandlerOk(s, u);
    assert Owns(s.rows, s.txs[t].signers, t) && Owns(s.rows, s.txs[u].signers, u);
  }

  /** What a handler at work reads through its branch is what the settled store holds. */
  lemma ReadsSettled(s: State, init: Store, t: Tid)
    requires Inv(s, init) && t in s.txs
    ensures s.handlers[t].pc.Early? ==> Agree(s.store, Settled(s), s.txs[t].signers)
    ensures s.handlers[t].pc.Late? ==> s.store == Settled(s)
  {
    assert HandlerOk(s, t);
    if s.handlers[t].pc.Early? && s.global.Some? {
      var w := s.global.value;
      assert HandlerOk(s, w);
      if s.handlers[w].pc.Writing? {
        RowsApart(s, init, t, w);
        DisjointAgree(s.store, s.handlers[w].branch, s.txs[t].signers, s.txs[w].signers);
      }
    }
  }

  // ---- Putting the invariant back together ----

  lemma NoDecision(s: State, s': State, init: Store, t: Tid)
    requires Linear(s, init) && OnlyMoves(s, s', t) && t in s.handlers
    requires s'.order == s.order && Settled(s') == Settled(s)
    requires s'.handlers[t].outcome == s.handlers[t].outcome
    ensures Linear(s', init)
  {
    forall j | 0 <= j < |s'.order|
      ensures OutcomeOk(s', init, j)
    {
      assert OutcomeOk(s, init, j);
    }
  }

  lemma Decision(s: State, s': State, init: Store, t: Tid)
    requires Linear(s, init) && OnlyMoves(s, s', t) && t in s.txs && t in s.handlers
    requires t !in s.order && s'.order == s.order + [t]
    requires s'.handlers[t].outcome == Some(Result(s.txs[t], Settled(s)))
    requires Settled(s') == After(s.txs[t], Settled(s))
    ensures Linear(s', init)
  {
    var n := |s.order|;
    assert s'.order[..n] == s.order && s'.order[n] == t;
    forall j | 0 <= j < |s'.order|
      ensures OutcomeOk(s', init, j)
    {
      if j < n {
        assert s'.order[..j] == s.order[..j];
        assert OutcomeOk(s, init, j);
        assert s.order[j] in s.order;
      }
    }
  }

  /** As long as no row changes hands, the recorded holders stay right. */
  lemma OwnersSame(s: State, s': State, t: Tid)
    requires OwnersOk(s) && OnlyMoves(s, s', t) && t in s.handlers
    requires s'.rows == s.rows && s'.handlers[t].held == s.handlers[t].held
    requires s'.global.Some? ==> s'.global.value in s.txs
    ensures OwnersOk(s')
  {
    forall a | a in s'.rows
      ensures RowOk(s', a)
    {
      assert RowOk(s, a);
    }
  }

  lemma LowFirstGrows(held: set<Addr>, signers: set<Addr>, a: Addr)
    requires LowFirst(held, signers) && IsMin(a, signers - held)
    ensures LowFirst(held + {a}, signers)
  {
    forall x, b | x in held + {a} && b in signers && b !in held + {a}
      ensures x < b
    {
      assert b in signers - held;
    }
  }

  // ---- One lemma per kind of step ----

  /** Steps that touch neither the order, the settled store nor anyone else's locks. */
  lemma QuietStep(s: State, s': State, init: Store, t: Tid)
    requires Inv(s, init) && t in s.txs && OnlyMoves(s, s', t)
    requires s'.order == s.order && Settled(s') == Settled(s)
    requires s'.handlers[t].outcome == s.handlers[t].outcome
    requires forall u :: u in s.txs && u != t ==> (s'.global == Some(u) <==> s.global == Some(u))
    requires forall a :: a in s.rows && s.rows[a] != t ==> a in s'.rows && s'.rows[a] == s.rows[a]
    requires HandlerOk(s', t) && OwnersOk(s')
    ensures Inv(s', init)
  {
    assert HandlerOk(s, t);
    forall u | u in s.txs && u != t
      ensures HandlerOk(s', u)
    {
      assert HandlerOk(s, u);
      assert Owns(s.rows, s.handlers[u].held, u);
      OtherOk(s, s', t, u);
    }
    NoDecision(s, s', init, t);
  }

  /** Steps that reject the transaction. */
  lemma RejectStep(s: State, s': State, init: Store, t: Tid)
    requires Inv(s, init) && t in s.txs && OnlyMoves(s, s', t)
    requires s'.order == s.order + [t] && t !in s.order && Settled(s') == Settled(s)
    requires s'.rows == s.rows && s'.global == s.global
    requires s'.handlers[t].outcome == Some(Result(s.txs[t], Settled(s))) && Result(s.txs[t], Settled(s)).Rejected?
    requires HandlerOk(s', t) && OwnersOk(s')
    ensures Inv(s', init)
  {
    forall u | u in s.txs && u != t
      ensures HandlerOk(s', u)
    {
      assert HandlerOk(s, u);
      OtherOk(s, s', t, u);
    }
    Decision(s, s', init, t);
  }

  lemma StartStep(s: State, init: Store, t: Tid, k: Key)
    requires Inv(s, init) && Enabled(s, t, k) && s.handlers[t].pc.Start? && s.txs[t].pre.None?
    ensures Inv(Step(s, t, k), init)
  {
    var s' := Step(s, t, k);
    assert HandlerOk(s, t);
    OwnersSame(s, s', t);
    assert Settled(s') == Settled(s);
    assert LocksOk(s', t) && WorkOk(s', t);
    QuietStep(s, s', init, t);
  }

  lemma PreRejectStep(s: State, init: Store, t: Tid, k: Key)
    requires Inv(s, init) && Enabled(s, t, k) && s.handlers[t].pc.Start? && s.txs[t].pre.Some?
    ensures Inv(Step(s, t, k), init)
  {
    var s' := Step(s, t, k);
    assert HandlerOk(s, t);
    OwnersSame(s, s', t);
    assert Settled(s') == Settled(s);
    assert LocksOk(s', t) && WorkOk(s', t);
    RejectStep(s, s', init, t);
  }

  lemma BranchStep(s: State, init: Store, t: Tid, k: Key)
    requires Inv(s, init) && Enabled(s, t, k) && s.handlers[t].pc.Locking? && !(s.handlers[t].held < s.txs[t].signers)
    ensures Inv(Step(s, t, k), init)
  {
    var s' := Step(s, t, k);
    assert HandlerOk(s, t);
    OwnersSame(s, s', t);
    assert Settled(s') == Settled(s);
    QuietStep(s, s', init, t);
  }

  lemma LockStep(s: State, init: Store, t: Tid, k: Key)
    requires Inv(s, init) && Enabled(s, t, k) && s.handlers[t].pc.Locking? && s.handlers[t].held < s.txs[t].signers
    ensures Inv(Step(s, t, k), init)
  {
    var s' := Step(s, t, k);
    var tx, h := s.txs[t], s.handlers[t];
    var a := NextRow(tx, h);
    assert HandlerOk(s, t);
    LowFirstGrows(h.held, tx.signers, a);
    LockOwners(s, s', t, a);
    assert Settled(s') == Settled(s);
    assert LocksOk(s', t);
    QuietStep(s, s', init, t);
  }

  lemma LockOwners(s: State, s': State, t: Tid, a: Addr)
    requires OwnersOk(s) && OnlyMoves(s, s', t) && t in s.handlers && Owns(s.rows, s.handlers[t].held, t)
    requires a !in s.rows && s'.rows == s.rows[a := t] && s'.handlers[t].held == s.handlers[t].held + {a}
    requires s'.global == s.global
    ensures OwnersOk(s') && Owns(s'.rows, s'.handlers[t].held, t)
  {
    forall x | x in s'.rows
      ensures RowOk(s', x)
    {
      if x != a {
        assert RowOk(s, x);
      }
    }
  }

  lemma GlobalLockStep(s: State, init: Store, t: Tid, k: Key)
    requires Inv(s, init) && Enabled(s, t, k)
    requires s.handlers[t].pc.Early? && s.handlers[t].pc.done >= |s.txs[t].early|
    ensures Inv(Step(s, t, k), init)
  {
    var s' := Step(s, t, k);
    assert HandlerOk(s, t);
    OwnersSame(s, s', t);
    assert Settled(s') == Settled(s);
    QuietStep(s, s', init, t);
  }

  /** A decorator runs as it would alone on the settled store. */
  lemma DecoratorRunsAlone(s: State, init: Store, t: Tid, i: nat)
    requires Inv(s, init) && t in s.txs && i < Length(s.txs[t])
    requires s.handlers[t].pc == (if IsLate(s.txs[t], i) then Late(i) else Early(i))
    ensures Prefix(s.txs[t], Settled(s), i + 1)
         == Advance(s.txs[t], i, s.store, s.handlers[t].ctx, s.handlers[t].branch)
  {
    assert HandlerOk(s, t);
    ReadsSettled(s, init, t);
    if !IsLate(s.txs[t], i) {
      AdvanceAgrees(s.txs[t], i, s.store, Settled(s), s.handlers[t].ctx, s.handlers[t].branch);
    }
  }

  lemma PassSelf(s: State, s': State, t: Tid, pc: Pc, c: Context, b: Store)
    requires HandlerOk(s, t) && s' == Put(s, t, s.handlers[t].(pc := pc, ctx := c, branch := b))
    requires (s.handlers[t].pc.Early? && pc.Early?) || (s.handlers[t].pc.Late? && pc.Late?)
    requires pc.done <= Length(s.txs[t])
    requires if pc.Early? then pc.done <= |s.txs[t].early| else |s.txs[t].early| <= pc.done
    requires Prefix(s.txs[t], Settled(s), pc.done) == Running(c, b)
    ensures HandlerOk(s', t) && OnlyMoves(s, s', t) && Settled(s') == Settled(s)
  {
  }

  lemma DecoratorPasses(s: State, s': State, init: Store, t: Tid, pc: Pc, c: Context, b: Store)
    requires Inv(s, init) && t in s.txs && s' == Put(s, t, s.handlers[t].(pc := pc, ctx := c, branch := b))
    requires HandlerOk(s', t) && Settled(s') == Settled(s)
    ensures Inv(s', init)
  {
    OwnersSame(s, s', t);
    QuietStep(s, s', init, t);
  }

  lemma FailSelf(s: State, s': State, t: Tid, pc: Pc, e: nat)
    requires HandlerOk(s, t) && s' == Decide(s, t, s.handlers[t].(pc := pc), Rejected(e))
    requires (s.handlers[t].pc.Early? && pc.UnlockRows?) || (s.handlers[t].pc.Late? && pc.UnlockGlobal?)
    ensures HandlerOk(s', t) && Settled(s') == Settled(s) && t !in s.order
  {
  }

  lemma DecoratorFails(s: State, s': State, init: Store, t: Tid, pc: Pc, e: nat)
    requires Inv(s, init) && t in s.txs && s' == Decide(s, t, s.handlers[t].(pc := pc), Rejected(e))
    requires HandlerOk(s', t) && Settled(s') == Settled(s) && t !in s.order
    requires Result(s.txs[t], Settled(s)) == Rejected(e) && After(s.txs[t], Settled(s)) == Settled(s)
    ensures Inv(s', init)
  {
    OwnersSame(s, s', t);
    RejectStep(s, s', init, t);
  }

  /** A commit by `t` is invisible to every other handler. */
  lemma CommitOther(s: State, s': State, init: Store, t: Tid, u: Tid)
    requires Inv(s, init) && t in s.txs && u in s.txs && u != t && OnlyMoves(s, s', t)
    requires HoldsGlobal(s.handlers[t].pc)
    requires s'.rows == s.rows && s'.global == s.global && s'.order == s.order + [t]
    requires Settled(s') == Settled(s) + s.handlers[t].branch
    requires KeysInFrame(s.handlers[t].branch, s.txs[t].signers, true)
    ensures HandlerOk(s', u)
  {
    assert HandlerOk(s, u) && HandlerOk(s, t);
    if s.handlers[u].pc.Early? {
      RowsApart(s, init, t, u);
      DisjointAgree(Settled(s), s.handlers[t].branch, s.txs[u].signers, s.txs[t].signers);
      PrefixAgrees(s.txs[u], Settled(s), Settled(s'), s.handlers[u].pc.done);
    }
    OtherOk(s, s', t, u);
  }

  /** The commit: from here on the settled store holds all of the branch. */
  lemma CommitStep(s: State, init: Store, t: Tid, k: Key)
    requires Inv(s, init) && Enabled(s, t, k)
    requires s.handlers[t].pc.Late? && s.handlers[t].pc.done >= Length(s.txs[t])
    ensures Inv(Step(s, t, k), init)
  {
    var s' := Step(s, t, k);
    CommitSelf(s, s', init, t);
    OwnersSame(s, s', t);
    forall u | u in s.txs && u != t
      ensures HandlerOk(s', u)
    {
      CommitOther(s, s', init, t, u);
    }
    Decision(s, s', init, t);
  }

  lemma CommitSelf(s: State, s': State, init: Store, t: Tid)
    requires Inv(s, init) && t in s.txs
    requires s.handlers[t].pc.Late? && s.handlers[t].pc.done >= Length(s.txs[t])
    requires s' == Decide(s, t, s.handlers[t].(pc := Writing), Committed(s.handlers[t].ctx))
    ensures HandlerOk(s', t) && OnlyMoves(s, s', t) && OwnersOk(s) && t !in s.order
    ensures KeysInFrame(s.handlers[t].branch, s.txs[t].signers, true)
    ensures Settled(s') == Settled(s) + s.handlers[t].branch
    ensures Settled(s') == After(s.txs[t], Settled(s))
    ensures s'.handlers[t].outcome == Some(Result(s.txs[t], Settled(s)))
    ensures s'.global.Some? ==> s'.global.value in s.txs
  {
    assert HandlerOk(s, t);
    ReadsSettled(s, init, t);
    BranchInFrame(s.txs[t], Settled(s), Length(s.txs[t]));
  }

  lemma WriteKeyStep(s: State, init: Store, t: Tid, k: Key)
    requires Inv(s, init) && Enabled(s, t, k) && s.handlers[t].pc.Writing? && s.handlers[t].branch != map[]
    ensures Inv(Step(s, t, k), init)
  {
    var s' := Step(s, t, k);
    var b := s.handlers[t].branch;
    assert HandlerOk(s, t);
    OwnersSame(s, s', t);
    MoveKey(s.store, b, k);
    assert Settled(s') == Settled(s);
    assert LocksOk(s', t) && WorkOk(s', t);
    QuietStep(s, s', init, t);
  }

  /** Moving one binding from the overlay into the store changes nothing that shows through. */
  lemma MoveKey(s: Store, b: Store, k: Key)
    requires k in b
    ensures s[k := b[k]] + (b - {k}) == s + b
  {
  }

  lemma WriteDoneStep(s: State, init: Store, t: Tid, k: Key)
    requires Inv(s, init) && Enabled(s, t, k) && s.handlers[t].pc.Writing? && s.handlers[t].branch == map[]
    ensures Inv(Step(s, t, k), init)
  {
    var s' := Step(s, t, k);
    assert HandlerOk(s, t);
    OwnersSame(s, s', t);
    assert s.store + map[] == s.store;
    assert Settled(s') == Settled(s);
    assert LocksOk(s', t) && WorkOk(s', t);
    QuietStep(s, s', init, t);
  }

  lemma UnlockGlobalStep(s: State, init: Store, t: Tid, k: Key)
    requires Inv(s, init) && Enabled(s, t, k) && s.handlers[t].pc.UnlockGlobal?
    ensures Inv(Step(s, t, k), init)
  {
    var s' := Step(s, t, k);
    assert HandlerOk(s, t);
    OwnersSame(s, s', t);
    assert Settled(s') == Settled(s);
    QuietStep(s, s', init, t);
  }

  lemma UnlockRowsStep(s: State, init: Store, t: Tid, k: Key)
    requires Inv(s, init) && Enabled(s, t, k) && s.handlers[t].pc.UnlockRows?
    ensures Inv(Step(s, t, k), init)
  {
    var s' := Step(s, t, k);
    assert HandlerOk(s, t);
    assert OwnersOk(s') by {
      forall a | a in s'.rows
        ensures RowOk(s', a)
      {
        assert RowOk(s, a);
      }
    }
    assert Settled(s') == Settled(s);
    QuietStep(s, s', init, t);
  }

  lemma DecoratorStep(s: State, init: Store, t: Tid, i: nat)
    requires Inv(s, init) && t in s.txs && i < Length(s.txs[t])
    requires s.handlers[t].pc == (if IsLate(s.txs[t], i) then Late(i) else Early(i))
    ensures Inv(RunDecorator(s, t, i), init)
  {
    var tx := s.txs[t];
    assert HandlerOk(s, t);
    DecoratorRunsAlone(s, init, t, i);
    match Prefix(tx, Settled(s), i + 1)
    case Running(c, b) =>
      var pc := if IsLate(tx, i) then Late(i + 1) else Early(i + 1);
      PassSelf(s, RunDecorator(s, t, i), t, pc, c, b);
      DecoratorPasses(s, RunDecorator(s, t, i), init, t, pc, c, b);
    case Failed(e) =>
      var pc := if IsLate(tx, i) then UnlockGlobal else UnlockRows;
      FailedIsRejected(tx, Settled(s), i + 1);
      FailSelf(s, RunDecorator(s, t, i), t, pc, e);
      DecoratorFails(s, RunDecorator(s, t, i), init, t, pc, e);
  }

  lemma StepKeepsInv(s: State, init: Store, t: Tid, k: Key)
    requires Inv(s, init) && Enabled(s, t, k)
    ensures Inv(Step(s, t, k), init)
  {
    assert HandlerOk(s, t);
    match s.handlers[t].pc
    case Start =>
      if s.txs[t].pre.Some? {
        PreRejectStep(s, init, t, k);
      } else {
        StartStep(s, init, t, k);
      }
    case Locking =>
      if s.handlers[t].held < s.txs[t].signers {
        LockStep(s, init, t, k);
      } else {
        BranchStep(s, init, t, k);
      }
    case Early(i) =>
      if i < |s.txs[t].early| {
        DecoratorStep(s, init, t, i);
      } else {
        GlobalLockStep(s, init, t, k);
      }
    case Late(i) =>
      if i < Length(s.txs[t]) {
        DecoratorStep(s, init, t, i);
      } else {
        CommitStep(s, init, t, k);
      }
    case Writing =>
      if s.handlers[t].branch == map[] {
        WriteDoneStep(s, init, t, k);
      } else {
        WriteKeyStep(s, init, t, k);
      }
    case UnlockGlobal => UnlockGlobalStep(s, init, t, k);
    case UnlockRows => UnlockRowsStep(s, init, t, k);
  }
}
