/** The chains of decorators of the two kinds of transaction that lock: every one of them counts, in the
    order of the handler, and only those under the global lock see the shared state. */
module AnteChains {
  import opened Basics
  import opened AnteSerial
  import opened AnteRuns
  import opened AnteWrites

  ghost predicate Passes(run: Run) {
    forall c, s :: run(c, s).Pass?
  }

  ghost predicate Rejects(run: Run, e: nat) {
    forall c, s :: run(c, s) == Reject(e)
  }

  ghost predicate PassesAt(tx: Tx, j: nat)
    requires j < Length(tx)
  {
    DecoratorAt(tx, j).Work? ==> Passes(DecoratorAt(tx, j).run)
  }

  ghost predicate RejectsAt(tx: Tx, j: nat, e: nat)
    requires j < Length(tx)
  {
    DecoratorAt(tx, j).Work? && Rejects(DecoratorAt(tx, j).run, e)
  }

  lemma {:induction false} PassesThrough(tx: Tx, s: Store, i: nat)
    requires i <= Length(tx) && forall j :: 0 <= j < i ==> PassesAt(tx, j)
    ensures Prefix(tx, s, i).Running?
  {
    if i > 0 {
      PassesThrough(tx, s, i - 1);
      assert PassesAt(tx, i - 1);
    }
  }

  lemma FailsNext(tx: Tx, s: Store, i: nat, e: nat)
    requires i < Length(tx) && RejectsAt(tx, i, e) && Prefix(tx, s, i).Running?
    ensures Prefix(tx, s, i + 1) == Failed(e)
  {
  }

  /** The first decorator that rejects gives its error. */
  lemma StopsAt(tx: Tx, s: Store, i: nat, e: nat)
    requires tx.pre.None? && i < Length(tx) && RejectsAt(tx, i, e)
    requires forall j :: 0 <= j < i ==> PassesAt(tx, j)
    ensures Result(tx, s) == Rejected(e)
  {
    PassesThrough(tx, s, i);
    FailsNext(tx, s, i, e);
    FailedIsRejected(tx, s, i + 1);
  }

  /** No decorator's rejection is overruled. */
  lemma Blocked(tx: Tx, s: Store, i: nat, e: nat)
    requires i < Length(tx) && RejectsAt(tx, i, e)
    ensures Result(tx, s).Rejected?
  {
    if tx.pre.None? {
      if Prefix(tx, s, i).Running? {
        FailsNext(tx, s, i, e);
        FailedIsRejected(tx, s, i + 1);
      } else {
        FailedIsRejected(tx, s, i);
      }
    }
  }

  lemma AllPassCommits(tx: Tx, s: Store)
    requires tx.pre.None? && forall j :: 0 <= j < Length(tx) ==> PassesAt(tx, j)
    ensures Result(tx, s).Committed?
  {
    PassesThrough(tx, s, Length(tx));
  }

  /** What must hold for a clob transaction to get past its first `n` checks, in the handler's order. */
  ghost predicate ClobPasses(m: Msg, n: nat)
    requires m.ClobMsg?
  {
    && (n >= 1 ==> Passes(m.consumeTxSizeGas))
    && (n >= 2 ==> Passes(m.validateSigCount))
    && (n >= 3 ==> Passes(m.replayProtection))
    && (n >= 4 ==> Passes(m.sigVerification))
    && (n >= 5 ==> m.shortTerm.Is?)
    && (n >= 6 ==> m.timestampNonce.Is?)
    && (n >= 7 ==> Passes(m.clobRateLimit))
    && (n >= 8 ==> Passes(m.clob))
  }

  /** Where the decorators of a clob transaction stand. */
  lemma ClobPlaces(m: Msg)
    requires m.ClobMsg?
    ensures var tx, n := TxOf(m), 4 + |SequenceStep(m)|;
            && tx.pre == m.pre && tx.signers == m.signers && |tx.early| == n && Length(tx) == n + 2
            && DecoratorAt(tx, 0) == Work(m.consumeTxSizeGas)
            && DecoratorAt(tx, 1) == Work(m.validateSigCount)
            && DecoratorAt(tx, 2) == Work(m.replayProtection)
            && DecoratorAt(tx, 3) == Work(m.sigVerification)
            && (n == 5 ==> DecoratorAt(tx, 4) == SequenceStep(m)[0])
            && DecoratorAt(tx, n) == Work(m.clobRateLimit)
            && DecoratorAt(tx, n + 1) == Work(m.clob)
  {
  }

  lemma FlagStops(m: Msg, s: Store, e: nat)
    requires m.ClobMsg? && m.pre.None? && ClobPasses(m, 4)
    requires SequenceStep(m) == [Work(RejectWith(e))]
    ensures Result(TxOf(m), s) == Rejected(e)
  {
    ClobPlaces(m);
    StopsAt(TxOf(m), s, 4, e);
  }

  lemma ClobLatePlace(m: Msg)
    requires m.ClobMsg? && m.shortTerm.Is? && m.timestampNonce.Is?
    ensures |SequenceStep(m)| <= 1 && forall d :: d in SequenceStep(m) ==> d == IncrementSequence
  {
  }

  /** A clob transaction is rejected by the first of its checks that fails, with the error of that check,
      and committed if none fails. */
  lemma ClobChain(m: Msg, s: Store, e: nat)
    requires m.ClobMsg?
    ensures m.pre == Some(e) ==> Result(TxOf(m), s) == Rejected(e)
    ensures m.pre.None? && Rejects(m.consumeTxSizeGas, e) ==> Result(TxOf(m), s) == Rejected(e)
    ensures m.pre.None? && ClobPasses(m, 1) && Rejects(m.validateSigCount, e) ==> Result(TxOf(m), s) == Rejected(e)
    ensures m.pre.None? && ClobPasses(m, 2) && Rejects(m.replayProtection, e) ==> Result(TxOf(m), s) == Rejected(e)
    ensures m.pre.None? && ClobPasses(m, 3) && Rejects(m.sigVerification, e) ==> Result(TxOf(m), s) == Rejected(e)
    ensures m.pre.None? && ClobPasses(m, 4) && m.shortTerm == FlagError(e) ==> Result(TxOf(m), s) == Rejected(e)
    ensures m.pre.None? && ClobPasses(m, 5) && m.timestampNonce == FlagError(e) ==> Result(TxOf(m), s) == Rejected(e)
    ensures m.pre.None? && ClobPasses(m, 6) && Rejects(m.clobRateLimit, e) ==> Result(TxOf(m), s) == Rejected(e)
    ensures m.pre.None? && ClobPasses(m, 7) && Rejects(m.clob, e) ==> Result(TxOf(m), s) == Rejected(e)
    ensures m.pre.None? && ClobPasses(m, 8) ==> Result(TxOf(m), s).Committed?
  {
    if m.pre.None? {
      ClobEarlyChain(m, s, e);
      ClobLateChain(m, s, e);
      if ClobPasses(m, 4) && m.shortTerm == FlagError(e) {
        FlagStops(m, s, e);
      } else if ClobPasses(m, 5) && m.timestampNonce == FlagError(e) {
        FlagStops(m, s, e);
      }
    }
  }

  lemma ClobEarlyChain(m: Msg, s: Store, e: nat)
    requires m.ClobMsg? && m.pre.None?
    ensures Rejects(m.consumeTxSizeGas, e) ==> Result(TxOf(m), s) == Rejected(e)
    ensures ClobPasses(m, 1) && Rejects(m.validateSigCount, e) ==> Result(TxOf(m), s) == Rejected(e)
    ensures ClobPasses(m, 2) && Rejects(m.replayProtection, e) ==> Result(TxOf(m), s) == Rejected(e)
    ensures ClobPasses(m, 3) && Rejects(m.sigVerification, e) ==> Result(TxOf(m), s) == Rejected(e)
  {
    var tx := TxOf(m);
    ClobPlaces(m);
    if Rejects(m.consumeTxSizeGas, e) {
      StopsAt(tx, s, 0, e);
    }
    if ClobPasses(m, 1) && Rejects(m.validateSigCount, e) {
      StopsAt(tx, s, 1, e);
    }
    if ClobPasses(m, 2) && Rejects(m.replayProtection, e) {
      StopsAt(tx, s, 2, e);
    }
    if ClobPasses(m, 3) && Rejects(m.sigVerification, e) {
      StopsAt(tx, s, 3, e);
    }
  }

  lemma ClobLateChain(m: Msg, s: Store, e: nat)
    requires m.ClobMsg? && m.pre.None?
    ensures ClobPasses(m, 6) && Rejects(m.clobRateLimit, e) ==> Result(TxOf(m), s) == Rejected(e)
    ensures ClobPasses(m, 7) && Rejects(m.clob, e) ==> Result(TxOf(m), s) == Rejected(e)
    ensures ClobPasses(m, 8) ==> Result(TxOf(m), s).Committed?
  {
    var tx, n := TxOf(m), 4 + |SequenceStep(m)|;
    ClobPlaces(m);
    if ClobPasses(m, 6) {
      ClobLatePlace(m);
      assert forall j :: 0 <= j < n ==> PassesAt(tx, j);
      if Rejects(m.clobRateLimit, e) {
        StopsAt(tx, s, n, e);
      }
      if ClobPasses(m, 7) && Rejects(m.clob, e) {
        StopsAt(tx, s, n + 1, e);
      }
      if ClobPasses(m, 8) {
        AllPassCommits(tx, s);
      }
    }
  }

  /** Whatever the others do, no clob transaction commits against one of its checks. */
  lemma ClobBlocked(m: Msg, s: Store, e: nat)
    requires m.ClobMsg?
    requires
      || m.pre == Some(e)
      || Rejects(m.consumeTxSizeGas, e) || Rejects(m.validateSigCount, e) || Rejects(m.replayProtection, e)
      || Rejects(m.sigVerification, e) || m.shortTerm == FlagError(e) || m.timestampNonce == FlagError(e)
      || Rejects(m.clobRateLimit, e) || Rejects(m.clob, e)
    ensures Result(TxOf(m), s).Rejected?
  {
    var tx, n := TxOf(m), 4 + |SequenceStep(m)|;
    ClobPlaces(m);
    if Rejects(m.consumeTxSizeGas, e) {
      Blocked(tx, s, 0, e);
    } else if Rejects(m.validateSigCount, e) {
      Blocked(tx, s, 1, e);
    } else if Rejects(m.replayProtection, e) {
      Blocked(tx, s, 2, e);
    } else if Rejects(m.sigVerification, e) {
      Blocked(tx, s, 3, e);
    } else if m.shortTerm.FlagError? {
      Blocked(tx, s, 4, m.shortTerm.error);
    } else if m.timestampNonce.FlagError? {
      Blocked(tx, s, 4, m.timestampNonce.error);
    } else if Rejects(m.clobRateLimit, e) {
      Blocked(tx, s, n, e);
    } else if Rejects(m.clob, e) {
      Blocked(tx, s, n + 1, e);
    }
  }

  ghost predicate OtherPasses(m: Msg, n: nat)
    requires m.OtherMsg?
  {
    && (n >= 1 ==> Passes(m.consumeTxSizeGas))
    && (n >= 2 ==> Passes(m.deductFee))
    && (n >= 3 ==> Passes(m.validateSigCount))
    && (n >= 4 ==> Passes(m.replayProtection))
    && (n >= 5 ==> Passes(m.sigVerification))
    && (n >= 6 ==> m.timestampNonce.Is?)
  }

  lemma OtherPlaces(m: Msg)
    requires m.OtherMsg?
    ensures var tx := TxOf(m);
            && tx.pre == m.pre && tx.signers == m.signers && |tx.early| == 0 && Length(tx) == 5 + |SequenceStep(m)|
            && DecoratorAt(tx, 0) == Work(m.consumeTxSizeGas)
            && DecoratorAt(tx, 1) == Work(m.deductFee)
            && DecoratorAt(tx, 2) == Work(m.validateSigCount)
            && DecoratorAt(tx, 3) == Work(m.replayProtection)
            && DecoratorAt(tx, 4) == Work(m.sigVerification)
            && (SequenceStep(m) != [] ==> |SequenceStep(m)| == 1 && DecoratorAt(tx, 5) == SequenceStep(m)[0])
  {
  }

  /** The same for other transactions. */
  lemma OtherChain(m: Msg, s: Store, e: nat)
    requires m.OtherMsg?
    ensures m.pre == Some(e) ==> Result(TxOf(m), s) == Rejected(e)
    ensures m.pre.None? && Rejects(m.consumeTxSizeGas, e) ==> Result(TxOf(m), s) == Rejected(e)
    ensures m.pre.None? && OtherPasses(m, 1) && Rejects(m.deductFee, e) ==> Result(TxOf(m), s) == Rejected(e)
    ensures m.pre.None? && OtherPasses(m, 2) && Rejects(m.validateSigCount, e) ==> Result(TxOf(m), s) == Rejected(e)
    ensures m.pre.None? && OtherPasses(m, 3) && Rejects(m.replayProtection, e) ==> Result(TxOf(m), s) == Rejected(e)
    ensures m.pre.None? && OtherPasses(m, 4) && Rejects(m.sigVerification, e) ==> Result(TxOf(m), s) == Rejected(e)
    ensures m.pre.None? && OtherPasses(m, 5) && m.timestampNonce == FlagError(e) ==> Result(TxOf(m), s) == Rejected(e)
    ensures m.pre.None? && OtherPasses(m, 6) ==> Result(TxOf(m), s).Committed?
  {
    var tx := TxOf(m);
    OtherPlaces(m);
    if m.pre.None? {
      if Rejects(m.consumeTxSizeGas, e) {
        StopsAt(tx, s, 0, e);
      }
      if OtherPasses(m, 1) && Rejects(m.deductFee, e) {
        StopsAt(tx, s, 1, e);
      }
      if OtherPasses(m, 2) && Rejects(m.validateSigCount, e) {
        StopsAt(tx, s, 2, e);
      }
      if OtherPasses(m, 3) && Rejects(m.replayProtection, e) {
        StopsAt(tx, s, 3, e);
      }
      if OtherPasses(m, 4) && Rejects(m.sigVerification, e) {
        StopsAt(tx, s, 4, e);
      }
      if OtherPasses(m, 5) && m.timestampNonce == FlagError(e) {
        StopsAt(tx, s, 5, e);
      }
      if OtherPasses(m, 6) {
        AllPassCommits(tx, s);
      }
    }
  }

  lemma OtherBlocked(m: Msg, s: Store, e: nat)
    requires m.OtherMsg?
    requires
      || m.pre == Some(e)
      || Rejects(m.consumeTxSizeGas, e) || Rejects(m.deductFee, e) || Rejects(m.validateSigCount, e)
      || Rejects(m.replayProtection, e) || Rejects(m.sigVerification, e) || m.timestampNonce == FlagError(e)
    ensures Result(TxOf(m), s).Rejected?
  {
    var tx := TxOf(m);
    OtherPlaces(m);
    if Rejects(m.consumeTxSizeGas, e) {
      Blocked(tx, s, 0, e);
    } else if Rejects(m.deductFee, e) {
      Blocked(tx, s, 1, e);
    } else if Rejects(m.validateSigCount, e) {
      Blocked(tx, s, 2, e);
    } else if Rejects(m.replayProtection, e) {
      Blocked(tx, s, 3, e);
    } else if Rejects(m.sigVerification, e) {
      Blocked(tx, s, 4, e);
    } else if m.timestampNonce.FlagError? {
      Blocked(tx, s, 5, m.timestampNonce.error);
    }
  }

  // ---- Who sees the shared state ----

  /** The shared keys of `v` are those of `s`, with their values. */
  ghost predicate SharedAsIn(v: Store, s: Store) {
    forall n :: (Shared(n) in v <==> Shared(n) in s) && (Shared(n) in v ==> v[Shared(n)] == s[Shared(n)])
  }

  /** Passes, and writes nothing shared. */
  ghost predicate Quiet(run: Run) {
    forall c, v :: run(c, v).Pass? && forall n :: Shared(n) !in run(c, v).writes
  }

  /** Rejects whenever it sees the shared state of `s`. */
  ghost predicate RejectsSeeing(run: Run, s: Store, e: nat) {
    forall c, v :: SharedAsIn(v, s) ==> run(c, v) == Reject(e)
  }

  ghost predicate QuietAt(tx: Tx, j: nat)
    requires j < Length(tx)
  {
    DecoratorAt(tx, j).Work? ==> Quiet(DecoratorAt(tx, j).run)
  }

  ghost predicate NothingShared(b: Store) {
    forall n :: Shared(n) !in b
  }

  lemma {:induction false} QuietThrough(tx: Tx, s: Store, i: nat)
    requires i <= Length(tx) && forall j :: 0 <= j < i ==> QuietAt(tx, j)
    ensures Prefix(tx, s, i).Running? && NothingShared(Prefix(tx, s, i).branch)
  {
    if i > 0 {
      QuietThrough(tx, s, i - 1);
      assert QuietAt(tx, i - 1);
    }
  }

  lemma StopsSeeing(tx: Tx, s: Store, i: nat, run: Run, e: nat)
    requires tx.pre.None? && |tx.early| <= i < Length(tx) && DecoratorAt(tx, i) == Work(run)
    requires RejectsSeeing(run, s, e) && forall j :: 0 <= j < i ==> QuietAt(tx, j)
    ensures Result(tx, s) == Rejected(e)
  {
    QuietThrough(tx, s, i);
    var (ctx, b) := (Prefix(tx, s, i).ctx, Prefix(tx, s, i).branch);
    var v := Sees(tx, i, s + b);
    assert SharedAsIn(v, s);
    WorkEffect(tx, s, i, ctx, b, run, v);
    FailedIsRejected(tx, s, i + 1);
  }

  /** The rate limit and the clob decorator see the whole shared state. */
  lemma ClobSeesShared(m: Msg, s: Store, e: nat)
    requires m.ClobMsg? && m.pre.None? && m.shortTerm.Is? && m.timestampNonce.Is?
    requires Quiet(m.consumeTxSizeGas) && Quiet(m.validateSigCount) && Quiet(m.replayProtection)
    requires Quiet(m.sigVerification)
    ensures RejectsSeeing(m.clobRateLimit, s, e) ==> Result(TxOf(m), s) == Rejected(e)
    ensures Quiet(m.clobRateLimit) && RejectsSeeing(m.clob, s, e) ==> Result(TxOf(m), s) == Rejected(e)
  {
    var tx, n := TxOf(m), 4 + |SequenceStep(m)|;
    ClobPlaces(m);
    ClobLatePlace(m);
    assert forall j :: 0 <= j < n ==> QuietAt(tx, j);
    if RejectsSeeing(m.clobRateLimit, s, e) {
      StopsSeeing(tx, s, n, m.clobRateLimit, e);
    }
    if Quiet(m.clobRateLimit) && RejectsSeeing(m.clob, s, e) {
      StopsSeeing(tx, s, n + 1, m.clob, e);
    }
  }

  /** All decorators of other transactions do. */
  lemma OtherSeesShared(m: Msg, s: Store, e: nat)
    requires m.OtherMsg? && m.pre.None?
    ensures RejectsSeeing(m.consumeTxSizeGas, s, e) ==> Result(TxOf(m), s) == Rejected(e)
    ensures Quiet(m.consumeTxSizeGas) && RejectsSeeing(m.deductFee, s, e) ==> Result(TxOf(m), s) == Rejected(e)
    ensures Quiet(m.consumeTxSizeGas) && Quiet(m.deductFee) ==>
              && (RejectsSeeing(m.validateSigCount, s, e) ==> Result(TxOf(m), s) == Rejected(e))
              && (Quiet(m.validateSigCount) && RejectsSeeing(m.replayProtection, s, e) ==>
                    Result(TxOf(m), s) == Rejected(e))
              && (Quiet(m.validateSigCount) && Quiet(m.replayProtection) && RejectsSeeing(m.sigVerification, s, e) ==>
                    Result(TxOf(m), s) == Rejected(e))
  {
    var tx := TxOf(m);
    OtherPlaces(m);
    if RejectsSeeing(m.consumeTxSizeGas, s, e) {
      StopsSeeing(tx, s, 0, m.consumeTxSizeGas, e);
    }
    if Quiet(m.consumeTxSizeGas) && RejectsSeeing(m.deductFee, s, e) {
      StopsSeeing(tx, s, 1, m.deductFee, e);
    }
    if Quiet(m.consumeTxSizeGas) && Quiet(m.deductFee) {
      if RejectsSeeing(m.validateSigCount, s, e) {
        StopsSeeing(tx, s, 2, m.validateSigCount, e);
      }
      if Quiet(m.validateSigCount) && RejectsSeeing(m.replayProtection, s, e) {
        StopsSeeing(tx, s, 3, m.replayProtection, e);
      }
      if Quiet(m.validateSigCount) && Quiet(m.replayProtection) && RejectsSeeing(m.sigVerification, s, e) {
        StopsSeeing(tx, s, 4, m.sigVerification, e);
      }
    }
  }

  /** Two stores with the same rows of the given accounts. */
  ghost predicate SameRows(s: Store, s': Store, signers: set<Addr>) {
    forall k: Key :: !k.Shared? && k.addr in signers ==> (k in s <==> k in s') && (k in s ==> s[k] == s'[k])
  }

  /** Nothing else a clob transaction checks depends on the shared state: if the rate limit and the clob
      decorator pass, stores with the same rows of its signers give the same verdict. */
  lemma ClobEarlyIsBlind(m: Msg, s: Store, s': Store)
    requires m.ClobMsg? && Passes(m.clobRateLimit) && Passes(m.clob) && SameRows(s, s', m.signers)
    ensures Result(TxOf(m), s).Rejected? <==> Result(TxOf(m), s').Rejected?
    ensures Result(TxOf(m), s).Rejected? ==> Result(TxOf(m), s') == Result(TxOf(m), s)
  {
    var tx, n := TxOf(m), 4 + |SequenceStep(m)|;
    ClobPlaces(m);
    if m.pre.None? {
      assert Agree(s, s', m.signers);
      PrefixAgrees(tx, s, s', n);
      PassingTail(tx, s, n);
      PassingTail(tx, s', n);
    }
  }

  lemma PassingTail(tx: Tx, s: Store, n: nat)
    requires tx.pre.None? && n + 2 == Length(tx) && PassesAt(tx, n) && PassesAt(tx, n + 1)
    ensures match Prefix(tx, s, n)
            case Failed(e) => Result(tx, s) == Rejected(e)
            case Running(_, _) => Result(tx, s).Committed?
  {
    if Prefix(tx, s, n).Failed? {
      FailedIsRejected(tx, s, n);
    } else {
      assert Prefix(tx, s, n + 1).Running?;
    }
  }
}
