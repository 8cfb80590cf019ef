/**
What one transaction does in `checkTx`, on its own: its ante decorators run one after the other
over a branch of the store, and the branch is written back only if none of them fails.
*/
module AnteSerial {
  import opened Basics

  type Addr = nat
  type Tid = nat

  /** State that `checkTx` can change: an account's sequence number, an account's other rows, and
      everything that only the global lock protects. A missing key reads as 0. */
  datatype Key = Sequence(addr: Addr) | Row(addr: Addr, slot: nat) | Shared(slot: nat)

  type Store = map<Key, nat>

  function Get(s: Store, k: Key): nat {
    if k in s then s[k] else 0
  }

  /** What a handler has learnt so far; decorators may depend on it. */
  type Context = seq<nat>

  datatype Verdict = Reject(error: nat) | Pass(ctx: Context, writes: Store)

  /** A decorator is foreign code over the part of the store it is allowed to see. The sequence number
      is changed by one decorator only. */
  datatype Decorator = Work(run: (Context, Store) -> Verdict) | IncrementSequence

  /** `pre` is the verdict of the decorators that touch no state `checkTx` can change; `early` run
      under the account locks, `late` under the account locks and the global lock. */
  datatype Tx = Tx(signers: set<Addr>, pre: Option<nat>, early: seq<Decorator>, late: seq<Decorator>)

  // ---- Frames ----

  /** Account rows are readable and writable under the account's lock, the rest under the global lock. */
  predicate InFrame(signers: set<Addr>, late: bool, k: Key) {
    match k
    case Sequence(a) => a in signers
    case Row(a, _) => a in signers
    case Shared(_) => late
  }

  function Visible(s: Store, signers: set<Addr>, late: bool): Store {
    map k | k in s && InFrame(signers, late, k) :: s[k]
  }

  function Allowed(w: Store, signers: set<Addr>, late: bool): Store {
    map k | k in w && InFrame(signers, late, k) && !k.Sequence? :: w[k]
  }

  function Incremented(s: Store, signers: set<Addr>): Store {
    map a | a in signers :: Sequence(a) := Get(s, Sequence(a)) + 1
  }

  function Decorate(d: Decorator, signers: set<Addr>, late: bool, ctx: Context, s: Store): Verdict {
    match d
    case IncrementSequence => Pass(ctx, Incremented(s, signers))
    case Work(run) =>
      match run(ctx, Visible(s, signers, late))
      case Reject(e) => Reject(e)
      case Pass(c, w) => Pass(c, Allowed(w, signers, late))
  }

  // ---- One transaction alone ----

  function Length(tx: Tx): nat { |tx.early| + |tx.late| }

  function DecoratorAt(tx: Tx, i: nat): Decorator
    requires i < Length(tx)
  {
    if i < |tx.early| then tx.early[i] else tx.late[i - |tx.early|]
  }

  function IsLate(tx: Tx, i: nat): bool { i >= |tx.early| }

  /** The branch is kept as the writes made over the store it was taken from. */
  datatype Progress = Failed(error: nat) | Running(ctx: Context, branch: Store)

  function Advance(tx: Tx, i: nat, s: Store, ctx: Context, branch: Store): Progress
    requires i < Length(tx)
  {
    match Decorate(DecoratorAt(tx, i), tx.signers, IsLate(tx, i), ctx, s + branch)
    case Reject(e) => Failed(e)
    case Pass(c, w) => Running(c, branch + w)
  }

  /** The state of the transaction after its first `i` decorators, run on store `s`. */
  function Prefix(tx: Tx, s: Store, i: nat): Progress
    requires i <= Length(tx)
  {
    if i == 0 then Running([], map[])
    else match Prefix(tx, s, i - 1)
      case Failed(e) => Failed(e)
      case Running(ctx, branch) => Advance(tx, i - 1, s, ctx, branch)
  }

  datatype Outcome = Rejected(error: nat) | Committed(ctx: Context)

  function Result(tx: Tx, s: Store): Outcome {
    match tx.pre
    case Some(e) => Rejected(e)
    case None =>
      match Prefix(tx, s, Length(tx))
      case Failed(e) => Rejected(e)
      case Running(ctx, _) => Committed(ctx)
  }

  /** A transaction that fails leaves the store as it was. */
  function After(tx: Tx, s: Store): Store {
    match tx.pre
    case Some(_) => s
    case None =>
      match Prefix(tx, s, Length(tx))
      case Failed(_) => s
      case Running(_, branch) => s + branch
  }

  /** Transactions one by one. */
  function AfterAll(txs: map<Tid, Tx>, s: Store, order: seq<Tid>): Store
    requires forall t :: t in order ==> t in txs
  {
    if order == [] then s
    else After(txs[order[|order| - 1]], AfterAll(txs, s, order[..|order| - 1]))
  }

  // ---- Facts about one transaction ----

  /** Once a decorator fails, every longer prefix has failed the same way. */
  lemma {:induction false} FailureSticks(tx: Tx, s: Store, i: nat, j: nat)
    requires i <= j <= Length(tx) && Prefix(tx, s, i).Failed?
    ensures Prefix(tx, s, j) == Prefix(tx, s, i)
    decreases j
  {
    if i < j {
      FailureSticks(tx, s, i, j - 1);
    }
  }

  /** A transaction that fails at some decorator is rejected with that error and changes nothing. */
  lemma FailedIsRejected(tx: Tx, s: Store, i: nat)
    requires i <= Length(tx) && tx.pre.None? && Prefix(tx, s, i).Failed?
    ensures Result(tx, s) == Rejected(Prefix(tx, s, i).error) && After(tx, s) == s
  {
    FailureSticks(tx, s, i, Length(tx));
  }

  ghost predicate KeysInFrame(w: Store, signers: set<Addr>, late: bool) {
    forall k :: k in w ==> InFrame(signers, late, k)
  }

  /** A branch only ever holds keys its transaction may write. */
  lemma {:induction false} BranchInFrame(tx: Tx, s: Store, i: nat)
    requires i <= Length(tx) && Prefix(tx, s, i).Running?
    ensures KeysInFrame(Prefix(tx, s, i).branch, tx.signers, true)
  {
    if i > 0 {
      BranchInFrame(tx, s, i - 1);
    }
  }

  /** Two stores agree on what a transaction may read before it has the global lock. */
  ghost predicate Agree(s: Store, s': Store, signers: set<Addr>) {
    Visible(s, signers, false) == Visible(s', signers, false)
  }

  lemma AgreeOver(s: Store, s': Store, branch: Store, signers: set<Addr>)
    requires Agree(s, s', signers)
    ensures Visible(s + branch, signers, false) == Visible(s' + branch, signers, false)
    ensures Incremented(s + branch, signers) == Incremented(s' + branch, signers)
  {
    assert forall k :: InFrame(signers, false, k) ==>
      (k in s <==> k in Visible(s, signers, false)) && (k in s' <==> k in Visible(s', signers, false));
    forall k | InFrame(signers, false, k)
      ensures k in s + branch <==> k in s' + branch
      ensures k in s + branch ==> (s + branch)[k] == (s' + branch)[k]
    {
      assert k in s ==> Visible(s, signers, false)[k] == s[k];
      assert k in s' ==> Visible(s', signers, false)[k] == s'[k];
    }
    forall a | a in signers
      ensures Get(s + branch, Sequence(a)) == Get(s' + branch, Sequence(a))
    {
      assert InFrame(signers, false, Sequence(a));
    }
  }

  lemma AdvanceAgrees(tx: Tx, i: nat, s: Store, s': Store, ctx: Context, branch: Store)
    requires i < |tx.early| && Agree(s, s', tx.signers)
    ensures Advance(tx, i, s, ctx, branch) == Advance(tx, i, s', ctx, branch)
  {
    AgreeOver(s, s', branch, tx.signers);
  }

  /** Early decorators cannot tell apart stores that agree on their signers' rows. */
  lemma {:induction false} PrefixAgrees(tx: Tx, s: Store, s': Store, i: nat)
    requires i <= |tx.early| && Agree(s, s', tx.signers)
    ensures Prefix(tx, s, i) == Prefix(tx, s', i)
  {
    if i > 0 {
      PrefixAgrees(tx, s, s', i - 1);
      var p := Prefix(tx, s, i - 1);
      if p.Running? {
        AdvanceAgrees(tx, i - 1, s, s', p.ctx, p.branch);
      }
    }
  }

  /** Writes of one signer set are invisible to the early part of a disjoint one. */
  lemma DisjointAgree(s: Store, w: Store, mine: set<Addr>, theirs: set<Addr>)
    requires KeysInFrame(w, theirs, true) && mine !! theirs
    ensures Agree(s, s + w, mine)
  {
    assert forall k :: k in w && InFrame(mine, false, k) ==> false;
  }

  // ---- Sequence numbers ----

  /** How many of the first `i` decorators increment the sequence. */
  function IncrementsIn(tx: Tx, i: nat): nat
    requires i <= Length(tx)
  {
    if i == 0 then 0
    else IncrementsIn(tx, i - 1) + if DecoratorAt(tx, i - 1).IncrementSequence? then 1 else 0
  }

  lemma {:induction false} PrefixSequence(tx: Tx, s: Store, i: nat, a: Addr)
    requires i <= Length(tx) && Prefix(tx, s, i).Running?
    ensures Get(s + Prefix(tx, s, i).branch, Sequence(a))
         == Get(s, Sequence(a)) + if a in tx.signers then IncrementsIn(tx, i) else 0
  {
    if i > 0 {
      PrefixSequence(tx, s, i - 1, a);
    }
  }

  /** A committed transaction raises its signers' sequence numbers by its number of increments and
      changes no one else's; a rejected one changes none. */
  lemma AfterSequence(tx: Tx, s: Store, a: Addr)
    ensures Get(After(tx, s), Sequence(a)) == Get(s, Sequence(a)) +
            if Result(tx, s).Committed? && a in tx.signers then IncrementsIn(tx, Length(tx)) else 0
  {
    if tx.pre.None? && Prefix(tx, s, Length(tx)).Running? {
      PrefixSequence(tx, s, Length(tx), a);
    }
  }
}
