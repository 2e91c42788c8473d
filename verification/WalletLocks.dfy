/** The same wallet writers, but statement by statement and concurrently: any
    number of transactions interleave, each statement sees what is committed,
    writes become visible at commit, and advisory locks are held to the end. */
module WalletLocks {
  import opened Common
  import opened KeyTables
  import KeyCommands

  /** What a transaction is for. Registering covers creating a wallet, pasting a
      key onto a method and rotating; rerouting covers setting and clearing an
      override, which lock the account and write no wallet. */
  datatype Job =
    | Registering(user: Uuid, namespace: string, xpub: string, newId: Uuid)
    | Promoting(user: Uuid, wallet: Uuid)
    | Rerouting(user: Uuid)

  /** The next statement still to run, with what has been written but not committed. */
  datatype Point =
    | Begun
    | AccountLocked
    | KeyLocked
    | Checked
    | Upserted(insert: Option<Wallet>)
    | Demoted(rows: set<Uuid>)
    | Promoted(rows: set<Uuid>)
    | Ended

  datatype Tx = Tx(job: Job, at: Point)

  /** Committed wallets, the transactions begun so far, and every wallet id ever given out. */
  datatype State = State(wallets: map<Uuid, Wallet>, txs: map<nat, Tx>, ids: set<Uuid>)

  /** Advisory locks are taken on hashes, which may collide. */
  datatype Hashes = Hashes(account: Uuid -> int, key: string -> int)

  // ---------------------------------------------------------------- locks

  ghost predicate HoldsAccount(h: Hashes, tx: Tx, lock: int) {
    !tx.at.Begun? && !tx.at.Ended? && h.account(tx.job.user) == lock
  }

  ghost predicate HoldsKey(h: Hashes, tx: Tx, lock: int) {
    tx.job.Registering? && (tx.at.KeyLocked? || tx.at.Checked? || tx.at.Upserted?) && h.key(tx.job.xpub) == lock
  }

  /** `t` cannot take its next lock because `u` holds it. */
  ghost predicate WaitsFor(h: Hashes, s: State, t: nat, u: nat) {
    && t in s.txs && u in s.txs && t != u
    && ((s.txs[t].at.Begun? && HoldsAccount(h, s.txs[u], h.account(s.txs[t].job.user))) ||
        (s.txs[t].at.AccountLocked? && s.txs[t].job.Registering? && HoldsKey(h, s.txs[u], h.key(s.txs[t].job.xpub))))
  }

  ghost predicate Runnable(h: Hashes, s: State, t: nat) {
    t in s.txs && !s.txs[t].at.Ended? && forall u :: !WaitsFor(h, s, t, u)
  }

  // ---------------------------------------------------------------- steps

  ghost predicate TakenByAnother(wallets: map<Uuid, Wallet>, user: Uuid, xpub: string) {
    exists v, other :: Holds(wallets, v, other, xpub) && other != user
  }

  ghost predicate HasFamily(wallets: map<Uuid, Wallet>, user: Uuid, ns: string) {
    exists v :: v in wallets && wallets[v].owner == user && wallets[v].namespace == ns
  }

  /** The insert decides the primary flag and the conflict against what is committed now. */
  ghost function Upsert(wallets: map<Uuid, Wallet>, job: Job): Option<Wallet>
    requires job.Registering?
  {
    if exists v :: IsKey(wallets, v, job.user, job.namespace, job.xpub) then None
    else Some(Wallet(job.user, job.namespace, job.xpub, 0, !HasFamily(wallets, job.user, job.namespace)))
  }

  ghost function PrimariesBeside(wallets: map<Uuid, Wallet>, job: Job): set<Uuid>
    requires job.Promoting?
  {
    set v | v in wallets && job.wallet in wallets && wallets[job.wallet].owner == job.user
            && IsPrimary(wallets, v, job.user, wallets[job.wallet].namespace)
  }

  ghost predicate OwnsNamed(wallets: map<Uuid, Wallet>, job: Job)
    requires job.Promoting?
  {
    job.wallet in wallets && wallets[job.wallet].owner == job.user
  }

  /** Where the next statement of a runnable transaction takes it. */
  ghost function NextPoint(wallets: map<Uuid, Wallet>, tx: Tx): Point {
    match tx.at
    case Begun => AccountLocked
    case AccountLocked =>
      if tx.job.Registering? then KeyLocked
      else if tx.job.Promoting? then Demoted(PrimariesBeside(wallets, tx.job))
      else Ended
    case KeyLocked => if tx.job.Registering? && TakenByAnother(wallets, tx.job.user, tx.job.xpub) then Ended else Checked
    case Checked => if tx.job.Registering? then Upserted(Upsert(wallets, tx.job)) else Ended
    case Demoted(rows) => if tx.job.Promoting? && OwnsNamed(wallets, tx.job) then Promoted(rows) else Ended
    case _ => Ended
  }

  /** What a commit makes visible; every other statement publishes nothing. */
  ghost function Published(wallets: map<Uuid, Wallet>, tx: Tx): map<Uuid, Wallet> {
    if tx.at.Upserted? && tx.at.insert.Some? && tx.job.Registering? then wallets[tx.job.newId := tx.at.insert.value]
    else if tx.at.Promoted? && tx.job.Promoting? then
      map v | v in wallets ::
        if v == tx.job.wallet then wallets[v].(isPrimary := true)
        else if v in tx.at.rows then wallets[v].(isPrimary := false) else wallets[v]
    else wallets
  }

  ghost function Advance(s: State, t: nat): State
    requires t in s.txs
  {
    var tx := s.txs[t];
    s.(wallets := Published(s.wallets, tx), txs := s.txs[t := tx.(at := NextPoint(s.wallets, tx))])
  }

  /** Row locks an open promotion holds on wallet rows. */
  ghost predicate RowLocked(s: State, v: Uuid) {
    exists t :: t in s.txs && LocksRow(s.txs[t], v)
  }

  ghost predicate LocksRow(tx: Tx, v: Uuid) {
    (tx.at.Demoted? && v in tx.at.rows) || (tx.at.Promoted? && (v in tx.at.rows || (tx.job.Promoting? && v == tx.job.wallet)))
  }

  /** A transaction rolls back, or its connection is lost: nothing of it is published and its locks are released. */
  ghost function Abort(s: State, t: nat): State
    requires t in s.txs
  {
    s.(txs := s.txs[t := s.txs[t].(at := Ended)])
  }

  /** One step of the database: a transaction begins, a transaction runs its next
      statement, a transaction is aborted, or a single-statement command commits
      by itself (an index is taken, a wallet is deleted). */
  ghost predicate Next(h: Hashes, s: State, s': State) {
    || (exists t, job :: Begins(s, s', t, job))
    || (exists t :: Runnable(h, s, t) && s' == Advance(s, t))
    || (exists t :: t in s.txs && s' == Abort(s, t))
    || (exists v :: TakesIndex(s, s', v))
    || (exists v :: Deletes(s, s', v))
  }

  ghost predicate TakesIndex(s: State, s': State, v: Uuid) {
    && v in s.wallets && !RowLocked(s, v) && s.wallets[v].index < MAX_INDEX
    && s' == s.(wallets := s.wallets[v := s.wallets[v].(index := s.wallets[v].index + 1)])
  }

  ghost predicate Deletes(s: State, s': State, v: Uuid) {
    v in s.wallets && !RowLocked(s, v) && s' == s.(wallets := s.wallets - {v})
  }

  ghost predicate Begins(s: State, s': State, t: nat, job: Job) {
    && t !in s.txs && (job.Registering? ==> job.newId !in s.ids)
    && s' == s.(txs := s.txs[t := Tx(job, Begun)], ids := if job.Registering? then s.ids + {job.newId} else s.ids)
  }

  ghost predicate Reachable(h: Hashes, trace: seq<State>) {
    && |trace| > 0 && trace[0] == State(map[], map[], {})
    && forall i :: 0 <= i < |trace| - 1 ==> Next(h, trace[i], trace[i + 1])
  }

  // ---------------------------------------------------------------- invariant

  ghost predicate LocksExclusive(h: Hashes, s: State) {
    && (forall t, u, lock :: t in s.txs && u in s.txs && HoldsAccount(h, s.txs[t], lock) && HoldsAccount(h, s.txs[u], lock) ==> t == u)
    && (forall t, u, lock :: t in s.txs && u in s.txs && HoldsKey(h, s.txs[t], lock) && HoldsKey(h, s.txs[u], lock) ==> t == u)
  }

  /** What an open transaction has read is still true of what is committed. */
  ghost predicate ReadsHold(wallets: map<Uuid, Wallet>, tx: Tx) {
    match tx.at
    case Checked => tx.job.Registering? && !TakenByAnother(wallets, tx.job.user, tx.job.xpub)
    case KeyLocked => tx.job.Registering?
    case Upserted(insert) =>
      && tx.job.Registering? && !TakenByAnother(wallets, tx.job.user, tx.job.xpub)
      && (insert.Some? ==>
            && (forall v :: !IsKey(wallets, v, tx.job.user, tx.job.namespace, tx.job.xpub))
            && IsKey(map[tx.job.newId := insert.value], tx.job.newId, tx.job.user, tx.job.namespace, tx.job.xpub)
            && (insert.value.isPrimary ==> forall v :: !IsPrimary(wallets, v, tx.job.user, tx.job.namespace)))
    case Demoted(rows) =>
      && tx.job.Promoting?
      && rows <= wallets.Keys
      && (OwnsNamed(wallets, tx.job) ==> DemotesThePrimaries(wallets, tx.job, rows))
    case Promoted(rows) =>
      tx.job.Promoting? && rows <= wallets.Keys && OwnsNamed(wallets, tx.job) && DemotesThePrimaries(wallets, tx.job, rows)
    case _ => true
  }

  /** The demoted rows are the account's, of the named wallet's family, and include whatever is primary there. */
  ghost predicate DemotesThePrimaries(wallets: map<Uuid, Wallet>, job: Job, rows: set<Uuid>)
    requires job.Promoting? && OwnsNamed(wallets, job) && rows <= wallets.Keys
  {
    && (forall v :: IsPrimary(wallets, v, job.user, wallets[job.wallet].namespace) ==> v in rows)
    && (forall v :: v in rows ==> wallets[v].owner == job.user && wallets[v].namespace == wallets[job.wallet].namespace)
  }

  ghost predicate IdsSound(s: State) {
    && s.wallets.Keys <= s.ids
    && (forall t :: t in s.txs && s.txs[t].job.Registering? ==>
          s.txs[t].job.newId in s.ids && (s.txs[t].at.Ended? || s.txs[t].job.newId !in s.wallets))
    && (forall t, u :: t in s.txs && u in s.txs && t != u && s.txs[t].job.Registering? && s.txs[u].job.Registering?
          ==> s.txs[t].job.newId != s.txs[u].job.newId)
  }

  ghost predicate Safe(h: Hashes, s: State) {
    && WalletsSound(s.wallets) && LocksExclusive(h, s) && IdsSound(s)
    && forall t :: t in s.txs ==> ReadsHold(s.wallets, s.txs[t])
  }

  // ---------------------------------------------------------------- every step keeps it

  lemma AdvanceKeepsWallets(h: Hashes, s: State, t: nat)
    requires Safe(h, s) && t in s.txs
    ensures WalletsSound(Advance(s, t).wallets)
  {
    var tx := s.txs[t];
    assert ReadsHold(s.wallets, tx);
    if tx.at.Upserted? && tx.at.insert.Some? {
      KeyCommands.NewKeyIsSound(s.wallets, tx.job.newId, tx.at.insert.value);
    } else if tx.at.Promoted? {
      PromotionIsSound(s.wallets, tx);
    }
  }

  lemma PromotionIsSound(wallets: map<Uuid, Wallet>, tx: Tx)
    requires WalletsSound(wallets) && tx.at.Promoted? && ReadsHold(wallets, tx)
    ensures WalletsSound(Published(wallets, tx))
    ensures forall v, o, n :: IsPrimary(Published(wallets, tx), v, o, n) <==>
      if o == tx.job.user && n == wallets[tx.job.wallet].namespace then v == tx.job.wallet else IsPrimary(wallets, v, o, n)
  {
    var ws := Published(wallets, tx);
    KeyCommands.SameKeys(wallets, ws);
    assert forall v, o, n :: IsPrimary(ws, v, o, n) <==>
      if o == tx.job.user && n == wallets[tx.job.wallet].namespace then v == tx.job.wallet else IsPrimary(wallets, v, o, n);
  }

  lemma AdvanceKeepsLocks(h: Hashes, s: State, t: nat)
    requires Safe(h, s) && Runnable(h, s, t)
    ensures LocksExclusive(h, Advance(s, t))
  {
    var s' := Advance(s, t);
    var tx, tx' := s.txs[t], s'.txs[t];
    forall u, lock | u in s.txs && u != t
      ensures !(HoldsAccount(h, tx', lock) && HoldsAccount(h, s.txs[u], lock))
      ensures !(HoldsKey(h, tx', lock) && HoldsKey(h, s.txs[u], lock))
    {
      assert !WaitsFor(h, s, t, u);
      assert HoldsAccount(h, tx', lock) && !tx.at.Begun? ==> HoldsAccount(h, tx, lock);
      assert HoldsKey(h, tx', lock) && !tx.at.AccountLocked? ==> HoldsKey(h, tx, lock);
    }
  }

  lemma AdvanceKeepsIds(h: Hashes, s: State, t: nat)
    requires Safe(h, s) && t in s.txs
    ensures IdsSound(Advance(s, t))
  {
    assert ReadsHold(s.wallets, s.txs[t]);
  }

  /** A transaction's own reads hold right after it makes them. */
  lemma AdvanceKeepsOwnReads(wallets: map<Uuid, Wallet>, tx: Tx)
    requires WalletsSound(wallets) && ReadsHold(wallets, tx)
    ensures ReadsHold(Published(wallets, tx), tx.(at := NextPoint(wallets, tx)))
  {
  }

  /** What one transaction publishes is about another account, and another key, than what any other open one has read. */
  lemma AdvanceKeepsOtherReads(h: Hashes, s: State, t: nat, u: nat)
    requires Safe(h, s) && t in s.txs && u in s.txs && t != u
    ensures ReadsHold(Published(s.wallets, s.txs[t]), s.txs[u])
  {
    var tx, other := s.txs[t], s.txs[u];
    var ws := Published(s.wallets, tx);
    assert ReadsHold(s.wallets, tx) && ReadsHold(s.wallets, other);
    if ws != s.wallets && !other.at.Begun? && !other.at.Ended? {
      assert tx.job.user != other.job.user by {
        assert HoldsAccount(h, tx, h.account(tx.job.user)) && HoldsAccount(h, other, h.account(other.job.user));
      }
      if tx.at.Upserted? {
        assert HoldsKey(h, tx, h.key(tx.job.xpub));
        assert other.job.Registering? && !other.at.AccountLocked? ==> HoldsKey(h, other, h.key(other.job.xpub));
        InsertUnseen(s.wallets, tx, other);
      } else {
        PromotionUnseen(s.wallets, tx, other);
      }
    }
  }

  lemma InsertUnseen(wallets: map<Uuid, Wallet>, tx: Tx, other: Tx)
    requires tx.at.Upserted? && tx.at.insert.Some? && ReadsHold(wallets, tx) && tx.job.newId !in wallets
    requires ReadsHold(wallets, other) && tx.job.user != other.job.user
    requires other.job.Registering? && !other.at.AccountLocked? && !other.at.Begun? && !other.at.Ended? ==> tx.job.xpub != other.job.xpub
    ensures ReadsHold(Published(wallets, tx), other)
  {
    var ws := Published(wallets, tx);
    assert forall v, o, x :: Holds(ws, v, o, x) ==> Holds(wallets, v, o, x) || (o == tx.job.user && x == tx.job.xpub);
    assert forall v, n, x :: IsKey(ws, v, other.job.user, n, x) ==> IsKey(wallets, v, other.job.user, n, x);
    assert forall v, n :: IsPrimary(ws, v, other.job.user, n) ==> IsPrimary(wallets, v, other.job.user, n);
  }

  lemma PromotionUnseen(wallets: map<Uuid, Wallet>, tx: Tx, other: Tx)
    requires tx.at.Promoted? && ReadsHold(wallets, tx) && ReadsHold(wallets, other) && tx.job.user != other.job.user
    ensures ReadsHold(Published(wallets, tx), other)
  {
    var ws := Published(wallets, tx);
    assert forall v, o, x :: Holds(ws, v, o, x) <==> Holds(wallets, v, o, x);
    assert forall v, o, n, x :: IsKey(ws, v, o, n, x) <==> IsKey(wallets, v, o, n, x);
    assert forall v, n :: IsPrimary(ws, v, other.job.user, n) <==> IsPrimary(wallets, v, other.job.user, n);
  }

  lemma AdvanceKeepsSafe(h: Hashes, s: State, t: nat)
    requires Safe(h, s) && Runnable(h, s, t)
    ensures Safe(h, Advance(s, t))
  {
    AdvanceKeepsWallets(h, s, t);
    AdvanceKeepsLocks(h, s, t);
    AdvanceKeepsIds(h, s, t);
    assert ReadsHold(s.wallets, s.txs[t]);
    AdvanceKeepsOwnReads(s.wallets, s.txs[t]);
    var s' := Advance(s, t);
    forall u | u in s'.txs ensures ReadsHold(s'.wallets, s'.txs[u]) {
      if u != t {
        AdvanceKeepsOtherReads(h, s, t, u);
      }
    }
  }

  /** Taking an index disturbs nothing; deleting a row nobody has locked only makes readings truer. */
  lemma CommandsKeepSafe(h: Hashes, s: State, v: Uuid, s': State)
    requires Safe(h, s) && (TakesIndex(s, s', v) || Deletes(s, s', v))
    ensures Safe(h, s')
  {
    var ws := s'.wallets;
    assert forall w, o, x :: Holds(ws, w, o, x) ==> Holds(s.wallets, w, o, x);
    assert forall w, o, n, x :: IsKey(ws, w, o, n, x) ==> IsKey(s.wallets, w, o, n, x);
    assert forall w, o, n :: IsPrimary(ws, w, o, n) ==> IsPrimary(s.wallets, w, o, n);
    forall t | t in s'.txs ensures ReadsHold(ws, s'.txs[t]) {
      assert ReadsHold(s.wallets, s.txs[t]);
      assert !LocksRow(s.txs[t], v);
    }
  }

  lemma BeginKeepsSafe(h: Hashes, s: State, s': State, t: nat, job: Job)
    requires Safe(h, s) && Begins(s, s', t, job)
    ensures Safe(h, s')
  {
    forall u | u in s'.txs ensures ReadsHold(s'.wallets, s'.txs[u]) {
      assert u != t ==> ReadsHold(s.wallets, s.txs[u]);
    }
  }

  /** An aborted transaction takes its unpublished work with it. */
  lemma AbortKeepsSafe(h: Hashes, s: State, t: nat)
    requires Safe(h, s) && t in s.txs
    ensures Safe(h, Abort(s, t))
  {
  }

  lemma NextKeepsSafe(h: Hashes, s: State, s': State)
    requires Safe(h, s) && Next(h, s, s')
    ensures Safe(h, s')
  {
    if t, job :| Begins(s, s', t, job) {
      BeginKeepsSafe(h, s, s', t, job);
    } else if t :| Runnable(h, s, t) && s' == Advance(s, t) {
      AdvanceKeepsSafe(h, s, t);
    } else if t :| t in s.txs && s' == Abort(s, t) {
      AbortKeepsSafe(h, s, t);
    } else {
      var v :| TakesIndex(s, s', v) || Deletes(s, s', v);
      CommandsKeepSafe(h, s, v, s');
    }
  }

  lemma {:induction false} ReachableIsSafe(h: Hashes, trace: seq<State>)
    requires Reachable(h, trace)
    ensures Safe(h, trace[|trace| - 1])
  {
    if |trace| > 1 {
      var n := |trace| - 1;
      ReachableIsSafe(h, trace[..n]);
      assert Next(h, trace[n - 1], trace[n - 1 + 1]);
      NextKeepsSafe(h, trace[n - 1], trace[n]);
    }
  }

  /** Under every interleaving: no two accounts ever hold the same key, no family
      of an account ever has two primaries, and no key gets a second counter. */
  lemma InterleavingsAreSafe(h: Hashes, trace: seq<State>)
    requires Reachable(h, trace)
    ensures var wallets := trace[|trace| - 1].wallets;
      KeysExclusive(wallets) && OnePrimary(wallets) && OneCounterPerKey(wallets)
  {
    ReachableIsSafe(h, trace);
  }

  // ---------------------------------------------------------------- no deadlock

  /** `u` can run, and `t` is `u` or waits for it, at most twice removed. */
  ghost predicate LeadsTo(h: Hashes, s: State, t: nat, u: nat) {
    Runnable(h, s, u) && (u == t || WaitsFor(h, s, t, u) || exists v :: WaitsFor(h, s, t, v) && WaitsFor(h, s, v, u))
  }

  /** Every waiting transaction is at most two waits away from one that can run,
      because whoever holds a key lock waits for nothing. */
  lemma WaitsLeadToARunner(h: Hashes, s: State, t: nat) returns (u: nat)
    requires t in s.txs && !s.txs[t].at.Ended?
    ensures LeadsTo(h, s, t, u)
  {
    if v :| WaitsFor(h, s, t, v) {
      if w :| WaitsFor(h, s, v, w) {
        assert HoldsKey(h, s.txs[w], h.key(s.txs[v].job.xpub));
        u := w;
      } else {
        u := v;
      }
    } else {
      u := t;
    }
  }

  /** Statements a transaction may still run. */
  function Left(p: Point): nat {
    match p
    case Begun => 5
    case AccountLocked => 4
    case KeyLocked => 3
    case Checked => 2
    case Demoted(_) => 2
    case Upserted(_) => 1
    case Promoted(_) => 1
    case Ended => 0
  }

  /** Transactions each waiting for the next, and the last for the first. */
  ghost predicate WaitsInACircle(h: Hashes, s: State, circle: seq<nat>) {
    circle != [] && forall i :: 0 <= i < |circle| ==> WaitsFor(h, s, circle[i], circle[if i + 1 < |circle| then i + 1 else 0])
  }

  /** Account before key: whoever is waited for over two waits waits for nobody. */
  lemma NoThirdWait(h: Hashes, s: State, t: nat, u: nat, v: nat, w: nat)
    requires WaitsFor(h, s, t, u) && WaitsFor(h, s, u, v)
    ensures !WaitsFor(h, s, v, w)
  {
  }

  lemma NoCircle(h: Hashes, s: State, circle: seq<nat>)
    ensures !WaitsInACircle(h, s, circle)
  {
    var n := |circle|;
    if n > 0 {
      var i := if n > 1 then 1 else 0;
      var j := if i + 1 < n then i + 1 else 0;
      var k := if j + 1 < n then j + 1 else 0;
      if WaitsFor(h, s, circle[0], circle[i]) && WaitsFor(h, s, circle[i], circle[j]) {
        NoThirdWait(h, s, circle[0], circle[i], circle[j], circle[k]);
      }
    }
  }

  /** The lock order rules out deadlock in any state, however it was reached: no
      transactions wait in a circle; an open transaction can run, or waits, at
      most twice removed, for one that can; and running leaves it strictly fewer
      statements, so every open transaction ends after at most five. */
  lemma NoDeadlock(h: Hashes, s: State, t: nat)
    ensures !exists circle :: WaitsInACircle(h, s, circle)
    ensures t in s.txs && !s.txs[t].at.Ended? ==> exists u :: LeadsTo(h, s, t, u)
    ensures Runnable(h, s, t) ==> Left(Advance(s, t).txs[t].at) < Left(s.txs[t].at) <= 5
  {
    forall circle ensures !WaitsInACircle(h, s, circle) {
      NoCircle(h, s, circle);
    }
    if t in s.txs && !s.txs[t].at.Ended? {
      var u := WaitsLeadToARunner(h, s, t);
    }
  }
}
