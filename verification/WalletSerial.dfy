/** Every interleaving of wallet transactions is a serial run: the registrations
    in the order of their inserts, the promotions in the order of their commits,
    and the single-statement commands where they stand. */
module WalletSerial {
  import opened Common
  import opened KeyTables
  import opened KeyCommands
  import L = WalletLocks
  import A = AddressReuse

  // ---------------------------------------------------------------- the serial state beside a concurrent one

  /** A registration between its insert and its commit. */
  ghost predicate Pending(tx: L.Tx) {
    tx.job.Registering? && tx.at.Upserted? && tx.at.insert.Some?
  }

  /** Its wallet id is not in use yet. */
  ghost predicate Early(tx: L.Tx) {
    tx.job.Registering? && (tx.at.Begun? || tx.at.AccountLocked? || tx.at.KeyLocked? || tx.at.Checked?)
  }

  /** The serial wallets: what is committed, and what pending registrations have inserted. */
  ghost predicate Merged(s: L.State, wallets: map<Uuid, Wallet>) {
    && (forall v :: v in s.wallets ==> v in wallets && wallets[v] == s.wallets[v])
    && (forall t :: t in s.txs && Pending(s.txs[t]) ==>
          s.txs[t].job.newId in wallets && wallets[s.txs[t].job.newId] == s.txs[t].at.insert.value)
    && (forall v :: v in wallets ==> v in s.wallets || InsertedBy(s, v))
  }

  ghost predicate InsertedBy(s: L.State, v: Uuid) {
    exists t :: t in s.txs && Pending(s.txs[t]) && s.txs[t].job.newId == v
  }

  /** An insert stays pending when its own transaction does not move. */
  lemma StillInserted(s: L.State, s': L.State, v: Uuid, t: nat)
    requires InsertedBy(s, v) && (t in s.txs && Pending(s.txs[t]) ==> s.txs[t].job.newId != v)
    requires forall u :: u in s.txs && u != t ==> u in s'.txs && s'.txs[u] == s.txs[u]
    ensures InsertedBy(s', v)
  {
    var u :| u in s.txs && Pending(s.txs[u]) && s.txs[u].job.newId == v;
    assert u in s'.txs && Pending(s'.txs[u]) && s'.txs[u].job.newId == v;
  }

  ghost predicate IdsFresh(s: L.State, w: A.World) {
    && w.walletIds <= s.ids
    && (forall t :: t in s.txs && Early(s.txs[t]) ==> s.txs[t].job.newId !in w.walletIds)
    && (forall t :: t in s.txs && Pending(s.txs[t]) ==> s.txs[t].at.insert.value.index == 0)
  }

  ghost predicate Sim(s: L.State, w: A.World) {
    w.db == EMPTY.(wallets := w.db.wallets) && Merged(s, w.db.wallets) && IdsFresh(s, w)
  }

  /** With no registration in between, the serial wallets are the committed ones. */
  lemma SettledIsEqual(s: L.State, w: A.World)
    requires Sim(s, w) && forall t :: t in s.txs ==> !Pending(s.txs[t])
    ensures w.db.wallets == s.wallets
  {
  }

  // ---------------------------------------------------------------- one step

  /** Nobody else has anything pending for an account whose lock this transaction holds, nor for its key. */
  lemma NoOtherPending(h: L.Hashes, s: L.State, t: nat, u: nat)
    requires L.Safe(h, s) && t in s.txs && u in s.txs && t != u && Pending(s.txs[u])
    requires !s.txs[t].at.Begun? && !s.txs[t].at.Ended?
    ensures s.txs[u].job.user != s.txs[t].job.user && s.txs[u].at.insert.value.owner == s.txs[u].job.user
    ensures s.txs[t].at.Checked? && s.txs[t].job.Registering? ==>
      s.txs[u].job.xpub != s.txs[t].job.xpub && s.txs[u].at.insert.value.xpub == s.txs[u].job.xpub
  {
    assert L.ReadsHold(s.wallets, s.txs[u]);
    assert L.HoldsAccount(h, s.txs[t], h.account(s.txs[t].job.user)) && L.HoldsAccount(h, s.txs[u], h.account(s.txs[u].job.user));
    assert L.HoldsKey(h, s.txs[u], h.key(s.txs[u].job.xpub));
    if s.txs[t].at.Checked? && s.txs[t].job.Registering? {
      assert L.HoldsKey(h, s.txs[t], h.key(s.txs[t].job.xpub));
    }
  }

  /** A serial wallet that is not committed is another account's, and of another key. */
  lemma OthersAreElsewhere(h: L.Hashes, s: L.State, t: nat, wallets: map<Uuid, Wallet>, v: Uuid)
    requires L.Safe(h, s) && Merged(s, wallets) && t in s.txs && !Pending(s.txs[t]) && v in wallets && v !in s.wallets
    requires !s.txs[t].at.Begun? && !s.txs[t].at.Ended?
    ensures wallets[v].owner != s.txs[t].job.user
    ensures s.txs[t].at.Checked? && s.txs[t].job.Registering? ==> wallets[v].xpub != s.txs[t].job.xpub
  {
    var u :| u in s.txs && Pending(s.txs[u]) && s.txs[u].job.newId == v;
    NoOtherPending(h, s, t, u);
  }

  /** So a registration sees the same of the serial wallets as of the committed ones. */
  lemma SeesTheSame(h: L.Hashes, s: L.State, t: nat, db: Db)
    requires L.Safe(h, s) && Merged(s, db.wallets) && t in s.txs && s.txs[t].at.Checked? && s.txs[t].job.Registering?
    ensures var job := s.txs[t].job;
      && !HeldElsewhere(db, job.user, job.xpub)
      && (HasFamily(db, job.user, job.namespace) <==> L.HasFamily(s.wallets, job.user, job.namespace))
      && (forall v :: IsKey(db.wallets, v, job.user, job.namespace, job.xpub) <==> IsKey(s.wallets, v, job.user, job.namespace, job.xpub))
      && job.newId !in db.wallets
  {
    var job := s.txs[t].job;
    assert L.ReadsHold(s.wallets, s.txs[t]);
    forall v | v in db.wallets && v !in s.wallets ensures db.wallets[v].owner != job.user && db.wallets[v].xpub != job.xpub {
      OthersAreElsewhere(h, s, t, db.wallets, v);
    }
    forall v, other | Holds(db.wallets, v, other, job.xpub) ensures other == job.user {
      assert v in s.wallets && Holds(s.wallets, v, other, job.xpub);
    }
    if HasFamily(db, job.user, job.namespace) {
      var v :| v in db.wallets && db.wallets[v].owner == job.user && db.wallets[v].namespace == job.namespace;
      assert v in s.wallets;
    }
    if L.HasFamily(s.wallets, job.user, job.namespace) {
      var v :| v in s.wallets && s.wallets[v].owner == job.user && s.wallets[v].namespace == job.namespace;
      assert v in db.wallets;
    }
  }

  /** The insert of a registration is the serial registration. */
  lemma InsertStep(h: L.Hashes, s: L.State, t: nat, w: A.World, derive: A.Derivation) returns (op: A.Op)
    requires L.Safe(h, s) && Sim(s, w) && t in s.txs && s.txs[t].at.Checked?
    ensures Matches(s, L.Advance(s, t), w, op, derive)
  {
    assert L.ReadsHold(s.wallets, s.txs[t]);
    var job := s.txs[t].job;
    op := A.Register(job.user, job.namespace, job.xpub, job.newId);
    SeesTheSame(h, s, t, w.db);
    InsertMerges(h, s, t, w.db);
    InsertIsFresh(h, s, t, w, A.Step(w, op));
  }

  lemma InsertMerges(h: L.Hashes, s: L.State, t: nat, db: Db)
    requires L.Safe(h, s) && Merged(s, db.wallets) && t in s.txs && s.txs[t].at.Checked? && s.txs[t].job.Registering?
    ensures var job := s.txs[t].job;
      Merged(L.Advance(s, t), CreateWallet(db, job.user, job.namespace, job.xpub, job.newId).db.wallets)
  {
    InsertIs(h, s, t, db);
    SeesTheSame(h, s, t, db);
    AddedMerges(s, t, L.Upsert(s.wallets, s.txs[t].job), db.wallets);
  }

  /** Serially or not, the same row is inserted, or none. */
  lemma InsertIs(h: L.Hashes, s: L.State, t: nat, db: Db)
    requires L.Safe(h, s) && Merged(s, db.wallets) && t in s.txs && s.txs[t].at.Checked? && s.txs[t].job.Registering?
    ensures var job := s.txs[t].job;
      var insert := L.Upsert(s.wallets, job);
      CreateWallet(db, job.user, job.namespace, job.xpub, job.newId).db.wallets ==
        if insert.Some? then db.wallets[job.newId := insert.value] else db.wallets
  {
    SeesTheSame(h, s, t, db);
  }

  lemma AddedMerges(s: L.State, t: nat, insert: Option<Wallet>, wallets: map<Uuid, Wallet>)
    requires Merged(s, wallets) && L.IdsSound(s) && t in s.txs && s.txs[t].job.Registering? && !Pending(s.txs[t])
    requires s.txs[t].job.newId !in wallets
    ensures Merged(s.(txs := s.txs[t := s.txs[t].(at := L.Upserted(insert))]),
                   if insert.Some? then wallets[s.txs[t].job.newId := insert.value] else wallets)
  {
    var s' := s.(txs := s.txs[t := s.txs[t].(at := L.Upserted(insert))]);
    forall v | v in wallets && v !in s.wallets ensures InsertedBy(s', v) {
      StillInserted(s, s', v, t);
    }
    if insert.Some? {
      assert t in s'.txs && Pending(s'.txs[t]) && s'.txs[t].job.newId == s.txs[t].job.newId;
    }
  }

  lemma InsertIsFresh(h: L.Hashes, s: L.State, t: nat, w: A.World, w': A.World)
    requires L.Safe(h, s) && IdsFresh(s, w) && t in s.txs && s.txs[t].at.Checked? && s.txs[t].job.Registering?
    requires w'.walletIds == w.walletIds + {s.txs[t].job.newId}
    ensures IdsFresh(L.Advance(s, t), w')
  {
  }

  /** `op` is permitted, follows the step in the serial state, and issues nothing. */
  ghost predicate Matches(s: L.State, s': L.State, w: A.World, op: A.Op, derive: A.Derivation) {
    A.Permitted(derive, w, op) && Sim(s', A.Step(w, op)) && A.Step(w, op).issued == w.issued && Command(op)
  }

  ghost predicate Command(op: A.Op) {
    op.Register? || op.Promote? || op.TakeIndex? || op.Delete?
  }

  /** The commit of a promotion is the serial promotion. */
  lemma PromoteStep(h: L.Hashes, s: L.State, t: nat, w: A.World, derive: A.Derivation) returns (op: A.Op)
    requires L.Safe(h, s) && Sim(s, w) && t in s.txs && s.txs[t].at.Promoted?
    ensures Matches(s, L.Advance(s, t), w, op, derive)
  {
    assert L.ReadsHold(s.wallets, s.txs[t]);
    op := A.Promote(s.txs[t].job.user, s.txs[t].job.wallet);
    PromotionMerges(h, s, t, w.db);
  }

  lemma PromotionMerges(h: L.Hashes, s: L.State, t: nat, db: Db)
    requires L.Safe(h, s) && Merged(s, db.wallets) && t in s.txs && s.txs[t].at.Promoted? && s.txs[t].job.Promoting?
    ensures Merged(L.Advance(s, t), SetPrimary(db, s.txs[t].job.user, s.txs[t].job.wallet).db.wallets)
  {
    var tx, s' := s.txs[t], L.Advance(s, t);
    assert L.ReadsHold(s.wallets, tx);
    PromotedRows(s.wallets, db, tx);
    forall u | u in s'.txs && Pending(s'.txs[u])
      ensures var v := s'.txs[u].job.newId; v in db.wallets && db.wallets[v].owner != tx.job.user
    {
      NoOtherPending(h, s, t, u);
    }
    forall v | v in db.wallets && v !in s.wallets ensures InsertedBy(s', v) {
      StillInserted(s, s', v, t);
    }
  }

  /** Committed rows change alike; rows of other accounts not at all. */
  lemma PromotedRows(committed: map<Uuid, Wallet>, db: Db, tx: L.Tx)
    requires tx.at.Promoted? && L.ReadsHold(committed, tx) && forall v :: v in committed ==> v in db.wallets && db.wallets[v] == committed[v]
    ensures var wallets := SetPrimary(db, tx.job.user, tx.job.wallet).db.wallets;
      && wallets.Keys == db.wallets.Keys && L.Published(committed, tx).Keys == committed.Keys
      && (forall v :: v in committed ==> wallets[v] == L.Published(committed, tx)[v])
      && (forall v :: v in db.wallets && db.wallets[v].owner != tx.job.user ==> wallets[v] == db.wallets[v])
  {
    forall v | v in committed ensures SetPrimary(db, tx.job.user, tx.job.wallet).db.wallets[v] == L.Published(committed, tx)[v] {
      assert IsPrimary(committed, v, tx.job.user, committed[tx.job.wallet].namespace) ==> v in tx.at.rows;
    }
  }

  /** Every other statement, the commit of a registration included, leaves the serial state as it is. */
  lemma QuietStep(h: L.Hashes, s: L.State, t: nat, w: A.World)
    requires L.Safe(h, s) && Sim(s, w) && t in s.txs && !s.txs[t].at.Checked? && !s.txs[t].at.Promoted?
    ensures Sim(L.Advance(s, t), w)
  {
    assert L.ReadsHold(s.wallets, s.txs[t]);
    var s' := L.Advance(s, t);
    forall v | v in w.db.wallets ensures v in s'.wallets || InsertedBy(s', v) {
      if v !in s'.wallets {
        StillInserted(s, s', v, t);
      }
    }
  }

  lemma BeginStep(s: L.State, s': L.State, t: nat, job: L.Job, w: A.World)
    requires Sim(s, w) && L.Begins(s, s', t, job)
    ensures Sim(s', w)
  {
    forall v | v in w.db.wallets ensures v in s'.wallets || InsertedBy(s', v) {
      if v !in s.wallets {
        StillInserted(s, s', v, t);
      }
    }
  }

  /** Rolling back a pending registration is deleting a wallet that has issued nothing. */
  lemma RollbackStep(h: L.Hashes, s: L.State, t: nat, w: A.World, derive: A.Derivation) returns (op: A.Op)
    requires L.Safe(h, s) && Sim(s, w) && t in s.txs && Pending(s.txs[t])
    ensures Matches(s, L.Abort(s, t), w, op, derive)
  {
    op := A.Delete(s.txs[t].job.newId);
    RollbackMerges(s, t, w.db.wallets);
    assert !InUse(w.db, s.txs[t].job.newId);
  }

  lemma RollbackMerges(s: L.State, t: nat, wallets: map<Uuid, Wallet>)
    requires Merged(s, wallets) && L.IdsSound(s) && t in s.txs && Pending(s.txs[t])
    ensures Merged(L.Abort(s, t), wallets - {s.txs[t].job.newId})
  {
    var s', gone := L.Abort(s, t), s.txs[t].job.newId;
    forall v | v in wallets && v != gone && v !in s.wallets ensures InsertedBy(s', v) {
      StillInserted(s, s', v, t);
    }
  }

  lemma AbortStep(s: L.State, t: nat, w: A.World)
    requires Sim(s, w) && t in s.txs && !Pending(s.txs[t])
    ensures Sim(L.Abort(s, t), w)
  {
    var s' := L.Abort(s, t);
    forall v | v in w.db.wallets ensures v in s'.wallets || InsertedBy(s', v) {
      if v !in s.wallets {
        StillInserted(s, s', v, t);
      }
    }
  }

  lemma DeleteStep(h: L.Hashes, s: L.State, s': L.State, v: Uuid, w: A.World)
    requires L.Safe(h, s) && Sim(s, w) && L.Deletes(s, s', v)
    ensures Sim(s', A.Step(w, A.Delete(v))) && A.Step(w, A.Delete(v)).issued == w.issued
    ensures A.Unissued(w, v) <==> s.wallets[v].index == 0
  {
    DeleteMerges(s, s', v, w.db.wallets);
    assert !InUse(w.db, v);
  }

  lemma DeleteMerges(s: L.State, s': L.State, v: Uuid, wallets: map<Uuid, Wallet>)
    requires Merged(s, wallets) && L.IdsSound(s) && v in s.wallets && s' == s.(wallets := s.wallets - {v})
    ensures Merged(s', wallets - {v})
  {
    forall x | x in wallets && x !in s.wallets ensures InsertedBy(s', x) {
      StillInsertedAll(s, s', x);
    }
  }

  lemma StillInsertedAll(s: L.State, s': L.State, v: Uuid)
    requires InsertedBy(s, v) && s'.txs == s.txs
    ensures InsertedBy(s', v)
  {
  }

  lemma IndexStep(h: L.Hashes, s: L.State, s': L.State, v: Uuid, w: A.World)
    requires L.Safe(h, s) && Sim(s, w) && L.TakesIndex(s, s', v)
    ensures Sim(s', A.Step(w, A.TakeIndex(v)))
    ensures A.Step(w, A.TakeIndex(v)).issued == w.issued + [A.Issue(s.wallets[v].namespace, s.wallets[v].xpub, s.wallets[v].index)]
  {
    TakeIndexIs(w, v);
    IndexMerges(s, s', v, w.db.wallets);
  }

  lemma TakeIndexIs(w: A.World, v: Uuid)
    requires v in w.db.wallets && w.db.wallets[v].index < MAX_INDEX
    ensures var row := w.db.wallets[v];
      A.Step(w, A.TakeIndex(v)) ==
        w.(db := w.db.(wallets := w.db.wallets[v := row.(index := row.index + 1)]),
           issued := w.issued + [A.Issue(row.namespace, row.xpub, row.index)])
  {
  }

  lemma IndexMerges(s: L.State, s': L.State, v: Uuid, wallets: map<Uuid, Wallet>)
    requires Merged(s, wallets) && L.IdsSound(s) && v in s.wallets
    requires s' == s.(wallets := s.wallets[v := s.wallets[v].(index := s.wallets[v].index + 1)])
    ensures v in wallets && Merged(s', wallets[v := wallets[v].(index := wallets[v].index + 1)])
  {
    forall x | x in wallets && x !in s.wallets ensures InsertedBy(s', x) {
      StillInsertedAll(s, s', x);
    }
  }

  // ---------------------------------------------------------------- any step, serially

  ghost function NewIssue(s: L.State, v: Uuid): A.Issue
    requires v in s.wallets
  {
    A.Issue(s.wallets[v].namespace, s.wallets[v].xpub, s.wallets[v].index)
  }

  /** The index a step takes, if it takes one. */
  ghost function TakenBetween(s: L.State, s': L.State): seq<A.Issue> {
    if v :| L.TakesIndex(s, s', v) then [NewIssue(s, v)] else []
  }

  ghost predicate DeletesUnissued(s: L.State, s': L.State) {
    forall v :: L.Deletes(s, s', v) ==> s.wallets[v].index == 0
  }

  /** The serial run goes on with these commands, permitted unless a wallet that
      has issued is deleted, and reaches the new state with the same index issued. */
  ghost predicate Serially(s: L.State, s': L.State, w: A.World, ops: seq<A.Op>, derive: A.Derivation) {
    && (forall i :: 0 <= i < |ops| ==> Command(ops[i])) && Sim(s', A.Run(w, ops))
    && A.Run(w, ops).issued == w.issued + TakenBetween(s, s')
    && (DeletesUnissued(s, s') ==> A.PermittedRun(derive, w, ops))
  }

  lemma OneOp(w: A.World, op: A.Op, derive: A.Derivation)
    ensures A.Run(w, [op]) == A.Step(w, op)
    ensures A.Permitted(derive, w, op) ==> A.PermittedRun(derive, w, [op])
  {
    assert [op][1..] == [];
    assert A.Run(A.Step(w, op), []) == A.Step(w, op) && A.PermittedRun(derive, A.Step(w, op), []);
  }

  lemma ByOneCommand(s: L.State, s': L.State, w: A.World, op: A.Op, derive: A.Derivation)
    requires Command(op) && Sim(s', A.Step(w, op)) && A.Step(w, op).issued == w.issued + TakenBetween(s, s')
    requires DeletesUnissued(s, s') ==> A.Permitted(derive, w, op)
    ensures Serially(s, s', w, [op], derive)
  {
    OneOp(w, op, derive);
  }

  lemma ByNoCommand(s: L.State, s': L.State, w: A.World, derive: A.Derivation)
    requires Sim(s', w) && TakenBetween(s, s') == []
    ensures Serially(s, s', w, [], derive)
  {
  }

  /** Only taking an index takes one, and only of one wallet. */
  lemma TakenIs(s: L.State, s': L.State, v: Uuid)
    ensures s'.txs != s.txs || s'.wallets.Keys != s.wallets.Keys || s' == s ==> TakenBetween(s, s') == []
    ensures L.TakesIndex(s, s', v) ==> TakenBetween(s, s') == [NewIssue(s, v)]
  {
    forall x | L.TakesIndex(s, s', x)
      ensures s'.txs == s.txs && s'.wallets.Keys == s.wallets.Keys && s' != s && (L.TakesIndex(s, s', v) ==> x == v)
    {
      assert s'.wallets[x].index == s.wallets[x].index + 1;
    }
  }

  lemma AdvanceSerially(h: L.Hashes, s: L.State, t: nat, w: A.World, derive: A.Derivation) returns (ops: seq<A.Op>)
    requires L.Safe(h, s) && Sim(s, w) && L.Runnable(h, s, t)
    ensures Serially(s, L.Advance(s, t), w, ops, derive)
  {
    var s' := L.Advance(s, t);
    assert s'.txs[t] != s.txs[t];
    TakenIs(s, s', 0);
    if s.txs[t].at.Checked? {
      var op := InsertStep(h, s, t, w, derive);
      ops := [op];
      ByOneCommand(s, s', w, op, derive);
    } else if s.txs[t].at.Promoted? {
      var op := PromoteStep(h, s, t, w, derive);
      ops := [op];
      ByOneCommand(s, s', w, op, derive);
    } else {
      QuietStep(h, s, t, w);
      ops := [];
      ByNoCommand(s, s', w, derive);
    }
  }

  lemma AbortSerially(h: L.Hashes, s: L.State, t: nat, w: A.World, derive: A.Derivation) returns (ops: seq<A.Op>)
    requires L.Safe(h, s) && Sim(s, w) && t in s.txs
    ensures Serially(s, L.Abort(s, t), w, ops, derive)
  {
    var s' := L.Abort(s, t);
    assert s.txs[t].at.Ended? ==> s'.txs == s.txs;
    TakenIs(s, s', 0);
    if Pending(s.txs[t]) {
      var op := RollbackStep(h, s, t, w, derive);
      ops := [op];
      ByOneCommand(s, s', w, op, derive);
    } else {
      AbortStep(s, t, w);
      ops := [];
      ByNoCommand(s, s', w, derive);
    }
  }

  lemma CommandSerially(h: L.Hashes, s: L.State, s': L.State, v: Uuid, w: A.World, derive: A.Derivation) returns (ops: seq<A.Op>)
    requires L.Safe(h, s) && Sim(s, w) && (L.TakesIndex(s, s', v) || L.Deletes(s, s', v))
    ensures Serially(s, s', w, ops, derive)
  {
    TakenIs(s, s', v);
    if L.TakesIndex(s, s', v) {
      IndexStep(h, s, s', v, w);
      ops := [A.TakeIndex(v)];
      ByOneCommand(s, s', w, A.TakeIndex(v), derive);
    } else {
      assert v in s.wallets.Keys && v !in s'.wallets.Keys;
      DeleteStep(h, s, s', v, w);
      ops := [A.Delete(v)];
      ByOneCommand(s, s', w, A.Delete(v), derive);
    }
  }

  lemma NextSerially(h: L.Hashes, s: L.State, s': L.State, w: A.World, derive: A.Derivation) returns (ops: seq<A.Op>)
    requires L.Safe(h, s) && Sim(s, w) && L.Next(h, s, s')
    ensures Serially(s, s', w, ops, derive)
  {
    if t, job :| L.Begins(s, s', t, job) {
      BeginStep(s, s', t, job, w);
      assert t in s'.txs && t !in s.txs;
      TakenIs(s, s', 0);
      ops := [];
      ByNoCommand(s, s', w, derive);
    } else if t :| L.Runnable(h, s, t) && s' == L.Advance(s, t) {
      ops := AdvanceSerially(h, s, t, w, derive);
    } else if t :| t in s.txs && s' == L.Abort(s, t) {
      ops := AbortSerially(h, s, t, w, derive);
    } else {
      var v :| L.TakesIndex(s, s', v) || L.Deletes(s, s', v);
      ops := CommandSerially(h, s, s', v, w, derive);
    }
  }

  // ---------------------------------------------------------------- whole interleavings

  /** The indices taken along an interleaving, in order. */
  ghost function Taken(trace: seq<L.State>): seq<A.Issue> {
    if |trace| < 2 then []
    else Taken(trace[..|trace| - 1]) + TakenBetween(trace[|trace| - 2], trace[|trace| - 1])
  }

  ghost predicate DeletesOnlyUnissued(trace: seq<L.State>) {
    forall i :: 0 <= i < |trace| - 1 ==> DeletesUnissued(trace[i], trace[i + 1])
  }

  /** No registration is between its insert and its commit. */
  ghost predicate Settled(s: L.State) {
    forall t :: t in s.txs ==> !Pending(s.txs[t])
  }

  lemma {:induction false} RunOn(derive: A.Derivation, w: A.World, ops: seq<A.Op>, more: seq<A.Op>)
    ensures A.Run(w, ops + more) == A.Run(A.Run(w, ops), more)
    ensures A.PermittedRun(derive, w, ops) && A.PermittedRun(derive, A.Run(w, ops), more) ==> A.PermittedRun(derive, w, ops + more)
    decreases |ops|
  {
    if ops == [] {
      assert ops + more == more;
    } else {
      assert (ops + more)[1..] == ops[1..] + more;
      RunOn(derive, A.Step(w, ops[0]), ops[1..], more);
    }
  }

  /** The commands lead from the empty database to the serial state of the last
      state, issuing what the interleaving took, and are permitted if it deletes
      no wallet that has issued. */
  ghost predicate SerialRun(trace: seq<L.State>, ops: seq<A.Op>, derive: A.Derivation)
    requires |trace| > 0
  {
    && (forall i :: 0 <= i < |ops| ==> Command(ops[i])) && Sim(trace[|trace| - 1], A.Run(A.INITIAL, ops))
    && A.Run(A.INITIAL, ops).issued == Taken(trace)
    && (DeletesOnlyUnissued(trace) ==> A.PermittedRun(derive, A.INITIAL, ops))
  }

  lemma SerialRunGrows(trace: seq<L.State>, before: seq<A.Op>, more: seq<A.Op>, derive: A.Derivation)
    requires |trace| > 1 && SerialRun(trace[..|trace| - 1], before, derive)
    requires Serially(trace[|trace| - 2], trace[|trace| - 1], A.Run(A.INITIAL, before), more, derive)
    ensures SerialRun(trace, before + more, derive)
  {
    RunOn(derive, A.INITIAL, before, more);
    var n := |trace| - 1;
    if DeletesOnlyUnissued(trace) {
      assert DeletesUnissued(trace[n - 1], trace[n - 1 + 1]);
    }
  }

  lemma StartIsSerial(trace: seq<L.State>, derive: A.Derivation)
    requires |trace| == 1 && trace[0] == L.State(map[], map[], {})
    ensures SerialRun(trace, [], derive)
  {
  }

  lemma GrowsByOne(h: L.Hashes, trace: seq<L.State>, before: seq<A.Op>, derive: A.Derivation) returns (ops: seq<A.Op>)
    requires L.Reachable(h, trace) && |trace| > 1 && SerialRun(trace[..|trace| - 1], before, derive)
    ensures SerialRun(trace, ops, derive)
  {
    var n := |trace| - 1;
    L.ReachableIsSafe(h, trace[..n]);
    assert L.Next(h, trace[n - 1], trace[n - 1 + 1]);
    var more := NextSerially(h, trace[n - 1], trace[n], A.Run(A.INITIAL, before), derive);
    ops := before + more;
    SerialRunGrows(trace, before, more, derive);
  }

  lemma {:induction false} RunExists(h: L.Hashes, trace: seq<L.State>, derive: A.Derivation) returns (ops: seq<A.Op>)
    requires L.Reachable(h, trace)
    ensures SerialRun(trace, ops, derive)
    decreases |trace|
  {
    if |trace| == 1 {
      StartIsSerial(trace, derive);
      ops := [];
    } else {
      var before := RunExists(h, trace[..|trace| - 1], derive);
      ops := GrowsByOne(h, trace, before, derive);
    }
  }

  /** Every interleaving has a serial run of registrations, promotions, index
      takings and deletions that issues the same indices in the same order; and
      once no registration is between insert and commit, it ends in the same wallets. */
  lemma InterleavingsAreSerial(h: L.Hashes, trace: seq<L.State>, derive: A.Derivation) returns (ops: seq<A.Op>)
    requires L.Reachable(h, trace)
    ensures SerialRun(trace, ops, derive)
    ensures Settled(trace[|trace| - 1]) ==> A.Run(A.INITIAL, ops).db == EMPTY.(wallets := trace[|trace| - 1].wallets)
  {
    ops := RunExists(h, trace, derive);
    if Settled(trace[|trace| - 1]) {
      SettledIsEqual(trace[|trace| - 1], A.Run(A.INITIAL, ops));
    }
  }

  /** Under every interleaving of any number of transactions, no index of any key
      is taken twice, if no wallet that has issued one is deleted. */
  lemma NoIndexIsTakenTwice(h: L.Hashes, trace: seq<L.State>)
    requires L.Reachable(h, trace) && DeletesOnlyUnissued(trace)
    ensures Distinct(Taken(trace))
  {
    var derive: A.Derivation := (e: A.Issue) => e.xpub;
    var ops := InterleavingsAreSerial(h, trace, derive);
    A.NoIndexIsIssuedTwice(derive, ops);
  }
}
