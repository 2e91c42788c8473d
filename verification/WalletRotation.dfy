/** Rotating a store onto a new key: one transaction that repoints pins, moves
    the override when something inherited, and logs what it moved. */
module WalletRotation {
  import opened Common
  import opened KeyTables
  import opened KeyCommands
  import opened KeyRouting
  import opened Ordered

  /** The method is in scope and derives from a wallet other than the target. */
  ghost predicate RotatesAway(db: Db, m: Uuid, store: Uuid, only: Option<set<Uuid>>, ns: string, target: Uuid) {
    && InFamily(db, m, store, ns) && Resolve(db, m).Some? && Resolve(db, m).value != target
    && (only.None? || m in only.value)
  }

  ghost function ToRotate(db: Db, store: Uuid, only: Option<set<Uuid>>, ns: string, target: Uuid): set<Uuid> {
    set m | m in db.methods && RotatesAway(db, m, store, only, ns, target)
  }

  /** The audit row of one rotated method: the key it derived from and how far that key had been used. */
  ghost function AuditRow(db: Db, m: Uuid, newXpub: string): Rotation
    requires m in db.methods && Resolve(db, m).Some?
  {
    var w := db.wallets[Resolve(db, m).value];
    Rotation(db.methods[m].store, w.xpub, newXpub, m, w.index)
  }

  /** Pins of the rotated methods move to the target; an inheriting method stays inheriting. */
  ghost function Repin(methods: map<Uuid, Method>, moved: set<Uuid>, target: Uuid): map<Uuid, Method> {
    map m | m in methods ::
      if m in moved && methods[m].pin.Some? then methods[m].(pin := Some(target)) else methods[m]
  }

  ghost predicate SomeInherits(db: Db, moved: set<Uuid>) {
    exists m :: m in moved && m in db.methods && db.methods[m].pin.None?
  }

  ghost function AuditRows(db: Db, ids: seq<Uuid>, newXpub: string): seq<Rotation>
    requires forall m :: m in ids ==> m in db.methods && Resolve(db, m).Some?
  {
    seq(|ids|, i requires 0 <= i < |ids| => AuditRow(db, ids[i], newXpub))
  }

  /** The tables once the given methods have been moved off their wallets and onto the target. */
  ghost function Moved(db: Db, store: Uuid, ns: string, moved: set<Uuid>, target: Uuid): Db {
    db.(methods := Repin(db.methods, moved, target),
        overrides := if SomeInherits(db, moved) then db.overrides[OverrideKey(store, ns) := target] else db.overrides)
  }

  ghost function RotateOnto(db: Db, store: Uuid, only: Option<set<Uuid>>, ns: string, xpub: string, target: Uuid)
    : (r: Reply<seq<Rotation>>)
  {
    var moved := ToRotate(db, store, only, ns, target);
    var rows := AuditRows(db, Ascending(moved), xpub);
    Reply(Moved(db, store, ns, moved, target).(rotations := db.rotations + rows), Ok(rows))
  }

  ghost function Rotate(db: Db, store: Uuid, only: Option<set<Uuid>>, ns: string, xpub: string, newId: Uuid)
    : (r: Reply<seq<Rotation>>)
  {
    if store !in db.stores then Reply(db, Err(NotFound))
    else if HeldElsewhere(db, db.stores[store], xpub) then Reply(db, Err(Conflict))
    else
      var (db1, target) := UpsertWallet(db, db.stores[store], ns, xpub, newId);
      RotateOnto(db1, store, only, ns, xpub, target)
  }

  /** The wallet a rotation moves a store onto. */
  ghost function Target(db: Db, store: Uuid, ns: string, xpub: string, newId: Uuid): Uuid
    requires store in db.stores
  {
    UpsertWallet(db, db.stores[store], ns, xpub, newId).1
  }

  lemma RotateKeepsInv(db: Db, store: Uuid, only: Option<set<Uuid>>, ns: string, xpub: string, newId: Uuid)
    requires Inv(db) && newId !in db.wallets
    ensures Inv(Rotate(db, store, only, ns, xpub, newId).db)
  {
    if Rotate(db, store, only, ns, xpub, newId).answer.Ok? {
      UpsertWalletKeepsInv(db, db.stores[store], ns, xpub, newId);
      var (db1, target) := UpsertWallet(db, db.stores[store], ns, xpub, newId);
      MovedKeepsInv(db1, store, ns, ToRotate(db1, store, only, ns, target), target);
    }
  }

  lemma MovedKeepsInv(db: Db, store: Uuid, ns: string, moved: set<Uuid>, target: Uuid)
    requires Inv(db) && Serves(db.stores, db.wallets, target, store, ns)
    requires forall n :: n in moved ==> InFamily(db, n, store, ns)
    ensures Inv(Moved(db, store, ns, moved, target))
  {
    SameAssets(db.methods, Repin(db.methods, moved, target));
  }

  lemma MovedRoutes(db: Db, store: Uuid, ns: string, moved: set<Uuid>, target: Uuid, m: Uuid)
    requires Inv(db) && Serves(db.stores, db.wallets, target, store, ns)
    requires forall n :: n in moved ==> InFamily(db, n, store, ns)
    ensures Resolve(Moved(db, store, ns, moved, target), m) ==
      if m in moved || (SomeInherits(db, moved) && InFamily(db, m, store, ns) && db.methods[m].pin.None?)
      then Some(target) else Resolve(db, m)
  {
  }

  /** Where rotation leaves a method, in scope or not, whether rotating one method or all. */
  lemma RotateRoutes(db: Db, store: Uuid, only: Option<set<Uuid>>, ns: string, xpub: string, newId: Uuid, m: Uuid)
    requires Inv(db) && newId !in db.wallets && Rotate(db, store, only, ns, xpub, newId).answer.Ok?
    ensures var db1 := UpsertWallet(db, db.stores[store], ns, xpub, newId).0;
      var moved := ToRotate(db1, store, only, ns, Target(db, store, ns, xpub, newId));
      Resolve(Rotate(db, store, only, ns, xpub, newId).db, m) ==
        if m in moved || (SomeInherits(db1, moved) && InFamily(db, m, store, ns) && db.methods[m].pin.None?)
        then Some(Target(db, store, ns, xpub, newId)) else Resolve(db1, m)
  {
    UpsertWalletKeepsInv(db, db.stores[store], ns, xpub, newId);
    var (db1, target) := UpsertWallet(db, db.stores[store], ns, xpub, newId);
    var moved := ToRotate(db1, store, only, ns, target);
    MovedRoutes(db1, store, ns, moved, target, m);
    SameResolution(Moved(db1, store, ns, moved, target), Rotate(db, store, only, ns, xpub, newId).db, m);
  }

  lemma SameResolution(a: Db, b: Db, m: Uuid)
    requires a == b.(rotations := a.rotations)
    ensures Resolve(a, m) == Resolve(b, m)
  {
  }

  /** Whole-store rotation. Every method of that store and family that has a
      wallet ends on the new one; pinned stays pinned and inheriting stays
      inheriting; every method elsewhere that had a wallet keeps it. */
  lemma WholeStoreRotation(db: Db, store: Uuid, ns: string, xpub: string, newId: Uuid, m: Uuid)
    requires Inv(db) && newId !in db.wallets && Rotate(db, store, None, ns, xpub, newId).answer.Ok? && m in db.methods
    ensures var after := Rotate(db, store, None, ns, xpub, newId).db;
      var target := Target(db, store, ns, xpub, newId);
      && m in after.methods && (after.methods[m].pin.Some? <==> db.methods[m].pin.Some?)
      && (InFamily(db, m, store, ns) ==>
            (Resolve(db, m).Some? ==> Resolve(after, m) == Some(target)) &&
            (Resolve(after, m).Some? ==> Resolve(after, m) == Some(target)))
      && (!InFamily(db, m, store, ns) && Resolve(db, m).Some? ==> Resolve(after, m) == Resolve(db, m))
      && (!InFamily(db, m, store, ns) ==> after.methods[m] == db.methods[m])
  {
    RotateRoutes(db, store, None, ns, xpub, newId, m);
    UpsertWalletRoutes(db, db.stores[store], ns, xpub, newId, m);
    UpsertWalletKeepsInv(db, db.stores[store], ns, xpub, newId);
    if Resolve(db, m).Some? && FollowsPrimary(db, m, db.stores[store], ns) {
      ResolutionServes(db, m);
    }
  }

  /** No counter moves: a wallet that existed is untouched, and a new one starts at 0. */
  lemma RotationMovesNoCounter(db: Db, store: Uuid, only: Option<set<Uuid>>, ns: string, xpub: string, newId: Uuid, w: Uuid)
    requires Inv(db) && newId !in db.wallets && Rotate(db, store, only, ns, xpub, newId).answer.Ok?
    ensures var after := Rotate(db, store, only, ns, xpub, newId).db;
      var target := Target(db, store, ns, xpub, newId);
      && (w in db.wallets ==> w in after.wallets && after.wallets[w] == db.wallets[w])
      && (w in after.wallets && w !in db.wallets ==> w == target && after.wallets[w].index == 0)
      && IsKey(after.wallets, target, db.stores[store], ns, xpub)
  {
    UpsertWalletKeepsInv(db, db.stores[store], ns, xpub, newId);
  }

  /** Registering the new key changes neither which methods derive from another wallet nor those wallets. */
  lemma RegistrationMovesNothing(db: Db, store: Uuid, ns: string, xpub: string, newId: Uuid, m: Uuid)
    requires Inv(db) && newId !in db.wallets && store in db.stores && !HeldElsewhere(db, db.stores[store], xpub)
    ensures var (db1, target) := UpsertWallet(db, db.stores[store], ns, xpub, newId);
      && (RotatesAway(db1, m, store, None, ns, target) <==> RotatesAway(db, m, store, None, ns, target))
      && (RotatesAway(db, m, store, None, ns, target) ==> AuditRow(db1, m, xpub) == AuditRow(db, m, xpub))
  {
    UpsertWalletRoutes(db, db.stores[store], ns, xpub, newId, m);
    if Resolve(db, m).Some? {
      ResolutionServes(db, m);
    }
  }

  lemma SameScope(a: Db, b: Db, store: Uuid, ns: string, target: Uuid)
    requires forall m :: RotatesAway(a, m, store, None, ns, target) <==> RotatesAway(b, m, store, None, ns, target)
    ensures ToRotate(a, store, None, ns, target) == ToRotate(b, store, None, ns, target)
  {
    assert forall m :: m in ToRotate(a, store, None, ns, target) <==> m in ToRotate(b, store, None, ns, target);
  }

  lemma SameAudit(a: Db, b: Db, ids: seq<Uuid>, xpub: string)
    requires forall m :: m in ids ==> m in a.methods && Resolve(a, m).Some? && m in b.methods && Resolve(b, m).Some?
    requires forall m :: m in ids ==> AuditRow(a, m, xpub) == AuditRow(b, m, xpub)
    ensures AuditRows(a, ids, xpub) == AuditRows(b, ids, xpub)
  {
    assert forall i :: 0 <= i < |ids| ==> ids[i] in ids;
  }

  /** The log gains one row for each method that derived from another wallet
      before the rotation, in method order and nothing else; each row carries
      that wallet's key and its counter as they stood. */
  lemma RotationLogIsExact(db: Db, store: Uuid, ns: string, xpub: string, newId: Uuid)
    requires Inv(db) && newId !in db.wallets && Rotate(db, store, None, ns, xpub, newId).answer.Ok?
    ensures var r := Rotate(db, store, None, ns, xpub, newId);
      var moved := ToRotate(db, store, None, ns, Target(db, store, ns, xpub, newId));
      && r.db.rotations == db.rotations + r.answer.value
      && r.answer.value == AuditRows(db, Ascending(moved), xpub)
  {
    var (db1, target) := UpsertWallet(db, db.stores[store], ns, xpub, newId);
    forall m
      ensures RotatesAway(db1, m, store, None, ns, target) <==> RotatesAway(db, m, store, None, ns, target)
      ensures RotatesAway(db, m, store, None, ns, target) ==> AuditRow(db1, m, xpub) == AuditRow(db, m, xpub)
    {
      RegistrationMovesNothing(db, store, ns, xpub, newId, m);
    }
    SameScope(db1, db, store, ns, target);
    SameAudit(db1, db, Ascending(ToRotate(db, store, None, ns, target)), xpub);
  }

  // ---------------------------------------------------------------- in the caller's terms

  /** Rotation is refused exactly for an unknown store or a key another account holds, changing nothing. */
  lemma RotateAnswers(db: Db, store: Uuid, only: Option<set<Uuid>>, ns: string, xpub: string, newId: Uuid)
    ensures var r := Rotate(db, store, only, ns, xpub, newId);
      && (store !in db.stores ==> r == Reply(db, Err(NotFound)))
      && (store in db.stores && (exists w :: w in db.wallets && db.wallets[w].xpub == xpub && db.wallets[w].owner != db.stores[store])
          ==> r == Reply(db, Err(Conflict)))
      && (store in db.stores && (forall w :: w in db.wallets && db.wallets[w].xpub == xpub ==> db.wallets[w].owner == db.stores[store])
          ==> r.answer.Ok? && r.db.stores == db.stores)
  {
    if store in db.stores {
      if w :| w in db.wallets && db.wallets[w].xpub == xpub && db.wallets[w].owner != db.stores[store] {
        assert Holds(db.wallets, w, db.wallets[w].owner, xpub);
      }
    }
  }

  /** The method is of this store and family, and resolves to a wallet other than the target. */
  ghost predicate Leaves(db: Db, m: Uuid, store: Uuid, ns: string, target: Uuid) {
    && m in db.methods && db.methods[m].store == store && db.methods[m].chain.namespace == ns
    && Resolve(db, m).Some? && Resolve(db, m).value != target && Resolve(db, m).value in db.wallets
  }

  /** The row names the store, the method, the key it is leaving and how far that was used, and the key it moves to. */
  ghost predicate LogRow(db: Db, row: Rotation, store: Uuid, ns: string, target: Uuid, xpub: string) {
    && row.store == store && row.newXpub == xpub && Leaves(db, row.methodId, store, ns, target)
    && row.previousXpub == db.wallets[Resolve(db, row.methodId).value].xpub
    && row.previousIndex == db.wallets[Resolve(db, row.methodId).value].index
  }

  /** A rotation's log, row by row: one row for each method of the store and family
      that resolved to another wallet, and for no other, in method order. */
  lemma RotationLogRows(db: Db, store: Uuid, ns: string, xpub: string, newId: Uuid)
    requires Inv(db) && newId !in db.wallets && Rotate(db, store, None, ns, xpub, newId).answer.Ok?
    ensures var log := Rotate(db, store, None, ns, xpub, newId).answer.value;
      var target := Target(db, store, ns, xpub, newId);
      && (forall i :: 0 <= i < |log| ==> LogRow(db, log[i], store, ns, target, xpub))
      && (forall i, j :: 0 <= i < j < |log| ==> log[i].methodId < log[j].methodId)
      && (forall m :: Leaves(db, m, store, ns, target) ==> Logged(log, m))
  {
    RotationLogIsExact(db, store, ns, xpub, newId);
    var target := Target(db, store, ns, xpub, newId);
    var moved := ToRotate(db, store, None, ns, target);
    forall m ensures m in moved <==> Leaves(db, m, store, ns, target) {
    }
    RowsOfLog(db, moved, store, ns, target, xpub);
  }

  lemma RowsOfLog(db: Db, moved: set<Uuid>, store: Uuid, ns: string, target: Uuid, xpub: string)
    requires forall m :: m in moved ==> m in db.methods && Resolve(db, m).Some?
    requires forall m :: m in moved <==> Leaves(db, m, store, ns, target)
    ensures var log := AuditRows(db, Ascending(moved), xpub);
      && (forall i :: 0 <= i < |log| ==> LogRow(db, log[i], store, ns, target, xpub))
      && (forall i, j :: 0 <= i < j < |log| ==> log[i].methodId < log[j].methodId)
      && (forall m :: m in moved ==> Logged(log, m))
  {
    var ids := Ascending(moved);
    var log := AuditRows(db, ids, xpub);
    forall i | 0 <= i < |log| ensures log[i].methodId == ids[i] && LogRow(db, log[i], store, ns, target, xpub) {
      assert ids[i] in ids;
    }
    forall m | m in moved ensures Logged(log, m) {
      var i :| 0 <= i < |ids| && ids[i] == m;
      assert log[i].methodId == m;
    }
  }

  ghost predicate Logged(log: seq<Rotation>, m: Uuid) {
    exists i :: 0 <= i < |log| && log[i].methodId == m
  }

  /** Rotating some methods only: a chosen method that has a wallet ends on the new
      one; a pinned method that was not chosen keeps its wallet, and so does every
      method of another store or family that has one. */
  lemma RotateSomeRoutes(db: Db, store: Uuid, chosen: set<Uuid>, ns: string, xpub: string, newId: Uuid, m: Uuid)
    requires Inv(db) && newId !in db.wallets && Rotate(db, store, Some(chosen), ns, xpub, newId).answer.Ok? && m in db.methods
    ensures var after := Rotate(db, store, Some(chosen), ns, xpub, newId).db;
      var target := Target(db, store, ns, xpub, newId);
      && (InFamily(db, m, store, ns) && m in chosen && Resolve(db, m).Some? ==> Resolve(after, m) == Some(target))
      && (m !in chosen && db.methods[m].pin.Some? ==> after.methods[m] == db.methods[m] && Resolve(after, m) == Resolve(db, m))
      && (!InFamily(db, m, store, ns) && Resolve(db, m).Some? ==> Resolve(after, m) == Resolve(db, m))
      && (after.methods[m].pin.Some? <==> db.methods[m].pin.Some?)
  {
    RotateRoutes(db, store, Some(chosen), ns, xpub, newId, m);
    UpsertWalletRoutes(db, db.stores[store], ns, xpub, newId, m);
    var (db1, target) := UpsertWallet(db, db.stores[store], ns, xpub, newId);
    if InFamily(db, m, store, ns) && m in chosen && Resolve(db, m).Some? && Resolve(db1, m) != Some(target) {
      assert RotatesAway(db1, m, store, Some(chosen), ns, target);
    }
  }

  /** Whatever it moves, a rotation rewrites nothing of a method but its pin, and of the overrides only this one. */
  lemma RotationRewrites(db: Db, store: Uuid, only: Option<set<Uuid>>, ns: string, xpub: string, newId: Uuid)
    requires Rotate(db, store, only, ns, xpub, newId).answer.Ok?
    ensures var after := Rotate(db, store, only, ns, xpub, newId).db;
      Rewritten(db.methods, after.methods) && OtherOverridesKept(db.overrides, after.overrides, OverrideKey(store, ns))
      && db.rotations <= after.rotations
  {
    var (db1, target) := UpsertWallet(db, db.stores[store], ns, xpub, newId);
    MoveRewrites(db1, store, ns, ToRotate(db1, store, only, ns, target), target);
  }

  ghost predicate Rewritten(before: map<Uuid, Method>, after: map<Uuid, Method>) {
    after.Keys == before.Keys && forall m :: m in before ==> after[m] == before[m].(pin := after[m].pin)
  }

  ghost predicate OtherOverridesKept(before: map<OverrideKey, Uuid>, after: map<OverrideKey, Uuid>, key: OverrideKey) {
    forall k :: k != key ==> (k in after <==> k in before) && (k in before ==> after[k] == before[k])
  }

  lemma MoveRewrites(db: Db, store: Uuid, ns: string, moved: set<Uuid>, target: Uuid)
    ensures var after := Moved(db, store, ns, moved, target);
      Rewritten(db.methods, after.methods) && OtherOverridesKept(db.overrides, after.overrides, OverrideKey(store, ns))
  {
  }
}
