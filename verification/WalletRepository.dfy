/** The repository as the program runs it: each method is one transaction,
    statement by statement, and is proved to do what the command of the same
    name in `KeyCommands` or `WalletRotation` says. */
module WalletRepository {
  import opened Common
  import opened KeyTables
  import opened KeyCommands
  import opened WalletRotation
  import opened Ordered

  /** One payment method as a rotation sees it. */
  datatype MethodToRotate = MethodToRotate(id: Uuid, xpub: string, index: nat, pinned: bool)

  /** The row says of method `m` which wallet it derives from and whether it is pinned there. */
  ghost predicate Describes(db: Db, m: Uuid, row: MethodToRotate) {
    m in db.methods && Resolve(db, m).Some? &&
    row == MethodToRotate(m, db.wallets[Resolve(db, m).value].xpub, db.wallets[Resolve(db, m).value].index, db.methods[m].pin.Some?)
  }

  ghost predicate DescribesAll(db: Db, ids: seq<Uuid>, rows: seq<MethodToRotate>) {
    |rows| == |ids| && forall i :: 0 <= i < |ids| ==> Describes(db, ids[i], rows[i])
  }

  ghost function Entry(store: Uuid, newXpub: string, row: MethodToRotate): Rotation {
    Rotation(store, row.xpub, newXpub, row.id, row.index)
  }

  ghost function Entries(store: Uuid, newXpub: string, rows: seq<MethodToRotate>): seq<Rotation> {
    seq(|rows|, i requires 0 <= i < |rows| => Entry(store, newXpub, rows[i]))
  }

  ghost function Ids(rows: seq<MethodToRotate>): set<Uuid> {
    set i | 0 <= i < |rows| :: rows[i].id
  }

  ghost predicate AnyInherits(rows: seq<MethodToRotate>) {
    exists i :: 0 <= i < |rows| && !rows[i].pinned
  }

  /** Moving one more method. */
  lemma RepinOneMore(methods: map<Uuid, Method>, rows: seq<MethodToRotate>, row: MethodToRotate, target: Uuid)
    requires row.id in methods && row.id !in Ids(rows) && row.pinned == methods[row.id].pin.Some?
    ensures Repin(methods, Ids(rows + [row]), target) ==
      var before := Repin(methods, Ids(rows), target);
      if row.pinned then before[row.id := methods[row.id].(pin := Some(target))] else before
    ensures Repin(methods, Ids(rows), target)[row.id] == methods[row.id]
  {
    var more := rows + [row];
    assert more[|rows|] == row;
    assert forall x :: x in Ids(more) <==> x in Ids(rows) || x == row.id by {
      assert forall i :: 0 <= i < |rows| ==> more[i] == rows[i];
    }
  }

  lemma OneMoreEntry(store: Uuid, newXpub: string, rows: seq<MethodToRotate>, row: MethodToRotate)
    ensures Entries(store, newXpub, rows + [row]) == Entries(store, newXpub, rows) + [Entry(store, newXpub, row)]
    ensures AnyInherits(rows + [row]) <==> AnyInherits(rows) || !row.pinned
  {
    var more := rows + [row];
    assert more[|rows|] == row && forall i :: 0 <= i < |rows| ==> more[i] == rows[i];
    if AnyInherits(rows) {
      var i :| 0 <= i < |rows| && !rows[i].pinned;
      assert !more[i].pinned;
    }
  }

  lemma RowsCarryTheScope(db: Db, moved: set<Uuid>, rows: seq<MethodToRotate>)
    requires DescribesAll(db, Ascending(moved), rows)
    ensures Ids(rows) == moved
  {
    var ids := Ascending(moved);
    forall x ensures x in Ids(rows) <==> x in moved {
      if x in moved {
        var i :| 0 <= i < |ids| && ids[i] == x;
        assert Describes(db, ids[i], rows[i]);
      }
      if x in Ids(rows) {
        var i :| 0 <= i < |rows| && rows[i].id == x;
        assert Describes(db, ids[i], rows[i]) && ids[i] in ids;
      }
    }
  }

  lemma RowsCarryTheInheriting(db: Db, moved: set<Uuid>, rows: seq<MethodToRotate>)
    requires DescribesAll(db, Ascending(moved), rows)
    ensures AnyInherits(rows) <==> SomeInherits(db, moved)
  {
    var ids := Ascending(moved);
    if m :| m in moved && m in db.methods && db.methods[m].pin.None? {
      var i :| 0 <= i < |ids| && ids[i] == m;
      assert Describes(db, ids[i], rows[i]);
    }
    if i :| 0 <= i < |rows| && !rows[i].pinned {
      assert Describes(db, ids[i], rows[i]) && ids[i] in ids;
    }
  }

  lemma RowsCarryTheLog(db: Db, ids: seq<Uuid>, store: Uuid, newXpub: string, rows: seq<MethodToRotate>)
    requires DescribesAll(db, ids, rows)
    requires forall m :: m in ids ==> m in db.methods && db.methods[m].store == store && Resolve(db, m).Some?
    ensures Entries(store, newXpub, rows) == AuditRows(db, ids, newXpub)
  {
    forall i | 0 <= i < |ids| ensures Entry(store, newXpub, rows[i]) == AuditRow(db, ids[i], newXpub) {
      assert Describes(db, ids[i], rows[i]) && ids[i] in ids;
    }
  }

  lemma DistinctRows(db: Db, ids: seq<Uuid>, rows: seq<MethodToRotate>)
    requires StrictlyAscending(ids) && DescribesAll(db, ids, rows)
    ensures forall i, j :: 0 <= i < j < |rows| ==> rows[i].id != rows[j].id
    ensures forall i :: 0 <= i < |rows| ==> rows[i].id in db.methods && rows[i].pinned == db.methods[rows[i].id].pin.Some?
  {
    assert forall i :: 0 <= i < |rows| ==> Describes(db, ids[i], rows[i]);
  }

  /** What the rows of a rotation stand for: the methods to move, the log to write, and whether anything inherits. */
  ghost predicate Plan(db: Db, store: Uuid, moved: set<Uuid>, rows: seq<MethodToRotate>)
    requires forall m :: m in moved ==> m in db.methods && Resolve(db, m).Some?
  {
    && Ids(rows) == moved && (AnyInherits(rows) <==> SomeInherits(db, moved))
    && (forall newXpub :: Entries(store, newXpub, rows) == AuditRows(db, Ascending(moved), newXpub))
    && (forall i, j :: 0 <= i < j < |rows| ==> rows[i].id != rows[j].id)
    && (forall i :: 0 <= i < |rows| ==> rows[i].id in db.methods && rows[i].pinned == db.methods[rows[i].id].pin.Some?)
  }

  lemma DescribedRowsArePlan(db: Db, store: Uuid, moved: set<Uuid>, rows: seq<MethodToRotate>)
    requires forall m :: m in moved ==> m in db.methods && db.methods[m].store == store && Resolve(db, m).Some?
    requires DescribesAll(db, Ascending(moved), rows)
    ensures Plan(db, store, moved, rows)
  {
    RowsCarryTheScope(db, moved, rows);
    RowsCarryTheInheriting(db, moved, rows);
    DistinctRows(db, Ascending(moved), rows);
    forall newXpub ensures Entries(store, newXpub, rows) == AuditRows(db, Ascending(moved), newXpub) {
      RowsCarryTheLog(db, Ascending(moved), store, newXpub, rows);
    }
  }

  /** How far the scan for methods to rotate has come: `todo` is still unread. */
  ghost predicate Scanned(db: Db, moved: set<Uuid>, todo: set<Uuid>, ids: seq<Uuid>, rows: seq<MethodToRotate>) {
    && StrictlyAscending(ids) && DescribesAll(db, ids, rows)
    && (forall x :: x in ids ==> x in moved)
    && (forall x :: x in moved ==> x in todo || x in ids)
    && (forall i, x :: 0 <= i < |ids| && x in todo ==> ids[i] < x)
  }

  lemma ScanOne(db: Db, moved: set<Uuid>, todo: set<Uuid>, ids: seq<Uuid>, rows: seq<MethodToRotate>, m: Uuid, row: MethodToRotate)
    requires Scanned(db, moved, todo, ids, rows) && IsLeast(todo, m)
    ensures m !in moved ==> Scanned(db, moved, todo - {m}, ids, rows)
    ensures m in moved && Describes(db, m, row) ==> Scanned(db, moved, todo - {m}, ids + [m], rows + [row])
  {
  }

  /** The tables after the loop, put together. */
  lemma RotatedIs(db: Db, after: Db, store: Uuid, only: Option<set<Uuid>>, ns: string, xpub: string, target: Uuid,
                  moved: set<Uuid>, log: seq<Rotation>)
    requires moved == ToRotate(db, store, only, ns, target) && log == AuditRows(db, Ascending(moved), xpub)
    requires after.stores == db.stores && after.wallets == db.wallets && after.rotations == db.rotations + log
    requires after.methods == Repin(db.methods, moved, target)
    requires after.overrides == if SomeInherits(db, moved) then db.overrides[OverrideKey(store, ns) := target] else db.overrides
    ensures Reply(after, Ok(log)) == WalletRotation.RotateOnto(db, store, only, ns, xpub, target)
  {
  }

  /** Registration and loop together are the rotation. */
  lemma RotationDone(before: Db, store: Uuid, only: Option<set<Uuid>>, ns: string, xpub: string, newId: Uuid)
    requires Inv(before) && newId !in before.wallets && store in before.stores && !HeldElsewhere(before, before.stores[store], xpub)
    ensures var (db, target) := KeyCommands.UpsertWallet(before, before.stores[store], ns, xpub, newId);
      var done := WalletRotation.RotateOnto(db, store, only, ns, xpub, target);
      done == Rotate(before, store, only, ns, xpub, newId) && Inv(done.db)
  {
    RotateKeepsInv(before, store, only, ns, xpub, newId);
  }

  /** What the loop has done after `rows`. */
  ghost predicate MovedSoFar(begin: map<Uuid, Method>, store: Uuid, xpub: string, target: Uuid, rows: seq<MethodToRotate>,
                             methods: map<Uuid, Method>, log: seq<Rotation>, needsOverride: bool)
  {
    methods == Repin(begin, Ids(rows), target) && log == Entries(store, xpub, rows) && (needsOverride <==> AnyInherits(rows))
  }

  /** One turn of the loop. */
  lemma MoveOne(begin: map<Uuid, Method>, store: Uuid, xpub: string, target: Uuid, rows: seq<MethodToRotate>, i: nat,
                methods: map<Uuid, Method>, log: seq<Rotation>, needsOverride: bool)
    requires i < |rows| && rows[i].id in begin && rows[i].pinned == begin[rows[i].id].pin.Some?
    requires forall j :: 0 <= j < i ==> rows[j].id != rows[i].id
    requires MovedSoFar(begin, store, xpub, target, rows[..i], methods, log, needsOverride)
    ensures rows[i].id in methods
    ensures var row := rows[i];
      MovedSoFar(begin, store, xpub, target, rows[..i + 1],
                 if row.pinned then methods[row.id := methods[row.id].(pin := Some(target))] else methods,
                 log + [Entry(store, xpub, row)], needsOverride || !row.pinned)
  {
    RepinOneMore(begin, rows[..i], rows[i], target);
    OneMoreEntry(store, xpub, rows[..i], rows[i]);
    assert rows[..i + 1] == rows[..i] + [rows[i]];
  }

  /** The loop of a rotation: log each method, repoint its pin, and remember whether any inherits. */
  method MoveRows(begin: map<Uuid, Method>, store: Uuid, xpub: string, target: Uuid, rows: seq<MethodToRotate>)
    returns (methods: map<Uuid, Method>, log: seq<Rotation>, needsOverride: bool)
    requires forall i :: 0 <= i < |rows| ==> rows[i].id in begin && rows[i].pinned == begin[rows[i].id].pin.Some?
    requires forall i, j :: 0 <= i < j < |rows| ==> rows[i].id != rows[j].id
    ensures MovedSoFar(begin, store, xpub, target, rows, methods, log, needsOverride)
  {
    methods, log, needsOverride := begin, [], false;
    NothingMoved(begin, store, xpub, target);
    for i := 0 to |rows|
      invariant MovedSoFar(begin, store, xpub, target, rows[..i], methods, log, needsOverride)
    {
      var row := rows[i];
      MoveOne(begin, store, xpub, target, rows, i, methods, log, needsOverride);
      log := log + [Rotation(store, row.xpub, xpub, row.id, row.index)];
      if row.pinned {
        methods := methods[row.id := methods[row.id].(pin := Some(target))];
      } else {
        needsOverride := true;
      }
    }
    assert rows[..|rows|] == rows;
  }

  lemma NothingMoved(begin: map<Uuid, Method>, store: Uuid, xpub: string, target: Uuid)
    ensures MovedSoFar(begin, store, xpub, target, [], begin, [], false)
  {
  }

  class Repository {
    var stores: map<Uuid, Uuid>
    var wallets: map<Uuid, Wallet>
    var overrides: map<OverrideKey, Uuid>
    var methods: map<Uuid, Method>
    var rotations: seq<Rotation>

    ghost function View(): Db
      reads this
    {
      Db(stores, wallets, overrides, methods, rotations)
    }

    constructor ()
      ensures View() == EMPTY && Inv(View())
    {
      stores, wallets, overrides, methods, rotations := map[], map[], map[], map[], [];
    }

    /** Read-only walk: pin, else override, else primary, scoped to the method's family. */
    method ResolveMethod(m: Uuid) returns (found: Option<Uuid>)
      requires OnePrimary(wallets)
      ensures found == Resolve(View(), m)
    {
      if m !in methods || methods[m].store !in stores {
        return None;
      }
      var row := methods[m];
      var ns := row.chain.namespace;
      var key := OverrideKey(row.store, ns);
      if row.pin.Some? {
        found := row.pin;
      } else if key in overrides {
        found := Some(overrides[key]);
      } else if w: Uuid :| w in wallets && wallets[w].owner == stores[row.store] && wallets[w].namespace == ns && wallets[w].isPrimary {
        PrimaryIs(wallets, w, stores[row.store], ns);
        found := Some(w);
      } else {
        assert forall w :: !IsPrimary(wallets, w, stores[row.store], ns);
        found := None;
      }
      if found.Some? && !(found.value in wallets && wallets[found.value].namespace == ns) {
        found := None;
      }
    }

    method UpsertWallet(user: Uuid, ns: string, xpub: string, newId: Uuid) returns (w: Uuid)
      requires Inv(View()) && newId !in wallets
      requires !HeldElsewhere(View(), user, xpub)
      modifies this`wallets
      ensures (View(), w) == KeyCommands.UpsertWallet(old(View()), user, ns, xpub, newId)
      ensures Inv(View())
    {
      UpsertWalletKeepsInv(View(), user, ns, xpub, newId);
      if v: Uuid :| v in wallets && wallets[v].owner == user && wallets[v].namespace == ns && wallets[v].xpub == xpub {
        assert IsKey(wallets, v, user, ns, xpub);
        w := v;
      } else {
        assert forall v :: !IsKey(wallets, v, user, ns, xpub);
        var first := !(exists v :: v in wallets && wallets[v].owner == user && wallets[v].namespace == ns);
        wallets := wallets[newId := Wallet(user, ns, xpub, 0, first)];
        w := newId;
      }
    }

    method CreateWallet(user: Uuid, ns: string, xpub: string, newId: Uuid) returns (r: Result<Uuid>)
      requires Inv(View()) && newId !in wallets
      modifies this`wallets
      ensures Reply(View(), r) == KeyCommands.CreateWallet(old(View()), user, ns, xpub, newId)
      ensures Inv(View())
    {
      if w: Uuid :| w in wallets && wallets[w].xpub == xpub && wallets[w].owner != user {
        assert Holds(wallets, w, wallets[w].owner, xpub);
        return Err(Conflict);
      }
      var w := UpsertWallet(user, ns, xpub, newId);
      r := Ok(w);
    }

    method SetPrimaryWallet(user: Uuid, wallet: Uuid) returns (r: Result<Uuid>)
      requires Inv(View())
      modifies this`wallets
      ensures Reply(View(), r) == SetPrimary(old(View()), user, wallet)
      ensures Inv(View())
    {
      SetPrimaryKeepsInv(View(), user, wallet);
      var begin := wallets;
      var named := wallet in wallets && wallets[wallet].owner == user;
      wallets := map w | w in wallets ::
        if named && wallets[w].owner == user && wallets[w].isPrimary && wallets[w].namespace == wallets[wallet].namespace
        then wallets[w].(isPrimary := false) else wallets[w];
      if !named {
        wallets := begin;
        return Err(NotFound);
      }
      assert wallets == Demote(begin, user, begin[wallet].namespace);
      wallets := wallets[wallet := wallets[wallet].(isPrimary := true)];
      r := Ok(wallet);
    }

    method DeleteWallet(wallet: Uuid) returns (r: Result<()>)
      requires Inv(View())
      modifies this`wallets
      ensures Reply(View(), r) == KeyCommands.DeleteWallet(old(View()), wallet)
      ensures Inv(View())
    {
      DeleteWalletKeepsInv(View(), wallet);
      if wallet !in wallets {
        return Err(NotFound);
      }
      if (exists m :: m in methods && methods[m].pin == Some(wallet)) || (exists k :: k in overrides && overrides[k] == wallet) {
        return Err(Conflict);
      }
      wallets := wallets - {wallet};
      r := Ok(());
    }

    method SetStoreWallet(store: Uuid, wallet: Uuid) returns (r: Result<()>)
      requires Inv(View())
      modifies this`overrides, this`methods
      ensures Reply(View(), r) == KeyCommands.SetStoreWallet(old(View()), store, wallet)
      ensures Inv(View())
    {
      SetStoreWalletKeepsInv(View(), store, wallet);
      if store !in stores || wallet !in wallets || wallets[wallet].owner != stores[store] {
        return Err(NotFound);
      }
      var ns := wallets[wallet].namespace;
      overrides := overrides[OverrideKey(store, ns) := wallet];
      methods := map m | m in methods ::
        if methods[m].store == store && methods[m].chain.namespace == ns then methods[m].(pin := None) else methods[m];
      r := Ok(());
    }

    method ClearStoreWallet(store: Uuid, ns: string) returns (r: Result<()>)
      requires Inv(View())
      modifies this`overrides, this`methods
      ensures Reply(View(), r) == KeyCommands.ClearStoreWallet(old(View()), store, ns)
      ensures Inv(View())
    {
      ClearStoreWalletKeepsInv(View(), store, ns);
      if store !in stores {
        return Err(NotFound);
      }
      overrides := overrides - {OverrideKey(store, ns)};
      methods := map m | m in methods ::
        if methods[m].store == store && methods[m].chain.namespace == ns then methods[m].(pin := None) else methods[m];
      r := Ok(());
    }

    method NextDerivationIndex(wallet: Uuid) returns (r: Result<Allocation>)
      requires Inv(View())
      modifies this`wallets
      ensures Reply(View(), r) == NextIndex(old(View()), wallet)
      ensures Inv(View())
    {
      NextIndexKeepsInv(View(), wallet);
      if wallet !in wallets {
        return Err(NotFound);
      }
      if wallets[wallet].index >= MAX_INDEX {
        return Err(Database);
      }
      wallets := wallets[wallet := wallets[wallet].(index := wallets[wallet].index + 1)];
      r := Ok(Allocation(wallet, wallets[wallet].namespace, wallets[wallet].xpub, wallets[wallet].index - 1));
    }

    method AllocateDerivation(m: Uuid) returns (r: Result<Allocation>)
      requires Inv(View())
      modifies this`wallets
      ensures Reply(View(), r) == Allocate(old(View()), m)
      ensures Inv(View())
    {
      var found := ResolveMethod(m);
      if found.None? {
        return Err(NotFound);
      }
      r := NextDerivationIndex(found.value);
    }

    /** Insert a method, or re-point the one already there for the store, chain and token. */
    method InsertMethod(store: Uuid, chain: ChainId, token: Option<string>, pin: Option<Uuid>, newId: Uuid) returns (r: Result<Uuid>)
      requires OneMethodPerAsset(methods)
      modifies this`methods
      ensures Reply(View(), r) == KeyCommands.InsertMethod(old(View()), store, chain, token, pin, newId)
    {
      if store !in stores || (pin.Some? && !(pin.value in wallets && wallets[pin.value].namespace == chain.namespace)) {
        return Err(Database);
      }
      var id := newId;
      if m: Uuid :| m in methods && methods[m].store == store && methods[m].chain == chain && methods[m].token == token {
        assert IsMethod(methods, m, store, chain, token);
        id := m;
      } else {
        assert forall m :: !IsMethod(methods, m, store, chain, token);
      }
      methods := methods[id := Method(store, chain, token, pin, true)];
      r := Ok(id);
    }

    /** The wallet behind a key pasted for a store: registered for the store's owner. */
    method WalletForStoreXpub(store: Uuid, ns: string, xpub: string, newId: Uuid) returns (r: Result<Uuid>)
      requires Inv(View()) && newId !in wallets
      modifies this`wallets
      ensures Reply(View(), r) == KeyCommands.WalletForStoreXpub(old(View()), store, ns, xpub, newId)
      ensures Inv(View())
    {
      if store !in stores {
        return Err(NotFound);
      }
      r := CreateWallet(stores[store], ns, xpub, newId);
    }

    /** Enable, disable, or pin to the wallet of a pasted key; what is not given stays. */
    method UpdatePaymentMethod(m: Uuid, enabled: Option<bool>, xpub: Option<string>, newWallet: Uuid) returns (r: Result<()>)
      requires Inv(View()) && newWallet !in wallets
      modifies this`wallets, this`methods
      ensures Reply(View(), r) == ChangeMethod(old(View()), m, enabled, xpub, newWallet)
      ensures Inv(View())
    {
      ChangeMethodKeepsInv(View(), m, enabled, xpub, newWallet);
      if m !in methods {
        return Err(NotFound);
      }
      var pin := None;
      if xpub.Some? {
        var made := WalletForStoreXpub(methods[m].store, methods[m].chain.namespace, xpub.value, newWallet);
        if made.Err? {
          return Err(made.error);
        }
        pin := Some(made.value);
      }
      if pin.Some? && !(pin.value in wallets && wallets[pin.value].namespace == methods[m].chain.namespace) {
        return Err(Database);
      }
      var row := methods[m];
      methods := methods[m := row.(pin := if pin.Some? then pin else row.pin, enabled := if enabled.Some? then enabled.value else row.enabled)];
      r := Ok(());
    }

    method DeletePaymentMethod(m: Uuid) returns (r: Result<()>)
      modifies this`methods
      ensures Reply(View(), r) == DeleteMethod(old(View()), m)
    {
      if m !in methods {
        return Err(NotFound);
      }
      methods := methods - {m};
      r := Ok(());
    }

    method CreatePaymentMethod(store: Uuid, chain: ChainId, token: Option<string>, xpub: Option<string>, newWallet: Uuid, newId: Uuid)
      returns (r: Result<Uuid>)
      requires Inv(View()) && newWallet !in wallets && newId !in methods
      modifies this`wallets, this`methods
      ensures Reply(View(), r) == CreateMethod(old(View()), store, chain, token, xpub, newWallet, newId)
      ensures Inv(View())
    {
      CreateMethodKeepsInv(View(), store, chain, token, xpub, newWallet, newId);
      if xpub.Some? {
        var made := WalletForStoreXpub(store, chain.namespace, xpub.value, newWallet);
        if made.Err? {
          return Err(made.error);
        }
        r := InsertMethod(store, chain, token, Some(made.value), newId);
      } else {
        var key := OverrideKey(store, chain.namespace);
        if store !in stores || (key !in overrides &&
            !(exists w :: w in wallets && wallets[w].owner == stores[store] && wallets[w].namespace == chain.namespace && wallets[w].isPrimary)) {
          assert store in stores ==> forall w :: !IsPrimary(wallets, w, stores[store], chain.namespace);
          return Err(Conflict);
        }
        if key !in overrides {
          var w :| w in wallets && wallets[w].owner == stores[store] && wallets[w].namespace == chain.namespace && wallets[w].isPrimary;
          PrimaryIs(wallets, w, stores[store], chain.namespace);
        }
        r := InsertMethod(store, chain, token, None, newId);
      }
    }

    /** The methods in scope that derive from a wallet other than the target, in id order. */
    method MethodsToRotate(store: Uuid, only: Option<set<Uuid>>, ns: string, target: Uuid) returns (rows: seq<MethodToRotate>)
      requires OnePrimary(wallets)
      ensures Plan(View(), store, ToRotate(View(), store, only, ns, target), rows)
    {
      rows := [];
      var todo := methods.Keys;
      ghost var db := View();
      ghost var ids: seq<Uuid> := [];
      ghost var moved := ToRotate(db, store, only, ns, target);
      while todo != {}
        invariant todo <= methods.Keys && Scanned(db, moved, todo, ids, rows)
        decreases |todo|
      {
        LeastExists(todo);
        ghost var least :| IsLeast(todo, least);
        assert least in todo && forall x :: x in todo ==> least <= x;
        var m: Uuid :| m in todo && forall x :: x in todo ==> m <= x;
        var found := ResolveMethod(m);
        if methods[m].store == store && methods[m].chain.namespace == ns && found.Some? && found.value != target
           && (only.None? || m in only.value) {
          var row := MethodToRotate(m, wallets[found.value].xpub, wallets[found.value].index, methods[m].pin.Some?);
          assert RotatesAway(db, m, store, only, ns, target) && Describes(db, m, row);
          ScanOne(db, moved, todo, ids, rows, m, row);
          rows := rows + [row];
          ids := ids + [m];
        } else {
          assert !RotatesAway(db, m, store, only, ns, target);
          ScanOne(db, moved, todo, ids, rows, m, MethodToRotate(m, "", 0, false));
        }
        todo := todo - {m};
      }
      AscendingIsUnique(ids, Ascending(moved));
      DescribedRowsArePlan(db, store, moved, rows);
    }

    /** Every method listed, logged and repointed. */
    method MoveMethods(store: Uuid, xpub: string, target: Uuid, rows: seq<MethodToRotate>)
      returns (log: seq<Rotation>, needsOverride: bool)
      requires forall i :: 0 <= i < |rows| ==> rows[i].id in methods && rows[i].pinned == methods[rows[i].id].pin.Some?
      requires forall i, j :: 0 <= i < j < |rows| ==> rows[i].id != rows[j].id
      modifies this`methods, this`rotations
      ensures methods == Repin(old(methods), Ids(rows), target)
      ensures log == Entries(store, xpub, rows) && rotations == old(rotations) + log
      ensures needsOverride <==> AnyInherits(rows)
    {
      var moved;
      moved, log, needsOverride := MoveRows(methods, store, xpub, target, rows);
      methods, rotations := moved, rotations + log;
    }

    /** Everything a rotation does once the new wallet is known. */
    method RotateOnto(store: Uuid, only: Option<set<Uuid>>, ns: string, xpub: string, target: Uuid, ghost db: Db, ghost moved: set<Uuid>)
      returns (log: seq<Rotation>)
      requires db == View() && OnePrimary(wallets) && moved == ToRotate(db, store, only, ns, target)
      modifies this`overrides, this`methods, this`rotations
      ensures log == AuditRows(db, Ascending(moved), xpub) && rotations == db.rotations + log
      ensures methods == Repin(db.methods, moved, target)
      ensures overrides == if SomeInherits(db, moved) then db.overrides[OverrideKey(store, ns) := target] else db.overrides
    {
      var rows := MethodsToRotate(store, only, ns, target);
      assert Ids(rows) == moved && (AnyInherits(rows) <==> SomeInherits(db, moved));
      assert Entries(store, xpub, rows) == AuditRows(db, Ascending(moved), xpub);
      var needsOverride;
      log, needsOverride := MoveMethods(store, xpub, target, rows);
      if needsOverride {
        overrides := overrides[OverrideKey(store, ns) := target];
      }
    }

    /** The key is nobody else's: register it, then move the methods. */
    method RotateOntoKey(store: Uuid, only: Option<set<Uuid>>, ns: string, xpub: string, newId: Uuid) returns (log: seq<Rotation>)
      requires Inv(View()) && newId !in wallets && store in stores && !HeldElsewhere(View(), stores[store], xpub)
      modifies this`wallets, this`overrides, this`methods, this`rotations
      ensures Reply(View(), Ok(log)) == Rotate(old(View()), store, only, ns, xpub, newId) && Inv(View())
    {
      ghost var before := View();
      var target := UpsertWallet(stores[store], ns, xpub, newId);
      ghost var db := View();
      ghost var moved := ToRotate(db, store, only, ns, target);
      log := RotateOnto(store, only, ns, xpub, target, db, moved);
      RotatedIs(db, View(), store, only, ns, xpub, target, moved, log);
      RotationDone(before, store, only, ns, xpub, newId);
    }

    method HeldByAnother(user: Uuid, xpub: string) returns (held: bool)
      ensures held <==> HeldElsewhere(View(), user, xpub)
    {
      held := exists w :: w in wallets && wallets[w].xpub == xpub && wallets[w].owner != user;
      if held {
        var w: Uuid :| w in wallets && wallets[w].xpub == xpub && wallets[w].owner != user;
        assert Holds(wallets, w, wallets[w].owner, xpub);
      }
    }

    method RotateMethods(store: Uuid, only: Option<set<Uuid>>, ns: string, xpub: string, newId: Uuid)
      returns (r: Result<seq<Rotation>>)
      requires Inv(View()) && newId !in wallets
      modifies this`wallets, this`overrides, this`methods, this`rotations
      ensures Reply(View(), r) == Rotate(old(View()), store, only, ns, xpub, newId)
      ensures Inv(View())
    {
      if store !in stores {
        return Err(NotFound);
      }
      var held := HeldByAnother(stores[store], xpub);
      if held {
        return Err(Conflict);
      }
      var log := RotateOntoKey(store, only, ns, xpub, newId);
      r := Ok(log);
    }
  }
}
