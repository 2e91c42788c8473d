/** Whole runs: any interleaving of wallet, routing, rotation, allocation,
    invoice and watch transactions, and the guarantee that no address is ever
    given to two invoices. */
module AddressReuse {
  import opened Common
  import opened Text
  import opened KeyTables
  import opened KeyCommands
  import opened KeyRouting
  import opened WalletRotation
  import opened InvoiceCreation
  import opened Ordered

  /** One position of one key, from which exactly one address can be derived. */
  datatype Issue = Issue(namespace: string, xpub: string, index: nat)

  /** A wallet the store's owner was given for a pasted key, not yet pinned. */
  datatype Grant = Grant(store: Uuid, namespace: string, wallet: Uuid)

  /** The tables, with the history a run accumulates beside them: every index
      issued, the indices some invoice was built from, the wallets granted to
      half-finished payment method requests, and every wallet id ever used. */
  datatype World = World(db: Db, tables: Tables, issued: seq<Issue>, spent: set<Issue>, granted: set<Grant>, walletIds: set<Uuid>)

  const INITIAL: World := World(EMPTY, Tables(map[], map[], map[]), [], {}, {}, {})

  datatype Op =
    | OpenStore(store: Uuid, owner: Uuid)
    | Register(user: Uuid, namespace: string, xpub: string, newId: Uuid)
    | RegisterForStore(store: Uuid, namespace: string, xpub: string, newId: Uuid)
    | AddMethod(store: Uuid, chain: ChainId, token: Option<string>, pin: Option<Uuid>, newId: Uuid)
    | ChangeMethod(m: Uuid, enabled: Option<bool>, pin: Option<Uuid>)
    | DropMethod(m: Uuid)
    | Promote(user: Uuid, wallet: Uuid)
    | Override(store: Uuid, wallet: Uuid)
    | ClearOverride(store: Uuid, namespace: string)
    | RotateStore(store: Uuid, only: Option<set<Uuid>>, namespace: string, xpub: string, newId: Uuid)
    | TakeIndex(wallet: Uuid)
    | AllocateFor(m: Uuid)
    | Delete(wallet: Uuid)
    | Bill(invoice: Invoice, options: seq<PaymentOption>, from: seq<Issue>)
    | Notify(address: string, chain: ChainId, token: Option<string>)
    | Deactivate(address: string, chain: ChainId, token: Option<string>)

  type Derivation = Issue -> string

  /** Derivation within a family never maps two positions to addresses equal up to case. */
  ghost predicate Injective(derive: Derivation) {
    forall a: Issue, b: Issue :: a.namespace == b.namespace && Lower(derive(a)) == Lower(derive(b)) ==> a == b
  }

  /** The wallet has given out no index. */
  ghost predicate Unissued(w: World, wallet: Uuid) {
    wallet in w.db.wallets ==> w.db.wallets[wallet].index == 0
  }

  /** Each option carries the address derived from its own fresh allocation, on a chain of that allocation's family. */
  ghost predicate FreshlyDerived(derive: Derivation, w: World, options: seq<PaymentOption>, from: seq<Issue>) {
    && |from| == |options| && Distinct(from)
    && forall i :: 0 <= i < |options| ==>
         from[i] in w.issued && from[i] !in w.spent &&
         options[i].address == derive(from[i]) && options[i].chain.namespace == from[i].namespace
  }

  /** What the callers of the repository do: identifiers are fresh, a pin comes
      from the wallet registered for that store and family, and an invoice uses
      each allocation once. No wallet that has issued an index is deleted. */
  ghost predicate Permitted(derive: Derivation, w: World, op: Op) {
    match op
    case OpenStore(store, _) => store !in w.db.stores
    case Register(_, _, _, newId) => newId !in w.walletIds
    case RegisterForStore(_, _, _, newId) => newId !in w.walletIds
    case AddMethod(store, chain, _, pin, newId) =>
      newId !in w.db.methods && (pin.Some? ==> Grant(store, chain.namespace, pin.value) in w.granted)
    case ChangeMethod(m, _, pin) =>
      m in w.db.methods && pin.Some? ==> Grant(w.db.methods[m].store, w.db.methods[m].chain.namespace, pin.value) in w.granted
    case RotateStore(_, _, _, _, newId) => newId !in w.walletIds
    case Delete(wallet) => Unissued(w, wallet)
    case Bill(_, options, from) => FreshlyDerived(derive, w, options, from)
    case _ => true
  }

  ghost function Issued(w: World, r: Reply<Allocation>): World {
    w.(db := r.db,
       issued := if r.answer.Ok? then w.issued + [Issue(r.answer.value.namespace, r.answer.value.xpub, r.answer.value.index)]
                 else w.issued)
  }

  ghost function Step(w: World, op: Op): World {
    match op
    case OpenStore(store, owner) => w.(db := w.db.(stores := w.db.stores[store := owner]))
    case Register(user, ns, xpub, newId) =>
      w.(db := CreateWallet(w.db, user, ns, xpub, newId).db, walletIds := w.walletIds + {newId})
    case RegisterForStore(store, ns, xpub, newId) =>
      var r := WalletForStoreXpub(w.db, store, ns, xpub, newId);
      w.(db := r.db, walletIds := w.walletIds + {newId},
         granted := if r.answer.Ok? then w.granted + {Grant(store, ns, r.answer.value)} else w.granted)
    case AddMethod(store, chain, token, pin, newId) => w.(db := InsertMethod(w.db, store, chain, token, pin, newId).db)
    case ChangeMethod(m, enabled, pin) => w.(db := UpdateMethod(w.db, m, enabled, pin).db)
    case DropMethod(m) => w.(db := DeleteMethod(w.db, m).db)
    case Promote(user, wallet) => w.(db := SetPrimary(w.db, user, wallet).db)
    case Override(store, wallet) => w.(db := SetStoreWallet(w.db, store, wallet).db)
    case ClearOverride(store, ns) => w.(db := ClearStoreWallet(w.db, store, ns).db)
    case RotateStore(store, only, ns, xpub, newId) =>
      w.(db := Rotate(w.db, store, only, ns, xpub, newId).db, walletIds := w.walletIds + {newId})
    case TakeIndex(wallet) => Issued(w, NextIndex(w.db, wallet))
    case AllocateFor(m) => Issued(w, Allocate(w.db, m))
    case Delete(wallet) => w.(db := DeleteWallet(w.db, wallet).db)
    case Bill(invoice, options, from) =>
      var made := Create(w.tables, invoice, options);
      w.(tables := if made.Some? then made.value else w.tables, spent := w.spent + set i | i in from)
    case Notify(address, chain, token) =>
      w.(tables := w.tables.(watched := MarkNotified(w.tables.watched, address, chain, token)))
    case Deactivate(address, chain, token) =>
      w.(tables := w.tables.(watched := InvoiceCreation.Deactivate(w.tables.watched, address, chain, token)))
  }

  ghost predicate PermittedRun(derive: Derivation, w: World, ops: seq<Op>)
    decreases |ops|
  {
    ops == [] || (Permitted(derive, w, ops[0]) && PermittedRun(derive, Step(w, ops[0]), ops[1..]))
  }

  ghost function Run(w: World, ops: seq<Op>): World
    decreases |ops|
  {
    if ops == [] then w else Run(Step(w, ops[0]), ops[1..])
  }

  // ---------------------------------------------------------------- what the steps of a run do

  /** Taking an index, by wallet or by method: the wallet's counter moves by one and
      the index before is logged; or nothing happens, without a wallet or at the limit. */
  lemma IssuingSteps(w: World, op: Op)
    requires op.TakeIndex? || op.AllocateFor?
    ensures var from := if op.TakeIndex? then (if op.wallet in w.db.wallets then Some(op.wallet) else None) else Resolve(w.db, op.m);
      var after := Step(w, op);
      && after.tables == w.tables && after.db == w.db.(wallets := after.db.wallets)
      && if from.Some? && w.db.wallets[from.value].index < 0x7fff_ffff then
           var row := w.db.wallets[from.value];
           && after.issued == w.issued + [Issue(row.namespace, row.xpub, row.index)]
           && after.db.wallets == w.db.wallets[from.value := row.(index := row.index + 1)]
         else after == w
  {
  }

  /** Registering a key for an account or for a store, and deleting a wallet. */
  lemma WalletSteps(w: World, op: Op)
    requires op.OpenStore? || op.Register? || op.RegisterForStore? || op.Delete?
    ensures var after := Step(w, op);
      && after.tables == w.tables && after.issued == w.issued
      && (op.OpenStore? ==> after.db == w.db.(stores := w.db.stores[op.store := op.owner]))
      && (op.Register? && !HeldElsewhere(w.db, op.user, op.xpub) ==>
            exists v :: IsKey(after.db.wallets, v, op.user, op.namespace, op.xpub))
      && (op.RegisterForStore? && op.store in w.db.stores && !HeldElsewhere(w.db, w.db.stores[op.store], op.xpub) ==>
            exists v :: IsKey(after.db.wallets, v, w.db.stores[op.store], op.namespace, op.xpub)
                        && Grant(op.store, op.namespace, v) in after.granted)
      && (op.Delete? && op.wallet in w.db.wallets && !InUse(w.db, op.wallet) ==> op.wallet !in after.db.wallets)
  {
    var after := Step(w, op);
    if op.Register? && !HeldElsewhere(w.db, op.user, op.xpub) {
      var v := CreateWallet(w.db, op.user, op.namespace, op.xpub, op.newId).answer.value;
      assert IsKey(after.db.wallets, v, op.user, op.namespace, op.xpub);
    } else if op.RegisterForStore? && op.store in w.db.stores && !HeldElsewhere(w.db, w.db.stores[op.store], op.xpub) {
      var v := WalletForStoreXpub(w.db, op.store, op.namespace, op.xpub, op.newId).answer.value;
      assert IsKey(after.db.wallets, v, w.db.stores[op.store], op.namespace, op.xpub);
    }
  }

  /** Promotions, overrides and rotations reroute as their commands do. */
  lemma RoutingSteps(w: World, op: Op, m: Uuid)
    requires Inv(w.db) && (op.Promote? || op.Override? || op.ClearOverride?)
    ensures var after := Step(w, op);
      && after.tables == w.tables && after.issued == w.issued
      && (op.Promote? && op.wallet in w.db.wallets && w.db.wallets[op.wallet].owner == op.user ==>
            FollowsPrimary(w.db, m, op.user, w.db.wallets[op.wallet].namespace) ==> Resolve(after.db, m) == Some(op.wallet))
      && (op.Override? && op.store in w.db.stores && op.wallet in w.db.wallets && w.db.wallets[op.wallet].owner == w.db.stores[op.store] ==>
            InFamily(w.db, m, op.store, w.db.wallets[op.wallet].namespace) ==> Resolve(after.db, m) == Some(op.wallet))
      && (op.ClearOverride? && op.store in w.db.stores && InFamily(w.db, m, op.store, op.namespace) ==>
            Resolve(after.db, m) == Primary(w.db.wallets, w.db.stores[op.store], op.namespace))
  {
    if op.Promote? && op.wallet in w.db.wallets && w.db.wallets[op.wallet].owner == op.user {
      SetPrimaryRoutes(w.db, op.user, op.wallet, m);
    } else if op.Override? && op.store in w.db.stores && op.wallet in w.db.wallets && w.db.wallets[op.wallet].owner == w.db.stores[op.store] {
      SetStoreWalletRoutes(w.db, op.store, op.wallet, m);
    } else if op.ClearOverride? && op.store in w.db.stores {
      ClearStoreWalletRoutes(w.db, op.store, op.namespace, m);
    }
  }

  lemma RotationStep(w: World, op: Op, m: Uuid)
    requires Inv(w.db) && op.RotateStore? && op.newId !in w.db.wallets && Rotate(w.db, op.store, op.only, op.namespace, op.xpub, op.newId).answer.Ok?
    ensures Step(w, op).tables == w.tables && Step(w, op).issued == w.issued
    ensures InFamily(w.db, m, op.store, op.namespace) && Resolve(w.db, m).Some? && (op.only.None? || m in op.only.value) ==>
      Resolve(Step(w, op).db, m) == Some(Target(w.db, op.store, op.namespace, op.xpub, op.newId))
  {
    if InFamily(w.db, m, op.store, op.namespace) {
      if op.only.None? {
        WholeStoreRotation(w.db, op.store, op.namespace, op.xpub, op.newId, m);
      } else {
        RotateSomeRoutes(w.db, op.store, op.only.value, op.namespace, op.xpub, op.newId, m);
      }
    }
  }

  /** Payment methods come, change and go. */
  lemma MethodSteps(w: World, op: Op)
    requires op.AddMethod? || op.ChangeMethod? || op.DropMethod?
    ensures var after := Step(w, op);
      && after.tables == w.tables && after.issued == w.issued && after.db.wallets == w.db.wallets
      && (op.DropMethod? ==> op.m !in after.db.methods)
      && (op.AddMethod? && op.store in w.db.stores && op.pin.None? ==>
            exists m :: IsMethod(after.db.methods, m, op.store, op.chain, op.token) && after.db.methods[m].pin.None? && after.db.methods[m].enabled)
      && (op.AddMethod? && op.store in w.db.stores && op.pin.Some? && op.pin.value in w.db.wallets
            && w.db.wallets[op.pin.value].namespace == op.chain.namespace ==>
            exists m :: IsMethod(after.db.methods, m, op.store, op.chain, op.token) && after.db.methods[m].pin == op.pin)
      && (op.ChangeMethod? && op.m in w.db.methods && op.pin.Some? && op.pin.value in w.db.wallets
            && w.db.wallets[op.pin.value].namespace == w.db.methods[op.m].chain.namespace ==>
            op.m in after.db.methods && after.db.methods[op.m].pin == op.pin)
  {
    if op.AddMethod? {
      var r := InsertMethod(w.db, op.store, op.chain, op.token, op.pin, op.newId);
      if r.answer.Ok? {
        assert IsMethod(r.db.methods, r.answer.value, op.store, op.chain, op.token);
      }
    }
  }

  /** An invoice is written and spends its allocations; a watch is marked or closed. */
  lemma InvoiceSteps(w: World, op: Op)
    requires op.Bill? || op.Notify? || op.Deactivate?
    ensures var after := Step(w, op);
      && after.db == w.db && after.issued == w.issued
      && (op.Bill? && Create(w.tables, op.invoice, op.options).Some? ==>
            op.invoice.id in after.tables.invoices && (forall e :: e in op.from ==> e in after.spent)
            && (forall i :: 0 <= i < |op.options| ==> op.options[i].id in after.tables.options))
      && (op.Notify? ==> forall k :: k in w.tables.watched && Same(k, op.address, op.chain, op.token) ==>
            k in after.tables.watched && after.tables.watched[k].notified)
      && (op.Deactivate? ==> forall k :: k in w.tables.watched && Same(k, op.address, op.chain, op.token) ==>
            k in after.tables.watched && !after.tables.watched[k].active)
  {
    if op.Bill? && Create(w.tables, op.invoice, op.options).Some? {
      CreatedRecords(w.tables, op.invoice, op.options);
    }
  }

  // ---------------------------------------------------------------- the invariant of a run

  /** The log holds exactly the indices below each wallet's counter, once each, and nothing else. */
  ghost predicate Counted(wallets: map<Uuid, Wallet>, issued: seq<Issue>) {
    && Distinct(issued)
    && (forall v, i: nat :: v in wallets ==> (Issue(wallets[v].namespace, wallets[v].xpub, i) in issued <==> i < wallets[v].index))
    && (forall e :: e in issued ==> Registered(wallets, e))
  }

  ghost predicate Registered(wallets: map<Uuid, Wallet>, e: Issue) {
    exists v :: v in wallets && wallets[v].namespace == e.namespace && wallets[v].xpub == e.xpub
  }

  ghost predicate GrantsSound(w: World) {
    && w.db.wallets.Keys <= w.walletIds
    && forall g :: g in w.granted ==> GrantSound(w, g)
  }

  ghost predicate GrantSound(w: World, g: Grant) {
    && g.wallet in w.walletIds && g.store in w.db.stores
    && (g.wallet in w.db.wallets ==> Serves(w.db.stores, w.db.wallets, g.wallet, g.store, g.namespace))
  }

  /** Every watched address was derived from an index some invoice spent. */
  ghost predicate WatchedSpent(derive: Derivation, w: World) {
    && (forall e :: e in w.spent ==> e in w.issued)
    && forall k :: k in w.tables.watched ==> DerivedFromSpent(derive, w.spent, k)
  }

  ghost predicate DerivedFromSpent(derive: Derivation, spent: set<Issue>, k: Triple) {
    exists e :: e in spent && k.address == derive(e) && k.chain.namespace == e.namespace
  }

  ghost predicate Good(derive: Derivation, w: World) {
    Inv(w.db) && Counted(w.db.wallets, w.issued) && GrantsSound(w) && WatchedSpent(derive, w)
  }

  // ---------------------------------------------------------------- every step keeps it

  /** Nothing about keys or counters changed. */
  ghost predicate SameCounters(a: map<Uuid, Wallet>, b: map<Uuid, Wallet>) {
    a.Keys == b.Keys && forall v :: v in a ==>
      b[v].namespace == a[v].namespace && b[v].xpub == a[v].xpub && b[v].index == a[v].index && b[v].owner == a[v].owner
  }

  lemma SameCountersCounted(a: map<Uuid, Wallet>, b: map<Uuid, Wallet>, issued: seq<Issue>)
    requires Counted(a, issued) && SameCounters(a, b)
    ensures Counted(b, issued)
  {
    forall e | e in issued ensures Registered(b, e) {
      assert Registered(a, e);
    }
  }

  /** A key nobody had starts a counter at 0, and nothing was ever issued from it. */
  lemma NewKeyCounted(wallets: map<Uuid, Wallet>, issued: seq<Issue>, newId: Uuid, row: Wallet)
    requires Counted(wallets, issued) && newId !in wallets && row.index == 0
    requires forall v :: !IsKey(wallets, v, row.owner, row.namespace, row.xpub)
    requires forall v, other :: Holds(wallets, v, other, row.xpub) ==> other == row.owner
    ensures Counted(wallets[newId := row], issued)
  {
    var ws := wallets[newId := row];
    forall i: nat ensures Issue(row.namespace, row.xpub, i) !in issued {
      if Issue(row.namespace, row.xpub, i) in issued {
        assert Registered(wallets, Issue(row.namespace, row.xpub, i));
        var v :| v in wallets && wallets[v].namespace == row.namespace && wallets[v].xpub == row.xpub;
        assert Holds(wallets, v, wallets[v].owner, row.xpub);
        assert IsKey(wallets, v, row.owner, row.namespace, row.xpub);
      }
    }
    forall e | e in issued ensures Registered(ws, e) {
      assert Registered(wallets, e);
      var v :| v in wallets && wallets[v].namespace == e.namespace && wallets[v].xpub == e.xpub;
      assert v in ws && ws[v] == wallets[v];
    }
  }

  lemma UpsertCounted(db: Db, issued: seq<Issue>, user: Uuid, ns: string, xpub: string, newId: Uuid)
    requires Counted(db.wallets, issued) && newId !in db.wallets && !HeldElsewhere(db, user, xpub)
    ensures Counted(UpsertWallet(db, user, ns, xpub, newId).0.wallets, issued)
  {
    var (db', w) := UpsertWallet(db, user, ns, xpub, newId);
    if w !in db.wallets {
      NewKeyCounted(db.wallets, issued, newId, db'.wallets[newId]);
    }
  }

  /** One key, one counter: two wallets of the same family and key are the same wallet. */
  lemma KeyNamesWallet(wallets: map<Uuid, Wallet>, v: Uuid, w: Uuid)
    requires WalletsSound(wallets) && v in wallets && w in wallets
    requires wallets[v].namespace == wallets[w].namespace && wallets[v].xpub == wallets[w].xpub
    ensures v == w
  {
    assert Holds(wallets, v, wallets[v].owner, wallets[w].xpub) && Holds(wallets, w, wallets[w].owner, wallets[w].xpub);
    assert IsKey(wallets, v, wallets[w].owner, wallets[w].namespace, wallets[w].xpub);
    assert IsKey(wallets, w, wallets[w].owner, wallets[w].namespace, wallets[w].xpub);
  }

  /** The index handed out was never handed out before. */
  lemma NextIndexCounted(db: Db, issued: seq<Issue>, wallet: Uuid)
    requires WalletsSound(db.wallets) && Counted(db.wallets, issued) && NextIndex(db, wallet).answer.Ok?
    ensures var r := NextIndex(db, wallet);
      var e := Issue(r.answer.value.namespace, r.answer.value.xpub, r.answer.value.index);
      e !in issued && Counted(r.db.wallets, issued + [e])
  {
    var r := NextIndex(db, wallet);
    var row := db.wallets[wallet];
    var e := Issue(row.namespace, row.xpub, row.index);
    var ws := r.db.wallets;
    forall v, i: nat | v in ws ensures Issue(ws[v].namespace, ws[v].xpub, i) in issued + [e] <==> i < ws[v].index {
      if ws[v].namespace == row.namespace && ws[v].xpub == row.xpub {
        KeyNamesWallet(db.wallets, v, wallet);
      }
    }
    forall x | x in issued + [e] ensures Registered(ws, x) {
      if x in issued {
        assert Registered(db.wallets, x);
        var v :| v in db.wallets && db.wallets[v].namespace == x.namespace && db.wallets[v].xpub == x.xpub;
        assert v in ws && ws[v].namespace == x.namespace && ws[v].xpub == x.xpub;
      } else {
        assert wallet in ws;
      }
    }
  }

  lemma DeleteCounted(db: Db, issued: seq<Issue>, wallet: Uuid)
    requires WalletsSound(db.wallets) && Counted(db.wallets, issued) && wallet in db.wallets && db.wallets[wallet].index == 0
    ensures Counted(db.wallets - {wallet}, issued)
  {
    var row := db.wallets[wallet];
    forall e | e in issued ensures Registered(db.wallets - {wallet}, e) {
      assert Registered(db.wallets, e);
      var v :| v in db.wallets && db.wallets[v].namespace == e.namespace && db.wallets[v].xpub == e.xpub;
      assert e == Issue(db.wallets[v].namespace, db.wallets[v].xpub, e.index);
      assert v != wallet && v in db.wallets - {wallet};
    }
  }

  lemma StepKeepsInv(derive: Derivation, w: World, op: Op)
    requires Inv(w.db) && GrantsSound(w) && Permitted(derive, w, op)
    ensures Inv(Step(w, op).db)
  {
    match op
    case OpenStore(store, owner) =>
      assert forall v, s, ns :: Serves(w.db.stores, w.db.wallets, v, s, ns) ==> Serves(w.db.stores[store := owner], w.db.wallets, v, s, ns);
    case Register(user, ns, xpub, newId) => CreateWalletKeepsInv(w.db, user, ns, xpub, newId);
    case RegisterForStore(store, ns, xpub, newId) =>
      if store in w.db.stores {
        CreateWalletKeepsInv(w.db, w.db.stores[store], ns, xpub, newId);
      }
    case AddMethod(store, chain, token, pin, newId) =>
      assert pin.Some? ==> GrantSound(w, Grant(store, chain.namespace, pin.value));
      InsertMethodKeepsInv(w.db, store, chain, token, pin, newId);
    case ChangeMethod(m, enabled, pin) =>
      assert m in w.db.methods && pin.Some? ==> GrantSound(w, Grant(w.db.methods[m].store, w.db.methods[m].chain.namespace, pin.value));
      UpdateMethodKeepsInv(w.db, m, enabled, pin);
    case DropMethod(m) => SameAssets(w.db.methods, Step(w, op).db.methods);
    case Promote(user, wallet) => SetPrimaryKeepsInv(w.db, user, wallet);
    case Override(store, wallet) => SetStoreWalletKeepsInv(w.db, store, wallet);
    case ClearOverride(store, ns) => ClearStoreWalletKeepsInv(w.db, store, ns);
    case RotateStore(store, only, ns, xpub, newId) => RotateKeepsInv(w.db, store, only, ns, xpub, newId);
    case TakeIndex(wallet) => NextIndexKeepsInv(w.db, wallet);
    case AllocateFor(m) =>
      if Resolve(w.db, m).Some? {
        NextIndexKeepsInv(w.db, Resolve(w.db, m).value);
      }
    case Delete(wallet) => DeleteWalletKeepsInv(w.db, wallet);
    case _ =>
  }

  ghost predicate Registers(op: Op) {
    op.Register? || op.RegisterForStore? || op.RotateStore?
  }

  /** The only wallet change of a registering step is the upsert. */
  lemma RegisteringStep(w: World, op: Op)
    requires Registers(op)
    ensures Step(w, op).issued == w.issued
    ensures Step(w, op).db.wallets == w.db.wallets ||
      var user := if op.Register? then op.user else if op.store in w.db.stores then w.db.stores[op.store] else 0;
      !HeldElsewhere(w.db, user, op.xpub) &&
      Step(w, op).db.wallets == UpsertWallet(w.db, user, op.namespace, op.xpub, op.newId).0.wallets
  {
  }

  lemma StepKeepsCounted(derive: Derivation, w: World, op: Op)
    requires Inv(w.db) && GrantsSound(w) && Counted(w.db.wallets, w.issued) && Permitted(derive, w, op)
    ensures Counted(Step(w, op).db.wallets, Step(w, op).issued)
  {
    if Registers(op) {
      RegisteringStep(w, op);
      if Step(w, op).db.wallets != w.db.wallets {
        UpsertCounted(w.db, w.issued, if op.Register? then op.user else w.db.stores[op.store], op.namespace, op.xpub, op.newId);
      }
    } else {
      OtherStepKeepsCounted(derive, w, op);
    }
  }

  lemma OtherStepKeepsCounted(derive: Derivation, w: World, op: Op)
    requires WalletsSound(w.db.wallets) && Counted(w.db.wallets, w.issued) && Permitted(derive, w, op) && !Registers(op)
    ensures Counted(Step(w, op).db.wallets, Step(w, op).issued)
  {
    if op.Promote? {
      PromotingStepKeepsCounted(w, op);
    } else if op.TakeIndex? || op.AllocateFor? {
      IssuingStepKeepsCounted(derive, w, op);
    } else if op.Delete? {
      DeletingStepKeepsCounted(derive, w, op);
    } else {
      QuietStep(w, op);
    }
  }

  lemma PromotingStepKeepsCounted(w: World, op: Op)
    requires Counted(w.db.wallets, w.issued) && op.Promote?
    ensures Counted(Step(w, op).db.wallets, Step(w, op).issued)
  {
    PromotionKeepsCounters(w.db, op.user, op.wallet);
    SameCountersCounted(w.db.wallets, SetPrimary(w.db, op.user, op.wallet).db.wallets, w.issued);
  }

  lemma PromotionKeepsCounters(db: Db, user: Uuid, wallet: Uuid)
    ensures SameCounters(db.wallets, SetPrimary(db, user, wallet).db.wallets)
  {
  }

  lemma DeletingStepKeepsCounted(derive: Derivation, w: World, op: Op)
    requires WalletsSound(w.db.wallets) && Counted(w.db.wallets, w.issued) && op.Delete? && Permitted(derive, w, op)
    ensures Counted(Step(w, op).db.wallets, Step(w, op).issued)
  {
    if DeleteWallet(w.db, op.wallet).answer.Ok? {
      DeleteCounted(w.db, w.issued, op.wallet);
    }
  }

  lemma IssuingStepKeepsCounted(derive: Derivation, w: World, op: Op)
    requires WalletsSound(w.db.wallets) && Counted(w.db.wallets, w.issued) && Permitted(derive, w, op)
    requires op.TakeIndex? || op.AllocateFor?
    ensures Counted(Step(w, op).db.wallets, Step(w, op).issued)
  {
    if op.TakeIndex? {
      if NextIndex(w.db, op.wallet).answer.Ok? {
        NextIndexCounted(w.db, w.issued, op.wallet);
      }
    } else if Allocate(w.db, op.m).answer.Ok? {
      NextIndexCounted(w.db, w.issued, Resolve(w.db, op.m).value);
    }
  }

  /** Every other step leaves wallets and log alone. */
  lemma QuietStep(w: World, op: Op)
    requires !Registers(op) && !op.Promote? && !op.TakeIndex? && !op.AllocateFor? && !op.Delete?
    ensures Step(w, op).db.wallets == w.db.wallets && Step(w, op).issued == w.issued && Step(w, op).walletIds == w.walletIds
  {
  }

  /** No step re-uses a wallet id, changes a wallet's owner or family, or drops a store. */
  ghost predicate Continues(a: World, b: World) {
    && (forall v :: v in b.db.wallets && v in a.walletIds ==>
          v in a.db.wallets && b.db.wallets[v].owner == a.db.wallets[v].owner && b.db.wallets[v].namespace == a.db.wallets[v].namespace)
    && (forall s :: s in a.db.stores ==> s in b.db.stores && b.db.stores[s] == a.db.stores[s])
    && a.walletIds <= b.walletIds && b.db.wallets.Keys <= b.walletIds
  }

  lemma StepContinues(derive: Derivation, w: World, op: Op)
    requires w.db.wallets.Keys <= w.walletIds && Permitted(derive, w, op)
    ensures Continues(w, Step(w, op))
  {
    StoresOnlyGrow(derive, w, op);
    if Registers(op) {
      RegisteringContinues(derive, w, op);
    } else if op.Promote? || op.TakeIndex? || op.AllocateFor? || op.Delete? {
      RowsOnlyChange(w, op);
    } else {
      QuietStep(w, op);
    }
  }

  lemma RegisteringContinues(derive: Derivation, w: World, op: Op)
    requires w.db.wallets.Keys <= w.walletIds && Registers(op) && Permitted(derive, w, op)
    ensures Step(w, op).db.wallets.Keys <= w.walletIds + {op.newId}
    ensures forall v :: v in Step(w, op).db.wallets && v in w.walletIds ==>
      v in w.db.wallets && Step(w, op).db.wallets[v] == w.db.wallets[v]
  {
    RegisteringStep(w, op);
    var user := if op.Register? then op.user else if op.store in w.db.stores then w.db.stores[op.store] else 0;
    UpsertAddsOne(w.db, user, op.namespace, op.xpub, op.newId);
  }

  lemma UpsertAddsOne(db: Db, user: Uuid, ns: string, xpub: string, newId: Uuid)
    ensures var wallets := UpsertWallet(db, user, ns, xpub, newId).0.wallets;
      wallets.Keys <= db.wallets.Keys + {newId} && forall v :: v in db.wallets && v != newId ==> v in wallets && wallets[v] == db.wallets[v]
  {
  }

  lemma StoresOnlyGrow(derive: Derivation, w: World, op: Op)
    requires Permitted(derive, w, op)
    ensures forall s :: s in w.db.stores ==> s in Step(w, op).db.stores && Step(w, op).db.stores[s] == w.db.stores[s]
    ensures Step(w, op).walletIds == if Registers(op) then w.walletIds + {op.newId} else w.walletIds
  {
  }

  lemma RowsOnlyChange(w: World, op: Op)
    requires op.Promote? || op.TakeIndex? || op.AllocateFor? || op.Delete?
    ensures forall v :: v in Step(w, op).db.wallets ==>
      v in w.db.wallets && Step(w, op).db.wallets[v].owner == w.db.wallets[v].owner
      && Step(w, op).db.wallets[v].namespace == w.db.wallets[v].namespace
  {
  }

  lemma StepKeepsGrants(derive: Derivation, w: World, op: Op)
    requires Inv(w.db) && GrantsSound(w) && Permitted(derive, w, op)
    ensures GrantsSound(Step(w, op))
  {
    StepContinues(derive, w, op);
    var w' := Step(w, op);
    forall g | g in w'.granted ensures GrantSound(w', g) {
      if g in w.granted {
        assert GrantSound(w, g);
      } else {
        UpsertWalletKeepsInv(w.db, w.db.stores[op.store], op.namespace, op.xpub, op.newId);
      }
    }
  }

  lemma StepKeepsWatched(derive: Derivation, w: World, op: Op)
    requires WatchedSpent(derive, w) && Permitted(derive, w, op)
    ensures WatchedSpent(derive, Step(w, op))
  {
    var w' := Step(w, op);
    if op.Bill? && Create(w.tables, op.invoice, op.options).Some? {
      forall k | k in w'.tables.watched ensures DerivedFromSpent(derive, w'.spent, k) {
        if k in w.tables.watched {
          assert DerivedFromSpent(derive, w.spent, k);
        } else {
          BilledRows(w.tables, op.invoice, op.options, k);
          var i :| 0 <= i < |op.options| && k == Triple(op.options[i].address, op.options[i].chain, op.options[i].token);
          assert op.from[i] in w'.spent;
        }
      }
    } else {
      forall k | k in w'.tables.watched ensures DerivedFromSpent(derive, w'.spent, k) {
        assert DerivedFromSpent(derive, w.spent, k);
      }
    }
  }

  /** A row an invoice adds is the exact triple of one of its options. */
  lemma BilledRows(t: Tables, invoice: Invoice, options: seq<PaymentOption>, k: Triple)
    requires Create(t, invoice, options).Some? && k in Create(t, invoice, options).value.watched && k !in t.watched
    ensures exists i :: 0 <= i < |options| && k == Triple(options[i].address, options[i].chain, options[i].token)
  {
    WrittenRows(t.(invoices := t.invoices[invoice.id := invoice]), invoice, options, k);
  }

  lemma {:induction false} WrittenRows(t: Tables, invoice: Invoice, options: seq<PaymentOption>, k: Triple)
    requires WriteOptions(t, invoice, options).Some? && k in WriteOptions(t, invoice, options).value.watched && k !in t.watched
    ensures exists i :: 0 <= i < |options| && k == Triple(options[i].address, options[i].chain, options[i].token)
  {
    if options != [] {
      var n := |options| - 1;
      var before := WriteOptions(t, invoice, options[..n]).value;
      if k in before.watched {
        WrittenRows(t, invoice, options[..n], k);
      } else {
        assert k == Triple(options[n].address, options[n].chain, options[n].token);
      }
    }
  }

  lemma StepKeepsGood(derive: Derivation, w: World, op: Op)
    requires Good(derive, w) && Permitted(derive, w, op)
    ensures Good(derive, Step(w, op))
  {
    StepKeepsInv(derive, w, op);
    StepKeepsCounted(derive, w, op);
    StepKeepsGrants(derive, w, op);
    StepKeepsWatched(derive, w, op);
  }

  /** Safety over every run. */
  lemma {:induction false} RunKeepsGood(derive: Derivation, w: World, ops: seq<Op>)
    requires Good(derive, w) && PermittedRun(derive, w, ops)
    ensures Good(derive, Run(w, ops))
    decreases |ops|
  {
    if ops != [] {
      StepKeepsGood(derive, w, ops[0]);
      RunKeepsGood(derive, Step(w, ops[0]), ops[1..]);
    }
  }

  /** No index of any key is ever issued twice, and none is skipped. */
  lemma NoIndexIsIssuedTwice(derive: Derivation, ops: seq<Op>)
    requires PermittedRun(derive, INITIAL, ops)
    ensures var w := Run(INITIAL, ops);
      && Distinct(w.issued)
      && forall v, i: nat :: v in w.db.wallets ==>
           (Issue(w.db.wallets[v].namespace, w.db.wallets[v].xpub, i) in w.issued <==> i < w.db.wallets[v].index)
  {
    RunKeepsGood(derive, INITIAL, ops);
  }

  /** Family and tenancy in every reachable state, and hence at every allocation. */
  lemma ReachableResolutionServes(derive: Derivation, ops: seq<Op>, m: Uuid)
    requires PermittedRun(derive, INITIAL, ops) && Resolve(Run(INITIAL, ops).db, m).Some?
    ensures var db := Run(INITIAL, ops).db;
      Serves(db.stores, db.wallets, Resolve(db, m).value, db.methods[m].store, db.methods[m].chain.namespace)
  {
    RunKeepsGood(derive, INITIAL, ops);
    ResolutionServes(Run(INITIAL, ops).db, m);
  }

  // ---------------------------------------------------------------- one invoice per address

  /** The same address, up to letter case, in the same family: whatever the chain and the token. */
  ghost predicate SameAddress(address: string, chain: ChainId, other: string, otherChain: ChainId) {
    chain.namespace == otherChain.namespace && Lower(address) == Lower(other)
  }

  /** An address of a family is watched at most once. */
  ghost predicate OneRowPerAddress(watched: map<Triple, WatchRow>) {
    forall j, k :: j in watched && k in watched && SameAddress(j.address, j.chain, k.address, k.chain) ==> j == k
  }

  /** Freshly derived addresses are new: no watched row has one of them, under any
      token, chain of the family or spelling, and no two options share one. */
  lemma BillHitsNothing(derive: Derivation, w: World, options: seq<PaymentOption>, from: seq<Issue>)
    requires Injective(derive) && WatchedSpent(derive, w) && FreshlyDerived(derive, w, options, from)
    ensures forall k, i :: k in w.tables.watched && 0 <= i < |options| ==>
      !SameAddress(k.address, k.chain, options[i].address, options[i].chain)
    ensures forall i, j :: 0 <= i < j < |options| ==>
      !SameAddress(options[i].address, options[i].chain, options[j].address, options[j].chain)
  {
    forall k, i | k in w.tables.watched && 0 <= i < |options|
      ensures !SameAddress(k.address, k.chain, options[i].address, options[i].chain)
    {
      assert DerivedFromSpent(derive, w.spent, k);
      var e :| e in w.spent && k.address == derive(e) && k.chain.namespace == e.namespace;
      assert e != from[i];
    }
    forall i, j | 0 <= i < j < |options|
      ensures !SameAddress(options[i].address, options[i].chain, options[j].address, options[j].chain)
    {
      assert from[i] != from[j];
    }
  }

  /** So a bill touches no row there was. */
  lemma BillTouchesNothing(derive: Derivation, w: World, invoice: Invoice, options: seq<PaymentOption>, from: seq<Issue>, k: Triple)
    requires Injective(derive) && WatchedSpent(derive, w) && FreshlyDerived(derive, w, options, from)
    requires Create(w.tables, invoice, options).Some? && k in w.tables.watched
    ensures var after := Create(w.tables, invoice, options).value;
      k in after.watched && after.watched[k] == w.tables.watched[k]
  {
    BillHitsNothing(derive, w, options, from);
    forall i | 0 <= i < |options| ensures !Hits(k, options[i]) {
      assert !SameAddress(k.address, k.chain, options[i].address, options[i].chain);
    }
    CreationTouchesNothingElse(w.tables, invoice, options, k);
  }

  lemma StepKeepsOneRow(derive: Derivation, w: World, op: Op)
    requires Injective(derive) && WatchedSpent(derive, w) && OneRowPerAddress(w.tables.watched) && Permitted(derive, w, op)
    ensures OneRowPerAddress(Step(w, op).tables.watched)
  {
    if op.Bill? && Create(w.tables, op.invoice, op.options).Some? {
      BillHitsNothing(derive, w, op.options, op.from);
      var after := Step(w, op).tables.watched;
      forall j, k | j in after && k in after && SameAddress(j.address, j.chain, k.address, k.chain) ensures j == k {
        if j !in w.tables.watched {
          BilledRows(w.tables, op.invoice, op.options, j);
        }
        if k !in w.tables.watched {
          BilledRows(w.tables, op.invoice, op.options, k);
        }
      }
    }
  }

  lemma {:induction false} RunKeepsOneRow(derive: Derivation, w: World, ops: seq<Op>)
    requires Injective(derive) && Good(derive, w) && OneRowPerAddress(w.tables.watched) && PermittedRun(derive, w, ops)
    ensures OneRowPerAddress(Run(w, ops).tables.watched)
    decreases |ops|
  {
    if ops != [] {
      StepKeepsGood(derive, w, ops[0]);
      StepKeepsOneRow(derive, w, ops[0]);
      RunKeepsOneRow(derive, Step(w, ops[0]), ops[1..]);
    }
  }

  /** In every reachable state an address of a family is watched at most once:
      no second row under another chain, another token or another spelling. */
  lemma NoAddressIsWatchedTwice(derive: Derivation, ops: seq<Op>)
    requires Injective(derive) && PermittedRun(derive, INITIAL, ops)
    ensures OneRowPerAddress(Run(INITIAL, ops).tables.watched)
  {
    RunKeepsOneRow(derive, INITIAL, ops);
  }

  /** The row stays, for the same option, and the option stays as it is. */
  ghost predicate Stays(before: Tables, after: Tables, k: Triple) {
    k in before.watched && before.watched[k].option in before.options ==>
      && k in after.watched && after.watched[k].option == before.watched[k].option
      && after.watched[k].option in after.options
      && after.options[after.watched[k].option] == before.options[before.watched[k].option]
  }

  lemma RowStays(derive: Derivation, w: World, op: Op, k: Triple)
    requires Injective(derive) && WatchedSpent(derive, w) && Permitted(derive, w, op)
    ensures Stays(w.tables, Step(w, op).tables, k)
  {
    if op.Bill? {
      BillKeepsRow(derive, w, op.invoice, op.options, op.from, k);
    } else {
      FlagsOnly(w, op);
    }
  }

  lemma BillKeepsRow(derive: Derivation, w: World, invoice: Invoice, options: seq<PaymentOption>, from: seq<Issue>, k: Triple)
    requires Injective(derive) && WatchedSpent(derive, w) && FreshlyDerived(derive, w, options, from)
    ensures var made := Create(w.tables, invoice, options);
      Stays(w.tables, if made.Some? then made.value else w.tables, k)
  {
    if Create(w.tables, invoice, options).Some? && k in w.tables.watched {
      BillTouchesNothing(derive, w, invoice, options, from, k);
      OptionsAreStored(w.tables.(invoices := w.tables.invoices[invoice.id := invoice]), invoice, options);
    }
  }

  /** Apart from bills, only the flags of watched rows ever change. */
  lemma FlagsOnly(w: World, op: Op)
    requires !op.Bill?
    ensures var t := Step(w, op).tables;
      && t.options == w.tables.options && t.watched.Keys == w.tables.watched.Keys
      && forall k :: k in t.watched ==> t.watched[k].option == w.tables.watched[k].option
  {
  }

  lemma {:induction false} RowStaysForever(derive: Derivation, w: World, ops: seq<Op>, k: Triple)
    requires Injective(derive) && Good(derive, w) && PermittedRun(derive, w, ops)
    ensures Stays(w.tables, Run(w, ops).tables, k)
    decreases |ops|
  {
    if ops != [] {
      StepKeepsGood(derive, w, ops[0]);
      RowStays(derive, w, ops[0], k);
      RowStaysForever(derive, Step(w, ops[0]), ops[1..], k);
    }
  }

  /** No address is ever given to two invoices. If a payment to an address is
      credited to one invoice at some point of a run, then at that point and ever
      after a payment to it, on any chain of the family, in any token and under any
      spelling, is credited to no other. */
  lemma NoAddressServesTwoInvoices(derive: Derivation, ops: seq<Op>, more: seq<Op>,
                                   address: string, chain: ChainId, token: Option<string>, invoice: string,
                                   address': string, chain': ChainId, token': Option<string>, invoice': string)
    requires Injective(derive) && PermittedRun(derive, INITIAL, ops) && PermittedRun(derive, Run(INITIAL, ops), more)
    requires SameAddress(address, chain, address', chain')
    requires CreditedTo(Run(INITIAL, ops).tables, address, chain, token, invoice)
    requires CreditedTo(Run(Run(INITIAL, ops), more).tables, address', chain', token', invoice')
    ensures invoice == invoice'
  {
    var w := Run(INITIAL, ops);
    var end := Run(w, more);
    RunKeepsGood(derive, INITIAL, ops);
    RunKeepsOneRow(derive, INITIAL, ops);
    RunKeepsOneRow(derive, w, more);
    var k :| CreditsVia(w.tables, k, address, chain, token, invoice);
    var k' :| CreditsVia(end.tables, k', address', chain', token', invoice');
    RowStaysForever(derive, w, more, k);
    assert k in end.tables.watched && SameAddress(k.address, k.chain, k'.address, k'.chain);
  }

  /** Whatever has happened, a new invoice takes over no watched address: its
      addresses are new, and every row there was stays as it was. */
  lemma NoWatchedAddressIsReassigned(derive: Derivation, ops: seq<Op>, invoice: Invoice, options: seq<PaymentOption>, from: seq<Issue>)
    requires Injective(derive) && PermittedRun(derive, INITIAL, ops)
    requires Permitted(derive, Run(INITIAL, ops), Bill(invoice, options, from))
    requires Create(Run(INITIAL, ops).tables, invoice, options).Some?
    ensures var before := Run(INITIAL, ops).tables;
      var after := Create(before, invoice, options).value;
      && (forall k :: k in before.watched ==> k in after.watched && after.watched[k] == before.watched[k])
      && (forall k, i :: k in before.watched && 0 <= i < |options| ==>
            !SameAddress(k.address, k.chain, options[i].address, options[i].chain))
      && (forall i, j :: 0 <= i < j < |options| ==>
            !SameAddress(options[i].address, options[i].chain, options[j].address, options[j].chain))
  {
    var w := Run(INITIAL, ops);
    RunKeepsGood(derive, INITIAL, ops);
    BillHitsNothing(derive, w, options, from);
    forall k | k in w.tables.watched
      ensures k in Create(w.tables, invoice, options).value.watched
      ensures Create(w.tables, invoice, options).value.watched[k] == w.tables.watched[k]
    {
      BillTouchesNothing(derive, w, invoice, options, from, k);
    }
  }

  // ---------------------------------------------------------------- exactly when deletion is safe

  /** Deleting a wallet forgets its counter. What follows can be kept free of
      reuse whatever is done next exactly when the wallet had issued nothing:
      otherwise registering the key again starts over at index 0. */
  lemma DeletionIsSafeIff(derive: Derivation, w: World, wallet: Uuid)
    requires Good(derive, w) && DeleteWallet(w.db, wallet).answer.Ok?
    ensures (forall ops :: PermittedRun(derive, Step(w, Delete(wallet)), ops) ==> Distinct(Run(Step(w, Delete(wallet)), ops).issued))
      <==> Unissued(w, wallet)
  {
    var after := Step(w, Delete(wallet));
    if Unissued(w, wallet) {
      StepKeepsGood(derive, w, Delete(wallet));
      forall ops | PermittedRun(derive, after, ops) ensures Distinct(Run(after, ops).issued) {
        RunKeepsGood(derive, after, ops);
      }
    } else {
      var ops := ReRegister(derive, w, wallet);
    }
  }

  /** Once its wallet is deleted a key is registered to nobody. */
  lemma DeletedKeyIsFree(db: Db, wallet: Uuid)
    requires WalletsSound(db.wallets) && wallet in db.wallets
    ensures var after := db.(wallets := db.wallets - {wallet});
      var row := db.wallets[wallet];
      !HeldElsewhere(after, row.owner, row.xpub) && forall v :: !IsKey(after.wallets, v, row.owner, row.namespace, row.xpub)
  {
    var row := db.wallets[wallet];
    var ws := db.wallets - {wallet};
    assert Holds(db.wallets, wallet, row.owner, row.xpub) && IsKey(db.wallets, wallet, row.owner, row.namespace, row.xpub);
    assert forall v, other :: Holds(ws, v, other, row.xpub) ==> Holds(db.wallets, v, other, row.xpub);
    assert forall v :: IsKey(ws, v, row.owner, row.namespace, row.xpub) ==> IsKey(db.wallets, v, row.owner, row.namespace, row.xpub);
  }

  /** Registering a deleted key again gives a wallet whose first index is 0. */
  lemma ReRegistered(db: Db, wallet: Uuid, newId: Uuid)
    requires WalletsSound(db.wallets) && wallet in db.wallets && newId !in db.wallets
    ensures var row := db.wallets[wallet];
      var made := CreateWallet(db.(wallets := db.wallets - {wallet}), row.owner, row.namespace, row.xpub, newId);
      made.answer == Ok(newId) && NextIndex(made.db, newId).answer == Ok(Allocation(newId, row.namespace, row.xpub, 0))
  {
    DeletedKeyIsFree(db, wallet);
  }

  /** The continuation that reuses index 0 of a deleted key. */
  lemma ReRegister(derive: Derivation, w: World, wallet: Uuid) returns (ops: seq<Op>)
    requires WalletsSound(w.db.wallets) && Counted(w.db.wallets, w.issued) && w.db.wallets.Keys <= w.walletIds
    requires DeleteWallet(w.db, wallet).answer.Ok? && !Unissued(w, wallet)
    ensures PermittedRun(derive, Step(w, Delete(wallet)), ops)
    ensures !Distinct(Run(Step(w, Delete(wallet)), ops).issued)
  {
    var row := w.db.wallets[wallet];
    var newId := Beyond(w.walletIds);
    var register := Register(row.owner, row.namespace, row.xpub, newId);
    ops := [register, TakeIndex(newId)];
    TwoSteps(derive, Step(w, Delete(wallet)), register, TakeIndex(newId));
    ReissuesZero(w, wallet, newId);
    RepeatIsNotDistinct(w.issued, Issue(row.namespace, row.xpub, 0));
  }

  lemma ReissuesZero(w: World, wallet: Uuid, newId: Uuid)
    requires WalletsSound(w.db.wallets) && DeleteWallet(w.db, wallet).answer.Ok? && newId !in w.db.wallets
    ensures var row := w.db.wallets[wallet];
      Step(Step(Step(w, Delete(wallet)), Register(row.owner, row.namespace, row.xpub, newId)), TakeIndex(newId)).issued
        == w.issued + [Issue(row.namespace, row.xpub, 0)]
  {
    ReRegistered(w.db, wallet, newId);
  }

  lemma RepeatIsNotDistinct(issued: seq<Issue>, e: Issue)
    requires e in issued
    ensures !Distinct(issued + [e])
  {
    var i :| 0 <= i < |issued| && issued[i] == e;
    assert (issued + [e])[i] == (issued + [e])[|issued|];
  }

  lemma TwoSteps(derive: Derivation, w: World, a: Op, b: Op)
    requires Permitted(derive, w, a) && Permitted(derive, Step(w, a), b)
    ensures PermittedRun(derive, w, [a, b]) && Run(w, [a, b]) == Step(Step(w, a), b)
  {
    var u := Step(w, a);
    assert [a, b][1..] == [b] && [b][1..] == [];
    assert PermittedRun(derive, Step(u, b), []) && Run(Step(u, b), []) == Step(u, b);
    assert PermittedRun(derive, u, [b]);
    assert Run(u, [b]) == Step(u, b);
  }

  /** A run that gets there: a key is registered, one index of it is taken, its
      wallet is deleted although it has issued, and the key is registered again. */
  lemma DeletionReusesAnIndex(derive: Derivation) returns (ops: seq<Op>, wallet: Uuid, more: seq<Op>)
    ensures PermittedRun(derive, INITIAL, ops)
    ensures var w := Run(INITIAL, ops);
      DeleteWallet(w.db, wallet).answer.Ok? && !Unissued(w, wallet) &&
      PermittedRun(derive, Step(w, Delete(wallet)), more) && !Distinct(Run(Step(w, Delete(wallet)), more).issued)
  {
    wallet := 7;
    var register := Register(1, "eip155", "xpub", wallet);
    ops := [register, TakeIndex(wallet)];
    TwoSteps(derive, INITIAL, register, TakeIndex(wallet));
    IssuesOne(wallet);
    RunKeepsGood(derive, INITIAL, ops);
    more := ReRegister(derive, Run(INITIAL, ops), wallet);
  }

  lemma IssuesOne(wallet: Uuid)
    ensures var w := Step(Step(INITIAL, Register(1, "eip155", "xpub", wallet)), TakeIndex(wallet));
      DeleteWallet(w.db, wallet).answer.Ok? && !Unissued(w, wallet)
  {
    var db := CreateWallet(EMPTY, 1, "eip155", "xpub", wallet).db;
    assert db == EMPTY.(wallets := map[wallet := Wallet(1, "eip155", "xpub", 0, true)]);
  }
}
