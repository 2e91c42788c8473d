/** Every command that changes where an account's money is collected, as a
    function from the tables before to the tables after and the answer given.
    Each transaction is one function; a failed one leaves the tables alone. */
module KeyCommands {
  import opened Common
  import opened KeyTables

  datatype Reply<T> = Reply(db: Db, answer: Result<T>)

  /** The key a counter was advanced on and the index it gave up. */
  datatype Allocation = Allocation(wallet: Uuid, namespace: string, xpub: string, index: nat)

  // ---------------------------------------------------------------- commands

  ghost predicate HeldElsewhere(db: Db, user: Uuid, xpub: string) {
    exists w, other :: Holds(db.wallets, w, other, xpub) && other != user
  }

  ghost predicate HasFamily(db: Db, user: Uuid, ns: string) {
    exists w :: w in db.wallets && db.wallets[w].owner == user && db.wallets[w].namespace == ns
  }

  /** Find the wallet for this key, or insert it: counter at 0, primary exactly
      when it is the account's first of the family. */
  ghost function UpsertWallet(db: Db, user: Uuid, ns: string, xpub: string, newId: Uuid): (r: (Db, Uuid)) {
    if w :| IsKey(db.wallets, w, user, ns, xpub) then (db, w)
    else (db.(wallets := db.wallets[newId := Wallet(user, ns, xpub, 0, !HasFamily(db, user, ns))]), newId)
  }

  ghost function CreateWallet(db: Db, user: Uuid, ns: string, xpub: string, newId: Uuid): (r: Reply<Uuid>) {
    if HeldElsewhere(db, user, xpub) then Reply(db, Err(Conflict))
    else
      var (db', w) := UpsertWallet(db, user, ns, xpub, newId);
      Reply(db', Ok(w))
  }

  /** The key pasted onto a payment method becomes a wallet of the store's owner. */
  ghost function WalletForStoreXpub(db: Db, store: Uuid, ns: string, xpub: string, newId: Uuid): (r: Reply<Uuid>) {
    if store !in db.stores then Reply(db, Err(NotFound))
    else CreateWallet(db, db.stores[store], ns, xpub, newId)
  }

  /** No wallet of the account and family is primary any more. */
  ghost function Demote(wallets: map<Uuid, Wallet>, user: Uuid, ns: string): (r: map<Uuid, Wallet>) {
    map w | w in wallets ::
      if wallets[w].owner == user && wallets[w].namespace == ns then wallets[w].(isPrimary := false) else wallets[w]
  }

  /** Demote the account's primary of the named wallet's family, then promote the wallet. */
  ghost function SetPrimary(db: Db, user: Uuid, wallet: Uuid): (r: Reply<Uuid>) {
    if wallet !in db.wallets || db.wallets[wallet].owner != user then Reply(db, Err(NotFound))
    else
      var demoted := Demote(db.wallets, user, db.wallets[wallet].namespace);
      Reply(db.(wallets := demoted[wallet := db.wallets[wallet].(isPrimary := true)]), Ok(wallet))
  }

  ghost predicate InUse(db: Db, wallet: Uuid) {
    (exists m :: m in db.methods && db.methods[m].pin == Some(wallet)) ||
    (exists k :: k in db.overrides && db.overrides[k] == wallet)
  }

  ghost function DeleteWallet(db: Db, wallet: Uuid): (r: Reply<()>) {
    if wallet !in db.wallets then Reply(db, Err(NotFound))
    else if InUse(db, wallet) then Reply(db, Err(Conflict))
    else Reply(db.(wallets := db.wallets - {wallet}), Ok(()))
  }

  /** Release the pins of a store's methods in one family. */
  ghost function Unpin(methods: map<Uuid, Method>, store: Uuid, ns: string): (r: map<Uuid, Method>) {
    map m | m in methods ::
      if methods[m].store == store && methods[m].chain.namespace == ns then methods[m].(pin := None) else methods[m]
  }

  ghost function SetStoreWallet(db: Db, store: Uuid, wallet: Uuid): (r: Reply<()>) {
    if !(store in db.stores && wallet in db.wallets && db.wallets[wallet].owner == db.stores[store]) then
      Reply(db, Err(NotFound))
    else
      var ns := db.wallets[wallet].namespace;
      Reply(db.(overrides := db.overrides[OverrideKey(store, ns) := wallet], methods := Unpin(db.methods, store, ns)),
            Ok(()))
  }

  ghost function ClearStoreWallet(db: Db, store: Uuid, ns: string): (r: Reply<()>) {
    if store !in db.stores then Reply(db, Err(NotFound))
    else Reply(db.(overrides := db.overrides - {OverrideKey(store, ns)}, methods := Unpin(db.methods, store, ns)), Ok(()))
  }

  /** The second half of creating a payment method: insert it, or re-point the
      one already there for the same store, chain and token. The foreign keys
      refuse an unknown store and a pin outside the method's family. */
  ghost function InsertMethod(db: Db, store: Uuid, chain: ChainId, token: Option<string>, pin: Option<Uuid>, newId: Uuid)
    : (r: Reply<Uuid>)
  {
    if store !in db.stores then Reply(db, Err(Database))
    else if pin.Some? && !(pin.value in db.wallets && db.wallets[pin.value].namespace == chain.namespace) then
      Reply(db, Err(Database))
    else
      var m := if m: Uuid :| IsMethod(db.methods, m, store, chain, token) then m else newId;
      Reply(db.(methods := db.methods[m := Method(store, chain, token, pin, true)]), Ok(m))
  }

  /** Creating a payment method is two transactions: a pasted key first becomes
      a wallet of the store's owner, or without one the store must already
      resolve to a wallet of the family; then the row is inserted. */
  ghost function CreateMethod(db: Db, store: Uuid, chain: ChainId, token: Option<string>, xpub: Option<string>,
                              newWallet: Uuid, newId: Uuid): (r: Reply<Uuid>)
  {
    if xpub.Some? then
      var made := WalletForStoreXpub(db, store, chain.namespace, xpub.value, newWallet);
      if made.answer.Err? then Reply(made.db, Err(made.answer.error))
      else InsertMethod(made.db, store, chain, token, Some(made.answer.value), newId)
    else if store !in db.stores || StoreWallet(db, store, chain.namespace).None? then Reply(db, Err(Conflict))
    else InsertMethod(db, store, chain, token, None, newId)
  }

  /** The second half of updating a payment method: NULL leaves a column as it was. */
  ghost function UpdateMethod(db: Db, m: Uuid, enabled: Option<bool>, pin: Option<Uuid>): (r: Reply<()>) {
    if m !in db.methods then Reply(db, Err(NotFound))
    else if pin.Some? && !(pin.value in db.wallets && db.wallets[pin.value].namespace == db.methods[m].chain.namespace) then
      Reply(db, Err(Database))
    else
      var row := db.methods[m];
      Reply(db.(methods := db.methods[m := row.(pin := Coalesce(pin, row.pin),
                                               enabled := if enabled.Some? then enabled.value else row.enabled)]), Ok(()))
  }

  /** With a pasted key: first the wallet, in its own transaction, then the pin. */
  ghost function ChangeMethod(db: Db, m: Uuid, enabled: Option<bool>, xpub: Option<string>, newWallet: Uuid): (r: Reply<()>) {
    if m !in db.methods then Reply(db, Err(NotFound))
    else if xpub.None? then UpdateMethod(db, m, enabled, None)
    else
      var made := WalletForStoreXpub(db, db.methods[m].store, db.methods[m].chain.namespace, xpub.value, newWallet);
      if made.answer.Err? then Reply(made.db, Err(made.answer.error))
      else UpdateMethod(made.db, m, enabled, Some(made.answer.value))
  }

  ghost function DeleteMethod(db: Db, m: Uuid): (r: Reply<()>) {
    if m !in db.methods then Reply(db, Err(NotFound)) else Reply(db.(methods := db.methods - {m}), Ok(()))
  }

  /** Take the wallet's next index: the value returned is the one before the increment. */
  ghost function NextIndex(db: Db, wallet: Uuid): (r: Reply<Allocation>) {
    if wallet !in db.wallets then Reply(db, Err(NotFound))
    else if db.wallets[wallet].index >= MAX_INDEX then Reply(db, Err(Database))
    else
      var row := db.wallets[wallet];
      Reply(db.(wallets := db.wallets[wallet := row.(index := row.index + 1)]),
            Ok(Allocation(wallet, row.namespace, row.xpub, row.index)))
  }

  /** Resolve the method and advance the wallet it resolves to, in one statement. */
  ghost function Allocate(db: Db, m: Uuid): (r: Reply<Allocation>) {
    if Resolve(db, m).None? then Reply(db, Err(NotFound)) else NextIndex(db, Resolve(db, m).value)
  }

  // ---------------------------------------------------------------- the invariant is kept

  /** Releasing or moving pins changes no method's store, chain or token. */
  lemma SameAssets(a: map<Uuid, Method>, b: map<Uuid, Method>)
    requires OneMethodPerAsset(a)
    requires forall m :: m in b ==> m in a && b[m].store == a[m].store && b[m].chain == a[m].chain && b[m].token == a[m].token
    ensures OneMethodPerAsset(b)
  {
    assert forall m, s, c, t :: IsMethod(b, m, s, c, t) ==> IsMethod(a, m, s, c, t);
  }

  /** Changing counters and primary flags, or adding wallets, keeps overrides and pins sound. */
  lemma RowsKeepServing(stores: map<Uuid, Uuid>, a: map<Uuid, Wallet>, b: map<Uuid, Wallet>,
                        overrides: map<OverrideKey, Uuid>, methods: map<Uuid, Method>)
    requires OverridesSound(stores, a, overrides) && MethodsSound(stores, a, methods)
    requires forall w :: w in a ==> w in b && b[w].owner == a[w].owner && b[w].namespace == a[w].namespace
    ensures OverridesSound(stores, b, overrides) && MethodsSound(stores, b, methods)
  {
    assert forall w, s, ns :: Serves(stores, a, w, s, ns) ==> Serves(stores, b, w, s, ns);
  }

  /** A key new to the account and held by nobody else can be added; it may be primary if its family has none. */
  lemma NewKeyIsSound(wallets: map<Uuid, Wallet>, newId: Uuid, row: Wallet)
    requires WalletsSound(wallets) && newId !in wallets
    requires forall v :: !IsKey(wallets, v, row.owner, row.namespace, row.xpub)
    requires forall v, other :: Holds(wallets, v, other, row.xpub) ==> other == row.owner
    requires row.isPrimary ==> forall v :: !IsPrimary(wallets, v, row.owner, row.namespace)
    ensures WalletsSound(wallets[newId := row])
  {
    var ws := wallets[newId := row];
    assert forall v, o, n, x :: IsKey(ws, v, o, n, x) ==>
      if v == newId then o == row.owner && n == row.namespace && x == row.xpub else IsKey(wallets, v, o, n, x);
    assert forall v, o, x :: Holds(ws, v, o, x) ==> Holds(wallets, v, o, x) || (o == row.owner && x == row.xpub);
    assert forall v, o, n :: IsPrimary(ws, v, o, n) ==>
      if v == newId then o == row.owner && n == row.namespace && row.isPrimary else IsPrimary(wallets, v, o, n);
  }

  lemma UpsertWalletKeepsInv(db: Db, user: Uuid, ns: string, xpub: string, newId: Uuid)
    requires Inv(db) && newId !in db.wallets && !HeldElsewhere(db, user, xpub)
    ensures Inv(UpsertWallet(db, user, ns, xpub, newId).0)
    ensures IsKey(UpsertWallet(db, user, ns, xpub, newId).0.wallets, UpsertWallet(db, user, ns, xpub, newId).1, user, ns, xpub)
  {
    var (db', w) := UpsertWallet(db, user, ns, xpub, newId);
    if w !in db.wallets {
      NewKeyIsSound(db.wallets, newId, db'.wallets[newId]);
      RowsKeepServing(db.stores, db.wallets, db'.wallets, db.overrides, db.methods);
    }
  }

  lemma CreateWalletKeepsInv(db: Db, user: Uuid, ns: string, xpub: string, newId: Uuid)
    requires Inv(db) && newId !in db.wallets
    ensures Inv(CreateWallet(db, user, ns, xpub, newId).db)
  {
    if !HeldElsewhere(db, user, xpub) {
      UpsertWalletKeepsInv(db, user, ns, xpub, newId);
    }
  }

  lemma SetPrimaryKeepsInv(db: Db, user: Uuid, wallet: Uuid)
    requires Inv(db)
    ensures Inv(SetPrimary(db, user, wallet).db)
  {
    if wallet in db.wallets && db.wallets[wallet].owner == user {
      var ws := SetPrimary(db, user, wallet).db.wallets;
      RowsKeepServing(db.stores, db.wallets, ws, db.overrides, db.methods);
      SameKeys(db.wallets, ws);
      assert OnePrimary(ws) by {
        PrimariesAfter(db, user, wallet);
      }
    }
  }

  /** Counters and primary flags do not matter to which account holds which key. */
  lemma SameKeys(a: map<Uuid, Wallet>, b: map<Uuid, Wallet>)
    requires a.Keys == b.Keys && OneCounterPerKey(a) && KeysExclusive(a)
    requires forall w :: w in a ==> b[w].owner == a[w].owner && b[w].namespace == a[w].namespace && b[w].xpub == a[w].xpub
    ensures OneCounterPerKey(b) && KeysExclusive(b)
  {
    assert forall v, o, n, x :: IsKey(b, v, o, n, x) <==> IsKey(a, v, o, n, x);
    assert forall v, o, x :: Holds(b, v, o, x) <==> Holds(a, v, o, x);
  }

  /** Promotion replaces the one primary of that account and family, and no other. */
  lemma PrimariesAfter(db: Db, user: Uuid, wallet: Uuid)
    requires wallet in db.wallets && db.wallets[wallet].owner == user
    ensures forall v, o, n :: IsPrimary(SetPrimary(db, user, wallet).db.wallets, v, o, n) <==>
      if o == user && n == db.wallets[wallet].namespace then v == wallet else IsPrimary(db.wallets, v, o, n)
  {
  }

  lemma DeleteWalletKeepsInv(db: Db, wallet: Uuid)
    requires Inv(db)
    ensures Inv(DeleteWallet(db, wallet).db)
  {
    var ws := DeleteWallet(db, wallet).db.wallets;
    assert forall v, o, n, x :: IsKey(ws, v, o, n, x) ==> IsKey(db.wallets, v, o, n, x);
    assert forall v, o, x :: Holds(ws, v, o, x) ==> Holds(db.wallets, v, o, x);
    assert forall v, o, n :: IsPrimary(ws, v, o, n) ==> IsPrimary(db.wallets, v, o, n);
  }

  lemma SetStoreWalletKeepsInv(db: Db, store: Uuid, wallet: Uuid)
    requires Inv(db)
    ensures Inv(SetStoreWallet(db, store, wallet).db)
  {
    SameAssets(db.methods, SetStoreWallet(db, store, wallet).db.methods);
  }

  lemma ClearStoreWalletKeepsInv(db: Db, store: Uuid, ns: string)
    requires Inv(db)
    ensures Inv(ClearStoreWallet(db, store, ns).db)
  {
    SameAssets(db.methods, ClearStoreWallet(db, store, ns).db.methods);
  }

  lemma InsertMethodKeepsInv(db: Db, store: Uuid, chain: ChainId, token: Option<string>, pin: Option<Uuid>, newId: Uuid)
    requires Inv(db) && newId !in db.methods
    requires pin.Some? && pin.value in db.wallets && store in db.stores ==> db.wallets[pin.value].owner == db.stores[store]
    ensures Inv(InsertMethod(db, store, chain, token, pin, newId).db)
  {
    var reply := InsertMethod(db, store, chain, token, pin, newId);
    if reply.answer.Ok? {
      assert forall m, s, c, t :: IsMethod(reply.db.methods, m, s, c, t) ==>
        IsMethod(db.methods, m, s, c, t) || (m == reply.answer.value && s == store && c == chain && t == token);
    }
  }

  lemma CreateMethodKeepsInv(db: Db, store: Uuid, chain: ChainId, token: Option<string>, xpub: Option<string>,
                             newWallet: Uuid, newId: Uuid)
    requires Inv(db) && newWallet !in db.wallets && newId !in db.methods
    ensures Inv(CreateMethod(db, store, chain, token, xpub, newWallet, newId).db)
  {
    if xpub.Some? {
      var made := WalletForStoreXpub(db, store, chain.namespace, xpub.value, newWallet);
      if made.answer.Ok? {
        UpsertWalletKeepsInv(db, db.stores[store], chain.namespace, xpub.value, newWallet);
        InsertMethodKeepsInv(made.db, store, chain, token, Some(made.answer.value), newId);
      }
    } else {
      InsertMethodKeepsInv(db, store, chain, token, None, newId);
    }
  }

  lemma UpdateMethodKeepsInv(db: Db, m: Uuid, enabled: Option<bool>, pin: Option<Uuid>)
    requires Inv(db)
    requires m in db.methods && pin.Some? && pin.value in db.wallets
             ==> db.wallets[pin.value].owner == db.stores[db.methods[m].store]
    ensures Inv(UpdateMethod(db, m, enabled, pin).db)
  {
    SameAssets(db.methods, UpdateMethod(db, m, enabled, pin).db.methods);
  }

  lemma ChangeMethodKeepsInv(db: Db, m: Uuid, enabled: Option<bool>, xpub: Option<string>, newWallet: Uuid)
    requires Inv(db) && newWallet !in db.wallets
    ensures Inv(ChangeMethod(db, m, enabled, xpub, newWallet).db)
  {
    if m in db.methods && xpub.Some? {
      var store, ns := db.methods[m].store, db.methods[m].chain.namespace;
      var made := WalletForStoreXpub(db, store, ns, xpub.value, newWallet);
      if made.answer.Ok? {
        UpsertWalletKeepsInv(db, db.stores[store], ns, xpub.value, newWallet);
        UpdateMethodKeepsInv(made.db, m, enabled, Some(made.answer.value));
      }
    } else {
      UpdateMethodKeepsInv(db, m, enabled, None);
    }
  }

  lemma NextIndexKeepsInv(db: Db, wallet: Uuid)
    requires Inv(db)
    ensures Inv(NextIndex(db, wallet).db)
  {
    var ws := NextIndex(db, wallet).db.wallets;
    RowsKeepServing(db.stores, db.wallets, ws, db.overrides, db.methods);
    SameKeys(db.wallets, ws);
    assert forall v, o, n :: IsPrimary(ws, v, o, n) <==> IsPrimary(db.wallets, v, o, n);
  }
}
