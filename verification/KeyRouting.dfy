/** What each command does to where money is collected: which methods it
    moves, to which wallet, and that every other method stays where it was. */
module KeyRouting {
  import opened Common
  import opened KeyTables
  import opened KeyCommands

  ghost predicate InFamily(db: Db, m: Uuid, store: Uuid, ns: string) {
    m in db.methods && db.methods[m].store == store && db.methods[m].chain.namespace == ns
  }

  /** Pinning a store to a wallet moves exactly the store's methods of that family onto it. */
  lemma SetStoreWalletRoutes(db: Db, store: Uuid, wallet: Uuid, m: Uuid)
    requires Inv(db) && SetStoreWallet(db, store, wallet).answer.Ok?
    ensures Resolve(SetStoreWallet(db, store, wallet).db, m) ==
      if InFamily(db, m, store, db.wallets[wallet].namespace) then Some(wallet) else Resolve(db, m)
  {
  }

  /** Clearing an override moves exactly the store's methods of that family onto the owner's primary, or onto nothing. */
  lemma ClearStoreWalletRoutes(db: Db, store: Uuid, ns: string, m: Uuid)
    requires Inv(db) && ClearStoreWallet(db, store, ns).answer.Ok?
    ensures Resolve(ClearStoreWallet(db, store, ns).db, m) ==
      if InFamily(db, m, store, ns) then Primary(db.wallets, db.stores[store], ns) else Resolve(db, m)
  {
  }

  /** The method has no pin and its store no override, so it follows its account's primary. */
  ghost predicate FollowsPrimary(db: Db, m: Uuid, user: Uuid, ns: string) {
    && m in db.methods && db.methods[m].chain.namespace == ns && db.methods[m].pin.None?
    && db.methods[m].store in db.stores && db.stores[db.methods[m].store] == user
    && OverrideKey(db.methods[m].store, ns) !in db.overrides
  }

  /** Changing the primary moves exactly the methods that follow it. */
  lemma SetPrimaryRoutes(db: Db, user: Uuid, wallet: Uuid, m: Uuid)
    requires Inv(db) && SetPrimary(db, user, wallet).answer.Ok?
    ensures Resolve(SetPrimary(db, user, wallet).db, m) ==
      if FollowsPrimary(db, m, user, db.wallets[wallet].namespace) then Some(wallet) else Resolve(db, m)
  {
    var db' := SetPrimary(db, user, wallet).db;
    SetPrimaryKeepsInv(db, user, wallet);
    PrimariesAfter(db, user, wallet);
    PrimaryIs(db'.wallets, wallet, user, db.wallets[wallet].namespace);
    if m in db.methods {
      var ns, owner := db.methods[m].chain.namespace, db.stores[db.methods[m].store];
      if !(owner == user && ns == db.wallets[wallet].namespace) {
        SamePrimary(db.wallets, db'.wallets, owner, ns);
      }
    }
  }

  /** Registering a key never moves a method that already had one: at most it
      gives the account's first key of a family to methods that had nothing. */
  lemma UpsertWalletRoutes(db: Db, user: Uuid, ns: string, xpub: string, newId: Uuid, m: Uuid)
    requires Inv(db) && newId !in db.wallets && !HeldElsewhere(db, user, xpub)
    ensures var (db', w) := UpsertWallet(db, user, ns, xpub, newId);
      Resolve(db', m) ==
        if FollowsPrimary(db, m, user, ns) && !HasFamily(db, user, ns) then Some(w) else Resolve(db, m)
  {
    var (db', w) := UpsertWallet(db, user, ns, xpub, newId);
    UpsertWalletKeepsInv(db, user, ns, xpub, newId);
    if m in db.methods && db' != db {
      var family, owner := db.methods[m].chain.namespace, db.stores[db.methods[m].store];
      if owner == user && family == ns && !HasFamily(db, user, ns) {
        PrimaryIs(db'.wallets, w, user, ns);
        assert forall v :: !IsPrimary(db.wallets, v, user, ns);
      } else {
        SamePrimary(db.wallets, db'.wallets, owner, family);
      }
    }
  }

  /** A method that was created has a wallet: the account's own one for the key
      it was given, or, given none, whatever its store resolves to. */
  lemma CreatedMethodHasAWallet(db: Db, store: Uuid, chain: ChainId, token: Option<string>, xpub: Option<string>,
                                newWallet: Uuid, newId: Uuid)
    requires Inv(db) && newWallet !in db.wallets && newId !in db.methods
    requires CreateMethod(db, store, chain, token, xpub, newWallet, newId).answer.Ok?
    ensures var r := CreateMethod(db, store, chain, token, xpub, newWallet, newId);
      var m := r.answer.value;
      && IsMethod(r.db.methods, m, store, chain, token) && r.db.methods[m].enabled
      && Resolve(r.db, m).Some?
      && (xpub.Some? ==> r.db.methods[m].pin == Resolve(r.db, m)
                         && IsKey(r.db.wallets, Resolve(r.db, m).value, db.stores[store], chain.namespace, xpub.value))
      && (xpub.None? ==> r.db.methods[m].pin.None? && Resolve(r.db, m) == StoreWallet(db, store, chain.namespace))
  {
    if xpub.Some? {
      UpsertWalletKeepsInv(db, db.stores[store], chain.namespace, xpub.value, newWallet);
    } else {
      var key := OverrideKey(store, chain.namespace);
      assert key in db.overrides ==> Serves(db.stores, db.wallets, db.overrides[key], key.store, key.namespace);
    }
  }

  /** Deleting a wallet takes it from the methods that followed it as primary, and touches no other method. */
  lemma DeleteWalletRoutes(db: Db, wallet: Uuid, m: Uuid)
    requires Inv(db) && DeleteWallet(db, wallet).answer.Ok?
    ensures Resolve(DeleteWallet(db, wallet).db, m) ==
      if Resolve(db, m) == Some(wallet) then None else Resolve(db, m)
    ensures Resolve(db, m) == Some(wallet) ==> FollowsPrimary(db, m, db.wallets[wallet].owner, db.wallets[wallet].namespace)
  {
    var db' := DeleteWallet(db, wallet).db;
    DeleteWalletKeepsInv(db, wallet);
    if m in db.methods {
      var ns, owner := db.methods[m].chain.namespace, db.stores[db.methods[m].store];
      if IsPrimary(db.wallets, wallet, owner, ns) {
        PrimaryIs(db.wallets, wallet, owner, ns);
        assert forall v :: IsPrimary(db'.wallets, v, owner, ns) ==> IsPrimary(db.wallets, v, owner, ns) && v != wallet;
      } else {
        SamePrimary(db.wallets, db'.wallets, owner, ns);
      }
    }
  }

  /** An allocation hands out the key and the pre-increment index of precisely
      the wallet the method resolves to, which is of the method's family and
      belongs to its store's owner. That counter moves by one; no other counter,
      no other table and no method's resolution changes. */
  lemma AllocationIsFromTheResolvedWallet(db: Db, m: Uuid)
    requires Inv(db)
    ensures var r := Allocate(db, m);
      match r.answer
      case Ok(a) =>
        && Resolve(db, m) == Some(a.wallet)
        && a.wallet in db.wallets && a.xpub == db.wallets[a.wallet].xpub && a.index == db.wallets[a.wallet].index
        && a.namespace == db.wallets[a.wallet].namespace == db.methods[m].chain.namespace
        && db.wallets[a.wallet].owner == db.stores[db.methods[m].store]
        && r.db.(wallets := db.wallets) == db && r.db.wallets.Keys == db.wallets.Keys
        && forall w :: w in db.wallets ==>
             r.db.wallets[w] == db.wallets[w].(index := db.wallets[w].index + if w == a.wallet then 1 else 0)
      case Err(e) =>
        && r.db == db
        && (Resolve(db, m).None? || db.wallets[Resolve(db, m).value].index >= MAX_INDEX)
    ensures forall n :: Resolve(Allocate(db, m).db, n) == Resolve(db, n)
  {
    var db' := Allocate(db, m).db;
    if Resolve(db, m).Some? {
      ResolutionServes(db, m);
      NextIndexKeepsInv(db, Resolve(db, m).value);
      forall n ensures Resolve(db', n) == Resolve(db, n) {
        if n in db.methods {
          SamePrimary(db.wallets, db'.wallets, db.stores[db.methods[n].store], db.methods[n].chain.namespace);
        }
      }
    }
  }
}
