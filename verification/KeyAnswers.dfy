/** What each key command answers, and what it does to every row, in the caller's terms. */
module KeyAnswers {
  import opened Common
  import opened KeyTables
  import opened KeyCommands
  import opened KeyRouting

  // ---------------------------------------------------------------- wallets

  /** Some account but this one holds the key. */
  ghost predicate HeldByAnother(db: Db, user: Uuid, xpub: string) {
    exists w :: w in db.wallets && db.wallets[w].xpub == xpub && db.wallets[w].owner != user
  }

  ghost predicate Registered(db: Db, user: Uuid, ns: string, xpub: string) {
    exists w :: w in db.wallets && db.wallets[w].owner == user && db.wallets[w].namespace == ns && db.wallets[w].xpub == xpub
  }

  /** Only the wallets table may differ. */
  ghost predicate OnlyWallets(a: Db, b: Db) {
    a.stores == b.stores && a.overrides == b.overrides && a.methods == b.methods && a.rotations == b.rotations
  }

  lemma HeldIs(db: Db, user: Uuid, xpub: string)
    ensures HeldElsewhere(db, user, xpub) <==> HeldByAnother(db, user, xpub)
  {
    if w :| w in db.wallets && db.wallets[w].xpub == xpub && db.wallets[w].owner != user {
      assert Holds(db.wallets, w, db.wallets[w].owner, xpub);
    }
  }

  /** Registering a key is refused exactly when another account holds it. Otherwise
      the answer is a wallet of that account, family and key: the one there was,
      and then nothing changes, or a new one with its counter at 0, primary exactly
      when the account had none of the family. */
  lemma CreateWalletAnswers(db: Db, user: Uuid, ns: string, xpub: string, newId: Uuid)
    requires newId !in db.wallets
    ensures var r := CreateWallet(db, user, ns, xpub, newId);
      if HeldByAnother(db, user, xpub) then r == Reply(db, Err(Conflict))
      else
        && r.answer.Ok? && OnlyWallets(r.db, db)
        && var w := r.answer.value;
           w in r.db.wallets && r.db.wallets[w].owner == user && r.db.wallets[w].namespace == ns && r.db.wallets[w].xpub == xpub
           && (Registered(db, user, ns, xpub) ==> w in db.wallets && r.db == db)
           && (!Registered(db, user, ns, xpub) ==>
                 && w == newId && r.db.wallets[w].index == 0 && r.db.wallets.Keys == db.wallets.Keys + {newId}
                 && (forall v :: v in db.wallets ==> r.db.wallets[v] == db.wallets[v])
                 && (r.db.wallets[w].isPrimary <==> !exists v :: v in db.wallets && db.wallets[v].owner == user && db.wallets[v].namespace == ns))
  {
    HeldIs(db, user, xpub);
    if Registered(db, user, ns, xpub) {
      var w :| w in db.wallets && db.wallets[w].owner == user && db.wallets[w].namespace == ns && db.wallets[w].xpub == xpub;
      assert IsKey(db.wallets, w, user, ns, xpub);
    }
  }

  /** The wallet a pasted key becomes is the store's owner's. */
  lemma WalletForStoreXpubAnswers(db: Db, store: Uuid, ns: string, xpub: string, newId: Uuid)
    ensures store !in db.stores ==> WalletForStoreXpub(db, store, ns, xpub, newId) == Reply(db, Err(NotFound))
    ensures store in db.stores ==>
      WalletForStoreXpub(db, store, ns, xpub, newId) == CreateWallet(db, db.stores[store], ns, xpub, newId)
  {
  }

  /** Promotion succeeds exactly on a wallet of the caller. Of that account and
      family the named wallet alone is primary then; nothing else changes. */
  lemma SetPrimaryAnswers(db: Db, user: Uuid, wallet: Uuid)
    ensures var r := SetPrimary(db, user, wallet);
      if wallet in db.wallets && db.wallets[wallet].owner == user then
        && r.answer == Ok(wallet) && OnlyWallets(r.db, db) && r.db.wallets.Keys == db.wallets.Keys
        && forall v :: v in db.wallets ==>
             var a, b := db.wallets[v], r.db.wallets[v];
             && b.owner == a.owner && b.namespace == a.namespace && b.xpub == a.xpub && b.index == a.index
             && (b.isPrimary <==> v == wallet || (a.isPrimary && !(a.owner == user && a.namespace == db.wallets[wallet].namespace)))
      else r == Reply(db, Err(NotFound))
  {
  }

  /** Deletion is refused for a wallet that is pinned or overridden to, and removes that row only. */
  lemma DeleteWalletAnswers(db: Db, wallet: Uuid)
    ensures var r := DeleteWallet(db, wallet);
      var named := (exists m :: m in db.methods && db.methods[m].pin == Some(wallet)) || (exists k :: k in db.overrides && db.overrides[k] == wallet);
      && (wallet !in db.wallets ==> r == Reply(db, Err(NotFound)))
      && (wallet in db.wallets && named ==> r == Reply(db, Err(Conflict)))
      && (wallet in db.wallets && !named ==>
            && r.answer == Ok(()) && OnlyWallets(r.db, db) && r.db.wallets.Keys == db.wallets.Keys - {wallet}
            && forall v :: v in r.db.wallets ==> r.db.wallets[v] == db.wallets[v])
  {
  }

  /** The index before the increment; at the limit of its column the counter refuses. */
  lemma NextIndexAnswers(db: Db, wallet: Uuid)
    ensures var r := NextIndex(db, wallet);
      && (wallet !in db.wallets ==> r == Reply(db, Err(NotFound)))
      && (wallet in db.wallets && db.wallets[wallet].index >= 0x7fff_ffff ==> r == Reply(db, Err(Database)))
      && (wallet in db.wallets && db.wallets[wallet].index < 0x7fff_ffff ==>
            && r.answer.Ok? && r.answer.value.wallet == wallet && r.answer.value.index == db.wallets[wallet].index
            && r.answer.value.xpub == db.wallets[wallet].xpub && r.answer.value.namespace == db.wallets[wallet].namespace
            && OnlyWallets(r.db, db) && r.db.wallets.Keys == db.wallets.Keys
            && r.db.wallets[wallet] == db.wallets[wallet].(index := db.wallets[wallet].index + 1)
            && forall v :: v in db.wallets && v != wallet ==> r.db.wallets[v] == db.wallets[v])
  {
  }

  /** An allocation fails without a wallet, or at the limit; nothing changes then. */
  lemma AllocateAnswers(db: Db, m: Uuid)
    ensures Resolve(db, m).None? ==> Allocate(db, m) == Reply(db, Err(NotFound))
    ensures Resolve(db, m).Some? ==> Allocate(db, m) == NextIndex(db, Resolve(db, m).value)
  {
  }

  // ---------------------------------------------------------------- resolution

  /** The walk, under the invariant: the pin decides; without one the store's
      override; without that the one primary of the store's owner, if there is one. */
  lemma ResolutionOrder(db: Db, m: Uuid)
    requires Inv(db)
    ensures m !in db.methods ==> Resolve(db, m).None?
    ensures m in db.methods ==>
      var row := db.methods[m];
      var key := OverrideKey(row.store, row.chain.namespace);
      && (row.pin.Some? ==> Resolve(db, m) == row.pin)
      && (row.pin.None? && key in db.overrides ==> Resolve(db, m) == Some(db.overrides[key]))
      && (row.pin.None? && key !in db.overrides ==> forall w ::
            Resolve(db, m) == Some(w) <==>
              w in db.wallets && db.wallets[w].isPrimary && db.wallets[w].owner == db.stores[row.store] && db.wallets[w].namespace == key.namespace)
  {
    if m in db.methods {
      var row := db.methods[m];
      var key := OverrideKey(row.store, row.chain.namespace);
      if row.pin.None? && key in db.overrides {
        assert Serves(db.stores, db.wallets, db.overrides[key], key.store, key.namespace);
      } else if row.pin.None? {
        forall w: Uuid | IsPrimary(db.wallets, w, db.stores[row.store], key.namespace) ensures Resolve(db, m) == Some(w) {
          PrimaryIs(db.wallets, w, db.stores[row.store], key.namespace);
        }
        forall w: Uuid ensures Resolve(db, m) == Some(w) ==> IsPrimary(db.wallets, w, db.stores[row.store], key.namespace) {
        }
      }
    }
  }

  // ---------------------------------------------------------------- overrides

  /** Methods keep everything but their pin, which is released for this store and family. */
  ghost predicate PinsReleased(a: Db, b: Db, store: Uuid, ns: string) {
    b.methods.Keys == a.methods.Keys && forall m :: m in a.methods ==>
      && b.methods[m].store == a.methods[m].store && b.methods[m].chain == a.methods[m].chain
      && b.methods[m].token == a.methods[m].token && b.methods[m].enabled == a.methods[m].enabled
      && b.methods[m].pin == if a.methods[m].store == store && a.methods[m].chain.namespace == ns then None else a.methods[m].pin
  }

  /** No override but this one differs, and no wallet, store or log row at all. */
  ghost predicate OnlyOverride(a: Db, b: Db, store: Uuid, ns: string) {
    && a.stores == b.stores && a.wallets == b.wallets && a.rotations == b.rotations
    && forall k :: k != OverrideKey(store, ns) ==> (k in a.overrides <==> k in b.overrides) && (k in a.overrides ==> a.overrides[k] == b.overrides[k])
  }

  /** An override is set exactly when store and wallet exist and belong together. */
  lemma SetStoreWalletAnswers(db: Db, store: Uuid, wallet: Uuid)
    ensures var r := SetStoreWallet(db, store, wallet);
      if store in db.stores && wallet in db.wallets && db.wallets[wallet].owner == db.stores[store] then
        var ns := db.wallets[wallet].namespace;
        && r.answer == Ok(()) && OnlyOverride(db, r.db, store, ns) && PinsReleased(db, r.db, store, ns)
        && OverrideKey(store, ns) in r.db.overrides && r.db.overrides[OverrideKey(store, ns)] == wallet
      else r == Reply(db, Err(NotFound))
  {
  }

  /** Clearing needs only the store; whether there was an override does not matter. */
  lemma ClearStoreWalletAnswers(db: Db, store: Uuid, ns: string)
    ensures var r := ClearStoreWallet(db, store, ns);
      if store in db.stores then
        r.answer == Ok(()) && OnlyOverride(db, r.db, store, ns) && PinsReleased(db, r.db, store, ns) && OverrideKey(store, ns) !in r.db.overrides
      else r == Reply(db, Err(NotFound))
  {
  }

  // ---------------------------------------------------------------- payment methods

  /** Every method row but one is as it was. */
  ghost predicate OnlyMethod(a: Db, b: Db, m: Uuid) {
    && a.stores == b.stores && a.overrides == b.overrides && a.rotations == b.rotations
    && forall n :: n != m ==> (n in a.methods <==> n in b.methods) && (n in a.methods ==> a.methods[n] == b.methods[n])
  }

  /** Creation is refused exactly for an unknown store, a key another account
      holds, or, without a key, a store that resolves to no wallet of the family.
      Otherwise one row is written: the one already there for the asset, or a new one. */
  lemma CreateMethodAnswers(db: Db, store: Uuid, chain: ChainId, token: Option<string>, xpub: Option<string>, newWallet: Uuid, newId: Uuid)
    requires Inv(db) && newWallet !in db.wallets && newId !in db.methods
    ensures var r := CreateMethod(db, store, chain, token, xpub, newWallet, newId);
      && (xpub.Some? && store !in db.stores ==> r == Reply(db, Err(NotFound)))
      && (xpub.Some? && store in db.stores && HeldByAnother(db, db.stores[store], xpub.value) ==> r == Reply(db, Err(Conflict)))
      && (xpub.None? && (store !in db.stores || StoreWallet(db, store, chain.namespace).None?) ==> r == Reply(db, Err(Conflict)))
      && (store in db.stores && (if xpub.Some? then !HeldByAnother(db, db.stores[store], xpub.value) else StoreWallet(db, store, chain.namespace).Some?) ==>
            && r.answer.Ok? && OnlyMethod(db, r.db, r.answer.value)
            && (forall n :: IsMethod(db.methods, n, store, chain, token) ==> r.answer.value == n)
            && ((forall n :: !IsMethod(db.methods, n, store, chain, token)) ==> r.answer.value == newId)
            && (xpub.None? ==> r.db.wallets == db.wallets))
  {
    if store in db.stores && xpub.Some? {
      HeldIs(db, db.stores[store], xpub.value);
      CreateWalletAnswers(db, db.stores[store], chain.namespace, xpub.value, newWallet);
    } else if store in db.stores {
      HeldIs(db, db.stores[store], "");
    }
  }

  /** An update with a pasted key is refused exactly for an unknown method or a key
      another account holds; one without, only for an unknown method. */
  lemma ChangeMethodAnswers(db: Db, m: Uuid, enabled: Option<bool>, xpub: Option<string>, newWallet: Uuid)
    requires Inv(db) && newWallet !in db.wallets
    ensures var r := ChangeMethod(db, m, enabled, xpub, newWallet);
      && (m !in db.methods ==> r == Reply(db, Err(NotFound)))
      && (m in db.methods && xpub.Some? && HeldByAnother(db, db.stores[db.methods[m].store], xpub.value) ==> r == Reply(db, Err(Conflict)))
      && (m in db.methods && !(xpub.Some? && HeldByAnother(db, db.stores[db.methods[m].store], xpub.value)) ==> r.answer == Ok(()))
  {
    if m in db.methods && xpub.Some? {
      var store := db.methods[m].store;
      HeldIs(db, db.stores[store], xpub.value);
      CreateWalletAnswers(db, db.stores[store], db.methods[m].chain.namespace, xpub.value, newWallet);
    }
  }

  /** And it does what was asked. A pasted key: the method collects on the owner's
      wallet for it. None: the pin stays. `enabled` is what was given, if anything.
      Every other method keeps its row, and its wallet as registering the key leaves it. */
  lemma ChangeMethodRoutes(db: Db, m: Uuid, enabled: Option<bool>, xpub: Option<string>, newWallet: Uuid)
    requires Inv(db) && newWallet !in db.wallets && ChangeMethod(db, m, enabled, xpub, newWallet).answer.Ok?
    ensures var after := ChangeMethod(db, m, enabled, xpub, newWallet).db;
      && m in db.methods && m in after.methods && OnlyMethod(db, after, m)
      && var a, b := db.methods[m], after.methods[m];
         b.store == a.store && b.chain == a.chain && b.token == a.token
         && b.enabled == (if enabled.Some? then enabled.value else a.enabled)
         && (xpub.None? ==> b.pin == a.pin && after.wallets == db.wallets && Resolve(after, m) == Resolve(db, m))
         && (xpub.Some? ==>
               && b.pin == Resolve(after, m) && Resolve(after, m).Some?
               && IsKey(after.wallets, Resolve(after, m).value, db.stores[a.store], a.chain.namespace, xpub.value))
    ensures var after := ChangeMethod(db, m, enabled, xpub, newWallet).db;
      var user, ns := db.stores[db.methods[m].store], db.methods[m].chain.namespace;
      forall n | n != m :: Resolve(after, n) ==
        if xpub.Some? && FollowsPrimary(db, n, user, ns) && !HasFamily(db, user, ns) then after.methods[m].pin else Resolve(db, n)
  {
    ChangeMethodAnswers(db, m, enabled, xpub, newWallet);
    if xpub.Some? {
      var user, ns := db.stores[db.methods[m].store], db.methods[m].chain.namespace;
      HeldIs(db, user, xpub.value);
      var (made, w) := UpsertWallet(db, user, ns, xpub.value, newWallet);
      CreateWalletAnswers(db, user, ns, xpub.value, newWallet);
      UpdateKeepsOthers(made, m, enabled, Some(w));
      forall n | n != m ensures Resolve(UpdateMethod(made, m, enabled, Some(w)).db, n) == Resolve(made, n) {
      }
      forall n ensures Resolve(made, n) == if FollowsPrimary(db, n, user, ns) && !HasFamily(db, user, ns) then Some(w) else Resolve(db, n) {
        UpsertWalletRoutes(db, user, ns, xpub.value, newWallet, n);
      }
    } else {
      UpdateKeepsOthers(db, m, enabled, None);
    }
  }

  lemma UpdateKeepsOthers(db: Db, m: Uuid, enabled: Option<bool>, pin: Option<Uuid>)
    requires UpdateMethod(db, m, enabled, pin).answer.Ok?
    ensures var after := UpdateMethod(db, m, enabled, pin).db;
      m in db.methods && m in after.methods && OnlyMethod(db, after, m) && after.wallets == db.wallets
      && (forall n :: n != m ==> Resolve(after, n) == Resolve(db, n)) && (pin.None? ==> Resolve(after, m) == Resolve(db, m))
  {
  }

  lemma DeleteMethodAnswers(db: Db, m: Uuid)
    ensures m !in db.methods ==> DeleteMethod(db, m) == Reply(db, Err(NotFound))
    ensures m in db.methods ==>
      var r := DeleteMethod(db, m);
      r.answer == Ok(()) && m !in r.db.methods && OnlyMethod(db, r.db, m) && r.db.wallets == db.wallets
      && forall n :: n != m ==> Resolve(r.db, n) == Resolve(db, n)
  {
  }
}
