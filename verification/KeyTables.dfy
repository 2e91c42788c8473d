/** The tables that decide which key an invoice address is derived from, the
    walk that resolves a payment method to a wallet, and the invariant every
    command of `KeyCommands` keeps. */
module KeyTables {
  import opened Common

  /** `derivation_index` is a Postgres INTEGER: advancing it past this value fails. */
  const MAX_INDEX: nat := 0x7fff_ffff

  /** A CAIP-2 chain identifier, `namespace:reference`. The namespace is the chain family. */
  datatype ChainId = ChainId(namespace: string, reference: string)

  datatype Wallet = Wallet(owner: Uuid, namespace: string, xpub: string, index: nat, isPrimary: bool)

  datatype Method = Method(store: Uuid, chain: ChainId, token: Option<string>, pin: Option<Uuid>, enabled: bool)

  datatype OverrideKey = OverrideKey(store: Uuid, namespace: string)

  datatype Rotation = Rotation(store: Uuid, previousXpub: string, newXpub: string, methodId: Uuid, previousIndex: nat)

  /** `stores` maps a store to its owner, which no statement of these repositories changes. */
  datatype Db = Db(stores: map<Uuid, Uuid>,
                   wallets: map<Uuid, Wallet>,
                   overrides: map<OverrideKey, Uuid>,
                   methods: map<Uuid, Method>,
                   rotations: seq<Rotation>)

  const EMPTY: Db := Db(map[], map[], map[], map[], [])

  // ---------------------------------------------------------------- resolution

  ghost predicate IsPrimary(wallets: map<Uuid, Wallet>, w: Uuid, owner: Uuid, ns: string) {
    w in wallets && wallets[w].owner == owner && wallets[w].namespace == ns && wallets[w].isPrimary
  }

  ghost function Primary(wallets: map<Uuid, Wallet>, owner: Uuid, ns: string): Option<Uuid> {
    if w :| IsPrimary(wallets, w, owner, ns) then Some(w) else None
  }

  /** The store's override for the family, else its owner's primary for the family. */
  ghost function StoreWallet(db: Db, store: Uuid, ns: string): Option<Uuid>
    requires store in db.stores
  {
    var key := OverrideKey(store, ns);
    if key in db.overrides then Some(db.overrides[key]) else Primary(db.wallets, db.stores[store], ns)
  }

  /** The wallet a payment method derives from: its pin, else its store's
      wallet, and in either case only if that wallet is of the method's family. */
  ghost function Resolve(db: Db, m: Uuid): Option<Uuid> {
    if m !in db.methods || db.methods[m].store !in db.stores then None
    else
      var ns := db.methods[m].chain.namespace;
      var found := Coalesce(db.methods[m].pin, StoreWallet(db, db.methods[m].store, ns));
      if found.Some? && found.value in db.wallets && db.wallets[found.value].namespace == ns then found else None
  }

  // ---------------------------------------------------------------- invariant

  ghost predicate IsKey(wallets: map<Uuid, Wallet>, w: Uuid, owner: Uuid, ns: string, xpub: string) {
    w in wallets && wallets[w].owner == owner && wallets[w].namespace == ns && wallets[w].xpub == xpub
  }

  /** One row, hence one counter, per (account, family, key). */
  ghost predicate OneCounterPerKey(wallets: map<Uuid, Wallet>) {
    forall v, w, owner, ns, xpub :: IsKey(wallets, v, owner, ns, xpub) && IsKey(wallets, w, owner, ns, xpub) ==> v == w
  }

  ghost predicate Holds(wallets: map<Uuid, Wallet>, w: Uuid, owner: Uuid, xpub: string) {
    w in wallets && wallets[w].owner == owner && wallets[w].xpub == xpub
  }

  /** No two accounts hold the same key, in whatever families. */
  ghost predicate KeysExclusive(wallets: map<Uuid, Wallet>) {
    forall v, w, a, b, xpub :: Holds(wallets, v, a, xpub) && Holds(wallets, w, b, xpub) ==> a == b
  }

  /** At most one primary per (account, family). */
  ghost predicate OnePrimary(wallets: map<Uuid, Wallet>) {
    forall v, w, owner, ns :: IsPrimary(wallets, v, owner, ns) && IsPrimary(wallets, w, owner, ns) ==> v == w
  }

  ghost predicate WalletsSound(wallets: map<Uuid, Wallet>) {
    OneCounterPerKey(wallets) && KeysExclusive(wallets) && OnePrimary(wallets)
  }

  /** The wallet exists, is of family `ns` and belongs to the owner of `store`. */
  ghost predicate Serves(stores: map<Uuid, Uuid>, wallets: map<Uuid, Wallet>, w: Uuid, store: Uuid, ns: string) {
    store in stores && w in wallets && wallets[w].namespace == ns && wallets[w].owner == stores[store]
  }

  ghost predicate OverridesSound(stores: map<Uuid, Uuid>, wallets: map<Uuid, Wallet>, overrides: map<OverrideKey, Uuid>) {
    forall k :: k in overrides ==> Serves(stores, wallets, overrides[k], k.store, k.namespace)
  }

  ghost predicate MethodsSound(stores: map<Uuid, Uuid>, wallets: map<Uuid, Wallet>, methods: map<Uuid, Method>) {
    forall m :: m in methods ==>
      methods[m].store in stores &&
      (methods[m].pin.Some? ==>
         Serves(stores, wallets, methods[m].pin.value, methods[m].store, methods[m].chain.namespace))
  }

  ghost predicate IsMethod(methods: map<Uuid, Method>, m: Uuid, store: Uuid, chain: ChainId, token: Option<string>) {
    m in methods && methods[m].store == store && methods[m].chain == chain && methods[m].token == token
  }

  /** One method per (store, chain, token), native assets included. */
  ghost predicate OneMethodPerAsset(methods: map<Uuid, Method>) {
    forall m, n, store, chain, token :: IsMethod(methods, m, store, chain, token) && IsMethod(methods, n, store, chain, token) ==> m == n
  }

  /** No counter has passed what its signed 32-bit column holds. */
  ghost predicate CountersBounded(wallets: map<Uuid, Wallet>) {
    forall w :: w in wallets ==> wallets[w].index <= MAX_INDEX
  }

  ghost predicate Inv(db: Db) {
    WalletsSound(db.wallets) && CountersBounded(db.wallets) && OverridesSound(db.stores, db.wallets, db.overrides) &&
    MethodsSound(db.stores, db.wallets, db.methods) && OneMethodPerAsset(db.methods)
  }

  // ---------------------------------------------------------------- facts about the walk

  lemma PrimaryIs(wallets: map<Uuid, Wallet>, w: Uuid, owner: Uuid, ns: string)
    requires OnePrimary(wallets) && IsPrimary(wallets, w, owner, ns)
    ensures Primary(wallets, owner, ns) == Some(w)
  {
  }

  /** The choice of primary depends only on which wallets are primary. */
  lemma SamePrimary(a: map<Uuid, Wallet>, b: map<Uuid, Wallet>, owner: Uuid, ns: string)
    requires OnePrimary(a) && OnePrimary(b)
    requires forall w :: IsPrimary(a, w, owner, ns) <==> IsPrimary(b, w, owner, ns)
    ensures Primary(a, owner, ns) == Primary(b, owner, ns)
  {
    if w :| IsPrimary(a, w, owner, ns) {
      PrimaryIs(a, w, owner, ns);
      PrimaryIs(b, w, owner, ns);
    }
  }

  /** Family and tenancy: whatever wallet a method resolves to is of the
      method's family and belongs to the owner of the method's store. */
  lemma ResolutionServes(db: Db, m: Uuid)
    requires Inv(db) && Resolve(db, m).Some?
    ensures Serves(db.stores, db.wallets, Resolve(db, m).value, db.methods[m].store, db.methods[m].chain.namespace)
  {
    var key := OverrideKey(db.methods[m].store, db.methods[m].chain.namespace);
    if db.methods[m].pin.None? && key in db.overrides {
      assert Serves(db.stores, db.wallets, db.overrides[key], key.store, key.namespace);
    }
  }
}
