/** Payment volume per day and asset, over all of the caller's stores or per store. */
module PaymentVolume {
  import opened Common
  import opened Sums

  datatype Payment = Payment(invoice: string, option: Option<Uuid>, amount: nat, symbol: string, detectedAt: int, reorged: bool)

  /** Payments by id, the store of each invoice, the decimals of each payment option. */
  datatype Tables = Tables(payments: map<Uuid, Payment>, stores: map<string, Uuid>, decimals: map<Uuid, int>)

  /** `since` is inclusive and `until` exclusive. */
  datatype Query = Query(storeIds: seq<Uuid>, since: int, until: int)

  /** The group key. The per-day aggregation has no store column; its keys all carry `None`. */
  datatype Key = Key(store: Option<Uuid>, day: int, symbol: string, decimals: int)

  datatype Bucket = Bucket(key: Key, amount: nat, count: nat)

  const SECONDS_PER_DAY := 86400
  const DEFAULT_DECIMALS := 18

  // ---------------------------------------------------------------- the aggregations

  /** The payments a query is about. */
  ghost function Scope(db: Tables, q: Query): set<Uuid> {
    set id | id in db.payments && InScope(db, q, db.payments[id])
  }

  ghost predicate InScope(db: Tables, q: Query, p: Payment) {
    p.invoice in db.stores && db.stores[p.invoice] in q.storeIds && !p.reorged && q.since <= p.detectedAt < q.until
  }

  /** A payment outlives the option it was made against. */
  ghost function DecimalsOf(db: Tables, p: Payment): int {
    if p.option.Some? && p.option.value in db.decimals then db.decimals[p.option.value] else DEFAULT_DECIMALS
  }

  ghost function KeyOf(db: Tables, p: Payment, perStore: bool): Key {
    Key(if perStore && p.invoice in db.stores then Some(db.stores[p.invoice]) else None,
        p.detectedAt / SECONDS_PER_DAY, p.symbol, DecimalsOf(db, p))
  }

  ghost function KeyMap(db: Tables, perStore: bool): map<Uuid, Key> {
    map id | id in db.payments :: KeyOf(db, db.payments[id], perStore)
  }

  ghost function Amounts(db: Tables): map<Uuid, nat> {
    map id | id in db.payments :: db.payments[id].amount
  }

  ghost function Ones(db: Tables): map<Uuid, nat> {
    map id | id in db.payments :: 1
  }

  ghost function Keys(db: Tables, q: Query, perStore: bool): set<Key> {
    set id | id in Scope(db, q) :: KeyOf(db, db.payments[id], perStore)
  }

  ghost function Members(db: Tables, q: Query, perStore: bool, k: Key): set<Uuid> {
    Group(Scope(db, q), KeyMap(db, perStore), k)
  }

  ghost function BucketFor(db: Tables, q: Query, perStore: bool, k: Key): Bucket {
    Bucket(k, Sum(Members(db, q, perStore, k), Amounts(db)), |Members(db, q, perStore, k)|)
  }

  /** GROUP BY and ORDER BY the key; the whole read fails if some decimals do not fit in a byte. */
  ghost function Volume(db: Tables, q: Query, perStore: bool): Result<seq<Bucket>> {
    if q.storeIds == [] then Ok([])
    else if exists k :: k in Keys(db, q, perStore) && !(0 <= k.decimals < 256) then Err(Database)
    else
      var order := Ascending(Keys(db, q, perStore));
      Ok(seq(|order|, i requires 0 <= i < |order| => BucketFor(db, q, perStore, order[i])))
  }

  // ---------------------------------------------------------------- the order of keys

  ghost predicate TextBefore(a: string, b: string) {
    b != [] && (a == [] || a[0] < b[0] || (a[0] == b[0] && TextBefore(a[1..], b[1..])))
  }

  ghost predicate StoreBefore(a: Option<Uuid>, b: Option<Uuid>) {
    b.Some? && (a.None? || a.value < b.value)
  }

  /** Column by column: store, day, symbol, decimals. */
  ghost predicate Before(a: Key, b: Key) {
    if a.store != b.store then StoreBefore(a.store, b.store)
    else if a.day != b.day then a.day < b.day
    else if a.symbol != b.symbol then TextBefore(a.symbol, b.symbol)
    else a.decimals < b.decimals
  }

  /** Keys come in the order of their columns: by store, then by day, then by symbol, then by decimals. */
  lemma BeforeIs(a: Key, b: Key)
    ensures a.store.Some? && b.store.Some? && a.store.value < b.store.value ==> Before(a, b)
    ensures a.store == b.store && a.day < b.day ==> Before(a, b)
    ensures a.store == b.store && a.day == b.day && a.symbol < b.symbol ==> Before(a, b)
    ensures a.store == b.store && a.day == b.day && a.symbol == b.symbol && a.decimals < b.decimals ==> Before(a, b)
  {
    if a.symbol < b.symbol {
      FirstDifference(a.symbol, b.symbol, |a.symbol|);
    }
  }

  /** Texts are ordered by their first difference, a text before its extensions. */
  lemma {:induction false} FirstDifference(a: string, b: string, n: nat)
    requires n <= |a| && n < |b| && a[..n] == b[..n] && (n == |a| || a[n] < b[n])
    ensures TextBefore(a, b)
    decreases n
  {
    if n > 0 {
      assert a[0] == a[..n][0] == b[..n][0] == b[0];
      assert a[1..][..n - 1] == a[..n][1..] && b[1..][..n - 1] == b[..n][1..];
      FirstDifference(a[1..], b[1..], n - 1);
    }
  }

  lemma {:induction false} TextOrder(a: string, b: string)
    ensures a == b || TextBefore(a, b) || TextBefore(b, a)
    ensures !(TextBefore(a, b) && TextBefore(b, a)) && !TextBefore(a, a)
    decreases |a| + |b|
  {
    if a != [] {
      assert a[1..] == a[1..];
      if b != [] {
        TextOrder(a[1..], b[1..]);
        assert a[0] == b[0] && a[1..] == b[1..] ==> a == b by {
          assert a == [a[0]] + a[1..] && b == [b[0]] + b[1..];
        }
      } else {
        TextOrder(a[1..], []);
      }
    }
  }

  lemma {:induction false} TextTransitive(a: string, b: string, c: string)
    requires TextBefore(a, b) && TextBefore(b, c)
    ensures TextBefore(a, c)
    decreases |a|
  {
    if a != [] && a[0] == b[0] == c[0] {
      TextTransitive(a[1..], b[1..], c[1..]);
    }
  }

  lemma KeyOrder(a: Key, b: Key)
    ensures a == b || Before(a, b) || Before(b, a)
    ensures !(Before(a, b) && Before(b, a)) && !Before(a, a)
  {
    TextOrder(a.symbol, b.symbol);
  }

  lemma KeyTransitive(a: Key, b: Key, c: Key)
    requires Before(a, b) && Before(b, c)
    ensures Before(a, c)
  {
    if a.symbol != b.symbol && b.symbol != c.symbol && a.store == b.store == c.store && a.day == b.day == c.day {
      TextTransitive(a.symbol, b.symbol, c.symbol);
      TextOrder(a.symbol, a.symbol);
    }
  }

  ghost predicate IsFirst(keys: set<Key>, k: Key) {
    k in keys && forall j :: j in keys && j != k ==> Before(k, j)
  }

  lemma {:induction false} FirstExists(keys: set<Key>) returns (k: Key)
    requires keys != {}
    ensures IsFirst(keys, k)
    decreases |keys|
  {
    k :| k in keys;
    var rest := keys - {k};
    if rest == {} {
      assert keys == {k};
    } else {
      var j := FirstExists(rest);
      KeyOrder(j, k);
      if Before(j, k) {
        forall x | x in keys && x != j ensures Before(j, x) {
          assert x == k || x in rest;
        }
        k := j;
      } else {
        forall x | x in keys && x != k ensures Before(k, x) {
          if x != j {
            KeyTransitive(k, j, x);
          }
        }
      }
    }
  }

  ghost predicate StrictlyAscending(order: seq<Key>) {
    forall i, j :: 0 <= i < j < |order| ==> Before(order[i], order[j])
  }

  ghost function Ascending(keys: set<Key>): (order: seq<Key>)
    ensures StrictlyAscending(order) && (forall k :: k in order <==> k in keys)
  {
    if keys == {} then []
    else
      var k := PickFirst(keys);
      [k] + Ascending(keys - {k})
  }

  ghost function PickFirst(keys: set<Key>): (k: Key)
    requires keys != {}
    ensures IsFirst(keys, k)
  {
    assert exists k :: IsFirst(keys, k) by {
      var k := FirstExists(keys);
    }
    var k :| IsFirst(keys, k);
    k
  }

  // ---------------------------------------------------------------- what the buckets are

  ghost function Amount(buckets: seq<Bucket>): nat {
    if buckets == [] then 0 else buckets[0].amount + Amount(buckets[1..])
  }

  ghost function Count(buckets: seq<Bucket>): nat {
    if buckets == [] then 0 else buckets[0].count + Count(buckets[1..])
  }

  ghost predicate Listed(buckets: seq<Bucket>, k: Key) {
    exists i :: 0 <= i < |buckets| && buckets[i].key == k
  }

  /** Some payment in scope was made against an option whose decimals are not a byte. */
  ghost predicate Unreadable(db: Tables, q: Query) {
    exists id :: id in Scope(db, q) && !(0 <= DecimalsOf(db, db.payments[id]) < 256)
  }

  /** One bucket per key that occurs, keys strictly ascending, each holding the
      sum and the number of its payments; or nothing at all, exactly when some
      decimals cannot be read. */
  lemma VolumeIsExact(db: Tables, q: Query, perStore: bool)
    ensures Volume(db, q, perStore).Err? <==> Unreadable(db, q)
    ensures Volume(db, q, perStore).Ok? ==>
      var buckets := Volume(db, q, perStore).value;
      && (forall i, j :: 0 <= i < j < |buckets| ==> Before(buckets[i].key, buckets[j].key))
      && (forall k :: Listed(buckets, k) <==> k in Keys(db, q, perStore))
      && (forall i :: 0 <= i < |buckets| ==> buckets[i] == BucketFor(db, q, perStore, buckets[i].key))
  {
    UnreadableKeys(db, q, perStore);
    if Volume(db, q, perStore).Ok? && q.storeIds != [] {
      var order, buckets := Ascending(Keys(db, q, perStore)), Volume(db, q, perStore).value;
      assert |buckets| == |order| && forall i :: 0 <= i < |order| ==> buckets[i] == BucketFor(db, q, perStore, order[i]);
      SameKeysListed(order, buckets);
    }
  }

  lemma UnreadableKeys(db: Tables, q: Query, perStore: bool)
    ensures Unreadable(db, q) <==> exists k :: k in Keys(db, q, perStore) && !(0 <= k.decimals < 256)
    ensures q.storeIds == [] ==> Scope(db, q) == {} && Keys(db, q, perStore) == {}
  {
    if Unreadable(db, q) {
      var id :| id in Scope(db, q) && !(0 <= DecimalsOf(db, db.payments[id]) < 256);
      assert KeyOf(db, db.payments[id], perStore) in Keys(db, q, perStore);
    }
  }

  lemma SameKeysListed(order: seq<Key>, buckets: seq<Bucket>)
    requires |order| == |buckets| && forall i :: 0 <= i < |order| ==> buckets[i].key == order[i]
    ensures forall k :: Listed(buckets, k) <==> k in order
  {
    forall k ensures Listed(buckets, k) <==> k in order {
      if k in order {
        var i :| 0 <= i < |order| && order[i] == k;
        assert buckets[i].key == k;
      }
    }
  }

  /** What a key says of its payments: the UTC day they were detected on, their
      asset, the decimals of their option or 18 without one, and their store if asked for. */
  lemma KeyIs(db: Tables, p: Payment, perStore: bool)
    requires p.invoice in db.stores
    ensures var k := KeyOf(db, p, perStore);
      && k.day * 86400 <= p.detectedAt < (k.day + 1) * 86400 && k.symbol == p.symbol
      && (p.option.Some? && p.option.value in db.decimals ==> k.decimals == db.decimals[p.option.value])
      && (p.option.None? || p.option.value !in db.decimals ==> k.decimals == 18)
      && k.store == if perStore then Some(db.stores[p.invoice]) else None
  {
  }

  // ---------------------------------------------------------------- conservation

  ghost function AmountByKey(db: Tables, q: Query, perStore: bool, keys: set<Key>): map<Key, nat> {
    map k | k in keys :: BucketFor(db, q, perStore, k).amount
  }

  ghost function CountByKey(db: Tables, q: Query, perStore: bool, keys: set<Key>): map<Key, nat> {
    map k | k in keys :: BucketFor(db, q, perStore, k).count
  }

  /** Adding up a listing is adding up over its keys. */
  lemma {:induction false} ListingAddsUp(buckets: seq<Bucket>, keys: set<Key>, amounts: map<Key, nat>, counts: map<Key, nat>)
    requires keys <= amounts.Keys && keys <= counts.Keys
    requires forall i :: 0 <= i < |buckets| ==>
      buckets[i].key in keys && buckets[i].amount == amounts[buckets[i].key] && buckets[i].count == counts[buckets[i].key]
    requires forall i, j :: 0 <= i < j < |buckets| ==> Before(buckets[i].key, buckets[j].key)
    requires forall k :: Listed(buckets, k) <==> k in keys
    ensures Amount(buckets) == Sum(keys, amounts) && Count(buckets) == Sum(keys, counts)
    decreases |buckets|
  {
    if buckets == [] {
      assert forall k :: k in keys ==> Listed(buckets, k);
      assert keys == {};
    } else {
      RestListed(buckets, keys);
      assert forall i :: 0 <= i < |buckets[1..]| ==> Listed(buckets[1..], buckets[1..][i].key);
      ListingAddsUp(buckets[1..], keys - {buckets[0].key}, amounts, counts);
      SumTakes(keys, amounts, buckets[0].key);
      SumTakes(keys, counts, buckets[0].key);
    }
  }

  lemma RestListed(buckets: seq<Bucket>, keys: set<Key>)
    requires buckets != [] && forall i, j :: 0 <= i < j < |buckets| ==> Before(buckets[i].key, buckets[j].key)
    requires forall k :: Listed(buckets, k) <==> k in keys
    ensures forall k :: Listed(buckets[1..], k) <==> k in keys - {buckets[0].key}
  {
    var rest := buckets[1..];
    forall k ensures Listed(rest, k) <==> k in keys - {buckets[0].key} {
      if Listed(rest, k) {
        var i :| 0 <= i < |rest| && rest[i].key == k;
        assert buckets[i + 1].key == k && Listed(buckets, k);
        KeyOrder(k, k);
      }
      if k in keys - {buckets[0].key} {
        var i :| 0 <= i < |buckets| && buckets[i].key == k;
        assert rest[i - 1].key == k;
      }
    }
  }

  /** Both aggregations total the payments in scope, each counted exactly once. */
  lemma TotalsAreConserved(db: Tables, q: Query, perStore: bool)
    requires Volume(db, q, perStore).Ok?
    ensures Amount(Volume(db, q, perStore).value) == Sum(Scope(db, q), Amounts(db))
    ensures Count(Volume(db, q, perStore).value) == |Scope(db, q)|
  {
    var keys, buckets := Keys(db, q, perStore), Volume(db, q, perStore).value;
    VolumeIsExact(db, q, perStore);
    assert forall i :: 0 <= i < |buckets| ==> Listed(buckets, buckets[i].key);
    ListingAddsUp(buckets, keys, AmountByKey(db, q, perStore, keys), CountByKey(db, q, perStore, keys));
    GroupingConserves(Scope(db, q), Amounts(db), KeyMap(db, perStore), keys, AmountByKey(db, q, perStore, keys));
    forall k | k in keys ensures CountByKey(db, q, perStore, keys)[k] == Sum(Members(db, q, perStore, k), Ones(db)) {
      SumOfOnes(Members(db, q, perStore, k), Ones(db));
    }
    GroupingConserves(Scope(db, q), Ones(db), KeyMap(db, perStore), keys, CountByKey(db, q, perStore, keys));
    SumOfOnes(Scope(db, q), Ones(db));
  }

  /** And those are exactly the payments of a named store that stand, detected at or after the start and before the end. */
  lemma ScopeIs(db: Tables, q: Query, id: Uuid)
    ensures id in Scope(db, q) <==>
      && id in db.payments && db.payments[id].invoice in db.stores && db.stores[db.payments[id].invoice] in q.storeIds
      && !db.payments[id].reorged && q.since <= db.payments[id].detectedAt && db.payments[id].detectedAt < q.until
  {
  }

  /** The per-store keys of one day's key. */
  ghost function StoreKeys(db: Tables, q: Query, k: Key): set<Key> {
    set s | s in Keys(db, q, true) && s.(store := None) == k
  }

  lemma StoreKeysAddUp(db: Tables, q: Query, k: Key)
    requires k in Keys(db, q, false)
    ensures var stores := StoreKeys(db, q, k);
      && BucketFor(db, q, false, k).amount == Sum(stores, AmountByKey(db, q, true, stores))
      && BucketFor(db, q, false, k).count == Sum(stores, CountByKey(db, q, true, stores))
  {
    var stores, day := StoreKeys(db, q, k), Members(db, q, false, k);
    forall s | s in stores ensures Members(db, q, true, s) == Group(day, KeyMap(db, true), s) {
      StoreMembersAreOfTheDay(db, q, s);
    }
    GroupingConserves(day, Amounts(db), KeyMap(db, true), stores, AmountByKey(db, q, true, stores));
    forall s | s in stores ensures CountByKey(db, q, true, stores)[s] == Sum(Group(day, KeyMap(db, true), s), Ones(db)) {
      SumOfOnes(Members(db, q, true, s), Ones(db));
    }
    GroupingConserves(day, Ones(db), KeyMap(db, true), stores, CountByKey(db, q, true, stores));
    SumOfOnes(day, Ones(db));
  }

  /** The buckets of one day and asset, of whichever store. */
  ghost function OfDay(buckets: seq<Bucket>, k: Key): seq<Bucket> {
    if buckets == [] then []
    else (if buckets[0].key.(store := None) == k then [buckets[0]] else []) + OfDay(buckets[1..], k)
  }

  ghost predicate AscendingBuckets(buckets: seq<Bucket>) {
    forall i, j :: 0 <= i < j < |buckets| ==> Before(buckets[i].key, buckets[j].key)
  }

  lemma {:induction false} OfDayIs(buckets: seq<Bucket>, k: Key)
    requires AscendingBuckets(buckets)
    ensures forall b :: b in OfDay(buckets, k) <==> b in buckets && b.key.(store := None) == k
    ensures AscendingBuckets(OfDay(buckets, k))
    decreases |buckets|
  {
    if buckets != [] {
      var first, rest := buckets[0], buckets[1..];
      OfDayIs(rest, k);
      assert forall b :: b in buckets <==> b == first || b in rest;
      forall b | b in rest ensures Before(first.key, b.key) {
        var j :| 0 <= j < |rest| && rest[j] == b;
        assert buckets[j + 1] == b;
      }
      assert forall j :: 0 <= j < |OfDay(rest, k)| ==> OfDay(rest, k)[j] in rest;
    }
  }

  /** Adding up each day and asset of the per-store answer over its stores gives
      the overall answer, bucket by bucket; and neither has a day the other lacks. */
  lemma StoresAddUp(db: Tables, q: Query)
    requires Volume(db, q, false).Ok?
    ensures Volume(db, q, true).Ok?
    ensures var overall, perStore := Volume(db, q, false).value, Volume(db, q, true).value;
      && (forall b :: b in overall ==>
            b.amount == Amount(OfDay(perStore, b.key)) && b.count == Count(OfDay(perStore, b.key)) && OfDay(perStore, b.key) != [])
      && (forall s :: s in perStore ==> Listed(overall, s.key.(store := None)))
  {
    VolumeIsExact(db, q, false);
    VolumeIsExact(db, q, true);
    var overall, perStore := Volume(db, q, false).value, Volume(db, q, true).value;
    forall b | b in overall
      ensures b.amount == Amount(OfDay(perStore, b.key)) && b.count == Count(OfDay(perStore, b.key)) && OfDay(perStore, b.key) != []
    {
      assert Listed(overall, b.key);
      DayAddsUp(db, q, b.key, perStore);
    }
    forall s | s in perStore ensures Listed(overall, s.key.(store := None)) {
      assert Listed(perStore, s.key);
      KeysProject(db, q, s.key);
    }
  }

  lemma KeysProject(db: Tables, q: Query, s: Key)
    requires s in Keys(db, q, true)
    ensures s.(store := None) in Keys(db, q, false)
  {
    var id :| id in Scope(db, q) && s == KeyOf(db, db.payments[id], true);
    assert KeyOf(db, db.payments[id], false) == s.(store := None);
  }

  lemma DayAddsUp(db: Tables, q: Query, k: Key, perStore: seq<Bucket>)
    requires k in Keys(db, q, false) && AscendingBuckets(perStore)
    requires forall s :: Listed(perStore, s) <==> s in Keys(db, q, true)
    requires forall i :: 0 <= i < |perStore| ==> perStore[i] == BucketFor(db, q, true, perStore[i].key)
    ensures var b := BucketFor(db, q, false, k);
      b.amount == Amount(OfDay(perStore, k)) && b.count == Count(OfDay(perStore, k)) && OfDay(perStore, k) != []
  {
    var stores, list := StoreKeys(db, q, k), OfDay(perStore, k);
    OfDayIs(perStore, k);
    forall i | 0 <= i < |list| ensures list[i].key in stores && list[i] == BucketFor(db, q, true, list[i].key) {
      assert list[i] in list && list[i] in perStore;
      assert Listed(perStore, list[i].key);
    }
    forall s ensures Listed(list, s) <==> s in stores {
      if s in stores {
        var i :| 0 <= i < |perStore| && perStore[i].key == s;
        assert perStore[i] in list;
      }
    }
    ListingAddsUp(list, stores, AmountByKey(db, q, true, stores), CountByKey(db, q, true, stores));
    StoreKeysAddUp(db, q, k);
    SomeStoreKey(db, q, k);
  }

  lemma SomeStoreKey(db: Tables, q: Query, k: Key)
    requires k in Keys(db, q, false)
    ensures exists s :: s in StoreKeys(db, q, k)
  {
    var id :| id in Scope(db, q) && k == KeyOf(db, db.payments[id], false);
    var s := KeyOf(db, db.payments[id], true);
    assert s in Keys(db, q, true) && s in StoreKeys(db, q, k);
  }

  lemma StoreMembersAreOfTheDay(db: Tables, q: Query, s: Key)
    requires s in Keys(db, q, true)
    ensures Members(db, q, true, s) == Group(Members(db, q, false, s.(store := None)), KeyMap(db, true), s)
  {
    forall id | id in Members(db, q, true, s) ensures id in Members(db, q, false, s.(store := None)) {
      assert KeyOf(db, db.payments[id], false) == s.(store := None);
    }
  }

  /** Naming a store twice counts nothing twice. */
  lemma RepeatsDoNotCount(db: Tables, q: Query, q': Query, perStore: bool)
    requires q'.since == q.since && q'.until == q.until && forall id :: id in q.storeIds <==> id in q'.storeIds
    ensures Volume(db, q, perStore) == Volume(db, q', perStore)
  {
    assert q.storeIds != [] ==> q.storeIds[0] in q'.storeIds;
    assert q'.storeIds != [] ==> q'.storeIds[0] in q.storeIds;
    assert Scope(db, q) == Scope(db, q');
    assert Keys(db, q, perStore) == Keys(db, q', perStore);
    forall k ensures BucketFor(db, q, perStore, k) == BucketFor(db, q', perStore, k) {
      assert Members(db, q, perStore, k) == Members(db, q', perStore, k);
    }
    if Volume(db, q, perStore).Ok? {
      assert Volume(db, q, perStore).value == Volume(db, q', perStore).value;
    }
  }
}
