/** Listing payments: the same compilation, over a join that exists only when a
    store filter asks for it. */
module PaymentQuery {
  import opened Common
  import opened Text
  import opened Sql
  import Like

  datatype Payment = Payment(
    invoice: string, txHash: string, symbol: string, from: Option<string>, confirmedAt: Option<int>, detectedAt: int)

  datatype Params = Params(
    storeId: Option<Uuid>, storeIds: Option<seq<Uuid>>, invoiceId: Option<string>, search: Option<string>,
    confirmed: Option<bool>, limit: nat, offset: nat)

  /** The store of each invoice; payments carry none of their own. */
  type Stores = map<string, Uuid>

  // ---------------------------------------------------------------- what the caller asked for

  ghost predicate Found(term: string, row: Payment) {
    || Lower(term) <= Lower(row.txHash)
    || Lower(term) <= Lower(row.invoice)
    || Like.Contains(Lower(row.symbol), Lower(term))
    || (row.from.Some? && Like.Contains(Lower(row.from.value), Lower(term)))
  }

  ghost predicate InStores(p: Params, stores: Stores, row: Payment) {
    && (p.storeId.Some? ==> row.invoice in stores && stores[row.invoice] == p.storeId.value)
    && (p.storeIds.Some? ==> row.invoice in stores && stores[row.invoice] in p.storeIds.value)
  }

  ghost predicate Satisfies(p: Params, stores: Stores, row: Payment) {
    && InStores(p, stores, row)
    && (p.invoiceId.Some? ==> row.invoice == p.invoiceId.value)
    && (p.search.Some? ==> Found(p.search.value, row))
    && (p.confirmed.Some? ==> row.confirmedAt.Some? == p.confirmed.value)
  }

  // ---------------------------------------------------------------- what it compiles to

  predicate NeedsJoin(p: Params) {
    p.storeId.Some? || p.storeIds.Some?
  }

  /** A row of FROM: with the join, payments of known invoices only, and their store. */
  predicate InFrom(join: bool, stores: Stores, row: Payment) {
    join ==> row.invoice in stores
  }

  function Cells(join: bool, stores: Stores, row: Payment): Row
    requires InFrom(join, stores, row)
  {
    map[InvoiceId := Words(row.invoice), TxHash := Words(row.txHash), AssetSymbol := Words(row.symbol),
        FromAddress := if row.from.Some? then Words(row.from.value) else Null,
        ConfirmedAt := if row.confirmedAt.Some? then Number(row.confirmedAt.value) else Null,
        StoreId := if join then Number(stores[row.invoice]) else Null]
  }

  ghost function SearchPart(term: string): Part {
    Part([Atom(LowerLikePattern, TxHash, 1), Atom(LowerLikePattern, InvoiceId, 1), Atom(LowerLikePattern, AssetSymbol, 2),
          Atom(LowerLikePattern, FromAddress, 2)],
         [Words(Like.PrefixPattern(term)), Words(Like.ContainsPattern(term))])
  }

  /** No value is bound for this one. */
  ghost function ConfirmedPart(confirmed: bool): Part {
    Part([Atom(if confirmed then Present else Absent, ConfirmedAt, 0)], [])
  }

  ghost function WithStore(f: Filters, p: Params): Filters {
    if p.storeId.Some? then And(f, One(Equals, StoreId, Number(p.storeId.value))) else f
  }

  ghost function WithStores(f: Filters, p: Params): Filters {
    if p.storeIds.Some? then And(f, One(AmongIds, StoreId, Uuids(p.storeIds.value))) else f
  }

  ghost function WithInvoice(f: Filters, p: Params): Filters {
    if p.invoiceId.Some? then And(f, One(Equals, InvoiceId, Words(p.invoiceId.value))) else f
  }

  ghost function WithSearch(f: Filters, p: Params): Filters {
    if p.search.Some? then And(f, SearchPart(p.search.value)) else f
  }

  ghost function WithConfirmed(f: Filters, p: Params): Filters {
    if p.confirmed.Some? then And(f, ConfirmedPart(p.confirmed.value)) else f
  }

  ghost function BoundFilters(p: Params): Filters {
    WithSearch(WithInvoice(WithStores(WithStore(Unfiltered, p), p), p), p)
  }

  ghost function AllFilters(p: Params): Filters {
    WithConfirmed(BoundFilters(p), p)
  }

  lemma SearchMeans(term: string, join: bool, stores: Stores, row: Payment)
    requires InFrom(join, stores, row)
    ensures SelfContained(SearchPart(term))
    ensures PartHolds(SearchPart(term), Cells(join, stores, row)) <==> Found(term, row)
  {
    var part, cells := SearchPart(term), Cells(join, stores, row);
    Like.PrefixPatternIsExact(Lower(term), Lower(row.txHash));
    Like.PrefixPatternIsExact(Lower(term), Lower(row.invoice));
    Like.ContainsPatternIsExact(Lower(term), Lower(row.symbol));
    if row.from.Some? {
      Like.ContainsPatternIsExact(Lower(term), Lower(row.from.value));
    }
    assert AtomHolds(part.atoms[0], part.values, cells) <==> Lower(term) <= Lower(row.txHash);
    assert AtomHolds(part.atoms[1], part.values, cells) <==> Lower(term) <= Lower(row.invoice);
    assert AtomHolds(part.atoms[2], part.values, cells) <==> Like.Contains(Lower(row.symbol), Lower(term));
    assert AtomHolds(part.atoms[3], part.values, cells) <==> row.from.Some? && Like.Contains(Lower(row.from.value), Lower(term));
  }

  lemma ConfirmedMeans(confirmed: bool, join: bool, stores: Stores, row: Payment)
    requires InFrom(join, stores, row)
    ensures SelfContained(ConfirmedPart(confirmed))
    ensures PartHolds(ConfirmedPart(confirmed), Cells(join, stores, row)) <==> row.confirmedAt.Some? == confirmed
  {
    var part, cells := ConfirmedPart(confirmed), Cells(join, stores, row);
    assert Cell(cells, ConfirmedAt).Null? <==> row.confirmedAt.None?;
    assert AtomHolds(part.atoms[0], part.values, cells) <==> row.confirmedAt.Some? == confirmed;
  }

  lemma StoreFiltersMean(p: Params, stores: Stores, row: Payment)
    requires InFrom(NeedsJoin(p), stores, row)
    ensures var f := WithStores(WithStore(Unfiltered, p), p);
      AllSelfContained(f) && (AllHold(f, Cells(NeedsJoin(p), stores, row)) <==> InStores(p, stores, row))
  {
    var cells := Cells(NeedsJoin(p), stores, row);
    assert NeedsJoin(p) ==> Cell(cells, StoreId) == Number(stores[row.invoice]);
    var f := WithStore(Unfiltered, p);
    if p.storeId.Some? {
      OneMeans(Equals, StoreId, Number(p.storeId.value), cells);
      assert AllHold(f, cells) <==> PartHolds(f.last, cells);
    }
    assert AllSelfContained(f) && (AllHold(f, cells) <==> (p.storeId.Some? ==> stores[row.invoice] == p.storeId.value));
    if p.storeIds.Some? { OneMeans(AmongIds, StoreId, Uuids(p.storeIds.value), cells); }
  }

  lemma FiltersMean(p: Params, stores: Stores, row: Payment)
    requires InFrom(NeedsJoin(p), stores, row)
    ensures AllSelfContained(AllFilters(p)) && (AllHold(AllFilters(p), Cells(NeedsJoin(p), stores, row)) <==> Satisfies(p, stores, row))
  {
    var cells := Cells(NeedsJoin(p), stores, row);
    assert Cell(cells, InvoiceId) == Words(row.invoice);
    StoreFiltersMean(p, stores, row);
    var f := WithStores(WithStore(Unfiltered, p), p);
    var g := WithInvoice(f, p);
    if p.invoiceId.Some? { OneMeans(Equals, InvoiceId, Words(p.invoiceId.value), cells); }
    assert AllSelfContained(g) &&
      (AllHold(g, cells) <==> InStores(p, stores, row) && (p.invoiceId.Some? ==> row.invoice == p.invoiceId.value));
    var h := WithSearch(g, p);
    if p.search.Some? { SearchMeans(p.search.value, NeedsJoin(p), stores, row); }
    assert AllSelfContained(h) && (AllHold(h, cells) <==> AllHold(g, cells) && (p.search.Some? ==> Found(p.search.value, row)));
    if p.confirmed.Some? { ConfirmedMeans(p.confirmed.value, NeedsJoin(p), stores, row); }
  }

  /** Joined or not, the compiled clause selects exactly the payments that satisfy
      every filter given; the join drops only payments no store filter admits. */
  lemma CompiledQueryIsExact(p: Params, stores: Stores, row: Payment, after: seq<Value>)
    ensures InFrom(NeedsJoin(p), stores, row)
        && WhereHolds(Numbered(AllFilters(p)), Values(AllFilters(p)) + after, Cells(NeedsJoin(p), stores, row))
      <==> Satisfies(p, stores, row)
  {
    if InFrom(NeedsJoin(p), stores, row) {
      FiltersMean(p, stores, row);
      CompilationPreservesMeaning(AllFilters(p), Cells(NeedsJoin(p), stores, row), after);
    }
  }

  // ---------------------------------------------------------------- the builder

  method BuildConditions(p: Params) returns (conditions: seq<Condition>, bindIdx: nat)
    ensures Compiles(AllFilters(p), conditions, bindIdx)
  {
    conditions, bindIdx := [], 1;
    ghost var f := Unfiltered;
    if p.storeId.Some? {
      AddOne(f, conditions, bindIdx, Equals, StoreId, Number(p.storeId.value));
      conditions, bindIdx := conditions + [[Atom(Equals, StoreId, bindIdx)]], bindIdx + 1;
    }
    f := WithStore(f, p);
    assert Compiles(f, conditions, bindIdx);
    if p.storeIds.Some? {
      AddOne(f, conditions, bindIdx, AmongIds, StoreId, Uuids(p.storeIds.value));
      conditions, bindIdx := conditions + [[Atom(AmongIds, StoreId, bindIdx)]], bindIdx + 1;
    }
    f := WithStores(f, p);
    assert Compiles(f, conditions, bindIdx);
    if p.invoiceId.Some? {
      AddOne(f, conditions, bindIdx, Equals, InvoiceId, Words(p.invoiceId.value));
      conditions, bindIdx := conditions + [[Atom(Equals, InvoiceId, bindIdx)]], bindIdx + 1;
    }
    f := WithInvoice(f, p);
    assert Compiles(f, conditions, bindIdx);
    conditions, bindIdx := RestOfConditions(p, conditions, bindIdx, f);
  }

  method RestOfConditions(p: Params, conditions: seq<Condition>, bindIdx: nat, ghost f: Filters)
    returns (all: seq<Condition>, next: nat)
    requires Compiles(f, conditions, bindIdx)
    ensures Compiles(WithConfirmed(WithSearch(f, p), p), all, next)
  {
    all, next := conditions, bindIdx;
    if p.search.Some? {
      var matches := [Atom(LowerLikePattern, TxHash, next), Atom(LowerLikePattern, InvoiceId, next),
                      Atom(LowerLikePattern, AssetSymbol, next + 1), Atom(LowerLikePattern, FromAddress, next + 1)];
      assert matches == Shifted(SearchPart(p.search.value).atoms, next - 1);
      all, next := all + [matches], next + 2;
    }
    assert Compiles(WithSearch(f, p), all, next);
    if p.confirmed.Some? {
      var test := [Atom(if p.confirmed.value then Present else Absent, ConfirmedAt, 0)];
      assert test == Shifted(ConfirmedPart(p.confirmed.value).atoms, next - 1);
      all := all + [test];
    }
  }

  /** One bind sequence, used by the count and by the page alike. */
  method BindPaymentFilters(p: Params) returns (binds: seq<Value>)
    ensures binds == Values(AllFilters(p))
  {
    binds := [];
    ghost var f := Unfiltered;
    if p.storeId.Some? {
      binds := binds + [Number(p.storeId.value)];
    }
    f := WithStore(f, p);
    assert binds == Values(f);
    if p.storeIds.Some? {
      binds := binds + [Uuids(p.storeIds.value)];
    }
    f := WithStores(f, p);
    assert binds == Values(f);
    if p.invoiceId.Some? {
      binds := binds + [Words(p.invoiceId.value)];
    }
    f := WithInvoice(f, p);
    assert binds == Values(f);
    if p.search.Some? {
      var anchored := Like.SearchPrefixPattern(p.search.value);
      var within := Like.SearchContainsPattern(p.search.value);
      binds := binds + [Words(anchored)] + [Words(within)];
    }
    assert binds == Values(BoundFilters(p));
  }

  // ---------------------------------------------------------------- the query

  class PaymentReader {
    var payments: map<Uuid, Payment>
    var stores: Stores

    ghost function Selected(p: Params): set<Uuid>
      reads this
    {
      set id | id in payments && Satisfies(p, stores, payments[id])
    }

    ghost function Times(): map<Uuid, int>
      reads this
      ensures Times().Keys == payments.Keys
    {
      map id | id in payments :: payments[id].detectedAt
    }

    constructor ()
      ensures payments == map[] && stores == map[]
    {
      payments, stores := map[], map[];
    }

    method Query(p: Params) returns (total: nat, page: seq<Uuid>)
      ensures total == |Selected(p)|
      ensures IsPage(page, Selected(p), Times(), p.limit, p.offset)
      ensures p.storeIds == Some([]) ==> total == 0 && page == []
    {
      var conditions, bindIdx := BuildConditions(p);

      var countBinds := BindPaymentFilters(p);
      var counted := Select(conditions, countBinds, p, []);
      total := |counted|;

      var dataBinds := BindPaymentFilters(p);
      dataBinds := dataBinds + [Number(p.limit)] + [Number(p.offset)];
      var limit, offset := Bound(dataBinds, bindIdx), Bound(dataBinds, bindIdx + 1);
      assert dataBinds == Values(AllFilters(p)) + [Number(p.limit), Number(p.offset)];
      var listed := Select(conditions, dataBinds, p, [Number(p.limit), Number(p.offset)]);
      var times := map id | id in payments :: payments[id].detectedAt;
      var order := OrderLatestFirst(listed, times);
      page := Slice(order, limit.n, offset.n);
      if p.storeIds == Some([]) {
        assert Selected(p) == {};
        ListsEachOnce(order, {}, times);
      }
    }

    /** FROM payments, joined when needed, WHERE the conditions hold. */
    method Select(conditions: seq<Condition>, binds: seq<Value>, p: Params, ghost after: seq<Value>) returns (ids: set<Uuid>)
      requires conditions == Numbered(AllFilters(p)) && binds == Values(AllFilters(p)) + after
      ensures ids == Selected(p)
    {
      var join := NeedsJoin(p);
      ids := set id | id in payments && InFrom(join, stores, payments[id])
                      && WhereHolds(conditions, binds, Cells(join, stores, payments[id]));
      forall id | id in payments ensures id in ids <==> Satisfies(p, stores, payments[id]) {
        CompiledQueryIsExact(p, stores, payments[id], after);
      }
    }
  }
}
