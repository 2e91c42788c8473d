/** Listing invoices: optional filters compiled to one WHERE clause, counted and paged. */
module InvoiceQuery {
  import opened Common
  import opened Text
  import opened Sql
  import Like

  datatype Invoice = Invoice(
    store: Uuid, status: string, currency: string, amount: string, metadata: Option<string>, createdAt: int)

  datatype Params = Params(
    storeId: Option<Uuid>, storeIds: Option<seq<Uuid>>, status: Option<string>, currency: Option<string>, search: Option<string>,
    createdAfter: Option<int>, createdBefore: Option<int>, limit: nat, offset: nat)

  // ---------------------------------------------------------------- what the caller asked for

  ghost predicate Found(term: string, id: string, row: Invoice) {
    || Lower(term) <= Lower(id)
    || Like.Contains(Lower(row.currency), Lower(term))
    || Like.Contains(row.amount, Lower(term))
    || (row.metadata.Some? && Like.Contains(Lower(row.metadata.value), Lower(term)))
  }

  ghost predicate SatisfiesColumns(p: Params, row: Invoice) {
    && (p.storeId.Some? ==> row.store == p.storeId.value)
    && (p.storeIds.Some? ==> row.store in p.storeIds.value)
    && (p.status.Some? ==> row.status == p.status.value)
    && (p.currency.Some? ==> row.currency == p.currency.value)
  }

  ghost predicate Satisfies(p: Params, id: string, row: Invoice) {
    && SatisfiesColumns(p, row)
    && (p.search.Some? ==> Found(p.search.value, id, row))
    && (p.createdAfter.Some? ==> row.createdAt >= p.createdAfter.value)
    && (p.createdBefore.Some? ==> row.createdAt <= p.createdBefore.value)
  }

  // ---------------------------------------------------------------- what it compiles to

  function Cells(id: string, row: Invoice): Row {
    map[Id := Words(id), StoreId := Number(row.store), Status := Words(row.status), Currency := Words(row.currency),
        Amount := Words(row.amount), Metadata := if row.metadata.Some? then Words(row.metadata.value) else Null,
        CreatedAt := Number(row.createdAt)]
  }

  ghost function SearchPart(term: string): Part {
    Part([Atom(LowerLikePattern, Id, 1), Atom(LowerLikePattern, Currency, 2), Atom(LikePattern, Amount, 2),
          Atom(LowerLikePattern, Metadata, 2)],
         [Words(Like.PrefixPattern(term)), Words(Like.ContainsPattern(term))])
  }

  ghost function WithStore(f: Filters, p: Params): Filters {
    if p.storeId.Some? then And(f, One(Equals, StoreId, Number(p.storeId.value))) else f
  }

  ghost function WithStores(f: Filters, p: Params): Filters {
    if p.storeIds.Some? then And(f, One(AmongIds, StoreId, Uuids(p.storeIds.value))) else f
  }

  ghost function WithStatus(f: Filters, p: Params): Filters {
    if p.status.Some? then And(f, One(Equals, Status, Words(p.status.value))) else f
  }

  ghost function WithCurrency(f: Filters, p: Params): Filters {
    if p.currency.Some? then And(f, One(Equals, Currency, Words(p.currency.value))) else f
  }

  ghost function WithSearch(f: Filters, p: Params): Filters {
    if p.search.Some? then And(f, SearchPart(p.search.value)) else f
  }

  ghost function WithAfter(f: Filters, p: Params): Filters {
    if p.createdAfter.Some? then And(f, One(AtLeast, CreatedAt, Number(p.createdAfter.value))) else f
  }

  ghost function WithBefore(f: Filters, p: Params): Filters {
    if p.createdBefore.Some? then And(f, One(AtMost, CreatedAt, Number(p.createdBefore.value))) else f
  }

  ghost function ColumnFilters(p: Params): Filters {
    WithCurrency(WithStatus(WithStores(WithStore(Unfiltered, p), p), p), p)
  }

  ghost function AllFilters(p: Params): Filters {
    WithBefore(WithAfter(WithSearch(ColumnFilters(p), p), p), p)
  }

  lemma SearchMeans(term: string, id: string, row: Invoice)
    ensures SelfContained(SearchPart(term))
    ensures PartHolds(SearchPart(term), Cells(id, row)) <==> Found(term, id, row)
  {
    var part, cells := SearchPart(term), Cells(id, row);
    Like.PrefixPatternIsExact(Lower(term), Lower(id));
    Like.ContainsPatternIsExact(Lower(term), Lower(row.currency));
    Like.ContainsPatternIsExact(Lower(term), row.amount);
    if row.metadata.Some? {
      Like.ContainsPatternIsExact(Lower(term), Lower(row.metadata.value));
    }
    assert AtomHolds(part.atoms[0], part.values, cells) <==> Lower(term) <= Lower(id);
    assert AtomHolds(part.atoms[1], part.values, cells) <==> Like.Contains(Lower(row.currency), Lower(term));
    assert AtomHolds(part.atoms[2], part.values, cells) <==> Like.Contains(row.amount, Lower(term));
    assert AtomHolds(part.atoms[3], part.values, cells) <==>
      row.metadata.Some? && Like.Contains(Lower(row.metadata.value), Lower(term));
  }

  lemma ColumnFiltersMean(p: Params, id: string, row: Invoice)
    ensures AllSelfContained(ColumnFilters(p))
    ensures AllHold(ColumnFilters(p), Cells(id, row)) <==> SatisfiesColumns(p, row)
  {
    var cells := Cells(id, row);
    assert Cell(cells, StoreId) == Number(row.store) && Cell(cells, Status) == Words(row.status);
    assert Cell(cells, Currency) == Words(row.currency);
    var f := WithStore(Unfiltered, p);
    if p.storeId.Some? {
      OneMeans(Equals, StoreId, Number(p.storeId.value), cells);
      assert AllHold(f, cells) <==> PartHolds(f.last, cells);
    }
    assert AllSelfContained(f) && (AllHold(f, cells) <==> (p.storeId.Some? ==> row.store == p.storeId.value));
    var g := WithStores(f, p);
    if p.storeIds.Some? { OneMeans(AmongIds, StoreId, Uuids(p.storeIds.value), cells); }
    assert AllSelfContained(g) && (AllHold(g, cells) <==> AllHold(f, cells) && (p.storeIds.Some? ==> row.store in p.storeIds.value));
    var h := WithStatus(g, p);
    if p.status.Some? { OneMeans(Equals, Status, Words(p.status.value), cells); }
    assert AllSelfContained(h) && (AllHold(h, cells) <==> AllHold(g, cells) && (p.status.Some? ==> row.status == p.status.value));
    if p.currency.Some? { OneMeans(Equals, Currency, Words(p.currency.value), cells); }
  }

  /** The filters together mean what the caller asked for. */
  lemma FiltersMean(p: Params, id: string, row: Invoice)
    ensures AllSelfContained(AllFilters(p)) && (AllHold(AllFilters(p), Cells(id, row)) <==> Satisfies(p, id, row))
  {
    var cells := Cells(id, row);
    ColumnFiltersMean(p, id, row);
    var f := WithSearch(ColumnFilters(p), p);
    if p.search.Some? { SearchMeans(p.search.value, id, row); }
    assert AllSelfContained(f) &&
      (AllHold(f, cells) <==> SatisfiesColumns(p, row) && (p.search.Some? ==> Found(p.search.value, id, row)));
    var g := WithAfter(f, p);
    if p.createdAfter.Some? { OneMeans(AtLeast, CreatedAt, Number(p.createdAfter.value), cells); }
    assert AllSelfContained(g) &&
      (AllHold(g, cells) <==> AllHold(f, cells) && (p.createdAfter.Some? ==> row.createdAt >= p.createdAfter.value));
    if p.createdBefore.Some? { OneMeans(AtMost, CreatedAt, Number(p.createdBefore.value), cells); }
  }

  /** The compiled clause under the binds, and whatever is bound after them,
      selects exactly the invoices that satisfy every filter given. */
  lemma CompiledQueryIsExact(p: Params, id: string, row: Invoice, after: seq<Value>)
    ensures WhereHolds(Numbered(AllFilters(p)), Values(AllFilters(p)) + after, Cells(id, row)) <==> Satisfies(p, id, row)
  {
    FiltersMean(p, id, row);
    CompilationPreservesMeaning(AllFilters(p), Cells(id, row), after);
  }

  // ---------------------------------------------------------------- the builder

  /** Grow the clause and the next placeholder, filter by filter: first the plain columns. */
  method ColumnConditions(p: Params) returns (conditions: seq<Condition>, bindIdx: nat)
    ensures Compiles(ColumnFilters(p), conditions, bindIdx)
  {
    conditions, bindIdx := [], 1;
    ghost var f := Unfiltered;
    if p.storeId.Some? {
      AddOne(f, conditions, bindIdx, Equals, StoreId, Number(p.storeId.value));
      conditions, bindIdx := conditions + [[Atom(Equals, StoreId, bindIdx)]], bindIdx + 1;
    }
    f := WithStore(f, p);
    assert Compiles(f, conditions, bindIdx);
    if p.storeIds.Some? {
      AddOne(f, conditions, bindIdx, AmongIds, StoreId, Uuids(p.storeIds.value));
      conditions, bindIdx := conditions + [[Atom(AmongIds, StoreId, bindIdx)]], bindIdx + 1;
    }
    f := WithStores(f, p);
    assert Compiles(f, conditions, bindIdx);
    if p.status.Some? {
      AddOne(f, conditions, bindIdx, Equals, Status, Words(p.status.value));
      conditions, bindIdx := conditions + [[Atom(Equals, Status, bindIdx)]], bindIdx + 1;
    }
    f := WithStatus(f, p);
    assert Compiles(f, conditions, bindIdx);
    if p.currency.Some? {
      AddOne(f, conditions, bindIdx, Equals, Currency, Words(p.currency.value));
      conditions, bindIdx := conditions + [[Atom(Equals, Currency, bindIdx)]], bindIdx + 1;
    }
  }

  /** Then the free-text search and the time range. */
  method BuildConditions(p: Params) returns (conditions: seq<Condition>, bindIdx: nat)
    ensures Compiles(AllFilters(p), conditions, bindIdx)
  {
    conditions, bindIdx := ColumnConditions(p);
    ghost var f := ColumnFilters(p);
    if p.search.Some? {
      var matches := [Atom(LowerLikePattern, Id, bindIdx), Atom(LowerLikePattern, Currency, bindIdx + 1),
                      Atom(LikePattern, Amount, bindIdx + 1), Atom(LowerLikePattern, Metadata, bindIdx + 1)];
      assert matches == Shifted(SearchPart(p.search.value).atoms, bindIdx - 1);
      conditions, bindIdx := conditions + [matches], bindIdx + 2;
    }
    f := WithSearch(f, p);
    assert Compiles(f, conditions, bindIdx);
    if p.createdAfter.Some? {
      AddOne(f, conditions, bindIdx, AtLeast, CreatedAt, Number(p.createdAfter.value));
      conditions, bindIdx := conditions + [[Atom(AtLeast, CreatedAt, bindIdx)]], bindIdx + 1;
    }
    f := WithAfter(f, p);
    assert Compiles(f, conditions, bindIdx);
    if p.createdBefore.Some? {
      AddOne(f, conditions, bindIdx, AtMost, CreatedAt, Number(p.createdBefore.value));
      conditions, bindIdx := conditions + [[Atom(AtMost, CreatedAt, bindIdx)]], bindIdx + 1;
    }
  }

  /** Bind the values, in the order the clause names them. */
  method BindColumns(p: Params) returns (binds: seq<Value>)
    ensures binds == Values(ColumnFilters(p))
  {
    binds := [];
    ghost var f := Unfiltered;
    if p.storeId.Some? {
      binds := binds + [Number(p.storeId.value)];
    }
    f := WithStore(f, p);
    assert binds == Values(f);
    if p.storeIds.Some? {
      binds := binds + [Uuids(p.storeIds.value)];
    }
    f := WithStores(f, p);
    assert binds == Values(f);
    if p.status.Some? {
      binds := binds + [Words(p.status.value)];
    }
    f := WithStatus(f, p);
    assert binds == Values(f);
    if p.currency.Some? {
      binds := binds + [Words(p.currency.value)];
    }
  }

  method BindFilters(p: Params) returns (binds: seq<Value>)
    ensures binds == Values(AllFilters(p))
  {
    binds := BindColumns(p);
    ghost var f := ColumnFilters(p);
    if p.search.Some? {
      var anchored := Like.SearchPrefixPattern(p.search.value);
      var within := Like.SearchContainsPattern(p.search.value);
      binds := binds + [Words(anchored)] + [Words(within)];
    }
    f := WithSearch(f, p);
    assert binds == Values(f);
    if p.createdAfter.Some? {
      binds := binds + [Number(p.createdAfter.value)];
    }
    f := WithAfter(f, p);
    assert binds == Values(f);
    if p.createdBefore.Some? {
      binds := binds + [Number(p.createdBefore.value)];
    }
  }

  // ---------------------------------------------------------------- the query

  class InvoiceReader {
    var invoices: map<string, Invoice>

    ghost function Selected(p: Params): set<string>
      reads this
    {
      set id | id in invoices && Satisfies(p, id, invoices[id])
    }

    ghost function Times(): map<string, int>
      reads this
      ensures Times().Keys == invoices.Keys
    {
      map id | id in invoices :: invoices[id].createdAt
    }

    constructor ()
      ensures invoices == map[]
    {
      invoices := map[];
    }

    /** Count and page, each from its own statement with its own binds. */
    method Query(p: Params) returns (total: nat, page: seq<string>)
      ensures total == |Selected(p)|
      ensures IsPage(page, Selected(p), Times(), p.limit, p.offset)
      ensures p.storeIds == Some([]) ==> total == 0 && page == []
    {
      var conditions, bindIdx := BuildConditions(p);

      var countBinds := BindFilters(p);
      var counted := Select(conditions, countBinds, p, []);
      total := |counted|;

      var dataBinds := BindFilters(p);
      dataBinds := dataBinds + [Number(p.limit)] + [Number(p.offset)];
      var limit, offset := Bound(dataBinds, bindIdx), Bound(dataBinds, bindIdx + 1);
      assert dataBinds == Values(AllFilters(p)) + [Number(p.limit), Number(p.offset)];
      var listed := Select(conditions, dataBinds, p, [Number(p.limit), Number(p.offset)]);
      var times := map id | id in invoices :: invoices[id].createdAt;
      var order := OrderLatestFirst(listed, times);
      page := Slice(order, limit.n, offset.n);
      if p.storeIds == Some([]) {
        assert Selected(p) == {};
        ListsEachOnce(order, {}, times);
      }
    }

    /** FROM invoices WHERE the conditions hold. */
    method Select(conditions: seq<Condition>, binds: seq<Value>, ghost p: Params, ghost after: seq<Value>) returns (ids: set<string>)
      requires conditions == Numbered(AllFilters(p)) && binds == Values(AllFilters(p)) + after
      ensures ids == Selected(p)
    {
      ids := set id | id in invoices && WhereHolds(conditions, binds, Cells(id, invoices[id]));
      forall id | id in invoices ensures id in ids <==> Satisfies(p, id, invoices[id]) {
        CompiledQueryIsExact(p, id, invoices[id], after);
      }
    }
  }
}
