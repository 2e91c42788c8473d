/** The part of SQL that list queries are compiled to: conditions over numbered
    placeholders, a count, and one page of an ordered selection. */
module Sql {
  import opened Common
  import opened Text
  import Like

  datatype Column =
    | Id | StoreId | Status | Currency | Amount | Metadata | CreatedAt
    | InvoiceId | TxHash | AssetSymbol | FromAddress | ConfirmedAt

  datatype Value = Null | Words(text: string) | Number(n: int) | Uuids(ids: seq<Uuid>)

  type Row = map<Column, Value>

  function Cell(row: Row, c: Column): Value {
    if c in row then row[c] else Null
  }

  datatype Shape = Equals | AmongIds | AtLeast | AtMost | LikePattern | LowerLikePattern | Present | Absent

  /** One comparison of a column, with placeholder `$bind` where the shape needs one. */
  datatype Atom = Atom(shape: Shape, column: Column, bind: nat)

  /** The alternatives of one parenthesised condition. */
  type Condition = seq<Atom>

  // ---------------------------------------------------------------- meaning

  /** Whether a comparison is true; comparisons with NULL, and of unlike types, are not. */
  predicate Compares(shape: Shape, cell: Value, v: Value) {
    match shape
    case Equals => cell == v && !v.Null?
    case AmongIds => cell.Number? && v.Uuids? && cell.n >= 0 && cell.n in v.ids
    case AtLeast => cell.Number? && v.Number? && cell.n >= v.n
    case AtMost => cell.Number? && v.Number? && cell.n <= v.n
    case LikePattern => cell.Words? && v.Words? && Like.Matches(v.text, cell.text)
    case LowerLikePattern => cell.Words? && v.Words? && Like.Matches(v.text, Lower(cell.text))
    case Present => !cell.Null?
    case Absent => cell.Null?
  }

  /** The value of `$n`; placeholders count from one. */
  function Bound(binds: seq<Value>, n: nat): Value {
    if 1 <= n <= |binds| then binds[n - 1] else Null
  }

  predicate AtomHolds(a: Atom, binds: seq<Value>, row: Row) {
    Compares(a.shape, Cell(row, a.column), Bound(binds, a.bind))
  }

  predicate ConditionHolds(c: Condition, binds: seq<Value>, row: Row) {
    exists i :: 0 <= i < |c| && AtomHolds(c[i], binds, row)
  }

  /** The WHERE clause: every condition, joined by AND; no clause at all when there is none. */
  predicate WhereHolds(conditions: seq<Condition>, binds: seq<Value>, row: Row) {
    forall i :: 0 <= i < |conditions| ==> ConditionHolds(conditions[i], binds, row)
  }

  // ---------------------------------------------------------------- compiling a list of filters

  /** A filter by itself: its alternatives, numbered from one, and its own values. */
  datatype Part = Part(atoms: Condition, values: seq<Value>)

  ghost predicate PartHolds(p: Part, row: Row) {
    ConditionHolds(p.atoms, p.values, row)
  }

  /** A part uses only its own placeholders; shapes without a value use none. */
  ghost predicate SelfContained(p: Part) {
    forall i :: 0 <= i < |p.atoms| ==> p.atoms[i].shape.Present? || p.atoms[i].shape.Absent? || 1 <= p.atoms[i].bind <= |p.values|
  }

  /** The part's condition once `used` placeholders are taken. */
  ghost function Shifted(c: Condition, used: nat): Condition {
    seq(|c|, i requires 0 <= i < |c| =>
      if c[i].shape.Present? || c[i].shape.Absent? then c[i] else c[i].(bind := c[i].bind + used))
  }

  /** The filters given, in the order they are added. */
  datatype Filters = Unfiltered | And(front: Filters, last: Part)

  ghost function Values(f: Filters): seq<Value> {
    match f
    case Unfiltered => []
    case And(front, last) => Values(front) + last.values
  }

  ghost function Numbered(f: Filters): seq<Condition> {
    match f
    case Unfiltered => []
    case And(front, last) => Numbered(front) + [Shifted(last.atoms, |Values(front)|)]
  }

  ghost predicate AllHold(f: Filters, row: Row) {
    f.And? ==> AllHold(f.front, row) && PartHolds(f.last, row)
  }

  ghost predicate AllSelfContained(f: Filters) {
    f.And? ==> AllSelfContained(f.front) && SelfContained(f.last)
  }

  /** The clause so far, with `$next` the first free placeholder. */
  ghost predicate Compiles(f: Filters, conditions: seq<Condition>, next: nat) {
    conditions == Numbered(f) && next == 1 + |Values(f)|
  }

  /** A filter comparing one column with one value. */
  ghost function One(shape: Shape, column: Column, v: Value): Part {
    Part([Atom(shape, column, 1)], [v])
  }

  lemma OneMeans(shape: Shape, column: Column, v: Value, row: Row)
    ensures SelfContained(One(shape, column, v))
    ensures PartHolds(One(shape, column, v), row) <==> Compares(shape, Cell(row, column), v)
  {
    var p := One(shape, column, v);
    assert AtomHolds(p.atoms[0], p.values, row) <==> Compares(shape, Cell(row, column), v);
  }

  lemma AddOne(f: Filters, conditions: seq<Condition>, next: nat, shape: Shape, column: Column, v: Value)
    requires Compiles(f, conditions, next) && !shape.Present? && !shape.Absent?
    ensures Compiles(And(f, One(shape, column, v)), conditions + [[Atom(shape, column, next)]], next + 1)
  {
    assert [Atom(shape, column, next)] == Shifted(One(shape, column, v).atoms, next - 1);
  }

  /** Wherever its values ended up among the binds, the shifted condition means what the part means. */
  lemma ShiftedMeansTheSame(p: Part, row: Row, before: seq<Value>, after: seq<Value>)
    requires SelfContained(p)
    ensures ConditionHolds(Shifted(p.atoms, |before|), before + p.values + after, row) <==> PartHolds(p, row)
  {
    var c, binds := Shifted(p.atoms, |before|), before + p.values + after;
    forall i | 0 <= i < |c| ensures AtomHolds(c[i], binds, row) <==> AtomHolds(p.atoms[i], p.values, row) {
      var a := p.atoms[i];
      if !a.shape.Present? && !a.shape.Absent? {
        assert Bound(binds, a.bind + |before|) == Bound(p.values, a.bind);
      }
    }
    assert PartHolds(p, row) ==> ConditionHolds(c, binds, row) by {
      if PartHolds(p, row) {
        var i :| 0 <= i < |p.atoms| && AtomHolds(p.atoms[i], p.values, row);
        assert AtomHolds(c[i], binds, row);
      }
    }
  }

  /** Compilation preserves meaning: under the concatenated values, whatever is
      bound after them, the WHERE clause is the conjunction of the filters. */
  lemma {:induction false} CompilationPreservesMeaning(f: Filters, row: Row, after: seq<Value>)
    requires AllSelfContained(f)
    ensures WhereHolds(Numbered(f), Values(f) + after, row) <==> AllHold(f, row)
  {
    if f.And? {
      var front, last := f.front, f.last;
      CompilationPreservesMeaning(front, row, last.values + after);
      ShiftedMeansTheSame(last, row, Values(front), after);
      assert Values(f) + after == Values(front) + (last.values + after);
      WhereSplits(Numbered(front), Shifted(last.atoms, |Values(front)|), Values(f) + after, row);
    }
  }

  lemma WhereSplits(front: seq<Condition>, last: Condition, binds: seq<Value>, row: Row)
    ensures WhereHolds(front + [last], binds, row) <==> WhereHolds(front, binds, row) && ConditionHolds(last, binds, row)
  {
    var all := front + [last];
    if WhereHolds(all, binds, row) {
      assert ConditionHolds(all[|front|], binds, row);
      forall i | 0 <= i < |front| ensures ConditionHolds(front[i], binds, row) {
        assert ConditionHolds(all[i], binds, row);
      }
    }
  }

  // ---------------------------------------------------------------- executing

  /** `order` is a permutation of the selected rows, latest first. */
  ghost predicate LatestFirst<K(!new)>(order: seq<K>, selected: set<K>, times: map<K, int>)
    requires selected <= times.Keys
  {
    && Distinct(order) && (forall k :: k in order <==> k in selected)
    && forall i, j :: 0 <= i < j < |order| && order[i] in selected && order[j] in selected ==> times[order[i]] >= times[order[j]]
  }

  function Slice<K>(order: seq<K>, limit: nat, offset: nat): (page: seq<K>)
    ensures |page| <= limit
  {
    if offset >= |order| then [] else if offset + limit >= |order| then order[offset..] else order[offset..offset + limit]
  }

  /** A page the engine may answer with: rows of equal time may come in any order. */
  ghost predicate IsPage<K(!new)>(page: seq<K>, selected: set<K>, times: map<K, int>, limit: nat, offset: nat)
    requires selected <= times.Keys
  {
    exists order :: LatestFirst(order, selected, times) && page == Slice(order, limit, offset)
  }

  /** The listing is as long as the count. */
  lemma {:induction false} ListsEachOnce<K(!new)>(order: seq<K>, selected: set<K>, times: map<K, int>)
    requires selected <= times.Keys && LatestFirst(order, selected, times)
    ensures |order| == |selected|
    decreases |selected|
  {
    if k :| k in selected {
      assert k in order && order[0] in order;
      TailLatestFirst(order, selected, times);
      ListsEachOnce(order[1..], selected - {order[0]}, times);
    } else {
      assert selected == {} && forall i :: 0 <= i < |order| ==> order[i] in order;
    }
  }

  method Latest<K(==)>(among: set<K>, times: map<K, int>) returns (k: K)
    requires among != {} && among <= times.Keys
    ensures k in among && forall j :: j in among ==> times[k] >= times[j]
  {
    k :| k in among;
    var rest := among - {k};
    while rest != {}
      invariant k in among && rest <= among
      invariant forall j :: j in among - rest ==> times[k] >= times[j]
      decreases |rest|
    {
      var j :| j in rest;
      if times[j] > times[k] {
        k := j;
      }
      rest := rest - {j};
    }
  }

  method OrderLatestFirst<K(!new, ==)>(selected: set<K>, times: map<K, int>) returns (order: seq<K>)
    requires selected <= times.Keys
    ensures LatestFirst(order, selected, times)
  {
    order := [];
    var left := selected;
    while left != {}
      invariant left <= selected && LatestFirst(order, selected - left, times)
      invariant forall i, j :: 0 <= i < |order| && j in left && order[i] in times ==> times[order[i]] >= times[j]
      decreases |left|
    {
      var k := Latest(left, times);
      order, left := order + [k], left - {k};
    }
    assert selected - left == selected;
  }

  // ---------------------------------------------------------------- what pages show

  /** When no two selected rows share a time, the order is determined. */
  lemma {:induction false} OrderIsDetermined<K(!new)>(a: seq<K>, b: seq<K>, selected: set<K>, times: map<K, int>)
    requires selected <= times.Keys && LatestFirst(a, selected, times) && LatestFirst(b, selected, times)
    requires NoTies(selected, times)
    ensures a == b
    decreases |a|
  {
    if b != [] {
      assert b[0] in b && b[0] in selected && b[0] in a;
    }
    if a != [] {
      assert a[0] in a && a[0] in selected && a[0] in b;
      assert a[0] == b[0];
      TailLatestFirst(a, selected, times);
      TailLatestFirst(b, selected, times);
      OrderIsDetermined(a[1..], b[1..], selected - {a[0]}, times);
    }
  }

  lemma TailLatestFirst<K(!new)>(a: seq<K>, selected: set<K>, times: map<K, int>)
    requires a != [] && selected <= times.Keys && LatestFirst(a, selected, times)
    ensures LatestFirst(a[1..], selected - {a[0]}, times)
  {
    forall k ensures k in a[1..] <==> k in selected - {a[0]} {
      assert k in a <==> k == a[0] || k in a[1..];
    }
  }

  ghost predicate NoTies<K(!new)>(selected: set<K>, times: map<K, int>)
    requires selected <= times.Keys
  {
    forall j, k :: j in selected && k in selected && times[j] == times[k] ==> j == k
  }

  /** Reading page after page from `offset` on, each with its own statement, until one is not full. */
  ghost predicate ReadsThrough<K(!new)>(pages: seq<seq<K>>, selected: set<K>, times: map<K, int>, limit: nat, offset: nat)
    requires selected <= times.Keys
    decreases |pages|
  {
    && pages != [] && IsPage(pages[0], selected, times, limit, offset)
    && (if |pages| == 1 then |pages[0]| < limit else ReadsThrough(pages[1..], selected, times, limit, offset + limit))
  }

  ghost function Concat<K>(pages: seq<seq<K>>): seq<K> {
    if pages == [] then [] else pages[0] + Concat(pages[1..])
  }

  ghost function From<K>(order: seq<K>, offset: nat): seq<K> {
    if offset >= |order| then [] else order[offset..]
  }

  lemma PageIsSlice<K(!new)>(page: seq<K>, order: seq<K>, selected: set<K>, times: map<K, int>, limit: nat, offset: nat)
    requires selected <= times.Keys && NoTies(selected, times) && LatestFirst(order, selected, times)
    requires IsPage(page, selected, times, limit, offset)
    ensures page == Slice(order, limit, offset)
  {
    var other :| LatestFirst(other, selected, times) && page == Slice(other, limit, offset);
    OrderIsDetermined(other, order, selected, times);
  }

  /** The pages cut from one order. */
  ghost predicate CutFrom<K(!new)>(pages: seq<seq<K>>, order: seq<K>, limit: nat, offset: nat)
    decreases |pages|
  {
    && pages != [] && pages[0] == Slice(order, limit, offset)
    && (if |pages| == 1 then |pages[0]| < limit else CutFrom(pages[1..], order, limit, offset + limit))
  }

  /** Without ties every page is cut from the same order. */
  lemma {:induction false} PagesAreCut<K(!new)>(pages: seq<seq<K>>, order: seq<K>, selected: set<K>, times: map<K, int>, limit: nat, offset: nat)
    requires selected <= times.Keys && NoTies(selected, times) && LatestFirst(order, selected, times)
    requires ReadsThrough(pages, selected, times, limit, offset)
    ensures CutFrom(pages, order, limit, offset)
    decreases |pages|
  {
    PageIsSlice(pages[0], order, selected, times, limit, offset);
    if |pages| > 1 {
      PagesAreCut(pages[1..], order, selected, times, limit, offset + limit);
    }
  }

  /** Pages cut from one order are together what is left of it. */
  lemma {:induction false} PagesTile<K(!new)>(pages: seq<seq<K>>, order: seq<K>, limit: nat, offset: nat)
    requires CutFrom(pages, order, limit, offset)
    ensures Concat(pages) == From(order, offset)
    decreases |pages|
  {
    if |pages| == 1 {
      assert Concat(pages[1..]) == [];
      LastSlice(order, limit, offset);
    } else {
      PagesTile(pages[1..], order, limit, offset + limit);
      SliceAndRest(order, limit, offset);
    }
  }

  lemma LastSlice<K>(order: seq<K>, limit: nat, offset: nat)
    ensures |Slice(order, limit, offset)| < limit ==> Slice(order, limit, offset) == From(order, offset)
  {
  }

  lemma SliceAndRest<K>(order: seq<K>, limit: nat, offset: nat)
    ensures Slice(order, limit, offset) + From(order, offset + limit) == From(order, offset)
  {
  }

  /** A first page begins with a latest row. */
  lemma FirstPageIsLatest<K(!new)>(page: seq<K>, selected: set<K>, times: map<K, int>, limit: nat)
    requires selected <= times.Keys && selected != {} && limit > 0 && IsPage(page, selected, times, limit, 0)
    ensures page != [] && page[0] in selected && forall k :: k in selected ==> times[page[0]] >= times[k]
  {
    var order :| LatestFirst(order, selected, times) && page == Slice(order, limit, 0);
    var k :| k in selected;
    assert k in order && order[0] in order;
    forall x | x in selected ensures times[order[0]] >= times[x] {
      var i :| 0 <= i < |order| && order[i] == x;
    }
  }

  /** Every way of reading through, at every page size, lists each selected row once and latest first. */
  ghost predicate PagingIsExact<K(!new)>(selected: set<K>, times: map<K, int>)
    requires selected <= times.Keys
  {
    forall limit, pages :: ReadsThrough(pages, selected, times, limit, 0) ==> LatestFirst(Concat(pages), selected, times)
  }

  /** Paging is exact exactly when no two selected rows share a time. */
  lemma PagingIsExactIff<K(!new)>(selected: set<K>, times: map<K, int>)
    requires selected <= times.Keys
    ensures PagingIsExact(selected, times) <==> NoTies(selected, times)
  {
    if NoTies(selected, times) {
      var order := OrderExists(selected, times);
      forall limit: nat, pages | ReadsThrough(pages, selected, times, limit, 0) ensures LatestFirst(Concat(pages), selected, times) {
        PagesAreCut(pages, order, selected, times, limit, 0);
        PagesTile(pages, order, limit, 0);
        assert From(order, 0) == order;
      }
    } else {
      var j, k :| j in selected && k in selected && times[j] == times[k] && j != k;
      var pages := TiesBreakPaging(selected, times, j, k);
    }
  }

  /** Rows of equal time may swap between two reads: reading one row at a time,
      one of them shows twice and the other never. */
  lemma TiesBreakPaging<K(!new)>(selected: set<K>, times: map<K, int>, j: K, k: K) returns (pages: seq<seq<K>>)
    requires selected <= times.Keys && j in selected && k in selected && j != k && times[j] == times[k]
    ensures ReadsThrough(pages, selected, times, 1, 0) && !Distinct(Concat(pages))
    ensures !LatestFirst(Concat(pages), selected, times)
  {
    var later := set x | x in selected && x != j && x != k && times[x] >= times[j];
    var earlier := selected - later - {j, k};
    var front := OrderExists(later, times);
    var back := OrderExists(earlier, times);
    TiedInTheMiddle(front, back, later, earlier, times, j, k);
    TiedInTheMiddle(front, back, later, earlier, times, k, j);
    assert later + {j, k} + earlier == selected && {j, k} == {k, j};
    pages := RepeatedPages(front, back, selected, times, j, k);
  }

  /** The pages of one order, but with the second of the tied rows read from the other. */
  lemma RepeatedPages<K(!new)>(front: seq<K>, back: seq<K>, selected: set<K>, times: map<K, int>, j: K, k: K) returns (pages: seq<seq<K>>)
    requires selected <= times.Keys
    requires LatestFirst(front + [j, k] + back, selected, times) && LatestFirst(front + [k, j] + back, selected, times)
    ensures ReadsThrough(pages, selected, times, 1, 0) && !Distinct(Concat(pages))
  {
    var shown := front + [j, j] + back;
    pages := Singles(shown) + [[]];
    forall i | 0 <= i < |shown| ensures IsPage([shown[i]], selected, times, 1, i) {
      RowOfOrder(if i == |front| + 1 then front + [k, j] + back else front + [j, k] + back, selected, times, i);
    }
    PastTheEnd(front + [j, k] + back, selected, times);
    SinglesReadThrough(shown, selected, times, 0);
    ConcatSingles(shown);
    assert shown[|front|] == shown[|front| + 1];
  }

  lemma RowOfOrder<K(!new)>(order: seq<K>, selected: set<K>, times: map<K, int>, i: nat)
    requires selected <= times.Keys && LatestFirst(order, selected, times) && i < |order|
    ensures IsPage([order[i]], selected, times, 1, i)
  {
    assert Slice(order, 1, i) == [order[i]];
  }

  lemma PastTheEnd<K(!new)>(order: seq<K>, selected: set<K>, times: map<K, int>)
    requires selected <= times.Keys && LatestFirst(order, selected, times)
    ensures IsPage([], selected, times, 1, |order|)
  {
    assert Slice(order, 1, |order|) == [];
  }

  ghost function Singles<K>(shown: seq<K>): (pages: seq<seq<K>>)
    ensures |pages| == |shown| && forall i :: 0 <= i < |shown| ==> pages[i] == [shown[i]]
  {
    seq(|shown|, i requires 0 <= i < |shown| => [shown[i]])
  }

  lemma {:induction false} SinglesReadThrough<K(!new)>(shown: seq<K>, selected: set<K>, times: map<K, int>, offset: nat)
    requires selected <= times.Keys && IsPage([], selected, times, 1, offset + |shown|)
    requires forall i :: 0 <= i < |shown| ==> IsPage([shown[i]], selected, times, 1, offset + i)
    ensures ReadsThrough(Singles(shown) + [[]], selected, times, 1, offset)
    decreases |shown|
  {
    var pages := Singles(shown) + [[]];
    if shown != [] {
      assert IsPage([shown[0]], selected, times, 1, offset + 0);
      forall i | 0 <= i < |shown[1..]| ensures IsPage([shown[1..][i]], selected, times, 1, offset + 1 + i) {
        assert IsPage([shown[i + 1]], selected, times, 1, offset + (i + 1));
      }
      SinglesReadThrough(shown[1..], selected, times, offset + 1);
      assert pages[1..] == Singles(shown[1..]) + [[]];
    }
  }

  lemma {:induction false} ConcatSingles<K>(shown: seq<K>)
    ensures Concat(Singles(shown) + [[]]) == shown
    decreases |shown|
  {
    var pages := Singles(shown) + [[]];
    if shown == [] {
      assert pages == [[]] && Concat(pages[1..]) == [];
    } else {
      assert pages[1..] == Singles(shown[1..]) + [[]];
      ConcatSingles(shown[1..]);
    }
  }

  lemma {:induction false} OrderExists<K(!new)>(selected: set<K>, times: map<K, int>) returns (order: seq<K>)
    requires selected <= times.Keys
    ensures LatestFirst(order, selected, times)
    decreases |selected|
  {
    if selected == {} {
      order := [];
    } else {
      var k := LatestExists(selected, times);
      var rest := OrderExists(selected - {k}, times);
      order := [k] + rest;
    }
  }

  lemma {:induction false} LatestExists<K(!new)>(among: set<K>, times: map<K, int>) returns (k: K)
    requires among != {} && among <= times.Keys
    ensures k in among && forall j :: j in among ==> times[k] >= times[j]
    decreases |among|
  {
    k :| k in among;
    if among != {k} {
      var rest := among - {k};
      assert rest != {} by {
        assert among == rest + {k};
      }
      var j := LatestExists(rest, times);
      if times[j] > times[k] {
        k := j;
      }
    }
  }

  lemma TiedInTheMiddle<K(!new)>(front: seq<K>, back: seq<K>, later: set<K>, earlier: set<K>, times: map<K, int>, j: K, k: K)
    requires later <= times.Keys && earlier <= times.Keys && j in times && k in times && j != k && times[j] == times[k]
    requires LatestFirst(front, later, times) && LatestFirst(back, earlier, times) && later !! earlier !! {j, k}
    requires (forall x :: x in later ==> times[x] >= times[j]) && forall x :: x in earlier ==> times[x] <= times[j]
    ensures LatestFirst(front + [j, k] + back, later + {j, k} + earlier, times)
  {
    var order := front + [j, k] + back;
    assert forall i :: 0 <= i < |front| ==> front[i] in later;
    assert forall i :: 0 <= i < |back| ==> back[i] in earlier;
    forall x ensures x in order <==> x in later + {j, k} + earlier {
      assert x in order <==> x in front || x in [j, k] || x in back;
    }
  }
}
