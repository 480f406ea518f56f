/**
 * The query planner: turns (collection, filters, projection, sort, limit)
 * into the fixed operation sequence Scan, Filter*, Projection?, Sort?, Limit?
 * with an advisory cost, and compiles each filter into a predicate.
 *
 * A Filter operation carries the filter its predicate was compiled from;
 * `Matches` gives that predicate's meaning. The cost is kept in tenths as an
 * integer: 10 to start, 5 per filter, 2 for a projection, 10 for a sort.
 */
module QueryPlanner {
  import opened Maybe
  import opened Json

  /** A filter as the caller gives it; `operator` is any string. */
  datatype QueryFilter = QueryFilter(field: string, operator: string, value: Value)

  datatype SortSpec = SortSpec(field: string, order: string)

  /** One step of a plan, with the optional fields each kind of step reads. */
  datatype QueryOperation =
    | Scan(collection: Option<string>)
    | IndexLookup(field: Option<string>, value: Option<Value>)
    | Filter(field: Option<string>, value: Option<Value>, compiledFrom: Option<QueryFilter>)
    | Projection(fields: Option<seq<string>>)
    | Sort(sortField: Option<string>, sortOrder: Option<string>)
    | Limit(limitCount: Option<int>)
    | Unknown(typeName: string)

  datatype QueryPlan = QueryPlan(operations: seq<QueryOperation>, estimatedCostTenths: int, useIndex: bool)

  const KnownOperators: seq<string> := ["eq", "ne", "gt", "gte", "lt", "lte", "in", "contains"]

  /**
   * The predicate `createPredicate` compiles: read `doc[field]` (absent reads
   * as undefined) and compare it with the filter value. An operator the
   * planner does not know lets every document through.
   */
  predicate Matches(filter: QueryFilter, doc: Doc)
    ensures filter.operator !in KnownOperators ==> Matches(filter, doc)
    ensures filter.operator == "in" && !filter.value.Arr? ==> !Matches(filter, doc)
  {
    var x := Lookup(doc, filter.field);
    var v := Some(filter.value);
    if filter.operator == "eq" then StrictEquals(x, v)
    else if filter.operator == "ne" then !StrictEquals(x, v)
    else if filter.operator == "gt" then Less(v, x)
    else if filter.operator == "gte" then LessEq(v, x)
    else if filter.operator == "lt" then Less(x, v)
    else if filter.operator == "lte" then LessEq(x, v)
    else if filter.operator == "in" then
      filter.value.Arr? &&
      exists i :: 0 <= i < |filter.value.items| && StrictEquals(Some(filter.value.items[i]), x)
    else if filter.operator == "contains" then Includes(ToJsString(x), ToJsString(v))
    else true
  }

  /** The Filter operation the planner emits for one filter. */
  function FilterOperation(filter: QueryFilter): QueryOperation {
    Filter(Some(filter.field), Some(filter.value), Some(filter))
  }

  function FilterOperations(filters: seq<QueryFilter>): (r: seq<QueryOperation>)
    ensures |r| == |filters|
    ensures forall i :: 0 <= i < |r| ==> r[i] == FilterOperation(filters[i])
  {
    seq(|filters|, i requires 0 <= i < |filters| => FilterOperation(filters[i]))
  }

  /** `filters && filters.length > 0` decides the loop; absent and empty both give no filters. */
  function FilterList(filters: Option<seq<QueryFilter>>): seq<QueryFilter> {
    filters.GetOr([])
  }

  predicate HasProjection(projection: Option<seq<string>>) {
    projection.Some? && |projection.value| > 0
  }

  /** `if (limit)`: a limit of zero counts as no limit. */
  predicate HasLimit(limit: Option<int>) {
    limit.Some? && limit.value != 0
  }

  function Count(b: bool): nat {
    if b then 1 else 0
  }

  /** The operations `createPlan` emits, in order. */
  function PlanOperations(collection: string, filters: Option<seq<QueryFilter>>, projection: Option<seq<string>>,
                          sort: Option<SortSpec>, limit: Option<int>): seq<QueryOperation>
  {
    [Scan(Some(collection))]
    + FilterOperations(FilterList(filters))
    + (if HasProjection(projection) then [Projection(projection)] else [])
    + (if sort.Some? then [Sort(Some(sort.value.field), Some(sort.value.order))] else [])
    + (if HasLimit(limit) then [Limit(limit)] else [])
  }

  /** The plan `createPlan` returns: its operations, the cost in tenths, and no index use. */
  function Plan(collection: string, filters: Option<seq<QueryFilter>>, projection: Option<seq<string>>,
                sort: Option<SortSpec>, limit: Option<int>): QueryPlan
  {
    QueryPlan(
      PlanOperations(collection, filters, projection, sort, limit),
      10 + 5 * |FilterList(filters)| + 2 * Count(HasProjection(projection)) + 10 * Count(sort.Some?),
      false)
  }

  /**
   * The layout of every plan, by the position of each operation: Scan first
   * and nowhere else, then one Filter per filter in order, then a Projection,
   * a Sort and a Limit, each only when asked for; never an IndexLookup.
   */
  lemma PlanLayout(collection: string, filters: Option<seq<QueryFilter>>, projection: Option<seq<string>>,
                   sort: Option<SortSpec>, limit: Option<int>)
    ensures var ops := PlanOperations(collection, filters, projection, sort, limit);
      |ops| == 1 + |FilterList(filters)| + Count(HasProjection(projection)) + Count(sort.Some?) + Count(HasLimit(limit))
    ensures var ops := PlanOperations(collection, filters, projection, sort, limit);
      ops[0] == Scan(Some(collection)) &&
      forall i :: 0 <= i < |ops| ==> (ops[i].Scan? <==> i == 0)
    ensures var ops := PlanOperations(collection, filters, projection, sort, limit);
      forall i :: 0 <= i < |ops| ==> (ops[i].Filter? <==> 1 <= i <= |FilterList(filters)|)
    ensures var ops := PlanOperations(collection, filters, projection, sort, limit);
      forall i :: 0 <= i < |FilterList(filters)| ==> ops[1 + i] == FilterOperation(FilterList(filters)[i])
    ensures var ops := PlanOperations(collection, filters, projection, sort, limit);
      forall i :: 0 <= i < |ops| ==>
        (ops[i].Projection? <==> HasProjection(projection) && i == 1 + |FilterList(filters)|)
    ensures var ops := PlanOperations(collection, filters, projection, sort, limit);
      HasProjection(projection) ==> ops[1 + |FilterList(filters)|] == Projection(projection)
    ensures var ops := PlanOperations(collection, filters, projection, sort, limit);
      forall i :: 0 <= i < |ops| ==>
        (ops[i].Sort? <==> sort.Some? && i == 1 + |FilterList(filters)| + Count(HasProjection(projection)))
    ensures var ops := PlanOperations(collection, filters, projection, sort, limit);
      sort.Some? ==>
        ops[1 + |FilterList(filters)| + Count(HasProjection(projection))]
        == Sort(Some(sort.value.field), Some(sort.value.order))
    ensures var ops := PlanOperations(collection, filters, projection, sort, limit);
      forall i :: 0 <= i < |ops| ==> (ops[i].Limit? <==> HasLimit(limit) && i == |ops| - 1)
    ensures var ops := PlanOperations(collection, filters, projection, sort, limit);
      HasLimit(limit) ==> ops[|ops| - 1] == Limit(limit)
    ensures var ops := PlanOperations(collection, filters, projection, sort, limit);
      forall i :: 0 <= i < |ops| ==> !ops[i].IndexLookup? && !ops[i].Unknown?
  {
    var fs := FilterList(filters);
    var n := |fs|;
    var head := [Scan(Some(collection))] + FilterOperations(fs);
    var c := if HasProjection(projection) then [Projection(projection)] else [];
    var d := if sort.Some? then [Sort(Some(sort.value.field), Some(sort.value.order))] else [];
    var e := if HasLimit(limit) then [Limit(limit)] else [];
    var ops := PlanOperations(collection, filters, projection, sort, limit);
    assert ops == head + c + d + e;
    forall i | 0 <= i < |ops|
      ensures i == 0 ==> ops[i] == Scan(Some(collection))
      ensures 1 <= i <= n ==> ops[i] == FilterOperation(fs[i - 1])
      ensures n < i < n + 1 + |c| ==> ops[i] == c[0]
      ensures n + |c| < i < n + 1 + |c| + |d| ==> ops[i] == d[0]
      ensures n + |c| + |d| < i ==> ops[i] == e[0]
    {
      if i < |head| {
        assert ops[i] == head[i];
      } else if i < |head| + |c| {
        assert ops[i] == c[i - |head|];
      } else if i < |head| + |c| + |d| {
        assert ops[i] == d[i - |head| - |c|];
      } else {
        assert ops[i] == e[i - |head| - |c| - |d|];
      }
    }
  }

  /** `createPlan`, step by step as the TypeScript code pushes operations and accumulates cost. */
  method CreatePlan(collection: string, filters: Option<seq<QueryFilter>>, projection: Option<seq<string>>,
                    sort: Option<SortSpec>, limit: Option<int>) returns (plan: QueryPlan)
    ensures plan == Plan(collection, filters, projection, sort, limit)
  {
    var operations, cost := ScanAndFilters(collection, filters);
    ghost var head := operations;
    var useIndex := false;
    if projection.Some? && |projection.value| > 0 {
      operations := operations + [Projection(projection)];
      cost := cost + 2;
    }
    ghost var c := if HasProjection(projection) then [Projection(projection)] else [];
    assert operations == head + c;
    if sort.Some? {
      operations := operations + [Sort(Some(sort.value.field), Some(sort.value.order))];
      cost := cost + 10;
    }
    ghost var d := if sort.Some? then [Sort(Some(sort.value.field), Some(sort.value.order))] else [];
    assert operations == head + c + d;
    if limit.Some? && limit.value != 0 {
      operations := operations + [Limit(limit)];
    }
    assert operations == head + c + d + (if HasLimit(limit) then [Limit(limit)] else []);
    plan := QueryPlan(operations, cost, useIndex);
  }

  /** The Scan, then one Filter per filter pushed in a loop, with the cost so far. */
  method ScanAndFilters(collection: string, filters: Option<seq<QueryFilter>>)
    returns (operations: seq<QueryOperation>, cost: int)
    ensures operations == [Scan(Some(collection))] + FilterOperations(FilterList(filters))
    ensures cost == 10 + 5 * |FilterList(filters)|
  {
    operations := [Scan(Some(collection))];
    cost := 10;
    if filters.Some? && |filters.value| > 0 {
      var fs := filters.value;
      var i := 0;
      while i < |fs|
        invariant 0 <= i <= |fs|
        invariant operations == [Scan(Some(collection))] + FilterOperations(fs[..i])
        invariant cost == 10 + 5 * i
      {
        assert FilterOperations(fs[..i + 1]) == FilterOperations(fs[..i]) + [FilterOperation(fs[i])];
        operations := operations + [FilterOperation(fs[i])];
        cost := cost + 5;
        i := i + 1;
      }
      assert fs[..i] == fs;
    } else {
      assert FilterOperations(FilterList(filters)) == [];
    }
  }

  /** `optimizePlan`: a placeholder that returns the plan it is given. */
  function OptimizePlan(plan: QueryPlan): (r: QueryPlan)
    ensures r == plan
  {
    plan
  }

  // ---------------------------------------------------------------------
  // Predicate semantics
  // ---------------------------------------------------------------------

  /**
   * `eq` is `===`: the field is present, the filter value is a scalar, and the
   * two are the same value. An array or object filter value matches nothing.
   */
  lemma EqIsScalarEquality(field: string, value: Value, doc: Doc)
    ensures Matches(QueryFilter(field, "eq", value), doc) <==>
      (field in doc && IsScalar(value) && doc[field] == value)
  {
  }

  /** Against a number, the four relational operators compare a numeric field numerically, field first. */
  lemma RelationalOnNumbers(field: string, n: int, doc: Doc)
    ensures Matches(QueryFilter(field, "lt", Num(n)), doc) <==> (field in doc && doc[field].Num? && doc[field].n < n)
    ensures Matches(QueryFilter(field, "lte", Num(n)), doc) <==> (field in doc && doc[field].Num? && doc[field].n <= n)
    ensures Matches(QueryFilter(field, "gt", Num(n)), doc) <==> (field in doc && doc[field].Num? && doc[field].n > n)
    ensures Matches(QueryFilter(field, "gte", Num(n)), doc) <==> (field in doc && doc[field].Num? && doc[field].n >= n)
  {
  }

  /** Against a string, they compare a string field lexicographically, field first. */
  lemma RelationalOnStrings(field: string, t: string, doc: Doc)
    ensures Matches(QueryFilter(field, "lt", Str(t)), doc) <==> (field in doc && doc[field].Str? && StrLess(doc[field].s, t))
    ensures Matches(QueryFilter(field, "lte", Str(t)), doc) <==> (field in doc && doc[field].Str? && !StrLess(t, doc[field].s))
    ensures Matches(QueryFilter(field, "gt", Str(t)), doc) <==> (field in doc && doc[field].Str? && StrLess(t, doc[field].s))
    ensures Matches(QueryFilter(field, "gte", Str(t)), doc) <==> (field in doc && doc[field].Str? && !StrLess(doc[field].s, t))
  {
  }

  /** `ne` accepts exactly the documents `eq` rejects. */
  lemma NeIsNotEq(field: string, value: Value, doc: Doc)
    ensures Matches(QueryFilter(field, "ne", value), doc) == !Matches(QueryFilter(field, "eq", value), doc)
  {
  }

  /** An operator outside the known eight lets every document through. */
  lemma UnknownOperatorMatchesAll(filter: QueryFilter, doc: Doc)
    requires filter.operator !in KnownOperators
    ensures Matches(filter, doc)
  {
  }

  /** `in` with a filter value that is not an array matches nothing. */
  lemma InNeedsArray(field: string, value: Value, doc: Doc)
    requires !value.Arr?
    ensures !Matches(QueryFilter(field, "in", value), doc)
  {
  }

  /** `in` with an array is membership of the (scalar) field value in it. */
  lemma InIsMembership(field: string, items: seq<Value>, doc: Doc)
    ensures Matches(QueryFilter(field, "in", Arr(items)), doc) <==>
      (field in doc && IsScalar(doc[field]) && doc[field] in items)
  {
    if field in doc && IsScalar(doc[field]) && doc[field] in items {
      var i :| 0 <= i < |items| && items[i] == doc[field];
      assert StrictEquals(Some(items[i]), Lookup(doc, field));
    }
  }

  /** On comparable values `gte` is `gt` or `eq`, and `lte` is `lt` or `eq`. */
  lemma OrderOperatorsSplit(field: string, value: Value, doc: Doc)
    requires Comparable(Lookup(doc, field), Some(value))
    ensures Matches(QueryFilter(field, "gte", value), doc) <==>
      Matches(QueryFilter(field, "gt", value), doc) || Matches(QueryFilter(field, "eq", value), doc)
    ensures Matches(QueryFilter(field, "lte", value), doc) <==>
      Matches(QueryFilter(field, "lt", value), doc) || Matches(QueryFilter(field, "eq", value), doc)
  {
    var x := Lookup(doc, field);
    var v := Some(value);
    if x != v {
      LessTotal(x, v);
      if Less(x, v) && Less(v, x) {
        LessTransitive(x, v, x);
        LessIrreflexive(x);
      }
    } else {
      LessIrreflexive(x);
    }
  }

  /** `contains` asks whether String(filter value) occurs in String(field value). */
  lemma ContainsIsSubstring(field: string, value: Value, doc: Doc)
    ensures var hay := ToJsString(Lookup(doc, field));
      Matches(QueryFilter(field, "contains", value), doc) <==>
      exists i :: 0 <= i <= |hay| && IsPrefix(ToJsString(Some(value)), hay[i..])
  {
    IncludesAt(ToJsString(Lookup(doc, field)), ToJsString(Some(value)));
  }

  /** The number 42 "contains" the number 4, because "42" includes "4". */
  lemma ContainsComparesStringForms()
    ensures Matches(QueryFilter("age", "contains", Num(4)), map["_id" := Str("a"), "age" := Num(42)])
  {
    var doc := map["_id" := Str("a"), "age" := Num(42)];
    assert NatToDecimal(42) == NatToDecimal(4) + ['2'];
    assert ToJsString(Lookup(doc, "age")) == "42";
    assert IsPrefix("4", "42");
  }

  /** A plan built with limit 0 has no Limit operation. */
  lemma LimitZeroMeansNoLimit(collection: string, filters: Option<seq<QueryFilter>>,
                              projection: Option<seq<string>>, sort: Option<SortSpec>)
    ensures var p := Plan(collection, filters, projection, sort, Some(0));
      forall i :: 0 <= i < |p.operations| ==> !p.operations[i].Limit?
  {
  }

  /** With nothing but a collection the plan is the single Scan. */
  lemma BarePlanIsOneScan(collection: string)
    ensures Plan(collection, None, None, None, None).operations == [Scan(Some(collection))]
  {
  }
}
