/**
 * The query executor: a left fold of the plan's operations over a document
 * list that starts empty. Scan replaces the list with the collection's
 * listing; Filter, Projection, Sort and Limit transform it; IndexLookup
 * yields nothing; an operation of unknown kind passes the list through.
 * Execution time is left out; the operation count is reported.
 */
module QueryExecutor {
  import opened Maybe
  import opened Json
  import SE = StorageEngine
  import opened QueryPlanner
  import DocSort
  import DS = DocumentStore
  import OM = OrderedMap

  datatype ExecutionResult = ExecutionResult(documents: seq<Doc>, operationsExecuted: nat)

  /** `executeScan`: the engine's listing; a missing or empty collection name gives `[]`. */
  function ExecuteScan(e: SE.Engine, collection: Option<string>): (r: seq<Doc>)
    ensures collection.None? || collection.value == "" ==> r == []
    ensures collection.Some? && collection.value !in e.store.entries ==> r == []
    ensures collection.Some? && collection.value != "" && collection.value in e.store.entries ==>
      var coll := e.store.entries[collection.value];
      |r| == |coll.keys| && forall i :: 0 <= i < |r| ==> r[i] == coll.entries[coll.keys[i]]
  {
    if collection.None? || collection.value == "" then [] else SE.ListDocuments(e, collection.value)
  }

  /** `a` is a subsequence of `b`: its elements appear in `b` in the same order, not necessarily adjacent. */
  predicate IsSubsequence(a: seq<Doc>, b: seq<Doc>)
    decreases |b|
  {
    |a| == 0 ||
    (|b| > 0 && ((a[0] == b[0] && IsSubsequence(a[1..], b[1..])) || IsSubsequence(a, b[1..])))
  }

  /** `documents.filter(predicate)`: the matching documents, in order, each as often as in the input. */
  function FilterDocs(filter: QueryFilter, docs: seq<Doc>): (r: seq<Doc>)
    ensures forall i :: 0 <= i < |r| ==> Matches(filter, r[i])
    ensures forall d :: multiset(r)[d] == if Matches(filter, d) then multiset(docs)[d] else 0
    ensures IsSubsequence(r, docs)
    ensures |r| <= |docs|
    decreases |docs|
  {
    if |docs| == 0 then []
    else
      assert docs == [docs[0]] + docs[1..];
      var rest := FilterDocs(filter, docs[1..]);
      if Matches(filter, docs[0]) then
        var r := [docs[0]] + rest;
        assert r[0] == docs[0] && r[1..] == rest;
        r
      else rest
  }

  /** `executeFilter`: no predicate means the input passes through. */
  function ExecuteFilter(compiledFrom: Option<QueryFilter>, docs: seq<Doc>): (r: seq<Doc>)
    ensures compiledFrom.None? ==> r == docs
    ensures compiledFrom.Some? ==> r == FilterDocs(compiledFrom.value, docs)
    ensures compiledFrom.Some? ==> forall i :: 0 <= i < |r| ==> Matches(compiledFrom.value, r[i])
    ensures compiledFrom.Some? ==> forall d :: d in docs && Matches(compiledFrom.value, d) ==> d in r
    ensures IsSubsequence(r, docs)
    ensures |r| <= |docs|
  {
    if compiledFrom.None? then SubsequenceOfItself(docs); docs
    else
      var r := FilterDocs(compiledFrom.value, docs);
      assert forall d :: d in docs && Matches(compiledFrom.value, d) ==> multiset(r)[d] > 0;
      r
  }

  /** Every list is a subsequence of itself. */
  lemma {:induction false} SubsequenceOfItself(s: seq<Doc>)
    ensures IsSubsequence(s, s)
    decreases |s|
  {
    if |s| > 0 {
      SubsequenceOfItself(s[1..]);
    }
  }

  /** One projected document: `_id` plus each listed field the document has, nothing else. */
  function ProjectDoc(doc: Doc, fields: seq<string>): (r: Doc)
    ensures forall f :: f in r <==> f in doc && (f == IdField || f in fields)
    ensures forall f :: f in r ==> r[f] == doc[f]
  {
    map f | f in doc && (f == IdField || f in fields) :: doc[f]
  }

  /** `executeProjection`: a missing or empty field list passes the input through. */
  function ExecuteProjection(fields: Option<seq<string>>, docs: seq<Doc>): (r: seq<Doc>)
    ensures |r| == |docs|
    ensures fields.Some? && |fields.value| > 0 ==>
      forall i :: 0 <= i < |r| ==> r[i] == ProjectDoc(docs[i], fields.value)
    ensures !(fields.Some? && |fields.value| > 0) ==> r == docs
  {
    if fields.None? || |fields.value| == 0 then docs
    else seq(|docs|, i requires 0 <= i < |docs| => ProjectDoc(docs[i], fields.value))
  }

  /** `executeSort`: a missing or empty sort field passes the input through; only "desc" sorts descending. */
  function ExecuteSort(sortField: Option<string>, sortOrder: Option<string>, docs: seq<Doc>): (r: seq<Doc>)
    ensures sortField.None? || sortField.value == "" ==> r == docs
    ensures multiset(r) == multiset(docs) && |r| == |docs|
  {
    if sortField.None? || sortField.value == "" then docs
    else
      var r := DocSort.SortBy(sortField.value, sortOrder == Some("desc"), docs);
      assert |multiset(r)| == |multiset(docs)|;
      r
  }

  /** The end index `slice(0, n)` uses on a list of length `len`; a negative `n` counts from the end. */
  function SliceEnd(len: nat, n: int): nat {
    if n >= 0 then (if n < len then n else len)
    else if len + n > 0 then len + n else 0
  }

  /** `executeLimit`: an absent or zero count passes the input through; otherwise `slice(0, n)`. */
  function ExecuteLimit(limitCount: Option<int>, docs: seq<Doc>): (r: seq<Doc>)
    ensures |r| <= |docs| && r == docs[..|r|]
    ensures limitCount.None? || limitCount.value == 0 ==> r == docs
    ensures limitCount.Some? && limitCount.value > 0 ==>
      |r| == (if limitCount.value < |docs| then limitCount.value else |docs|)
    ensures limitCount.Some? && limitCount.value < 0 ==>
      |r| == (if |docs| + limitCount.value > 0 then |docs| + limitCount.value else 0)
  {
    if limitCount.None? || limitCount.value == 0 then docs
    else docs[..SliceEnd(|docs|, limitCount.value)]
  }

  /** `executeOperation`. */
  function ExecuteOperation(e: SE.Engine, op: QueryOperation, input: seq<Doc>): (r: seq<Doc>)
    ensures op.Scan? ==> r == ExecuteScan(e, op.collection)
    ensures op.IndexLookup? ==> r == []
    ensures op.Unknown? ==> r == input
    ensures !op.Scan? ==> |r| <= |input|
  {
    match op
    case Scan(c) => ExecuteScan(e, c)
    case Filter(_, _, p) => ExecuteFilter(p, input)
    case Projection(fields) => ExecuteProjection(fields, input)
    case Sort(field, order) => ExecuteSort(field, order, input)
    case Limit(n) => ExecuteLimit(n, input)
    case IndexLookup(_, _) => []
    case Unknown(_) => input
  }

  /** Run `ops` first to last, threading the document list from `docs`. */
  function Fold(e: SE.Engine, ops: seq<QueryOperation>, docs: seq<Doc>): seq<Doc>
    decreases |ops|
  {
    if |ops| == 0 then docs else Fold(e, ops[1..], ExecuteOperation(e, ops[0], docs))
  }

  /** `execute`: every operation in turn, starting from no documents. */
  method Execute(e: SE.Engine, plan: QueryPlan) returns (result: ExecutionResult)
    ensures result.documents == Fold(e, plan.operations, [])
    ensures result.operationsExecuted == |plan.operations|
  {
    var documents: seq<Doc> := [];
    var i := 0;
    while i < |plan.operations|
      invariant 0 <= i <= |plan.operations|
      invariant Fold(e, plan.operations[i..], documents) == Fold(e, plan.operations, [])
    {
      assert plan.operations[i..][1..] == plan.operations[i + 1..];
      documents := ExecuteOperation(e, plan.operations[i], documents);
      i := i + 1;
    }
    result := ExecutionResult(documents, |plan.operations|);
  }

  // ---------------------------------------------------------------------
  // The fold
  // ---------------------------------------------------------------------

  lemma {:induction false} FoldAppend(e: SE.Engine, a: seq<QueryOperation>, b: seq<QueryOperation>, docs: seq<Doc>)
    ensures Fold(e, a + b, docs) == Fold(e, b, Fold(e, a, docs))
    decreases |a|
  {
    if |a| == 0 {
      assert a + b == b;
    } else {
      assert (a + b)[0] == a[0] && (a + b)[1..] == a[1..] + b;
      FoldAppend(e, a[1..], b, ExecuteOperation(e, a[0], docs));
    }
  }

  /** A Scan discards whatever came before it: only the operations after it matter. */
  lemma ScanDiscardsEarlierWork(e: SE.Engine, before: seq<QueryOperation>, c: Option<string>,
                                after: seq<QueryOperation>, docs: seq<Doc>)
    ensures Fold(e, before + [Scan(c)] + after, docs) == Fold(e, after, ExecuteScan(e, c))
  {
    FoldAppend(e, before + [Scan(c)], after, docs);
    FoldAppend(e, before, [Scan(c)], docs);
  }

  // ---------------------------------------------------------------------
  // Filters compose with AND
  // ---------------------------------------------------------------------

  predicate MatchesAll(filters: seq<QueryFilter>, doc: Doc) {
    forall i :: 0 <= i < |filters| ==> Matches(filters[i], doc)
  }

  /** The documents that satisfy every filter, in order. */
  function SelectAll(filters: seq<QueryFilter>, docs: seq<Doc>): seq<Doc>
    decreases |docs|
  {
    if |docs| == 0 then []
    else (if MatchesAll(filters, docs[0]) then [docs[0]] else []) + SelectAll(filters, docs[1..])
  }

  lemma {:induction false} SelectAfterFilter(f: QueryFilter, rest: seq<QueryFilter>, docs: seq<Doc>)
    ensures SelectAll(rest, FilterDocs(f, docs)) == SelectAll([f] + rest, docs)
    decreases |docs|
  {
    if |docs| > 0 {
      var d, t := docs[0], docs[1..];
      SelectAfterFilter(f, rest, t);
      MatchesAllCons(f, rest, d);
      if Matches(f, d) {
        assert FilterDocs(f, docs) == [d] + FilterDocs(f, t);
        SelectAllCons(rest, d, FilterDocs(f, t));
      } else {
        assert FilterDocs(f, docs) == FilterDocs(f, t);
      }
    }
  }

  lemma SelectAllCons(filters: seq<QueryFilter>, d: Doc, t: seq<Doc>)
    ensures SelectAll(filters, [d] + t) == (if MatchesAll(filters, d) then [d] else []) + SelectAll(filters, t)
  {
    assert ([d] + t)[0] == d && ([d] + t)[1..] == t;
  }

  lemma MatchesAllCons(f: QueryFilter, rest: seq<QueryFilter>, d: Doc)
    ensures MatchesAll([f] + rest, d) <==> Matches(f, d) && MatchesAll(rest, d)
  {
    if Matches(f, d) && MatchesAll(rest, d) {
      forall i | 0 <= i < |[f] + rest| ensures Matches(([f] + rest)[i], d) {
        if i > 0 {
          assert ([f] + rest)[i] == rest[i - 1];
        }
      }
    }
    if MatchesAll([f] + rest, d) {
      assert ([f] + rest)[0] == f;
      forall i | 0 <= i < |rest| ensures Matches(rest[i], d) {
        assert ([f] + rest)[i + 1] == rest[i];
      }
    }
  }

  lemma {:induction false} SelectNone(docs: seq<Doc>)
    ensures SelectAll([], docs) == docs
    decreases |docs|
  {
    if |docs| > 0 {
      SelectNone(docs[1..]);
      assert docs == [docs[0]] + docs[1..];
    }
  }

  /** One planned Filter operation applies its filter. */
  lemma FilterStep(e: SE.Engine, f: QueryFilter, docs: seq<Doc>)
    ensures ExecuteOperation(e, FilterOperation(f), docs) == FilterDocs(f, docs)
  {
  }

  /** A run of Filter operations keeps exactly the documents that satisfy all of their filters. */
  lemma {:induction false} FiltersConjoin(e: SE.Engine, filters: seq<QueryFilter>, docs: seq<Doc>)
    ensures Fold(e, FilterOperations(filters), docs) == SelectAll(filters, docs)
    decreases |filters|
  {
    if |filters| == 0 {
      SelectNone(docs);
    } else {
      var ops := FilterOperations(filters);
      assert ops[0] == FilterOperation(filters[0]);
      assert ops[1..] == FilterOperations(filters[1..]);
      FilterStep(e, filters[0], docs);
      assert Fold(e, ops, docs) == Fold(e, ops[1..], FilterDocs(filters[0], docs));
      FiltersConjoin(e, filters[1..], FilterDocs(filters[0], docs));
      SelectAfterFilter(filters[0], filters[1..], docs);
      assert [filters[0]] + filters[1..] == filters;
    }
  }

  // ---------------------------------------------------------------------
  // A planned query, end to end
  // ---------------------------------------------------------------------

  /** The projection stage: only a non-empty field list projects. */
  function Projected(projection: Option<seq<string>>, docs: seq<Doc>): seq<Doc> {
    if HasProjection(projection) then ExecuteProjection(projection, docs) else docs
  }

  /** The sort stage: only a requested sort sorts. */
  function Sorted(sort: Option<SortSpec>, docs: seq<Doc>): seq<Doc> {
    if sort.Some? then ExecuteSort(Some(sort.value.field), Some(sort.value.order), docs) else docs
  }

  /** The limit stage: only a non-zero count limits. */
  function Limited(limit: Option<int>, docs: seq<Doc>): seq<Doc> {
    if HasLimit(limit) then ExecuteLimit(limit, docs) else docs
  }

  /**
   * Executing the plan `createPlan` builds means: list the collection, keep
   * the documents that satisfy every filter, project, sort, then limit, each
   * step only when the request asked for it.
   */
  lemma PlannedQuery(e: SE.Engine, collection: string, filters: Option<seq<QueryFilter>>,
                     projection: Option<seq<string>>, sort: Option<SortSpec>, limit: Option<int>)
    ensures Fold(e, Plan(collection, filters, projection, sort, limit).operations, [])
         == Limited(limit, Sorted(sort, Projected(projection,
              SelectAll(FilterList(filters), ExecuteScan(e, Some(collection))))))
  {
    var fs := FilterList(filters);
    var head := [Scan(Some(collection))] + FilterOperations(fs);
    var c := if HasProjection(projection) then [Projection(projection)] else [];
    var d := if sort.Some? then [Sort(Some(sort.value.field), Some(sort.value.order))] else [];
    var l := if HasLimit(limit) then [Limit(limit)] else [];
    PlanSplits(collection, filters, projection, sort, limit);
    var s0 := Fold(e, head, []);
    var s1 := Fold(e, c, s0);
    var s2 := Fold(e, d, s1);
    calc {
      Fold(e, Plan(collection, filters, projection, sort, limit).operations, []);
      Fold(e, head + (c + (d + l)), []);
    == { FoldAppend(e, head, c + (d + l), []); }
      Fold(e, c + (d + l), s0);
    == { FoldAppend(e, c, d + l, s0); }
      Fold(e, d + l, s1);
    == { FoldAppend(e, d, l, s1); }
      Fold(e, l, s2);
    }
    ScanThenFilters(e, collection, fs);
    ProjectionStage(e, projection, s0);
    SortStage(e, sort, s1);
    LimitStage(e, limit, s2);
  }

  lemma PlanSplits(collection: string, filters: Option<seq<QueryFilter>>,
                   projection: Option<seq<string>>, sort: Option<SortSpec>, limit: Option<int>)
    ensures Plan(collection, filters, projection, sort, limit).operations
         == ([Scan(Some(collection))] + FilterOperations(FilterList(filters)))
            + ((if HasProjection(projection) then [Projection(projection)] else [])
               + ((if sort.Some? then [Sort(Some(sort.value.field), Some(sort.value.order))] else [])
                  + (if HasLimit(limit) then [Limit(limit)] else [])))
  {
  }

  lemma ProjectionStage(e: SE.Engine, projection: Option<seq<string>>, docs: seq<Doc>)
    ensures Fold(e, if HasProjection(projection) then [Projection(projection)] else [], docs)
         == Projected(projection, docs)
  {
  }

  lemma SortStage(e: SE.Engine, sort: Option<SortSpec>, docs: seq<Doc>)
    ensures Fold(e, if sort.Some? then [Sort(Some(sort.value.field), Some(sort.value.order))] else [], docs)
         == Sorted(sort, docs)
  {
  }

  lemma LimitStage(e: SE.Engine, limit: Option<int>, docs: seq<Doc>)
    ensures Fold(e, if HasLimit(limit) then [Limit(limit)] else [], docs) == Limited(limit, docs)
  {
  }

  lemma ScanThenFilters(e: SE.Engine, collection: string, fs: seq<QueryFilter>)
    ensures Fold(e, [Scan(Some(collection))] + FilterOperations(fs), [])
         == SelectAll(fs, ExecuteScan(e, Some(collection)))
  {
    FoldAppend(e, [Scan(Some(collection))], FilterOperations(fs), []);
    FiltersConjoin(e, fs, ExecuteScan(e, Some(collection)));
  }

  // ---------------------------------------------------------------------
  // Single operations
  // ---------------------------------------------------------------------

  /**
   * Projection never adds a field the document lacks: projecting `age` from
   * `{_id: "a"}` gives `{_id: "a"}` back, with no default for `age`.
   */
  lemma ProjectionOnMissingField(doc: Doc, fields: seq<string>)
    ensures forall f :: f !in doc ==> f !in ProjectDoc(doc, fields)
    ensures ProjectDoc(map["_id" := Str("a")], ["age"]) == map["_id" := Str("a")]
  {
  }

  /** Projecting twice with the same fields is projecting once. */
  lemma ProjectionIdempotent(doc: Doc, fields: seq<string>)
    ensures ProjectDoc(ProjectDoc(doc, fields), fields) == ProjectDoc(doc, fields)
  {
  }

  /** A projected document keeps the identifier of its source. */
  lemma ProjectionKeepsId(doc: Doc, fields: seq<string>)
    ensures Lookup(ProjectDoc(doc, fields), IdField) == Lookup(doc, IdField)
  {
  }

  /**
   * Sort with a field returns a permutation of its input, ordered by the
   * field's values (descending exactly when the order is "desc") when they
   * are comparable, and stable: documents sharing a value keep their order.
   */
  lemma SortIsStablePermutation(field: string, order: Option<string>, docs: seq<Doc>)
    requires field != ""
    ensures multiset(ExecuteSort(Some(field), order, docs)) == multiset(docs)
    ensures DocSort.AllComparable(field, docs) ==>
      DocSort.InOrder(field, order == Some("desc"), ExecuteSort(Some(field), order, docs))
    ensures DocSort.AllComparable(field, docs) ==> forall k ::
      DocSort.WithKey(field, k, ExecuteSort(Some(field), order, docs)) == DocSort.WithKey(field, k, docs)
  {
    if DocSort.AllComparable(field, docs) {
      DocSort.SortByInOrder(field, order == Some("desc"), docs);
      forall k {
        DocSort.SortByStable(field, order == Some("desc"), docs, k);
      }
    }
  }

  /** IndexLookup yields no documents, and an unknown operation passes its input through. */
  lemma PlaceholderOperations(e: SE.Engine, field: Option<string>, value: Option<Value>, name: string, docs: seq<Doc>)
    ensures ExecuteOperation(e, IndexLookup(field, value), docs) == []
    ensures ExecuteOperation(e, Unknown(name), docs) == docs
  {
  }

  /** Scan ignores its input, and a missing or empty collection name lists nothing. */
  lemma ScanIgnoresInput(e: SE.Engine, c: Option<string>, a: seq<Doc>, b: seq<Doc>)
    ensures ExecuteOperation(e, Scan(c), a) == ExecuteOperation(e, Scan(c), b)
    ensures c.None? || c.value == "" ==> ExecuteOperation(e, Scan(c), a) == []
  {
  }

  function Person(id: string, age: int): Doc {
    map["_id" := Str(id), "age" := Num(age)]
  }

  /** An engine whose "people" collection holds ages 30, 20 and 25 under ids "a", "b", "c". */
  function PeopleEngine(): (e: SE.Engine)
    ensures SE.ListDocuments(e, "people") == [Person("a", 30), Person("b", 20), Person("c", 25)]
  {
    var people := People();
    var collections: map<string, DS.Collection> := map["people" := people];
    var store: DS.Store := OM.RawMap(["people"], collections);
    assert DS.List(store, "people") == OM.Values(people);
    SE.NewEngine(SE.EngineConfig(false, false)).(store := store)
  }

  function People(): (c: DS.Collection)
    ensures OM.Values(c) == [Person("a", 30), Person("b", 20), Person("c", 25)]
  {
    var keys := ["a", "b", "c"];
    var entries := map["a" := Person("a", 30), "b" := Person("b", 20), "c" := Person("c", 25)];
    assert OM.Distinct(keys) by {
      assert keys[0] != keys[1] && keys[0] != keys[2] && keys[1] != keys[2] by {
        assert "a"[0] != "b"[0] && "a"[0] != "c"[0] && "b"[0] != "c"[0];
      }
    }
    OM.RawMap(keys, entries)
  }

  /** "age gte 21" keeps exactly the people aged 21 or more. */
  lemma AgeAtLeast21(id: string, age: int)
    ensures MatchesAll([QueryFilter("age", "gte", Num(21))], Person(id, age)) <==> age >= 21
  {
    var fs := [QueryFilter("age", "gte", Num(21))];
    assert Lookup(Person(id, age), "age") == Some(Num(age));
    assert MatchesAll(fs, Person(id, age)) <==> Matches(fs[0], Person(id, age));
  }

  lemma PeopleSelected()
    ensures SelectAll([QueryFilter("age", "gte", Num(21))], [Person("a", 30), Person("b", 20), Person("c", 25)])
         == [Person("a", 30), Person("c", 25)]
  {
    var a, b, c := Person("a", 30), Person("b", 20), Person("c", 25);
    AgeAtLeast21("a", 30);
    AgeAtLeast21("b", 20);
    AgeAtLeast21("c", 25);
    assert [a, b, c][1..] == [b, c] && [b, c][1..] == [c] && [c][1..] == [];
  }

  lemma PeopleSorted()
    ensures DocSort.SortBy("age", false, [Person("a", 30), Person("c", 25)]) == [Person("c", 25), Person("a", 30)]
  {
    var a, c := Person("a", 30), Person("c", 25);
    assert [a, c][..1] == [a] && [a][..0] == [];
    assert DocSort.Insert("age", false, a, []) == [a];
    assert Lookup(a, "age") == Some(Num(30)) && Lookup(c, "age") == Some(Num(25));
    assert DocSort.Precedes("age", false, c, a);
  }

  lemma LimitCoversAll(n: int, docs: seq<Doc>)
    requires n >= |docs|
    ensures Limited(Some(n), docs) == docs
  {
  }

  lemma AscendingSort(field: string, docs: seq<Doc>)
    requires field != ""
    ensures ExecuteSort(Some(field), Some("asc"), docs) == DocSort.SortBy(field, false, docs)
  {
    assert "asc"[0] != "desc"[0];
  }

  /**
   * Three people aged 30, 20 and 25; the query "age gte 21, sort by age
   * ascending, limit 2" returns the 25-year-old and then the 30-year-old.
   */
  lemma AgeQueryExample()
    ensures Fold(PeopleEngine(),
                 Plan("people", Some([QueryFilter("age", "gte", Num(21))]), None,
                      Some(SortSpec("age", "asc")), Some(2)).operations, [])
         == [Person("c", 25), Person("a", 30)]
  {
    var e := PeopleEngine();
    var fs := [QueryFilter("age", "gte", Num(21))];
    var sort := SortSpec("age", "asc");
    PlannedQuery(e, "people", Some(fs), None, Some(sort), Some(2));
    var listed := ExecuteScan(e, Some("people"));
    assert listed == [Person("a", 30), Person("b", 20), Person("c", 25)];
    PeopleSelected();
    var selected := SelectAll(fs, listed);
    assert Projected(None, selected) == selected;
    AscendingSort("age", selected);
    PeopleSorted();
    var sorted := Sorted(Some(sort), selected);
    assert sorted == [Person("c", 25), Person("a", 30)];
    LimitCoversAll(2, sorted);
  }
}
