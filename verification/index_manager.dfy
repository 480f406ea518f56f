/**
 * The index manager: a map from the key `collection:field` to an index, and
 * an index maps the string form of a field value to the ids holding it. Index
 * creation and collection-wide dropping work; the per-document hooks are
 * placeholders that leave the state as it is, so no index ever gains an entry.
 */
module IndexManager {
  import opened Maybe
  import opened Json

  datatype IndexDefinition = IndexDefinition(collection: string, field: string, unique: Option<bool>)

  /** One index: string form of a value -> ids of the documents holding it. */
  type Index = map<string, seq<string>>

  datatype IndexState = IndexState(indexes: map<string, Index>)

  function NewIndexState(): (r: IndexState)
    ensures r.indexes == map[]
  {
    IndexState(map[])
  }

  /** `getIndexKey`. */
  function IndexKey(collection: string, field: string): (r: string)
    ensures |r| == |collection| + 1 + |field|
    ensures r[..|collection| + 1] == collection + ":"
    ensures r[|collection| + 1..] == field
  {
    collection + ":" + field
  }

  /** `createIndex`: add an empty index under the key unless one is there already. */
  function CreateIndex(st: IndexState, definition: IndexDefinition): (r: IndexState)
    ensures IndexKey(definition.collection, definition.field) in r.indexes
    ensures r.indexes.Keys == st.indexes.Keys + {IndexKey(definition.collection, definition.field)}
    ensures forall k :: k in st.indexes ==> r.indexes[k] == st.indexes[k]
    ensures IndexKey(definition.collection, definition.field) !in st.indexes ==>
      r.indexes[IndexKey(definition.collection, definition.field)] == map[]
  {
    var key := IndexKey(definition.collection, definition.field);
    if key in st.indexes then st else IndexState(st.indexes[key := map[]])
  }

  /** `indexDocument`: a placeholder. */
  function IndexDocument(st: IndexState, collection: string, document: Doc): (r: IndexState)
    ensures r == st
  {
    st
  }

  /** `removeDocument`: a placeholder. */
  function RemoveDocument(st: IndexState, collection: string, documentId: string): (r: IndexState)
    ensures r == st
  {
    st
  }

  /** The string `reindexDocument` passes on as `document._id`. */
  function DocumentId(document: Doc): string {
    ToJsString(Lookup(document, IdField))
  }

  /** `reindexDocument`: remove, then index again. */
  function ReindexDocument(st: IndexState, collection: string, document: Doc): (r: IndexState)
    ensures r == st
  {
    IndexDocument(RemoveDocument(st, collection, DocumentId(document)), collection, document)
  }

  /** `dropCollectionIndexes`: drop exactly the keys that start with `collection:`. */
  function DropCollectionIndexes(st: IndexState, collection: string): (r: IndexState)
    ensures forall k :: k in r.indexes <==> k in st.indexes && !IsPrefix(collection + ":", k)
    ensures forall k :: k in r.indexes ==> r.indexes[k] == st.indexes[k]
  {
    IndexState(map k | k in st.indexes && !IsPrefix(collection + ":", k) :: st.indexes[k])
  }

  /** `findByIndex`: the ids under `String(value)`, or `[]` when there is no such index or entry. */
  function FindByIndex(st: IndexState, collection: string, field: string, value: Option<Value>): (r: seq<string>)
    ensures IndexKey(collection, field) !in st.indexes ==> r == []
    ensures (IndexKey(collection, field) in st.indexes &&
             ToJsString(value) in st.indexes[IndexKey(collection, field)]) ==>
      r == st.indexes[IndexKey(collection, field)][ToJsString(value)]
    ensures (IndexKey(collection, field) in st.indexes &&
             ToJsString(value) !in st.indexes[IndexKey(collection, field)]) ==> r == []
  {
    var key := IndexKey(collection, field);
    if key !in st.indexes then []
    else
      var index := st.indexes[key];
      if ToJsString(value) in index then index[ToJsString(value)] else []
  }

  // ---------------------------------------------------------------------
  // Properties
  // ---------------------------------------------------------------------

  /** No index holds an entry: nothing in this manager ever inserts one. */
  ghost predicate AllIndexesEmpty(st: IndexState) {
    forall k :: k in st.indexes ==> st.indexes[k] == map[]
  }

  /** Creating an index twice is the same as creating it once. */
  lemma CreateIndexIdempotent(st: IndexState, definition: IndexDefinition)
    ensures CreateIndex(CreateIndex(st, definition), definition) == CreateIndex(st, definition)
  {
  }

  /** An existing index is never replaced by `createIndex`. */
  lemma CreateIndexKeepsExisting(st: IndexState, definition: IndexDefinition)
    requires IndexKey(definition.collection, definition.field) in st.indexes
    ensures CreateIndex(st, definition) == st
  {
  }

  /** The document hooks leave the index state unchanged. */
  lemma HooksAreInert(st: IndexState, collection: string, document: Doc, id: string)
    ensures IndexDocument(st, collection, document) == st
    ensures RemoveDocument(st, collection, id) == st
    ensures ReindexDocument(st, collection, document) == st
  {
  }

  /** Every operation keeps all indexes empty. */
  lemma OperationsKeepIndexesEmpty(st: IndexState, definition: IndexDefinition, collection: string)
    requires AllIndexesEmpty(st)
    ensures AllIndexesEmpty(CreateIndex(st, definition))
    ensures AllIndexesEmpty(DropCollectionIndexes(st, collection))
  {
  }

  /** Hence every lookup finds nothing. */
  lemma FindByIndexAlwaysEmpty(st: IndexState, collection: string, field: string, value: Option<Value>)
    requires AllIndexesEmpty(st)
    ensures FindByIndex(st, collection, field, value) == []
  {
  }

  /** Dropping a collection drops every index defined on it. */
  lemma DropRemovesOwnIndexes(st: IndexState, collection: string, field: string)
    ensures IndexKey(collection, field) !in DropCollectionIndexes(st, collection).indexes
  {
    assert IsPrefix(collection + ":", IndexKey(collection, field));
  }

  /**
   * Dropping collection `c` also drops the indexes of a collection named
   * `c:x`, since their keys start with `c:` as well.
   */
  lemma DropAlsoRemovesColonNamedCollections(st: IndexState, c: string, x: string, field: string)
    ensures IndexKey(c + ":" + x, field) !in DropCollectionIndexes(st, c).indexes
  {
    var key := IndexKey(c + ":" + x, field);
    assert key[..|c + ":"|] == c + ":";
  }

  /** Indexes of a collection `d` whose name does not start with `c:` and differs from `c` survive the drop of `c`. */
  lemma DropKeepsOtherCollections(st: IndexState, c: string, d: string, field: string)
    requires IndexKey(d, field) in st.indexes
    requires d != c && !IsPrefix(c + ":", d)
    requires |d| >= |c|
    ensures IndexKey(d, field) in DropCollectionIndexes(st, c).indexes
  {
    var key := IndexKey(d, field);
    var p := c + ":";
    if |d| == |c| {
      var i :| 0 <= i < |c| && d[i] != c[i];
      assert key[i] == d[i] && p[i] == c[i];
    } else {
      var i :| 0 <= i < |p| && d[i] != p[i];
      assert key[i] == d[i];
    }
  }
}
