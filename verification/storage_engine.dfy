/**
 * The storage engine: the facade over the document store. Each mutating call
 * first runs the store operation and then, only when `enableIndexing` is set,
 * calls the matching index-manager hook. `enableTransactions` is accepted but
 * never read, and the transaction manager is never called.
 *
 * A mutating call returns, besides the new engine and its result, the list of
 * index-manager calls it made, so that the gating by `enableIndexing` can be
 * stated; the index state is those calls applied in order.
 */
module StorageEngine {
  import opened Maybe
  import opened Json
  import DS = DocumentStore
  import IM = IndexManager
  import TM = TransactionManager
  import OM = OrderedMap

  datatype EngineConfig = EngineConfig(enableIndexing: bool, enableTransactions: bool)

  /** A call from the engine into the index manager. */
  datatype IndexCall =
    | IndexDocumentCall(collection: string, document: Doc)
    | ReindexDocumentCall(collection: string, document: Doc)
    | RemoveDocumentCall(collection: string, documentId: string)
    | DropCollectionIndexesCall(collection: string)

  datatype Engine = Engine(
    config: EngineConfig,
    store: DS.Store,
    indexes: IM.IndexState,
    transactions: TM.Manager)

  /** The engine after a mutating call, the call's result, and the index-manager calls it made. */
  datatype Step<R> = Step(engine: Engine, result: R, calls: seq<IndexCall>)

  function NewEngine(config: EngineConfig): (r: Engine)
    ensures r.config == config && DS.GetCollections(r.store) == []
    ensures r.store == DS.NewStore() && r.indexes == IM.NewIndexState() && r.transactions == TM.NewManager()
    ensures IM.AllIndexesEmpty(r.indexes) && DS.IdsConsistent(r.store)
    ensures r.transactions.transactions == map[] && r.transactions.active.None?
  {
    Engine(config, DS.NewStore(), IM.NewIndexState(), TM.NewManager())
  }

  function ApplyCall(st: IM.IndexState, call: IndexCall): IM.IndexState {
    match call
    case IndexDocumentCall(c, d) => IM.IndexDocument(st, c, d)
    case ReindexDocumentCall(c, d) => IM.ReindexDocument(st, c, d)
    case RemoveDocumentCall(c, id) => IM.RemoveDocument(st, c, id)
    case DropCollectionIndexesCall(c) => IM.DropCollectionIndexes(st, c)
  }

  /** The index state after the calls, in order. Only dropping collection indexes changes it. */
  function ApplyCalls(st: IM.IndexState, calls: seq<IndexCall>): (r: IM.IndexState)
    ensures (forall i :: 0 <= i < |calls| ==> !calls[i].DropCollectionIndexesCall?) ==> r == st
    decreases |calls|
  {
    if |calls| == 0 then st else ApplyCalls(ApplyCall(st, calls[0]), calls[1..])
  }

  lemma ApplySingleCall(st: IM.IndexState, call: IndexCall)
    ensures ApplyCalls(st, [call]) == ApplyCall(st, call)
  {
    assert [call][1..] == [];
  }

  /** The hook call, made only when indexing is enabled. */
  function Hook(e: Engine, call: IndexCall): seq<IndexCall> {
    if e.config.enableIndexing then [call] else []
  }

  /** The engine with its new store and the hook calls applied, as a `Step`. */
  function Settle<R>(e: Engine, store: DS.Store, result: R, calls: seq<IndexCall>): Step<R> {
    Step(e.(store := store, indexes := ApplyCalls(e.indexes, calls)), result, calls)
  }

  /** `createDocument`: the store's `create` result; then `indexDocument` when indexing. */
  function CreateDocument(e: Engine, collection: string, fields: Doc, id: string): (r: Step<Doc>)
    ensures r.result == DS.Create(e.store, collection, fields, id).value
    ensures r.engine.store == DS.Create(e.store, collection, fields, id).store
    ensures r.calls == (if e.config.enableIndexing then [IndexDocumentCall(collection, r.result)] else [])
    ensures r.engine.indexes == e.indexes
    ensures r.engine.config == e.config && r.engine.transactions == e.transactions
  {
    var s := DS.Create(e.store, collection, fields, id);
    Settle(e, s.store, s.value, Hook(e, IndexDocumentCall(collection, s.value)))
  }

  /** `getDocument`: straight to the store. */
  function GetDocument(e: Engine, collection: string, id: string): (r: Option<Doc>)
    ensures r.Some? <==> collection in e.store.entries && id in e.store.entries[collection].entries
    ensures r.Some? ==> r.value == e.store.entries[collection].entries[id]
  {
    DS.Get(e.store, collection, id)
  }

  /** `updateDocument`: the store's result; `reindexDocument` only for a found document when indexing. */
  function UpdateDocument(e: Engine, collection: string, id: string, updates: Doc): (r: Step<Option<Doc>>)
    ensures r.result == DS.Update(e.store, collection, id, updates).value
    ensures r.engine.store == DS.Update(e.store, collection, id, updates).store
    ensures r.calls == (if r.result.Some? && e.config.enableIndexing
                        then [ReindexDocumentCall(collection, r.result.value)] else [])
    ensures r.engine.indexes == e.indexes
    ensures r.engine.config == e.config && r.engine.transactions == e.transactions
  {
    var s := DS.Update(e.store, collection, id, updates);
    var calls := if s.value.Some? then Hook(e, ReindexDocumentCall(collection, s.value.value)) else [];
    Settle(e, s.store, s.value, calls)
  }

  /** `deleteDocument`: the store's boolean; `removeDocument` only after a removal when indexing. */
  function DeleteDocument(e: Engine, collection: string, id: string): (r: Step<bool>)
    ensures r.result == DS.Delete(e.store, collection, id).value
    ensures r.engine.store == DS.Delete(e.store, collection, id).store
    ensures r.calls == (if r.result && e.config.enableIndexing then [RemoveDocumentCall(collection, id)] else [])
    ensures r.engine.indexes == e.indexes
    ensures r.engine.config == e.config && r.engine.transactions == e.transactions
  {
    var s := DS.Delete(e.store, collection, id);
    var calls := if s.value then Hook(e, RemoveDocumentCall(collection, id)) else [];
    Settle(e, s.store, s.value, calls)
  }

  /** `listDocuments`: straight to the store. */
  function ListDocuments(e: Engine, collection: string): (r: seq<Doc>)
    ensures collection !in e.store.entries ==> r == []
    ensures collection in e.store.entries ==>
      var coll := e.store.entries[collection];
      |r| == |coll.keys| && forall i :: 0 <= i < |r| ==> r[i] == coll.entries[coll.keys[i]]
  {
    DS.List(e.store, collection)
  }

  /** `collectionExists`: straight to the store. */
  predicate CollectionExists(e: Engine, collection: string)
    ensures CollectionExists(e, collection) <==> collection in GetCollections(e)
  {
    DS.HasCollection(e.store, collection)
  }

  /** `getCollections`: straight to the store. */
  function GetCollections(e: Engine): (r: seq<string>)
    ensures r == DS.GetCollections(e.store)
    ensures forall c :: c in r <==> c in e.store.entries
    ensures OM.Distinct(r)
  {
    DS.GetCollections(e.store)
  }

  /**
   * `dropCollection`: when indexing, `dropCollectionIndexes` runs first,
   * whether or not the collection exists; the result is the store's.
   */
  function DropCollection(e: Engine, collection: string): (r: Step<bool>)
    ensures r.result == DS.DropCollection(e.store, collection).value
    ensures r.engine.store == DS.DropCollection(e.store, collection).store
    ensures r.calls == (if e.config.enableIndexing then [DropCollectionIndexesCall(collection)] else [])
    ensures r.engine.indexes == (if e.config.enableIndexing
                                 then IM.DropCollectionIndexes(e.indexes, collection) else e.indexes)
    ensures r.engine.config == e.config && r.engine.transactions == e.transactions
  {
    var calls := Hook(e, DropCollectionIndexesCall(collection));
    var s := DS.DropCollection(e.store, collection);
    ApplySingleCall(e.indexes, DropCollectionIndexesCall(collection));
    Settle(e, s.store, s.value, calls)
  }

  // ---------------------------------------------------------------------
  // The engine's mutating surface as one request type
  // ---------------------------------------------------------------------

  datatype Request =
    | CreateRequest(collection: string, fields: Doc, id: string)
    | UpdateRequest(collection: string, id: string, updates: Doc)
    | DeleteRequest(collection: string, id: string)
    | DropRequest(collection: string)

  datatype Reply = DocReply(doc: Doc) | MaybeDocReply(found: Option<Doc>) | BoolReply(ok: bool)

  function Perform(e: Engine, req: Request): Step<Reply> {
    match req
    case CreateRequest(c, f, id) =>
      var s := CreateDocument(e, c, f, id); Step(s.engine, DocReply(s.result), s.calls)
    case UpdateRequest(c, id, u) =>
      var s := UpdateDocument(e, c, id, u); Step(s.engine, MaybeDocReply(s.result), s.calls)
    case DeleteRequest(c, id) =>
      var s := DeleteDocument(e, c, id); Step(s.engine, BoolReply(s.result), s.calls)
    case DropRequest(c) =>
      var s := DropCollection(e, c); Step(s.engine, BoolReply(s.result), s.calls)
  }

  /** Apply requests first to last; the final engine and the replies in order. */
  function PerformAll(e: Engine, reqs: seq<Request>): (Engine, seq<Reply>)
    decreases |reqs|
  {
    if |reqs| == 0 then (e, [])
    else
      var s := Perform(e, reqs[0]);
      var rest := PerformAll(s.engine, reqs[1..]);
      (rest.0, [s.result] + rest.1)
  }

  function WithTransactionsFlag(e: Engine, flag: bool): Engine {
    e.(config := e.config.(enableTransactions := flag))
  }

  /**
   * `enableTransactions` changes nothing: for any sequence of requests the
   * replies are the same and the engines differ only in that flag.
   */
  lemma {:induction false} TransactionsFlagIsInert(e: Engine, reqs: seq<Request>, flag: bool)
    ensures PerformAll(WithTransactionsFlag(e, flag), reqs).1 == PerformAll(e, reqs).1
    ensures PerformAll(WithTransactionsFlag(e, flag), reqs).0 == WithTransactionsFlag(PerformAll(e, reqs).0, flag)
    decreases |reqs|
  {
    if |reqs| > 0 {
      var s := Perform(e, reqs[0]);
      assert Perform(WithTransactionsFlag(e, flag), reqs[0]).engine == WithTransactionsFlag(s.engine, flag);
      TransactionsFlagIsInert(s.engine, reqs[1..], flag);
    }
  }

  /** The transaction manager is never called: its state survives every request sequence. */
  lemma {:induction false} TransactionsNeverTouched(e: Engine, reqs: seq<Request>)
    ensures PerformAll(e, reqs).0.transactions == e.transactions
    ensures PerformAll(e, reqs).0.config == e.config
    decreases |reqs|
  {
    if |reqs| > 0 {
      TransactionsNeverTouched(Perform(e, reqs[0]).engine, reqs[1..]);
    }
  }

  /** With indexing off the engine never calls the index manager. */
  lemma IndexingOffMeansNoCalls(e: Engine, req: Request)
    requires !e.config.enableIndexing
    ensures Perform(e, req).calls == []
    ensures Perform(e, req).engine.indexes == e.indexes
  {
  }

  /** Every document the engine stores carries its own id, from a fresh engine on. */
  lemma {:induction false} StoredDocumentsCarryTheirIds(e: Engine, reqs: seq<Request>)
    requires DS.IdsConsistent(e.store)
    ensures DS.IdsConsistent(PerformAll(e, reqs).0.store)
    decreases |reqs|
  {
    if |reqs| > 0 {
      PerformStep(e, reqs[0]);
      StoredDocumentsCarryTheirIds(Perform(e, reqs[0]).engine, reqs[1..]);
    }
  }

  lemma PerformStep(e: Engine, req: Request)
    requires DS.IdsConsistent(e.store)
    ensures DS.IdsConsistent(Perform(e, req).engine.store)
  {
  }

  /** No request ever puts an entry into an index, so every index lookup finds nothing. */
  lemma {:induction false} IndexesStayEmpty(e: Engine, reqs: seq<Request>)
    requires IM.AllIndexesEmpty(e.indexes)
    ensures IM.AllIndexesEmpty(PerformAll(e, reqs).0.indexes)
    decreases |reqs|
  {
    if |reqs| > 0 {
      var s := Perform(e, reqs[0]);
      if reqs[0].DropRequest? {
        IM.OperationsKeepIndexesEmpty(e.indexes, IM.IndexDefinition("", "", None), reqs[0].collection);
      }
      IndexesStayEmpty(s.engine, reqs[1..]);
    }
  }
}
