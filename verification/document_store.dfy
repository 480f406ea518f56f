/**
 * The in-memory document store: collection name -> (document id -> document),
 * both levels insertion-ordered like JavaScript's `Map`. Every operation is a
 * pure state transformer. Missing data never fails: it yields `None`, `false`
 * or an empty listing.
 *
 * `randomUUID` is not computed: `Create` takes the new identifier as a
 * parameter. The functions accept any identifier (a colliding one overwrites,
 * as `Map.set` would); the lemmas that need a fresh one say so.
 */
module DocumentStore {
  import opened Maybe
  import opened Json
  import OM = OrderedMap

  type Collection = OM.OMap<Doc>
  type Store = OM.OMap<Collection>

  /** The store after a mutating call, and the value the call returned. */
  datatype Step<R> = Step(store: Store, value: R)

  function NewStore(): (r: Store)
    ensures r.keys == []
  {
    OM.Empty()
  }

  /** Every stored document carries the key it is stored under as its `_id`. */
  ghost predicate IdsConsistent(s: Store) {
    forall c, id :: c in s.entries && id in s.entries[c].entries ==>
      Lookup(s.entries[c].entries[id], IdField) == Some(Str(id))
  }

  /** `get`: the stored document, or `None` when the collection or the id is absent. */
  function Get(s: Store, collection: string, id: string): (r: Option<Doc>)
    ensures r.Some? <==> collection in s.entries && id in s.entries[collection].entries
    ensures r.Some? ==> r.value == s.entries[collection].entries[id]
  {
    if collection !in s.entries then None
    else OM.Get(s.entries[collection], id)
  }

  /** `{ ...doc, _id: id }`: the caller's fields with `_id` forced to `id`. */
  function WithId(fields: Doc, id: string): (r: Doc)
    ensures Lookup(r, IdField) == Some(Str(id))
    ensures forall f :: f != IdField ==> Lookup(r, f) == Lookup(fields, f)
  {
    fields[IdField := Str(id)]
  }

  /**
   * `create`: add the collection (empty) if absent, then store the caller's
   * fields under the new identifier with `_id` set to it, and return that
   * document. Any `_id` among the caller's fields is overridden.
   */
  function Create(s: Store, collection: string, fields: Doc, id: string): (r: Step<Doc>)
    ensures r.value == WithId(fields, id)
    ensures Get(r.store, collection, id) == Some(r.value)
    ensures forall c :: c != collection ==> OM.Get(r.store, c) == OM.Get(s, c)
    ensures forall other :: other != id ==> Get(r.store, collection, other) == Get(s, collection, other)
    ensures collection in s.entries ==> r.store.keys == s.keys
    ensures collection !in s.entries ==> r.store.keys == s.keys + [collection]
    ensures collection !in s.entries ==> r.store.entries[collection].keys == [id]
    ensures collection !in s.entries ==> GetCollections(r.store) == GetCollections(s) + [collection]
    ensures collection in s.entries ==> GetCollections(r.store) == GetCollections(s)
    ensures IdsConsistent(s) ==> IdsConsistent(r.store)
  {
    var doc := WithId(fields, id);
    Step(Put(WithCollection(s, collection), collection, id, doc), doc)
  }

  /** The store with `collection` present: added empty, last, when it was absent. */
  function WithCollection(s: Store, collection: string): (r: Store)
    ensures collection in r.entries
    ensures collection in s.entries ==> r == s
    ensures collection !in s.entries ==> r.keys == s.keys + [collection] && r.entries[collection].keys == []
    ensures forall c :: c != collection ==> OM.Get(r, c) == OM.Get(s, c)
    ensures IdsConsistent(s) ==> IdsConsistent(r)
  {
    if collection in s.entries then s else OM.Set(s, collection, OM.Empty())
  }

  /** `collectionMap.set(id, doc)` on a present collection. */
  function Put(s: Store, collection: string, id: string, doc: Doc): (r: Store)
    requires collection in s.entries
    ensures r.keys == s.keys
    ensures r.entries[collection] == OM.Set(s.entries[collection], id, doc)
    ensures forall c :: c != collection ==> OM.Get(r, c) == OM.Get(s, c)
    ensures IdsConsistent(s) && Lookup(doc, IdField) == Some(Str(id)) ==> IdsConsistent(r)
  {
    OM.Set(s, collection, OM.Set(s.entries[collection], id, doc))
  }

  /** `{ ...existing, ...updates, _id: id }`. */
  function Merge(existing: Doc, updates: Doc, id: string): (r: Doc)
    ensures Lookup(r, IdField) == Some(Str(id))
    ensures forall f :: f != IdField && f in updates ==> Lookup(r, f) == Some(updates[f])
    ensures forall f :: f != IdField && f !in updates ==> Lookup(r, f) == Lookup(existing, f)
  {
    (existing + updates)[IdField := Str(id)]
  }

  /**
   * `update`: merge `updates` over the stored document, keep `_id` equal to
   * `id`, store the result where the old one stood and return it. A missing
   * collection or id returns `None` and changes nothing.
   */
  function Update(s: Store, collection: string, id: string, updates: Doc): (r: Step<Option<Doc>>)
    ensures r.value.None? <==> Get(s, collection, id).None?
    ensures r.value.None? ==> r.store == s
    ensures r.value.Some? ==> r.value.value == Merge(Get(s, collection, id).value, updates, id)
    ensures r.value.Some? ==> Get(r.store, collection, id) == r.value
    ensures forall other :: other != id ==> Get(r.store, collection, other) == Get(s, collection, other)
    ensures forall c :: c != collection ==> OM.Get(r.store, c) == OM.Get(s, c)
    ensures r.store.keys == s.keys
    ensures collection in s.entries ==> r.store.entries[collection].keys == s.entries[collection].keys
    ensures IdsConsistent(s) ==> IdsConsistent(r.store)
  {
    if collection !in s.entries then Step(s, None)
    else
      var coll := s.entries[collection];
      if id !in coll.entries then Step(s, None)
      else
        var merged := Merge(coll.entries[id], updates, id);
        Step(Put(s, collection, id, merged), Some(merged))
  }

  /**
   * `delete`: `false` for a missing collection; otherwise whether the id was
   * present, which is then removed. The collection itself stays, even empty.
   */
  function Delete(s: Store, collection: string, id: string): (r: Step<bool>)
    ensures collection !in s.entries ==> !r.value && r.store == s
    ensures collection in s.entries ==> r.value == (id in s.entries[collection].entries)
    ensures r.value <==> Get(s, collection, id).Some?
    ensures Get(r.store, collection, id).None?
    ensures forall other :: other != id ==> Get(r.store, collection, other) == Get(s, collection, other)
    ensures forall c :: c != collection ==> OM.Get(r.store, c) == OM.Get(s, c)
    ensures r.store.keys == s.keys
    ensures collection in s.entries ==> r.store.entries[collection].keys == OM.Without(s.entries[collection].keys, id)
    ensures IdsConsistent(s) ==> IdsConsistent(r.store)
  {
    if collection !in s.entries then Step(s, false)
    else
      var coll := s.entries[collection];
      Step(OM.Set(s, collection, OM.Remove(coll, id)), id in coll.entries)
  }

  /** `list`: the documents of the collection in insertion order; `[]` when it is absent. */
  function List(s: Store, collection: string): (r: seq<Doc>)
    ensures collection !in s.entries ==> r == []
    ensures collection in s.entries ==> |r| == |s.entries[collection].keys|
    ensures collection in s.entries ==> forall i :: 0 <= i < |r| ==>
      r[i] == s.entries[collection].entries[s.entries[collection].keys[i]]
  {
    if collection in s.entries then OM.Values(s.entries[collection]) else []
  }

  predicate HasCollection(s: Store, collection: string)
    ensures HasCollection(s, collection) <==> collection in s.keys
  {
    collection in s.entries
  }

  /** `getCollections`: collection names in the order they were created. */
  function GetCollections(s: Store): (r: seq<string>)
    ensures forall c :: c in r <==> HasCollection(s, c)
    ensures OM.Distinct(r)
  {
    s.keys
  }

  /** `dropCollection`: whether the collection existed; only that entry goes. */
  function DropCollection(s: Store, collection: string): (r: Step<bool>)
    ensures r.value <==> HasCollection(s, collection)
    ensures !HasCollection(r.store, collection)
    ensures forall c :: c != collection ==> OM.Get(r.store, c) == OM.Get(s, c)
    ensures GetCollections(r.store) == OM.Without(GetCollections(s), collection)
    ensures IdsConsistent(s) ==> IdsConsistent(r.store)
  {
    Step(OM.Remove(s, collection), collection in s.entries)
  }

  /** `clear`: no collections remain. */
  function Clear(s: Store): (r: Store)
    ensures GetCollections(r) == []
    ensures forall c :: !HasCollection(r, c)
  {
    OM.Empty()
  }

  // ---------------------------------------------------------------------
  // Properties relating several operations
  // ---------------------------------------------------------------------

  /** A document created under a fresh id is listed last; the rest keep their order. */
  lemma CreateAppendsToList(s: Store, collection: string, fields: Doc, id: string)
    requires Get(s, collection, id).None?
    ensures List(Create(s, collection, fields, id).store, collection)
         == List(s, collection) + [WithId(fields, id)]
  {
    var r := Create(s, collection, fields, id);
    var doc := WithId(fields, id);
    if collection in s.entries {
      OM.SetAbsentAppends(s.entries[collection], id, doc);
    } else {
      assert List(r.store, collection) == [doc];
    }
  }

  /** `update` rewrites the document where it stands: the listing order is unchanged. */
  lemma UpdateKeepsListPosition(s: Store, collection: string, i: nat, updates: Doc)
    requires collection in s.entries && i < |s.entries[collection].keys|
    ensures Update(s, collection, s.entries[collection].keys[i], updates).value.Some?
    ensures var r := Update(s, collection, s.entries[collection].keys[i], updates);
      List(r.store, collection) == List(s, collection)[i := r.value.value]
  {
    var coll := s.entries[collection];
    var id := coll.keys[i];
    var r := Update(s, collection, id, updates);
    OM.SetPresentKeepsPosition(coll, i, r.value.value);
  }

  /** After `delete`, the listing is the old one without the deleted document. */
  lemma DeleteRemovesFromList(s: Store, collection: string, i: nat)
    requires collection in s.entries && i < |s.entries[collection].keys|
    ensures List(Delete(s, collection, s.entries[collection].keys[i]).store, collection)
         == List(s, collection)[..i] + List(s, collection)[i + 1..]
  {
    OM.RemoveAt(s.entries[collection], i);
  }

  /** A dropped collection comes back, last in creation order, holding only the new document. */
  lemma DropThenCreate(s: Store, collection: string, fields: Doc, id: string)
    ensures var r := Create(DropCollection(s, collection).store, collection, fields, id);
      List(r.store, collection) == [WithId(fields, id)]
    ensures var r := Create(DropCollection(s, collection).store, collection, fields, id);
      GetCollections(r.store) == OM.Without(GetCollections(s), collection) + [collection]
  {
  }

  /**
   * `getCollections` lists names in creation order: creating a document in a
   * new collection appends its name, `update` and `delete` keep the listing,
   * and `dropCollection` takes out only the dropped name.
   */
  lemma CollectionsInCreationOrder(s: Store, collection: string, fields: Doc, id: string, updates: Doc)
    ensures GetCollections(Create(s, collection, fields, id).store)
         == if HasCollection(s, collection) then GetCollections(s) else GetCollections(s) + [collection]
    ensures GetCollections(Update(s, collection, id, updates).store) == GetCollections(s)
    ensures GetCollections(Delete(s, collection, id).store) == GetCollections(s)
    ensures GetCollections(DropCollection(s, collection).store) == OM.Without(GetCollections(s), collection)
  {
  }

  /** `delete` followed by `get` of the same id finds nothing; the collection remains. */
  lemma DeleteThenGet(s: Store, collection: string, id: string)
    ensures Get(Delete(s, collection, id).store, collection, id).None?
    ensures HasCollection(Delete(s, collection, id).store, collection) <==> HasCollection(s, collection)
  {
  }
}
