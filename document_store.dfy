/** The `employees` collection of the document database, seen through the four
    calls the gateway makes on it (server/server.js): `add`, `get` of the
    whole collection, `delete` and `update` of one document. */
module DocumentStore {
  import opened Records

  type Id = string

  /** Every document of the collection, by its identifier. */
  type Store = map<Id, Record>

  /** `add(doc)`: a new document under the fresh identifier `id` chosen by the store. */
  function Insert(store: Store, id: Id, doc: Record): (r: Store)
    requires id !in store
    ensures r.Keys == store.Keys + {id} && |r| == |store| + 1
    ensures r[id] == doc
    ensures forall k :: k in store ==> r[k] == store[k]
  {
    store[id := doc]
  }

  /** `doc(id).delete()`. */
  function Delete(store: Store, id: Id): (r: Store)
    ensures r.Keys == store.Keys - {id}
    ensures id in store ==> |r| == |store| - 1
    ensures forall k :: k in r ==> r[k] == store[k]
  {
    store - {id}
  }

  /** `doc(id).update(fields)` on an existing document: the supplied fields
      are overwritten or added, every other field stays. */
  function Merge(store: Store, id: Id, fields: Record): (r: Store)
    requires id in store
    ensures r.Keys == store.Keys
    ensures r[id].Keys == store[id].Keys + fields.Keys
    ensures forall f :: f in fields ==> r[id][f] == fields[f]
    ensures forall f :: f in store[id] && f !in fields ==> r[id][f] == store[id][f]
    ensures forall k :: k in store && k != id ==> r[k] == store[k]
  {
    store[id := store[id] + fields]
  }

  /** `{ id: doc.id, ...doc.data() }`: a document's own `id` field, if it has
      one, shadows the identifier it is stored under. */
  function WithId(id: Id, doc: Record): (r: Record)
    ensures r.Keys == doc.Keys + {IdField}
    ensures forall f :: f in doc ==> r[f] == doc[f]
    ensures IdOf(r) == if IdField in doc then Some(doc[IdField]) else Some(id)
  {
    map[IdField := id] + doc
  }

  /** No id occurs twice in `order`. */
  ghost predicate Distinct(order: seq<Id>)
  {
    forall i, j :: 0 <= i < j < |order| ==> order[i] != order[j]
  }

  /** `order` is an order in which the store can enumerate its documents:
      each stored identifier exactly once. */
  ghost predicate IsEnumeration(order: seq<Id>, store: Store)
  {
    Distinct(order) && (forall k :: k in order <==> k in store)
  }

  /** The store keeps each document's own `id` field, when present, equal to
      the identifier it is stored under. */
  ghost predicate IdsMatchKeys(store: Store)
  {
    forall k :: k in store && IdField in store[k] ==> store[k][IdField] == k
  }

  /** `snapshot.docs.map(doc => ({ id: doc.id, ...doc.data() }))`, the
      documents visited in `order`. */
  function Entries(store: Store, order: seq<Id>): (r: seq<Record>)
    requires forall k :: k in order ==> k in store
    ensures |r| == |order|
    ensures forall i :: 0 <= i < |order| ==> r[i] == WithId(order[i], store[order[i]])
  {
    if order == [] then []
    else [WithId(order[0], store[order[0]])] + Entries(store, order[1..])
  }

  /** Listing in the order `a` then `b` lists `a`'s documents, then `b`'s. */
  lemma EntriesConcat(store: Store, a: seq<Id>, b: seq<Id>)
    requires forall k :: k in a + b ==> k in store
    ensures Entries(store, a + b) == Entries(store, a) + Entries(store, b)
  {
    var whole, parts := Entries(store, a + b), Entries(store, a) + Entries(store, b);
    forall i | 0 <= i < |whole| ensures whole[i] == parts[i] {
      if i < |a| {
        assert (a + b)[i] == a[i];
      } else {
        assert (a + b)[i] == b[i - |a|];
      }
    }
  }

  /** Listing depends only on the documents visited. */
  lemma EntriesAgree(store: Store, store': Store, order: seq<Id>)
    requires forall k :: k in order ==> k in store && k in store' && store[k] == store'[k]
    ensures Entries(store, order) == Entries(store', order)
  {
  }

  /** Listings in two orders that visit the same identifiers equally often
      hold the same entries, each as often. */
  lemma {:induction false} EntriesPermute(store: Store, a: seq<Id>, b: seq<Id>)
    requires forall k :: k in a ==> k in store
    requires forall k :: k in b ==> k in store
    requires multiset(a) == multiset(b)
    ensures multiset(Entries(store, a)) == multiset(Entries(store, b))
    decreases |a|
  {
    if a == [] {
      assert |b| == |multiset(b)| == 0;
    } else {
      assert a[0] in multiset(b);
      var j :| 0 <= j < |b| && b[j] == a[0];
      var left, right := b[..j], b[j + 1..];
      DropMatching(a, b, j);
      var e := multiset{WithId(a[0], store[a[0]])};
      calc {
        multiset(Entries(store, a));
        { assert Entries(store, a) == [WithId(a[0], store[a[0]])] + Entries(store, a[1..]); }
        e + multiset(Entries(store, a[1..]));
        { EntriesPermute(store, a[1..], left + right); }
        e + multiset(Entries(store, left + right));
        { EntriesConcat(store, left, right); }
        multiset(Entries(store, left)) + e + multiset(Entries(store, right));
        { EntriesSplit(store, b, j); }
        multiset(Entries(store, b));
      }
    }
  }

  /** Dropping the same identifier from two orders with equal multisets leaves equal multisets. */
  lemma DropMatching(a: seq<Id>, b: seq<Id>, j: int)
    requires multiset(a) == multiset(b) && a != []
    requires 0 <= j < |b| && b[j] == a[0]
    ensures multiset(a[1..]) == multiset(b[..j] + b[j + 1..])
  {
    SplitAt(b, j);
    assert a == [a[0]] + a[1..];
    assert multiset(a[1..]) == multiset(a) - multiset{a[0]};
    assert multiset(b[..j] + b[j + 1..]) == multiset(b[..j]) + multiset(b[j + 1..]);
  }

  /** A sequence is its elements before `j`, its `j`th element and its elements after. */
  lemma SplitAt<T>(s: seq<T>, j: int)
    requires 0 <= j < |s|
    ensures s == s[..j] + [s[j]] + s[j + 1..]
    ensures multiset(s) == multiset(s[..j]) + multiset{s[j]} + multiset(s[j + 1..])
  {
    assert s == s[..j] + [s[j]] + s[j + 1..];
  }

  /** The listing in `order` is the listing of the identifiers before `j`,
      the `j`th document, and the listing of those after. */
  lemma EntriesSplit(store: Store, order: seq<Id>, j: int)
    requires forall k :: k in order ==> k in store
    requires 0 <= j < |order|
    ensures multiset(Entries(store, order)) ==
      multiset(Entries(store, order[..j])) + multiset{WithId(order[j], store[order[j]])} +
      multiset(Entries(store, order[j + 1..]))
  {
    SplitAt(order, j);
    EntriesConcat(store, order[..j] + [order[j]], order[j + 1..]);
    EntriesConcat(store, order[..j], [order[j]]);
  }

  /** In an order with no repeats, each identifier occurs once or not at all. */
  lemma {:induction false} DistinctMultiplicity(order: seq<Id>)
    requires Distinct(order)
    ensures forall k :: multiset(order)[k] == if k in order then 1 else 0
  {
    if order != [] {
      var rest := order[1..];
      assert Distinct(rest) by {
        forall i, j | 0 <= i < j < |rest| ensures rest[i] != rest[j] {
          assert rest[i] == order[i + 1] && rest[j] == order[j + 1];
        }
      }
      DistinctMultiplicity(rest);
      assert order[0] !in rest by {
        forall j | 0 <= j < |rest| ensures rest[j] != order[0] {
          assert rest[j] == order[j + 1];
        }
      }
      assert order == [order[0]] + rest;
      assert multiset(order) == multiset([order[0]]) + multiset(rest);
    }
  }

  /** Two enumerations of the same store differ only in order. */
  lemma EnumerationsPermute(a: seq<Id>, b: seq<Id>, store: Store)
    requires IsEnumeration(a, store) && IsEnumeration(b, store)
    ensures multiset(a) == multiset(b)
  {
    DistinctMultiplicity(a);
    DistinctMultiplicity(b);
    assert forall k :: multiset(a)[k] == multiset(b)[k];
  }

  /** An enumeration visits exactly as many identifiers as there are documents. */
  lemma {:induction false} EnumerationSize(order: seq<Id>, store: Store)
    requires IsEnumeration(order, store)
    ensures |order| == |store|
  {
    DistinctSize(order);
    assert (set k | k in order) == store.Keys;
  }

  lemma {:induction false} DistinctSize(order: seq<Id>)
    requires Distinct(order)
    ensures |set k | k in order| == |order|
  {
    if order != [] {
      DistinctSize(order[1..]);
      assert (set k | k in order) == {order[0]} + (set k | k in order[1..]);
      assert order[0] !in order[1..] by {
        forall j | 0 <= j < |order[1..]| ensures order[1..][j] != order[0] {
          assert order[1..][j] == order[j + 1];
        }
      }
    }
  }

  /** While the store keeps ids and keys equal, a listing in which each
      visited document appears once has exactly one entry for each
      visited identifier and none for any other. */
  lemma {:induction false} ListedOnce(store: Store, order: seq<Id>, id: Id)
    requires IdsMatchKeys(store) && Distinct(order)
    requires forall k :: k in order ==> k in store
    ensures CountWithId(Entries(store, order), id) == if id in order then 1 else 0
  {
    if order != [] {
      var es := Entries(store, order);
      assert Distinct(order[1..]) by {
        forall i, j | 0 <= i < j < |order[1..]| ensures order[1..][i] != order[1..][j] {
          assert order[1..][i] == order[i + 1] && order[1..][j] == order[j + 1];
        }
      }
      ListedOnce(store, order[1..], id);
      assert es[1..] == Entries(store, order[1..]);
      assert IdOf(es[0]) == Some(order[0]);
      assert order == [order[0]] + order[1..];
      if order[0] == id {
        assert id !in order[1..] by {
          forall j | 0 <= j < |order[1..]| ensures order[1..][j] != id {
            assert order[1..][j] == order[j + 1];
          }
        }
      }
    }
  }

  /** Adding a document whose own id, if any, is its new identifier keeps ids and keys equal. */
  lemma InsertKeepsIdsMatchKeys(store: Store, id: Id, doc: Record)
    requires IdsMatchKeys(store) && id !in store
    requires IdField in doc ==> doc[IdField] == id
    ensures IdsMatchKeys(Insert(store, id, doc))
  {
  }

  /** Deleting a document keeps ids and keys equal. */
  lemma DeleteKeepsIdsMatchKeys(store: Store, id: Id)
    requires IdsMatchKeys(store)
    ensures IdsMatchKeys(Delete(store, id))
  {
  }

  /** Merging fields whose id, if any, is the document's identifier keeps ids and keys equal. */
  lemma MergeKeepsIdsMatchKeys(store: Store, id: Id, fields: Record)
    requires IdsMatchKeys(store) && id in store
    requires IdField in fields ==> fields[IdField] == id
    ensures IdsMatchKeys(Merge(store, id, fields))
  {
  }
}
