/** How the client's optimistic list edits line up with what the gateway's
    listing shows after the same successful request, when the client's list
    was the gateway's listing to begin with. */
module Agreement {
  import opened Records
  import opened DocumentStore
  import EmployeeList
  import Gateway

  /** `order` with `id` left out: the enumeration the store keeps after a delete. */
  function Skip(order: seq<Id>, id: Id): (r: seq<Id>)
    ensures forall k :: k in r <==> k in order && k != id
  {
    if order == [] then []
    else
      assert order == [order[0]] + order[1..];
      if order[0] == id then Skip(order[1..], id) else [order[0]] + Skip(order[1..], id)
  }

  /** Leaving an id out of an order with no repeats leaves an order with no repeats. */
  lemma {:induction false} SkipDistinct(order: seq<Id>, id: Id)
    requires Distinct(order)
    ensures Distinct(Skip(order, id))
  {
    if order != [] {
      var rest := order[1..];
      assert Distinct(rest) by {
        forall i, j | 0 <= i < j < |rest| ensures rest[i] != rest[j] {
          assert rest[i] == order[i + 1] && rest[j] == order[j + 1];
        }
      }
      SkipDistinct(rest, id);
      assert order[0] !in rest by {
        forall j | 0 <= j < |rest| ensures rest[j] != order[0] {
          assert rest[j] == order[j + 1];
        }
      }
      if order[0] != id {
        var r, tail := Skip(order, id), Skip(rest, id);
        assert r == [order[0]] + tail;
        forall i, j | 0 <= i < j < |r| ensures r[i] != r[j] {
          assert r[j] == tail[j - 1];
          if i > 0 {
            assert r[i] == tail[i - 1];
          } else {
            assert r[j] in tail;
          }
        }
      }
    }
  }

  /** After a delete, the old enumeration with the deleted id left out is an
      enumeration of the remaining documents. */
  lemma SkipEnumerates(order: seq<Id>, store: Store, id: Id)
    requires IsEnumeration(order, store)
    ensures IsEnumeration(Skip(order, id), Delete(store, id))
  {
    SkipDistinct(order, id);
  }

  /** After an add, the old enumeration followed by the fresh id is an
      enumeration of the new store. */
  lemma AppendEnumerates(order: seq<Id>, store: Store, freshId: Id, doc: Record)
    requires IsEnumeration(order, store) && freshId !in store
    ensures IsEnumeration(order + [freshId], Insert(store, freshId, doc))
  {
  }

  /** After `add`, appending the stamped draft gives the listing of the new
      store when the store lists the new document last. */
  lemma AddAgreement(store: Store, order: seq<Id>, draft: Record, freshId: Id)
    requires forall k :: k in order ==> k in store
    requires freshId !in store
    requires IdField in draft ==> draft[IdField] == freshId
    ensures EmployeeList.Append(Entries(store, order), draft, freshId)
         == Entries(Insert(store, freshId, draft), order + [freshId])
  {
    var store' := Insert(store, freshId, draft);
    EntriesConcat(store', order, [freshId]);
    EntriesAgree(store, store', order);
    StampIsWithId(draft, freshId);
    assert Entries(store', [freshId]) == [WithId(freshId, draft)];
  }

  /** After `add`, the stamped draft appended to the old listing holds the
      same entries as the new store's listing, each as often, in any order
      the store enumerates it. */
  lemma AddAgreementAnyOrder(store: Store, order: seq<Id>, draft: Record, freshId: Id, order': seq<Id>)
    requires IsEnumeration(order, store) && freshId !in store
    requires IdField in draft ==> draft[IdField] == freshId
    requires IsEnumeration(order', Insert(store, freshId, draft))
    ensures multiset(EmployeeList.Append(Entries(store, order), draft, freshId))
         == multiset(Entries(Insert(store, freshId, draft), order'))
  {
    var store' := Insert(store, freshId, draft);
    AddAgreement(store, order, draft, freshId);
    AppendEnumerates(order, store, freshId, draft);
    EnumerationsPermute(order + [freshId], order', store');
    EntriesPermute(store', order + [freshId], order');
  }

  /** After `add`, a store that keeps the old documents in their old order
      and lists the new one at position `j` shows the old listing with the
      stamped draft inserted at `j`. */
  lemma AddAgreementAt(store: Store, order: seq<Id>, draft: Record, freshId: Id, j: int)
    requires forall k :: k in order ==> k in store
    requires freshId !in store
    requires IdField in draft ==> draft[IdField] == freshId
    requires 0 <= j <= |order|
    ensures Entries(Insert(store, freshId, draft), order[..j] + [freshId] + order[j..])
         == Entries(store, order)[..j] + [EmployeeList.Stamp(draft, freshId)] + Entries(store, order)[j..]
  {
    var store' := Insert(store, freshId, draft);
    var left, right := order[..j], order[j..];
    assert order == left + right;
    EntriesConcat(store, left, right);
    EntriesConcat(store', left + [freshId], right);
    EntriesConcat(store', left, [freshId]);
    EntriesAgree(store, store', left);
    EntriesAgree(store, store', right);
    StampIsWithId(draft, freshId);
    assert Entries(store', [freshId]) == [WithId(freshId, draft)];
  }

  /** The client's `{ ...draft, id }` and the listing's `{ id, ...draft }`
      agree when the draft carries no other id. */
  lemma StampIsWithId(draft: Record, id: Id)
    requires IdField in draft ==> draft[IdField] == id
    ensures EmployeeList.Stamp(draft, id) == WithId(id, draft)
  {
    var a, b := EmployeeList.Stamp(draft, id), WithId(id, draft);
    assert a.Keys == b.Keys;
    forall f | f in a ensures a[f] == b[f] {
      if f == IdField {
        assert IdOf(a) == IdOf(b);
      }
    }
  }

  /** After `delete`, filtering the list by id gives the listing of the
      remaining documents in their old order. */
  lemma {:induction false} DeleteAgreement(store: Store, order: seq<Id>, id: Id)
    requires IdsMatchKeys(store)
    requires forall k :: k in order ==> k in store
    ensures EmployeeList.Remove(Entries(store, order), id) == Entries(Delete(store, id), Skip(order, id))
  {
    if order != [] {
      var es := Entries(store, order);
      assert es == [es[0]] + Entries(store, order[1..]);
      EmployeeList.RemoveConcat([es[0]], Entries(store, order[1..]), id);
      DeleteAgreement(store, order[1..], id);
      assert IdOf(es[0]) == Some(order[0]);
      if order[0] != id {
        var rest := Skip(order[1..], id);
        EntriesConcat(Delete(store, id), [order[0]], rest);
      }
    }
  }

  /** After `update` with a record carrying the document's id and every field
      it stores, replacing by id gives the listing of the merged store. */
  lemma UpdateAgreement(store: Store, order: seq<Id>, id: Id, updated: Record)
    requires IdsMatchKeys(store)
    requires forall k :: k in order ==> k in store
    requires id in store && IdOf(updated) == Some(id)
    requires store[id].Keys <= updated.Keys
    ensures EmployeeList.Replace(Entries(store, order), updated) == Entries(Merge(store, id, updated), order)
  {
    var store' := Merge(store, id, updated);
    var before := Entries(store, order);
    var client, server := EmployeeList.Replace(before, updated), Entries(store', order);
    assert |client| == |server| == |order|;
    forall i | 0 <= i < |order| ensures client[i] == server[i] {
      var k := order[i];
      assert before[i] == WithId(k, store[k]) && server[i] == WithId(k, store'[k]);
      if k == id {
        MergedEntry(store, id, updated);
      } else {
        assert IdOf(before[i]) == Some(k);
        assert store'[k] == store[k];
      }
    }
  }

  /** The listed entry of a document merged with a record that carries its id
      and all its fields is that record. */
  lemma MergedEntry(store: Store, id: Id, updated: Record)
    requires id in store && IdOf(updated) == Some(id)
    requires store[id].Keys <= updated.Keys
    ensures WithId(id, Merge(store, id, updated)[id]) == updated
  {
    var e := WithId(id, Merge(store, id, updated)[id]);
    assert e.Keys == updated.Keys;
    forall f | f in e ensures e[f] == updated[f] {
    }
  }

  /** When the stored document has a field the client's record lacks, the
      client's list no longer shows what the store holds: the server merged,
      the client replaced. */
  lemma UpdateDivergence(store: Store, order: seq<Id>, id: Id, updated: Record, field: string)
    requires IdsMatchKeys(store)
    requires forall k :: k in order ==> k in store
    requires id in order && IdOf(updated) == Some(id)
    requires field in store[id] && field !in updated
    ensures EmployeeList.Replace(Entries(store, order), updated) != Entries(Merge(store, id, updated), order)
  {
    var store' := Merge(store, id, updated);
    var i :| 0 <= i < |order| && order[i] == id;
    var client, server := EmployeeList.Replace(Entries(store, order), updated), Entries(store', order);
    assert server[i] == WithId(id, store'[id]);
    assert field in store'[id];
    assert IdOf(Entries(store, order)[i]) == Some(id);
    assert client[i] == updated;
    assert field in server[i] && field !in client[i];
  }

  /** A draft carrying an `id` other than the one the store assigns is listed
      under its own `id`, while the client's list carries the store's id. */
  lemma AddDivergence(store: Store, order: seq<Id>, draft: Record, freshId: Id)
    requires forall k :: k in order ==> k in store
    requires freshId !in store
    requires IdField in draft && draft[IdField] != freshId
    ensures EmployeeList.Append(Entries(store, order), draft, freshId)
         != Entries(Insert(store, freshId, draft), order + [freshId])
  {
    var order' := order + [freshId];
    var client := EmployeeList.Append(Entries(store, order), draft, freshId);
    var server := Entries(Insert(store, freshId, draft), order');
    assert order'[|order|] == freshId;
    assert IdOf(server[|order|]) == Some(draft[IdField]);
    assert IdOf(client[|order|]) == Some(freshId);
  }

  /** While stored ids match keys, a draft carrying a foreign `id` makes the
      client's appended list differ from the new store's listing in every
      order the store can enumerate it: the client's last entry carries the
      store's id, and no listed entry does. */
  lemma AddDivergenceAnyOrder(store: Store, order: seq<Id>, draft: Record, freshId: Id, order': seq<Id>)
    requires IdsMatchKeys(store)
    requires forall k :: k in order ==> k in store
    requires freshId !in store
    requires IdField in draft && draft[IdField] != freshId
    requires IsEnumeration(order', Insert(store, freshId, draft))
    ensures EmployeeList.Append(Entries(store, order), draft, freshId)
         != Entries(Insert(store, freshId, draft), order')
  {
    var client := EmployeeList.Append(Entries(store, order), draft, freshId);
    var server := Entries(Insert(store, freshId, draft), order');
    Gateway.CreateWithForeignId(store, draft, freshId, order');
    assert IdOf(client[|order|]) == Some(freshId);
    assert client[|order|] in client;
    assert CountWithId(client, freshId) != 0;
  }
}
