/** The REST gateway over the `employees` collection (server/server.js):
    request validation, one store call per route, and the mapping of each
    outcome to a status code and a fixed message. A store failure is an
    input flag; its details never reach the response. */
module Gateway {
  import opened Records
  import opened DocumentStore

  const InvalidEmployeeMessage: string := "Employee data is missing or invalid"
  const AddedMessage: string := "Employee added successfully"
  const AddFailedMessage: string := "Failed to add employee"
  const FetchFailedMessage: string := "Failed to fetch employees"
  const DeletedMessage: string := "Employee deleted successfully"
  const NotFoundMessage: string := "Employee not found"
  const DeleteFailedMessage: string := "Failed to delete employee"
  const NoUpdateDataMessage: string := "No data provided to update"
  const UpdatedMessage: string := "Employee updated successfully"
  const UpdateFailedMessage: string := "Failed to update employee"

  /** The fields a new employee must carry, each with a non-empty value. */
  const RequiredFields: seq<string> := ["name", "surname", "email", "idNumber"]

  /** The JSON body of a response. */
  datatype Body =
    | Message(text: string)
    | Created(id: Id, employee: Record, message: string)
    | Listing(entries: seq<Record>)

  datatype Response = Response(status: int, body: Body)

  /** JavaScript truthiness of `doc[field]` for a string attribute: present and not `''`. */
  predicate Truthy(doc: Record, field: string)
    ensures field !in doc ==> !Truthy(doc, field)
    ensures field in doc && doc[field] == "" ==> !Truthy(doc, field)
    ensures Truthy(doc, field) ==> field in doc && |doc[field]| > 0
    ensures field in doc && |doc[field]| > 0 ==> Truthy(doc, field)
  {
    field in doc && doc[field] != ""
  }

  /** A POST payload the gateway accepts. */
  predicate ValidEmployee(employee: Option<Record>)
    ensures ValidEmployee(employee) <==>
      employee.Some? && Truthy(employee.value, "name") && Truthy(employee.value, "surname") &&
      Truthy(employee.value, "email") && Truthy(employee.value, "idNumber")
  {
    employee.Some? && forall f :: f in RequiredFields ==> Truthy(employee.value, f)
  }

  /** `POST /employees` with body `{ employee }`; `freshId` is the identifier
      the store would assign and `storeFails` whether its `add` throws. */
  method CreateEmployee(store: Store, employee: Option<Record>, freshId: Id, storeFails: bool)
    returns (response: Response, store': Store)
    requires freshId !in store
    ensures response.status == 400 <==> !ValidEmployee(employee)
    ensures response.status == 500 <==> ValidEmployee(employee) && storeFails
    ensures response.status == 200 <==> ValidEmployee(employee) && !storeFails
    ensures response.status == 400 ==> response.body == Message(InvalidEmployeeMessage) && store' == store
    ensures response.status == 500 ==> response.body == Message(AddFailedMessage) && store' == store
    ensures response.status == 200 ==>
      store' == Insert(store, freshId, employee.value) &&
      response.body == Created(freshId, employee.value, AddedMessage)
  {
    if employee.None? || !Truthy(employee.value, "name") || !Truthy(employee.value, "surname") ||
       !Truthy(employee.value, "email") || !Truthy(employee.value, "idNumber")
    {
      return Response(400, Message(InvalidEmployeeMessage)), store;
    }
    if storeFails {
      return Response(500, Message(AddFailedMessage)), store;
    }
    store' := Insert(store, freshId, employee.value);
    response := Response(200, Created(freshId, employee.value, AddedMessage));
  }

  /** `GET /employees`; `order` is the order in which the store enumerates
      its documents and `storeFails` whether its `get` throws. */
  method ListEmployees(store: Store, order: seq<Id>, storeFails: bool) returns (response: Response)
    requires IsEnumeration(order, store)
    ensures storeFails ==> response == Response(500, Message(FetchFailedMessage))
    ensures !storeFails ==> response.status == 200 && response.body.Listing?
    ensures !storeFails ==> |response.body.entries| == |order| == |store|
    ensures !storeFails ==> forall i :: 0 <= i < |order| ==>
      response.body.entries[i] == WithId(order[i], store[order[i]])
    ensures !storeFails && IdsMatchKeys(store) ==> forall k ::
      CountWithId(response.body.entries, k) == if k in store then 1 else 0
  {
    if storeFails {
      return Response(500, Message(FetchFailedMessage));
    }
    EnumerationSize(order, store);
    var entries := Entries(store, order);
    if IdsMatchKeys(store) {
      forall k ensures CountWithId(entries, k) == if k in store then 1 else 0 {
        ListedOnce(store, order, k);
      }
    }
    response := Response(200, Listing(entries));
  }

  /** `DELETE /employees/:id`; `readFails` and `writeFails` say whether the
      existence check (`get`) or the removal (`delete`) throws. */
  method DeleteEmployee(store: Store, id: Id, readFails: bool, writeFails: bool)
    returns (response: Response, store': Store)
    ensures response.status == 500 <==> readFails || (id in store && writeFails)
    ensures response.status == 404 <==> !readFails && id !in store
    ensures response.status == 200 <==> !readFails && id in store && !writeFails
    ensures response.status == 500 ==> response.body == Message(DeleteFailedMessage) && store' == store
    ensures response.status == 404 ==> response.body == Message(NotFoundMessage) && store' == store
    ensures response.status == 200 ==> response.body == Message(DeletedMessage) && store' == Delete(store, id)
  {
    if readFails {
      return Response(500, Message(DeleteFailedMessage)), store;
    }
    if id in store {
      if writeFails {
        return Response(500, Message(DeleteFailedMessage)), store;
      }
      store' := Delete(store, id);
      response := Response(200, Message(DeletedMessage));
    } else {
      response, store' := Response(404, Message(NotFoundMessage)), store;
    }
  }

  /** `PUT /employees/:id` with the fields in `body`; `storeFails` says whether
      `update` throws. The store also rejects an update of a document that
      does not exist, which the handler reports like any other failure. */
  method UpdateEmployee(store: Store, id: Id, body: Option<Record>, storeFails: bool)
    returns (response: Response, store': Store)
    ensures response.status == 400 <==> body.None? || |body.value| == 0
    ensures response.status == 500 <==> body.Some? && |body.value| > 0 && (storeFails || id !in store)
    ensures response.status == 200 <==> body.Some? && |body.value| > 0 && !storeFails && id in store
    ensures response.status == 400 ==> response.body == Message(NoUpdateDataMessage) && store' == store
    ensures response.status == 500 ==> response.body == Message(UpdateFailedMessage) && store' == store
    ensures response.status == 200 ==> response.body == Message(UpdatedMessage) && store' == Merge(store, id, body.value)
  {
    if body.None? || |body.value.Keys| == 0 {
      return Response(400, Message(NoUpdateDataMessage)), store;
    }
    if storeFails || id !in store {
      return Response(500, Message(UpdateFailedMessage)), store;
    }
    store' := Merge(store, id, body.value);
    response := Response(200, Message(UpdatedMessage));
  }

  /** A successful create followed by a listing shows the store's documents
      plus exactly one entry for the new identifier, holding the payload. */
  lemma CreateThenList(store: Store, payload: Record, freshId: Id, order: seq<Id>)
    requires IdsMatchKeys(store) && freshId !in store
    requires IdField in payload ==> payload[IdField] == freshId
    requires IsEnumeration(order, Insert(store, freshId, payload))
    ensures |Entries(Insert(store, freshId, payload), order)| == |store| + 1
    ensures CountWithId(Entries(Insert(store, freshId, payload), order), freshId) == 1
    ensures WithId(freshId, payload) in Entries(Insert(store, freshId, payload), order)
  {
    var store' := Insert(store, freshId, payload);
    InsertKeepsIdsMatchKeys(store, freshId, payload);
    EnumerationSize(order, store');
    ListedOnce(store', order, freshId);
    var i :| 0 <= i < |order| && order[i] == freshId;
    assert Entries(store', order)[i] == WithId(freshId, payload);
  }

  /** After a successful delete, a listing has one entry fewer and none for the deleted identifier. */
  lemma DeleteThenList(store: Store, id: Id, order: seq<Id>)
    requires IdsMatchKeys(store) && id in store
    requires IsEnumeration(order, Delete(store, id))
    ensures |Entries(Delete(store, id), order)| == |store| - 1
    ensures CountWithId(Entries(Delete(store, id), order), id) == 0
  {
    DeleteKeepsIdsMatchKeys(store, id);
    EnumerationSize(order, Delete(store, id));
    ListedOnce(Delete(store, id), order, id);
  }

  /** A create whose payload carries an `id` other than the fresh identifier
      is listed under the payload's `id`: no entry shows the identifier the
      response returned. */
  lemma CreateWithForeignId(store: Store, payload: Record, freshId: Id, order: seq<Id>)
    requires IdsMatchKeys(store) && freshId !in store
    requires IdField in payload && payload[IdField] != freshId
    requires IsEnumeration(order, Insert(store, freshId, payload))
    ensures CountWithId(Entries(Insert(store, freshId, payload), order), freshId) == 0
  {
    var store' := Insert(store, freshId, payload);
    forall k | k in store' ensures IdOf(WithId(k, store'[k])) != Some(freshId) {
      if k != freshId {
        assert store'[k] == store[k];
      }
    }
    NoEntryWithId(store', order, freshId);
  }

  /** A listing has no entry with `id` when no document is listed with it. */
  lemma NoEntryWithId(store: Store, order: seq<Id>, id: Id)
    requires forall k :: k in order ==> k in store
    requires forall k :: k in store ==> IdOf(WithId(k, store[k])) != Some(id)
    ensures CountWithId(Entries(store, order), id) == 0
  {
    var es := Entries(store, order);
    forall e | e in es ensures IdOf(e) != Some(id) {
      var i :| 0 <= i < |es| && es[i] == e;
    }
  }
}
