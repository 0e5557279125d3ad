/** The three edits the client applies to its in-memory employee list once
    the gateway has accepted a mutation (client/src/App.js, lines 48, 64, 81). */
module EmployeeList {
  import opened Records

  /** `{ ...draft, id }`: the draft with its `id` attribute set to `id`,
      replacing any `id` the draft already had. */
  function Stamp(draft: Record, id: string): (r: Record)
    ensures IdOf(r) == Some(id)
    ensures r.Keys == draft.Keys + {IdField}
    ensures forall k :: k in draft && k != IdField ==> r[k] == draft[k]
  {
    draft[IdField := id]
  }

  /** `[...employees, { ...employee, id }]` after a successful POST. */
  function Append(list: seq<Record>, draft: Record, id: string): (r: seq<Record>)
    ensures |r| == |list| + 1
    ensures r[..|list|] == list
    ensures IdOf(r[|list|]) == Some(id)
    ensures forall k :: k in draft && k != IdField ==> k in r[|list|] && r[|list|][k] == draft[k]
    ensures r[|list|].Keys == draft.Keys + {IdField}
  {
    list + [Stamp(draft, id)]
  }

  /** Appending adds exactly one entry carrying the new id and none carrying any other id. */
  lemma AppendCount(list: seq<Record>, draft: Record, id: string, other: string)
    ensures CountWithId(Append(list, draft, id), id) == CountWithId(list, id) + 1
    ensures other != id ==> CountWithId(Append(list, draft, id), other) == CountWithId(list, other)
  {
    CountConcat(list, [Stamp(draft, id)], id);
    CountConcat(list, [Stamp(draft, id)], other);
  }

  /** `employees.filter((employee) => employee.id !== id)` after a successful DELETE. */
  function Remove(list: seq<Record>, id: string): (r: seq<Record>)
    ensures |r| <= |list|
    ensures forall e :: e in r <==> e in list && IdOf(e) != Some(id)
  {
    if list == [] then []
    else
      assert list == [list[0]] + list[1..];
      if IdOf(list[0]) != Some(id) then [list[0]] + Remove(list[1..], id)
      else Remove(list[1..], id)
  }

  /** Removal works segment by segment, so the kept entries stay in their original order. */
  lemma {:induction false} RemoveConcat(a: seq<Record>, b: seq<Record>, id: string)
    ensures Remove(a + b, id) == Remove(a, id) + Remove(b, id)
  {
    if a == [] {
      assert a + b == b;
    } else {
      assert (a + b)[0] == a[0];
      assert (a + b)[1..] == a[1..] + b;
      RemoveConcat(a[1..], b, id);
    }
  }

  /** Exactly the entries carrying `id` are dropped. */
  lemma {:induction false} RemoveLength(list: seq<Record>, id: string)
    ensures |Remove(list, id)| == |list| - CountWithId(list, id)
  {
    if list != [] {
      RemoveLength(list[1..], id);
    }
  }

  /** The list is left as it is exactly when no entry carries `id`. */
  lemma {:induction false} RemoveUnchanged(list: seq<Record>, id: string)
    ensures Remove(list, id) == list <==> CountWithId(list, id) == 0
  {
    RemoveLength(list, id);
    if list != [] && CountWithId(list, id) == 0 {
      assert IdOf(list[0]) != Some(id);
      assert CountWithId(list[1..], id) == 0;
      RemoveUnchanged(list[1..], id);
      calc {
        Remove(list, id);
        [list[0]] + Remove(list[1..], id);
        [list[0]] + list[1..];
        list;
      }
    }
  }

  /** Deleting the same id twice is the same as deleting it once. */
  lemma RemoveIdempotent(list: seq<Record>, id: string)
    ensures Remove(Remove(list, id), id) == Remove(list, id)
  {
    RemoveUnchanged(Remove(list, id), id);
  }

  /** `prevEmployees.map((emp) => (emp.id === updatedEmployee.id ? updatedEmployee : emp))`
      after a successful PUT; `===` on two absent ids is true. */
  function Replace(list: seq<Record>, updated: Record): (r: seq<Record>)
    ensures |r| == |list|
    ensures forall i :: 0 <= i < |list| ==>
      r[i] == (if IdOf(list[i]) == IdOf(updated) then updated else list[i])
  {
    if list == [] then []
    else [if IdOf(list[0]) == IdOf(updated) then updated else list[0]] + Replace(list[1..], updated)
  }

  /** Replacing twice with the same record is the same as replacing once. */
  lemma ReplaceIdempotent(list: seq<Record>, updated: Record)
    ensures Replace(Replace(list, updated), updated) == Replace(list, updated)
  {
  }

  /** An update followed by a delete of the same id leaves what the delete alone leaves. */
  lemma {:induction false} RemoveAfterReplace(list: seq<Record>, updated: Record, id: string)
    requires IdOf(updated) == Some(id)
    ensures Remove(Replace(list, updated), id) == Remove(list, id)
  {
    if list != [] {
      var r := Replace(list, updated);
      assert r[1..] == Replace(list[1..], updated);
      RemoveAfterReplace(list[1..], updated, id);
    }
  }

  /** Replacing keeps the number of entries carrying any given id. */
  lemma {:induction false} ReplaceCount(list: seq<Record>, updated: Record, id: string)
    ensures CountWithId(Replace(list, updated), id) == CountWithId(list, id)
  {
    if list != [] {
      var r := Replace(list, updated);
      assert r[1..] == Replace(list[1..], updated);
      ReplaceCount(list[1..], updated, id);
    }
  }
}
