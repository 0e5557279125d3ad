/** Values shared by the browser client and the REST gateway: a JSON object
    whose attributes are strings, and its optional `id` attribute. */
module Records {

  datatype Option<+T> = None | Some(value: T)

  /** A JSON object (an employee draft, a stored document, a listed entry). */
  type Record = map<string, string>

  /** The attribute that carries a record's identifier. */
  const IdField: string := "id"

  /** `record.id`, with `None` for JavaScript's `undefined`. */
  function IdOf(r: Record): (o: Option<string>)
    ensures o.None? <==> IdField !in r
    ensures o.Some? ==> o.value == r[IdField]
  {
    if IdField in r then Some(r[IdField]) else None
  }

  /** The number of records in `rs` whose `id` is `id`. */
  function CountWithId(rs: seq<Record>, id: string): (n: nat)
    ensures n <= |rs|
    ensures n == 0 <==> forall e :: e in rs ==> IdOf(e) != Some(id)
  {
    if rs == [] then 0
    else (if IdOf(rs[0]) == Some(id) then 1 else 0) + CountWithId(rs[1..], id)
  }

  lemma {:induction false} CountConcat(a: seq<Record>, b: seq<Record>, id: string)
    ensures CountWithId(a + b, id) == CountWithId(a, id) + CountWithId(b, id)
  {
    if a != [] {
      assert (a + b)[1..] == a[1..] + b;
      CountConcat(a[1..], b, id);
    } else {
      assert a + b == b;
    }
  }
}
