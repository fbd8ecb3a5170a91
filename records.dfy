/** What the product store and the album store share: an ordered sequence of
    records with integer ids, the id rule of create, the `find`/`findIndex`
    search by id, `splice` removal, and the responses the handlers send. */
module Records {

  datatype Option<T> = None | Some(value: T)

  /** One stored record: the id the server assigned and the resource's own fields. */
  datatype Entry<B> = Entry(id: int, fields: B)

  /** The JSON a handler sends: one record, the whole array, or `{ error }`. */
  datatype Body<B> = Record(rec: Entry<B>) | Records(recs: seq<Entry<B>>) | Error(message: string)

  datatype Response<B> = Response(status: int, body: Body<B>)

  const StatusOk := 200
  const StatusCreated := 201
  const StatusBadRequest := 400
  const StatusNotFound := 404

  /** What one handler invocation leaves behind: the store and the response. */
  datatype Step<B> = Step(items: seq<Entry<B>>, resp: Response<B>)

  /** `e.id === id` where `id` is `parseInt` of the path segment; a NaN id
      (`None`) equals nothing. */
  predicate Matches<B>(e: Entry<B>, id: Option<int>) {
    id.Some? && e.id == id.value
  }

  /** The store invariant: ids strictly increase along the array. */
  predicate IdsIncreasing<B>(s: seq<Entry<B>>) {
    forall i, j :: 0 <= i < j < |s| ==> s[i].id < s[j].id
  }

  predicate HasId<B>(s: seq<Entry<B>>, id: int) {
    exists k :: 0 <= k < |s| && s[k].id == id
  }

  /** The id create assigns: the last record's id plus one, or 1 for an
      empty array. While ids increase it exceeds every stored id, and it is
      positive when they are. */
  function NextId<B>(s: seq<Entry<B>>): (r: int)
    ensures s == [] ==> r == 1
    ensures IdsIncreasing(s) ==> forall k :: 0 <= k < |s| ==> s[k].id < r
    ensures (forall k :: 0 <= k < |s| ==> s[k].id > 0) ==> r > 0
  {
    if |s| > 0 then s[|s| - 1].id + 1 else 1
  }

  /** `s.findIndex(e => e.id === id)`: the first matching position, or -1. */
  function IndexOf<B>(s: seq<Entry<B>>, id: Option<int>): (r: int)
    ensures -1 <= r < |s|
    ensures r == -1 <==> forall k :: 0 <= k < |s| ==> !Matches(s[k], id)
    ensures r >= 0 ==> Matches(s[r], id) && forall k :: 0 <= k < r ==> !Matches(s[k], id)
  {
    if s == [] then -1
    else if Matches(s[0], id) then 0
    else
      var r := IndexOf(s[1..], id);
      if r == -1 then -1 else r + 1
  }

  /** Under the invariant a record with the id is the only one, so the search
      finds exactly it. */
  lemma IndexOfUnique<B>(s: seq<Entry<B>>, id: Option<int>, k: int)
    requires IdsIncreasing(s) && 0 <= k < |s| && Matches(s[k], id)
    ensures IndexOf(s, id) == k
  {
  }

  /** `s.splice(i, 1)` as a value: `s` without position `i`. */
  function RemoveAt<B>(s: seq<Entry<B>>, i: nat): (r: seq<Entry<B>>)
    requires i < |s|
    ensures |r| == |s| - 1
    ensures forall k :: 0 <= k < i ==> r[k] == s[k]
    ensures forall k :: i <= k < |r| ==> r[k] == s[k + 1]
  {
    s[..i] + s[i + 1..]
  }

  /** GET of the whole collection: always 200 with the array, nothing changes. */
  function ListAll<B>(s: seq<Entry<B>>): (r: Step<B>)
    ensures r.items == s
    ensures r.resp.status == StatusOk && r.resp.body.Records? && r.resp.body.recs == s
  {
    Step(s, Response(StatusOk, Records(s)))
  }

  /** GET by id; `missing` is the resource's "not found" message. The array
      never changes; the answer is 404 exactly when no record matches, and
      otherwise 200 with the first stored record that matches. */
  function GetById<B>(s: seq<Entry<B>>, id: Option<int>, missing: string): (r: Step<B>)
    ensures r.items == s
    ensures r.resp.status == StatusNotFound <==> forall k :: 0 <= k < |s| ==> !Matches(s[k], id)
    ensures r.resp.status == StatusNotFound ==> r.resp.body == Error(missing)
    ensures r.resp.status != StatusNotFound ==>
              r.resp.status == StatusOk && r.resp.body.Record? &&
              r.resp.body.rec in s && Matches(r.resp.body.rec, id) &&
              r.resp.body.rec == s[IndexOf(s, id)]
  {
    var i := IndexOf(s, id);
    if i < 0 then Step(s, Response(StatusNotFound, Error(missing)))
    else Step(s, Response(StatusOk, Record(s[i])))
  }

  /** DELETE by id: `splice` out the first match and answer with it. With no
      match it answers 404 and changes nothing; otherwise the array loses
      exactly the one record it answers with. */
  function DeleteById<B>(s: seq<Entry<B>>, id: Option<int>, missing: string): (r: Step<B>)
    ensures r.resp.status == StatusNotFound <==> forall k :: 0 <= k < |s| ==> !Matches(s[k], id)
    ensures r.resp.status == StatusNotFound ==> r == Step(s, Response(StatusNotFound, Error(missing)))
    ensures r.resp.status != StatusNotFound ==>
              r.resp.status == StatusOk && r.resp.body.Record? &&
              Matches(r.resp.body.rec, id) && |r.items| == |s| - 1 &&
              multiset(r.items) + multiset{r.resp.body.rec} == multiset(s)
  {
    var i := IndexOf(s, id);
    if i < 0 then Step(s, Response(StatusNotFound, Error(missing)))
    else
      assert s == s[..i] + [s[i]] + s[i + 1..];
      Step(RemoveAt(s, i), Response(StatusOk, Record(s[i])))
  }

  /** The record create stores for the given fields, and the step that pushes
      it: 201 with a record carrying the fields under an id no stored record
      has while ids increase, appended after every existing record. */
  function Append<B>(s: seq<Entry<B>>, fields: B): (r: Step<B>)
    ensures r.resp.status == StatusCreated && r.resp.body.Record?
    ensures r.items == s + [r.resp.body.rec]
    ensures r.resp.body.rec.fields == fields && r.resp.body.rec.id == NextId(s)
    ensures IdsIncreasing(s) ==> !HasId(s, r.resp.body.rec.id)
  {
    var e := Entry(NextId(s), fields);
    Step(s + [e], Response(StatusCreated, Record(e)))
  }

  /** Under the invariant the last id is the largest, so the next id is
      fresh and appending it keeps the ids increasing. */
  lemma {:induction false} AppendKeepsIncreasing<B>(s: seq<Entry<B>>, fields: B)
    requires IdsIncreasing(s)
    ensures forall k :: 0 <= k < |s| ==> s[k].id < NextId(s)
    ensures !HasId(s, NextId(s))
    ensures IdsIncreasing(Append(s, fields).items)
  {
    var t := Append(s, fields).items;
    forall i, j | 0 <= i < j < |t| ensures t[i].id < t[j].id {
      if j < |s| {
        assert t[i] == s[i] && t[j] == s[j];
      } else if i < |s| - 1 {
        assert s[i].id < s[|s| - 1].id;
      }
    }
  }

  /** Removing one record keeps the ids increasing. */
  lemma RemoveAtKeepsIncreasing<B>(s: seq<Entry<B>>, i: nat)
    requires IdsIncreasing(s) && i < |s|
    ensures IdsIncreasing(RemoveAt(s, i))
  {
    var r := RemoveAt(s, i);
    forall a, b | 0 <= a < b < |r| ensures r[a].id < r[b].id {
      var a' := if a < i then a else a + 1;
      var b' := if b < i then b else b + 1;
      assert r[a] == s[a'] && r[b] == s[b'];
    }
  }

  /** Replacing a record by one with the same id keeps the ids increasing. */
  lemma SameIdsKeepIncreasing<B>(s: seq<Entry<B>>, t: seq<Entry<B>>)
    requires IdsIncreasing(s) && |t| == |s|
    requires forall k :: 0 <= k < |s| ==> t[k].id == s[k].id
    ensures IdsIncreasing(t)
  {
  }

  /** Get returns the one record whose id equals the parsed id, and answers
      404 with the resource's message when there is none or the id did not
      parse; it never changes the store. */
  lemma GetFindsTheRecord<B>(s: seq<Entry<B>>, id: Option<int>, missing: string)
    requires IdsIncreasing(s)
    ensures GetById(s, id, missing).items == s
    ensures forall k :: 0 <= k < |s| && Matches(s[k], id) ==>
              GetById(s, id, missing).resp == Response(StatusOk, Record(s[k]))
    ensures id.None? || !HasId(s, id.value) ==>
              GetById(s, id, missing).resp == Response(StatusNotFound, Error(missing))
  {
    forall k | 0 <= k < |s| && Matches(s[k], id)
      ensures GetById(s, id, missing).resp == Response(StatusOk, Record(s[k]))
    {
      IndexOfUnique(s, id, k);
    }
  }

  /** Delete of a known id removes exactly that record, answers with it,
      keeps the relative order of the rest and the invariant, and leaves no
      record with that id behind. */
  lemma DeleteRemovesTheRecord<B>(s: seq<Entry<B>>, id: Option<int>, missing: string, k: int)
    requires IdsIncreasing(s) && 0 <= k < |s| && Matches(s[k], id)
    ensures DeleteById(s, id, missing).resp == Response(StatusOk, Record(s[k]))
    ensures DeleteById(s, id, missing).items == s[..k] + s[k + 1..]
    ensures |DeleteById(s, id, missing).items| == |s| - 1
    ensures IdsIncreasing(DeleteById(s, id, missing).items)
    ensures !HasId(DeleteById(s, id, missing).items, id.value)
  {
    IndexOfUnique(s, id, k);
    RemoveAtKeepsIncreasing(s, k);
  }

  /** Delete of an unknown or unparsable id answers 404 and changes nothing. */
  lemma DeleteUnknown<B>(s: seq<Entry<B>>, id: Option<int>, missing: string)
    requires id.None? || !HasId(s, id.value)
    ensures DeleteById(s, id, missing) == Step(s, Response(StatusNotFound, Error(missing)))
  {
  }

  /** Two writes to the same position: the second wins. */
  lemma UpdateTwice<T>(s: seq<T>, i: nat, x: T, y: T)
    requires i < |s|
    ensures s[i := x][i := y] == s[i := y]
  {
  }

  /** A store: the module-level array of one resource, mutated in place by
      the handlers. */
  class Store<B> {
    var items: seq<Entry<B>>

    constructor (seed: seq<Entry<B>>)
      ensures items == seed
    {
      items := seed;
    }

    /** `items.findIndex(e => e.id === id)`. */
    method FindIndex(id: Option<int>) returns (i: int)
      ensures -1 <= i < |items|
      ensures i == -1 <==> forall k :: 0 <= k < |items| ==> !Matches(items[k], id)
      ensures i >= 0 ==> Matches(items[i], id) && forall k :: 0 <= k < i ==> !Matches(items[k], id)
      ensures i == IndexOf(items, id)
    {
      i := 0;
      while i < |items|
        invariant 0 <= i <= |items|
        invariant forall k :: 0 <= k < i ==> !Matches(items[k], id)
      {
        if Matches(items[i], id) {
          return;
        }
        i := i + 1;
      }
      i := -1;
    }

    /** `items.find(e => e.id === id)`: the first matching record, if any. */
    method Find(id: Option<int>) returns (r: Option<Entry<B>>)
      ensures r.None? <==> forall k :: 0 <= k < |items| ==> !Matches(items[k], id)
      ensures r.Some? ==> r.value == items[IndexOf(items, id)] && Matches(r.value, id)
    {
      var i := FindIndex(id);
      r := if i < 0 then None else Some(items[i]);
    }

    /** `items.push(e)`. */
    method Push(e: Entry<B>)
      modifies this
      ensures items == old(items) + [e]
    {
      items := items + [e];
    }

    /** Overwrites the fields of the record at position `i` in place; its id stays. */
    method SetFields(i: nat, fields: B)
      requires i < |items|
      modifies this
      ensures items == old(items)[i := Entry(old(items)[i].id, fields)]
    {
      items := items[i := Entry(items[i].id, fields)];
    }

    /** `items.splice(i, 1)[0]`: removes position `i` and returns what was there. */
    method Splice(i: nat) returns (removed: Entry<B>)
      requires i < |items|
      modifies this
      ensures removed == old(items)[i]
      ensures items == RemoveAt(old(items), i)
    {
      removed := items[i];
      items := items[..i] + items[i + 1..];
    }
  }
}
