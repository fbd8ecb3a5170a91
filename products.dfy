/** The product store and its five route handlers: POST /products,
    GET /products, GET /products/:id, PUT /products/:id, DELETE /products/:id. */
module Products {
  import opened JsStrings
  import opened JsValues
  import opened Records

  /** The fields of a product besides its id. */
  datatype Product = Product(name: string, price: Num, stock: Num)

  /** The three keys the handlers destructure from `req.body`. */
  datatype ProductBody = ProductBody(name: Value, price: Value, stock: Value)

  const NameError := "Name must be a non-empty string"
  const PriceError := "Price must be a number"
  const StockError := "Stock must be an integer"
  const NotFound := "Product not found"

  /** The array the server starts with. */
  const Seed: seq<Entry<Product>> := [
    Entry(1, Product("Laptop", Finite(1200.0), Finite(10.0))),
    Entry(2, Product("Mouse", Finite(25.0), Finite(50.0)))
  ]

  /** What every stored product satisfies: a non-empty trimmed name, a price
      that is a number other than NaN (an infinity passes), an integer stock. */
  predicate WellFormed(p: Product) {
    p.name != [] && IsTrimmed(p.name) && !p.price.NaN? && IsIntegral(p.stock)
  }

  /** The store invariant: increasing positive ids and well-formed products. */
  predicate Valid(s: seq<Entry<Product>>) {
    IdsIncreasing(s) && forall k :: 0 <= k < |s| ==> s[k].id > 0 && WellFormed(s[k].fields)
  }

  /** Create's checks in their order; the first failing one names the error. */
  function CreateError(b: ProductBody): (r: Option<string>)
    ensures r.None? <==> IsNonEmptyString(b.name) && IsNumberNotNaN(b.price) && IsInteger(b.stock)
    ensures r == Some(NameError) <==> !IsNonEmptyString(b.name)
    ensures r == Some(PriceError) <==> IsNonEmptyString(b.name) && !IsNumberNotNaN(b.price)
    ensures r == Some(StockError) <==>
              IsNonEmptyString(b.name) && IsNumberNotNaN(b.price) && !IsInteger(b.stock)
  {
    if !IsNonEmptyString(b.name) then Some(NameError)
    else if !IsNumberNotNaN(b.price) then Some(PriceError)
    else if !IsInteger(b.stock) then Some(StockError)
    else None
  }

  /** POST /products on the array `s`: 201 exactly when every check passes,
      and then one well-formed product with the next id is appended; otherwise
      400 with the first failing check's message and the array unchanged. */
  function Create(s: seq<Entry<Product>>, b: ProductBody): (r: Step<Product>)
    ensures r.resp.status == StatusCreated <==> CreateError(b).None?
    ensures CreateError(b).Some? ==>
              r == Step(s, Response(StatusBadRequest, Error(CreateError(b).value)))
    ensures CreateError(b).None? ==>
              r.resp.body.Record? && r.items == s + [r.resp.body.rec] &&
              r.resp.body.rec.id == NextId(s) && WellFormed(r.resp.body.rec.fields)
  {
    match CreateError(b)
    case Some(msg) => Step(s, Response(StatusBadRequest, Error(msg)))
    case None => Append(s, Product(Trim(b.name.s), b.price.n, b.stock.n))
  }

  /** Update checks a field only when the key is present (not `undefined`);
      a present `null` is checked, and fails. */
  predicate NameOk(b: ProductBody) { b.name.Undefined? || IsNonEmptyString(b.name) }
  predicate PriceOk(b: ProductBody) { b.price.Undefined? || IsNumberNotNaN(b.price) }
  predicate StockOk(b: ProductBody) { b.stock.Undefined? || IsInteger(b.stock) }

  /** Update's checks in their order; the first failing one names the error. */
  function UpdateError(b: ProductBody): (r: Option<string>)
    ensures r.None? <==> NameOk(b) && PriceOk(b) && StockOk(b)
    ensures r == Some(NameError) <==> !NameOk(b)
    ensures r == Some(PriceError) <==> NameOk(b) && !PriceOk(b)
    ensures r == Some(StockError) <==> NameOk(b) && PriceOk(b) && !StockOk(b)
  {
    if !NameOk(b) then Some(NameError)
    else if !PriceOk(b) then Some(PriceError)
    else if !StockOk(b) then Some(StockError)
    else None
  }

  /** The product after the writes an update makes before it stops: a field
      is overwritten when it is present and valid and every field checked
      before it was absent or valid. Read against `UpdateError`: nothing is
      written when the name check fails, the name only when the price check
      fails, name and price when the stock check fails, and every present
      field when all pass. A well-formed product stays well-formed. */
  function Patch(p: Product, b: ProductBody): (q: Product)
    ensures UpdateError(b) == Some(NameError) ==> q == p
    ensures UpdateError(b) != Some(NameError) ==>
              q.name == (if b.name.Undefined? then p.name else Trim(b.name.s))
    ensures UpdateError(b) == Some(PriceError) ==> q.price == p.price && q.stock == p.stock
    ensures UpdateError(b).None? || UpdateError(b) == Some(StockError) ==>
              q.price == (if b.price.Undefined? then p.price else b.price.n)
    ensures UpdateError(b) == Some(StockError) ==> q.stock == p.stock
    ensures UpdateError(b).None? ==>
              q.stock == (if b.stock.Undefined? then p.stock else b.stock.n)
    ensures WellFormed(p) ==> WellFormed(q)
  {
    Product(
      if IsNonEmptyString(b.name) then Trim(b.name.s) else p.name,
      if NameOk(b) && IsNumberNotNaN(b.price) then b.price.n else p.price,
      if NameOk(b) && PriceOk(b) && IsInteger(b.stock) then b.stock.n else p.stock)
  }

  /** PUT /products/:id on the array `s`. The writes that precede a failing
      check stay in the array even though the response is 400. Only the
      matching record can change, and never its id; the status is 404 exactly
      when nothing matches, otherwise 200 exactly when every check passes. */
  function Update(s: seq<Entry<Product>>, id: Option<int>, b: ProductBody): (r: Step<Product>)
    ensures |r.items| == |s| && forall k :: 0 <= k < |s| ==> r.items[k].id == s[k].id
    ensures r.resp.status == StatusNotFound <==> forall k :: 0 <= k < |s| ==> !Matches(s[k], id)
    ensures r.resp.status == StatusNotFound ==> r == Step(s, Response(StatusNotFound, Error(NotFound)))
    ensures r.resp.status != StatusNotFound ==>
              (forall k :: 0 <= k < |s| && k != IndexOf(s, id) ==> r.items[k] == s[k]) &&
              (r.resp.status == StatusOk <==> UpdateError(b).None?) &&
              (UpdateError(b).Some? ==> r.resp == Response(StatusBadRequest, Error(UpdateError(b).value))) &&
              (UpdateError(b).None? ==> r.resp == Response(StatusOk, Record(r.items[IndexOf(s, id)])))
  {
    var i := IndexOf(s, id);
    if i < 0 then Step(s, Response(StatusNotFound, Error(NotFound)))
    else
      var e := Entry(s[i].id, Patch(s[i].fields, b));
      var resp := match UpdateError(b)
        case Some(msg) => Response(StatusBadRequest, Error(msg))
        case None => Response(StatusOk, Record(e));
      Step(s[i := e], resp)
  }

  // ------------------------------------------------------------------
  // Route handlers on the store object

  /** POST /products. */
  method PostProduct(store: Store<Product>, body: ProductBody) returns (resp: Response<Product>)
    modifies store
    ensures Step(store.items, resp) == Create(old(store.items), body)
  {
    if !IsNonEmptyString(body.name) {
      return Response(StatusBadRequest, Error(NameError));
    }
    if !IsNumberNotNaN(body.price) {
      return Response(StatusBadRequest, Error(PriceError));
    }
    if !IsInteger(body.stock) {
      return Response(StatusBadRequest, Error(StockError));
    }
    var created := Entry(NextId(store.items), Product(Trim(body.name.s), body.price.n, body.stock.n));
    store.Push(created);
    resp := Response(StatusCreated, Record(created));
  }

  /** GET /products: the whole array, in insertion order. */
  method ListProducts(store: Store<Product>) returns (resp: Response<Product>)
    ensures Step(store.items, resp) == ListAll(store.items)
  {
    resp := Response(StatusOk, Records(store.items));
  }

  /** GET /products/:id. */
  method GetProduct(store: Store<Product>, id: Option<int>) returns (resp: Response<Product>)
    ensures Step(store.items, resp) == GetById(store.items, id, NotFound)
  {
    var found := store.Find(id);
    if found.None? {
      return Response(StatusNotFound, Error(NotFound));
    }
    resp := Response(StatusOk, Record(found.value));
  }

  /** PUT /products/:id: checks and writes one field after another, returning
      at the first failing check. */
  method PutProduct(store: Store<Product>, id: Option<int>, body: ProductBody) returns (resp: Response<Product>)
    modifies store
    ensures Step(store.items, resp) == Update(old(store.items), id, body)
  {
    var i := store.FindIndex(id);
    if i == -1 {
      return Response(StatusNotFound, Error(NotFound));
    }
    ghost var s := store.items;
    ghost var p := s[i].fields;
    ghost var cur := p;
    assert store.items == s[i := Entry(s[i].id, cur)];
    if !body.name.Undefined? {
      if !IsNonEmptyString(body.name) {
        assert Patch(p, body) == p;
        return Response(StatusBadRequest, Error(NameError));
      }
      store.SetFields(i, store.items[i].fields.(name := Trim(body.name.s)));
      UpdateTwice(s, i, Entry(s[i].id, cur), Entry(s[i].id, cur.(name := Trim(body.name.s))));
      cur := cur.(name := Trim(body.name.s));
    }
    assert cur == p.(name := Patch(p, body).name);
    if !body.price.Undefined? {
      if !IsNumberNotNaN(body.price) {
        assert Patch(p, body) == cur;
        return Response(StatusBadRequest, Error(PriceError));
      }
      store.SetFields(i, store.items[i].fields.(price := body.price.n));
      UpdateTwice(s, i, Entry(s[i].id, cur), Entry(s[i].id, cur.(price := body.price.n)));
      cur := cur.(price := body.price.n);
    }
    assert cur == p.(name := Patch(p, body).name, price := Patch(p, body).price);
    if !body.stock.Undefined? {
      if !IsInteger(body.stock) {
        assert Patch(p, body) == cur;
        return Response(StatusBadRequest, Error(StockError));
      }
      store.SetFields(i, store.items[i].fields.(stock := body.stock.n));
      UpdateTwice(s, i, Entry(s[i].id, cur), Entry(s[i].id, cur.(stock := body.stock.n)));
      cur := cur.(stock := body.stock.n);
    }
    assert cur == Patch(p, body);
    resp := Response(StatusOk, Record(store.items[i]));
  }

  /** DELETE /products/:id. */
  method DeleteProduct(store: Store<Product>, id: Option<int>) returns (resp: Response<Product>)
    modifies store
    ensures Step(store.items, resp) == DeleteById(old(store.items), id, NotFound)
  {
    var i := store.FindIndex(id);
    if i == -1 {
      return Response(StatusNotFound, Error(NotFound));
    }
    var removed := store.Splice(i);
    resp := Response(StatusOk, Record(removed));
  }

  // ------------------------------------------------------------------
  // Properties of the handlers

  /** The seeded array satisfies the store invariant. */
  lemma SeedValid()
    ensures Valid(Seed)
  {
  }

  /** A create whose three checks pass appends exactly one product at the
      end: earlier records are untouched, its id is the previous last id + 1
      (1 for an empty array), its name is trimmed, price and stock are stored
      as given, and the response is 201 with that record. */
  lemma CreateAppends(s: seq<Entry<Product>>, b: ProductBody)
    requires IsNonEmptyString(b.name) && IsNumberNotNaN(b.price) && IsInteger(b.stock)
    ensures var st := Create(s, b);
      |st.items| == |s| + 1 && st.items[..|s|] == s &&
      st.resp == Response(StatusCreated, Record(st.items[|s|])) &&
      st.items[|s|].id == (if s == [] then 1 else s[|s| - 1].id + 1) &&
      st.items[|s|].fields == Product(Trim(b.name.s), b.price.n, b.stock.n)
  {
    assert (s + [Entry(NextId(s), Product(Trim(b.name.s), b.price.n, b.stock.n))])[..|s|] == s;
  }

  /** Create checks name, then price, then stock; the first failing check
      answers 400 with that field's message and the array is unchanged. */
  lemma CreateRejects(s: seq<Entry<Product>>, b: ProductBody)
    ensures !IsNonEmptyString(b.name) ==>
              Create(s, b) == Step(s, Response(StatusBadRequest, Error(NameError)))
    ensures IsNonEmptyString(b.name) && !IsNumberNotNaN(b.price) ==>
              Create(s, b) == Step(s, Response(StatusBadRequest, Error(PriceError)))
    ensures IsNonEmptyString(b.name) && IsNumberNotNaN(b.price) && !IsInteger(b.stock) ==>
              Create(s, b) == Step(s, Response(StatusBadRequest, Error(StockError)))
  {
  }

  /** Create keeps the invariant: the new id exceeds every stored id, and the
      stored strings are non-empty and trimmed. */
  lemma CreateKeepsValid(s: seq<Entry<Product>>, b: ProductBody)
    requires Valid(s)
    ensures Valid(Create(s, b).items)
  {
    if CreateError(b).None? {
      var p := Product(Trim(b.name.s), b.price.n, b.stock.n);
      assert WellFormed(p);
      AppendKeepsValid(s, p);
    }
  }

  lemma AppendKeepsValid(s: seq<Entry<Product>>, p: Product)
    requires Valid(s) && WellFormed(p)
    ensures Valid(Append(s, p).items)
  {
    AppendKeepsIncreasing(s, p);
    var t := Append(s, p).items;
    assert forall k :: 0 <= k < |t| ==> t[k] == (if k < |s| then s[k] else Entry(NextId(s), p));
  }

  /** Update of an unknown or unparsable id answers 404 and changes nothing. */
  lemma UpdateUnknown(s: seq<Entry<Product>>, id: Option<int>, b: ProductBody)
    requires id.None? || !HasId(s, id.value)
    ensures Update(s, id, b) == Step(s, Response(StatusNotFound, Error(NotFound)))
  {
  }

  /** Update of a known id touches only that record: the length, the order
      and every other record stay, the id never changes, and a field whose
      key is absent from the body keeps its value. */
  lemma UpdateKnown(s: seq<Entry<Product>>, id: Option<int>, b: ProductBody, k: int)
    requires IdsIncreasing(s) && 0 <= k < |s| && Matches(s[k], id)
    ensures var t := Update(s, id, b).items;
      |t| == |s| && t[k].id == s[k].id &&
      (forall j :: 0 <= j < |s| && j != k ==> t[j] == s[j]) &&
      (b.name.Undefined? ==> t[k].fields.name == s[k].fields.name) &&
      (b.price.Undefined? ==> t[k].fields.price == s[k].fields.price) &&
      (b.stock.Undefined? ==> t[k].fields.stock == s[k].fields.stock)
  {
    IndexOfUnique(s, id, k);
  }

  /** Update of a known id, check by check. A failing check answers 400 with
      its field's message, yet the fields written before it stay written
      (partial mutation); when every check passes the answer is 200 with the
      updated record. */
  lemma UpdateStopsAtFirstFailure(s: seq<Entry<Product>>, id: Option<int>, b: ProductBody, k: int)
    requires IdsIncreasing(s) && 0 <= k < |s| && Matches(s[k], id)
    ensures var st := Update(s, id, b);
      var p := s[k].fields;
      var name := if b.name.Str? then Trim(b.name.s) else p.name;
      var price := if b.price.Number? then b.price.n else p.price;
      var stock := if b.stock.Number? then b.stock.n else p.stock;
      (!NameOk(b) ==>
         st == Step(s, Response(StatusBadRequest, Error(NameError)))) &&
      (NameOk(b) && !PriceOk(b) ==>
         st == Step(s[k := Entry(s[k].id, p.(name := name))], Response(StatusBadRequest, Error(PriceError)))) &&
      (NameOk(b) && PriceOk(b) && !StockOk(b) ==>
         st == Step(s[k := Entry(s[k].id, p.(name := name, price := price))], Response(StatusBadRequest, Error(StockError)))) &&
      (NameOk(b) && PriceOk(b) && StockOk(b) ==>
         st.items == s[k := Entry(s[k].id, Product(name, price, stock))] &&
         st.resp == Response(StatusOk, Record(st.items[k])))
  {
    IndexOfUnique(s, id, k);
    assert s[k := s[k]] == s;
  }

  /** A key that is present with the value `null` is checked, and fails. */
  lemma UpdateNullFails(s: seq<Entry<Product>>, id: Option<int>, b: ProductBody, k: int)
    requires IdsIncreasing(s) && 0 <= k < |s| && Matches(s[k], id)
    ensures b.name.Null? ==> Update(s, id, b).resp == Response(StatusBadRequest, Error(NameError))
    ensures NameOk(b) && b.price.Null? ==> Update(s, id, b).resp == Response(StatusBadRequest, Error(PriceError))
    ensures NameOk(b) && PriceOk(b) && b.stock.Null? ==>
              Update(s, id, b).resp == Response(StatusBadRequest, Error(StockError))
  {
    IndexOfUnique(s, id, k);
  }

  /** Update keeps the invariant, also when it stops half-way. */
  lemma UpdateKeepsValid(s: seq<Entry<Product>>, id: Option<int>, b: ProductBody)
    requires Valid(s)
    ensures Valid(Update(s, id, b).items)
  {
    var i := IndexOf(s, id);
    if i >= 0 {
      var t := Update(s, id, b).items;
      SameIdsKeepIncreasing(s, t);
      assert WellFormed(t[i].fields);
    }
  }

  /** Round trip: the record a create answers with is the one a following
      GET of its id returns. */
  lemma CreateThenGet(s: seq<Entry<Product>>, b: ProductBody)
    requires Valid(s)
    requires IsNonEmptyString(b.name) && IsNumberNotNaN(b.price) && IsInteger(b.stock)
    ensures var st := Create(s, b);
      st.resp.body.Record? &&
      GetById(st.items, Some(st.resp.body.rec.id), NotFound) == Step(st.items, Response(StatusOk, st.resp.body))
  {
    var p := Product(Trim(b.name.s), b.price.n, b.stock.n);
    AppendKeepsIncreasing(s, p);
    var t := Append(s, p).items;
    IndexOfUnique(t, Some(NextId(s)), |s|);
  }

  /** Ids are not fresh over the store's history: deleting the last record
      and then creating one hands out an id no larger than the deleted one. */
  lemma DeleteLastThenCreate(s: seq<Entry<Product>>, b: ProductBody)
    requires Valid(s) && |s| > 0
    requires IsNonEmptyString(b.name) && IsNumberNotNaN(b.price) && IsInteger(b.stock)
    ensures Create(DeleteById(s, Some(s[|s| - 1].id), NotFound).items, b).resp.body.rec.id <= s[|s| - 1].id
  {
    var last := |s| - 1;
    IndexOfUnique(s, Some(s[last].id), last);
    var t := RemoveAt(s, last);
    if |t| > 0 {
      assert t[|t| - 1] == s[last - 1];
    }
  }

  /** On the seeded array: deleting product 2 and creating a product gives
      the new one id 2 again. */
  lemma SeedIdReused(b: ProductBody)
    requires IsNonEmptyString(b.name) && IsNumberNotNaN(b.price) && IsInteger(b.stock)
    ensures Create(DeleteById(Seed, Some(2), NotFound).items, b).resp.body.rec.id == 2
  {
    IndexOfUnique(Seed, Some(2), 1);
  }

  /** The price check accepts an infinite number and stores it. */
  lemma InfinitePriceStored(s: seq<Entry<Product>>, b: ProductBody)
    requires IsNonEmptyString(b.name) && b.price == Number(Infinity(false)) && IsInteger(b.stock)
    ensures Create(s, b).resp.status == StatusCreated
    ensures Create(s, b).resp.body.rec.fields.price == Infinity(false)
  {
  }

  /** POST {"name":"Keyboard","price":45,"stock":5} on the seeded array
      answers 201 with id 3. */
  lemma KeyboardScenario()
    ensures var created := Entry(3, Product("Keyboard", Finite(45.0), Finite(5.0)));
      Create(Seed, ProductBody(Str("Keyboard"), Number(Finite(45.0)), Number(Finite(5.0))))
        == Step(Seed + [created], Response(StatusCreated, Record(created)))
  {
    TrimTrimmed("Keyboard");
  }

  /** POST {"name":"","price":10,"stock":1} answers 400 with the name message. */
  lemma EmptyNameScenario()
    ensures Create(Seed, ProductBody(Str(""), Number(Finite(10.0)), Number(Finite(1.0))))
      == Step(Seed, Response(StatusBadRequest, Error(NameError)))
  {
  }

  // ------------------------------------------------------------------
  // Any sequence of requests

  /** One request to the product routes. */
  datatype Request =
    | Post(body: ProductBody)
    | GetAll
    | GetOne(id: Option<int>)
    | Put(id: Option<int>, body: ProductBody)
    | Remove(id: Option<int>)

  function Handle(s: seq<Entry<Product>>, r: Request): Step<Product> {
    match r
    case Post(b) => Create(s, b)
    case GetAll => ListAll(s)
    case GetOne(id) => GetById(s, id, NotFound)
    case Put(id, b) => Update(s, id, b)
    case Remove(id) => DeleteById(s, id, NotFound)
  }

  /** The array after handling the requests one at a time, in order. */
  function Run(s: seq<Entry<Product>>, rs: seq<Request>): seq<Entry<Product>>
    decreases |rs|
  {
    if rs == [] then s else Run(Handle(s, rs[0]).items, rs[1..])
  }

  lemma HandleKeepsValid(s: seq<Entry<Product>>, r: Request)
    requires Valid(s)
    ensures Valid(Handle(s, r).items)
  {
    match r
    case Post(b) => CreateKeepsValid(s, b);
    case GetAll =>
    case GetOne(id) =>
    case Put(id, b) => UpdateKeepsValid(s, id, b);
    case Remove(id) =>
      var i := IndexOf(s, id);
      if i >= 0 {
        RemoveAtKeepsIncreasing(s, i);
        var t := RemoveAt(s, i);
        assert forall k :: 0 <= k < |t| ==> t[k] == s[if k < i then k else k + 1];
      }
  }

  /** Every request keeps the invariant, so after any sequence of requests
      from the seeded array the ids still increase (hence are unique, the
      last being the largest) and every stored name is non-empty and trimmed. */
  lemma {:induction false} RunKeepsValid(s: seq<Entry<Product>>, rs: seq<Request>)
    requires Valid(s)
    ensures Valid(Run(s, rs))
    decreases |rs|
  {
    if rs != [] {
      HandleKeepsValid(s, rs[0]);
      RunKeepsValid(Handle(s, rs[0]).items, rs[1..]);
    }
  }

  lemma StoredNamesTrimmed(rs: seq<Request>)
    ensures var t := Run(Seed, rs);
      forall k :: 0 <= k < |t| ==> t[k].fields.name != [] && IsTrimmed(t[k].fields.name)
    ensures IdsIncreasing(Run(Seed, rs))
  {
    SeedValid();
    RunKeepsValid(Seed, rs);
  }
}
