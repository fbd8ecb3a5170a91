/** The album store and its five route handlers: POST /albums, GET /albums,
    GET /albums/:id, PUT /albums/:id, DELETE /albums/:id. Same shape as the
    product routes, with three string fields and no numeric one. */
module Albums {
  import opened JsStrings
  import opened JsValues
  import opened Records

  /** The fields of an album besides its id. */
  datatype Album = Album(artist: string, title: string, format: string)

  /** The three keys the handlers destructure from `req.body`. */
  datatype AlbumBody = AlbumBody(artist: Value, title: Value, format: Value)

  const ArtistError := "Artist must be a non-empty string"
  const TitleError := "Title must be a non-empty string"
  const FormatError := "Format must be a non-empty string"
  const NotFound := "Album not found"

  /** The array the server starts with. */
  const Seed: seq<Entry<Album>> := [
    Entry(1, Album("Pink Floyd", "The Dark Side of the Moon", "Vinyl")),
    Entry(2, Album("Radiohead", "OK Computer", "CD"))
  ]

  predicate NonEmptyTrimmed(s: string) {
    s != [] && IsTrimmed(s)
  }

  /** What every stored album satisfies: three non-empty trimmed strings. */
  predicate WellFormed(a: Album) {
    NonEmptyTrimmed(a.artist) && NonEmptyTrimmed(a.title) && NonEmptyTrimmed(a.format)
  }

  /** The store invariant: increasing positive ids and well-formed albums. */
  predicate Valid(s: seq<Entry<Album>>) {
    IdsIncreasing(s) && forall k :: 0 <= k < |s| ==> s[k].id > 0 && WellFormed(s[k].fields)
  }

  /** Create's checks in their order; the first failing one names the error. */
  function CreateError(b: AlbumBody): (r: Option<string>)
    ensures r.None? <==> IsNonEmptyString(b.artist) && IsNonEmptyString(b.title) && IsNonEmptyString(b.format)
    ensures r == Some(ArtistError) <==> !IsNonEmptyString(b.artist)
    ensures r == Some(TitleError) <==> IsNonEmptyString(b.artist) && !IsNonEmptyString(b.title)
    ensures r == Some(FormatError) <==>
              IsNonEmptyString(b.artist) && IsNonEmptyString(b.title) && !IsNonEmptyString(b.format)
  {
    if !IsNonEmptyString(b.artist) then Some(ArtistError)
    else if !IsNonEmptyString(b.title) then Some(TitleError)
    else if !IsNonEmptyString(b.format) then Some(FormatError)
    else None
  }

  /** POST /albums on the array `s`: 201 exactly when every check passes,
      and then one well-formed album with the next id is appended; otherwise
      400 with the first failing check's message and the array unchanged. */
  function Create(s: seq<Entry<Album>>, b: AlbumBody): (r: Step<Album>)
    ensures r.resp.status == StatusCreated <==> CreateError(b).None?
    ensures CreateError(b).Some? ==>
              r == Step(s, Response(StatusBadRequest, Error(CreateError(b).value)))
    ensures CreateError(b).None? ==>
              r.resp.body.Record? && r.items == s + [r.resp.body.rec] &&
              r.resp.body.rec.id == NextId(s) && WellFormed(r.resp.body.rec.fields)
  {
    match CreateError(b)
    case Some(msg) => Step(s, Response(StatusBadRequest, Error(msg)))
    case None => Append(s, Album(Trim(b.artist.s), Trim(b.title.s), Trim(b.format.s)))
  }

  /** Update checks a field only when the key is present (not `undefined`);
      a present `null` is checked, and fails. */
  predicate ArtistOk(b: AlbumBody) { b.artist.Undefined? || IsNonEmptyString(b.artist) }
  predicate TitleOk(b: AlbumBody) { b.title.Undefined? || IsNonEmptyString(b.title) }
  predicate FormatOk(b: AlbumBody) { b.format.Undefined? || IsNonEmptyString(b.format) }

  /** Update's checks in their order; the first failing one names the error. */
  function UpdateError(b: AlbumBody): (r: Option<string>)
    ensures r.None? <==> ArtistOk(b) && TitleOk(b) && FormatOk(b)
    ensures r == Some(ArtistError) <==> !ArtistOk(b)
    ensures r == Some(TitleError) <==> ArtistOk(b) && !TitleOk(b)
    ensures r == Some(FormatError) <==> ArtistOk(b) && TitleOk(b) && !FormatOk(b)
  {
    if !ArtistOk(b) then Some(ArtistError)
    else if !TitleOk(b) then Some(TitleError)
    else if !FormatOk(b) then Some(FormatError)
    else None
  }

  /** The album after the writes an update makes before it stops: a field is
      overwritten when it is present and valid and every field checked
      before it was absent or valid. Read against `UpdateError`: nothing is
      written when the artist check fails, the artist only when the title
      check fails, artist and title when the format check fails, and every
      present field when all pass. A well-formed album stays well-formed. */
  function Patch(a: Album, b: AlbumBody): (q: Album)
    ensures UpdateError(b) == Some(ArtistError) ==> q == a
    ensures UpdateError(b) != Some(ArtistError) ==>
              q.artist == (if b.artist.Undefined? then a.artist else Trim(b.artist.s))
    ensures UpdateError(b) == Some(TitleError) ==> q.title == a.title && q.format == a.format
    ensures UpdateError(b).None? || UpdateError(b) == Some(FormatError) ==>
              q.title == (if b.title.Undefined? then a.title else Trim(b.title.s))
    ensures UpdateError(b) == Some(FormatError) ==> q.format == a.format
    ensures UpdateError(b).None? ==>
              q.format == (if b.format.Undefined? then a.format else Trim(b.format.s))
    ensures WellFormed(a) ==> WellFormed(q)
  {
    Album(
      if IsNonEmptyString(b.artist) then Trim(b.artist.s) else a.artist,
      if ArtistOk(b) && IsNonEmptyString(b.title) then Trim(b.title.s) else a.title,
      if ArtistOk(b) && TitleOk(b) && IsNonEmptyString(b.format) then Trim(b.format.s) else a.format)
  }

  /** PUT /albums/:id on the array `s`. The writes that precede a failing
      check stay in the array even though the response is 400. Only the
      matching record can change, and never its id; the status is 404 exactly
      when nothing matches, otherwise 200 exactly when every check passes. */
  function Update(s: seq<Entry<Album>>, id: Option<int>, b: AlbumBody): (r: Step<Album>)
    ensures |r.items| == |s| && forall k :: 0 <= k < |s| ==> r.items[k].id == s[k].id
    ensures r.resp.status == StatusNotFound <==> forall k :: 0 <= k < |s| ==> !Matches(s[k], id)
    ensures r.resp.status == StatusNotFound ==> r == Step(s, Response(StatusNotFound, Error(NotFound)))
    ensures r.resp.status != StatusNotFound ==>
              (forall k :: 0 <= k < |s| && k != IndexOf(s, id) ==> r.items[k] == s[k]) &&
              (r.resp.status == StatusOk <==> UpdateError(b).None?) &&
              (UpdateError(b).Some? ==> r.resp == Response(StatusBadRequest, Error(UpdateError(b).value))) &&
              (UpdateError(b).None? ==> r.resp == Response(StatusOk, Record(r.items[IndexOf(s, id)])))
  {
    var i := IndexOf(s, id);
    if i < 0 then Step(s, Response(StatusNotFound, Error(NotFound)))
    else
      var e := Entry(s[i].id, Patch(s[i].fields, b));
      var resp := match UpdateError(b)
        case Some(msg) => Response(StatusBadRequest, Error(msg))
        case None => Response(StatusOk, Record(e));
      Step(s[i := e], resp)
  }

  // ------------------------------------------------------------------
  // Route handlers on the store object

  /** POST /albums. */
  method PostAlbum(store: Store<Album>, body: AlbumBody) returns (resp: Response<Album>)
    modifies store
    ensures Step(store.items, resp) == Create(old(store.items), body)
  {
    if !IsNonEmptyString(body.artist) {
      return Response(StatusBadRequest, Error(ArtistError));
    }
    if !IsNonEmptyString(body.title) {
      return Response(StatusBadRequest, Error(TitleError));
    }
    if !IsNonEmptyString(body.format) {
      return Response(StatusBadRequest, Error(FormatError));
    }
    var created := Entry(NextId(store.items), Album(Trim(body.artist.s), Trim(body.title.s), Trim(body.format.s)));
    store.Push(created);
    resp := Response(StatusCreated, Record(created));
  }

  /** GET /albums: the whole array, in insertion order. */
  method ListAlbums(store: Store<Album>) returns (resp: Response<Album>)
    ensures Step(store.items, resp) == ListAll(store.items)
  {
    resp := Response(StatusOk, Records(store.items));
  }

  /** GET /albums/:id. */
  method GetAlbum(store: Store<Album>, id: Option<int>) returns (resp: Response<Album>)
    ensures Step(store.items, resp) == GetById(store.items, id, NotFound)
  {
    var found := store.Find(id);
    if found.None? {
      return Response(StatusNotFound, Error(NotFound));
    }
    resp := Response(StatusOk, Record(found.value));
  }

  /** PUT /albums/:id: checks and writes one field after another, returning
      at the first failing check. */
  method PutAlbum(store: Store<Album>, id: Option<int>, body: AlbumBody) returns (resp: Response<Album>)
    modifies store
    ensures Step(store.items, resp) == Update(old(store.items), id, body)
  {
    var i := store.FindIndex(id);
    if i == -1 {
      return Response(StatusNotFound, Error(NotFound));
    }
    ghost var s := store.items;
    ghost var a := s[i].fields;
    ghost var cur := a;
    assert store.items == s[i := Entry(s[i].id, cur)];
    if !body.artist.Undefined? {
      if !IsNonEmptyString(body.artist) {
        assert Patch(a, body) == a;
        return Response(StatusBadRequest, Error(ArtistError));
      }
      store.SetFields(i, store.items[i].fields.(artist := Trim(body.artist.s)));
      UpdateTwice(s, i, Entry(s[i].id, cur), Entry(s[i].id, cur.(artist := Trim(body.artist.s))));
      cur := cur.(artist := Trim(body.artist.s));
    }
    assert cur == a.(artist := Patch(a, body).artist);
    if !body.title.Undefined? {
      if !IsNonEmptyString(body.title) {
        assert Patch(a, body) == cur;
        return Response(StatusBadRequest, Error(TitleError));
      }
      store.SetFields(i, store.items[i].fields.(title := Trim(body.title.s)));
      UpdateTwice(s, i, Entry(s[i].id, cur), Entry(s[i].id, cur.(title := Trim(body.title.s))));
      cur := cur.(title := Trim(body.title.s));
    }
    assert cur == a.(artist := Patch(a, body).artist, title := Patch(a, body).title);
    if !body.format.Undefined? {
      if !IsNonEmptyString(body.format) {
        assert Patch(a, body) == cur;
        return Response(StatusBadRequest, Error(FormatError));
      }
      store.SetFields(i, store.items[i].fields.(format := Trim(body.format.s)));
      UpdateTwice(s, i, Entry(s[i].id, cur), Entry(s[i].id, cur.(format := Trim(body.format.s))));
      cur := cur.(format := Trim(body.format.s));
    }
    assert cur == Patch(a, body);
    resp := Response(StatusOk, Record(store.items[i]));
  }

  /** DELETE /albums/:id. */
  method DeleteAlbum(store: Store<Album>, id: Option<int>) returns (resp: Response<Album>)
    modifies store
    ensures Step(store.items, resp) == DeleteById(old(store.items), id, NotFound)
  {
    var i := store.FindIndex(id);
    if i == -1 {
      return Response(StatusNotFound, Error(NotFound));
    }
    var removed := store.Splice(i);
    resp := Response(StatusOk, Record(removed));
  }

  // ------------------------------------------------------------------
  // Properties of the handlers

  /** The seeded array satisfies the store invariant. */
  lemma SeedValid()
    ensures Valid(Seed)
  {
    assert WellFormed(Seed[0].fields) by {
      assert NonEmptyTrimmed("Pink Floyd") && NonEmptyTrimmed("The Dark Side of the Moon");
      assert NonEmptyTrimmed("Vinyl");
    }
    assert WellFormed(Seed[1].fields) by {
      assert NonEmptyTrimmed("Radiohead") && NonEmptyTrimmed("OK Computer") && NonEmptyTrimmed("CD");
    }
  }

  /** A create whose three checks pass appends exactly one album at the end:
      earlier records are untouched, its id is the previous last id + 1 (1 for
      an empty array), its three strings are trimmed, and the response is 201
      with that record. */
  lemma CreateAppends(s: seq<Entry<Album>>, b: AlbumBody)
    requires IsNonEmptyString(b.artist) && IsNonEmptyString(b.title) && IsNonEmptyString(b.format)
    ensures var st := Create(s, b);
      |st.items| == |s| + 1 && st.items[..|s|] == s &&
      st.resp == Response(StatusCreated, Record(st.items[|s|])) &&
      st.items[|s|].id == (if s == [] then 1 else s[|s| - 1].id + 1) &&
      st.items[|s|].fields == Album(Trim(b.artist.s), Trim(b.title.s), Trim(b.format.s))
  {
    assert (s + [Entry(NextId(s), Album(Trim(b.artist.s), Trim(b.title.s), Trim(b.format.s)))])[..|s|] == s;
  }

  /** Create checks artist, then title, then format; the first failing check
      answers 400 with that field's message and the array is unchanged. */
  lemma CreateRejects(s: seq<Entry<Album>>, b: AlbumBody)
    ensures !IsNonEmptyString(b.artist) ==>
              Create(s, b) == Step(s, Response(StatusBadRequest, Error(ArtistError)))
    ensures IsNonEmptyString(b.artist) && !IsNonEmptyString(b.title) ==>
              Create(s, b) == Step(s, Response(StatusBadRequest, Error(TitleError)))
    ensures IsNonEmptyString(b.artist) && IsNonEmptyString(b.title) && !IsNonEmptyString(b.format) ==>
              Create(s, b) == Step(s, Response(StatusBadRequest, Error(FormatError)))
  {
  }

  /** Create keeps the invariant: the new id exceeds every stored id, and the
      stored strings are non-empty and trimmed. */
  lemma CreateKeepsValid(s: seq<Entry<Album>>, b: AlbumBody)
    requires Valid(s)
    ensures Valid(Create(s, b).items)
  {
    if CreateError(b).None? {
      var a := Album(Trim(b.artist.s), Trim(b.title.s), Trim(b.format.s));
      assert WellFormed(a);
      AppendKeepsValid(s, a);
    }
  }

  lemma AppendKeepsValid(s: seq<Entry<Album>>, a: Album)
    requires Valid(s) && WellFormed(a)
    ensures Valid(Append(s, a).items)
  {
    AppendKeepsIncreasing(s, a);
    var t := Append(s, a).items;
    assert forall k :: 0 <= k < |t| ==> t[k] == (if k < |s| then s[k] else Entry(NextId(s), a));
  }

  /** Update of an unknown or unparsable id answers 404 and changes nothing. */
  lemma UpdateUnknown(s: seq<Entry<Album>>, id: Option<int>, b: AlbumBody)
    requires id.None? || !HasId(s, id.value)
    ensures Update(s, id, b) == Step(s, Response(StatusNotFound, Error(NotFound)))
  {
  }

  /** Update of a known id touches only that record: the length, the order
      and every other record stay, the id never changes, and a field whose
      key is absent from the body keeps its value. */
  lemma UpdateKnown(s: seq<Entry<Album>>, id: Option<int>, b: AlbumBody, k: int)
    requires IdsIncreasing(s) && 0 <= k < |s| && Matches(s[k], id)
    ensures var t := Update(s, id, b).items;
      |t| == |s| && t[k].id == s[k].id &&
      (forall j :: 0 <= j < |s| && j != k ==> t[j] == s[j]) &&
      (b.artist.Undefined? ==> t[k].fields.artist == s[k].fields.artist) &&
      (b.title.Undefined? ==> t[k].fields.title == s[k].fields.title) &&
      (b.format.Undefined? ==> t[k].fields.format == s[k].fields.format)
  {
    IndexOfUnique(s, id, k);
  }

  /** Update of a known id, check by check. A failing check answers 400 with
      its field's message, yet the fields written before it stay written
      (partial mutation); when every check passes the answer is 200 with the
      updated record. */
  lemma UpdateStopsAtFirstFailure(s: seq<Entry<Album>>, id: Option<int>, b: AlbumBody, k: int)
    requires IdsIncreasing(s) && 0 <= k < |s| && Matches(s[k], id)
    ensures var st := Update(s, id, b);
      var a := s[k].fields;
      var artist := if b.artist.Str? then Trim(b.artist.s) else a.artist;
      var title := if b.title.Str? then Trim(b.title.s) else a.title;
      var format := if b.format.Str? then Trim(b.format.s) else a.format;
      (!ArtistOk(b) ==>
         st == Step(s, Response(StatusBadRequest, Error(ArtistError)))) &&
      (ArtistOk(b) && !TitleOk(b) ==>
         st == Step(s[k := Entry(s[k].id, a.(artist := artist))], Response(StatusBadRequest, Error(TitleError)))) &&
      (ArtistOk(b) && TitleOk(b) && !FormatOk(b) ==>
         st == Step(s[k := Entry(s[k].id, a.(artist := artist, title := title))], Response(StatusBadRequest, Error(FormatError)))) &&
      (ArtistOk(b) && TitleOk(b) && FormatOk(b) ==>
         st.items == s[k := Entry(s[k].id, Album(artist, title, format))] &&
         st.resp == Response(StatusOk, Record(st.items[k])))
  {
    IndexOfUnique(s, id, k);
    assert s[k := s[k]] == s;
  }

  /** A key that is present with the value `null` is checked, and fails. */
  lemma UpdateNullFails(s: seq<Entry<Album>>, id: Option<int>, b: AlbumBody, k: int)
    requires IdsIncreasing(s) && 0 <= k < |s| && Matches(s[k], id)
    ensures b.artist.Null? ==> Update(s, id, b).resp == Response(StatusBadRequest, Error(ArtistError))
    ensures ArtistOk(b) && b.title.Null? ==> Update(s, id, b).resp == Response(StatusBadRequest, Error(TitleError))
    ensures ArtistOk(b) && TitleOk(b) && b.format.Null? ==>
              Update(s, id, b).resp == Response(StatusBadRequest, Error(FormatError))
  {
    IndexOfUnique(s, id, k);
  }

  /** Update keeps the invariant, also when it stops half-way. */
  lemma UpdateKeepsValid(s: seq<Entry<Album>>, id: Option<int>, b: AlbumBody)
    requires Valid(s)
    ensures Valid(Update(s, id, b).items)
  {
    var i := IndexOf(s, id);
    if i >= 0 {
      var t := Update(s, id, b).items;
      SameIdsKeepIncreasing(s, t);
      assert WellFormed(t[i].fields);
    }
  }

  /** Round trip: the record a create answers with is the one a following
      GET of its id returns. */
  lemma CreateThenGet(s: seq<Entry<Album>>, b: AlbumBody)
    requires Valid(s)
    requires IsNonEmptyString(b.artist) && IsNonEmptyString(b.title) && IsNonEmptyString(b.format)
    ensures var st := Create(s, b);
      st.resp.body.Record? &&
      GetById(st.items, Some(st.resp.body.rec.id), NotFound) == Step(st.items, Response(StatusOk, st.resp.body))
  {
    var a := Album(Trim(b.artist.s), Trim(b.title.s), Trim(b.format.s));
    AppendKeepsIncreasing(s, a);
    var t := Append(s, a).items;
    IndexOfUnique(t, Some(NextId(s)), |s|);
  }

  /** Ids are not fresh over the store's history: deleting the last record
      and then creating one hands out an id no larger than the deleted one. */
  lemma DeleteLastThenCreate(s: seq<Entry<Album>>, b: AlbumBody)
    requires Valid(s) && |s| > 0
    requires IsNonEmptyString(b.artist) && IsNonEmptyString(b.title) && IsNonEmptyString(b.format)
    ensures Create(DeleteById(s, Some(s[|s| - 1].id), NotFound).items, b).resp.body.rec.id <= s[|s| - 1].id
  {
    var last := |s| - 1;
    IndexOfUnique(s, Some(s[last].id), last);
    var t := RemoveAt(s, last);
    assert DeleteById(s, Some(s[last].id), NotFound).items == t;
    assert CreateError(b).None?;
    assert Create(t, b).resp.body.rec.id == NextId(t);
    if |t| > 0 {
      assert t[|t| - 1] == s[last - 1];
    }
  }

  /** DELETE /albums/1 on the seeded array answers 200 with Pink Floyd's
      album, and a following GET /albums/1 answers 404 "Album not found". */
  lemma DeleteThenGetScenario()
    ensures DeleteById(Seed, Some(1), NotFound).resp == Response(StatusOk, Record(Seed[0]))
    ensures GetById(DeleteById(Seed, Some(1), NotFound).items, Some(1), NotFound).resp
              == Response(StatusNotFound, Error(NotFound))
  {
    DeleteRemovesTheRecord(Seed, Some(1), NotFound, 0);
    GetFindsTheRecord(DeleteById(Seed, Some(1), NotFound).items, Some(1), NotFound);
  }

  // ------------------------------------------------------------------
  // Any sequence of requests

  /** One request to the album routes. */
  datatype Request =
    | Post(body: AlbumBody)
    | GetAll
    | GetOne(id: Option<int>)
    | Put(id: Option<int>, body: AlbumBody)
    | Remove(id: Option<int>)

  function Handle(s: seq<Entry<Album>>, r: Request): Step<Album> {
    match r
    case Post(b) => Create(s, b)
    case GetAll => ListAll(s)
    case GetOne(id) => GetById(s, id, NotFound)
    case Put(id, b) => Update(s, id, b)
    case Remove(id) => DeleteById(s, id, NotFound)
  }

  /** The array after handling the requests one at a time, in order. */
  function Run(s: seq<Entry<Album>>, rs: seq<Request>): seq<Entry<Album>>
    decreases |rs|
  {
    if rs == [] then s else Run(Handle(s, rs[0]).items, rs[1..])
  }

  lemma HandleKeepsValid(s: seq<Entry<Album>>, r: Request)
    requires Valid(s)
    ensures Valid(Handle(s, r).items)
  {
    match r
    case Post(b) => CreateKeepsValid(s, b);
    case GetAll =>
    case GetOne(id) =>
    case Put(id, b) => UpdateKeepsValid(s, id, b);
    case Remove(id) =>
      var i := IndexOf(s, id);
      if i >= 0 {
        RemoveAtKeepsIncreasing(s, i);
        var t := RemoveAt(s, i);
        assert forall k :: 0 <= k < |t| ==> t[k] == s[if k < i then k else k + 1];
      }
  }

  /** Every request keeps the invariant, so after any sequence of requests
      the ids still increase and every stored string is non-empty and trimmed. */
  lemma {:induction false} RunKeepsValid(s: seq<Entry<Album>>, rs: seq<Request>)
    requires Valid(s)
    ensures Valid(Run(s, rs))
    decreases |rs|
  {
    if rs != [] {
      HandleKeepsValid(s, rs[0]);
      RunKeepsValid(Handle(s, rs[0]).items, rs[1..]);
    }
  }

  lemma StoredStringsTrimmed(rs: seq<Request>)
    ensures var t := Run(Seed, rs);
      forall k :: 0 <= k < |t| ==> WellFormed(t[k].fields)
    ensures IdsIncreasing(Run(Seed, rs))
  {
    SeedValid();
    RunKeepsValid(Seed, rs);
  }
}
