/** The photo routes of routes/photos.js: the filtered, newest-first listing
    with its null-safe projection, and create (which may set the category's
    cover image), update, delete and get-by-id. */
module Photos {
  import opened Wrappers
  import opened Http
  import opened ObjectIds
  import opened PhotoModel
  import opened Categories
  import Sorting
  import Documents

  /** The populated category as the projection shows it. */
  datatype CategorySummary = CategorySummary(
    id: ObjectId,
    name: string,
    slug: string,
    description: Option<string>)

  /** One element of the JSON the list, create and update routes send. */
  datatype PhotoView = PhotoView(
    id: ObjectId,
    title: string,
    description: string,
    tags: seq<string>,
    categoryId: Option<ObjectId>,
    category: Option<CategorySummary>,
    cloudinaryUrl: string,
    thumbnailUrl: string,
    cloudinaryPublicId: string,
    width: int,
    height: int,
    downloads: int,
    createdAt: Documents.Timestamp,
    updatedAt: Documents.Timestamp)

  /** `populate('category_id')`: the referenced category, or null when the
      reference is unset or names no stored category. */
  function Populated(p: Photo, categories: seq<Category>): (r: Option<Category>)
    ensures r.Some? <==>
      p.categoryId.Some? && exists c :: c in categories && c.id == p.categoryId.value
    ensures r.Some? ==> r.value in categories && Some(r.value.id) == p.categoryId
  {
    if p.categoryId.Some? then Documents.FindById(categories, CategoryKey, p.categoryId.value)
    else None
  }

  /** The projection: `category_id` and `category` are null exactly when no
      category is populated; otherwise they carry that category. The other
      paths are copied. */
  function View(p: Photo, categories: seq<Category>): (v: PhotoView)
    ensures v.categoryId.None? <==> Populated(p, categories).None?
    ensures v.category.None? <==> Populated(p, categories).None?
    ensures Populated(p, categories).Some? ==>
      var c := Populated(p, categories).value;
      v.categoryId == Some(c.id) && v.category == Some(CategorySummary(c.id, c.name, c.slug, c.description))
    ensures v.id == p.id && v.title == p.title && v.description == p.description && v.tags == p.tags
    ensures v.cloudinaryUrl == p.cloudinaryUrl && v.thumbnailUrl == p.thumbnailUrl
    ensures v.cloudinaryPublicId == p.cloudinaryPublicId
    ensures v.width == p.width && v.height == p.height && v.downloads == p.downloads
    ensures v.createdAt == p.createdAt && v.updatedAt == p.updatedAt
  {
    var c := Populated(p, categories);
    PhotoView(
      id := p.id,
      title := p.title,
      description := p.description,
      tags := p.tags,
      categoryId := if c.Some? then Some(c.value.id) else None,
      category := if c.Some? then Some(CategorySummary(c.value.id, c.value.name, c.value.slug, c.value.description)) else None,
      cloudinaryUrl := p.cloudinaryUrl,
      thumbnailUrl := p.thumbnailUrl,
      cloudinaryPublicId := p.cloudinaryPublicId,
      width := p.width,
      height := p.height,
      downloads := p.downloads,
      createdAt := p.createdAt,
      updatedAt := p.updatedAt)
  }

  // ------------------------------------------------------------ listing

  /** The `category` and `search` query parameters; the category is taken
      as an already-cast id. */
  datatype ListQuery = ListQuery(category: Option<ObjectId>, search: Option<string>)

  /** The regular-expression engine behind `new RegExp(search, 'i')`:
      whether a pattern compiles, and whether it matches a string. */
  datatype RegexEngine = RegexEngine(compiles: string -> bool, matches: (string, string) -> bool)

  /** `req.query.search` is truthy. */
  predicate Searching(q: ListQuery) {
    q.search.Some? && q.search.value != ""
  }

  /** The query's conditions: the category equals the requested one, and
      the pattern matches the title or one of the tags. */
  predicate Selected(p: Photo, q: ListQuery, re: RegexEngine) {
    && (q.category.Some? ==> p.categoryId == q.category)
    && (Searching(q) ==>
          re.matches(q.search.value, p.title)
          || exists t :: t in p.tags && re.matches(q.search.value, t))
  }

  /** The documents the query matches, each as often as stored. */
  function Matching(photos: seq<Photo>, q: ListQuery, re: RegexEngine): (r: seq<Photo>)
    ensures forall p :: multiset(r)[p] == if Selected(p, q, re) then multiset(photos)[p] else 0
  {
    if photos == [] then []
    else
      assert photos == [photos[0]] + photos[1..];
      (if Selected(photos[0], q, re) then [photos[0]] else []) + Matching(photos[1..], q, re)
  }

  function NewestFirst(a: Photo, b: Photo): bool {
    a.createdAt >= b.createdAt
  }

  /** `.sort('-createdAt')` applied to the matching documents. */
  function Listed(photos: seq<Photo>, q: ListQuery, re: RegexEngine): seq<Photo> {
    Sorting.SortBy(Matching(photos, q, re), NewestFirst)
  }

  /** The body of `GET /`, or the error when the search pattern does not
      compile: one view per listed photo, in listing order. */
  function ListReply(photos: seq<Photo>, categories: seq<Category>, q: ListQuery, re: RegexEngine)
    : (r: Reply<seq<PhotoView>>)
    ensures r.Error? <==> Searching(q) && !re.compiles(q.search.value)
    ensures r.Error? ==> r == Error(500, InvalidPattern(q.search.value))
    ensures r.Json? ==>
      var l := Listed(photos, q, re);
      && |r.value| == |l|
      && forall i :: 0 <= i < |l| ==> r.value[i] == View(l[i], categories)
  {
    if Searching(q) && !re.compiles(q.search.value) then Error(500, InvalidPattern(q.search.value))
    else
      var l := Listed(photos, q, re);
      Json(seq(|l|, i requires 0 <= i < |l| => View(l[i], categories)))
  }

  /** With a category, only photos of that category are listed, and all of
      them; with neither filter every photo is listed. */
  lemma ListingFilters(photos: seq<Photo>, q: ListQuery, re: RegexEngine)
    ensures forall p :: p in Listed(photos, q, re) && q.category.Some? ==> p.categoryId == q.category
    ensures !Searching(q) ==> forall p ::
      multiset(Listed(photos, q, re))[p] ==
        if q.category.None? || p.categoryId == q.category then multiset(photos)[p] else 0
    ensures q.category.None? && !Searching(q) ==> multiset(Listed(photos, q, re)) == multiset(photos)
  {
    var m := Matching(photos, q, re);
    assert multiset(Listed(photos, q, re)) == multiset(m);
    forall p | p in Listed(photos, q, re) && q.category.Some? ensures p.categoryId == q.category {
      assert p in multiset(m);
    }
    if q.category.None? && !Searching(q) {
      assert multiset(m) == multiset(photos);
    }
  }

  /** The listing is ordered by creation time, newest first. */
  lemma ListingNewestFirst(photos: seq<Photo>, q: ListQuery, re: RegexEngine)
    ensures var l := Listed(photos, q, re);
      forall i, j :: 0 <= i < j < |l| ==> l[i].createdAt >= l[j].createdAt
  {
    assert Sorting.TotalPreorder(NewestFirst);
    Sorting.SortBySorted(Matching(photos, q, re), NewestFirst);
  }

  // ------------------------------------------------------------ create

  /** The categories after a photo is created: its category gets the
      photo's URL as cover image when it has none; nothing else changes. */
  function WithCover(categories: seq<Category>, p: Photo, now: Documents.Timestamp): (r: seq<Category>)
    ensures |r| == |categories|
    ensures forall i :: 0 <= i < |r| && HasCover(categories[i]) ==> r[i] == categories[i]
    ensures forall i :: 0 <= i < |r| && Some(categories[i].id) != p.categoryId ==> r[i] == categories[i]
    ensures p.categoryId.None? ==> r == categories
    ensures forall i :: 0 <= i < |r| && Some(categories[i].id) == p.categoryId && !HasCover(categories[i])
                        && Documents.UniqueKeys(categories, CategoryKey) ==>
      r[i] == categories[i].(coverImage := Some(p.cloudinaryUrl), updatedAt := now)
  {
    if p.categoryId.None? then categories
    else
      var found := Documents.IndexOf(categories, CategoryKey, p.categoryId.value);
      if found.None? || HasCover(categories[found.value]) then categories
      else
        var i := found.value;
        categories[i := categories[i].(coverImage := Some(p.cloudinaryUrl), updatedAt := now)]
  }

  /** `POST /`: validate and save the photo, maybe set its category's cover
      image, and send the populated projection of the new photo. */
  method Create(store: PhotoCollection, cats: CategoryCollection, body: PhotoFields,
                id: ObjectId, now: Documents.Timestamp)
    returns (reply: Reply<PhotoView>)
    requires store.Valid() && cats.Valid()
    requires forall p :: p in store.photos ==> p.id != id
    modifies store, cats
    ensures store.Valid() && cats.Valid()
    ensures NewPhoto(body, id, now).Invalid? ==>
      && reply == Error(500, RequiredMissing(MissingRequired(body)))
      && store.photos == old(store.photos) && cats.categories == old(cats.categories)
    ensures NewPhoto(body, id, now).Valid? ==>
      var p := NewPhoto(body, id, now).photo;
      && store.photos == old(store.photos) + [p]
      && cats.categories == WithCover(old(cats.categories), p, now)
      && reply == Json(View(p, cats.categories))
  {
    var v := NewPhoto(body, id, now);
    if v.Invalid? {
      return Error(500, RequiredMissing(v.missing));
    }
    var p := v.photo;
    Documents.AppendUnique(store.photos, PhotoKey, p);
    store.photos := store.photos + [p];
    if p.categoryId.Some? {
      var found := Documents.IndexOf(cats.categories, CategoryKey, p.categoryId.value);
      if found.Some? && !HasCover(cats.categories[found.value]) {
        var i := found.value;
        var c := cats.categories[i].(coverImage := Some(p.cloudinaryUrl), updatedAt := now);
        Documents.ReplaceUnique(cats.categories, CategoryKey, i, c);
        cats.categories := cats.categories[i := c];
      }
    }
    reply := Json(View(p, cats.categories));
  }

  // ------------------------------------------------------------ update, delete, get

  /** What `findByIdAndUpdate(id, body)` stores: each path the body gives
      replaces the stored one (no validators run), the others stay, and the
      update time moves to `now`. */
  function Patched(p: Photo, body: PhotoFields, now: Documents.Timestamp): (r: Photo)
    ensures r.id == p.id && r.createdAt == p.createdAt && r.updatedAt == now
    ensures r.title == Default(body.title, p.title)
    ensures r.description == Default(body.description, p.description)
    ensures r.tags == Default(body.tags, p.tags)
    ensures r.categoryId == (if body.categoryId.Some? then body.categoryId else p.categoryId)
    ensures r.cloudinaryUrl == Default(body.cloudinaryUrl, p.cloudinaryUrl)
    ensures r.thumbnailUrl == Default(body.thumbnailUrl, p.thumbnailUrl)
    ensures r.cloudinaryPublicId == Default(body.cloudinaryPublicId, p.cloudinaryPublicId)
    ensures r.width == Default(body.width, p.width) && r.height == Default(body.height, p.height)
    ensures r.downloads == Default(body.downloads, p.downloads)
    ensures r.hash == (if body.hash.Some? then body.hash else p.hash)
  {
    p.(title := Default(body.title, p.title),
       description := Default(body.description, p.description),
       tags := Default(body.tags, p.tags),
       categoryId := if body.categoryId.Some? then body.categoryId else p.categoryId,
       cloudinaryUrl := Default(body.cloudinaryUrl, p.cloudinaryUrl),
       thumbnailUrl := Default(body.thumbnailUrl, p.thumbnailUrl),
       cloudinaryPublicId := Default(body.cloudinaryPublicId, p.cloudinaryPublicId),
       width := Default(body.width, p.width),
       height := Default(body.height, p.height),
       downloads := Default(body.downloads, p.downloads),
       hash := if body.hash.Some? then body.hash else p.hash,
       updatedAt := now)
  }

  /** Applying the same update twice stores what applying it once does. */
  lemma PatchedIdempotent(p: Photo, body: PhotoFields, now: Documents.Timestamp)
    ensures Patched(Patched(p, body, now), body, now) == Patched(p, body, now)
  {
  }

  /** `PUT /:id`. For an unknown id `findByIdAndUpdate` returns null and
      reading its `_id` throws, so the reply is a 500 and nothing changes. */
  method Update(store: PhotoCollection, cats: CategoryCollection, id: ObjectId,
                body: PhotoFields, now: Documents.Timestamp)
    returns (reply: Reply<PhotoView>)
    requires store.Valid()
    modifies store
    ensures store.Valid()
    ensures Documents.IndexOf(old(store.photos), PhotoKey, id).None? ==>
      reply == Error(500, ReadOfNull("_id")) && store.photos == old(store.photos)
    ensures Documents.IndexOf(old(store.photos), PhotoKey, id).Some? ==>
      var i := Documents.IndexOf(old(store.photos), PhotoKey, id).value;
      var u := Patched(old(store.photos)[i], body, now);
      store.photos == old(store.photos)[i := u] && reply == Json(View(u, cats.categories))
  {
    var found := Documents.IndexOf(store.photos, PhotoKey, id);
    if found.None? {
      return Error(500, ReadOfNull("_id"));
    }
    var i := found.value;
    var u := Patched(store.photos[i], body, now);
    Documents.ReplaceUnique(store.photos, PhotoKey, i, u);
    store.photos := store.photos[i := u];
    reply := Json(View(u, cats.categories));
  }

  /** `DELETE /:id`: only the photo with that id goes; the reply is the same
      whether or not it existed. Categories are not touched, so a cover
      image that names the deleted photo's URL stays. */
  method Delete(store: PhotoCollection, id: ObjectId) returns (reply: Reply<string>)
    requires store.Valid()
    modifies store
    ensures store.Valid()
    ensures store.photos == Documents.Without(old(store.photos), PhotoKey, id)
    ensures forall p :: p in store.photos <==> p in old(store.photos) && p.id != id
    ensures reply == Json("Photo deleted")
  {
    Documents.WithoutUnique(store.photos, PhotoKey, id);
    store.photos := Documents.Without(store.photos, PhotoKey, id);
    reply := Json("Photo deleted");
  }

  /** The body `GET /:id` sends: the photo's plain object after the
      schema's `toJSON` transform, except `category_id`, which `populate`
      replaces by the category it names (null when it names none). */
  datatype Found = Found(fields: map<string, Value>, category: Option<Category>)

  /** `GET /:id`: the stored photo, serialised and populated, or a null body
      (still status 200) when there is none. A document written by `save()`
      carries version key 0 and no route here increments it; the transform
      removes it in any case. */
  method Get(store: PhotoCollection, cats: CategoryCollection, id: ObjectId)
    returns (reply: Reply<Option<Found>>)
    ensures reply.Json?
    ensures reply.value.Some? <==> exists p :: p in store.photos && p.id == id
    ensures reply.value.Some? ==>
      var p := Documents.FindById(store.photos, PhotoKey, id).value;
      && reply.value.value.fields == Transformed(ToObject(p, 0)) - {"category_id"}
      && reply.value.value.category == Populated(p, cats.categories)
    ensures reply.value.Some? ==>
      && "id" in reply.value.value.fields
      && reply.value.value.fields["id"] == Str(ToString(id))
      && "_id" !in reply.value.value.fields && "__v" !in reply.value.value.fields
  {
    var p := Documents.FindById(store.photos, PhotoKey, id);
    if p.None? {
      return Json(None);
    }
    var ret := new PlainObject(ToObject(p.value, 0));
    assert ret.fields["_id"] == Id(p.value.id);
    var json := TransformToJson(ret);
    reply := Json(Some(Found(json.fields - {"category_id"}, Populated(p.value, cats.categories))));
  }

  /** `GET /`, read-only over both collections. */
  method List(store: PhotoCollection, cats: CategoryCollection, q: ListQuery, re: RegexEngine)
    returns (reply: Reply<seq<PhotoView>>)
    ensures reply == ListReply(store.photos, cats.categories, q, re)
  {
    reply := ListReply(store.photos, cats.categories, q, re);
  }
}
