/** The Photo schema of models/Photo.js: the stored record, how a request
    body becomes one (required paths and defaults), the collection that
    holds the records, and the `toJSON` transform. */
module PhotoModel {
  import opened Wrappers
  import opened ObjectIds
  import Documents

  /** A stored photo document. `hash` is nullable and carries no uniqueness
      constraint. Numbers are modelled as integers. */
  datatype Photo = Photo(
    id: ObjectId,
    title: string,
    description: string,
    tags: seq<string>,
    categoryId: Option<ObjectId>,
    cloudinaryUrl: string,
    thumbnailUrl: string,
    cloudinaryPublicId: string,
    width: int,
    height: int,
    downloads: int,
    hash: Option<string>,
    createdAt: Documents.Timestamp,
    updatedAt: Documents.Timestamp)

  /** The schema paths a request body may set; each may be absent. */
  datatype PhotoFields = PhotoFields(
    title: Option<string>,
    description: Option<string>,
    tags: Option<seq<string>>,
    categoryId: Option<ObjectId>,
    cloudinaryUrl: Option<string>,
    thumbnailUrl: Option<string>,
    cloudinaryPublicId: Option<string>,
    width: Option<int>,
    height: Option<int>,
    downloads: Option<int>,
    hash: Option<string>)

  /** A String path marked `required` holds a non-empty string: Mongoose's
      required validator for strings rejects both absence and ''. */
  predicate Present(f: Option<string>) {
    f.Some? && f.value != ""
  }

  /** The required paths that `body` leaves unset, in schema order. */
  function MissingRequired(body: PhotoFields): (missing: seq<string>)
    ensures "title" in missing <==> !Present(body.title)
    ensures "cloudinary_url" in missing <==> !Present(body.cloudinaryUrl)
    ensures "thumbnail_url" in missing <==> !Present(body.thumbnailUrl)
    ensures "cloudinary_public_id" in missing <==> !Present(body.cloudinaryPublicId)
    ensures forall p :: p in missing ==>
      p in ["title", "cloudinary_url", "thumbnail_url", "cloudinary_public_id"]
  {
    (if Present(body.title) then [] else ["title"])
    + (if Present(body.cloudinaryUrl) then [] else ["cloudinary_url"])
    + (if Present(body.thumbnailUrl) then [] else ["thumbnail_url"])
    + (if Present(body.cloudinaryPublicId) then [] else ["cloudinary_public_id"])
  }

  datatype Validation = Valid(photo: Photo) | Invalid(missing: seq<string>)

  /** `new Photo(body)` followed by validation on `save()`: a document with
      a fresh id and the timestamps of `now`, defaults filled in. */
  function NewPhoto(body: PhotoFields, id: ObjectId, now: Documents.Timestamp): (r: Validation)
    ensures r.Valid? <==> Present(body.title) && Present(body.cloudinaryUrl)
                          && Present(body.thumbnailUrl) && Present(body.cloudinaryPublicId)
    ensures r.Invalid? ==> r.missing != [] && r.missing == MissingRequired(body)
    ensures r.Valid? ==>
      && r.photo.id == id
      && Some(r.photo.title) == body.title
      && Some(r.photo.cloudinaryUrl) == body.cloudinaryUrl
      && Some(r.photo.thumbnailUrl) == body.thumbnailUrl
      && Some(r.photo.cloudinaryPublicId) == body.cloudinaryPublicId
      && r.photo.categoryId == body.categoryId
      && r.photo.hash == body.hash
      && r.photo.createdAt == now && r.photo.updatedAt == now
    // absent optional paths take their defaults; present ones are kept
    ensures r.Valid? ==>
      && r.photo.description == (if body.description.Some? then body.description.value else "")
      && r.photo.tags == (if body.tags.Some? then body.tags.value else [])
      && r.photo.width == (if body.width.Some? then body.width.value else 0)
      && r.photo.height == (if body.height.Some? then body.height.value else 0)
      && r.photo.downloads == (if body.downloads.Some? then body.downloads.value else 0)
  {
    var missing := MissingRequired(body);
    if missing != [] then Invalid(missing)
    else
      Valid(Photo(
        id := id,
        title := body.title.value,
        description := Default(body.description, ""),
        tags := Default(body.tags, []),
        categoryId := body.categoryId,
        cloudinaryUrl := body.cloudinaryUrl.value,
        thumbnailUrl := body.thumbnailUrl.value,
        cloudinaryPublicId := body.cloudinaryPublicId.value,
        width := Default(body.width, 0),
        height := Default(body.height, 0),
        downloads := Default(body.downloads, 0),
        hash := body.hash,
        createdAt := now,
        updatedAt := now))
  }

  function Default<T>(f: Option<T>, d: T): T {
    if f.Some? then f.value else d
  }

  /** Two records may carry the same hash: validation never looks at it. */
  lemma HashNotUnique(body: PhotoFields, id1: ObjectId, id2: ObjectId, now: Documents.Timestamp)
    requires NewPhoto(body, id1, now).Valid? && body.hash.Some?
    ensures NewPhoto(body, id2, now).Valid?
    ensures NewPhoto(body, id1, now).photo.hash == NewPhoto(body, id2, now).photo.hash == body.hash
  {
  }

  // ------------------------------------------------------------ the collection

  /** A photo is identified by its `_id`. */
  function PhotoKey(p: Photo): ObjectId {
    p.id
  }

  /** The `photos` collection, in insertion order. */
  class PhotoCollection {
    var photos: seq<Photo>

    ghost predicate Valid()
      reads this
    {
      Documents.UniqueKeys(photos, PhotoKey)
    }

    constructor ()
      ensures Valid() && photos == []
    {
      photos := [];
    }
  }

  // ------------------------------------------------------------ toJSON

  /** The values a plain photo object holds. */
  datatype Value =
    | Null
    | Str(s: string)
    | Num(n: int)
    | Id(oid: ObjectId)
    | Strs(ss: seq<string>)
    | Date(t: Documents.Timestamp)

  /** The document's paths as a plain object; an unset `category_id` is
      absent. */
  function Paths(p: Photo): map<string, Value> {
    var base := map[
      "_id" := Id(p.id),
      "title" := Str(p.title),
      "description" := Str(p.description),
      "tags" := Strs(p.tags),
      "cloudinary_url" := Str(p.cloudinaryUrl),
      "thumbnail_url" := Str(p.thumbnailUrl),
      "cloudinary_public_id" := Str(p.cloudinaryPublicId),
      "width" := Num(p.width),
      "height" := Num(p.height),
      "downloads" := Num(p.downloads),
      "hash" := if p.hash.Some? then Str(p.hash.value) else Null,
      "createdAt" := Date(p.createdAt),
      "updatedAt" := Date(p.updatedAt)];
    if p.categoryId.Some? then base["category_id" := Id(p.categoryId.value)] else base
  }

  /** The plain object Mongoose hands to the `toJSON` transform: the
      document's paths and `__v`, the version key. */
  function ToObject(p: Photo, version: nat): map<string, Value> {
    Paths(p)["__v" := Num(version)]
  }

  /** The object `toJSON` produces from `ret`: `id` is the string form of
      `_id`, `_id` and `__v` are gone, every other path is untouched. */
  function Transformed(ret: map<string, Value>): (r: map<string, Value>)
    requires "_id" in ret && ret["_id"].Id?
    ensures "id" in r && r["id"] == Str(ToString(ret["_id"].oid))
    ensures "_id" !in r && "__v" !in r
    ensures r.Keys == ret.Keys - {"_id", "__v"} + {"id"}
    ensures forall k :: k in ret && k != "_id" && k != "__v" && k != "id" ==> r[k] == ret[k]
  {
    ret["id" := Str(ToString(ret["_id"].oid))] - {"_id", "__v"}
  }

  /** A mutable plain object, as the transform receives it. */
  class PlainObject {
    var fields: map<string, Value>

    constructor (fields: map<string, Value>)
      ensures this.fields == fields
    {
      this.fields := fields;
    }
  }

  /** The schema's `toJSON` transform: it rewrites `ret` in place and
      returns it. */
  method TransformToJson(ret: PlainObject) returns (out: PlainObject)
    requires "_id" in ret.fields && ret.fields["_id"].Id?
    modifies ret
    ensures out == ret
    ensures ret.fields == Transformed(old(ret.fields))
  {
    ret.fields := ret.fields["id" := Str(ToString(ret.fields["_id"].oid))];
    ret.fields := ret.fields - {"_id"};
    ret.fields := ret.fields - {"__v"};
    out := ret;
  }

  /** The JSON of a stored photo: its id as a 24-digit hex string, no `_id`
      or `__v`, and the other paths as stored. */
  lemma PhotoJson(p: Photo, version: nat)
    requires WellFormed(p.id)
    ensures var j := Transformed(ToObject(p, version));
      && "id" in j && j["id"] == Str(ToString(p.id)) && |ToString(p.id)| == 24
      && "_id" !in j && "__v" !in j
      && "title" in j && j["title"] == Str(p.title)
      && "cloudinary_url" in j && j["cloudinary_url"] == Str(p.cloudinaryUrl)
      && "hash" in j && j["hash"] == (if p.hash.Some? then Str(p.hash.value) else Null)
      && ("category_id" in j <==> p.categoryId.Some?)
  {
    PathsOf(p);
    ToStringInjective(p.id, p.id);
  }

  /** The paths of a document that the JSON lemmas read. */
  lemma PathsOf(p: Photo)
    ensures var m := Paths(p);
      && "_id" in m && m["_id"] == Id(p.id) && "__v" !in m && "id" !in m
      && "title" in m && m["title"] == Str(p.title)
      && "cloudinary_url" in m && m["cloudinary_url"] == Str(p.cloudinaryUrl)
      && "hash" in m && m["hash"] == (if p.hash.Some? then Str(p.hash.value) else Null)
      && ("category_id" in m <==> p.categoryId.Some?)
  {
  }

  /** The version key never reaches the JSON. */
  lemma TransformedIgnoresVersion(m: map<string, Value>, v1: Value, v2: Value)
    requires "_id" in m && m["_id"].Id?
    ensures Transformed(m["__v" := v1]) == Transformed(m["__v" := v2])
  {
    var a, b := Transformed(m["__v" := v1]), Transformed(m["__v" := v2]);
    assert a.Keys == b.Keys;
    forall k | k in a.Keys ensures a[k] == b[k] {
    }
  }

  lemma JsonIgnoresVersion(p: Photo, v1: nat, v2: nat)
    ensures Transformed(ToObject(p, v1)) == Transformed(ToObject(p, v2))
  {
    assert Paths(p)["_id"] == Id(p.id);
    TransformedIgnoresVersion(Paths(p), Num(v1), Num(v2));
  }

  /** Distinct well-formed ids give distinct JSON ids. */
  lemma JsonIdsDistinct(p: Photo, q: Photo, version: nat)
    requires WellFormed(p.id) && WellFormed(q.id) && p.id != q.id
    ensures Transformed(ToObject(p, version))["id"] != Transformed(ToObject(q, version))["id"]
  {
    assert ToObject(p, version)["_id"] == Id(p.id);
    assert ToObject(q, version)["_id"] == Id(q.id);
    if ToString(p.id) == ToString(q.id) {
      ToStringInjective(p.id, q.id);
    }
  }
}
