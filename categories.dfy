/** The category routes of routes/categories.js over the `categories`
    collection: listing sorted by name, and create, update and delete, where
    create and update derive the slug from the name with the same rule. */
module Categories {
  import opened Wrappers
  import opened Http
  import opened ObjectIds
  import opened Slug
  import Sorting
  import Documents

  /** A stored category document, with the paths the routes read. */
  datatype Category = Category(
    id: ObjectId,
    name: string,
    slug: string,
    description: Option<string>,
    coverImage: Option<string>,
    createdAt: Documents.Timestamp,
    updatedAt: Documents.Timestamp)

  function CategoryKey(c: Category): ObjectId {
    c.id
  }

  /** `category.cover_image` is truthy: set, and not the empty string. */
  predicate HasCover(c: Category) {
    c.coverImage.Some? && c.coverImage.value != ""
  }

  /** The paths the create and update routes read from the request body. */
  datatype CategoryFields = CategoryFields(
    name: Option<string>,
    description: Option<string>,
    coverImage: Option<string>)

  /** The `categories` collection, in insertion order. */
  class CategoryCollection {
    var categories: seq<Category>

    ghost predicate Valid()
      reads this
    {
      Documents.UniqueKeys(categories, CategoryKey)
    }

    constructor ()
      ensures Valid() && categories == []
    {
      categories := [];
    }
  }

  // ------------------------------------------------------------ listing

  /** The database's string order: character by character, a proper prefix
      first. */
  predicate NameLe(a: string, b: string) {
    a == [] || (b != [] && (a[0] < b[0] || (a[0] == b[0] && NameLe(a[1..], b[1..]))))
  }

  lemma {:induction false} NameLeTotal(a: string, b: string)
    ensures NameLe(a, b) || NameLe(b, a)
  {
    if a != [] && b != [] && a[0] == b[0] {
      NameLeTotal(a[1..], b[1..]);
    }
  }

  lemma {:induction false} NameLeTransitive(a: string, b: string, c: string)
    requires NameLe(a, b) && NameLe(b, c)
    ensures NameLe(a, c)
  {
    if a != [] && b != [] && c != [] && a[0] == b[0] == c[0] {
      NameLeTransitive(a[1..], b[1..], c[1..]);
    }
  }

  function ByName(x: Category, y: Category): bool {
    NameLe(x.name, y.name)
  }

  lemma ByNameIsTotalPreorder()
    ensures Sorting.TotalPreorder(ByName)
  {
    forall x, y ensures ByName(x, y) || ByName(y, x) {
      NameLeTotal(x.name, y.name);
    }
    forall x, y, z | ByName(x, y) && ByName(y, z) ensures ByName(x, z) {
      NameLeTransitive(x.name, y.name, z.name);
    }
  }

  /** `Category.find().sort('name')`. The projection that follows keeps
      id, name, slug, description, cover image and timestamps, which are
      all the paths modelled here. */
  function Listing(categories: seq<Category>): seq<Category> {
    Sorting.SortBy(categories, ByName)
  }

  /** The listing holds every stored category once and is ordered by name. */
  lemma ListingSortedByName(categories: seq<Category>)
    ensures multiset(Listing(categories)) == multiset(categories)
    ensures var l := Listing(categories);
      forall i, j :: 0 <= i < j < |l| ==> NameLe(l[i].name, l[j].name)
  {
    ByNameIsTotalPreorder();
    Sorting.SortBySorted(categories, ByName);
  }

  method List(store: CategoryCollection) returns (reply: Reply<seq<Category>>)
    ensures reply.Json? && multiset(reply.value) == multiset(store.categories)
    ensures forall i, j :: 0 <= i < j < |reply.value| ==>
      NameLe(reply.value[i].name, reply.value[j].name)
  {
    ListingSortedByName(store.categories);
    reply := Json(Listing(store.categories));
  }

  // ------------------------------------------------------------ changes

  /** Reading `toLowerCase` of an absent name throws. */
  const NoName: Failure := ReadOfUndefined("toLowerCase")

  /** `POST /`: a category named `name` with the slug of `name`. */
  method Create(store: CategoryCollection, body: CategoryFields, id: ObjectId, now: Documents.Timestamp)
    returns (reply: Reply<Category>)
    requires store.Valid()
    requires forall c :: c in store.categories ==> c.id != id
    modifies store
    ensures store.Valid()
    ensures body.name.None? ==>
      reply == Error(500, NoName) && store.categories == old(store.categories)
    ensures body.name.Some? ==>
      var c := Category(id, body.name.value, Slugify(body.name.value),
                        body.description, body.coverImage, now, now);
      reply == Json(c) && store.categories == old(store.categories) + [c]
  {
    if body.name.None? {
      return Error(500, NoName);
    }
    var name := body.name.value;
    var c := Category(id, name, Slugify(name), body.description, body.coverImage, now, now);
    Documents.AppendUnique(store.categories, CategoryKey, c);
    store.categories := store.categories + [c];
    reply := Json(c);
  }

  /** What `findByIdAndUpdate` stores: the new name and its slug, the
      description and cover image where the body gives them (undefined
      paths are left out of the update), and a new update time. */
  function Updated(c: Category, name: string, body: CategoryFields, now: Documents.Timestamp): (u: Category)
    ensures u.id == c.id && u.createdAt == c.createdAt && u.updatedAt == now
    ensures u.name == name && u.slug == Slugify(name)
    ensures u.description == if body.description.Some? then body.description else c.description
    ensures u.coverImage == if body.coverImage.Some? then body.coverImage else c.coverImage
  {
    c.(name := name, slug := Slugify(name),
       description := if body.description.Some? then body.description else c.description,
       coverImage := if body.coverImage.Some? then body.coverImage else c.coverImage,
       updatedAt := now)
  }

  /** `PUT /:id`. A missing name throws before the store is touched; an
      unknown id makes `findByIdAndUpdate` return null, whose `_id` read
      throws. */
  method Update(store: CategoryCollection, id: ObjectId, body: CategoryFields, now: Documents.Timestamp)
    returns (reply: Reply<Category>)
    requires store.Valid()
    modifies store
    ensures store.Valid()
    ensures body.name.None? ==>
      reply == Error(500, NoName) && store.categories == old(store.categories)
    ensures body.name.Some? && Documents.IndexOf(old(store.categories), CategoryKey, id).None? ==>
      reply == Error(500, ReadOfNull("_id")) && store.categories == old(store.categories)
    ensures body.name.Some? && Documents.IndexOf(old(store.categories), CategoryKey, id).Some? ==>
      var i := Documents.IndexOf(old(store.categories), CategoryKey, id).value;
      var u := Updated(old(store.categories)[i], body.name.value, body, now);
      reply == Json(u) && store.categories == old(store.categories)[i := u]
  {
    if body.name.None? {
      return Error(500, NoName);
    }
    var name := body.name.value;
    var found := Documents.IndexOf(store.categories, CategoryKey, id);
    if found.None? {
      return Error(500, ReadOfNull("_id"));
    }
    var i := found.value;
    var u := Updated(store.categories[i], name, body, now);
    Documents.ReplaceUnique(store.categories, CategoryKey, i, u);
    store.categories := store.categories[i := u];
    reply := Json(u);
  }

  /** `DELETE /:id`: the reply is the same whether or not the id existed. */
  method Delete(store: CategoryCollection, id: ObjectId) returns (reply: Reply<string>)
    requires store.Valid()
    modifies store
    ensures store.Valid()
    ensures store.categories == Documents.Without(old(store.categories), CategoryKey, id)
    ensures reply == Json("Category deleted")
  {
    Documents.WithoutUnique(store.categories, CategoryKey, id);
    store.categories := Documents.Without(store.categories, CategoryKey, id);
    reply := Json("Category deleted");
  }
}
