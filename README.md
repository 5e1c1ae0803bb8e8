# Photo gallery backend — a Dafny model

This project models the core of an Express/Mongoose photo-gallery backend:

- the authenticated batch upload `POST /api/upload/photo`. It hashes every file,
  refuses the whole batch when any hash is already in the photo catalog,
  sends every file to the media host and returns one result per file, or a
  single 500 when any upload fails;
- the photo routes: a listing filtered by category and search pattern,
  newest first, with a null-safe projection of the populated category;
  create, which gives the photo's category a cover image when it has none;
  update, delete and get-by-id;
- the Photo schema: required paths, defaults, the nullable `hash`, and the
  `toJSON` transform that renames `_id` to a hex-string `id`;
- the category routes: the slug rule shared by create and update, a
  listing sorted by name, and create, update and delete;
- the bearer-token middleware. Every request ends in exactly one of a 401
  reply or a call to `next` with `req.admin` set.

The collections are classes holding a sequence of documents in insertion
order. Their invariant is that document ids are unique. Each route handler
that writes to a collection is a method, proved against the functions that
specify its new state. The upload handler only reads. It is a function that
returns the reply together with what the handler did on the way: the
digests it computed, whether it queried the catalog and which buffers it
sent. The foreign services are parameters of the model:

- SHA-256;
- the media host's answer to each upload;
- its delivery-URL builder;
- `jwt.verify`;
- the regular-expression engine.

Timestamps and fresh ids are parameters too. Exceptions that the handlers
catch and turn into a 500 are errors of a `Reply` datatype.

Files: `wrappers.dfy` (Option), `http.dfy` (replies), `object_ids.dfy`,
`documents.dfy` (findById / findByIdAndDelete over a sequence),
`sorting.dfy` (the database sort), `photo_model.dfy`, `photos.dfy`,
`slug.dfy`, `categories.dfy`, `upload.dfy`, `auth.dfy`.

## Model

| member | source | states |
|---|---|---|
| Upload.HandleUpload | routes/upload.js:45-88 | A missing or empty batch gives 400 "No files uploaded", and nothing is hashed, queried or sent. Otherwise there is one digest per file, in file order. The reply is 400 "Duplicate images detected…" exactly when some catalog photo's hash is among them, and then nothing is sent. Otherwise every buffer is sent. The reply is a success exactly when the batch is non-empty, has no catalog duplicate and every upload succeeded. Result i then carries upload i's URL, public id and size, the 300×300 fill thumbnail of its public id, and digest i. Any failed upload gives 500 "Upload failed" and no results. |
| Upload.Hashes | routes/upload.js:50 | One digest per file; `hashes[i]` is the digest of `files[i]`'s buffer, so identical buffers get identical hashes. |
| Upload.Existing | routes/upload.js:51 | `Photo.find({hash: {$in: hashes}})`: a photo is found iff it is in the catalog and has a non-null hash that is one of `hashes`. |
| Upload.All | routes/upload.js:56-83 | `Promise.all` over the uploads: nothing iff some upload failed; otherwise one result per file, in file order, each built from that file's answer and hash. |
| Upload.SameBatchDuplicatesPass | routes/upload.js:50-54 | Two byte-identical files in one batch are not compared with each other. When no catalog photo carries a hash of the batch and every upload succeeds, both files are uploaded and their results carry the same hash. |
| Upload.UploadRoute | routes/upload.js:34 | The auth middleware runs first. A refused request gets its 401, and nothing is hashed, queried or uploaded. An accepted one gets the handler's run. |
| Upload.PostPhoto | routes/upload.js:51 | The handler over the stored catalog may modify nothing, so it never inserts a photo; its reply is the handler's. |
| Photos.List | routes/photos.js:8-46 | `GET /` reads both collections and replies with `ListReply`. |
| Photos.Matching | routes/photos.js:10-22 | Each stored photo occurs in the match as often as stored if it satisfies the category and search conditions, and otherwise not at all. |
| Photos.ListingFilters | routes/photos.js:10-14 | With a category query, every listed photo has that `category_id`. Without a search, the listing holds exactly the photos of that category, or every photo when there is no category query. |
| Photos.ListingNewestFirst | routes/photos.js:24 | The listing is ordered by `createdAt`, descending. |
| Photos.ListReply | routes/photos.js:16-48 | An invalid search pattern gives 500 exactly when a search is given and the pattern does not compile. Otherwise the reply has one view per listed photo, in listing order. |
| Photos.View | routes/photos.js:25-45 | `category_id` and `category` are null exactly when no category is populated. Otherwise they carry that category's id, and its id, name, slug and description. Every other path is copied. |
| Photos.Populated | routes/photos.js:24 | `populate('category_id')` yields a category iff the photo references one that is stored, and then it is that category. |
| Photos.WithCover | routes/photos.js:59-65 | Creating a photo changes at most its own category. A category whose cover image is non-empty is never changed. A photo without `category_id` changes nothing. The referenced category with no cover image gets the photo's `cloudinary_url` as cover image. |
| Photos.Create | routes/photos.js:53-94 | An invalid body gives 500 with the missing required paths and changes nothing. A valid one appends the new record and applies `WithCover` to the categories. It replies with the new photo's view over the updated categories. Ids stay unique in both collections. |
| Photos.Patched | routes/photos.js:99 | `findByIdAndUpdate` replaces each path the body gives and keeps the others. The id and creation time stay; the update time moves. |
| Photos.PatchedIdempotent | routes/photos.js:99 | Applying the same update twice stores what applying it once does. |
| Photos.Update | routes/photos.js:97-126 | An unknown id gives 500, because `_id` is read on null, and nothing changes. Otherwise only that photo is patched, and the reply is its view. |
| Photos.Delete | routes/photos.js:129-136 | Only the photo with that id is removed; every other photo stays. The categories are not touched, not even a cover image naming the deleted photo's URL. The reply is "Photo deleted" either way. |
| Photos.Get | routes/photos.js:139-146 | The body is a photo iff one with that id is stored. It is that photo's object after the `toJSON` transform, so its `id` is the hex string of the requested id and it has no `_id` or `__v`. Its `category_id` is populated with the category it names. When no photo has the id the body is null, still with status 200. |
| PhotoModel.MissingRequired | models/Photo.js:4-10 | Each of `title`, `cloudinary_url`, `thumbnail_url` and `cloudinary_public_id` is reported missing iff it is absent or empty, and nothing else is reported. |
| PhotoModel.NewPhoto | models/Photo.js:3-15 | A record is valid iff the four required paths are present. Absent optional paths take their defaults: description '', tags [], width, height and downloads 0, hash null. Given paths are kept, and both timestamps are the creation time. |
| PhotoModel.HashNotUnique | models/Photo.js:14 | Two records with different ids may carry the same hash: validation never looks at it. |
| PhotoModel.Transformed | models/Photo.js:18-25 | `id` is the string form of `_id`, `_id` and `__v` are gone, and every other key keeps its value. |
| PhotoModel.TransformToJson | models/Photo.js:19-23 | The transform rewrites `ret` in place into `Transformed(ret)` and returns that same object. |
| PhotoModel.PhotoJson | models/Photo.js:18-25 | A stored photo's JSON has a 24-character `id`, neither `_id` nor `__v`, and the stored title, URL and hash (null when unset). It has `category_id` iff the photo has a category. |
| PhotoModel.JsonIdsDistinct | models/Photo.js:20 | Distinct document ids give distinct JSON ids. |
| PhotoModel.JsonIgnoresVersion | models/Photo.js:22 | The version key never reaches the JSON: two versions of a document serialise alike. |
| ObjectIds.HexOfBytes | models/Photo.js:20 | Two lower-case hex digits per byte. |
| ObjectIds.HexRoundTrip | models/Photo.js:20 | Reading the hex string back gives the id's bytes. |
| ObjectIds.PairRoundTrip | models/Photo.js:20 | A leading pair of digits made from two nibbles reads back as the byte those nibbles form. |
| ObjectIds.ToStringInjective | models/Photo.js:20 | `toString` is injective on twelve-byte ids and yields 24 characters. |
| Documents.IndexOf | routes/photos.js:99 | The position of the document with the given id, or nothing iff no document has it. |
| Documents.FindById | routes/photos.js:141 | A document iff one with that id is stored, and then it is one of them. |
| Documents.Without | routes/photos.js:131 | `findByIdAndDelete`: a document remains iff it was stored and has another id; an absent id changes nothing. |
| Documents.WithoutUnique | routes/categories.js:78 | Deleting keeps ids unique, and removes exactly one document when the id is present. |
| Documents.ReplaceUnique | routes/categories.js:55-59 | Replacing a document with one of the same id keeps ids unique. |
| Documents.AppendUnique | routes/categories.js:33 | Appending a document with a fresh id keeps ids unique. |
| Sorting.SortBy | routes/photos.js:24 | The database sort returns the same documents (a permutation). |
| Sorting.SortBySorted | routes/categories.js:10 | Under a total preorder, the sorted sequence is ordered by it. |
| Slug.Slugify | routes/categories.js:30 | Every slug character is in `[a-z0-9-]`, so a slug holds no whitespace. |
| Slug.SlugifyRun | routes/categories.js:30 | A maximal whitespace run between two parts becomes exactly one `-`, and the parts are slugged independently. |
| Slug.SlugifyIdempotent | routes/categories.js:30 | Slugging a slug returns it unchanged. |
| Slug.SlugifyLeadingSpace | routes/categories.js:30 | Leading whitespace is not trimmed; the slug starts with `-`. |
| Slug.SlugifyTrailingSpace | routes/categories.js:30 | Trailing whitespace is not trimmed; the slug ends with `-`. |
| Slug.SlugifyMatchesSpec | routes/categories.js:30 | The three-step rule agrees with a one-pass reading. Lowered letters, digits and hyphens are kept in order, each whitespace run gives one `-`, and everything else is dropped. |
| Slug.ToLowerCase | routes/categories.js:30 | Length-preserving and character-wise lower-casing. |
| Slug.KeepAllowed | routes/categories.js:30 | `.replace(/[^a-z0-9-]/g, '')` leaves only allowed characters. |
| Categories.ListingSortedByName | routes/categories.js:10 | The listing holds every stored category as often as stored and is ordered by name. |
| Categories.List | routes/categories.js:8-20 | `GET /` replies with every category, sorted by name, each with id, name, slug, description, cover image and timestamps. |
| Categories.Create | routes/categories.js:27-47 | A missing name gives 500 (`toLowerCase` of undefined) and changes nothing. Otherwise the new category gets the name, its slug, the description and the cover image, and is appended; ids stay unique. |
| Categories.Updated | routes/categories.js:52-59 | The stored category gets the new name and its slug under the same rule as create. Description and cover image change only where given. The id and creation time stay. |
| Categories.Update | routes/categories.js:50-73 | A missing name gives 500 before the store is touched. An unknown id gives 500, because `_id` is read on null. Otherwise only that category is replaced by `Updated`. |
| Categories.Delete | routes/categories.js:76-83 | Only the category with that id is removed, and ids stay unique; the reply is "Category deleted" either way. |
| Categories.NameLeTotal | routes/categories.js:10 | The name order is total. |
| Categories.NameLeTransitive | routes/categories.js:10 | The name order is transitive. |
| Auth.Gate | middleware/auth.js:4-24 | Proceeds iff the header is present, starts with "Bearer " and its token verifies against the secret, with the decoded payload. A missing or wrongly prefixed header gives "No token provided". A token that fails verification gives "Invalid token". |
| Auth.Authenticate | middleware/auth.js:4-24 | Exactly one outcome. A 401 with the error sets status and error and leaves `next` uncalled and `req.admin` as it was. Success sets `req.admin` to the payload and calls `next` once, sending nothing. |
| Auth.Token | middleware/auth.js:11 | `replace("Bearer ", "")` on a prefixed header is the suffix after the seven prefix characters. |
| Auth.TokenRoundTrip | middleware/auth.js:11 | Prefixing a token and extracting it gives the token back. |
| Auth.PrefixIsExact | middleware/auth.js:7-9 | The prefix check is case-sensitive and needs the trailing space: "bearer …" and "Bearer" are refused with "No token provided". |
| Auth.FindFrom | middleware/auth.js:11 | The first occurrence of the pattern at or after a position, or nothing iff there is none. |

## Left out

- The code, not a later design, is modelled. Uploads here are all-or-nothing with no resizing, no reuse of stored assets, no one-at-a-time processing and no per-file error entries.
- `GET /api/upload/test-cloudinary` and `cloudinary.config`: a connectivity probe of the media host; it holds no logic.
- multer's limits (10 files, 100 MB per file): enforced by the middleware before the handler runs. Batches of any size are modelled.
- `Promise.all` concurrency: the model combines the per-file outcomes. It does not model interleavings, or uploads still running after one failed.
- Upload.HandleUpload: a failing catalog query (a database error, answered 500 "Upload failed") is not modelled; the query always answers.
- SHA-256, the media host, its URL builder, `jwt.verify` and the regular-expression engine are function parameters. Their own behaviour (collision resistance, case-insensitive matching) is not modelled.
- Photos.ListReply: the text of a `SyntaxError` from an invalid pattern is abstracted as `InvalidPattern(pattern)`.
- Ids arrive as already-cast ObjectIds. A malformed id string, which makes Mongoose throw a cast error and the route answer 500, is not modelled.
- Request bodies are typed records. Explicit `null` values and values Mongoose would cast from another type (a number for `title`, a non-string `name`) are not modelled.
- Photos.Create: the text of Mongoose's validation message is abstracted as the list of missing required paths.
- Categories.Create: the Category schema's validators and indexes are not part of this model, so `save()` is assumed to succeed. A `required` name would make an empty name a 500. A unique slug index would do the same for a second name with the same slug, such as "A B" after "a-b".
- Categories.Update: for the same reason `findByIdAndUpdate` is assumed to succeed whenever the id is stored.
- Photos.Create: the category's `save()` is assumed to succeed. models/Category.js is not part of this model, so category fields are inferred from the routes and timestamps are assumed.
- Photos.Get: the JSON form of the populated category is not modelled, because its schema's `toJSON` is not part of this model. The reply carries the category record next to the photo's JSON object. A dangling `category_id` is shown as no category, not as an explicit null path.
- Photos.Patched: Mongoose runs no validators on `findByIdAndUpdate`. The model likewise lets an update store an empty required path.
- Slug.Slugify: `toLowerCase` is modelled on ASCII letters only. Non-ASCII letters whose lower case is ASCII, such as U+212A KELVIN SIGN, which lowers to 'k', are dropped by the model but kept by the engine. The whitespace class is the full JavaScript `\s` set.
- Numbers are integers, not IEEE doubles.
- Sorting.SortBy: the database's sort is a stable insertion sort here. The database does not promise an order among documents with equal keys.
- Mongoose's `populate`, its automatic timestamps and the `__v` version key are modelled by their effect on the documents, not by their mechanism.
