/** The `POST /photo` handler of routes/upload.js. The batch is hashed, the
    photo catalog is asked whether any hash is already stored, and only then
    are all files sent to the media host; `Promise.all` makes the request
    fail as a whole when any single upload fails. SHA-256, the host and its
    URL builder are parameters: the host's answer to each file is given,
    aligned with the files. */
module Upload {
  import opened Wrappers
  import opened Http
  import opened PhotoModel
  import ObjectIds
  import Auth

  type Bytes = seq<ObjectIds.Byte>

  /** A file multer holds in memory. */
  datatype File = File(originalName: string, buffer: Bytes)

  /** The host's answer to one `upload_stream`: an error, or the stored
      asset's secure URL, public id and dimensions. */
  datatype HostAnswer =
    | HostError(message: string)
    | Stored(secureUrl: string, publicId: string, width: int, height: int)

  /** A delivery transformation of `cloudinary.url`. */
  datatype Transformation = Transformation(width: nat, height: nat, crop: string)

  const Thumbnail: Transformation := Transformation(300, 300, "fill")

  /** The foreign functions the handler calls: the hex SHA-256 digest of a
      buffer and the host's delivery-URL builder. */
  datatype Services = Services(
    digest: Bytes -> string,
    deliveryUrl: (string, Transformation) -> string)

  /** One element of the success reply. */
  datatype UploadedFile = UploadedFile(
    url: string,
    publicId: string,
    width: int,
    height: int,
    thumbnail: string,
    hash: string)

  /** The reply, and what the handler did on the way: the digests it
      computed, whether it queried the catalog, the buffers it sent to the
      host. */
  datatype Run = Run(
    reply: Reply<seq<UploadedFile>>,
    hashes: seq<string>,
    queried: bool,
    sent: seq<Bytes>)

  const NoFiles: Failure := Says("No files uploaded")
  const Duplicates: Failure := Says("Duplicate images detected. Some images already exist.")
  const UploadFailed: Failure := Says("Upload failed")

  /** One digest per file, in file order. */
  function Hashes(files: seq<File>, digest: Bytes -> string): (hashes: seq<string>)
    ensures |hashes| == |files|
    ensures forall i :: 0 <= i < |files| ==> hashes[i] == digest(files[i].buffer)
  {
    if files == [] then [] else [digest(files[0].buffer)] + Hashes(files[1..], digest)
  }

  function Buffers(files: seq<File>): (buffers: seq<Bytes>)
    ensures |buffers| == |files|
    ensures forall i :: 0 <= i < |files| ==> buffers[i] == files[i].buffer
  {
    seq(|files|, i requires 0 <= i < |files| => files[i].buffer)
  }

  /** `Photo.find({ hash: { $in: hashes } })`: the catalog photos whose hash
      is one of `hashes`; a null hash matches none. */
  function Existing(catalog: seq<Photo>, hashes: seq<string>): (found: seq<Photo>)
    ensures forall p :: p in found <==> p in catalog && p.hash.Some? && p.hash.value in hashes
  {
    if catalog == [] then []
    else
      var rest := Existing(catalog[1..], hashes);
      assert forall p :: p in catalog <==> p == catalog[0] || p in catalog[1..];
      var p := catalog[0];
      if p.hash.Some? && p.hash.value in hashes then [p] + rest else rest
  }

  /** The object a successful upload resolves to. */
  function Resolved(answer: HostAnswer, hash: string, deliveryUrl: (string, Transformation) -> string)
    : UploadedFile
    requires answer.Stored?
  {
    UploadedFile(answer.secureUrl, answer.publicId, answer.width, answer.height,
                 deliveryUrl(answer.publicId, Thumbnail), hash)
  }

  /** `Promise.all` over the uploads: every result in file order, or nothing
      when any upload failed. */
  function All(answers: seq<HostAnswer>, hashes: seq<string>,
               deliveryUrl: (string, Transformation) -> string)
    : (results: Option<seq<UploadedFile>>)
    requires |answers| == |hashes|
    ensures results.None? <==> exists i :: 0 <= i < |answers| && answers[i].HostError?
    ensures results.Some? ==>
      && |results.value| == |answers|
      && forall i :: 0 <= i < |answers| ==>
           answers[i].Stored? && results.value[i] == Resolved(answers[i], hashes[i], deliveryUrl)
  {
    if answers == [] then Some([])
    else if answers[0].HostError? then None
    else
      match All(answers[1..], hashes[1..], deliveryUrl)
      case None =>
        ghost var i :| 0 <= i < |answers[1..]| && answers[1..][i].HostError?;
        assert answers[i + 1].HostError?;
        None
      case Some(rest) =>
        var results := [Resolved(answers[0], hashes[0], deliveryUrl)] + rest;
        assert forall i :: 1 <= i < |answers| ==> answers[i] == answers[1..][i - 1];
        Some(results)
  }

  predicate NonEmpty(files: Option<seq<File>>) {
    files.Some? && files.value != []
  }

  /** The handler. `answers[i]` is the host's answer to `files[i]`. */
  function HandleUpload(files: Option<seq<File>>, catalog: seq<Photo>,
                        answers: seq<HostAnswer>, services: Services): (run: Run)
    requires files.Some? ==> |answers| == |files.value|
    // an empty or missing batch: 400, and nothing hashed, queried or sent
    ensures !NonEmpty(files) ==> run == Run(Error(400, NoFiles), [], false, [])
    // otherwise one digest per file, in order, and the catalog is queried
    ensures NonEmpty(files) ==>
      && run.queried
      && |run.hashes| == |files.value|
      && forall i :: 0 <= i < |files.value| ==> run.hashes[i] == services.digest(files.value[i].buffer)
    // a batch with a hash already in the catalog is refused before any upload
    ensures NonEmpty(files) ==>
      (run.reply == Error(400, Duplicates) <==>
         exists p :: p in catalog && p.hash.Some? && p.hash.value in run.hashes)
    ensures run.reply == Error(400, Duplicates) ==> run.sent == []
    // otherwise every file is sent, and the reply succeeds iff every upload did
    ensures NonEmpty(files) && run.reply != Error(400, Duplicates) ==>
      && |run.sent| == |files.value|
      && forall i :: 0 <= i < |files.value| ==> run.sent[i] == files.value[i].buffer
    ensures run.reply.Json? <==>
      && NonEmpty(files)
      && (forall p :: p in catalog && p.hash.Some? ==> p.hash.value !in run.hashes)
      && forall i :: 0 <= i < |answers| ==> answers[i].Stored?
    ensures run.reply.Json? ==>
      && |run.reply.value| == |files.value|
      && forall i :: 0 <= i < |files.value| ==>
           && answers[i].Stored?
           && run.reply.value[i] == UploadedFile(
                answers[i].secureUrl, answers[i].publicId, answers[i].width, answers[i].height,
                services.deliveryUrl(answers[i].publicId, Thumbnail),
                services.digest(files.value[i].buffer))
    ensures NonEmpty(files) && run.reply != Error(400, Duplicates)
            && (exists i :: 0 <= i < |answers| && answers[i].HostError?) ==>
      run.reply == Error(500, UploadFailed)
  {
    if !NonEmpty(files) then Run(Error(400, NoFiles), [], false, [])
    else
      var hashes := Hashes(files.value, services.digest);
      if Existing(catalog, hashes) != [] then
        assert Existing(catalog, hashes)[0] in Existing(catalog, hashes);
        Run(Error(400, Duplicates), hashes, true, [])
      else
        var sent := Buffers(files.value);
        match All(answers, hashes, services.deliveryUrl)
        case None => Run(Error(500, UploadFailed), hashes, true, sent)
        case Some(results) => Run(Json(results), hashes, true, sent)
  }

  /** Byte-identical files in one batch are never compared with each other:
      when no catalog photo carries a hash of the batch and every upload
      succeeds, both are uploaded and carry the same hash. */
  lemma {:induction false} SameBatchDuplicatesPass(
    files: seq<File>, catalog: seq<Photo>, answers: seq<HostAnswer>,
    services: Services, i: nat, j: nat)
    requires |answers| == |files| && i < |files| && j < |files| && i != j
    requires files[i].buffer == files[j].buffer
    requires forall p :: p in catalog && p.hash.Some? ==> p.hash.value !in Hashes(files, services.digest)
    requires forall k :: 0 <= k < |answers| ==> answers[k].Stored?
    ensures var run := HandleUpload(Some(files), catalog, answers, services);
      && run.reply.Json?
      && run.reply.value[i].hash == run.reply.value[j].hash
      && run.sent[i] == run.sent[j]
  {
  }

  /** `POST /photo` as routed: the auth middleware runs first, and a request
      it refuses is never hashed, looked up or uploaded. */
  function UploadRoute<P>(header: Option<string>, env: Option<string>,
                          verify: (string, string) -> Option<P>,
                          files: Option<seq<File>>, catalog: seq<Photo>,
                          answers: seq<HostAnswer>, services: Services): (run: Run)
    requires files.Some? ==> |answers| == |files.value|
    ensures Auth.Gate(header, env, verify).Unauthorized? ==>
      && run.reply == Error(401, Auth.Gate(header, env, verify).failure)
      && run.hashes == [] && !run.queried && run.sent == []
    ensures Auth.Gate(header, env, verify).Proceed? ==>
      run == HandleUpload(files, catalog, answers, services)
  {
    match Auth.Gate(header, env, verify)
    case Unauthorized(failure) => Run(Error(401, failure), [], false, [])
    case Proceed(_) => HandleUpload(files, catalog, answers, services)
  }

  /** The handler against the stored catalog: it only reads the collection
      (the method may modify nothing), so no photo is inserted. */
  method PostPhoto(catalog: PhotoCollection, files: Option<seq<File>>,
                   answers: seq<HostAnswer>, services: Services)
    returns (run: Run)
    requires files.Some? ==> |answers| == |files.value|
    ensures run == HandleUpload(files, catalog.photos, answers, services)
    ensures run.reply.Json? ==> |run.reply.value| == |files.value|
  {
    run := HandleUpload(files, catalog.photos, answers, services);
  }
}
