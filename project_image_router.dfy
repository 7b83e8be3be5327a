/**
 * Project images (backend/api/project_image_router.py): the upload, which
 * stores the bytes in the object store and a row in the image table, the two
 * listings, and the redirect to a presigned URL. The router's `ensure_bucket()`
 * at import time is `MinioClient.ObjectStore.EnsureBucket`. What the storage
 * server answers (the upload outcome, the presigned URL or its error) is a
 * parameter.
 */
module ProjectImageRouter {
  import opened Common
  import opened Models
  import opened MinioClient

  const ProjectNotFound := HttpError(404, "Project not found")
  const TypeNotAllowed := HttpError(400, "Only JPG, PNG, WebP allowed")
  const EmptyUpload := HttpError(400, "Empty file uploaded")
  const ImageNotFound := HttpError(404, "Image not found")

  const AllowedTypes := ["image/jpeg", "image/jpg", "image/png", "image/webp"]
  const DefaultFilename := "unknown.jpg"
  const DefaultUploader := "admin"
  const NoCaption := "No caption"

  /** Presigned URL lifetimes, in seconds: seven days for the public listing, one hour for a view. */
  const PublicUrlExpiry := 7 * 24 * 60 * 60
  const ViewUrlExpiry := 60 * 60

  /** The multipart file: its declared content type, its client filename and its bytes. */
  datatype UploadFile = UploadFile(contentType: Option<string>, filename: Option<string>, contents: seq<bv8>)

  /** What `presigned_get_object` answers: a URL, or an error with its message. */
  datatype Presigned = Url(url: string) | PresignError(message: string)

  // ---------------------------------------------------------------------------
  // upload_image

  /** `file.filename or "unknown.jpg"`: a missing or empty filename falls back to the default. */
  function StoredFilename(file: UploadFile): (name: string)
    ensures name != []
    ensures file.filename.Some? && file.filename.value != [] ==> name == file.filename.value
    ensures file.filename.None? || file.filename.value == [] ==> name == DefaultFilename
  {
    if file.filename.Some? && file.filename.value != [] then file.filename.value else DefaultFilename
  }

  /** The checks before anything is stored, in the handler's order. */
  function UploadRefusal(projects: map<int, Project>, projectId: int, file: UploadFile): (r: Option<HttpError>)
    ensures projectId !in projects ==> r == Some(ProjectNotFound)
    ensures projectId in projects && (file.contentType.None? || file.contentType.value !in AllowedTypes) ==>
      r == Some(TypeNotAllowed)
    ensures projectId in projects && file.contentType.Some? && file.contentType.value in AllowedTypes ==>
      (r.None? <==> file.contents != []) && (r.Some? ==> r == Some(EmptyUpload))
  {
    if projectId !in projects then Some(ProjectNotFound)
    else if file.contentType.None? || file.contentType.value !in AllowedTypes then Some(TypeNotAllowed)
    else if file.contents == [] then Some(EmptyUpload)
    else None
  }

  /** The row `upload_image` adds once the bytes are stored under `objectName`. */
  function NewImage(id: int, projectId: int, file: UploadFile, objectName: string,
                    caption: Option<string>, uploadedBy: string, now: Timestamp): (img: ProjectImage)
    ensures img.id == id && img.projectId == projectId && img.objectName == objectName
    ensures img.filename == StoredFilename(file) && img.caption == caption
    ensures img.uploadedBy == uploadedBy && img.uploadedAt == now
  {
    ProjectImage(id, projectId, StoredFilename(file), objectName, caption, uploadedBy, now)
  }

  /** The object name an accepted upload is stored under. */
  function UploadObjectName(projectId: int, file: UploadFile, uuid: string): (name: string)
    ensures ProjectOfObjectName(name) == Some(projectId)
  {
    ObjectNameNamesProject(projectId, uuid, Extension(StoredFilename(file)));
    ObjectName(projectId, uuid, Extension(StoredFilename(file)))
  }

  /** The image row names an object under its own project's prefix. */
  lemma UploadedImageUnderItsProject(id: int, projectId: int, file: UploadFile, uuid: string,
                                     caption: Option<string>, uploadedBy: string, now: Timestamp)
    ensures ProjectOfObjectName(NewImage(id, projectId, file, UploadObjectName(projectId, file, uuid),
                                         caption, uploadedBy, now).objectName) == Some(projectId)
  {
    ObjectNameNamesProject(projectId, uuid, Extension(StoredFilename(file)));
  }

  /**
   * `upload_image`. `uuid` is the name `uuid.uuid4()` picks and `outcome` the
   * server's answer to the upload.
   */
  method UploadImage(db: Db, store: ObjectStore, projectId: int, caption: Option<string>, uploadedBy: string,
                     file: UploadFile, uuid: string, outcome: PutOutcome, now: Timestamp)
    returns (r: Result<ProjectImage, HttpError>)
    requires ImagesValid(db.images, db.nextImageId)
    modifies db`images, db`nextImageId, store`objects
    ensures ImagesValid(db.images, db.nextImageId)
    ensures UploadRefusal(db.projects, projectId, file).Some? ==>
      && r == Err(UploadRefusal(db.projects, projectId, file).value)
      && db.images == old(db.images) && db.nextImageId == old(db.nextImageId)
      && store.objects == old(store.objects)
    ensures UploadRefusal(db.projects, projectId, file).None? && outcome.S3Failure? ==>
      && r == Err(HttpError(500, "Storage upload failed: " + ("MinIO upload failed: " + outcome.message)))
      && db.images == old(db.images) && db.nextImageId == old(db.nextImageId)
      && store.objects == old(store.objects)
    ensures UploadRefusal(db.projects, projectId, file).None? && outcome.Accepted? ==>
      var name := UploadObjectName(projectId, file, uuid);
      var img := NewImage(old(db.nextImageId), projectId, file, name, caption, uploadedBy, now);
      && r == Ok(img)
      && db.images == old(db.images)[img.id := img]
      && db.nextImageId == old(db.nextImageId) + 1
      && store.objects == old(store.objects)[(BucketName, name) :=
           StoredObject(file.contents, |file.contents|, "image/" + Extension(StoredFilename(file)))]
  {
    var refusal := UploadRefusal(db.projects, projectId, file);
    if refusal.Some? {
      return Err(refusal.value);
    }
    var stored := store.UploadProjectImage(file.contents, StoredFilename(file), projectId, uuid, outcome);
    if stored.Err? {
      return Err(HttpError(500, "Storage upload failed: " + stored.error));
    }
    var img := RecordImage(db, projectId, file, stored.value, caption, uploadedBy, now);
    r := Ok(img);
  }

  /** `session.add(db_image)` and `commit`: the row gets the next id. */
  method RecordImage(db: Db, projectId: int, file: UploadFile, objectName: string,
                     caption: Option<string>, uploadedBy: string, now: Timestamp)
    returns (img: ProjectImage)
    requires ImagesValid(db.images, db.nextImageId)
    modifies db`images, db`nextImageId
    ensures ImagesValid(db.images, db.nextImageId)
    ensures img == NewImage(old(db.nextImageId), projectId, file, objectName, caption, uploadedBy, now)
    ensures db.images == old(db.images)[img.id := img] && db.nextImageId == old(db.nextImageId) + 1
  {
    img := NewImage(db.nextImageId, projectId, file, objectName, caption, uploadedBy, now);
    db.images := db.images[img.id := img];
    db.nextImageId := db.nextImageId + 1;
  }

  // ---------------------------------------------------------------------------
  // get_project_images

  /** The rows of `rows` that belong to project `projectId`, in their order. */
  function OfProject(rows: seq<ProjectImage>, projectId: int): (r: seq<ProjectImage>)
    ensures forall x :: x in r <==> x in rows && x.projectId == projectId
    ensures (forall i, j :: 0 <= i < j < |rows| ==> rows[i].id < rows[j].id) ==>
      forall i, j :: 0 <= i < j < |r| ==> r[i].id < r[j].id
  {
    if rows == [] then []
    else
      var rest := OfProject(rows[1..], projectId);
      assert forall x :: x in rows <==> x == rows[0] || x in rows[1..];
      if rows[0].projectId == projectId then
        assert forall x :: x in rest ==> x in rows[1..];
        [rows[0]] + rest
      else rest
  }

  /** `select(ProjectImage).where(project_id == p)`, in id order. */
  function ImagesOf(images: map<int, ProjectImage>, next: int, projectId: int): (r: seq<ProjectImage>)
    requires ImagesValid(images, next)
    ensures forall i :: 0 <= i < |r| ==> r[i].projectId == projectId && r[i].id in images && images[r[i].id] == r[i]
    ensures forall k :: k in images && images[k].projectId == projectId ==> images[k] in r
    ensures forall i, j :: 0 <= i < j < |r| ==> r[i].id < r[j].id
  {
    var all := ValuesAsc(images, 1, next);
    ImageRowsFacts(images, next);
    OfProject(all, projectId)
  }

  /** The image rows in id order: each is the table's row for its id, and every row is there. */
  lemma ImageRowsFacts(images: map<int, ProjectImage>, next: int)
    requires ImagesValid(images, next)
    ensures forall i, j :: 0 <= i < j < |ValuesAsc(images, 1, next)| ==>
      ValuesAsc(images, 1, next)[i].id < ValuesAsc(images, 1, next)[j].id
    ensures forall x :: x in ValuesAsc(images, 1, next) ==> x.id in images && images[x.id] == x
    ensures forall k :: k in images ==> images[k] in ValuesAsc(images, 1, next)
  {
    var all := ValuesAsc(images, 1, next);
    var ids := KeysAsc(images, 1, next);
    assert forall i :: 0 <= i < |all| ==> all[i] == images[ids[i]] && all[i].id == ids[i];
    forall k | k in images
      ensures images[k] in all
    {
      ValuesAscComplete(images, 1, next, k);
    }
  }

  // ---------------------------------------------------------------------------
  // get_project_images_public

  /** One entry of the public listing. */
  datatype PublicImage = PublicImage(
    id: int,
    filename: string,
    caption: string,
    uploadedBy: string,
    uploadedAt: Timestamp,
    url: Option<string>,
    objectName: string)

  /** An image as the public listing shows it: a placeholder for a missing or empty caption, no URL on error. */
  function PublicView(img: ProjectImage, presigned: Presigned): (v: PublicImage)
    ensures v.id == img.id && v.filename == img.filename && v.objectName == img.objectName
    ensures v.uploadedBy == img.uploadedBy && v.uploadedAt == img.uploadedAt
    ensures v.caption != []
    ensures img.caption.Some? && img.caption.value != [] ==> v.caption == img.caption.value
    ensures img.caption.None? || img.caption.value == [] ==> v.caption == NoCaption
    ensures v.url.Some? <==> presigned.Url?
    ensures presigned.Url? ==> v.url == Some(presigned.url)
  {
    PublicImage(img.id, img.filename,
      if img.caption.Some? && img.caption.value != [] then img.caption.value else NoCaption,
      img.uploadedBy, img.uploadedAt,
      if presigned.Url? then Some(presigned.url) else None,
      img.objectName)
  }

  /** The public entries for `images`, each with the URL presigned for seven days. */
  function PublicListing(images: seq<ProjectImage>, presign: (string, int) -> Presigned): (r: seq<PublicImage>)
    ensures |r| == |images|
    ensures forall i :: 0 <= i < |r| ==> r[i] == PublicView(images[i], presign(images[i].objectName, PublicUrlExpiry))
  {
    seq(|images|, i requires 0 <= i < |images| => PublicView(images[i], presign(images[i].objectName, PublicUrlExpiry)))
  }

  /** The loop of `get_project_images_public`: one entry per image, in order. */
  method PresignAll(images: seq<ProjectImage>, presign: (string, int) -> Presigned) returns (r: seq<PublicImage>)
    ensures r == PublicListing(images, presign)
  {
    r := [];
    for n := 0 to |images|
      invariant r == PublicListing(images[..n], presign)
    {
      var url := presign(images[n].objectName, PublicUrlExpiry);
      assert images[..n + 1] == images[..n] + [images[n]];
      r := r + [PublicView(images[n], url)];
    }
    assert images[..|images|] == images;
  }

  /**
   * `get_project_images_public`: the project's images, each with a URL valid
   * for seven days. `presign` is the server's answer for an object name and a
   * lifetime.
   */
  method PublicImages(db: Db, projectId: int, presign: (string, int) -> Presigned) returns (r: seq<PublicImage>)
    requires ImagesValid(db.images, db.nextImageId)
    ensures r == PublicListing(ImagesOf(db.images, db.nextImageId, projectId), presign)
  {
    var images := ImagesOf(db.images, db.nextImageId, projectId);
    r := PresignAll(images, presign);
  }

  /** Every image of the project appears in the public listing, with its own id. */
  lemma PublicListingComplete(images: map<int, ProjectImage>, next: int, projectId: int, k: int,
                              presign: (string, int) -> Presigned)
    requires ImagesValid(images, next) && k in images && images[k].projectId == projectId
    ensures exists i :: (0 <= i < |ImagesOf(images, next, projectId)| && ImagesOf(images, next, projectId)[i] == images[k]
                         && PublicView(ImagesOf(images, next, projectId)[i], presign(images[k].objectName, PublicUrlExpiry)).id == k)
  {
    var listed := ImagesOf(images, next, projectId);
    assert images[k] in listed;
    var i :| 0 <= i < |listed| && listed[i] == images[k];
    assert PublicView(listed[i], presign(images[k].objectName, PublicUrlExpiry)).id == k;
  }

  // ---------------------------------------------------------------------------
  // view_image

  /** `view_image`: the URL it redirects to, valid for one hour. */
  function ViewImage(images: map<int, ProjectImage>, projectId: int, imageId: int,
                     presign: (string, int) -> Presigned): (r: Result<string, HttpError>)
    ensures (imageId !in images || images[imageId].projectId != projectId) ==> r == Err(ImageNotFound)
    ensures r.Ok? ==> imageId in images && images[imageId].projectId == projectId
                      && presign(images[imageId].objectName, ViewUrlExpiry) == Url(r.value)
    ensures imageId in images && images[imageId].projectId == projectId
            && presign(images[imageId].objectName, ViewUrlExpiry).PresignError? ==>
      r == Err(HttpError(500, "Failed to generate view URL: " + presign(images[imageId].objectName, ViewUrlExpiry).message))
  {
    if imageId !in images || images[imageId].projectId != projectId then Err(ImageNotFound)
    else
      match presign(images[imageId].objectName, ViewUrlExpiry)
      case Url(u) => Ok(u)
      case PresignError(m) => Err(HttpError(500, "Failed to generate view URL: " + m))
  }

  /** An image that can be viewed under a project is one the project's listing shows. */
  lemma ViewedImageIsListed(images: map<int, ProjectImage>, next: int, projectId: int, imageId: int,
                            presign: (string, int) -> Presigned)
    requires ImagesValid(images, next) && ViewImage(images, projectId, imageId, presign).Ok?
    ensures images[imageId] in ImagesOf(images, next, projectId)
  {
  }
}
