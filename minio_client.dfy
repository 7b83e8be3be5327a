/**
 * Object storage for project images (backend/core/minio_client.py): the
 * extension and object-name derivation, and the bucket and object state of the
 * MinIO server as a class. The uuid and the server's answer to `put_object`
 * are parameters.
 */
module MinioClient {
  import opened Common

  const BucketName := "cdf-projects"

  // ---------------------------------------------------------------------------
  // Extension and object name

  /** `s.split(".")[-1]`: the text after the last ".", or all of `s` when it has none. */
  function AfterLastDot(s: string): (r: string)
    ensures '.' !in r
    ensures |r| <= |s| && r == s[|s| - |r|..]
    ensures '.' in s ==> |r| < |s| && s[|s| - |r| - 1] == '.'
    ensures '.' !in s ==> r == s
  {
    if s == [] then []
    else if s[|s| - 1] == '.' then []
    else
      var init := s[..|s| - 1];
      assert s == init + [s[|s| - 1]];
      AfterLastDot(init) + [s[|s| - 1]]
  }

  /** `filename.split(".")[-1].lower() if "." in filename else "jpg"`. */
  function Extension(filename: string): (ext: string)
    ensures '.' !in ext
    ensures '.' !in filename ==> ext == "jpg"
    ensures '.' in filename ==> exists stem :: filename == stem + "." + AfterLastDot(filename) && ext == Lower(AfterLastDot(filename))
  {
    if '.' in filename then
      var tail := AfterLastDot(filename);
      var stem := filename[..|filename| - |tail| - 1];
      assert filename == stem + "." + tail;
      var ext := Lower(tail);
      assert forall k :: 0 <= k < |ext| ==> ext[k] != '.' by {
        forall k | 0 <= k < |ext| ensures ext[k] != '.' {
          assert tail[k] in tail;
        }
      }
      ext
    else "jpg"
  }

  /** `f"projects/{project_id}/{uuid}.{ext}"`. */
  function ObjectName(projectId: int, uuid: string, ext: string): (name: string)
    ensures |name| > 9 + |uuid| + |ext| && name[..9] == "projects/"
    ensures name[|name| - |ext| - 1..] == "." + ext
  {
    "projects/" + IntToString(projectId) + "/" + uuid + "." + ext
  }

  /** Index of the first "/" in `s`, or `|s|`. */
  function FirstSlash(s: string): (i: nat)
    ensures i <= |s|
    ensures forall k :: 0 <= k < i ==> s[k] != '/'
    ensures i < |s| ==> s[i] == '/'
  {
    if s == [] || s[0] == '/' then 0 else 1 + FirstSlash(s[1..])
  }

  /** The project id an object name was made for: the path segment after "projects/". */
  function ProjectOfObjectName(name: string): (r: Option<int>)
  {
    if |name| < 9 || name[..9] != "projects/" then None
    else
      var rest := name[9..];
      var seg := rest[..FirstSlash(rest)];
      if seg != [] && forall k :: 0 <= k < |seg| ==> IsDigit(seg[k]) || (k == 0 && seg[k] == '-') then
        Some(ParseInt(seg))
      else None
  }

  lemma {:induction false} FirstSlashAfter(a: string, b: string)
    requires '/' !in a
    ensures FirstSlash(a + "/" + b) == |a|
  {
    if a != [] {
      assert (a + "/" + b)[1..] == a[1..] + "/" + b;
      assert a[0] in a;
      FirstSlashAfter(a[1..], b);
    }
  }

  /** The object name records the project it belongs to. */
  lemma ObjectNameNamesProject(projectId: int, uuid: string, ext: string)
    ensures ProjectOfObjectName(ObjectName(projectId, uuid, ext)) == Some(projectId)
  {
    var id := IntToString(projectId);
    var name := ObjectName(projectId, uuid, ext);
    var rest := name[9..];
    assert name == "projects/" + (id + "/" + (uuid + "." + ext));
    assert rest == id + "/" + (uuid + "." + ext);
    assert '/' !in id by {
      forall k | 0 <= k < |id| ensures id[k] != '/' { }
    }
    FirstSlashAfter(id, uuid + "." + ext);
    assert rest[..FirstSlash(rest)] == id;
    IntToStringRoundTrip(projectId);
  }

  /** Images of different projects never share an object name. */
  lemma ObjectNamesOfProjectsDiffer(p: int, q: int, u: string, v: string, e: string, f: string)
    requires p != q
    ensures ObjectName(p, u, e) != ObjectName(q, v, f)
  {
    ObjectNameNamesProject(p, u, e);
    ObjectNameNamesProject(q, v, f);
  }

  // ---------------------------------------------------------------------------
  // The storage server

  /** An object as `put_object` stores it. */
  datatype StoredObject = StoredObject(data: seq<bv8>, length: int, contentType: string)

  /** What the server answers to `put_object`: stored, or an `S3Error` with its message. */
  datatype PutOutcome = Accepted | S3Failure(message: string)

  class ObjectStore {
    var buckets: set<string>
    /** Objects by (bucket, object name). */
    var objects: map<(string, string), StoredObject>

    constructor (initialBuckets: set<string>)
      ensures buckets == initialBuckets && objects == map[]
    {
      buckets := initialBuckets;
      objects := map[];
    }

    /** `ensure_bucket`: creates the bucket only when it is missing. */
    method EnsureBucket()
      modifies this`buckets
      ensures buckets == old(buckets) + {BucketName}
    {
      if BucketName !in buckets {
        buckets := buckets + {BucketName};
      }
    }

    /** `upload_project_image`: stores the bytes under a fresh name and returns that name. */
    method UploadProjectImage(fileData: seq<bv8>, filename: string, projectId: int, uuid: string, outcome: PutOutcome)
      returns (r: Result<string, string>)
      modifies this`objects
      ensures outcome.S3Failure? ==> r == Err("MinIO upload failed: " + outcome.message) && objects == old(objects)
      ensures outcome.Accepted? ==>
        var ext := Extension(filename);
        var name := ObjectName(projectId, uuid, ext);
        && r == Ok(name)
        && objects == old(objects)[(BucketName, name) := StoredObject(fileData, |fileData|, "image/" + ext)]
    {
      var ext := Extension(filename);
      var name := ObjectName(projectId, uuid, ext);
      if outcome.S3Failure? {
        return Err("MinIO upload failed: " + outcome.message);
      }
      objects := objects[(BucketName, name) := StoredObject(fileData, |fileData|, "image/" + ext)];
      r := Ok(name);
    }
  }

  /** Calling `ensure_bucket` twice leaves the same buckets as calling it once. */
  method EnsureBucketTwice(store: ObjectStore)
    modifies store`buckets
    ensures store.buckets == old(store.buckets) + {BucketName}
  {
    store.EnsureBucket();
    store.EnsureBucket();
  }
}
