/**
 * `parseGcsUri` and `fetchJsonFromGcs` (src/lib/gcs.ts). The pattern `^gs:\/\/([^/]+)\/(.+)$`
 * takes the bucket up to the first '/' after the scheme and the rest as the path; `.` does not
 * match line terminators. The storage service is a class holding objects by location and
 * recording every download.
 */
module Gcs {
  import opened Wrappers
  import opened JsString
  import opened TicketTypes

  datatype GcsLocation = GcsLocation(bucket: string, path: string)

  predicate NoSlash(s: string) {
    forall k | 0 <= k < |s| :: s[k] != '/'
  }

  predicate NoLineTerminator(s: string) {
    forall k | 0 <= k < |s| :: !IsLineTerminator(s[k])
  }

  /** The text `gs://<bucket>/<path>`. */
  function GcsUri(bucket: string, path: string): string {
    "gs://" + bucket + "/" + path
  }

  /** `parseGcsUri`: `null` unless the URI has the scheme, a non-empty bucket, a '/' and a non-empty path. */
  function ParseGcsUri(uri: string): (r: Option<GcsLocation>)
    ensures r.Some? ==> GcsUri(r.value.bucket, r.value.path) == uri
    ensures r.Some? ==> r.value.bucket != "" && NoSlash(r.value.bucket)
    ensures r.Some? ==> r.value.path != "" && NoLineTerminator(r.value.path)
  {
    if |uri| < 5 || uri[..5] != "gs://" then None
    else
      var rest := uri[5..];
      var i := IndexOfChar(rest, '/');
      if i <= 0 then None
      else
        var path := rest[i + 1..];
        if path == [] || exists k | 0 <= k < |path| :: IsLineTerminator(path[k]) then None
        else
          assert uri == "gs://" + rest[..i] + "/" + path;
          Some(GcsLocation(rest[..i], path))
  }

  /** The converse: every well-formed bucket and path is parsed back exactly. */
  lemma ParseGcsUriFormat(bucket: string, path: string)
    requires bucket != "" && NoSlash(bucket)
    requires path != "" && NoLineTerminator(path)
    ensures ParseGcsUri(GcsUri(bucket, path)) == Some(GcsLocation(bucket, path))
  {
    var uri := GcsUri(bucket, path);
    var rest := uri[5..];
    assert rest == bucket + "/" + path;
    assert rest[|bucket|] == '/';
    assert rest[..|bucket|] == bucket;
    assert rest[|bucket| + 1..] == path;
  }

  /** What a stored object parses to; `Unparseable` makes `JSON.parse` throw. */
  datatype StoredObject = AuditObject(audit: RawAuditJson) | TicketsObject(file: TicketsFile) | Unparseable

  /** The storage service: its objects, the buckets it lets us write to, and every download made. */
  class Storage {
    var objects: map<GcsLocation, StoredObject>
    var writable: set<string>
    var downloads: seq<GcsLocation>

    constructor (objects: map<GcsLocation, StoredObject>, writable: set<string>)
      ensures this.objects == objects && this.writable == writable && downloads == []
    {
      this.objects := objects;
      this.writable := writable;
      downloads := [];
    }

    /** `file.download()`: the object, or an error when there is none. */
    method Download(loc: GcsLocation) returns (r: Result<StoredObject>)
      modifies this
      ensures objects == old(objects) && writable == old(writable)
      ensures downloads == old(downloads) + [loc]
      ensures r == if loc in objects then Ok(objects[loc]) else Err("No such object: " + loc.bucket + "/" + loc.path)
    {
      downloads := downloads + [loc];
      if loc in objects {
        r := Ok(objects[loc]);
      } else {
        r := Err("No such object: " + loc.bucket + "/" + loc.path);
      }
    }

    /** `file.save(json)`: stored when the bucket accepts writes, an error otherwise. */
    method Save(loc: GcsLocation, obj: StoredObject) returns (r: Result<()>)
      modifies this
      ensures writable == old(writable) && downloads == old(downloads)
      ensures r.Ok? <==> loc.bucket in writable
      ensures r.Err? ==> r.error == "Cannot write to bucket " + loc.bucket
      ensures objects == if r.Ok? then old(objects)[loc := obj] else old(objects)
    {
      if loc.bucket in writable {
        objects := objects[loc := obj];
        r := Ok(());
      } else {
        r := Err("Cannot write to bucket " + loc.bucket);
      }
    }
  }

  /** `JSON.parse` of what was downloaded. */
  function ParseStored(r: Result<StoredObject>): Result<StoredObject> {
    if r.Err? then r
    else if r.value.Unparseable? then Err("Unexpected token in JSON")
    else r
  }

  /** What `fetchJsonFromGcs(uri)` gives for the stored objects. */
  function FetchOutcome(uri: string, objects: map<GcsLocation, StoredObject>): (r: Result<StoredObject>)
    ensures ParseGcsUri(uri).None? ==> r == Err("Invalid GCS URI: " + uri)
    ensures r.Ok? ==>
      && ParseGcsUri(uri).Some? && ParseGcsUri(uri).value in objects
      && r.value == objects[ParseGcsUri(uri).value] && !r.value.Unparseable?
  {
    match ParseGcsUri(uri)
    case None => Err("Invalid GCS URI: " + uri)
    case Some(loc) =>
      ParseStored(if loc in objects then Ok(objects[loc]) else Err("No such object: " + loc.bucket + "/" + loc.path))
  }

  /**
   * `fetchJsonFromGcs(uri)`: an unparseable URI throws `Invalid GCS URI: <uri>` before any
   * download; otherwise exactly one download of the parsed location is made.
   */
  method FetchJsonFromGcs(storage: Storage, uri: string) returns (r: Result<StoredObject>)
    modifies storage
    ensures storage.objects == old(storage.objects) && storage.writable == old(storage.writable)
    ensures ParseGcsUri(uri).None? ==> storage.downloads == old(storage.downloads)
    ensures ParseGcsUri(uri).Some? ==> storage.downloads == old(storage.downloads) + [ParseGcsUri(uri).value]
    ensures r == FetchOutcome(uri, old(storage.objects))
  {
    var parsed := ParseGcsUri(uri);
    if parsed.None? {
      return Err("Invalid GCS URI: " + uri);
    }
    var contents := storage.Download(parsed.value);
    r := ParseStored(contents);
  }
}
