/** The object-storage gateway of s3/s3.go: unique object keys, size rounding, public
    URLs, key recovery from a URL, and the upload that ties them together over an
    S3-compatible backend.

    What the gateway does not compute itself is passed in: the result of minio.New for a
    connection (`connect`), the random identifier and the clock of key generation
    (`uuid`, `now`), the outcome of the backend's write (`putFault`) and Go's url.Parse
    (`parse`, reduced to the path component of the URL it parses). */
module S3 {
  import opened GoLib

  newtype int64 = x: int | -0x8000_0000_0000_0000 <= x < 0x8000_0000_0000_0000
  newtype byte = x: int | 0 <= x < 0x100

  datatype Option<T> = None | Some(value: T)

  datatype Error =
    | InvalidCollectionName          // Upload was given an empty collection
    | ClientError(reason: string)    // minio.New refused the connection settings
    | PutError(reason: string)       // the backend did not store the object
    | UrlParseError(reason: string)  // url.Parse refused the URL

  datatype Result<T> = Ok(value: T) | Err(error: Error)

  /** Credentials, bucket and endpoint of the storage service. */
  datatype S3Connection = S3Connection(accessKey: string, secretKey: string, bucket: string, endpoint: string)

  /** The record of a stored upload; `size` is in kilobytes. */
  datatype S3Resp = S3Resp(fileName: string, contentType: string, fileUrl: string, size: int)

  /** The parts of the multipart header the gateway reads. */
  datatype FileHeader = FileHeader(filename: string, size: int64)

  /** What the gateway uses of a minio client: the endpoint URL it reports. */
  datatype Client = Client(endpointUrl: string)

  datatype StoredObject = StoredObject(content: seq<byte>, size: int64, contentType: string, userMetadata: map<string, string>)

  datatype ObjectId = ObjectId(bucket: string, key: string)

  /** A call the gateway makes on the storage client library. */
  datatype Call = ClientCreated(endpoint: string) | ObjectPut(bucket: string, key: string)

  /** The user metadata every upload carries. */
  const PublicReadMetadata: map<string, string> := map["x-amz-acl" := "public-read"]

  // ---------------------------------------------------------------------------
  // Key generation

  predicate IsLowerHex(c: char) {
    '0' <= c <= '9' || 'a' <= c <= 'f'
  }

  /** The canonical text form of a UUID: 36 characters, lower-case hex digits in groups of
      8, 4, 4, 4 and 12 separated by '-'. */
  predicate IsCanonicalUuid(s: string) {
    |s| == 36 &&
    forall i :: 0 <= i < 36 ==> if i == 8 || i == 13 || i == 18 || i == 23 then s[i] == '-' else IsLowerHex(s[i])
  }

  /** createUniqueFilename: the original name's stem, "-", the random identifier, "_",
      the Unix time in seconds and the original extension. */
  function CreateUniqueFilename(originalFilename: string, uuid: string, unixSeconds: int): string {
    var extension := Ext(originalFilename);
    var filename := TrimSuffix(originalFilename, extension) + "-" + uuid;
    filename + "_" + FormatInt(unixSeconds) + extension
  }

  /** The exact shape of a generated key: stem, identifier, timestamp, extension, where the
      stem and the extension put together give back the original name. */
  lemma KeyShape(originalFilename: string, uuid: string, unixSeconds: int)
    ensures var ext := Ext(originalFilename);
      var stem := originalFilename[..|originalFilename| - |ext|];
      stem + ext == originalFilename &&
      CreateUniqueFilename(originalFilename, uuid, unixSeconds) == stem + "-" + uuid + "_" + FormatInt(unixSeconds) + ext
  {
    StemAndExt(originalFilename);
  }

  lemma CanonicalUuidIsPlain(uuid: string)
    requires IsCanonicalUuid(uuid)
    ensures Lacks(uuid, '.') && Lacks(uuid, '/') && Lacks(uuid, '_')
    ensures UrlSafe(uuid)
  {
    forall i | 0 <= i < |uuid| ensures uuid[i] != '.' && uuid[i] != '/' && uuid[i] != '_' && UrlSafeChar(uuid[i]) {
      if i == 8 || i == 13 || i == 18 || i == 23 { } else { assert IsLowerHex(uuid[i]); }
    }
  }

  /** The key keeps the extension of the original name, and has none when the name has
      none. */
  lemma KeyKeepsExtension(originalFilename: string, uuid: string, unixSeconds: int)
    requires IsCanonicalUuid(uuid)
    ensures Ext(CreateUniqueFilename(originalFilename, uuid, unixSeconds)) == Ext(originalFilename)
    ensures IsSuffix(Ext(originalFilename), CreateUniqueFilename(originalFilename, uuid, unixSeconds))
  {
    var ext := Ext(originalFilename);
    var stem := TrimSuffix(originalFilename, ext);
    var digits := FormatInt(unixSeconds);
    var front := stem + "-" + uuid + "_" + digits;
    if ext != [] {
      ExtOfExtended(front, ext);
    } else {
      CanonicalUuidIsPlain(uuid);
      FormatIntIsPlain(unixSeconds);
      assert stem == originalFilename;
      NoExtAfterPlainTail(stem, "-");
      NoExtAfterPlainTail(stem + "-", uuid);
      NoExtAfterPlainTail(stem + "-" + uuid, "_");
      NoExtAfterPlainTail(stem + "-" + uuid + "_", digits);
      assert front + ext == front;
    }
  }

  /** The three inputs of key generation, as ParseKey recovers them. */
  datatype KeyParts = KeyParts(originalFilename: string, uuid: string, unixSeconds: int)

  /** Splits a generated key back into original name, identifier and timestamp; None
      for a string that does not have the shape of a generated key. */
  function ParseKey(key: string): Option<KeyParts> {
    var ext := Ext(key);
    var body := key[..|key| - |ext|];
    var u := LastIndexOf(body, '_');
    if u < 37 || body[u - 37] != '-' then None
    else
      var uuid := body[u - 36..u];
      var digits := body[u + 1..];
      if !IsCanonicalUuid(uuid) || FormatInt(ParseInt(digits)) != digits then None
      else Some(KeyParts(body[..u - 37] + ext, uuid, ParseInt(digits)))
  }

  /** Where ParseKey cuts the body of a generated key: the last '_' is the one before the
      timestamp, since neither the timestamp nor (in ParseKeyRoundTrip) what follows has one. */
  lemma KeyBodyCuts(stem: string, uuid: string, digits: string)
    requires |uuid| == 36 && Lacks(digits, '_')
    ensures var body := stem + "-" + uuid + "_" + digits;
      var at := |stem| + 37;
      LastIndexOf(body, '_') == at && body[at - 37] == '-' &&
      body[at - 36..at] == uuid && body[at + 1..] == digits && body[..at - 37] == stem
  {
    var body := stem + "-" + uuid + "_" + digits;
    var at := |stem| + 37;
    assert body[at] == '_';
    assert forall j :: at < j < |body| ==> body[j] == digits[j - at - 1];
  }

  /** ParseKey on a string built like a generated key whose extension is `ext`. */
  lemma ParseKeyOfParts(stem: string, uuid: string, digits: string, ext: string)
    requires IsCanonicalUuid(uuid) && Lacks(digits, '_') && FormatInt(ParseInt(digits)) == digits
    requires Ext(stem + "-" + uuid + "_" + digits + ext) == ext
    ensures ParseKey(stem + "-" + uuid + "_" + digits + ext) == Some(KeyParts(stem + ext, uuid, ParseInt(digits)))
  {
    var body := stem + "-" + uuid + "_" + digits;
    var key := body + ext;
    assert key[..|key| - |ext|] == body;
    KeyBodyCuts(stem, uuid, digits);
  }

  /** Key generation loses nothing: the original name, the identifier and the timestamp
      can all be read back from the key. */
  lemma ParseKeyRoundTrip(originalFilename: string, uuid: string, unixSeconds: int)
    requires IsCanonicalUuid(uuid)
    ensures ParseKey(CreateUniqueFilename(originalFilename, uuid, unixSeconds)) == Some(KeyParts(originalFilename, uuid, unixSeconds))
  {
    var ext := Ext(originalFilename);
    var stem := TrimSuffix(originalFilename, ext);
    var digits := FormatInt(unixSeconds);
    KeyKeepsExtension(originalFilename, uuid, unixSeconds);
    FormatIntIsPlain(unixSeconds);
    FormatIntRoundTrip(unixSeconds);
    ParseKeyOfParts(stem, uuid, digits, ext);
  }

  /** Key generation is injective: keys built from different names, identifiers or times
      never collide. */
  lemma KeyGenerationInjective(name1: string, uuid1: string, time1: int, name2: string, uuid2: string, time2: int)
    requires IsCanonicalUuid(uuid1) && IsCanonicalUuid(uuid2)
    requires uuid1 != uuid2 || name1 != name2 || time1 != time2
    ensures CreateUniqueFilename(name1, uuid1, time1) != CreateUniqueFilename(name2, uuid2, time2)
  {
    ParseKeyRoundTrip(name1, uuid1, time1);
    ParseKeyRoundTrip(name2, uuid2, time2);
  }

  // ---------------------------------------------------------------------------
  // Size conversion

  /** convertByteToKB: the size in kilobytes, rounded to the nearest integer with halves
      rounded away from zero (math.Round on byteSize / 1024). */
  function ConvertByteToKB(byteSize: int): (kb: int)
    ensures byteSize >= 0 ==> 1024 * kb - 512 <= byteSize < 1024 * kb + 512
    ensures byteSize < 0 ==> 1024 * kb - 512 < byteSize <= 1024 * kb + 512
  {
    if byteSize >= 0 then (byteSize + 512) / 1024 else -((-byteSize + 512) / 1024)
  }

  lemma ConvertByteToKBExamples()
    ensures ConvertByteToKB(0) == 0 && ConvertByteToKB(511) == 0 && ConvertByteToKB(512) == 1
    ensures ConvertByteToKB(1024) == 1 && ConvertByteToKB(1536) == 2
    ensures ConvertByteToKB(-512) == -1 && ConvertByteToKB(-511) == 0
  {
  }

  /** A larger size never has fewer kilobytes. */
  lemma ConvertByteToKBMonotonic(smaller: int, larger: int)
    requires smaller <= larger
    ensures ConvertByteToKB(smaller) <= ConvertByteToKB(larger)
  {
  }

  /** Rounding is symmetric about zero, as math.Round is. */
  lemma ConvertByteToKBOdd(byteSize: int)
    ensures ConvertByteToKB(-byteSize) == -ConvertByteToKB(byteSize)
  {
  }

  // ---------------------------------------------------------------------------
  // URLs

  /** The URL of an object under public-read access: endpoint, bucket and key joined by '/'. */
  function PublicUrl(endpointUrl: string, bucket: string, objectName: string): string {
    endpointUrl + "/" + bucket + "/" + objectName
  }

  /** GetObjectFromURL: the base name of the URL's path, or url.Parse's error. */
  function GetObjectFromUrl(parse: string -> Result<string>, presignedUrl: string): Result<string> {
    match parse(presignedUrl)
    case Err(e) => Err(e)
    case Ok(path) => Ok(Base(path))
  }

  /** GetObjectFromURL passes url.Parse's error on unchanged, gives "." for an empty path
      and "/" for a path of slashes. */
  lemma GetObjectFromUrlSpecialCases(parse: string -> Result<string>, presignedUrl: string)
    ensures parse(presignedUrl).Err? ==> GetObjectFromUrl(parse, presignedUrl) == Err(parse(presignedUrl).error)
    ensures parse(presignedUrl) == Ok("") ==> GetObjectFromUrl(parse, presignedUrl) == Ok(".")
    ensures parse(presignedUrl).Ok? && parse(presignedUrl).value != [] && AllSlashes(parse(presignedUrl).value) ==>
      GetObjectFromUrl(parse, presignedUrl) == Ok("/")
  {
  }

  /** Otherwise GetObjectFromURL gives the path's last non-empty element: the path is a
      directory, that element and trailing slashes. */
  lemma GetObjectFromUrlLastElement(parse: string -> Result<string>, presignedUrl: string, path: string)
    requires parse(presignedUrl) == Ok(path) && !AllSlashes(path)
    ensures GetObjectFromUrl(parse, presignedUrl).Ok?
    ensures var name := GetObjectFromUrl(parse, presignedUrl).value;
      var t := TrimTrailingSlashes(path);
      var dir := t[..|t| - |name|];
      name != [] && Lacks(name, '/') && path == dir + name + Slashes(|path| - |t|) && (dir == [] || dir[|dir| - 1] == '/')
  {
    BaseDecomposes(path);
  }

  /** A character that url.Parse keeps as it is in a path or a query: not a control
      character and not one of the delimiters '?', '#' or the escape '%'. */
  predicate UrlSafeChar(c: char) {
    ' ' <= c && c as int != 0x7F && c != '?' && c != '#' && c != '%'
  }

  predicate UrlSafe(s: string) {
    forall i :: 0 <= i < |s| ==> UrlSafeChar(s[i])
  }

  /** A path url.Parse returns unchanged after a scheme and host. */
  predicate IsPlainPath(path: string) {
    (path == [] || path[0] == '/') && UrlSafe(path)
  }

  /** A query url.Parse splits off without affecting the path. */
  predicate IsPlainQuery(query: string) {
    forall i :: 0 <= i < |query| ==> ' ' <= query[i] && query[i] as int != 0x7F && query[i] != '#'
  }

  /** What Go's url.Parse does for a URL that starts with an endpoint URL without a path
      (scheme and host, as a minio client reports it): a plain path comes back as the path
      component, and a query after '?' is not part of it. */
  ghost predicate ExtractsPlainPaths(parse: string -> Result<string>, endpointUrl: string) {
    (forall path :: IsPlainPath(path) ==> parse(endpointUrl + path) == Ok(path)) &&
    (forall path, query :: IsPlainPath(path) && IsPlainQuery(query) ==> parse(endpointUrl + path + "?" + query) == Ok(path))
  }

  /** GetObjectFromURL recovers the element a path ends in, whatever the directory part and
      the trailing slashes. */
  lemma KeyFromPath(parse: string -> Result<string>, url: string, dir: string, key: string, trailing: nat)
    requires parse(url) == Ok(dir + key + Slashes(trailing))
    requires key != [] && Lacks(key, '/')
    requires dir == [] || dir[|dir| - 1] == '/'
    ensures GetObjectFromUrl(parse, url) == Ok(key)
  {
    BaseOfJoin(dir, key, trailing);
  }

  /** Round trip: a key that is non-empty and has no '/', '?', '#', '%' or control
      character is recovered from its public URL, and from that URL with any query
      appended (as a presigned URL has). */
  lemma PublicUrlRoundTrip(parse: string -> Result<string>, endpointUrl: string, bucket: string, key: string, query: string)
    requires ExtractsPlainPaths(parse, endpointUrl)
    requires UrlSafe(bucket)
    requires key != [] && Lacks(key, '/') && UrlSafe(key)
    requires IsPlainQuery(query)
    ensures GetObjectFromUrl(parse, PublicUrl(endpointUrl, bucket, key)) == Ok(key)
    ensures GetObjectFromUrl(parse, PublicUrl(endpointUrl, bucket, key) + "?" + query) == Ok(key)
  {
    var dir := "/" + bucket + "/";
    var path := dir + key;
    assert IsPlainPath(path) by {
      assert forall i :: 0 <= i < |path| ==> path[i] == '/' || (1 <= i <= |bucket| && path[i] == bucket[i - 1]) || (|dir| <= i && path[i] == key[i - |dir|]);
    }
    assert PublicUrl(endpointUrl, bucket, key) == endpointUrl + path;
    assert path + Slashes(0) == path;
    KeyFromPath(parse, PublicUrl(endpointUrl, bucket, key), dir, key, 0);
    KeyFromPath(parse, PublicUrl(endpointUrl, bucket, key) + "?" + query, dir, key, 0);
  }

  /** The path of the example below is plain, and splits as KeyFromPath wants it. */
  lemma ExamplePathIsPlain()
    ensures IsPlainPath("/bucket/myfile_1700000000.png")
  {
  }

  lemma ExamplePathSplits()
    ensures "/bucket/myfile_1700000000.png" == "/bucket/" + "myfile_1700000000.png" + Slashes(0)
  {
  }

  /** The example of a presigned URL: its signature in the query does not reach the key. */
  lemma PresignedUrlExample(parse: string -> Result<string>)
    requires ExtractsPlainPaths(parse, "https://host")
    ensures GetObjectFromUrl(parse, "https://host" + "/bucket/myfile_1700000000.png" + "?" + "X-Sig=abc")
         == Ok("myfile_1700000000.png")
  {
    ExamplePathIsPlain();
    ExamplePathSplits();
    assert IsPlainQuery("X-Sig=abc");
    KeyFromPath(parse, "https://host" + "/bucket/myfile_1700000000.png" + "?" + "X-Sig=abc",
                "/bucket/", "myfile_1700000000.png", 0);
  }

  lemma SafeJoin(a: string, b: string)
    requires UrlSafe(a) && UrlSafe(b) && Lacks(a, '/') && Lacks(b, '/')
    ensures UrlSafe(a + b) && Lacks(a + b, '/')
  {
    assert forall i :: 0 <= i < |a + b| ==> (a + b)[i] == if i < |a| then a[i] else b[i - |a|];
  }

  /** A generated key is non-empty, and free of '/' and of URL delimiters whenever the
      original name is. */
  lemma KeyIsUrlSafe(originalFilename: string, uuid: string, unixSeconds: int)
    requires IsCanonicalUuid(uuid)
    requires Lacks(originalFilename, '/') && UrlSafe(originalFilename)
    ensures var key := CreateUniqueFilename(originalFilename, uuid, unixSeconds);
      key != [] && Lacks(key, '/') && UrlSafe(key)
  {
    var ext := Ext(originalFilename);
    var stem := TrimSuffix(originalFilename, ext);
    var digits := FormatInt(unixSeconds);
    PlainNameParts(originalFilename);
    CanonicalUuidIsPlain(uuid);
    FormatIntIsUrlSafe(unixSeconds);
    SafeJoin(stem, "-");
    SafeJoin(stem + "-", uuid);
    SafeJoin(stem + "-" + uuid, "_");
    SafeJoin(stem + "-" + uuid + "_", digits);
    SafeJoin(stem + "-" + uuid + "_" + digits, ext);
  }

  /** The stem and the extension of a name free of '/' and URL delimiters are so too. */
  lemma PlainNameParts(name: string)
    requires Lacks(name, '/') && UrlSafe(name)
    ensures var ext := Ext(name);
      var stem := TrimSuffix(name, ext);
      UrlSafe(stem) && Lacks(stem, '/') && UrlSafe(ext) && Lacks(ext, '/')
  {
    var ext := Ext(name);
    var stem := TrimSuffix(name, ext);
    StemAndExt(name);
    assert forall i :: 0 <= i < |stem| ==> stem[i] == name[i];
    assert forall i :: 0 <= i < |ext| ==> ext[i] == name[|stem| + i];
  }

  /** A rendered integer, a sign and digits, is free of '/' and URL delimiters. */
  lemma FormatIntIsUrlSafe(n: int)
    ensures UrlSafe(FormatInt(n)) && Lacks(FormatInt(n), '/')
  {
    var digits := FormatInt(n);
    FormatIntIsPlain(n);
    forall i | 0 <= i < |digits| ensures UrlSafeChar(digits[i]) {
      if i > 0 || n >= 0 { assert IsDigit(digits[i]); }
    }
  }

  /** The key of an upload comes back from the public URL of the upload, when the original
      name is a plain file name. */
  lemma UploadedKeyResolves(parse: string -> Result<string>, endpointUrl: string, bucket: string,
                            originalFilename: string, uuid: string, unixSeconds: int)
    requires ExtractsPlainPaths(parse, endpointUrl)
    requires UrlSafe(bucket)
    requires IsCanonicalUuid(uuid)
    requires Lacks(originalFilename, '/') && UrlSafe(originalFilename)
    ensures var key := CreateUniqueFilename(originalFilename, uuid, unixSeconds);
      GetObjectFromUrl(parse, PublicUrl(endpointUrl, bucket, key)) == Ok(key)
  {
    KeyIsUrlSafe(originalFilename, uuid, unixSeconds);
    PublicUrlRoundTrip(parse, endpointUrl, bucket, CreateUniqueFilename(originalFilename, uuid, unixSeconds), "");
  }

  /** GetObjectFromURL never yields a string that holds a '/' other than "/" itself,
      whatever url.Parse does. */
  lemma SlashedKeyUnrecoverable(parse: string -> Result<string>, url: string, key: string)
    requires !Lacks(key, '/') && key != "/"
    ensures GetObjectFromUrl(parse, url) != Ok(key)
  {
    var i :| 0 <= i < |key| && key[i] == '/';
    if parse(url).Ok? {
      var r := Base(parse(url).value);
      assert r == "." || r == "/" || Lacks(r, '/');
      assert r != key by {
        assert r == "." ==> r[0] != '/';
        assert Lacks(r, '/') ==> i >= |r| || r[i] != key[i];
      }
    }
  }

  /** The converse side of UploadedKeyResolves for '/': the key of an upload whose
      original name holds a '/' is never what GetObjectFromURL recovers, from any URL. */
  lemma SlashedNameUnrecoverable(parse: string -> Result<string>, url: string,
                                 originalFilename: string, uuid: string, unixSeconds: int)
    requires !Lacks(originalFilename, '/')
    ensures GetObjectFromUrl(parse, url) != Ok(CreateUniqueFilename(originalFilename, uuid, unixSeconds))
  {
    var ext := Ext(originalFilename);
    var stem := TrimSuffix(originalFilename, ext);
    var key := CreateUniqueFilename(originalFilename, uuid, unixSeconds);
    StemAndExt(originalFilename);
    var i :| 0 <= i < |originalFilename| && originalFilename[i] == '/';
    assert forall j :: |stem| <= j < |originalFilename| ==> originalFilename[j] == ext[j - |stem|];
    assert key[i] == '/' by {
      assert key == stem + ("-" + uuid + "_" + FormatInt(unixSeconds) + ext);
    }
    assert key != "/" by {
      assert key[|stem|] == '-';
    }
    SlashedKeyUnrecoverable(parse, url, key);
  }

  // ---------------------------------------------------------------------------
  // The storage backend and the upload

  /** An S3-compatible store as the gateway sees it: the objects of every bucket and the
      calls the gateway has made on the client library, oldest first. */
  class Backend {
    var objects: map<ObjectId, StoredObject>
    var calls: seq<Call>

    constructor (objects: map<ObjectId, StoredObject>)
      ensures this.objects == objects && calls == []
    {
      this.objects := objects;
      calls := [];
    }

    /** getClient: minio.New with the connection's endpoint and credentials over TLS;
        `connect` gives its outcome for each connection. */
    method GetClient(conn: S3Connection, connect: S3Connection -> Result<Client>) returns (client: Result<Client>)
      modifies this`calls
      ensures client == connect(conn)
      ensures calls == old(calls) + [ClientCreated(conn.endpoint)]
    {
      calls := calls + [ClientCreated(conn.endpoint)];
      client := connect(conn);
    }

    /** PutObject: stores `obj` under `key` in `bucket`, unless the backend fails with
        `fault`, in which case nothing is stored. */
    method PutObject(bucket: string, key: string, obj: StoredObject, fault: Option<string>) returns (err: Option<Error>)
      modifies this
      ensures err == if fault.Some? then Some(PutError(fault.value)) else None
      ensures objects == if fault.Some? then old(objects) else old(objects)[ObjectId(bucket, key) := obj]
      ensures calls == old(calls) + [ObjectPut(bucket, key)]
    {
      calls := calls + [ObjectPut(bucket, key)];
      if fault.Some? {
        err := Some(PutError(fault.value));
      } else {
        objects := objects[ObjectId(bucket, key) := obj];
        err := None;
      }
    }
  }

  /** PrintPublicURL: builds a client for its endpoint URL and joins it with the bucket and
      the key; a client that cannot be built is the error. */
  method PrintPublicURL(conn: S3Connection, backend: Backend, connect: S3Connection -> Result<Client>, objectName: string)
    returns (url: Result<string>)
    modifies backend`calls
    ensures url == match connect(conn)
      case Err(e) => Err(e)
      case Ok(client) => Ok(PublicUrl(client.endpointUrl, conn.bucket, objectName))
    ensures backend.calls == old(backend.calls) + [ClientCreated(conn.endpoint)]
  {
    var client := backend.GetClient(conn, connect);
    if client.Err? {
      return Err(client.error);
    }
    url := Ok(PublicUrl(client.value.endpointUrl, conn.bucket, objectName));
  }

  /** Upload: refuses an empty collection before any other work, then builds a client,
      stores the file under a fresh key with public-read metadata, and describes the
      stored object. An error from any step is returned as it is. */
  method Upload(conn: S3Connection, backend: Backend, connect: S3Connection -> Result<Client>,
                file: seq<byte>, header: FileHeader, contentType: string, collection: string,
                uuid: string, now: int64, putFault: Option<string>)
    returns (resp: Result<S3Resp>)
    modifies backend
    // An empty collection: an error, no client, no call at all, nothing stored.
    ensures collection == "" ==>
      resp == Err(InvalidCollectionName) &&
      backend.calls == old(backend.calls) && backend.objects == old(backend.objects)
    // The client cannot be built: its error, nothing stored.
    ensures collection != "" && connect(conn).Err? ==>
      resp == Err(connect(conn).error) &&
      backend.calls == old(backend.calls) + [ClientCreated(conn.endpoint)] && backend.objects == old(backend.objects)
    // The write fails: its error, nothing stored.
    ensures collection != "" && connect(conn).Ok? && putFault.Some? ==>
      var key := CreateUniqueFilename(header.filename, uuid, now as int);
      resp == Err(PutError(putFault.value)) &&
      backend.calls == old(backend.calls) + [ClientCreated(conn.endpoint), ObjectPut(conn.bucket, key)] &&
      backend.objects == old(backend.objects)
    // Success exactly when every step succeeds.
    ensures resp.Ok? <==> collection != "" && connect(conn).Ok? && putFault.None?
    // On success: the record describes the object, which is the only change to the store.
    ensures resp.Ok? ==>
      var key := CreateUniqueFilename(header.filename, uuid, now as int);
      resp.value == S3Resp(key, contentType, PublicUrl(connect(conn).value.endpointUrl, conn.bucket, key),
                           ConvertByteToKB(header.size as int)) &&
      backend.objects == old(backend.objects)[ObjectId(conn.bucket, key) := StoredObject(file, header.size, contentType, PublicReadMetadata)] &&
      backend.calls == old(backend.calls) + [ClientCreated(conn.endpoint), ObjectPut(conn.bucket, key), ClientCreated(conn.endpoint)]
  {
    if collection == "" {
      return Err(InvalidCollectionName);
    }

    var client := backend.GetClient(conn, connect);
    if client.Err? {
      return Err(client.error);
    }

    var objectName := CreateUniqueFilename(header.filename, uuid, now as int);

    var err := backend.PutObject(conn.bucket, objectName, StoredObject(file, header.size, contentType, PublicReadMetadata), putFault);
    if err.Some? {
      return Err(err.value);
    }

    var url := PrintPublicURL(conn, backend, connect, objectName);
    match url
    case Err(e) =>
      // Not reached: this client is built from the same settings as the first one.
      return Err(e);
    case Ok(fileUrl) =>
      resp := Ok(S3Resp(objectName, contentType, fileUrl, ConvertByteToKB(header.size as int)));
  }
}
