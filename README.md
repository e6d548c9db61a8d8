# Object-storage gateway, modelled in Dafny

This project models the object-storage gateway of `s3/s3.go`. The gateway stores uploaded
files in an S3-compatible bucket under generated keys, and it describes each stored object
by its key, content type, public URL and size in kilobytes. It can also recover a key from
a URL it issued. The model has two modules:

- `GoLib` (`golib.dfy`) holds the parts of Go's standard library whose exact behaviour the
  gateway depends on: `filepath.Ext`, `strings.TrimSuffix`, `path.Base` (with its helper
  `lastSlash`) and the `%d` rendering of the timestamp. `Ext`, `TrimSuffix`, `Base` and
  the decimal digits of a natural number each have a contract that characterises the
  result completely. `FormatInt`'s contract gives the sign and the digits, and
  `FormatIntRoundTrip` fixes the value. Lemmas cover how the functions compose: an
  extension survives what is put in front of it, `Base` inverts joining a directory and a
  name, and decimal rendering round-trips.
- `S3` (`s3.dfy`) holds the gateway:
  - key generation (`CreateUniqueFilename`), with an inverse `ParseKey` and the
    round-trip lemma between them;
  - kilobyte rounding (`ConvertByteToKB`);
  - public URLs (`PublicUrl`, `PrintPublicURL`);
  - key recovery (`GetObjectFromUrl`);
  - `Upload`, a method over a `Backend` class that holds the bucket contents and records
    each client construction and write.

The gateway does not compute everything itself; these inputs become parameters:

- the outcome of `minio.New` for a connection: `connect`, a function of the connection
  settings, so both client constructions in one upload agree;
- the random identifier: `uuid`;
- the clock reading: `now`, in Unix seconds;
- whether the backend's write fails: `putFault`;
- `url.Parse`, reduced to the path component it yields or its error: `parse`.

`ExtractsPlainPaths` states what the round-trip lemmas need from `url.Parse`. Given an
endpoint URL without a path, a path that is empty or starts with `/` and has no `?`, `#`,
`%` or control character comes back unchanged. A query after `?` is not part of the path.

Some behaviours of the program worth stating plainly:

- `convertByteToKB` rounds halves away from zero (`math.Round`). This agrees with rounding
  half up on every non-negative size; for negative sizes, -512 bytes gives -1.
- The extension is the one `filepath.Ext` gives. It includes the dot, it is taken from the
  last `/`-separated element only, and a name such as `.bashrc` is all extension.
- An empty collection returns the error "invalid collection name". The collection is
  otherwise unused, and keys are not namespaced by it.
- On success, `Upload` builds a client, writes the object, and builds a second client in
  `PrintPublicURL`.

A generated key is recovered from its public URL when the original name and the bucket
have no `/`, `?`, `#`, `%` or control character and `url.Parse` behaves as
`ExtractsPlainPaths` states (`UploadedKeyResolves`). When the original name has a `/`, its
key is never recovered, from any URL (`SlashedNameUnrecoverable`): `path.Base` keeps only
what follows the last `/`. Keys are distinct whenever the identifiers, names or times
differ (`KeyGenerationInjective`). How likely it is
that two random identifiers collide is outside the model.

## Model

| member | source | states |
|---|---|---|
| `GoLib.Ext` | s3/s3.go:94 | the extension is a suffix of the name; it is empty exactly when the last `/`-separated element has no `.`, and otherwise starts at that element's last `.` (no `/` in it, no other `.`) |
| `GoLib.ExtIndex` | s3/s3.go:94 | the backwards scan finds the last `.` before any `/`, or reports that the last element has none |
| `GoLib.TrimSuffix` | s3/s3.go:95 | when the suffix is present, the result followed by the suffix is the input; otherwise the input is unchanged |
| `GoLib.StemAndExt` | s3/s3.go:94-95 | stem and extension put together give back the original file name, and the stem is the name minus the extension's length |
| `GoLib.ExtOfExtended` | s3/s3.go:99 | a non-empty extension is still the extension whatever is placed in front of it |
| `GoLib.NoExtAfterPlainTail` | s3/s3.go:99 | appending text without `.` or `/` to a name that has no extension leaves it without one |
| `GoLib.LastIndexOf` | s3/s3.go:137 | the index of the last occurrence of the character (no occurrence after it), or -1 when there is none |
| `GoLib.TrimTrailingSlashes` | s3/s3.go:137 | removes exactly the trailing slashes: a prefix, followed only by slashes, that does not itself end in `/` |
| `GoLib.Base` | s3/s3.go:137 | `path.Base`: `"."` for the empty path, `"/"` for a path of slashes, otherwise a non-empty element without `/` that ends the path once trailing slashes are stripped and starts it or follows a `/` |
| `GoLib.LastElement` | s3/s3.go:137 | what follows the last `/` is a suffix; for a path not ending in `/` it is non-empty, has no `/`, and is the whole path or preceded by `/` |
| `GoLib.BaseOfJoin` | s3/s3.go:137 | for any directory (empty or ending in `/`), non-empty element without `/` and number of trailing slashes, the base is that element |
| `GoLib.BaseDecomposes` | s3/s3.go:137 | every path that is not all slashes is a directory, its base and trailing slashes (the converse of BaseOfJoin) |
| `GoLib.BaseIgnoresTrailingSlash` | s3/s3.go:137 | a trailing slash does not change the base of a non-empty path |
| `GoLib.NatToDecimal` | s3/s3.go:99 | the digits of a natural number: non-empty, only digits, no leading zero, and read back in base ten they give the number |
| `GoLib.FormatInt` | s3/s3.go:99 | `%d`: a leading `-` exactly for negative numbers, then only digits |
| `GoLib.FormatIntRoundTrip` | s3/s3.go:99 | reading back a rendered timestamp gives the timestamp |
| `GoLib.FormatIntIsPlain` | s3/s3.go:99 | a rendered timestamp has no `.`, `/`, `_`, `?`, `#` or `%` |
| `S3.S3Connection` | s3/s3.go:28-33 | a datatype with no contract: access key, secret key, bucket and endpoint |
| `S3.S3Resp` | s3/s3.go:21-26 | a datatype with no contract: file name, content type, file URL and size in kilobytes (an integer here, see Left out) |
| `S3.CreateUniqueFilename` | s3/s3.go:93-101 | no contract of its own; its properties are stated by `KeyShape`, `KeyKeepsExtension`, `ParseKeyRoundTrip`, `KeyGenerationInjective` and `KeyIsUrlSafe` |
| `S3.KeyShape` | s3/s3.go:93-101 | the key is exactly stem + `-` + uuid + `_` + decimal(seconds) + extension, where stem + extension is the original name |
| `S3.CanonicalUuidIsPlain` | s3/s3.go:95 | a canonical UUID string holds no `.`, `/`, `_` or URL delimiter |
| `S3.KeyKeepsExtension` | s3/s3.go:94-99 | the key ends with the original extension and has that same extension, which is empty when the name has none |
| `S3.ParseKeyOfParts` | s3/s3.go:99 | ParseKey splits a string shaped like a key into the name, identifier and timestamp it was built from |
| `S3.ParseKeyRoundTrip` | s3/s3.go:93-101 | ParseKey recovers the original name, the identifier and the timestamp from a generated key |
| `S3.KeyGenerationInjective` | s3/s3.go:95-99 | keys generated from different identifiers, names or times are different |
| `S3.KeyIsUrlSafe` | s3/s3.go:93-101 | a key is non-empty, and it has no `/` or URL delimiter when the original name has none |
| `S3.ConvertByteToKB` | s3/s3.go:88-91 | the result is the nearest whole number of kilobytes; a half rounds up for sizes of zero or more and down for negative sizes |
| `S3.ConvertByteToKBExamples` | s3/s3.go:88-91 | 0, 511, 512, 1024 and 1536 bytes give 0, 0, 1, 1 and 2 KB; -512 gives -1 and -511 gives 0 |
| `S3.ConvertByteToKBMonotonic` | s3/s3.go:88-91 | a larger size never gives fewer kilobytes |
| `S3.ConvertByteToKBOdd` | s3/s3.go:88-91 | negating the size negates the result |
| `S3.PublicUrl` | s3/s3.go:110 | no contract of its own; `PrintPublicURL` states the URL it builds and `PublicUrlRoundTrip` that `GetObjectFromUrl` inverts it |
| `S3.GetObjectFromUrl` | s3/s3.go:129-139 | no contract of its own; its properties are stated by `GetObjectFromUrlSpecialCases`, `GetObjectFromUrlLastElement` and `KeyFromPath` |
| `S3.GetObjectFromUrlSpecialCases` | s3/s3.go:129-139 | a parse error comes back unchanged, an empty path gives `"."` and a path of slashes gives `"/"` |
| `S3.GetObjectFromUrlLastElement` | s3/s3.go:136-137 | otherwise the result is the path's last non-empty element: the path is a directory, that element and trailing slashes |
| `S3.KeyFromPath` | s3/s3.go:136-137 | whenever the parsed path ends in an element, it is recovered, whatever the directory and trailing slashes |
| `S3.PublicUrlRoundTrip` | s3/s3.go:103-139 | a non-empty key with no `/`, `?`, `#`, `%` or control character is recovered from its public URL, with or without a query appended |
| `S3.PresignedUrlExample` | s3/s3.go:129-139 | `https://host/bucket/myfile_1700000000.png?X-Sig=abc` resolves to `myfile_1700000000.png` |
| `S3.SafeJoin` | s3/s3.go:99 | joining two strings free of `/` and URL delimiters gives such a string |
| `S3.KeyBodyCuts` | s3/s3.go:99 | in stem-uuid_digits, the last `_` is the one before the digits, and the cuts around it give back stem, uuid and digits |
| `S3.UploadedKeyResolves` | s3/s3.go:62-83 | the key of an upload of a plain file name is recovered from the upload's public URL |
| `S3.SlashedKeyUnrecoverable` | s3/s3.go:129-139 | whatever url.Parse yields, the result is never a string that holds a `/` other than `"/"` itself |
| `S3.SlashedNameUnrecoverable` | s3/s3.go:129-139 | the key generated for a name that holds a `/` is never what GetObjectFromURL returns, for any URL |
| `S3.Backend.GetClient` | s3/s3.go:44-49 | the client is what minio.New yields for the connection, and the construction is recorded |
| `S3.Backend.PutObject` | s3/s3.go:64-72 | on success the object is stored under (bucket, key), and nothing else changes; on failure nothing is stored and the error is returned; the write is recorded |
| `S3.PrintPublicURL` | s3/s3.go:103-111 | endpoint URL + `/` + bucket + `/` + key, or the client error; one client construction |
| `S3.Upload` | s3/s3.go:51-86 | empty collection: error, no call and nothing stored; client or write failure: that error and nothing stored; success exactly when every step succeeds, and then the record is (key, content type, public URL, rounded size) and the only change to the bucket is the new object with public-read metadata |

## Left out

- `minio.New` and the client it builds (s3/s3.go:44-49) are foreign code. The model takes
  their outcome as the parameter `connect`. It does not model TLS, credentials or
  endpoint validation.
- `PutObject`'s transport (s3/s3.go:64-69) is network I/O. Its outcome is the parameter
  `putFault`. Nothing checks the declared size against the reader; a mismatch is one of the
  backend failures `putFault` stands for. The write is all-or-nothing.
- Backend.PutObject: when `putFault` is `None` the whole content is stored, whatever the
  declared size says. A store that reads only the declared number of bytes is not
  modelled.
- Upload: both client constructions in one upload see the same outcome, because both are
  `connect(conn)`. The second one, in `PrintPublicURL`, therefore never fails after a
  successful first one. In the source a failure there would return an error after the
  object is already stored; the model cannot express that outcome.
- `EndpointURL()` (s3/s3.go:109) is a read of the client and is not recorded in the call
  log.
- GoLib.Ext: '/' is the only path separator. On Windows `filepath.Ext` also stops at
  `\`; that is not modelled.
- Go strings are byte sequences and Dafny strings are sequences of characters. File names
  that are not valid UTF-8 cannot be written in the model.
- `PrintURL` (s3/s3.go:113-127) asks the backend to sign a URL with a one-hour expiry. The
  signature and expiry are produced by foreign code and are not modelled. Keys are
  still recovered from such URLs, whatever their query (`PresignedUrlExample`,
  `PublicUrlRoundTrip`).
- `url.Parse` (s3/s3.go:130) is the parameter `parse`. The model does not capture
  percent-decoding, scheme and host parsing or its exact error conditions.
  `ExtractsPlainPaths` states what the round trips rely on.
- `uuid.New()` and `time.Now()` (s3/s3.go:95, 97) are the parameters `uuid` and `now`.
  How unlikely a collision of random identifiers is cannot be stated here.
- `NewS3Connection` (s3/s3.go:35-42) copies its argument field by field. With
  `S3Connection` a value type in the model, it would be the identity, so it is not
  modelled.
- ConvertByteToKB: exact only for sizes up to 2^53 bytes in magnitude, with Go's `int`
  64 bits wide. Below that bound, `float64(byteSize) / 1024` is exact. Beyond it, the float
  conversion rounds and the model does not follow it. On a 32-bit target
  `int(header.Size)` (s3/s3.go:84) truncates sizes of 2 GiB or more; that is not modelled
  either.
- `S3Resp.Size` is a `float64` in the source and an `int` here. The source converts a
  whole number of kilobytes to it, which is exact.
- `context.TODO()`, cancellation and the commented-out progress message (s3/s3.go:74) have
  no effect on the results.
- `google-service/google_service.go` and `mailgun/mailgun.go` are not part of this model.
  They are thin wrappers over credential loading and an e-mail API.
