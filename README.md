# Claim-check client, producer side

This project models the producer of a claim-check client built on a cloud
object store and a message stream. Instead of sending a file through the
stream, the producer uploads the file to object storage and publishes only a
claim check: the object-storage path `/n/<namespace>/b/<bucket>/o/<object>`
of the uploaded object.

Two modules:

- `Pointer` (`pointer.dfy`) holds the pure parts. `PathToObject` builds the
  claim check by concatenation. `BaseName` derives the object name from the
  file path. `FieldsOf` reads a claim check back into its three fields, by the
  path's `/`-separated segments. It is the inverse that the lemmas relate
  `PathToObject` to: reading back works, and distinct triples give distinct
  claim checks, whenever no field holds a `/`. `SeparatorCollision` shows the
  ambiguity when a field does hold one.
- `Client` (`client.dfy`) holds `RunClient`, the entry point, as a
  straight-line method. It looks up the namespace once. For client type
  `"producer"` it then checks the file, uploads it, and, only on status 200,
  publishes a one-message list holding the claim check. The remote services
  are replaced by an `Env` of scripted answers: the namespace value, the two
  file-system checks, the file's bytes, the upload status and the publish
  status. Every remote call is recorded with its arguments in the returned
  trace of `Effect`s: `GetNamespace`, `PutObject` and `PutMessages`. The method's
  contract states which calls happen, in which order, with which arguments,
  and which `Outcome` the run ends in.

The source only logs its outcomes and raises no error of its own. `Outcome`
names the path a run took: `NotProducer`, `FileRejected`, `PutRefused`,
`AppendRefused` or `Published`. The source logs a successful upload (line 82)
and a successful publish (line 100); the other outcomes end without a message.

What the code does and does not do on the way:

- The code has no status check on the namespace lookup and no failure path for it.
- A refused upload or publish raises no error. The run just ends with nothing
  more done.
- The `"consumer"` branch is empty. Any client type other than `"producer"`
  makes no call after the lookup.
- The code has no decoder of claim checks. `FieldsOf` is a specification of
  reading the layout back, not a modelled operation.

## Model

| member | source | states |
|---|---|---|
| Pointer.PathToObject | src/main/java/io/github/mtjakobczyk/javamagazine/ClaimCheckClient.java:68 | the claim check starts with `/n/` and its length is the three field lengths plus 9 |
| Pointer.BaseName | src/main/java/io/github/mtjakobczyk/javamagazine/ClaimCheckClient.java:57-67 | the object name never holds a `/` |
| Pointer.LastSegmentEndsPath | src/main/java/io/github/mtjakobczyk/javamagazine/ClaimCheckClient.java:67 | the last segment ends the string, and it is either the whole string or preceded by a `/` |
| Pointer.BaseNameDropsTrailingSeparators | src/main/java/io/github/mtjakobczyk/javamagazine/ClaimCheckClient.java:57-67 | separators at the end of the path are ignored: the object name of `p` followed by separators is the last segment of `p` |
| Pointer.BaseNameIgnoresTrailingSeparator | src/main/java/io/github/mtjakobczyk/javamagazine/ClaimCheckClient.java:57-67 | appending a `/` to a path leaves its object name unchanged |
| Pointer.BaseNameAfterSeparator | src/main/java/io/github/mtjakobczyk/javamagazine/ClaimCheckClient.java:67 | a path `dir/name` whose non-empty last segment `name` holds no `/` has the object name `name` |
| Pointer.NotesFileName | src/main/java/io/github/mtjakobczyk/javamagazine/ClaimCheckClient.java:57-67 | both `/home/u/notes.txt` and `/home/u/notes.txt/` have the object name `notes.txt` |
| Pointer.PathSegments | src/main/java/io/github/mtjakobczyk/javamagazine/ClaimCheckClient.java:68 | with `/`-free fields, the claim check splits into exactly the segments `"", n, ns, b, bucket, o, object` |
| Pointer.FieldsOf | src/main/java/io/github/mtjakobczyk/javamagazine/ClaimCheckClient.java:68 | any three fields read back from a string are `/`-free, and building the claim check from them gives that string again |
| Pointer.RoundTrip | src/main/java/io/github/mtjakobczyk/javamagazine/ClaimCheckClient.java:68 | a claim check built from `/`-free fields reads back to exactly those fields |
| Pointer.PathInjective | src/main/java/io/github/mtjakobczyk/javamagazine/ClaimCheckClient.java:68 | distinct `/`-free (namespace, bucket, object) triples give distinct claim checks |
| Pointer.SeparatorCollision | src/main/java/io/github/mtjakobczyk/javamagazine/ClaimCheckClient.java:68 | with a `/` inside a field, two different triples give the same claim check |
| Pointer.NotesPointer | src/main/java/io/github/mtjakobczyk/javamagazine/ClaimCheckClient.java:67-68 | namespace `ns1`, bucket `my-bucket` and object `notes.txt` give `/n/ns1/b/my-bucket/o/notes.txt` |
| Client.RunClient | src/main/java/io/github/mtjakobczyk/javamagazine/ClaimCheckClient.java:44-108 | one namespace lookup comes first. A client type other than `producer`, or a missing or non-regular file, leads to no further call. The upload happens once, to the looked-up namespace, the bucket argument and the file's base name, with the file's bytes. A publish happens only right after an upload that returned 200, goes to the stream id argument, and carries exactly one message: the claim check of the uploaded object. `Published` holds exactly when both statuses are 200. A refused upload or publish ends the run with its status |
| Client.PublishNotesScenario | src/main/java/io/github/mtjakobczyk/javamagazine/ClaimCheckClient.java:53-101 | producing `/home/u/notes.txt` into `my-bucket` of namespace `ns1` uploads `notes.txt` and publishes exactly the message `/n/ns1/b/my-bucket/o/notes.txt` |
| Client.PutRefusedScenario | src/main/java/io/github/mtjakobczyk/javamagazine/ClaimCheckClient.java:79-101 | an upload answered 503 ends the run with one upload and no publish |

## Left out

- SDK client construction, configuration and authentication (lines 35-42): library calls with no logic of their own. The stream endpoint argument is read only there, so it appears in no effect.
- The real namespace, upload and publish calls: each is an `Effect` in the trace, answered from `Env`. An SDK call that throws, instead of returning a non-200 status, is not modelled.
- File I/O: existence and regularity are booleans in `Env`, and the contents are an opaque byte sequence. Opening the stream, its closing by try-with-resources, and an `IOException` on read are not modelled.
- Pointer.BaseName: the object name is the last `/`-separated segment after trailing separators are dropped. On a Unix file system this agrees with `Paths.get(...).getFileName()`, which also drops trailing and repeated separators, for the paths the producer reaches. Not modelled: other platforms' separators, and the null file name of the root path `/`, which the code never reaches because `/` is not a regular file.
- The message value is the claim-check string itself. Its encoding to bytes with the platform's default charset (line 87) is not modelled.
- Console logging, including the file size in kB (line 63).
- Argument-count errors: `RunClient` requires the arguments the code indexes, five for every mode and seven for the producer.
- Consumer behaviour: the `"consumer"` branch of the source is empty, so there is no decoding, cursor or polling loop to model.
